/**
 The value of one `${{ ... }}` marker: a name the context knows, or the ternary
 `<condition> && 'yes' || 'no'`, resolved through the condition evaluator.
 */
module CiTernary {
  import opened Options
  import opened Text
  import opened CiParity
  import opened CiConditions

  // ---- The ternary ----

  datatype Ternary = Ternary(cond: string, yes: string, no: string)

  /** The last quote in a text. */
  function LastQuote(s: string): (r: Option<nat>)
    ensures r.Some? ==> r.value < |s| && s[r.value] == '\'' && '\'' !in s[r.value + 1..]
    ensures r == None ==> '\'' !in s
  {
    if s == "" then None
    else if s[|s| - 1] == '\'' then Some(|s| - 1)
    else LastQuote(s[..|s| - 1])
  }

  /** What stands before a quoted text that ends `s`, and the text. */
  function BeforeQuoted(s: string): (r: Option<(string, string)>) {
    if !EndsWith(s, "'") then None
    else
      match LastQuote(s[..|s| - 1])
      case None => None
      case Some(q) => Some((s[..q], s[q + 1..|s| - 1]))
  }

  /** What stands before an operator that ends `s` but for blanks. */
  function BeforeOperator(s: string, op: string): (r: Option<string>)
    requires |op| == 2
  {
    var t := StripRight(s);
    if EndsWith(t, op) then Some(t[..|t| - 2]) else None
  }

  /** The ternary read from its end; its condition is non-empty, on one line, and ends in no blank. */
  function ParseTernary(s: string): Option<Ternary> {
    match BeforeQuoted(s)
    case None => None
    case Some((a, no)) =>
      match BeforeOperator(a, OR)
      case None => None
      case Some(b) =>
        match BeforeQuoted(StripRight(b))
        case None => None
        case Some((c, yes)) =>
          match BeforeOperator(c, AND)
          case None => None
          case Some(d) =>
            var cond := StripRight(d);
            if cond == "" || '\n' in cond then None else Some(Ternary(cond, yes, no))
  }

  // ---- The reading of expressions as values ----

  datatype Value = Truth(holds: bool) | Literal(text: string)

  predicate IsTruthy(v: Value) {
    if v.Truth? then v.holds else v.text != ""
  }

  function Rendered(v: Value): string {
    if v.Literal? then v.text else if v.holds then "true" else "false"
  }

  function Operand(s: string, context: Context): Option<Value> {
    var t := Strip(s);
    if IsQuoted(t) then Some(Literal(t[1..|t| - 1]))
    else
      match Atom(s, context)
      case None => None
      case Some(b) => Some(Truth(b))
  }

  function ReadValueAnd(s: string, context: Context): Option<Value>
    decreases |s|
  {
    match FirstOutside(s, AND, false)
    case None => Operand(s, context)
    case Some(i) =>
      match Operand(s[..i], context)
      case None => None
      case Some(v) => if IsTruthy(v) then ReadValueAnd(s[i + 2..], context) else Some(v)
  }

  function ReadValue(s: string, context: Context): Option<Value>
    decreases |s|
  {
    match FirstOutside(s, OR, false)
    case None => ReadValueAnd(s, context)
    case Some(i) =>
      match ReadValueAnd(s[..i], context)
      case None => None
      case Some(v) => if IsTruthy(v) then Some(v) else ReadValue(s[i + 2..], context)
  }

  /** Inside or outside quotes after a text. */
  predicate QuotedAfter(s: string, quoted: bool) {
    if s == "" then quoted else QuotedAfter(s[1..], Toggled(quoted, s[0]))
  }

  predicate IsBalanced(s: string) {
    !QuotedAfter(s, false)
  }

  /** What the workflow makes of an expression: nothing if a quote is left open, otherwise its value. */
  function WorkflowValue(s: string, context: Context): Option<Value> {
    if IsBalanced(s) then ReadValue(s, context) else None
  }

  // ---- The shape of a ternary ----

  lemma BeforeQuotedShape(s: string)
    requires BeforeQuoted(s).Some?
    ensures var (a, q) := BeforeQuoted(s).value;
            s == a + ("'" + q + "'") && '\'' !in q
  {
    var front := s[..|s| - 1];
    var q := LastQuote(front).value;
    assert front[q + 1..] == s[q + 1..|s| - 1];
    assert s[|s| - 1..] == "'";
  }

  lemma BeforeOperatorShape(s: string, op: string) returns (blank: string)
    requires |op| == 2 && BeforeOperator(s, op).Some?
    ensures AllSpace(blank) && s == BeforeOperator(s, op).value + (op + blank)
  {
    var k := StripRightSplits(s);
    blank := s[k..];
    var t := s[..k];
    assert t == t[..|t| - 2] + op;
  }

  /** The text after the condition: `&& 'yes'`, with the blanks as they stand. */
  function Middle(w1: string, w2: string, yes: string, w3: string): string {
    w1 + (AND + (w2 + (("'" + yes + "'") + w3)))
  }

  function Whole(t: Ternary, w1: string, w2: string, w3: string, w4: string): string {
    (t.cond + Middle(w1, w2, t.yes, w3)) + (OR + (w4 + ("'" + t.no + "'")))
  }

  /** The half after the condition's operand: the two quoted texts and the `||` between them. */
  lemma BranchesShape(s: string) returns (c: string, yes: string, w3: string, w4: string, no: string)
    requires ParseTernary(s).Some?
    ensures AllSpace(w3) && AllSpace(w4) && '\'' !in yes && '\'' !in no
    ensures s == (((c + ("'" + yes + "'")) + w3) + (OR + w4)) + ("'" + no + "'")
    ensures BeforeOperator(c, AND).Some?
    ensures ParseTernary(s) == Some(Ternary(StripRight(BeforeOperator(c, AND).value), yes, no))
  {
    var pair := BeforeQuoted(s).value;
    BeforeQuotedShape(s);
    no := pair.1;
    w4 := BeforeOperatorShape(pair.0, OR);
    var b := BeforeOperator(pair.0, OR).value;
    var k3 := StripRightSplits(b);
    w3 := b[k3..];
    assert b == StripRight(b) + w3;
    var inner := BeforeQuoted(StripRight(b)).value;
    BeforeQuotedShape(StripRight(b));
    c, yes := inner.0, inner.1;
  }

  lemma ConditionShape(c: string) returns (cond: string, w1: string, w2: string)
    requires BeforeOperator(c, AND).Some?
    ensures cond == StripRight(BeforeOperator(c, AND).value) && (cond == "" || !IsSpace(cond[|cond| - 1]))
    ensures AllSpace(w1) && AllSpace(w2) && c == (cond + w1) + (AND + w2)
  {
    w2 := BeforeOperatorShape(c, AND);
    var d := BeforeOperator(c, AND).value;
    var k := StripRightSplits(d);
    cond, w1 := d[..k], d[k..];
    assert d == cond + w1;
  }

  lemma TernaryShape(s: string) returns (t: Ternary, w1: string, w2: string, w3: string, w4: string)
    requires ParseTernary(s).Some?
    ensures ParseTernary(s) == Some(t) && t.cond != ""
    ensures AllSpace(w1) && AllSpace(w2) && AllSpace(w3) && AllSpace(w4) && '\'' !in t.yes && '\'' !in t.no
    ensures s == Whole(t, w1, w2, w3, w4) && t.cond <= s && !IsSpace(t.cond[|t.cond| - 1])
  {
    var c, cond, yes, no;
    c, yes, w3, w4, no := BranchesShape(s);
    cond, w1, w2 := ConditionShape(c);
    t := Ternary(cond, yes, no);
    var b := (c + ("'" + yes + "'")) + w3;
    Assemble(cond, w1, cond + w1, w2, c, yes, w3, b, w4, b + (OR + w4), no, s);
  }

  lemma Assemble(cond: string, w1: string, d: string, w2: string, c: string, yes: string, w3: string, b: string,
                 w4: string, a: string, no: string, s: string)
    requires d == cond + w1
    requires c == d + (AND + w2)
    requires b == (c + ("'" + yes + "'")) + w3
    requires a == b + (OR + w4)
    requires s == a + ("'" + no + "'")
    ensures s == Whole(Ternary(cond, yes, no), w1, w2, w3, w4)
    ensures cond <= s
  {
    assert b == cond + Middle(w1, w2, yes, w3);
  }

  // ---- Scanning it ----

  /** Nothing in it, outside its quotes, is this operator, whatever follows. */
  ghost predicate IsClosedFor(s: string, op: string)
    requires |op| == 2
  {
    forall rest: string :: Passes(s, rest, Scan(op, false), Scan(op, false))
  }

  lemma ClosedForBoth(s: string, op: string)
    requires IsClosed(s) && |op| == 2 && IsOperator(op)
    ensures IsClosedFor(s, op)
  {
  }

  lemma ClosedForConcat(a: string, b: string, op: string)
    requires |op| == 2 && IsClosedFor(a, op) && IsClosedFor(b, op)
    ensures IsClosedFor(a + b, op)
  {
    forall rest: string
      ensures Passes(a + b, rest, Scan(op, false), Scan(op, false))
    {
      PassesConcat(a, b, rest, Scan(op, false), Scan(op, false), Scan(op, false));
    }
  }

  lemma CharIsClosedFor(c: char, op: string)
    requires |op| == 2 && c != op[0] && c != '\''
    ensures IsClosedFor([c], op)
  {
    forall rest: string
      ensures Passes([c], rest, Scan(op, false), Scan(op, false))
    {
      PassOver(c, rest, op, false);
    }
  }

  /** An `&&` does not stop the search for an `||`. */
  lemma AndIsClosedForOr()
    ensures IsClosedFor(AND, OR)
  {
    CharIsClosedFor('&', OR);
    ClosedForConcat("&", "&", OR);
    assert "&" + "&" == AND;
  }

  lemma SplitsAfter(s: string, rest: string, op: string)
    requires |op| == 2 && IsClosedFor(s, op)
    ensures FirstOutside(s + (op + rest), op, false) == Some(|s|)
    ensures (s + (op + rest))[..|s|] == s && (s + (op + rest))[|s| + 2..] == rest
  {
    assert Passes(s, op + rest, Scan(op, false), Scan(op, false));
    assert (op + rest)[..2] == op;
  }

  /** A quoted text between blanks reads as that text. */
  lemma LiteralReads(before: string, text: string, after: string, context: Context)
    requires AllSpace(before) && AllSpace(after) && '\'' !in text
    ensures var s := before + (("'" + text + "'") + after);
            && IsClosed(s) && Operand(s, context) == Some(Literal(text))
            && ReadValueAnd(s, context) == Some(Literal(text)) && ReadValue(s, context) == Some(Literal(text))
  {
    var quoted := "'" + text + "'";
    var s := before + (quoted + after);
    QuoteIsClosed(text);
    BlankIsClosed(before);
    BlankIsClosed(after);
    ClosedConcat(quoted, after);
    ClosedConcat(before, quoted + after);
    ClosedAlone(s, AND);
    ClosedAlone(s, OR);
    assert s == before + quoted + after;
    StripIgnoresBlanksAround(before, quoted, after);
    assert quoted[1..|quoted| - 1] == text;
  }

  /** An atom, with blanks after it, reads as its truth value. */
  lemma AtomReads(s: string, blank: string, context: Context)
    requires AllSpace(blank) && Atom(s, context).Some?
    ensures Operand(s + blank, context) == Some(Truth(Atom(s, context).value))
    ensures IsClosed(s + blank)
  {
    StripIgnoresBlanksAfter(s, blank);
    AtomIsClosed(s, context);
    BlankIsClosed(blank);
    ClosedConcat(s, blank);
    AtomIsNotQuoted(Strip(s));
  }

  lemma AtomIsNotQuoted(t: string)
    ensures IsQuoted(t) ==> Keyword(t) == None && ParseComparison(t) == None
  {
    if IsQuoted(t) && t[0] == '\'' {
      assert !IsNameStart(t[0]);
    }
  }

  // ---- Quotes ----

  lemma {:induction false} QuotesConcat(a: string, b: string, quoted: bool)
    ensures QuotedAfter(a + b, quoted) == QuotedAfter(b, QuotedAfter(a, quoted))
  {
    if a == "" {
      assert a + b == b;
    } else {
      assert (a + b)[1..] == a[1..] + b;
      QuotesConcat(a[1..], b, Toggled(quoted, a[0]));
    }
  }

  lemma {:induction false} QuotelessKeepsState(s: string, quoted: bool)
    requires '\'' !in s
    ensures QuotedAfter(s, quoted) == quoted
  {
    if s != "" {
      QuotelessKeepsState(s[1..], quoted);
    }
  }

  lemma QuotedTextKeepsState(text: string, quoted: bool)
    requires '\'' !in text
    ensures QuotedAfter("'" + text + "'", quoted) == quoted
  {
    QuotesConcat("'", text, quoted);
    QuotesConcat("'" + text, "'", quoted);
    QuotelessKeepsState(text, QuotedAfter("'", quoted));
    assert "'"[1..] == "";
  }

  lemma OperatorKeepsState(op: string, quoted: bool)
    requires IsOperator(op)
    ensures QuotedAfter(op, quoted) == quoted
  {
    QuotelessKeepsState(op, quoted);
  }

  /** The scan finds an operator only outside quotes. */
  lemma {:induction false} FoundOutside(s: string, op: string, quoted: bool)
    requires |op| == 2 && FirstOutside(s, op, quoted).Some?
    ensures !QuotedAfter(s[..FirstOutside(s, op, quoted).value], quoted)
  {
    var i := FirstOutside(s, op, quoted).value;
    if i > 0 {
      FoundOutside(s[1..], op, Toggled(quoted, s[0]));
      assert s[..i][1..] == s[1..][..i - 1];
    }
  }

  lemma ClosedIsBalanced(s: string)
    requires IsClosed(s)
    ensures IsBalanced(s)
  {
    assert IsOperator(OR) && Passes(s, OR, Scan(OR, false), Scan(OR, false));
    assert FirstOutside(s + OR, OR, false) == Some(|s|);
    FoundOutside(s + OR, OR, false);
    assert (s + OR)[..|s|] == s;
  }

  /** The blanks, operators and quoted texts of a ternary leave open no quote its condition closes. */
  lemma MiddleKeepsState(w1: string, w2: string, yes: string, w3: string, quoted: bool)
    requires AllSpace(w1) && AllSpace(w2) && AllSpace(w3) && '\'' !in yes
    ensures QuotedAfter(Middle(w1, w2, yes, w3), quoted) == quoted
  {
    BlankHasNoQuote(w1);
    BlankHasNoQuote(w2);
    BlankHasNoQuote(w3);
    var text := "'" + yes + "'";
    QuotedTextKeepsState(yes, quoted);
    QuotelessKeepsState(w1, quoted);
    QuotelessKeepsState(w2, quoted);
    QuotelessKeepsState(w3, quoted);
    OperatorKeepsState(AND, quoted);
    QuotesConcat(text, w3, quoted);
    QuotesConcat(w2, text + w3, quoted);
    QuotesConcat(AND, w2 + (text + w3), quoted);
    QuotesConcat(w1, AND + (w2 + (text + w3)), quoted);
  }

  lemma BlankHasNoQuote(s: string)
    requires AllSpace(s)
    ensures '\'' !in s
  {
  }

  lemma WholeKeepsState(t: Ternary, w1: string, w2: string, w3: string, w4: string)
    requires AllSpace(w1) && AllSpace(w2) && AllSpace(w3) && AllSpace(w4) && '\'' !in t.yes && '\'' !in t.no
    ensures IsBalanced(Whole(t, w1, w2, w3, w4)) <==> IsBalanced(t.cond)
  {
    var quoted := QuotedAfter(t.cond, false);
    var text := "'" + t.no + "'";
    var left := t.cond + Middle(w1, w2, t.yes, w3);
    MiddleKeepsState(w1, w2, t.yes, w3, quoted);
    QuotesConcat(t.cond, Middle(w1, w2, t.yes, w3), false);
    BlankHasNoQuote(w4);
    QuotedTextKeepsState(t.no, quoted);
    QuotelessKeepsState(w4, quoted);
    OperatorKeepsState(OR, quoted);
    QuotesConcat(w4, text, quoted);
    QuotesConcat(OR, w4 + text, quoted);
    QuotesConcat(left, OR + (w4 + text), false);
  }

  /** A chain that holds is made of atoms throughout, so its quotes are balanced. */
  lemma {:induction false} HoldingChainIsBalanced(cond: string, context: Context)
    requires All(Split(cond, AND), context) == Some(true)
    ensures IsBalanced(cond)
    decreases |cond|
  {
    match FirstAt(cond, AND) {
      case None =>
        OneAtom(cond, context);
        AtomIsClosed(cond, context);
        ClosedIsBalanced(cond);
      case Some(i) =>
        AllOfSplit(cond, i, context);
        HoldingChainIsBalanced(cond[i + 2..], context);
        AtomIsClosed(cond[..i], context);
        ClosedIsBalanced(cond[..i]);
        RejoinBalanced(cond, i);
    }
  }

  lemma RejoinBalanced(cond: string, i: nat)
    requires i + 2 <= |cond| && cond[i..i + 2] == AND && IsBalanced(cond[..i]) && IsBalanced(cond[i + 2..])
    ensures IsBalanced(cond)
  {
    var rest := cond[i + 2..];
    OperatorKeepsState(AND, false);
    QuotesConcat(AND, rest, false);
    QuotesConcat(cond[..i], AND + rest, false);
    assert cond == cond[..i] + (AND + rest);
  }

  // ---- Text without an `||` ----

  /** A character that starts no `||` is passed over. */
  lemma PassOverNoOr(c: char, tail: string, quoted: bool)
    requires c != '|' || tail == "" || tail[0] != '|'
    ensures Passes([c], tail, Scan(OR, quoted), Scan(OR, Toggled(quoted, c)))
  {
    var s := [c] + tail;
    assert s[1..] == tail;
    assert |s| >= 2 ==> s[..2][0] == c && s[..2][1] == tail[0];
  }

  /** Text with no `||` is passed over, quoted or not, if the next text does not complete one. */
  lemma {:induction false} PassOverWithoutOr(s: string, rest: string, quoted: bool)
    requires FirstAt(s, OR) == None && (rest == "" || rest[0] != '|')
    ensures Passes(s, rest, Scan(OR, quoted), Scan(OR, QuotedAfter(s, quoted)))
  {
    if s == "" {
      assert s + rest == rest;
    } else {
      var tail := s[1..];
      assert s[0] == '|' && tail != "" ==> tail[0] != '|' by {
        if |s| >= 2 { assert s[..2] != OR; assert s[..2] == [s[0], s[1]]; }
      }
      PassOverNoOr(s[0], tail + rest, quoted);
      PassOverWithoutOr(tail, rest, Toggled(quoted, s[0]));
      assert s == [s[0]] + tail;
      PassesConcat([s[0]], tail, rest,
                   Scan(OR, quoted), Scan(OR, Toggled(quoted, s[0])), Scan(OR, QuotedAfter(s, quoted)));
    }
  }

  // ---- What it reads as ----

  /** An atom and an `&&` in front of anything: the rest if the atom holds, otherwise false. */
  lemma AtomThenAnd(a: string, blank: string, rest: string, context: Context)
    requires Atom(a, context).Some? && AllSpace(blank)
    ensures ReadValueAnd((a + blank) + (AND + rest), context)
         == if Atom(a, context).value then ReadValueAnd(rest, context) else Some(Truth(false))
  {
    AtomReads(a, blank, context);
    ClosedForBoth(a + blank, AND);
    SplitsAfter(a + blank, rest, AND);
  }

  lemma AtomReadsBranch(cond: string, w1: string, w2: string, yes: string, w3: string, context: Context)
    requires Atom(cond, context).Some?
    requires AllSpace(w1) && AllSpace(w2) && AllSpace(w3) && '\'' !in yes
    ensures ReadValueAnd(cond + Middle(w1, w2, yes, w3), context)
         == Some(if Atom(cond, context).value then Literal(yes) else Truth(false))
  {
    var tail := w2 + (("'" + yes + "'") + w3);
    AtomThenAnd(cond, w1, tail, context);
    LiteralReads(w2, yes, w3, context);
    assert cond + Middle(w1, w2, yes, w3) == (cond + w1) + (AND + tail);
  }

  /** `<chain> && 'yes'`: the text if every atom holds, and false at the first that fails. */
  lemma {:induction false} ChainReads(cond: string, w1: string, w2: string, yes: string, w3: string, context: Context)
    requires All(Split(cond, AND), context).Some?
    requires AllSpace(w1) && AllSpace(w2) && AllSpace(w3) && '\'' !in yes
    ensures ReadValueAnd(cond + Middle(w1, w2, yes, w3), context)
         == Some(if All(Split(cond, AND), context).value then Literal(yes) else Truth(false))
    decreases |cond|
  {
    match FirstAt(cond, AND) {
      case None =>
        OneAtom(cond, context);
        AtomReadsBranch(cond, w1, w2, yes, w3, context);
      case Some(i) =>
        var rest := cond[i + 2..];
        AllOfSplit(cond, i, context);
        AtomThenAnd(cond[..i], "", rest + Middle(w1, w2, yes, w3), context);
        RejoinChain(cond, i, rest, Middle(w1, w2, yes, w3));
        if Atom(cond[..i], context) == Some(true) {
          ChainReads(rest, w1, w2, yes, w3, context);
        }
    }
  }

  lemma RejoinChain(cond: string, i: nat, rest: string, middle: string)
    requires i + 2 <= |cond| && rest == cond[i + 2..] && cond[i..i + 2] == AND
    ensures (cond[..i] + "") + (AND + (rest + middle)) == cond + middle
  {
    assert cond[..i] + "" == cond[..i];
    assert cond == cond[..i] + (AND + rest);
  }

  lemma OrReads(left: string, right: string, context: Context)
    requires FirstOutside(left + (OR + right), OR, false) == Some(|left|) && ReadValueAnd(left, context).Some?
    ensures ReadValue(left + (OR + right), context)
         == if IsTruthy(ReadValueAnd(left, context).value) then ReadValueAnd(left, context) else ReadValue(right, context)
  {
    var s := left + (OR + right);
    assert s[..|left|] == left && s[|left| + 2..] == right;
  }

  lemma MiddleStartsNoOr(w1: string, w2: string, yes: string, w3: string, rest: string)
    requires AllSpace(w1)
    ensures var s := Middle(w1, w2, yes, w3) + rest; s != "" && s[0] != '|'
  {
    if w1 != "" {
      assert IsSpace(w1[0]);
    }
  }

  lemma PassesTo(a: string, b: string, rest: string, scan: string -> Option<nat>)
    requires Passes(a, b + rest, scan, scan) && Passes(b, rest, scan, scan) && scan(rest) == Some(0)
    ensures scan((a + b) + rest) == Some(|a + b|)
  {
    PassesConcat(a, b, rest, scan, scan, scan);
  }

  /** With its condition free of `||` and its quotes balanced, a ternary is split at its own `||`. */
  lemma TernarySplits(cond: string, w1: string, w2: string, yes: string, w3: string, right: string)
    requires FirstAt(cond, OR) == None && IsBalanced(cond)
    requires AllSpace(w1) && AllSpace(w2) && AllSpace(w3) && '\'' !in yes
    ensures var left := cond + Middle(w1, w2, yes, w3);
            FirstOutside(left + (OR + right), OR, false) == Some(|left|)
  {
    var middle, rest := Middle(w1, w2, yes, w3), OR + right;
    MiddleStartsNoOr(w1, w2, yes, w3, rest);
    PassOverWithoutOr(cond, middle + rest, false);
    MiddleIsClosedForOr(w1, w2, yes, w3);
    assert Scan(OR, false)(rest) == Some(0) by { assert rest[..2] == OR; }
    PassesTo(cond, middle, rest, Scan(OR, false));
  }

  /** The value of a ternary, from the value of its part before the `||`. */
  lemma BranchesRead(t: Ternary, holds: bool, w1: string, w2: string, w3: string, w4: string, context: Context)
    requires AllSpace(w1) && AllSpace(w2) && AllSpace(w3) && AllSpace(w4) && '\'' !in t.yes && '\'' !in t.no
    requires FirstAt(t.cond, OR) == None && IsBalanced(t.cond)
    requires ReadValueAnd(t.cond + Middle(w1, w2, t.yes, w3), context)
          == Some(if holds then Literal(t.yes) else Truth(false))
    ensures ReadValue(Whole(t, w1, w2, w3, w4), context) == Some(Literal(if holds && t.yes != "" then t.yes else t.no))
  {
    var left := t.cond + Middle(w1, w2, t.yes, w3);
    var right := w4 + ("'" + t.no + "'");
    TernarySplits(t.cond, w1, w2, t.yes, w3, right);
    OrReads(left, right, context);
    assert ReadValue(right, context) == Some(Literal(t.no)) by {
      assert ("'" + t.no + "'") + "" == "'" + t.no + "'";
      LiteralReads(w4, t.no, "", context);
    }
  }

  lemma MiddleIsClosedForOr(w1: string, w2: string, yes: string, w3: string)
    requires AllSpace(w1) && AllSpace(w2) && AllSpace(w3) && '\'' !in yes
    ensures IsClosedFor(Middle(w1, w2, yes, w3), OR)
  {
    BlankIsClosed(w1);
    BlankIsClosed(w2);
    BlankIsClosed(w3);
    QuoteIsClosed(yes);
    ClosedConcat("'" + yes + "'", w3);
    ClosedConcat(w2, ("'" + yes + "'") + w3);
    ClosedForBoth(w2 + (("'" + yes + "'") + w3), OR);
    AndIsClosedForOr();
    ClosedForConcat(AND, w2 + (("'" + yes + "'") + w3), OR);
    ClosedForBoth(w1, OR);
    ClosedForConcat(w1, AND + (w2 + (("'" + yes + "'") + w3)), OR);
  }

  /** Some disjunct other than the last holds, so the reading stops before the quoted texts. */
  predicate HoldsBeforeLast(cond: string, context: Context) {
    FirstAt(cond, OR).Some? && Any(Split(cond, OR)[..|Split(cond, OR)| - 1], context) == Some(true)
  }

  lemma AtomOrRest(a: string, rest: string, context: Context)
    requires Atom(a, context).Some?
    ensures ReadValue(a + (OR + rest), context)
         == if Atom(a, context).value then Some(Truth(true)) else ReadValue(rest, context)
  {
    AtomReads(a, "", context);
    assert a + "" == a;
    ClosedAlone(a, AND);
    ClosedForBoth(a, OR);
    SplitsAfter(a, rest, OR);
  }

  lemma RejoinDisjunction(t: Ternary, u: Ternary, i: nat, w1: string, w2: string, w3: string, w4: string)
    requires i + 2 <= |t.cond| && u == t.(cond := t.cond[i + 2..]) && t.cond[i..i + 2] == OR
    ensures Whole(t, w1, w2, w3, w4) == t.cond[..i] + (OR + Whole(u, w1, w2, w3, w4))
  {
    assert t.cond == t.cond[..i] + (OR + u.cond);
  }

  lemma OneAtomTernaryReads(t: Ternary, w1: string, w2: string, w3: string, w4: string, context: Context)
    requires Atom(t.cond, context).Some? && FirstAt(t.cond, OR) == None
    requires AllSpace(w1) && AllSpace(w2) && AllSpace(w3) && AllSpace(w4) && '\'' !in t.yes && '\'' !in t.no
    ensures ReadValue(Whole(t, w1, w2, w3, w4), context)
         == Some(Literal(if Atom(t.cond, context).value && t.yes != "" then t.yes else t.no))
  {
    AtomIsClosed(t.cond, context);
    ClosedIsBalanced(t.cond);
    AtomReadsBranch(t.cond, w1, w2, t.yes, w3, context);
    BranchesRead(t, Atom(t.cond, context).value, w1, w2, w3, w4, context);
  }

  /** The value of a ternary whose condition is a disjunction of atoms. */
  lemma {:induction false} DisjunctionTernaryReads(
    t: Ternary, w1: string, w2: string, w3: string, w4: string, context: Context)
    requires Any(Split(t.cond, OR), context).Some?
    requires AllSpace(w1) && AllSpace(w2) && AllSpace(w3) && AllSpace(w4) && '\'' !in t.yes && '\'' !in t.no
    ensures ReadValue(Whole(t, w1, w2, w3, w4), context)
         == Some(if HoldsBeforeLast(t.cond, context) then Truth(true)
                 else Literal(if Any(Split(t.cond, OR), context).value && t.yes != "" then t.yes else t.no))
    decreases |t.cond|
  {
    match FirstAt(t.cond, OR) {
      case None =>
        assert Split(t.cond, OR) == [t.cond];
        OneAtom(t.cond, context);
        OneAtomTernaryReads(t, w1, w2, w3, w4, context);
      case Some(i) =>
        var u := t.(cond := t.cond[i + 2..]);
        FrontOfSplit(t.cond, i, context);
        RejoinDisjunction(t, u, i, w1, w2, w3, w4);
        AtomOrRest(t.cond[..i], Whole(u, w1, w2, w3, w4), context);
        if Atom(t.cond[..i], context) == Some(false) {
          DisjunctionTernaryReads(u, w1, w2, w3, w4, context);
          LastOfOne(u.cond, context);
        }
    }
  }

  lemma LastOfOne(cond: string, context: Context)
    ensures FirstAt(cond, OR) == None ==> Any(Split(cond, OR)[..|Split(cond, OR)| - 1], context) == Some(false)
  {
    if FirstAt(cond, OR) == None {
      assert Split(cond, OR)[..0] == [];
    }
  }

  lemma FrontOfSplit(cond: string, i: nat, context: Context)
    requires FirstAt(cond, OR) == Some(i)
    ensures var parts, tail := Split(cond, OR), Split(cond[i + 2..], OR);
            && Any(parts, context) == AnyAfter(Atom(cond[..i], context), Any(tail, context))
            && Any(parts[..|parts| - 1], context)
            == AnyAfter(Atom(cond[..i], context), Any(tail[..|tail| - 1], context))
  {
    SplitUnfolds(cond, OR, i);
    FrontOfParts(cond[..i], Split(cond[i + 2..], OR), context);
  }

  lemma FrontOfParts(a: string, tail: seq<string>, context: Context)
    requires tail != []
    ensures var parts := [a] + tail;
            && Any(parts, context) == AnyAfter(Atom(a, context), Any(tail, context))
            && Any(parts[..|parts| - 1], context) == AnyAfter(Atom(a, context), Any(tail[..|tail| - 1], context))
  {
    FirstOfFront(a, tail);
    AnyUnfolds(a, tail, context);
    AnyUnfolds(a, tail[..|tail| - 1], context);
  }

  lemma FirstOfFront(a: string, tail: seq<string>)
    requires tail != []
    ensures ([a] + tail)[..|[a] + tail| - 1] == [a] + tail[..|tail| - 1]
  {
  }

  // ---- The text of one marker ----

  /** The text one marker is replaced with, or nothing where the substitution raises. */
  function Replacement(expression: string, context: Context): Option<string> {
    if expression in context then Some(context[expression])
    else
      match ParseTernary(expression)
      case None => None
      case Some(t) =>
        match EvaluateIf(t.cond, context)
        case None => None
        case Some(taken) => Some(if taken then t.yes else t.no)
  }

  lemma UnwrappedCondition(s: string, cond: string)
    requires s == Strip(s) && '}' !in s && cond <= s && cond != "" && !IsSpace(cond[|cond| - 1])
    ensures Unwrapped(cond) == cond
  {
    var l, r := StripSplits(s);
    assert s[0] == cond[0] && !IsSpace(s[0]) by {
      if IsSpace(s[0]) { StripLeftShortens(s); }
    }
    StripTrimmed(cond);
    BraceAtEnd(cond);
  }

  lemma BraceAtEnd(s: string)
    ensures EndsWith(s, "}}") ==> '}' in s
  {
    if EndsWith(s, "}}") {
      assert s[|s| - 2..][0] == '}';
      assert s[|s| - 2] == '}';
    }
  }

  lemma StripLeftShortens(s: string)
    requires s != "" && IsSpace(s[0])
    ensures |Strip(s)| < |s|
  {
    var k := StripLeftSplits(s[1..]);
    var j := StripRightSplits(StripLeft(s));
  }

  /** A bare condition with no `||` is evaluated as a chain, of one atom if need be. */
  lemma BareChain(cond: string, context: Context)
    requires FirstAt(cond, OR) == None
    ensures EvaluateBare(cond, context) == All(Split(cond, AND), context)
  {
    if FirstAt(cond, AND) == None {
      OneAtom(cond, context);
    }
  }

  /** The value of a ternary, for every condition the evaluator answers. */
  function TernaryValue(t: Ternary, taken: bool, context: Context): Value {
    if HoldsBeforeLast(t.cond, context) then Truth(true)
    else Literal(if taken && t.yes != "" then t.yes else t.no)
  }

  lemma ChainTernaryReads(t: Ternary, w1: string, w2: string, w3: string, w4: string, context: Context)
    requires AllSpace(w1) && AllSpace(w2) && AllSpace(w3) && AllSpace(w4) && '\'' !in t.yes && '\'' !in t.no
    requires FirstAt(t.cond, OR) == None && EvaluateBare(t.cond, context).Some? && IsBalanced(t.cond)
    ensures ReadValue(Whole(t, w1, w2, w3, w4), context)
         == Some(TernaryValue(t, EvaluateBare(t.cond, context).value, context))
  {
    BareChain(t.cond, context);
    ChainReads(t.cond, w1, w2, t.yes, w3, context);
    BranchesRead(t, All(Split(t.cond, AND), context).value, w1, w2, w3, w4, context);
  }

  lemma WholeReads(t: Ternary, w1: string, w2: string, w3: string, w4: string, context: Context)
    requires AllSpace(w1) && AllSpace(w2) && AllSpace(w3) && AllSpace(w4) && '\'' !in t.yes && '\'' !in t.no
    requires EvaluateBare(t.cond, context).Some?
    ensures WorkflowValue(Whole(t, w1, w2, w3, w4), context)
         == if IsBalanced(t.cond) then Some(TernaryValue(t, EvaluateBare(t.cond, context).value, context)) else None
  {
    WholeKeepsState(t, w1, w2, w3, w4);
    if FirstAt(t.cond, OR).Some? {
      DisjunctionTernaryReads(t, w1, w2, w3, w4, context);
    } else if IsBalanced(t.cond) {
      ChainTernaryReads(t, w1, w2, w3, w4, context);
    }
  }

  lemma TernaryReads(s: string, t: Ternary, taken: bool, context: Context)
    requires s == Strip(s) && '}' !in s && ParseTernary(s) == Some(t) && EvaluateIf(t.cond, context) == Some(taken)
    ensures WorkflowValue(s, context)
         == if IsBalanced(t.cond) then Some(TernaryValue(t, taken, context)) else None
  {
    var u, w1, w2, w3, w4 := TernaryShape(s);
    UnwrappedCondition(s, t.cond);
    WholeReads(t, w1, w2, w3, w4, context);
  }

  /**
   Exactly when a substituted ternary is what the workflow would have had, for every ternary
   whose condition the evaluator answers. The workflow has a value exactly when the condition
   leaves no quote open. It is the substituted text when the condition fails; when it holds,
   unless the first text is empty and the second is not, or a disjunct before the last holds,
   which makes the whole expression `true`.
   */
  lemma TernaryAgreesExactlyWhen(s: string, t: Ternary, taken: bool, context: Context)
    requires s == Strip(s) && '}' !in s && ParseTernary(s) == Some(t) && EvaluateIf(t.cond, context) == Some(taken)
    ensures WorkflowValue(s, context).Some? <==> IsBalanced(t.cond)
    ensures IsBalanced(t.cond) ==>
              (Rendered(WorkflowValue(s, context).value) == (if taken then t.yes else t.no)
               <==> (!taken
                     || (if HoldsBeforeLast(t.cond, context) then t.yes == "true" else t.yes != "" || t.no == "")))
  {
    TernaryReads(s, t, taken, context);
    FrontMeansTaken(s, t, taken, context);
  }

  lemma FrontMeansTaken(s: string, t: Ternary, taken: bool, context: Context)
    requires s == Strip(s) && '}' !in s && ParseTernary(s) == Some(t) && EvaluateIf(t.cond, context) == Some(taken)
    ensures HoldsBeforeLast(t.cond, context) ==> taken
  {
    FrontAnswers(t.cond, context);
    var u, w1, w2, w3, w4 := TernaryShape(s);
    UnwrappedCondition(s, t.cond);
  }

  lemma FrontAnswers(cond: string, context: Context)
    ensures HoldsBeforeLast(cond, context) ==> EvaluateBare(cond, context) == Some(true)
  {
    FrontImpliesWhole(cond, context);
  }

  /** With one disjunct only, an answer that the condition holds needs no balance checked. */
  lemma HoldingNeedsNoCheck(cond: string, context: Context)
    requires FirstAt(cond, OR) == None && EvaluateBare(cond, context) == Some(true)
    ensures IsBalanced(cond)
  {
    BareChain(cond, context);
    HoldingChainIsBalanced(cond, context);
  }

  lemma {:induction false} FrontImpliesWhole(cond: string, context: Context)
    ensures HoldsBeforeLast(cond, context) ==> Any(Split(cond, OR), context) == Some(true)
    decreases |cond|
  {
    if FirstAt(cond, OR).Some? {
      var i := FirstAt(cond, OR).value;
      FrontOfSplit(cond, i, context);
      FrontImpliesWhole(cond[i + 2..], context);
      LastOfOne(cond[i + 2..], context);
    }
  }

  // ---- Every ternary is recognised, and two that disagree ----

  lemma {:induction false} LastQuoteIs(a: string, text: string)
    requires '\'' !in text
    ensures LastQuote(a + "'" + text) == Some(|a|)
    decreases |text|
  {
    var s := a + "'" + text;
    if text != "" {
      var front := text[..|text| - 1];
      assert s[..|s| - 1] == a + "'" + front;
      LastQuoteIs(a, front);
    }
  }

  lemma QuotedIsFound(a: string, text: string)
    requires '\'' !in text
    ensures BeforeQuoted(a + ("'" + text + "'")) == Some((a, text))
  {
    var s := a + ("'" + text + "'");
    assert s[..|s| - 1] == a + "'" + text;
    LastQuoteIs(a, text);
    assert s[|s| - 1..] == "'";
  }

  lemma OperatorIsFound(a: string, op: string, blank: string)
    requires IsOperator(op) && AllSpace(blank)
    ensures BeforeOperator(a + (op + blank), op) == Some(a)
  {
    var t := a + op;
    StripRightIs(t, blank);
    assert a + (op + blank) == t + blank;
    assert t[|t| - 2..] == op;
  }

  predicate IsTernary(t: Ternary) {
    && t.cond != "" && '\n' !in t.cond && !IsSpace(t.cond[|t.cond| - 1])
    && '\'' !in t.yes && '\'' !in t.no
  }

  lemma HalfIsFound(t: Ternary, w1: string, w2: string)
    requires IsTernary(t) && AllSpace(w1) && AllSpace(w2)
    ensures var c := (t.cond + w1) + (AND + w2);
            && BeforeQuoted(c + ("'" + t.yes + "'")) == Some((c, t.yes))
            && BeforeOperator(c, AND) == Some(t.cond + w1) && StripRight(t.cond + w1) == t.cond
  {
    QuotedIsFound((t.cond + w1) + (AND + w2), t.yes);
    OperatorIsFound(t.cond + w1, AND, w2);
    StripRightIs(t.cond, w1);
  }

  /** The round trip: whatever blanks stand between its parts, a ternary is read back whole. */
  lemma TernaryIsFound(t: Ternary, w1: string, w2: string, w3: string, w4: string)
    requires IsTernary(t) && AllSpace(w1) && AllSpace(w2) && AllSpace(w3) && AllSpace(w4)
    ensures ParseTernary(Whole(t, w1, w2, w3, w4)) == Some(t)
  {
    var c := (t.cond + w1) + (AND + w2);
    var quoted := c + ("'" + t.yes + "'");
    var b := quoted + w3;
    var a := b + (OR + w4);
    QuotedIsFound(a, t.no);
    OperatorIsFound(b, OR, w4);
    StripRightIs(quoted, w3);
    HalfIsFound(t, w1, w2);
    Assemble(t.cond, w1, t.cond + w1, w2, c, t.yes, w3, b, w4, a, t.no, a + ("'" + t.no + "'"));
  }

  lemma OrdinaryText(s: string)
    requires s != "" && !IsSpace(s[0]) && !IsSpace(s[|s| - 1]) && '$' !in s
    ensures Unwrapped(s) == s
  {
    StripTrimmed(s);
    assert "${{"[0] == '$';
  }

  /** The text the code picks and the value the workflow has, for one ternary with single blanks. */
  lemma SpacedTernary(t: Ternary, s: string, taken: bool, context: Context)
    requires IsTernary(t) && s == Whole(t, " ", " ", " ", " ") && s !in context
    requires Unwrapped(t.cond) == t.cond && EvaluateBare(t.cond, context) == Some(taken) && IsBalanced(t.cond)
    ensures Replacement(s, context) == Some(if taken then t.yes else t.no)
    ensures WorkflowValue(s, context) == Some(TernaryValue(t, taken, context))
  {
    TernaryIsFound(t, " ", " ", " ", " ");
    WholeReads(t, " ", " ", " ", " ", context);
  }

  lemma OneAtomAnswers(cond: string, context: Context)
    requires '|' !in cond && '&' !in cond
    ensures EvaluateBare(cond, context) == Atom(cond, context) && !HoldsBeforeLast(cond, context)
  {
    NowhereIn(cond, OR);
    NowhereIn(cond, AND);
  }

  lemma TwoDisjunctsAnswer(first: string, last: string, cond: string, context: Context)
    requires '|' !in first && '|' !in last && Atom(first, context) == Some(true) && cond == first + (OR + last)
    ensures EvaluateBare(cond, context) == Some(true) && HoldsBeforeLast(cond, context)
  {
    FirstIsFound(first, OR, last);
    NowhereIn(last, OR);
    assert cond[..|first|] == first && cond[|first| + 2..] == last;
    FrontOfSplit(cond, |first|, context);
  }

  lemma AlwaysHolds(blank: string, context: Context)
    requires AllSpace(blank)
    ensures Atom("always()" + blank, context) == Some(true)
  {
    StripTrimmed("always()");
    StripIgnoresBlanksAfter("always()", blank);
  }

  lemma AlwaysAnswers(cond: string)
    requires cond == "always()" + ""
    ensures EvaluateBare(cond, map[]) == Some(true) && !HoldsBeforeLast(cond, map[])
  {
    AlwaysHolds("", map[]);
    OneAtomAnswers(cond, map[]);
  }

  lemma AlwaysIsPlain(cond: string)
    requires cond == "always()"
    ensures Unwrapped(cond) == cond && IsBalanced(cond)
  {
    OrdinaryText(cond);
    QuotelessKeepsState(cond, false);
  }

  lemma SpellsEmptyFirst(s: string, t: Ternary)
    requires s == "always() && '' || 'b'" && t == Ternary("always()", "", "b")
    ensures s == Whole(t, " ", " ", " ", " ") && IsTernary(t)
  {
  }

  /** An empty first text is lost: the code picks it, the workflow falls through to the second. */
  lemma EmptyFirstTextIsLost(s: string, t: Ternary)
    requires s == "always() && '' || 'b'" && t == Ternary("always()", "", "b")
    ensures Replacement(s, map[]) == Some("") && WorkflowValue(s, map[]) == Some(Literal("b"))
  {
    assert t.cond == "always()" + "";
    AlwaysAnswers(t.cond);
    AlwaysIsPlain(t.cond);
    SpellsEmptyFirst(s, t);
    SpacedTernary(t, s, true, map[]);
  }

  lemma EitherHolds(cond: string, first: string, last: string)
    requires first == "always()" + " " && last == " failure()" && cond == first + (OR + last)
    ensures EvaluateBare(cond, map[]) == Some(true) && HoldsBeforeLast(cond, map[])
  {
    AlwaysHolds(" ", map[]);
    TwoDisjunctsAnswer(first, last, cond, map[]);
  }

  lemma EitherIsPlain(cond: string)
    requires cond == "always() || failure()"
    ensures Unwrapped(cond) == cond && IsBalanced(cond)
  {
    OrdinaryText(cond);
    QuotelessKeepsState(cond, false);
  }

  lemma SpellsEither(s: string, t: Ternary)
    requires s == "always() || failure() && 'a' || 'b'" && t == Ternary("always() || failure()", "a", "b")
    ensures s == Whole(t, " ", " ", " ", " ") && IsTernary(t)
  {
    var left := "always() || failure() && 'a' ";
    assert Middle(" ", " ", "a", " ") == " && 'a' ";
    assert t.cond + " && 'a' " == left;
    assert s == left + (OR + (" " + ("'" + "b" + "'")));
  }

  /** `&&` binds tighter than `||`: a disjunct before the last one makes the whole expression true. */
  lemma EarlierDisjunctWins(s: string, t: Ternary)
    requires s == "always() || failure() && 'a' || 'b'" && t == Ternary("always() || failure()", "a", "b")
    ensures Replacement(s, map[]) == Some("a") && WorkflowValue(s, map[]) == Some(Truth(true))
  {
    EitherHolds(t.cond, "always()" + " ", " failure()");
    EitherIsPlain(t.cond);
    SpellsEither(s, t);
    SpacedTernary(t, s, true, map[]);
  }
}
