/**
 The local evaluator of workflow conditions. It splits on operators as text and refuses
 whatever it cannot place; the reading it must agree with knows quotes and precedence.
 */
module CiParity {
  import opened Options
  import opened Text

  const OR := "||"
  const AND := "&&"

  type Context = map<string, string>

  // ---- Atoms ----

  predicate IsNameStart(c: char) {
    'A' <= c <= 'Z' || 'a' <= c <= 'z' || c == '_'
  }

  predicate IsNameChar(c: char) {
    IsNameStart(c) || '0' <= c <= '9' || c == '.' || c == '-'
  }

  function NameLength(s: string): (n: nat)
    ensures n <= |s| && forall i :: 0 <= i < n ==> IsNameChar(s[i])
  {
    if s != "" && IsNameChar(s[0]) then 1 + NameLength(s[1..]) else 0
  }

  datatype Comparison = Comparison(left: string, equal: bool, right: string)

  predicate IsQuoted(s: string) {
    |s| >= 2 && s[0] == '\'' && s[|s| - 1] == '\'' && '\'' !in s[1..|s| - 1]
  }

  /** `name == 'text'` or `name != 'text'`, the whole of it. */
  function ParseComparison(s: string): Option<Comparison> {
    var n := NameLength(s);
    var after := StripLeft(s[n..]);
    if n == 0 || !IsNameStart(s[0]) || |after| < 2 || (after[..2] != "==" && after[..2] != "!=") then None
    else
      var right := StripLeft(after[2..]);
      if IsQuoted(right) then Some(Comparison(s[..n], after[..2] == "==", right[1..|right| - 1])) else None
  }

  function Keyword(s: string): Option<bool> {
    if s in {"always()", "!cancelled()", "success()"} then Some(true)
    else if s in {"failure()", "cancelled()"} then Some(false)
    else None
  }

  /** One atom's value, or nothing where the evaluator raises. */
  function Atom(text: string, context: Context): Option<bool> {
    var s := Strip(text);
    if Keyword(s).Some? then Keyword(s)
    else
      match ParseComparison(s)
      case None => None
      case Some(c) => if c.left in context then Some((context[c.left] == c.right) == c.equal) else None
  }

  // ---- The evaluator ----

  /** The first place a two-character operator stands. */
  function FirstAt(s: string, op: string): (r: Option<nat>)
    requires |op| == 2
    ensures r.Some? ==> r.value + 2 <= |s| && s[r.value..r.value + 2] == op
  {
    if |s| < 2 then None
    else if s[..2] == op then Some(0)
    else
      match FirstAt(s[1..], op)
      case None => None
      case Some(i) => Some(i + 1)
  }

  /** `str.split` on an operator. */
  function Split(s: string, op: string): (r: seq<string>)
    requires |op| == 2
    ensures r != []
    decreases |s|
  {
    match FirstAt(s, op)
    case None => [s]
    case Some(i) => [s[..i]] + Split(s[i + 2..], op)
  }

  /** `any` over atoms, left to right, stopping at the first that holds. */
  function Any(parts: seq<string>, context: Context): Option<bool> {
    if parts == [] then Some(false)
    else
      match Atom(parts[0], context)
      case None => None
      case Some(b) => if b then Some(true) else Any(parts[1..], context)
  }

  /** `all` over atoms, left to right, stopping at the first that fails. */
  function All(parts: seq<string>, context: Context): Option<bool> {
    if parts == [] then Some(true)
    else
      match Atom(parts[0], context)
      case None => None
      case Some(b) => if b then All(parts[1..], context) else Some(false)
  }

  /** The condition without blanks around it and without the `${{ }}` it may be wrapped in. */
  function Unwrapped(condition: string): string {
    var s := Strip(condition);
    if StartsWith(s, "${{") && EndsWith(s, "}}") && |s| >= 5 then Strip(s[3..|s| - 2]) else s
  }

  function EvaluateBare(s: string, context: Context): Option<bool> {
    if FirstAt(s, OR).Some? then Any(Split(s, OR), context)
    else if FirstAt(s, AND).Some? then All(Split(s, AND), context)
    else Atom(s, context)
  }

  function EvaluateIf(condition: string, context: Context): Option<bool> {
    EvaluateBare(Unwrapped(condition), context)
  }

  // ---- The reading: quotes hide operators, and binds tighter than or, both short-circuit ----

  function Toggled(quoted: bool, c: char): bool {
    if c == '\'' then !quoted else quoted
  }

  /** The first place an operator stands outside quotes. */
  function FirstOutside(s: string, op: string, quoted: bool): (r: Option<nat>)
    requires |op| == 2
    ensures r.Some? ==> r.value + 2 <= |s| && s[r.value..r.value + 2] == op
  {
    if |s| < 2 then None
    else if !quoted && s[..2] == op then Some(0)
    else
      match FirstOutside(s[1..], op, Toggled(quoted, s[0]))
      case None => None
      case Some(i) => Some(i + 1)
  }

  function ReadAnd(s: string, context: Context): Option<bool>
    decreases |s|
  {
    match FirstOutside(s, AND, false)
    case None => Atom(s, context)
    case Some(i) =>
      match Atom(s[..i], context)
      case None => None
      case Some(b) => if b then ReadAnd(s[i + 2..], context) else Some(false)
  }

  function ReadOr(s: string, context: Context): Option<bool>
    decreases |s|
  {
    match FirstOutside(s, OR, false)
    case None => ReadAnd(s, context)
    case Some(i) =>
      match ReadAnd(s[..i], context)
      case None => None
      case Some(b) => if b then Some(true) else ReadOr(s[i + 2..], context)
  }

  function Reading(condition: string, context: Context): Option<bool> {
    ReadOr(Unwrapped(condition), context)
  }

  // ---- An atom's quotes are closed and hide every operator in it ----

  /** No quote and no operator character. */
  predicate IsPlain(s: string) {
    forall i :: 0 <= i < |s| ==> s[i] != '\'' && s[i] != '|' && s[i] != '&'
  }

  predicate IsOperator(op: string) {
    op == OR || op == AND
  }

  function Shifted(n: nat, r: Option<nat>): Option<nat> {
    match r
    case None => None
    case Some(i) => Some(n + i)
  }

  /** A character that opens no operator is passed over. */
  lemma PassOver(c: char, tail: string, op: string, quoted: bool)
    requires |op| == 2 && (quoted || c != op[0])
    ensures FirstOutside([c] + tail, op, quoted) == Shifted(1, FirstOutside(tail, op, Toggled(quoted, c)))
  {
    var s := [c] + tail;
    assert s[1..] == tail;
    assert |s| >= 2 ==> s[..2][0] == c;
  }

  function Scan(op: string, quoted: bool): string -> Option<nat>
    requires |op| == 2
  {
    s => FirstOutside(s, op, quoted)
  }

  /** Reading past `s` in one state puts the scan at the start of `rest` in another. */
  predicate Passes(s: string, rest: string, before: string -> Option<nat>, after: string -> Option<nat>) {
    before(s + rest) == Shifted(|s|, after(rest))
  }

  lemma PassesConcat(a: string, b: string, rest: string,
                     before: string -> Option<nat>, between: string -> Option<nat>, after: string -> Option<nat>)
    requires Passes(a, b + rest, before, between) && Passes(b, rest, between, after)
    ensures Passes(a + b, rest, before, after)
  {
    assert (a + b) + rest == a + (b + rest);
  }

  /** Text with no operator outside quotes, entered and left inside or outside quotes. */
  ghost predicate Leads(s: string, quoted: bool, after: bool) {
    forall rest: string, op: string :: |op| == 2 && IsOperator(op) ==> Passes(s, rest, Scan(op, quoted), Scan(op, after))
  }

  lemma LeadsConcat(a: string, b: string, first: bool, second: bool, third: bool)
    requires Leads(a, first, second) && Leads(b, second, third)
    ensures Leads(a + b, first, third)
  {
    forall rest: string, op: string | |op| == 2 && IsOperator(op)
      ensures Passes(a + b, rest, Scan(op, first), Scan(op, third))
    {
      PassesConcat(a, b, rest, Scan(op, first), Scan(op, second), Scan(op, third));
    }
  }

  lemma CharLeads(c: char, quoted: bool)
    requires quoted || (c != '|' && c != '&')
    ensures Leads([c], quoted, Toggled(quoted, c))
  {
    forall rest: string, op: string | |op| == 2 && IsOperator(op)
      ensures Passes([c], rest, Scan(op, quoted), Scan(op, Toggled(quoted, c)))
    {
      PassOver(c, rest, op, quoted);
    }
  }

  lemma EmptyLeads(quoted: bool)
    ensures Leads("", quoted, quoted)
  {
    forall rest: string, op: string | |op| == 2 && IsOperator(op)
      ensures Passes("", rest, Scan(op, quoted), Scan(op, quoted))
    {
      assert "" + rest == rest;
    }
  }

  lemma {:induction false} QuotedTextLeads(r: string)
    requires '\'' !in r
    ensures Leads(r, true, true)
  {
    if r == "" {
      EmptyLeads(true);
    } else {
      CharLeads(r[0], true);
      QuotedTextLeads(r[1..]);
      LeadsConcat([r[0]], r[1..], true, true, true);
      assert [r[0]] + r[1..] == r;
    }
  }

  /** Nothing outside its quotes is an operator, and whatever follows it is read as if from the start. */
  ghost predicate IsClosed(s: string) {
    Leads(s, false, false)
  }

  lemma {:induction false} PlainIsClosed(s: string)
    requires IsPlain(s)
    ensures IsClosed(s)
  {
    if s == "" {
      EmptyLeads(false);
    } else {
      CharLeads(s[0], false);
      PlainIsClosed(s[1..]);
      LeadsConcat([s[0]], s[1..], false, false, false);
      assert [s[0]] + s[1..] == s;
    }
  }

  lemma QuoteIsClosed(r: string)
    requires '\'' !in r
    ensures IsClosed("'" + r + "'")
  {
    CharLeads('\'', false);
    CharLeads('\'', true);
    QuotedTextLeads(r);
    LeadsConcat("'", r, false, true, true);
    LeadsConcat("'" + r, "'", false, true, false);
  }

  lemma ClosedConcat(a: string, b: string)
    requires IsClosed(a) && IsClosed(b)
    ensures IsClosed(a + b)
  {
    LeadsConcat(a, b, false, false, false);
  }

  lemma BlankIsClosed(s: string)
    requires AllSpace(s)
    ensures IsClosed(s)
  {
    forall i | 0 <= i < |s|
      ensures s[i] != '\'' && s[i] != '|' && s[i] != '&'
    {
      assert IsSpace(s[i]);
    }
    PlainIsClosed(s);
  }

  lemma KeywordIsPlain(s: string)
    requires Keyword(s).Some?
    ensures IsPlain(s)
  {
    if s == "always()" {
      assert IsPlain("always()");
    } else if s == "!cancelled()" {
      assert IsPlain("!cancelled()");
    } else if s == "success()" {
      assert IsPlain("success()");
    } else if s == "failure()" {
      assert IsPlain("failure()");
    } else {
      assert IsPlain("cancelled()");
    }
  }

  lemma NameIsClosed(s: string)
    ensures IsClosed(s[..NameLength(s)])
  {
    var name := s[..NameLength(s)];
    forall i | 0 <= i < |name|
      ensures name[i] != '\'' && name[i] != '|' && name[i] != '&'
    {
      assert IsNameChar(s[i]);
    }
    PlainIsClosed(name);
  }

  /** A stretch of blanks in front of a closed text leaves it closed. */
  lemma BlanksThenClosed(s: string)
    requires IsClosed(StripLeft(s))
    ensures IsClosed(s)
  {
    var k := StripLeftSplits(s);
    BlankIsClosed(s[..k]);
    ClosedConcat(s[..k], s[k..]);
    assert s[..k] + s[k..] == s;
  }

  lemma QuotedIsClosed(s: string)
    requires IsQuoted(s)
    ensures IsClosed(s)
  {
    var r := s[1..|s| - 1];
    QuoteIsClosed(r);
    assert s == "'" + r + "'";
  }

  /** A comparison: a name, an operator and one quoted text, with blanks between. */
  lemma ComparisonIsClosed(s: string)
    requires ParseComparison(s).Some?
    ensures IsClosed(s)
  {
    var n := NameLength(s);
    var after := StripLeft(s[n..]);
    QuotedIsClosed(StripLeft(after[2..]));
    BlanksThenClosed(after[2..]);
    assert IsPlain("==") && IsPlain("!=");
    PlainIsClosed(after[..2]);
    ClosedConcat(after[..2], after[2..]);
    assert after[..2] + after[2..] == after;
    BlanksThenClosed(s[n..]);
    NameIsClosed(s);
    ClosedConcat(s[..n], s[n..]);
    assert s[..n] + s[n..] == s;
  }

  /** So whatever the evaluator accepts as an atom is closed. */
  lemma AtomIsClosed(text: string, context: Context)
    requires Atom(text, context).Some?
    ensures IsClosed(text)
  {
    var l, r := StripSplits(text);
    var before, s, after := text[..l], text[l..r], text[r..];
    BlankIsClosed(before);
    BlankIsClosed(after);
    if Keyword(s).Some? {
      KeywordIsPlain(s);
      PlainIsClosed(s);
    } else {
      ComparisonIsClosed(s);
    }
    ClosedConcat(before, s);
    ClosedConcat(before + s, after);
    assert before + s + after == text;
  }

  // ---- Where the evaluator answers, it agrees with the reading ----

  lemma {:induction false} OutsideIsSomewhere(s: string, op: string, quoted: bool)
    requires |op| == 2 && FirstAt(s, op) == None
    ensures FirstOutside(s, op, quoted) == None
  {
    if |s| >= 2 {
      OutsideIsSomewhere(s[1..], op, Toggled(quoted, s[0]));
    }
  }

  /** An atom standing alone has no operator for the reading to split at. */
  lemma ClosedAlone(s: string, op: string)
    requires IsClosed(s) && |op| == 2 && IsOperator(op)
    ensures FirstOutside(s, op, false) == None
  {
    assert Passes(s, "", Scan(op, false), Scan(op, false));
    assert s + "" == s;
  }

  /** An atom before an operator: the reading splits exactly there. */
  lemma ClosedBeforeOperator(s: string, i: nat, op: string)
    requires |op| == 2 && IsOperator(op) && i + 2 <= |s| && s[i..i + 2] == op && IsClosed(s[..i])
    ensures FirstOutside(s, op, false) == Some(i)
  {
    var rest := s[i..];
    assert Passes(s[..i], rest, Scan(op, false), Scan(op, false));
    assert s[..i] + rest == s;
    assert rest[..2] == op;
  }

  lemma {:induction false} AllAgrees(s: string, context: Context)
    requires All(Split(s, AND), context).Some?
    ensures ReadAnd(s, context) == All(Split(s, AND), context)
    decreases |s|
  {
    match FirstAt(s, AND) {
      case None =>
        AtomIsClosed(s, context);
        ClosedAlone(s, AND);
      case Some(i) =>
        assert Split(s, AND)[0] == s[..i] && Split(s, AND)[1..] == Split(s[i + 2..], AND);
        AtomIsClosed(s[..i], context);
        ClosedBeforeOperator(s, i, AND);
        if Atom(s[..i], context) == Some(true) {
          AllAgrees(s[i + 2..], context);
        }
    }
  }

  lemma ReadAtom(s: string, context: Context)
    requires Atom(s, context).Some?
    ensures ReadAnd(s, context) == Atom(s, context)
    ensures ReadOr(s, context) == Atom(s, context)
  {
    AtomIsClosed(s, context);
    ClosedAlone(s, AND);
    ClosedAlone(s, OR);
  }

  lemma {:induction false} AnyAgrees(s: string, context: Context)
    requires Any(Split(s, OR), context).Some?
    ensures ReadOr(s, context) == Any(Split(s, OR), context)
    decreases |s|
  {
    match FirstAt(s, OR) {
      case None =>
        ReadAtom(s, context);
      case Some(i) =>
        assert Split(s, OR)[0] == s[..i] && Split(s, OR)[1..] == Split(s[i + 2..], OR);
        ReadAtom(s[..i], context);
        AtomIsClosed(s[..i], context);
        ClosedBeforeOperator(s, i, OR);
        if Atom(s[..i], context) == Some(false) {
          AnyAgrees(s[i + 2..], context);
        }
    }
  }

  /**
   Soundness: whenever the evaluator answers at all, its answer is the one of the reading in
   which quotes hide operators, `&&` binds tighter than `||`, and both stop early.
   */
  lemma AnswersAreRight(condition: string, context: Context)
    requires EvaluateIf(condition, context).Some?
    ensures Reading(condition, context) == EvaluateIf(condition, context)
  {
    var s := Unwrapped(condition);
    if FirstAt(s, OR).Some? {
      AnyAgrees(s, context);
    } else {
      OutsideIsSomewhere(s, OR, false);
      if FirstAt(s, AND).Some? {
        AllAgrees(s, context);
      } else {
        ReadAtom(s, context);
      }
    }
  }

  // ---- Where it refuses ----

  /**
   In front of the first `||` as text, or in the last piece, the evaluator meets what it cannot
   place: the `||` stands inside quotes, or an `&&` stands outside them. It gets there only
   past atoms that failed.
   */
  predicate MeetsMixed(s: string, context: Context)
    decreases |s|
  {
    match FirstAt(s, OR)
    case None => FirstOutside(s, AND, false).Some?
    case Some(i) =>
      || FirstOutside(s, OR, false) != Some(i)
      || FirstOutside(s[..i], AND, false).Some?
      || (Atom(s[..i], context) == Some(false) && MeetsMixed(s[i + 2..], context))
  }

  /** The evaluator meets an `&&` inside quotes, past atoms that held. */
  predicate MeetsQuotedAnd(s: string, context: Context)
    decreases |s|
  {
    match FirstAt(s, AND)
    case None => false
    case Some(i) =>
      || FirstOutside(s, AND, false) != Some(i)
      || (Atom(s[..i], context) == Some(true) && MeetsQuotedAnd(s[i + 2..], context))
  }

  /** An operator outside quotes makes a text more than an atom. */
  lemma OperatorIsNoAtom(s: string, op: string, context: Context)
    requires |op| == 2 && IsOperator(op) && FirstOutside(s, op, false).Some?
    ensures Atom(s, context) == None
  {
    if Atom(s, context).Some? {
      AtomIsClosed(s, context);
      ClosedAlone(s, op);
    }
  }

  /** Cutting at an operator inside quotes leaves no atom in front of it. */
  lemma CutIsNoAtom(s: string, op: string, i: nat, context: Context)
    requires |op| == 2 && IsOperator(op) && FirstAt(s, op) == Some(i) && FirstOutside(s, op, false) != Some(i)
    ensures Atom(s[..i], context) == None
  {
    if Atom(s[..i], context).Some? {
      AtomIsClosed(s[..i], context);
      ClosedBeforeOperator(s, i, op);
    }
  }

  function AllAfter(first: Option<bool>, rest: Option<bool>): Option<bool> {
    match first
    case None => None
    case Some(b) => if b then rest else Some(false)
  }

  function AnyAfter(first: Option<bool>, rest: Option<bool>): Option<bool> {
    match first
    case None => None
    case Some(b) => if b then Some(true) else rest
  }

  lemma AllUnfolds(a: string, rest: seq<string>, context: Context)
    ensures All([a] + rest, context) == AllAfter(Atom(a, context), All(rest, context))
  {
    assert ([a] + rest)[1..] == rest;
  }

  lemma AnyUnfolds(a: string, rest: seq<string>, context: Context)
    ensures Any([a] + rest, context) == AnyAfter(Atom(a, context), Any(rest, context))
  {
    assert ([a] + rest)[1..] == rest;
  }

  lemma SplitUnfolds(s: string, op: string, i: nat)
    requires |op| == 2 && FirstAt(s, op) == Some(i)
    ensures Split(s, op) == [s[..i]] + Split(s[i + 2..], op)
  {
  }

  lemma AllOfSplit(s: string, i: nat, context: Context)
    requires FirstAt(s, AND) == Some(i)
    ensures All(Split(s, AND), context) == AllAfter(Atom(s[..i], context), All(Split(s[i + 2..], AND), context))
  {
    SplitUnfolds(s, AND, i);
    AllUnfolds(s[..i], Split(s[i + 2..], AND), context);
  }

  lemma AnyOfSplit(s: string, i: nat, context: Context)
    requires FirstAt(s, OR) == Some(i)
    ensures Any(Split(s, OR), context) == AnyAfter(Atom(s[..i], context), Any(Split(s[i + 2..], OR), context))
  {
    SplitUnfolds(s, OR, i);
    AnyUnfolds(s[..i], Split(s[i + 2..], OR), context);
  }

  lemma OneAtom(s: string, context: Context)
    ensures Any([s], context) == Atom(s, context) && All([s], context) == Atom(s, context)
  {
    assert [s][1..] == [];
  }

  lemma ReadAndUnfolds(s: string, i: nat, context: Context)
    requires FirstOutside(s, AND, false) == Some(i)
    ensures ReadAnd(s, context) == AllAfter(Atom(s[..i], context), ReadAnd(s[i + 2..], context))
  {
  }

  lemma ReadOrUnfolds(s: string, i: nat, context: Context)
    requires FirstOutside(s, OR, false) == Some(i) && FirstOutside(s[..i], AND, false) == None
    ensures ReadOr(s, context) == AnyAfter(Atom(s[..i], context), ReadOr(s[i + 2..], context))
  {
  }

  lemma LastPartIsReadAnd(s: string, context: Context)
    requires FirstAt(s, AND) == None
    ensures All(Split(s, AND), context) == ReadAnd(s, context)
  {
    OutsideIsSomewhere(s, AND, false);
    OneAtom(s, context);
  }

  lemma AllIsReadAndFrom(s: string, i: nat, context: Context)
    requires FirstAt(s, AND) == Some(i) && FirstOutside(s, AND, false) == Some(i)
    requires var rest := s[i + 2..];
             All(Split(rest, AND), context) == if MeetsQuotedAnd(rest, context) then None else ReadAnd(rest, context)
    ensures All(Split(s, AND), context) == if MeetsQuotedAnd(s, context) then None else ReadAnd(s, context)
  {
    AllOfSplit(s, i, context);
    ReadAndUnfolds(s, i, context);
  }

  lemma CutEndsTheChain(s: string, i: nat, context: Context)
    requires FirstAt(s, AND) == Some(i) && FirstOutside(s, AND, false) != Some(i)
    ensures All(Split(s, AND), context) == None && MeetsQuotedAnd(s, context)
  {
    CutIsNoAtom(s, AND, i, context);
    AllOfSplit(s, i, context);
  }

  lemma {:induction false} AllIsReadAnd(s: string, context: Context)
    ensures All(Split(s, AND), context) == if MeetsQuotedAnd(s, context) then None else ReadAnd(s, context)
    decreases |s|
  {
    match FirstAt(s, AND) {
      case None =>
        LastPartIsReadAnd(s, context);
      case Some(i) =>
        if FirstOutside(s, AND, false) == Some(i) {
          AllIsReadAnd(s[i + 2..], context);
          AllIsReadAndFrom(s, i, context);
        } else {
          CutEndsTheChain(s, i, context);
        }
    }
  }

  lemma LastPieceIsReadAnd(s: string, context: Context)
    requires FirstAt(s, OR) == None
    ensures Any(Split(s, OR), context) == if MeetsMixed(s, context) then None else ReadOr(s, context)
  {
    OutsideIsSomewhere(s, OR, false);
    OneAtom(s, context);
    if FirstOutside(s, AND, false).Some? {
      OperatorIsNoAtom(s, AND, context);
    }
  }

  lemma {:induction false} AnyIsReadOr(s: string, context: Context)
    ensures Any(Split(s, OR), context) == if MeetsMixed(s, context) then None else ReadOr(s, context)
    decreases |s|
  {
    match FirstAt(s, OR) {
      case None =>
        LastPieceIsReadAnd(s, context);
      case Some(i) =>
        AnyOfSplit(s, i, context);
        if FirstOutside(s, OR, false) != Some(i) {
          CutIsNoAtom(s, OR, i, context);
        } else if FirstOutside(s[..i], AND, false).Some? {
          OperatorIsNoAtom(s[..i], AND, context);
        } else {
          AnyIsReadOr(s[i + 2..], context);
          ReadOrUnfolds(s, i, context);
        }
    }
  }

  /** The evaluator's walk ends at something it cannot place. */
  predicate MeetsUnplaceable(s: string, context: Context) {
    if FirstAt(s, OR).Some? then MeetsMixed(s, context) else MeetsQuotedAnd(s, context)
  }

  /**
   Exactly when it refuses what the reading answers, for every condition: where the walk ends
   at an operator inside quotes, or in a disjunction at a disjunct with an `&&` of its own.
   */
  lemma RefusesExactlyTheUnplaceable(condition: string, context: Context)
    ensures var s := Unwrapped(condition);
            EvaluateIf(condition, context)
            == if MeetsUnplaceable(s, context) then None else Reading(condition, context)
  {
    var s := Unwrapped(condition);
    if FirstAt(s, OR).Some? {
      AnyIsReadOr(s, context);
    } else {
      OutsideIsSomewhere(s, OR, false);
      AllIsReadAnd(s, context);
      if FirstAt(s, AND) == None {
        OneAtom(s, context);
      }
    }
  }
}
