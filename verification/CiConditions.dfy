/**
 What the evaluator answers, told from the text of a condition: comparisons, keywords, the
 wrapping, and lists of them joined by one operator.
 */
module CiConditions {
  import opened Options
  import opened Text
  import opened CiParity

  // ---- Text without an operator ----

  lemma {:induction false} FirstAtAfter(p: string, x: string, op: string)
    requires |op| == 2 && op[0] !in p
    ensures FirstAt(p + x, op) == Shifted(|p|, FirstAt(x, op))
  {
    var s := p + x;
    if p == "" {
      assert s == x;
    } else {
      assert s[1..] == p[1..] + x;
      assert |s| >= 2 ==> s[..2][0] == p[0];
      FirstAtAfter(p[1..], x, op);
    }
  }

  lemma {:induction false} FirstAtBefore(x: string, c: char, op: string)
    requires |op| == 2 && c != op[1]
    ensures FirstAt(x + [c], op) == FirstAt(x, op)
  {
    var s := x + [c];
    if |x| >= 2 {
      assert s[..2] == x[..2] && s[1..] == x[1..] + [c];
      FirstAtBefore(x[1..], c, op);
    } else if |x| == 1 {
      assert s[..2][1] == c;
      assert |s[1..]| == 1;
    }
  }

  // ---- Comparisons ----

  predicate IsLetter(c: char) {
    'a' <= c <= 'z' || 'A' <= c <= 'Z' || c == '_'
  }

  predicate IsWordChar(c: char) {
    IsLetter(c) || '0' <= c <= '9' || c == '.' || c == '-'
  }

  /** A name as the workflow writes it: a letter or underscore, then letters, digits, `_`, `.` and `-`. */
  predicate IsContextName(name: string) {
    name != "" && IsLetter(name[0]) && forall i :: 0 <= i < |name| ==> IsWordChar(name[i])
  }

  predicate IsSign(sign: string) {
    sign == "==" || sign == "!="
  }

  function Quoted(text: string): string {
    "'" + text + "'"
  }

  function ComparisonText(name: string, w1: string, sign: string, w2: string, text: string): string {
    name + (w1 + (sign + (w2 + Quoted(text))))
  }

  lemma {:induction false} NameLengthIs(name: string, rest: string)
    requires forall i :: 0 <= i < |name| ==> IsNameChar(name[i])
    requires rest == "" || !IsNameChar(rest[0])
    ensures NameLength(name + rest) == |name|
  {
    if name == "" {
      assert name + rest == rest;
    } else {
      assert (name + rest)[1..] == name[1..] + rest;
      NameLengthIs(name[1..], rest);
    }
  }

  lemma SignEndsTheName(w1: string, sign: string, tail: string)
    requires AllSpace(w1) && IsSign(sign)
    ensures var rest := w1 + (sign + tail); rest != "" && !IsNameChar(rest[0])
  {
    if w1 != "" {
      assert IsSpace(w1[0]);
    }
  }

  lemma QuotedIsQuoted(text: string)
    requires '\'' !in text
    ensures IsQuoted(Quoted(text)) && Quoted(text)[1..|Quoted(text)| - 1] == text
  {
    assert Quoted(text)[1..|Quoted(text)| - 1] == text;
  }

  lemma ComparisonIsParsed(name: string, w1: string, sign: string, w2: string, text: string)
    requires IsContextName(name) && AllSpace(w1) && AllSpace(w2) && IsSign(sign) && '\'' !in text
    ensures ParseComparison(ComparisonText(name, w1, sign, w2, text)) == Some(Comparison(name, sign == "==", text))
  {
    var s := ComparisonText(name, w1, sign, w2, text);
    var tail := w2 + Quoted(text);
    SignEndsTheName(w1, sign, tail);
    NameLengthIs(name, w1 + (sign + tail));
    assert s[|name|..] == w1 + (sign + tail) && s[..|name|] == name;
    StripLeftIs(w1, sign + tail);
    assert (sign + tail)[..2] == sign && (sign + tail)[2..] == tail;
    StripLeftIs(w2, Quoted(text));
    QuotedIsQuoted(text);
  }

  lemma ComparisonEnds(name: string, w1: string, sign: string, w2: string, text: string)
    requires IsContextName(name)
    ensures var s := ComparisonText(name, w1, sign, w2, text);
            s != "" && s[0] == name[0] && s[|s| - 1] == '\'' && Strip(s) == s && Unwrapped(s) == s && Keyword(s) == None
  {
    var s := ComparisonText(name, w1, sign, w2, text);
    assert s[0] == name[0] && !IsSpace(name[0]) && name[0] != '$';
    assert s[|s| - 1] == '\'';
    StripTrimmed(s);
    assert "${{"[0] == '$';
    assert !(s in {"always()", "!cancelled()", "success()", "failure()", "cancelled()"}) by {
      EndsInParenthesis(s);
    }
  }

  lemma EndsInParenthesis(s: string)
    ensures s in {"always()", "!cancelled()", "success()", "failure()", "cancelled()"} ==> s[|s| - 1] == ')'
  {
  }

  lemma ComparisonAtom(name: string, w1: string, sign: string, w2: string, text: string, context: Context)
    requires IsContextName(name) && AllSpace(w1) && AllSpace(w2) && IsSign(sign) && '\'' !in text
    ensures Atom(ComparisonText(name, w1, sign, w2, text), context)
         == if name !in context then None
            else if sign == "==" then Some(context[name] == text)
            else Some(context[name] != text)
  {
    ComparisonIsParsed(name, w1, sign, w2, text);
    ComparisonEnds(name, w1, sign, w2, text);
  }

  /** An operator can stand only inside the quoted text. */
  lemma ComparisonOperators(name: string, w1: string, sign: string, w2: string, text: string, op: string)
    requires IsContextName(name) && AllSpace(w1) && AllSpace(w2) && IsSign(sign) && IsOperator(op)
    ensures FirstAt(ComparisonText(name, w1, sign, w2, text), op) == None <==> FirstAt(text, op) == None
  {
    var before := name + (w1 + (sign + (w2 + "'")));
    assert op[0] !in before by {
      BlankHasNoOperator(w1, op[0]);
      BlankHasNoOperator(w2, op[0]);
      assert forall i :: 0 <= i < |name| ==> IsWordChar(name[i]);
    }
    assert ComparisonText(name, w1, sign, w2, text) == before + (text + ['\'']);
    FirstAtAfter(before, text + ['\''], op);
    FirstAtBefore(text, '\'', op);
  }

  lemma BlankHasNoOperator(w: string, c: char)
    requires AllSpace(w) && (c == '|' || c == '&')
    ensures c !in w
  {
  }

  /**
   What a comparison means, for every name, every quoted text without an operator in it, and
   any blanks: whether the name's value is the text, or is not; nothing if it has no value.
   */
  lemma ComparisonsMean(name: string, w1: string, sign: string, w2: string, text: string, context: Context)
    requires IsContextName(name) && AllSpace(w1) && AllSpace(w2) && IsSign(sign)
    requires '\'' !in text && FirstAt(text, OR) == None && FirstAt(text, AND) == None
    ensures EvaluateIf(name + (w1 + (sign + (w2 + ("'" + text + "'")))), context)
         == if name !in context then None
            else if sign == "==" then Some(context[name] == text)
            else Some(context[name] != text)
  {
    ComparisonAtom(name, w1, sign, w2, text, context);
    ComparisonEnds(name, w1, sign, w2, text);
    ComparisonOperators(name, w1, sign, w2, text, OR);
    ComparisonOperators(name, w1, sign, w2, text, AND);
  }

  lemma ComparisonIsClosedText(name: string, w1: string, sign: string, w2: string, text: string)
    requires IsContextName(name) && AllSpace(w1) && AllSpace(w2) && IsSign(sign) && '\'' !in text
    ensures IsClosed(ComparisonText(name, w1, sign, w2, text))
  {
    ComparisonIsParsed(name, w1, sign, w2, text);
    ComparisonIsClosed(ComparisonText(name, w1, sign, w2, text));
  }

  /** With an operator in its quoted text a comparison is refused, whatever the values. */
  lemma QuotedOperatorsAreRefused(
    name: string, w1: string, sign: string, w2: string, text: string, context: Context)
    requires IsContextName(name) && AllSpace(w1) && AllSpace(w2) && IsSign(sign)
    requires '\'' !in text && (FirstAt(text, OR).Some? || FirstAt(text, AND).Some?)
    ensures EvaluateIf(name + (w1 + (sign + (w2 + ("'" + text + "'")))), context) == None
  {
    var s := ComparisonText(name, w1, sign, w2, text);
    ComparisonEnds(name, w1, sign, w2, text);
    ComparisonIsClosedText(name, w1, sign, w2, text);
    ComparisonOperators(name, w1, sign, w2, text, OR);
    ComparisonOperators(name, w1, sign, w2, text, AND);
    ClosedAlone(s, OR);
    ClosedAlone(s, AND);
    RefusesExactlyTheUnplaceable(s, context);
  }

  // ---- Keywords and the wrapping ----

  /** Text with no operator and no marker, trimmed. */
  predicate IsBare(s: string) {
    && s != "" && !IsSpace(s[0]) && !IsSpace(s[|s| - 1])
    && '|' !in s && '&' !in s && '$' !in s
  }

  lemma {:induction false} NowhereIn(s: string, op: string)
    requires |op| == 2 && op[0] !in s
    ensures FirstAt(s, op) == None
  {
    if |s| >= 2 {
      assert s[..2][0] == s[0];
      NowhereIn(s[1..], op);
    }
  }

  lemma BlanksDoNotCount(w1: string, s: string, w2: string, context: Context)
    requires AllSpace(w1) && AllSpace(w2) && IsBare(s)
    ensures EvaluateIf(w1 + s + w2, context) == Atom(s, context)
  {
    StripIgnoresBlanksAround(w1, s, w2);
    StripTrimmed(s);
    assert "${{"[0] == '$';
    NowhereIn(s, OR);
    NowhereIn(s, AND);
  }

  lemma KeywordsAreBare(s: string)
    requires s in {"always()", "!cancelled()", "success()", "failure()", "cancelled()"}
    ensures IsBare(s) && Strip(s) == s
  {
    StripTrimmed(s);
  }

  /** The keywords, with any blanks around them and in any context. */
  lemma KeywordsMean(w1: string, s: string, w2: string, context: Context)
    requires AllSpace(w1) && AllSpace(w2)
    ensures s == "always()" || s == "!cancelled()" || s == "success()" ==> EvaluateIf(w1 + s + w2, context) == Some(true)
    ensures s == "failure()" || s == "cancelled()" ==> EvaluateIf(w1 + s + w2, context) == Some(false)
  {
    if s in {"always()", "!cancelled()", "success()", "failure()", "cancelled()"} {
      KeywordsAreBare(s);
      BlanksDoNotCount(w1, s, w2, context);
    }
  }

  lemma WrappedText(w1: string, c: string, w2: string, whole: string)
    requires AllSpace(w1) && AllSpace(w2) && whole == "${{" + c + "}}"
    ensures Unwrapped(w1 + whole + w2) == Strip(c)
  {
    assert whole[0] == '$' && whole[|whole| - 1] == '}';
    StripIgnoresBlanksAround(w1, whole, w2);
    assert whole[..3] == "${{" && whole[|whole| - 2..] == "}}" && whole[3..|whole| - 2] == c;
  }

  /** Wrapping a condition in a marker, with any blanks around it, changes nothing. */
  lemma WrappingDoesNotMatter(w1: string, c: string, w2: string, whole: string, context: Context)
    requires AllSpace(w1) && AllSpace(w2) && whole == "${{" + c + "}}" && !StartsWith(Strip(c), "${{")
    ensures EvaluateIf(w1 + whole + w2, context) == EvaluateIf(c, context)
  {
    WrappedText(w1, c, w2, whole);
  }

  // ---- Lists joined by one operator ----

  function Joined(parts: seq<string>, op: string): string {
    if parts == [] then "" else if |parts| == 1 then parts[0] else parts[0] + (op + Joined(parts[1..], op))
  }

  predicate IsPart(part: string) {
    '|' !in part && '&' !in part && '$' !in part
  }

  /** No operator and no marker, so each part is evaluated whole. */
  predicate AreParts(parts: seq<string>) {
    parts != [] && forall i :: 0 <= i < |parts| ==> IsPart(parts[i])
  }

  lemma PartIsEvaluated(part: string, context: Context)
    requires IsPart(part)
    ensures EvaluateIf(part, context) == Atom(part, context)
  {
    var l, r := StripSplits(part);
    var s := part[l..r];
    StripTrimmed(s);
    assert "${{"[0] == '$';
    NowhereIn(s, OR);
    NowhereIn(s, AND);
  }

  /** Each part, taken alone, has this value. */
  predicate HaveValues(parts: seq<string>, values: seq<bool>, context: Context) {
    |parts| == |values| && forall i :: 0 <= i < |parts| ==> EvaluateIf(parts[i], context) == Some(values[i])
  }

  lemma FirstIsFound(a: string, op: string, rest: string)
    requires |op| == 2 && op[0] !in a
    ensures FirstAt(a + (op + rest), op) == Some(|a|)
  {
    FirstAtAfter(a, op + rest, op);
    assert (op + rest)[..2] == op;
  }

  lemma SplitsAtFirst(a: string, op: string, rest: string)
    requires |op| == 2 && op[0] !in a
    ensures Split(a + (op + rest), op) == [a] + Split(rest, op)
  {
    var s := a + (op + rest);
    FirstIsFound(a, op, rest);
    SplitUnfolds(s, op, |a|);
    assert s[..|a|] == a && s[|a| + 2..] == rest;
  }

  lemma {:induction false} PartsOfJoined(parts: seq<string>, op: string)
    requires AreParts(parts) && IsOperator(op)
    ensures Split(Joined(parts, op), op) == parts
  {
    assert IsPart(parts[0]);
    if |parts| == 1 {
      NowhereIn(parts[0], op);
      assert parts == [parts[0]];
    } else {
      SplitsAtFirst(parts[0], op, Joined(parts[1..], op));
      PartsOfJoined(parts[1..], op);
      assert [parts[0]] + parts[1..] == parts;
    }
  }

  lemma {:induction false} NoOtherOperator(parts: seq<string>, op: string, other: string)
    requires AreParts(parts) && IsOperator(op) && IsOperator(other) && op != other
    ensures other[0] !in Joined(parts, op)
  {
    assert IsPart(parts[0]);
    if |parts| > 1 {
      NoOtherOperator(parts[1..], op, other);
    }
  }

  lemma {:induction false} AnyOfValues(parts: seq<string>, values: seq<bool>, context: Context)
    requires HaveValues(parts, values, context) && forall i :: 0 <= i < |parts| ==> IsPart(parts[i])
    ensures Any(parts, context) == Some(true in values)
  {
    if parts != [] {
      PartIsEvaluated(parts[0], context);
      assert EvaluateIf(parts[0], context) == Some(values[0]);
      AnyOfValues(parts[1..], values[1..], context);
      assert values == [values[0]] + values[1..];
    }
  }

  lemma {:induction false} AllOfValues(parts: seq<string>, values: seq<bool>, context: Context)
    requires HaveValues(parts, values, context) && forall i :: 0 <= i < |parts| ==> IsPart(parts[i])
    ensures All(parts, context) == Some(false !in values)
  {
    if parts != [] {
      PartIsEvaluated(parts[0], context);
      assert EvaluateIf(parts[0], context) == Some(values[0]);
      AllOfValues(parts[1..], values[1..], context);
      assert values == [values[0]] + values[1..];
    }
  }

  /** Trimmed at both ends and not wrapped. */
  predicate IsTrimmed(s: string) {
    s != "" && !IsSpace(s[0]) && !IsSpace(s[|s| - 1]) && s[0] != '$'
  }

  lemma TrimmedIsBare(s: string)
    requires IsTrimmed(s)
    ensures Unwrapped(s) == s
  {
    StripTrimmed(s);
    assert "${{"[0] == '$';
  }

  lemma MoreThanOneIsSplit(parts: seq<string>, op: string)
    requires AreParts(parts) && IsOperator(op) && |parts| > 1
    ensures FirstAt(Joined(parts, op), op).Some?
  {
    assert IsPart(parts[0]);
    FirstIsFound(parts[0], op, Joined(parts[1..], op));
  }

  /** Conditions joined by `||` hold exactly when one of them does. */
  lemma DisjunctionsMean(parts: seq<string>, values: seq<bool>, context: Context)
    requires AreParts(parts) && |parts| > 1 && IsTrimmed(Joined(parts, OR)) && HaveValues(parts, values, context)
    ensures EvaluateIf(Joined(parts, OR), context) == Some(true in values)
  {
    TrimmedIsBare(Joined(parts, OR));
    MoreThanOneIsSplit(parts, OR);
    PartsOfJoined(parts, OR);
    AnyOfValues(parts, values, context);
  }

  /** Conditions joined by `&&` hold exactly when all of them do. */
  lemma ConjunctionsMean(parts: seq<string>, values: seq<bool>, context: Context)
    requires AreParts(parts) && |parts| > 1 && IsTrimmed(Joined(parts, AND)) && HaveValues(parts, values, context)
    ensures EvaluateIf(Joined(parts, AND), context) == Some(false !in values)
  {
    TrimmedIsBare(Joined(parts, AND));
    MoreThanOneIsSplit(parts, AND);
    PartsOfJoined(parts, AND);
    NoOtherOperator(parts, AND, OR);
    NowhereIn(Joined(parts, AND), OR);
    AllOfValues(parts, values, context);
  }
}
