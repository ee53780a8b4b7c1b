/** Substitution of every `${{ ... }}` marker in the text of a step. */
module CiSubstitute {
  import opened Options
  import opened Text
  import opened CiParity
  import opened CiTernary

  // ---- Markers in a command ----

  datatype Piece = Plain(c: char) | Marker(expression: string, raw: string)

  function FirstBrace(s: string): (n: nat)
    ensures n <= |s| && '}' !in s[..n]
    ensures n < |s| ==> s[n] == '}'
  {
    if s == "" || s[0] == '}' then 0 else
      assert s[..1 + FirstBrace(s[1..])] == [s[0]] + s[1..][..FirstBrace(s[1..])];
      1 + FirstBrace(s[1..])
  }

  /** The length of a marker at the start of a text, 0 if there is none. */
  function MarkerLength(text: string): (n: nat)
    ensures n <= |text| && (n > 0 ==> n >= 5)
  {
    if !StartsWith(text, "${{") then 0
    else
      var k := FirstBrace(text[3..]);
      if StartsWith(text[3 + k..], "}}") then 3 + k + 2 else 0
  }

  /** One left-to-right scan, each marker replaced where it stands. */
  function Substitute(text: string, context: Context): Option<string> {
    if text == "" then Some("")
    else
      var n := MarkerLength(text);
      if n == 0 then
        match Substitute(text[1..], context)
        case None => None
        case Some(rest) => Some([text[0]] + rest)
      else
        match Replacement(Strip(text[3..n - 2]), context)
        case None => None
        case Some(value) =>
          match Substitute(text[n..], context)
          case None => None
          case Some(rest) => Some(value + rest)
  }

  function PiecesOf(text: string): seq<Piece> {
    if text == "" then []
    else
      var n := MarkerLength(text);
      if n == 0 then [Plain(text[0])] + PiecesOf(text[1..])
      else [Marker(Strip(text[3..n - 2]), text[..n])] + PiecesOf(text[n..])
  }

  function RawOf(pieces: seq<Piece>): string {
    if pieces == [] then ""
    else RawText(pieces[0]) + RawOf(pieces[1..])
  }

  /** What stands in a piece's place, or nothing if it has no value. */
  function TextOf(p: Piece, context: Context): Option<string> {
    if p.Plain? then Some([p.c]) else Replacement(p.expression, context)
  }

  predicate Resolves(p: Piece, context: Context) {
    TextOf(p, context).Some?
  }

  function Filled(pieces: seq<Piece>, context: Context): string
    requires forall i :: 0 <= i < |pieces| ==> Resolves(pieces[i], context)
  {
    if pieces == [] then ""
    else
      assert Resolves(pieces[0], context);
      TextOf(pieces[0], context).value + Filled(pieces[1..], context)
  }

  lemma MarkerExpression(text: string)
    requires MarkerLength(text) > 0
    ensures var e := Strip(text[3..MarkerLength(text) - 2]); '}' !in e && Strip(e) == e
  {
    var k := FirstBrace(text[3..]);
    var inner := text[3..][..k];
    assert text[3..MarkerLength(text) - 2] == inner;
    var l, r := StripSplits(inner);
    StripTrimmed(inner[l..r]);
  }

  predicate IsTrimmedMarker(p: Piece) {
    p.Marker? ==> '}' !in p.expression && Strip(p.expression) == p.expression
  }

  function RawText(p: Piece): string {
    if p.Plain? then [p.c] else p.raw
  }

  lemma OnePiece(text: string) returns (p: Piece, rest: string)
    requires text != ""
    ensures |rest| < |text| && text == RawText(p) + rest && PiecesOf(text) == [p] + PiecesOf(rest)
    ensures IsTrimmedMarker(p)
  {
    var n := MarkerLength(text);
    if n == 0 {
      p, rest := Plain(text[0]), text[1..];
    } else {
      MarkerExpression(text);
      p, rest := Marker(Strip(text[3..n - 2]), text[..n]), text[n..];
    }
  }

  lemma RawUnfolds(p: Piece, rest: seq<Piece>)
    ensures RawOf([p] + rest) == RawText(p) + RawOf(rest)
  {
    assert ([p] + rest)[1..] == rest;
  }

  /** The pieces put back together are the text, and every marker's expression is trimmed and brace-free. */
  lemma {:induction false} PiecesAreTheText(text: string, pieces: seq<Piece>)
    requires pieces == PiecesOf(text)
    ensures RawOf(pieces) == text
    ensures forall p :: p in pieces ==> IsTrimmedMarker(p)
    decreases |text|
  {
    if text != "" {
      var p, rest := OnePiece(text);
      var others := PiecesOf(rest);
      PiecesAreTheText(rest, others);
      RawUnfolds(p, others);
    }
  }

  predicate AllResolve(pieces: seq<Piece>, context: Context) {
    forall i :: 0 <= i < |pieces| ==> Resolves(pieces[i], context)
  }

  lemma AllResolveUnfolds(p: Piece, rest: seq<Piece>, context: Context)
    ensures AllResolve([p] + rest, context) <==> Resolves(p, context) && AllResolve(rest, context)
  {
    assert forall i :: 1 <= i < |[p] + rest| ==> ([p] + rest)[i] == rest[i - 1];
    assert ([p] + rest)[0] == p;
    if AllResolve([p] + rest, context) {
      forall i | 0 <= i < |rest|
        ensures Resolves(rest[i], context)
      {
        assert Resolves(([p] + rest)[i + 1], context);
      }
    }
  }

  lemma FilledUnfolds(p: Piece, rest: seq<Piece>, context: Context)
    requires AllResolve([p] + rest, context) && Resolves(p, context) && AllResolve(rest, context)
    ensures Filled([p] + rest, context)
         == TextOf(p, context).value + Filled(rest, context)
  {
    assert ([p] + rest)[1..] == rest;
  }

  function Prepended(first: Option<string>, rest: Option<string>): Option<string> {
    if first.Some? && rest.Some? then Some(first.value + rest.value) else None
  }

  lemma OneStep(text: string, context: Context) returns (p: Piece, rest: string)
    requires text != ""
    ensures |rest| < |text| && PiecesOf(text) == [p] + PiecesOf(rest)
    ensures Substitute(text, context) == Prepended(TextOf(p, context), Substitute(rest, context))
  {
    var n := MarkerLength(text);
    rest := if n == 0 then text[1..] else text[n..];
    p := if n == 0 then Plain(text[0]) else Marker(Strip(text[3..n - 2]), text[..n]);
  }

  predicate IsPiecewise(result: Option<string>, pieces: seq<Piece>, context: Context) {
    && (result.Some? <==> AllResolve(pieces, context))
    && (result.Some? ==> result.value == Filled(pieces, context))
  }

  lemma PieceInFront(p: Piece, rest: seq<Piece>, result: Option<string>, context: Context)
    requires IsPiecewise(result, rest, context)
    ensures IsPiecewise(Prepended(TextOf(p, context), result), [p] + rest, context)
  {
    AllResolveUnfolds(p, rest, context);
    if AllResolve([p] + rest, context) {
      FilledUnfolds(p, rest, context);
    }
  }

  /**
   The substitution raises exactly when some marker does not resolve; otherwise every plain
   character stays where it was and every marker becomes its value.
   */
  lemma {:induction false} SubstitutionIsPiecewise(text: string, context: Context)
    ensures IsPiecewise(Substitute(text, context), PiecesOf(text), context)
    decreases |text|
  {
    if text != "" {
      var p, rest := OneStep(text, context);
      SubstitutionIsPiecewise(rest, context);
      PieceInFront(p, PiecesOf(rest), Substitute(rest, context), context);
    }
  }

  // ---- From the text ----

  lemma {:induction false} FirstBraceIs(e: string, rest: string)
    requires '}' !in e
    ensures FirstBrace(e + "}}" + rest) == |e|
  {
    var s := e + "}}" + rest;
    if e == "" {
      assert s[0] == '}';
    } else {
      assert s[1..] == e[1..] + "}}" + rest;
      FirstBraceIs(e[1..], rest);
    }
  }

  lemma MarkerIsFound(e: string, rest: string)
    requires '}' !in e
    ensures MarkerLength("${{" + (e + "}}" + rest)) == |e| + 5
  {
    var inner := e + "}}" + rest;
    var text := "${{" + inner;
    assert text[..3] == "${{" && text[3..] == inner;
    FirstBraceIs(e, rest);
    assert text[3 + |e|..][..2] == "}}";
  }

  /** A marker becomes its value and the scan goes on behind it. */
  lemma MarkersAreReplaced(e: string, rest: string, context: Context)
    requires '}' !in e
    ensures Substitute("${{" + (e + "}}" + rest), context)
         == Prepended(Replacement(Strip(e), context), Substitute(rest, context))
  {
    var text := "${{" + (e + "}}" + rest);
    MarkerIsFound(e, rest);
    assert text[3..|e| + 3] == e && text[|e| + 5..] == rest;
  }

  lemma DifferentStart(s: string, prefix: string)
    requires s != "" && prefix != "" && s[0] != prefix[0]
    ensures !StartsWith(s, prefix)
  {
  }

  lemma DifferentEnd(s: string, c: char)
    requires s != "" && s[|s| - 1] != c
    ensures !EndsWith(s, [c])
  {
  }

  lemma OtherCharacterStays(c: char, tail: string, context: Context)
    requires c != '$'
    ensures Substitute([c] + tail, context) == Prepended(Some([c]), Substitute(tail, context))
  {
    DifferentStart([c] + tail, "${{");
    assert ([c] + tail)[1..] == tail;
  }

  lemma OneCharacterMore(c: char, before: string, tail: string, rest: string, context: Context)
    requires c != '$' && Substitute(tail, context) == Prepended(Some(before), Substitute(rest, context))
    ensures Substitute([c] + tail, context) == Prepended(Some([c] + before), Substitute(rest, context))
  {
    OtherCharacterStays(c, tail, context);
    PrependedTwice([c], before, Substitute(rest, context));
  }

  lemma PrependedNothing(rest: Option<string>)
    ensures Prepended(Some(""), rest) == rest
  {
    if rest.Some? {
      assert "" + rest.value == rest.value;
    }
  }

  /** What holds of every character that is no dollar sign. */
  ghost predicate KeepsCharacters(scan: string -> Option<string>) {
    forall c: char, before: string, tail: string, rest: string ::
      c != '$' && scan(tail) == Prepended(Some(before), scan(rest)) ==>
        scan([c] + tail) == Prepended(Some([c] + before), scan(rest))
  }

  lemma {:induction false} KeepsText(scan: string -> Option<string>, before: string, rest: string)
    requires KeepsCharacters(scan) && '$' !in before
    ensures scan(before + rest) == Prepended(Some(before), scan(rest))
  {
    if before == "" {
      assert before + rest == rest;
      PrependedNothing(scan(rest));
    } else {
      var tail := before[1..] + rest;
      KeepsText(scan, before[1..], rest);
      assert scan([before[0]] + tail) == Prepended(Some([before[0]] + before[1..]), scan(rest));
      assert [before[0]] + before[1..] == before && before + rest == [before[0]] + tail;
    }
  }

  /** Text with no dollar sign stays as it is. */
  lemma OtherTextStays(before: string, rest: string, context: Context)
    requires '$' !in before
    ensures Substitute(before + rest, context) == Prepended(Some(before), Substitute(rest, context))
  {
    var scan := (s: string) => Substitute(s, context);
    forall c: char, b: string, tail: string, r: string | c != '$' && scan(tail) == Prepended(Some(b), scan(r))
      ensures scan([c] + tail) == Prepended(Some([c] + b), scan(r))
    {
      OneCharacterMore(c, b, tail, r, context);
    }
    KeepsText(scan, before, rest);
    assert scan(before + rest) == Prepended(Some(before), scan(rest));
  }

  lemma PrependedTwice(a: string, b: string, rest: Option<string>)
    ensures Prepended(Some(a), Prepended(Some(b), rest)) == Prepended(Some(a + b), rest)
  {
    if rest.Some? {
      assert a + (b + rest.value) == a + b + rest.value;
    }
  }

  /** A name the context knows is replaced by its value, whatever blanks are around it in the marker. */
  lemma NamesAreReplaced(before: string, w1: string, name: string, w2: string, after: string, context: Context)
    requires '$' !in before && AllSpace(w1) && AllSpace(w2) && name in context
    requires name != "" && !IsSpace(name[0]) && !IsSpace(name[|name| - 1]) && '}' !in w1 + name + w2
    ensures Substitute(before + ("${{" + ((w1 + name + w2) + "}}" + after)), context)
         == Prepended(Some(before + context[name]), Substitute(after, context))
  {
    StripIgnoresBlanksAround(w1, name, w2);
    MarkersAreReplaced(w1 + name + w2, after, context);
    var marker := "${{" + ((w1 + name + w2) + "}}" + after);
    OtherTextStays(before, marker, context);
    PrependedTwice(before, context[name], Substitute(after, context));
  }

  /** A name the context does not know, and that is no ternary, is refused rather than blanked. */
  lemma UnknownNamesAreRefused(before: string, e: string, after: string, context: Context)
    requires '$' !in before && '}' !in e && Strip(e) !in context && '\'' !in Strip(e)
    ensures Substitute(before + ("${{" + (e + "}}" + after)), context) == None
  {
    MarkersAreReplaced(e, after, context);
    var marker := "${{" + (e + "}}" + after);
    OtherTextStays(before, marker, context);
    NoQuoteNoTernary(Strip(e));
  }

  lemma NoQuoteNoTernary(s: string)
    requires '\'' !in s
    ensures ParseTernary(s) == None
  {
    if s != "" {
      DifferentEnd(s, '\'');
    }
  }
}
