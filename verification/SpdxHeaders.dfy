/**
 The SPDX header normaliser: it writes the canonical block at the top of a file, drops an
 old one, and hands everything else back. Lines end at `\n`; the last may be unterminated.
 */
module SpdxHeaders {
  import opened Text

  const BARE := "#\n"
  const COPYRIGHT_TAG := "# SPDX-FileCopyrightText"
  const LICENSE_TAG := "# SPDX-License-Identifier"
  const COPYRIGHT_TEXT := COPYRIGHT_TAG + ": Copyright (c) 2025-2026 provide.io" + " llc. All rights reserved."
  const LICENSE_TEXT := LICENSE_TAG + ": AGPL-3.0-or-later"
  const COPYRIGHT := COPYRIGHT_TEXT + "\n"
  const LICENSE := LICENSE_TEXT + "\n"
  const CANONICAL_BLOCK: seq<string> := [BARE, COPYRIGHT, LICENSE, BARE]

  // ---- Lines ----

  /** The length of the first line, its newline included. */
  function LineLength(text: string): (n: nat)
    ensures n <= |text| && (text != "" ==> n > 0)
  {
    if text == "" then 0 else if text[0] == '\n' then 1 else 1 + LineLength(text[1..])
  }

  function Lines(text: string): seq<string> {
    if text == "" then []
    else [text[..LineLength(text)]] + Lines(text[LineLength(text)..])
  }

  function Join(lines: seq<string>): string {
    if lines == [] then "" else lines[0] + Join(lines[1..])
  }

  /** One line of text: not empty, with no newline but possibly at its end. */
  predicate IsLine(line: string) {
    line != "" && forall i :: 0 <= i < |line| - 1 ==> line[i] != '\n'
  }

  predicate Terminated(line: string) {
    line != "" && line[|line| - 1] == '\n'
  }

  predicate AreLines(lines: seq<string>) {
    && (forall i :: 0 <= i < |lines| ==> IsLine(lines[i]))
    && (forall i :: 0 <= i < |lines| - 1 ==> Terminated(lines[i]))
  }

  lemma {:induction false} FirstLineOf(text: string)
    requires text != ""
    ensures IsLine(text[..LineLength(text)])
    ensures LineLength(text) < |text| ==> Terminated(text[..LineLength(text)])
  {
    if text[0] != '\n' && |text| > 1 {
      FirstLineOf(text[1..]);
      var n := LineLength(text[1..]);
      assert text[..LineLength(text)] == [text[0]] + text[1..][..n];
    }
  }

  lemma LineInFront(line: string, rest: seq<string>)
    requires IsLine(line) && AreLines(rest) && (rest != [] ==> Terminated(line))
    ensures AreLines([line] + rest)
  {
  }

  lemma {:induction false} JoinOfLines(text: string)
    ensures Join(Lines(text)) == text
  {
    if text != "" {
      var n := LineLength(text);
      JoinOfLines(text[n..]);
      assert text == text[..n] + text[n..];
    }
  }

  lemma {:induction false} LinesAreLines(text: string)
    ensures AreLines(Lines(text)) && Join(Lines(text)) == text
  {
    JoinOfLines(text);
    if text != "" {
      var n := LineLength(text);
      var rest := Lines(text[n..]);
      FirstLineOf(text);
      LinesAreLines(text[n..]);
      LineInFront(text[..n], rest);
      assert Lines(text) == [text[..n]] + rest;
    }
  }

  lemma {:induction false} LengthOfFirst(line: string, rest: string)
    requires IsLine(line) && (rest != "" ==> Terminated(line))
    ensures LineLength(line + rest) == |line|
  {
    if |line| > 1 {
      assert (line + rest)[1..] == line[1..] + rest;
      LengthOfFirst(line[1..], rest);
    } else if rest == "" {
      assert line + rest == line;
    }
  }

  lemma {:induction false} LinesOfJoin(lines: seq<string>)
    requires AreLines(lines)
    ensures Lines(Join(lines)) == lines
  {
    if lines != [] {
      var rest := Join(lines[1..]);
      if |lines| > 1 {
        assert lines[1..][0] == lines[1];
      }
      LengthOfFirst(lines[0], rest);
      assert Join(lines)[..|lines[0]|] == lines[0] && Join(lines)[|lines[0]|..] == rest;
      LinesOfJoin(lines[1..]);
    }
  }

  lemma {:induction false} JoinConcat(a: seq<string>, b: seq<string>)
    ensures Join(a + b) == Join(a) + Join(b)
  {
    if a == [] {
      assert a + b == b;
    } else {
      assert (a + b)[1..] == a[1..] + b;
      JoinConcat(a[1..], b);
    }
  }

  // ---- Kinds of line ----

  predicate IsBlank(line: string) {
    Strip(line) == ""
  }

  predicate IsComment(line: string) {
    StartsWith(line, "#")
  }

  predicate IsBare(line: string) {
    Strip(line) == "#"
  }

  predicate IsSpdx(line: string) {
    StartsWith(Strip(line), COPYRIGHT_TAG) || StartsWith(Strip(line), LICENSE_TAG)
  }

  lemma CommentsAreNotBlank(line: string)
    requires IsComment(line)
    ensures !IsBlank(line)
  {
    assert line[0] == '#' && StripLeft(line) == line;
    StripRightKeepsFirst(line);
  }

  lemma BareIsNotSpdx(line: string)
    requires IsBare(line)
    ensures !IsSpdx(line) && !IsBlank(line)
  {
    assert |COPYRIGHT_TAG| > 1 && |LICENSE_TAG| > 1;
  }

  lemma BareLine()
    ensures IsBare(BARE) && IsComment(BARE) && IsLine(BARE) && Terminated(BARE)
  {
    assert BARE == ['#', '\n'];
    assert StripRight(BARE) == "#" by {
      assert BARE[..1] == "#";
    }
  }

  lemma TagLine(text: string, tag: string)
    requires tag <= text && tag != "" && tag[0] == '#' && '\n' !in text
    requires !IsSpace(text[|text| - 1])
    ensures StartsWith(Strip(text + "\n"), tag) && IsComment(text + "\n")
    ensures IsLine(text + "\n") && Terminated(text + "\n")
  {
    var line := text + "\n";
    assert line[..|line| - 1] == text;
    assert StripLeft(line) == line && StripRight(line) == StripRight(text) == text;
  }

  lemma CopyrightLine()
    ensures IsSpdx(COPYRIGHT) && IsComment(COPYRIGHT) && IsLine(COPYRIGHT) && Terminated(COPYRIGHT)
  {
    assert '\n' !in COPYRIGHT_TAG && '\n' !in ": Copyright (c) 2025-2026 provide.io";
    var tail := " llc. All rights reserved.";
    assert '\n' !in tail && tail[|tail| - 1] == '.';
    assert COPYRIGHT_TEXT[|COPYRIGHT_TEXT| - 1] == tail[|tail| - 1];
    TagLine(COPYRIGHT_TEXT, COPYRIGHT_TAG);
  }

  lemma LicenseLine()
    ensures IsSpdx(LICENSE) && IsComment(LICENSE) && IsLine(LICENSE) && Terminated(LICENSE)
  {
    var tail := ": AGPL-3.0-or-later";
    assert '\n' !in LICENSE_TAG && '\n' !in tail && tail[|tail| - 1] == 'r';
    assert LICENSE_TEXT[|LICENSE_TEXT| - 1] == tail[|tail| - 1];
    TagLine(LICENSE_TEXT, LICENSE_TAG);
  }

  lemma BlockLines()
    ensures AreLines(CANONICAL_BLOCK) && Terminated(CANONICAL_BLOCK[3])
    ensures forall i :: 0 <= i < 4 ==> IsComment(CANONICAL_BLOCK[i])
    ensures IsBare(CANONICAL_BLOCK[0]) && IsBare(CANONICAL_BLOCK[3])
    ensures IsSpdx(CANONICAL_BLOCK[1]) && IsSpdx(CANONICAL_BLOCK[2])
  {
    BareLine();
    CopyrightLine();
    LicenseLine();
  }

  // ---- Which leading lines belong to the block ----

  /** Lines `i` to `j` are an unbroken run of bare `#` lines ending at line `j`. */
  predicate RunReaches(head: seq<string>, i: int, j: int) {
    && 0 <= i < |head| && 0 <= j < |head|
    && (forall m :: i <= m < j ==> IsBare(head[m]))
    && (forall m :: j < m <= i ==> IsBare(head[m]))
  }

  /** An SPDX line, or a bare `#` in an unbroken run touching one. */
  predicate InBlock(head: seq<string>, i: int) {
    exists j :: 0 <= j < |head| && IsSpdx(head[j]) && RunReaches(head, i, j)
  }

  /** The bare lines next to `index` in one direction, found by walking from it. */
  method RunFrom(head: seq<string>, index: nat, step: int) returns (run: set<int>)
    requires index < |head| && (step == 1 || step == -1)
    ensures forall i :: i in run <==> RunReaches(head, i, index) && (if step == 1 then i > index else i < index)
  {
    run := {};
    var cursor := index + step;
    while 0 <= cursor < |head| && IsBare(head[cursor])
      invariant step == 1 ==> index < cursor <= |head| && forall m :: index < m < cursor ==> IsBare(head[m])
      invariant step == -1 ==> -1 <= cursor < index && forall m :: cursor < m < index ==> IsBare(head[m])
      invariant forall i :: i in run <==> if step == 1 then index < i < cursor else cursor < i < index
      decreases if step == 1 then |head| - cursor else cursor + 1
    {
      run := run + {cursor};
      cursor := cursor + step;
    }
  }

  method HeaderLineIndices(head: seq<string>) returns (drop: set<int>)
    ensures forall i :: i in drop <==> InBlock(head, i)
  {
    var spdx := set i | 0 <= i < |head| && IsSpdx(head[i]);
    drop := spdx;
    var left := spdx;
    while left != {}
      invariant left <= spdx
      invariant forall i :: i in drop <==> i in spdx || exists j :: j in spdx - left && RunReaches(head, i, j)
      decreases |left|
    {
      var index :| index in left;
      var above := RunFrom(head, index, -1);
      var below := RunFrom(head, index, 1);
      ghost var before := drop;
      drop := drop + above + below;
      RunAround(head, index, above, below);
      assert spdx - (left - {index}) == spdx - left + {index};
      left := left - {index};
    }
    assert spdx - left == spdx;
    forall i
      ensures i in drop <==> InBlock(head, i)
    {
      assert i in spdx ==> RunReaches(head, i, i);
    }
  }

  lemma RunAround(head: seq<string>, index: nat, above: set<int>, below: set<int>)
    requires index < |head|
    requires forall i :: i in above <==> RunReaches(head, i, index) && i < index
    requires forall i :: i in below <==> RunReaches(head, i, index) && i > index
    ensures forall i :: i in above + below + {index} <==> RunReaches(head, i, index)
  {
  }

  predicate Dropped(head: seq<string>, i: nat)
    requires i < |head|
  {
    IsBlank(head[i]) || InBlock(head, i)
  }

  function Drops(head: seq<string>): set<int> {
    set i | 0 <= i < |head| && Dropped(head, i)
  }

  /** The lines from `from` on whose index is not in the set. */
  function Filter(head: seq<string>, drop: set<int>, from: nat): seq<string>
    requires from <= |head|
    decreases |head| - from
  {
    if from == |head| then []
    else (if from in drop then [] else [head[from]]) + Filter(head, drop, from + 1)
  }

  /** The comments worth keeping, from line `from` of the head on. */
  function Kept(head: seq<string>, from: nat): seq<string>
    requires from <= |head|
  {
    Filter(head, Drops(head), from)
  }

  lemma KeptUnfolds(head: seq<string>, from: nat)
    requires from < |head|
    ensures Kept(head, from) == if Dropped(head, from) then Kept(head, from + 1) else [head[from]] + Kept(head, from + 1)
  {
  }

  /** The end of the leading comment and blank lines. */
  function LeadingEnd(lines: seq<string>, from: nat): (k: nat)
    requires from <= |lines|
    ensures from <= k <= |lines|
    ensures forall i :: from <= i < k ==> IsComment(lines[i]) || IsBlank(lines[i])
    ensures k < |lines| ==> !IsComment(lines[k]) && !IsBlank(lines[k])
    decreases |lines| - from
  {
    if from < |lines| && (IsComment(lines[from]) || IsBlank(lines[from])) then LeadingEnd(lines, from + 1) else from
  }

  /** Without the blank lines before it. */
  function TrimmedEnd(lines: seq<string>, end: nat): (k: nat)
    requires end <= |lines|
    ensures k <= end && forall i :: k <= i < end ==> IsBlank(lines[i])
    ensures k > 0 ==> !IsBlank(lines[k - 1])
  {
    if end > 0 && IsBlank(lines[end - 1]) then TrimmedEnd(lines, end - 1) else end
  }

  function HeadEnd(lines: seq<string>): (k: nat)
    ensures k <= |lines|
  {
    TrimmedEnd(lines, LeadingEnd(lines, 0))
  }

  datatype Parts = Parts(kept: seq<string>, body: string)

  function PartsOf(text: string): Parts {
    var lines := Lines(text);
    var end := HeadEnd(lines);
    Parts(Kept(lines[..end], 0), Join(lines[end..]))
  }

  lemma FilterUnfolds(head: seq<string>, drop: set<int>, from: nat)
    requires from < |head|
    ensures Filter(head, drop, from)
         == if from in drop then Filter(head, drop, from + 1) else [head[from]] + Filter(head, drop, from + 1)
  {
  }

  lemma Regroup(a: seq<string>, x: string, b: seq<string>)
    ensures (a + [x]) + b == a + ([x] + b)
  {
  }

  method KeptComments(head: seq<string>) returns (kept: seq<string>)
    ensures kept == Kept(head, 0)
  {
    var header := HeaderLineIndices(head);
    ghost var drop := Drops(head);
    assert forall i :: 0 <= i < |head| ==> (i in drop <==> i in header || IsBlank(head[i]));
    kept := [];
    for i := 0 to |head|
      invariant kept + Filter(head, drop, i) == Filter(head, drop, 0)
    {
      FilterUnfolds(head, drop, i);
      if i !in header && !IsBlank(head[i]) {
        Regroup(kept, head[i], Filter(head, drop, i + 1));
        kept := kept + [head[i]];
      }
    }
  }

  method PartitionLeadingComments(text: string) returns (kept: seq<string>, body: string)
    ensures Parts(kept, body) == PartsOf(text)
  {
    var lines := Lines(text);
    var idx := 0;
    while idx < |lines| && (IsComment(lines[idx]) || IsBlank(lines[idx]))
      invariant idx <= |lines| && LeadingEnd(lines, idx) == LeadingEnd(lines, 0)
    {
      idx := idx + 1;
    }
    var head := lines[..idx];
    while head != [] && IsBlank(head[|head| - 1])
      invariant idx == |head| <= |lines| && head == lines[..idx]
      invariant TrimmedEnd(lines, idx) == HeadEnd(lines)
    {
      head := head[..|head| - 1];
      idx := idx - 1;
    }
    kept := KeptComments(head);
    body := Join(lines[idx..]);
  }

  /** The shebang line, terminated even if the file stops there, and the rest. */
  function SplitShebang(text: string): (string, string) {
    if StartsWith(text, "#!") then
      if '\n' !in text then (text + "\n", "")
      else (text[..LineLength(text)], text[LineLength(text)..])
    else ("", text)
  }

  function Normalized(text: string): string {
    var parts := PartsOf(SplitShebang(text).1);
    SplitShebang(text).0 + Join(CANONICAL_BLOCK) + Join(parts.kept) + parts.body
  }

  method NormalizePythonText(text: string) returns (r: string)
    ensures r == Normalized(text)
  {
    var (shebang, rest) := SplitShebang(text);
    var kept, body := PartitionLeadingComments(rest);
    r := shebang + Join(CANONICAL_BLOCK) + Join(kept) + body;
  }

  predicate HasCanonicalHeader(text: string) {
    var lines := Lines(SplitShebang(text).1);
    |lines| >= |CANONICAL_BLOCK| && lines[..|CANONICAL_BLOCK|] == CANONICAL_BLOCK
  }

  // ---- What one pass leaves behind ----

  /** The head: comments and blanks, a comment last, and no comment after it before the first code line. */
  lemma HeadIsLeadingComments(lines: seq<string>, k: nat)
    ensures var end := HeadEnd(lines);
            && (forall i :: 0 <= i < end ==> IsComment(lines[i]) || IsBlank(lines[i]))
            && (end > 0 ==> IsComment(lines[end - 1]))
            && (end <= k < |lines| && (forall i :: end <= i < k ==> IsBlank(lines[i])) ==> !IsComment(lines[k]))
  {
    var end := HeadEnd(lines);
    var leading := LeadingEnd(lines, 0);
    if end <= k < leading {
      if IsComment(lines[k]) { CommentsAreNotBlank(lines[k]); }
    }
  }

  /** The text is its head followed by the body the partition hands back. */
  lemma BodyIsTheRest(text: string)
    ensures text == Join(Lines(text)[..HeadEnd(Lines(text))]) + PartsOf(text).body
  {
    var lines := Lines(text);
    var end := HeadEnd(lines);
    JoinOfLines(text);
    JoinSplit(lines, end, lines[..end], lines[end..]);
  }

  lemma JoinSplit(lines: seq<string>, k: nat, front: seq<string>, back: seq<string>)
    requires k <= |lines| && front == lines[..k] && back == lines[k..]
    ensures Join(lines) == Join(front) + Join(back)
  {
    assert lines == front + back;
    JoinConcat(front, back);
  }

  /** A kept line is a comment, not an SPDX line, and it ends its line unless it is the file's last. */
  predicate KeptIsSound(kept: seq<string>) {
    && AreLines(kept)
    && forall i :: 0 <= i < |kept| ==> IsComment(kept[i]) && !IsSpdx(kept[i])
  }

  lemma KeptInFront(line: string, rest: seq<string>)
    requires KeptIsSound(rest) && IsLine(line) && IsComment(line) && !IsSpdx(line)
    requires rest != [] ==> Terminated(line)
    ensures KeptIsSound([line] + rest)
  {
    LineInFront(line, rest);
  }

  predicate AllTerminated(lines: seq<string>) {
    forall i :: 0 <= i < |lines| ==> Terminated(lines[i])
  }

  predicate IsLeading(head: seq<string>) {
    AreLines(head) && forall i :: 0 <= i < |head| ==> IsComment(head[i]) || IsBlank(head[i])
  }

  /** What is kept of a head, from some line on: sound, and terminated throughout if the head is. */
  predicate KeptWell(head: seq<string>, from: nat, kept: seq<string>) {
    && KeptIsSound(kept)
    && (head != [] && Terminated(head[|head| - 1]) ==> AllTerminated(kept))
    && (from == |head| ==> kept == [])
  }

  lemma KeepingOneLine(head: seq<string>, from: nat, rest: seq<string>)
    requires from < |head| && IsLeading(head) && KeptWell(head, from + 1, rest)
    ensures IsComment(head[from]) && !IsSpdx(head[from]) ==> KeptWell(head, from, [head[from]] + rest)
    ensures KeptWell(head, from, rest)
  {
    if IsComment(head[from]) && !IsSpdx(head[from]) {
      KeptInFront(head[from], rest);
    }
  }

  lemma {:induction false} FilterKeepsWell(head: seq<string>, drop: set<int>, from: nat)
    requires from <= |head| && IsLeading(head)
    requires forall i :: 0 <= i < |head| && i !in drop ==> IsComment(head[i]) && !IsSpdx(head[i])
    ensures KeptWell(head, from, Filter(head, drop, from))
    decreases |head| - from
  {
    if from < |head| {
      FilterKeepsWell(head, drop, from + 1);
      KeepingOneLine(head, from, Filter(head, drop, from + 1));
    }
  }

  lemma KeptLines(head: seq<string>, from: nat)
    requires from <= |head| && IsLeading(head)
    ensures KeptWell(head, from, Kept(head, from))
  {
    forall i | 0 <= i < |head| && i !in Drops(head)
      ensures IsComment(head[i]) && !IsSpdx(head[i])
    {
      assert !Dropped(head, i);
      assert IsSpdx(head[i]) ==> RunReaches(head, i, i);
    }
    FilterKeepsWell(head, Drops(head), from);
  }

  /** Leading bare lines gone. */
  function WithoutLeadingBare(kept: seq<string>): (r: seq<string>)
    ensures r == [] || !IsBare(r[0])
  {
    if kept != [] && IsBare(kept[0]) then WithoutLeadingBare(kept[1..]) else kept
  }

  lemma {:induction false} WithoutBareIsASuffix(kept: seq<string>) returns (k: nat)
    ensures k <= |kept| && WithoutLeadingBare(kept) == kept[k..]
  {
    if kept != [] && IsBare(kept[0]) {
      k := WithoutBareIsASuffix(kept[1..]);
      assert kept[1..][k..] == kept[k + 1..];
      k := k + 1;
    } else {
      k := 0;
    }
  }

  lemma {:induction false} NoLongerWithoutBare(kept: seq<string>)
    ensures |Join(WithoutLeadingBare(kept))| <= |Join(kept)|
  {
    if kept != [] && IsBare(kept[0]) {
      NoLongerWithoutBare(kept[1..]);
    }
  }

  lemma ShorterWithoutBare(kept: seq<string>)
    requires AreLines(kept)
    ensures |Join(WithoutLeadingBare(kept))| <= |Join(kept)|
    ensures Join(WithoutLeadingBare(kept)) == Join(kept) <==> kept == [] || !IsBare(kept[0])
    ensures KeptIsSound(kept) ==> KeptIsSound(WithoutLeadingBare(kept))
    ensures exists k :: 0 <= k <= |kept| && WithoutLeadingBare(kept) == kept[k..]
  {
    NoLongerWithoutBare(kept);
    if kept != [] && IsBare(kept[0]) {
      NoLongerWithoutBare(kept[1..]);
      assert |Join(kept)| == |kept[0]| + |Join(kept[1..])|;
    }
    var k := WithoutBareIsASuffix(kept);
  }

  /** Where the head ends is fixed by its last comment and the blanks up to code after it. */
  lemma HeadEndsAfterComments(head: seq<string>, tail: seq<string>, code: nat)
    requires head != [] && forall i :: 0 <= i < |head| ==> IsComment(head[i])
    requires code <= |tail| && forall i :: 0 <= i < code ==> IsBlank(tail[i])
    requires code < |tail| ==> !IsComment(tail[code]) && !IsBlank(tail[code])
    ensures HeadEnd(head + tail) == |head|
  {
    var lines := head + tail;
    LeadingEndIs(lines, 0, |head| + code);
    CommentsAreNotBlank(head[|head| - 1]);
    assert lines[|head| - 1] == head[|head| - 1];
    forall i | |head| <= i < |head| + code
      ensures IsBlank(lines[i])
    {
      assert lines[i] == tail[i - |head|];
    }
    TrimmedEndIs(lines, |head| + code, |head|);
  }

  lemma {:induction false} LeadingEndIs(lines: seq<string>, from: nat, k: nat)
    requires from <= k <= |lines|
    requires forall i :: from <= i < k ==> IsComment(lines[i]) || IsBlank(lines[i])
    requires k < |lines| ==> !IsComment(lines[k]) && !IsBlank(lines[k])
    ensures LeadingEnd(lines, from) == k
    decreases k - from
  {
    if from < k {
      LeadingEndIs(lines, from + 1, k);
    }
  }

  lemma {:induction false} TrimmedEndIs(lines: seq<string>, end: nat, k: nat)
    requires 0 < k <= end <= |lines|
    requires forall i :: k <= i < end ==> IsBlank(lines[i])
    requires !IsBlank(lines[k - 1])
    ensures TrimmedEnd(lines, end) == k
    decreases end
  {
    if k < end {
      TrimmedEndIs(lines, end - 1, k);
    }
  }

  predicate BareUpTo(kept: seq<string>, i: nat)
    requires i <= |kept|
  {
    forall m :: 0 <= m < i ==> IsBare(kept[m])
  }

  lemma ReachedFromBlock(kept: seq<string>, i: nat)
    requires KeptIsSound(kept) && i < |kept| && InBlock(CANONICAL_BLOCK + kept, 4 + i)
    ensures BareUpTo(kept, i + 1)
  {
    BlockLines();
    var head := CANONICAL_BLOCK + kept;
    assert forall m :: 0 <= m < |kept| ==> head[4 + m] == kept[m];
    var j :| 0 <= j < |head| && IsSpdx(head[j]) && RunReaches(head, 4 + i, j);
    assert j < 4;
    BareIsNotSpdx(head[3]) by { assert head[3] == CANONICAL_BLOCK[3]; }
    assert j <= 2;
    forall m | 0 <= m <= i
      ensures IsBare(kept[m])
    {
      assert IsBare(head[4 + m]);
    }
  }

  lemma BareLinesReach(kept: seq<string>, i: nat)
    requires i < |kept| && BareUpTo(kept, i + 1)
    ensures InBlock(CANONICAL_BLOCK + kept, 4 + i)
  {
    BlockLines();
    var head := CANONICAL_BLOCK + kept;
    assert head[2] == CANONICAL_BLOCK[2] && head[3] == CANONICAL_BLOCK[3];
    forall m | 2 < m <= 4 + i
      ensures IsBare(head[m])
    {
      assert m >= 4 ==> head[m] == kept[m - 4];
    }
    assert RunReaches(head, 4 + i, 2);
  }

  /** Under the canonical block, only the bare lines that directly follow it belong to it. */
  lemma BlockReaches(kept: seq<string>, i: nat)
    requires KeptIsSound(kept) && i < |kept|
    ensures InBlock(CANONICAL_BLOCK + kept, 4 + i) <==> BareUpTo(kept, i + 1)
  {
    if InBlock(CANONICAL_BLOCK + kept, 4 + i) {
      ReachedFromBlock(kept, i);
    }
    if BareUpTo(kept, i + 1) {
      BareLinesReach(kept, i);
    }
  }

  lemma BlockDrops(kept: seq<string>, i: nat)
    requires KeptIsSound(kept) && i < |kept|
    ensures 4 + i in Drops(CANONICAL_BLOCK + kept) <==> BareUpTo(kept, i + 1)
  {
    var head := CANONICAL_BLOCK + kept;
    assert head[4 + i] == kept[i];
    BlockReaches(kept, i);
    CommentsAreNotBlank(kept[i]);
    assert 4 + i in Drops(head) <==> Dropped(head, 4 + i);
  }

  /** A bare line that leads what is left is dropped from it; any other line leads it for good. */
  lemma BareLeads(kept: seq<string>, i: nat)
    requires i < |kept|
    ensures kept[i..] == [kept[i]] + kept[i + 1..]
    ensures BareUpTo(kept, i + 1) <==> BareUpTo(kept, i) && IsBare(kept[i])
    ensures WithoutLeadingBare(kept[i..]) == if IsBare(kept[i]) then WithoutLeadingBare(kept[i + 1..]) else kept[i..]
  {
    assert kept[i..][1..] == kept[i + 1..];
  }

  lemma LeadingStep(kept: seq<string>, i: nat, below: seq<string>, here: seq<string>)
    requires i < |kept|
    requires below == if BareUpTo(kept, i + 1) then WithoutLeadingBare(kept[i + 1..]) else kept[i + 1..]
    requires here == (if BareUpTo(kept, i + 1) then [] else [kept[i]]) + below
    ensures here == if BareUpTo(kept, i) then WithoutLeadingBare(kept[i..]) else kept[i..]
  {
    BareLeads(kept, i);
  }

  /** Of the lines under the block, those dropped are the bare ones that directly follow it. */
  predicate DropsLeadingBare(kept: seq<string>, drop: set<int>) {
    forall n :: 4 <= n < 4 + |kept| ==> (n in drop <==> BareUpTo(kept, n - 3))
  }

  lemma FilterOneLine(kept: seq<string>, head: seq<string>, drop: set<int>, i: nat)
    requires i < |kept| && |head| == 4 + |kept| && head[4..] == kept && DropsLeadingBare(kept, drop)
    ensures Filter(head, drop, 4 + i)
         == (if BareUpTo(kept, i + 1) then [] else [kept[i]]) + Filter(head, drop, 4 + i + 1)
  {
    var n := 4 + i;
    assert head[n] == head[4..][i] && (n in drop <==> BareUpTo(kept, n - 3));
    FilterUnfolds(head, drop, n);
  }

  lemma {:induction false} FilterUnderBlock(kept: seq<string>, head: seq<string>, drop: set<int>, i: nat)
    requires i <= |kept| && |head| == 4 + |kept| && head[4..] == kept && DropsLeadingBare(kept, drop)
    ensures Filter(head, drop, 4 + i) == if BareUpTo(kept, i) then WithoutLeadingBare(kept[i..]) else kept[i..]
    decreases |kept| - i
  {
    if i < |kept| {
      FilterUnderBlock(kept, head, drop, i + 1);
      FilterOneLine(kept, head, drop, i);
      LeadingStep(kept, i, Filter(head, drop, 4 + i + 1), Filter(head, drop, 4 + i));
    }
  }

  lemma KeptUnderBlock(kept: seq<string>)
    requires KeptIsSound(kept)
    ensures Kept(CANONICAL_BLOCK + kept, 4) == WithoutLeadingBare(kept)
  {
    var head := CANONICAL_BLOCK + kept;
    var drop := Drops(head);
    forall n | 4 <= n < 4 + |kept|
      ensures n in drop <==> BareUpTo(kept, n - 3)
    {
      BlockDrops(kept, n - 4);
    }
    assert head[4..] == kept;
    FilterUnderBlock(kept, head, drop, 0);
    assert kept[0..] == kept;
  }

  /** The four lines of the block are all dropped again. */
  lemma BlockIsDropped(kept: seq<string>, i: nat)
    requires i < 4
    ensures InBlock(CANONICAL_BLOCK + kept, i)
  {
    BlockLines();
    var head := CANONICAL_BLOCK + kept;
    var j := if i <= 1 then 1 else 2;
    assert head[i] == CANONICAL_BLOCK[i] && head[j] == CANONICAL_BLOCK[j];
    assert RunReaches(head, i, j);
  }

  lemma KeptUnderWholeBlock(kept: seq<string>)
    requires KeptIsSound(kept)
    ensures Kept(CANONICAL_BLOCK + kept, 0) == WithoutLeadingBare(kept)
  {
    var head := CANONICAL_BLOCK + kept;
    KeptUnderBlock(kept);
    forall i: nat | i < 4
      ensures Kept(head, i) == Kept(head, i + 1)
    {
      BlockIsDropped(kept, i);
      KeptUnfolds(head, i);
    }
    assert Kept(head, 0) == Kept(head, 1) == Kept(head, 2) == Kept(head, 3) == Kept(head, 4);
  }

  /** Blank lines, then code or the end of the file. */
  predicate StartsWithCode(tail: seq<string>, code: nat) {
    && code <= |tail| && (forall i :: 0 <= i < code ==> IsBlank(tail[i]))
    && (code < |tail| ==> !IsComment(tail[code]) && !IsBlank(tail[code]))
  }

  /** Partitioning text under a canonical block gives back what was written there, less leading bare lines. */
  lemma PassOverBlock(kept: seq<string>, tail: seq<string>, code: nat)
    requires KeptIsSound(kept) && AreLines(CANONICAL_BLOCK + kept + tail) && StartsWithCode(tail, code)
    ensures PartsOf(Join(CANONICAL_BLOCK + kept + tail)) == Parts(WithoutLeadingBare(kept), Join(tail))
  {
    var head := CANONICAL_BLOCK + kept;
    LinesOfJoin(head + tail);
    BlockLines();
    forall i | 0 <= i < |head|
      ensures IsComment(head[i])
    {
      assert head[i] == if i < 4 then CANONICAL_BLOCK[i] else kept[i - 4];
    }
    HeadEndsAfterComments(head, tail, code);
    assert (head + tail)[..|head|] == head && (head + tail)[|head|..] == tail;
    KeptUnderWholeBlock(kept);
  }

  lemma JoinThree(a: seq<string>, b: seq<string>, c: seq<string>)
    ensures Join(a) + Join(b) + Join(c) == Join(a + b + c)
  {
    JoinConcat(a, b);
    JoinConcat(a + b, c);
  }

  /** The kept comments and the lines after them still form lines under the block. */
  lemma KeptThenTail(lines: seq<string>, end: nat)
    requires AreLines(lines) && end <= |lines|
    requires forall i :: 0 <= i < end ==> IsComment(lines[i]) || IsBlank(lines[i])
    ensures KeptIsSound(Kept(lines[..end], 0))
    ensures AreLines(CANONICAL_BLOCK + Kept(lines[..end], 0) + lines[end..])
  {
    var head, tail := lines[..end], lines[end..];
    KeptLines(head, 0);
    if tail != [] && head != [] {
      assert head[|head| - 1] == lines[end - 1];
    }
    BlockThenLines(Kept(head, 0), tail);
  }

  lemma TailStartsWithCode(lines: seq<string>)
    ensures HeadEnd(lines) <= LeadingEnd(lines, 0)
    ensures StartsWithCode(lines[HeadEnd(lines)..], LeadingEnd(lines, 0) - HeadEnd(lines))
  {
  }

  lemma PartsAreLines(lines: seq<string>, end: nat, kept: seq<string>, tail: seq<string>)
    requires AreLines(lines) && end == HeadEnd(lines) && kept == Kept(lines[..end], 0) && tail == lines[end..]
    ensures KeptIsSound(kept) && AreLines(CANONICAL_BLOCK + kept + tail)
  {
    HeadIsLeadingComments(lines, 0);
    KeptThenTail(lines, end);
  }

  /** What one pass writes below the shebang, as lines. */
  lemma PassWrites(rest: string) returns (tail: seq<string>, code: nat)
    ensures var kept := PartsOf(rest).kept;
            && KeptIsSound(kept) && AreLines(CANONICAL_BLOCK + kept + tail) && StartsWithCode(tail, code)
            && PartsOf(rest).body == Join(tail)
            && Join(CANONICAL_BLOCK) + Join(kept) + Join(tail) == Join(CANONICAL_BLOCK + kept + tail)
  {
    var lines, kept := Lines(rest), PartsOf(rest).kept;
    var end := HeadEnd(lines);
    tail, code := lines[end..], LeadingEnd(lines, 0) - end;
    assert AreLines(lines) by { LinesAreLines(rest); }
    TailStartsWithCode(lines);
    PartsAreLines(lines, end, kept, tail);
    JoinThree(CANONICAL_BLOCK, kept, tail);
  }

  lemma BlockThenLines(kept: seq<string>, tail: seq<string>)
    requires AreLines(kept) && AreLines(tail)
    requires tail != [] ==> forall i :: 0 <= i < |kept| ==> Terminated(kept[i])
    ensures AreLines(CANONICAL_BLOCK + kept + tail)
  {
    BlockLines();
    var all := CANONICAL_BLOCK + kept + tail;
    forall i | 0 <= i < |all|
      ensures IsLine(all[i]) && (i < |all| - 1 ==> Terminated(all[i]))
    {
      if i < 4 {
        assert all[i] == CANONICAL_BLOCK[i];
      } else if i < 4 + |kept| {
        assert all[i] == kept[i - 4];
      } else {
        assert all[i] == tail[i - 4 - |kept|];
      }
    }
  }

  // ---- The shebang ----

  predicate IsShebang(line: string) {
    line == "" || (StartsWith(line, "#!") && IsLine(line) && Terminated(line))
  }

  lemma {:induction false} NewlineEndsFirstLine(text: string)
    requires '\n' in text
    ensures Terminated(text[..LineLength(text)])
  {
    if text[0] != '\n' {
      assert text == [text[0]] + text[1..];
      NewlineEndsFirstLine(text[1..]);
      assert text[..LineLength(text)] == [text[0]] + text[1..][..LineLength(text[1..])];
    }
  }

  lemma ShebangIsALine(text: string)
    ensures IsShebang(SplitShebang(text).0)
    ensures text == SplitShebang(text).0 + SplitShebang(text).1
         || ('\n' !in text && SplitShebang(text) == (text + "\n", ""))
  {
    if StartsWith(text, "#!") && '\n' in text {
      FirstLineOf(text);
      NewlineEndsFirstLine(text);
      assert text[0] == '#';
      assert LineLength(text) >= 2;
    }
  }

  /** Splitting what was put together under a shebang gives back the two parts. */
  lemma ShebangStays(shebang: string, rest: string)
    requires IsShebang(shebang) && rest != "" && (shebang == "" ==> !StartsWith(rest, "#!"))
    ensures SplitShebang(shebang + rest) == (shebang, rest)
  {
    if shebang == "" {
      assert shebang + rest == rest;
    } else {
      LengthOfFirst(shebang, rest);
      assert shebang[|shebang| - 1] in shebang + rest;
      assert (shebang + rest)[..2] == shebang[..2];
    }
  }

  lemma BlockFirst(lines: seq<string>)
    requires |lines| >= 4 && lines[..4] == CANONICAL_BLOCK
    ensures Join(lines) != "" && !StartsWith(Join(lines), "#!")
  {
    assert lines[0] == CANONICAL_BLOCK[0] == BARE;
    assert Join(lines) == BARE + Join(lines[1..]);
    assert Join(lines)[1] == BARE[1] == '\n';
  }

  /** One pass, read back: the same shebang, the same body, and the kept comments less leading bare lines. */
  lemma NormalizedReadsBack(text: string)
    ensures var (shebang, rest) := SplitShebang(text);
            var (again, below) := SplitShebang(Normalized(text));
            && again == shebang
            && PartsOf(below) == Parts(WithoutLeadingBare(PartsOf(rest).kept), PartsOf(rest).body)
  {
    var (shebang, rest) := SplitShebang(text);
    var tail, code, lines := PassIsShebangThenLines(text);
    PassOverBlock(PartsOf(rest).kept, tail, code);
  }

  lemma FourPieces(a: string, b: string, c: string, d: string)
    ensures a + b + c + d == a + (b + c + d)
  {
  }

  lemma ShebangThenLines(shebang: string, lines: seq<string>)
    requires IsShebang(shebang) && |lines| >= 4 && lines[..4] == CANONICAL_BLOCK
    ensures SplitShebang(shebang + Join(lines)) == (shebang, Join(lines))
  {
    BlockFirst(lines);
    ShebangStays(shebang, Join(lines));
  }

  lemma PassIsShebangThenLines(text: string) returns (tail: seq<string>, code: nat, lines: seq<string>)
    ensures var (shebang, rest) := SplitShebang(text);
            var kept := PartsOf(rest).kept;
            && KeptIsSound(kept) && AreLines(lines) && StartsWithCode(tail, code)
            && lines == CANONICAL_BLOCK + kept + tail && PartsOf(rest).body == Join(tail)
            && SplitShebang(Normalized(text)) == (shebang, Join(lines))
  {
    var (shebang, rest) := SplitShebang(text);
    var parts := PartsOf(rest);
    tail, code := PassWrites(rest);
    lines := CANONICAL_BLOCK + parts.kept + tail;
    FourPieces(shebang, Join(CANONICAL_BLOCK), Join(parts.kept), parts.body);
    ShebangIsALine(text);
    assert lines[..4] == CANONICAL_BLOCK;
    ShebangThenLines(shebang, lines);
  }

  /** Stabilisation: every normalised text has a canonical header. */
  lemma NormalizedHasCanonicalHeader(text: string)
    ensures HasCanonicalHeader(Normalized(text))
  {
    var tail, code, lines := PassIsShebangThenLines(text);
    LinesOfJoin(lines);
    assert lines[..4] == CANONICAL_BLOCK;
  }

  function KeptOf(text: string): seq<string> {
    PartsOf(SplitShebang(text).1).kept
  }

  /** One pass is a fixed point exactly when the kept comments do not begin with a bare `#`. */
  lemma FixedAfterOnePass(text: string)
    ensures Normalized(Normalized(text)) == Normalized(text)
       <==> KeptOf(text) == [] || !IsBare(KeptOf(text)[0])
  {
    NormalizedReadsBack(text);
    var tail, code := PassWrites(SplitShebang(text).1);
    var kept := KeptOf(text);
    ShorterWithoutBare(kept);
    var before := SplitShebang(text).0 + Join(CANONICAL_BLOCK);
    var body := PartsOf(SplitShebang(text).1).body;
    assert Normalized(text) == before + Join(kept) + body;
    assert Normalized(Normalized(text)) == before + Join(WithoutLeadingBare(kept)) + body;
    SameMiddle(before, Join(kept), Join(WithoutLeadingBare(kept)), body);
  }

  lemma BareLineIsKept(lines: seq<string>)
    requires lines == [BARE]
    ensures HeadEnd(lines) == 1 && Kept(lines[..1], 0) == lines
  {
    BareLine();
    BareIsNotSpdx(BARE);
    CommentsAreNotBlank(BARE);
    LeadingEndIs(lines, 0, 1);
    TrimmedEndIs(lines, 1, 1);
    assert lines[..1] == lines;
    KeptUnfolds(lines, 0);
    assert Kept(lines, 1) == [];
  }

  /** A file with nothing but a bare `#` needs the second pass. */
  lemma BareFileNeedsTwoPasses(text: string)
    requires text == "#\n"
    ensures Normalized(Normalized(text)) != Normalized(text)
  {
    var lines := [BARE];
    BareLine();
    LinesOfJoin(lines);
    assert Join(lines[1..]) == "" && Join(lines) == BARE + "";
    assert Join(lines) == text && SplitShebang(text) == ("", text);
    BareLineIsKept(lines);
    FixedAfterOnePass(text);
  }

  lemma SameMiddle(before: string, a: string, b: string, after: string)
    ensures before + a + after == before + b + after <==> a == b
  {
    if before + a + after == before + b + after {
      assert |a| == |b|;
      assert a == (before + a + after)[|before|..|before| + |a|];
      assert b == (before + b + after)[|before|..|before| + |b|];
    }
  }

  /** Two passes are a fixed point for every text. */
  lemma FixedAfterTwoPasses(text: string)
    ensures Normalized(Normalized(Normalized(text))) == Normalized(Normalized(text))
  {
    NormalizedReadsBack(text);
    FixedAfterOnePass(Normalized(text));
  }

  // ---- Preservation ----

  /** `at` lists, in order, where each kept line comes from. */
  predicate Indexes(at: seq<nat>, head: seq<string>, from: nat, kept: seq<string>) {
    && |at| == |kept|
    && (forall m :: 0 <= m < |at| ==> from <= at[m] < |head| && kept[m] == head[at[m]])
    && (forall m, n :: 0 <= m < n < |at| ==> at[m] < at[n])
  }

  lemma IndexesExtend(at: seq<nat>, head: seq<string>, from: nat, kept: seq<string>)
    requires from < |head| && Indexes(at, head, from + 1, kept)
    ensures Indexes(at, head, from, kept)
    ensures Indexes([from] + at, head, from, [head[from]] + kept)
  {
  }

  ghost predicate ListsTheKept(at: seq<nat>, head: seq<string>, from: nat) {
    forall i :: i in at <==> from <= i < |head| && !Dropped(head, i)
  }

  lemma ListExtends(at: seq<nat>, head: seq<string>, from: nat)
    requires from < |head| && ListsTheKept(at, head, from + 1)
    ensures ListsTheKept(if Dropped(head, from) then at else [from] + at, head, from)
  {
    assert forall i :: i in [from] + at <==> i == from || i in at;
  }

  /** The kept lines are, in order, exactly the non-blank head lines outside the block. */
  lemma {:induction false} KeptIndices(head: seq<string>, from: nat) returns (at: seq<nat>)
    requires from <= |head|
    ensures Indexes(at, head, from, Kept(head, from)) && ListsTheKept(at, head, from)
    decreases |head| - from
  {
    if from == |head| {
      at := [];
    } else {
      var rest := KeptIndices(head, from + 1);
      var kept := Kept(head, from + 1);
      KeptUnfolds(head, from);
      IndexesExtend(rest, head, from, kept);
      ListExtends(rest, head, from);
      at := if Dropped(head, from) then rest else [from] + rest;
    }
  }

  /** Everything in a list an author can have written: neither an SPDX line nor a bare `#` nor blank. */
  function Authored(lines: seq<string>): seq<string> {
    if lines == [] then []
    else (if IsBlank(lines[0]) || IsSpdx(lines[0]) || IsBare(lines[0]) then [] else [lines[0]]) + Authored(lines[1..])
  }

  predicate IsAuthored(line: string) {
    !IsBlank(line) && !IsSpdx(line) && !IsBare(line)
  }

  lemma AuthoredUnfolds(line: string, rest: seq<string>)
    ensures Authored([line] + rest) == (if IsAuthored(line) then [line] else []) + Authored(rest)
  {
    assert ([line] + rest)[1..] == rest;
  }

  lemma BlockIsNotAuthored(head: seq<string>, i: nat)
    requires i < |head| && Dropped(head, i)
    ensures !IsAuthored(head[i])
  {
    if InBlock(head, i) {
      var j :| 0 <= j < |head| && IsSpdx(head[j]) && RunReaches(head, i, j);
      assert j == i || IsBare(head[i]);
    }
  }

  lemma {:induction false} KeepingKeepsAuthored(head: seq<string>, from: nat)
    requires from <= |head|
    ensures Authored(Kept(head, from)) == Authored(head[from..])
    decreases |head| - from
  {
    if from < |head| {
      KeepingKeepsAuthored(head, from + 1);
      assert head[from..] == [head[from]] + head[from + 1..];
      AuthoredUnfolds(head[from], head[from + 1..]);
      KeptUnfolds(head, from);
      AuthoredUnfolds(head[from], Kept(head, from + 1));
      if Dropped(head, from) {
        BlockIsNotAuthored(head, from);
      }
    }
  }

  lemma {:induction false} DroppingBareKeepsAuthored(kept: seq<string>)
    ensures Authored(WithoutLeadingBare(kept)) == Authored(kept)
  {
    if kept != [] && IsBare(kept[0]) {
      DroppingBareKeepsAuthored(kept[1..]);
    }
  }

  /**
   Preservation: a pass writes the shebang, the block, the kept comments and the body, and
   nothing else; the body is the text from the end of the head on; and every line an author
   wrote in the head is still there, in order, after one pass and after two.
   */
  lemma NothingAuthoredIsLost(text: string)
    ensures var (shebang, rest) := SplitShebang(text);
            var lines := Lines(rest);
            var head := lines[..HeadEnd(lines)];
            var once := PartsOf(SplitShebang(Normalized(text)).1);
            && (text == shebang + Join(head) + once.body
                || ('\n' !in text && shebang == text + "\n" && rest == ""))
            && Authored(KeptOf(text)) == Authored(head)
            && Authored(once.kept) == Authored(head)
  {
    var (shebang, rest) := SplitShebang(text);
    var lines := Lines(rest);
    var head := lines[..HeadEnd(lines)];
    ShebangIsALine(text);
    BodyIsTheRest(rest);
    NormalizedReadsBack(text);
    KeepingKeepsAuthored(head, 0);
    assert head[0..] == head;
    DroppingBareKeepsAuthored(KeptOf(text));
    ThreePieces(shebang, Join(head), PartsOf(rest).body);
  }

  lemma ThreePieces(a: string, b: string, c: string)
    ensures a + b + c == a + (b + c)
  {
  }
}
