/** What the normaliser does, told from the text of a file: what its lines are, what it writes and what it keeps. */
module SpdxText {
  import opened Text
  import opened SpdxHeaders

  // ---- Kinds of line ----

  lemma BlankMeansNoText(line: string)
    ensures IsBlank(line) <==> AllSpace(line)
  {
    var l, r := StripSplits(line);
    if l == r {
      assert line[..l] + line[r..] == line;
      forall i | 0 <= i < |line|
        ensures IsSpace(line[i])
      {
        assert if i < l then line[i] == line[..l][i] else line[i] == line[r..][i - r];
      }
    } else {
      assert !IsSpace(line[l]) && Strip(line) != "";
    }
  }

  /** A bare delimiter is a single `#`, whatever blanks are around it. */
  lemma BareMeansOneSign(before: string, after: string)
    requires AllSpace(before) && AllSpace(after)
    ensures IsBare(before + "#" + after)
  {
    StripIgnoresBlanksAround(before, "#", after);
  }

  lemma BareHasOneSign(line: string) returns (before: string, after: string)
    requires IsBare(line)
    ensures AllSpace(before) && AllSpace(after) && line == before + "#" + after
  {
    var l, r := StripSplits(line);
    before, after := line[..l], line[r..];
    assert line == line[..l] + line[l..r] + line[r..];
  }

  lemma PrefixSurvivesStripping(t: string, tag: string)
    requires tag != "" && !IsSpace(tag[|tag| - 1])
    ensures tag <= StripRight(t) <==> tag <= t
  {
    var k := StripRightSplits(t);
    forall i | k <= i < |t|
      ensures IsSpace(t[i])
    {
      assert t[i] == t[k..][i - k];
    }
    assert tag <= t ==> t[|tag| - 1] == tag[|tag| - 1];
  }

  lemma TagsEndInText()
    ensures COPYRIGHT_TAG == "# SPDX-FileCopyrightText" && LICENSE_TAG == "# SPDX-License-Identifier"
    ensures !IsSpace(COPYRIGHT_TAG[|COPYRIGHT_TAG| - 1]) && !IsSpace(LICENSE_TAG[|LICENSE_TAG| - 1])
  {
  }

  /** The two SPDX lines are told by their tags, after any blanks. */
  lemma SpdxMeansTagged(blank: string, t: string)
    requires AllSpace(blank) && t != "" && !IsSpace(t[0])
    ensures IsSpdx(blank + t) <==> "# SPDX-FileCopyrightText" <= t || "# SPDX-License-Identifier" <= t
  {
    StripLeftIs(blank, t);
    TagsEndInText();
    PrefixSurvivesStripping(t, COPYRIGHT_TAG);
    PrefixSurvivesStripping(t, LICENSE_TAG);
  }

  // ---- What is written ----

  const HEADER :=
    ("#\n" + ("# SPDX-FileCopyrightText" + ": Copyright (c) 2025-2026 provide.io" + " llc. All rights reserved." + "\n"))
    + (("# SPDX-License-Identifier" + ": AGPL-3.0-or-later" + "\n") + "#\n")

  lemma BlockIsTheHeader()
    ensures Join(CANONICAL_BLOCK) == HEADER
  {
    JoinOfFour(BARE, COPYRIGHT, LICENSE, BARE);
  }

  lemma JoinOfFour(a: string, b: string, c: string, d: string)
    ensures Join([a, b, c, d]) == (a + b) + (c + d)
  {
    assert [a, b, c, d][1..] == [b, c, d] && [b, c, d][1..] == [c, d] && [c, d][1..] == [d] && [d][1..] == [];
    assert Join([d]) == d + "" == d;
    assert Join([c, d]) == c + d;
    assert Join([b, c, d]) == b + (c + d);
  }

  lemma {:induction false} FirstLineLength(text: string, n: nat)
    requires n < |text| && text[n] == '\n' && '\n' !in text[..n]
    ensures LineLength(text) == n + 1
  {
    if n > 0 {
      assert text[..n][0] == text[0];
      assert text[1..][..n - 1] == text[..n][1..];
      FirstLineLength(text[1..], n - 1);
    }
  }

  /** A shebang line stays first, and the header follows it. */
  lemma ShebangStaysFirst(text: string, n: nat)
    requires "#!" <= text && n < |text| && text[n] == '\n' && '\n' !in text[..n]
    ensures text[..n + 1] + HEADER <= Normalized(text)
  {
    FirstLineLength(text, n);
    BlockIsTheHeader();
  }

  /** A shebang that is the whole file gains a newline. */
  lemma LoneShebangIsTerminated(text: string)
    requires "#!" <= text && '\n' !in text
    ensures text + "\n" + HEADER <= Normalized(text)
  {
    BlockIsTheHeader();
  }

  /** Without a shebang the header comes first. */
  lemma HeaderComesFirst(text: string)
    requires !("#!" <= text)
    ensures HEADER <= Normalized(text)
  {
    BlockIsTheHeader();
    assert "" + Join(CANONICAL_BLOCK) == Join(CANONICAL_BLOCK);
  }

  // ---- What is kept ----

  predicate LeadsTheFile(lines: seq<string>, i: nat) {
    i < |lines| && forall j :: 0 <= j <= i ==> (lines[j] != "" && lines[j][0] == '#') || AllSpace(lines[j])
  }

  /** A comment an author wrote: it starts with `#`, has more text than that, and is no SPDX line. */
  predicate IsAuthorsComment(line: string) {
    && line != "" && line[0] == '#'
    && !AllSpace(line[1..])
    && !("# SPDX-FileCopyrightText" <= line) && !("# SPDX-License-Identifier" <= line)
  }

  lemma BareCommentHasNoText(line: string)
    requires IsBare(line) && line != "" && line[0] == '#'
    ensures AllSpace(line[1..])
  {
    var before, after := BareHasOneSign(line);
    assert line[0] == (before + ("#" + after))[0];
    assert line[1..] == after;
  }

  lemma AuthorsCommentIsNotDropped(head: seq<string>, i: nat)
    requires i < |head| && IsAuthorsComment(head[i])
    ensures !Dropped(head, i)
  {
    var line := head[i];
    assert "" + line == line;
    SpdxMeansTagged("", line);
    CommentsAreNotBlank(line);
    if IsBare(line) {
      BareCommentHasNoText(line);
    }
  }

  lemma LeadingIsInTheHead(lines: seq<string>, i: nat)
    requires LeadsTheFile(lines, i) && IsComment(lines[i])
    ensures i < HeadEnd(lines)
  {
    CommentsAreNotBlank(lines[i]);
    forall j | 0 <= j <= i
      ensures IsComment(lines[j]) || IsBlank(lines[j])
    {
      BlankMeansNoText(lines[j]);
    }
  }

  /** Every authored comment above the first line of code is kept. */
  lemma AuthorsCommentsAreKept(text: string, i: nat)
    requires !("#!" <= text) && LeadsTheFile(Lines(text), i) && IsAuthorsComment(Lines(text)[i])
    ensures Lines(text)[i] in KeptOf(text)
  {
    var lines := Lines(text);
    var head := lines[..HeadEnd(lines)];
    LeadingIsInTheHead(lines, i);
    AuthorsCommentIsNotDropped(head, i);
    var at := KeptIndices(head, 0);
    assert i in at;
    var m :| 0 <= m < |at| && at[m] == i;
    assert Kept(head, 0)[m] == head[i];
  }
}
