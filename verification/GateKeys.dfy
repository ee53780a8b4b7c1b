/**
 Which lines of the workflow file the scanner reads, told from their text: which keys are
 recorded, which lines are significant, and which belong to a block.
 */
module GateKeys {
  import opened Options
  import opened Text
  import opened GateBlocks
  import opened GateRegions

  // ---- Lines ----

  /** A line is significant exactly when it has text that does not start with a comment sign. */
  lemma SignificantText(blank: string, text: string)
    requires AllSpace(blank) && (text == "" || !IsSpace(text[0]))
    ensures IsSignificant(blank + text) <==> text != "" && text[0] != '#'
  {
    StripLeftIs(blank, text);
    if text != "" {
      StripRightKeepsFirst(text);
    }
  }

  /** Under a top-level key a line that starts with a space belongs to the block; under a job, one with three. */
  lemma IndentedText(line: string)
    ensures IsIndented(line, "") <==> |line| >= 1 && line[0] == ' '
    ensures IsIndented(line, "  ") <==> |line| >= 3 && line[0] == ' ' && line[1] == ' ' && line[2] == ' '
  {
    assert "" + " " == " " && "  " + " " == "   ";
  }

  // ---- Keys ----

  /** The name of a key as written: no colon, no blank or quote at either end, no comment. */
  predicate IsKeyText(k: string) {
    && k != "" && ':' !in k && k[0] != '#'
    && !IsSpace(k[0]) && !IsSpace(k[|k| - 1])
    && k[0] != '\'' && k[0] != '"' && k[|k| - 1] != '\'' && k[|k| - 1] != '"'
  }

  lemma KeyIsRead(k: string, rest: string)
    requires IsKeyText(k)
    ensures IsTopLevelKey(k + ":" + rest) && KeyOf(k + ":" + rest) == k
  {
    PartitionAtFirst(k, ':', rest);
    StripTrimmed(k);
    assert k + [':'] + rest == k + ":" + rest;
    assert (k + ":" + rest)[|k|] == ':';
  }

  lemma QuotedKeyIsRead(k: string, quote: char, rest: string)
    requires IsKeyText(k) && (quote == '\'' || quote == '"')
    ensures IsTopLevelKey([quote] + k + [quote] + ":" + rest) && KeyOf([quote] + k + [quote] + ":" + rest) == k
  {
    var quoted := [quote] + k + [quote];
    PartitionAtFirst(quoted, ':', rest);
    StripTrimmed(quoted);
    assert quoted + [':'] + rest == quoted + ":" + rest;
    assert (quoted + ":" + rest)[|quoted|] == ':';
    QuotesComeOff(k, quote);
  }

  lemma QuotesComeOff(k: string, quote: char)
    requires IsKeyText(k) && (quote == '\'' || quote == '"')
    ensures Unquoted([quote] + k + [quote]) == k
  {
    var quoted := [quote] + k + [quote];
    assert quoted[1..] == k + [quote];
    assert (k + [quote])[..|k|] == k;
    assert Unquoted(k + [quote]) == Unquoted(k);
  }

  /** The line opens a top-level key of this name, bare or in quotes. */
  predicate OpensKey(line: string, k: string) {
    StartsWith(line, k + ":") || StartsWith(line, "'" + k + "':") || StartsWith(line, "\"" + k + "\":")
  }

  lemma OpenedKey(line: string, k: string)
    requires IsKeyText(k) && OpensKey(line, k)
    ensures IsTopLevelKey(line) && KeyOf(line) == k
  {
    if StartsWith(line, k + ":") {
      KeyIsRead(k, line[|k| + 1..]);
      assert line == k + ":" + line[|k| + 1..];
    } else {
      var quote := line[0];
      QuotedKeyIsRead(k, quote, line[|k| + 3..]);
      assert line == [quote] + k + [quote] + ":" + line[|k| + 3..];
    }
  }

  lemma {:induction false} SkippedKeysHaveNoBlock(lines: seq<string>, name: string)
    requires name == "top-level jobs" || name == "top-level name"
    ensures name !in TopLevelBlocks(lines)
  {
    if lines != [] {
      SkippedKeysHaveNoBlock(lines[1..], name);
      if IsRecordedKey(lines[0]) {
        assert TopLevelName(lines[0])[10..] == KeyOf(lines[0]);
        assert name[10..] == "jobs" || name[10..] == "name";
      }
    }
  }

  lemma RecordedHasBlock(lines: seq<string>, i: nat)
    requires i < |lines| && IsRecordedKey(lines[i])
    ensures TopLevelName(lines[i]) in TopLevelBlocks(lines)
  {
    if TopLevelName(lines[i]) !in TopLevelBlocks(lines) {
      NoBlockNoLine(lines, TopLevelName(lines[i]), i);
    }
  }

  lemma BlockUnderAKeyName(lines: seq<string>, jobs: seq<string>, name: string)
    requires AreJobNames(jobs) && IsTopLevelName(name)
    ensures name in BlocksOf(lines, jobs) <==> name in TopLevelBlocks(lines)
  {
    if name in BlocksOf(lines, jobs) {
      WithJobsHolds(TopLevelBlocks(lines), lines, jobs, name, BlocksOf(lines, jobs)[name]);
    }
    if name in TopLevelBlocks(lines) {
      WithJobsHolds(TopLevelBlocks(lines), lines, jobs, name, TopLevelBlocks(lines)[name]);
    }
  }

  /** Every top-level key but `jobs` and `name` is read, whatever else the file holds. */
  lemma EveryOtherKeyIsRecorded(lines: seq<string>, jobs: seq<string>, i: nat, k: string, name: string)
    requires i < |lines| && IsKeyText(k) && OpensKey(lines[i], k) && name == "top-level " + k && AreJobNames(jobs)
    ensures name in BlocksOf(lines, jobs) <==> k != "jobs" && k != "name"
  {
    OpenedKey(lines[i], k);
    BlockUnderAKeyName(lines, jobs, name);
    if k == "jobs" || k == "name" {
      SkippedKeysHaveNoBlock(lines, name);
    } else {
      RecordedHasBlock(lines, i);
    }
  }

  // ---- An edit under a key shows ----

  predicate StartsWithSpace(line: string) {
    line != "" && line[0] == ' '
  }

  /** Indented, or without text of its own. */
  predicate AreUnderAKey(lines: seq<string>) {
    forall i :: 0 <= i < |lines| ==> StartsWithSpace(lines[i]) || !IsSignificant(lines[i])
  }

  /** A line that opens no key: indented, a comment, or without a colon. */
  predicate OpensNothing(line: string) {
    line == "" || IsSpace(line[0]) || line[0] == '#' || ':' !in line
  }

  ghost predicate OpensOtherKey(line: string, k: string) {
    exists other: string :: IsKeyText(other) && OpensKey(line, other) && other != k
  }

  ghost predicate LeavesKeyAlone(lines: seq<string>, k: string) {
    forall i :: 0 <= i < |lines| ==> OpensNothing(lines[i]) || OpensOtherKey(lines[i], k)
  }

  /** The next line with text, if any comes at once, is not indented. */
  predicate EndsBlock(after: seq<string>) {
    after == [] || (IsSignificant(after[0]) && !StartsWithSpace(after[0]))
  }

  lemma {:induction false} BlockEndIs(body: seq<string>, after: seq<string>)
    requires AreUnderAKey(body) && EndsBlock(after)
    ensures BlockEnd(body + after, "") == |body|
  {
    if body == [] {
      assert body + after == after;
      if after != [] {
        IndentedText(after[0]);
      }
    } else {
      assert StartsWithSpace(body[0]) || !IsSignificant(body[0]);
      IndentedText(body[0]);
      assert (body + after)[1..] == body[1..] + after;
      BlockEndIs(body[1..], after);
    }
  }

  lemma OtherLinesDoNotRecord(line: string, k: string)
    requires IsKeyText(k) && (OpensNothing(line) || OpensOtherKey(line, k))
    ensures !Records(line, "top-level " + k)
  {
    var prefix := "top-level ";
    if OpensOtherKey(line, k) {
      var other :| IsKeyText(other) && OpensKey(line, other) && other != k;
      OpenedKey(line, other);
      assert (prefix + other)[|prefix|..] == other && (prefix + k)[|prefix|..] == k;
    } else {
      assert !IsTopLevelKey(line) by {
        assert "#"[0] == '#';
      }
    }
  }

  lemma LastRecordIs(lines: seq<string>, n: nat, body: seq<string>, after: seq<string>, k: string)
    requires n < |lines| && lines[n + 1..] == body + after
    requires IsKeyText(k) && OpensKey(lines[n], k) && k != "jobs" && k != "name"
    requires AreUnderAKey(body) && LeavesKeyAlone(after, k)
    ensures RecordsLast(lines, "top-level " + k, n)
  {
    OpenedKey(lines[n], k);
    forall m | n < m < |lines|
      ensures !Records(lines[m], "top-level " + k)
    {
      var i := m - n - 1;
      assert lines[m] == (body + after)[i];
      if i < |body| && !StartsWithSpace(body[i]) {
        InsignificantIsNoKey(body[i]);
      } else {
        OtherLinesDoNotRecord(lines[m], k);
      }
    }
  }

  lemma KeyRegionIs(lines: seq<string>, n: nat, body: seq<string>, after: seq<string>)
    requires n < |lines| && lines[n + 1..] == body + after && AreUnderAKey(body) && EndsBlock(after)
    ensures KeyRegion(lines, n) == [StripRight(lines[n])] + Significant(body)
  {
    BlockEndIs(body, after);
    assert (body + after)[..|body|] == body;
  }

  /** The block of a key is its own line and the significant lines under it. */
  lemma KeyBlockIs(
    lines: seq<string>, n: nat, body: seq<string>, after: seq<string>, jobs: seq<string>, k: string, name: string)
    requires n < |lines| && lines[n + 1..] == body + after && AreJobNames(jobs) && name == "top-level " + k
    requires IsKeyText(k) && OpensKey(lines[n], k) && k != "jobs" && k != "name"
    requires AreUnderAKey(body) && EndsBlock(after) && LeavesKeyAlone(after, k)
    ensures Holds(BlocksOf(lines, jobs), name, [StripRight(lines[n])] + Significant(body))
  {
    LastRecordIs(lines, n, body, after, k);
    TopLevelBlockIsItsRegion(lines, name, n);
    KeyRegionIs(lines, n, body, after);
    WithJobsHolds(TopLevelBlocks(lines), lines, jobs, name, [StripRight(lines[n])] + Significant(body));
  }

  lemma SameKeyLine(before: seq<string>, line: string, body: seq<string>, after: seq<string>)
    ensures var lines := before + [line] + body + after;
            lines[|before|] == line && lines[|before| + 1..] == body + after
  {
  }

  /**
   Two files that differ in the significant lines under a top-level key other than `jobs` and
   `name` have different blocks.
   */
  lemma EditsUnderAKeyShow(
    before: seq<string>, line: string, a: seq<string>, b: seq<string>, after: seq<string>, jobs: seq<string>, k: string)
    requires IsKeyText(k) && OpensKey(line, k) && k != "jobs" && k != "name" && AreJobNames(jobs)
    requires AreUnderAKey(a) && AreUnderAKey(b) && EndsBlock(after) && LeavesKeyAlone(after, k)
    requires Significant(a) != Significant(b)
    ensures BlocksOf(before + [line] + a + after, jobs) != BlocksOf(before + [line] + b + after, jobs)
  {
    var name, n := "top-level " + k, |before|;
    SameKeyLine(before, line, a, after);
    SameKeyLine(before, line, b, after);
    KeyBlockIs(before + [line] + a + after, n, a, after, jobs, k, name);
    KeyBlockIs(before + [line] + b + after, n, b, after, jobs, k, name);
    DifferentAfterTheFirst(StripRight(line), Significant(a), Significant(b));
  }

  lemma DifferentAfterTheFirst(first: string, a: seq<string>, b: seq<string>)
    requires a != b
    ensures [first] + a != [first] + b
  {
    assert ([first] + a)[1..] == a && ([first] + b)[1..] == b;
  }

  // ---- Jobs ----

  predicate StartsWithThreeSpaces(line: string) {
    |line| >= 3 && line[0] == ' ' && line[1] == ' ' && line[2] == ' '
  }

  predicate AreUnderAJob(lines: seq<string>) {
    forall i :: 0 <= i < |lines| ==> StartsWithThreeSpaces(lines[i]) || !IsSignificant(lines[i])
  }

  predicate EndsJob(after: seq<string>) {
    after == [] || (IsSignificant(after[0]) && !StartsWithThreeSpaces(after[0]))
  }

  lemma {:induction false} JobEndIs(body: seq<string>, after: seq<string>)
    requires AreUnderAJob(body) && EndsJob(after)
    ensures BlockEnd(body + after, "  ") == |body|
  {
    if body == [] {
      assert body + after == after;
      if after != [] {
        IndentedText(after[0]);
      }
    } else {
      assert StartsWithThreeSpaces(body[0]) || !IsSignificant(body[0]);
      IndentedText(body[0]);
      assert (body + after)[1..] == body[1..] + after;
      JobEndIs(body[1..], after);
    }
  }

  predicate OpensNoSuchJob(lines: seq<string>, job: string) {
    forall i :: 0 <= i < |lines| ==> StripRight(lines[i]) != "  " + job + ":"
  }

  lemma JobLineIsTrimmed(job: string, blank: string)
    requires AllSpace(blank)
    ensures StripRight("  " + job + ":" + blank) == JobLine(job)
  {
    StripRightIs("  " + job + ":", blank);
  }

  lemma JobBlockIs(before: seq<string>, line: string, body: seq<string>, after: seq<string>, job: string, blank: string)
    requires AllSpace(blank) && line == "  " + job + ":" + blank && OpensNoSuchJob(before, job)
    requires AreUnderAJob(body) && EndsJob(after)
    ensures JobBlock(before + [line] + (body + after), job) == Some(Significant(body))
  {
    JobLineIsTrimmed(job, blank);
    JobBlockIsItsRegion(before, line, body + after, job);
    JobEndIs(body, after);
    assert (body + after)[..|body|] == body;
  }

  /** A job of the gate answers with the significant lines under the first line that opens it. */
  lemma JobIsRead(
    before: seq<string>, line: string, body: seq<string>, after: seq<string>, jobs: seq<string>, job: string, blank: string)
    requires AllSpace(blank) && line == "  " + job + ":" + blank && OpensNoSuchJob(before, job) && job in jobs
    requires AreUnderAJob(body) && EndsJob(after)
    ensures Holds(BlocksOf(before + [line] + (body + after), jobs), job, Significant(body))
  {
    var lines := before + [line] + (body + after);
    JobBlockIs(before, line, body, after, job, blank);
    WithJobsHolds(TopLevelBlocks(lines), lines, jobs, job, Significant(body));
  }
}
