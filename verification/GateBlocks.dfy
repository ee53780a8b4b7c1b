/**
 The parts of the workflow file that shape the gate, read as lines of text: every top-level
 key but `jobs` and `name`, and the blocks of the gate's own jobs, without comments or blanks.
 */
module GateBlocks {
  import opened Options
  import opened Text

  /** Not blank and not only a comment. */
  predicate IsSignificant(line: string) {
    Strip(line) != "" && !StartsWith(Strip(line), "#")
  }

  /** The significant lines of a file, without trailing blanks. */
  function Significant(lines: seq<string>): (r: seq<string>) {
    if lines == [] then []
    else (if IsSignificant(lines[0]) then [StripRight(lines[0])] else []) + Significant(lines[1..])
  }

  predicate IsQuote(c: char) {
    c == '\'' || c == '"'
  }

  function Unquoted(s: string): string {
    if s != "" && IsQuote(s[0]) then Unquoted(s[1..])
    else if s != "" && IsQuote(s[|s| - 1]) then Unquoted(s[..|s| - 1])
    else s
  }

  predicate IsTopLevelKey(line: string) {
    line != "" && !IsSpace(line[0]) && !StartsWith(line, "#") && ':' in line
  }

  function KeyOf(line: string): string {
    Unquoted(Strip(TextBefore(line, ':')))
  }

  function TopLevelName(line: string): string {
    "top-level " + KeyOf(line)
  }

  predicate IsRecordedKey(line: string) {
    IsTopLevelKey(line) && KeyOf(line) != "jobs" && KeyOf(line) != "name"
  }

  predicate IsIndented(line: string, indent: string) {
    StartsWith(line, indent + " ")
  }

  /** The significant lines that follow a key until one is not indented further. */
  function BodyOf(following: seq<string>, indent: string): seq<string> {
    if following == [] then []
    else if !IsSignificant(following[0]) then BodyOf(following[1..], indent)
    else if IsIndented(following[0], indent) then [StripRight(following[0])] + BodyOf(following[1..], indent)
    else []
  }

  function TopLevelBlocks(lines: seq<string>): map<string, seq<string>> {
    if lines == [] then map[]
    else
      (if IsRecordedKey(lines[0])
       then map[TopLevelName(lines[0]) := [StripRight(lines[0])] + BodyOf(lines[1..], "")]
       else map[])
      + TopLevelBlocks(lines[1..])
  }

  function JobLine(job: string): string {
    "  " + job + ":"
  }

  /** The body under the first line that opens the job. */
  function JobBlock(lines: seq<string>, job: string): Option<seq<string>> {
    if lines == [] then None
    else if StripRight(lines[0]) == JobLine(job) then Some(BodyOf(lines[1..], "  "))
    else JobBlock(lines[1..], job)
  }

  function WithJobs(blocks: map<string, seq<string>>, lines: seq<string>, jobs: seq<string>): map<string, seq<string>>
    decreases |jobs|
  {
    if jobs == [] then blocks
    else
      match JobBlock(lines, jobs[0])
      case None => WithJobs(blocks, lines, jobs[1..])
      case Some(body) => WithJobs(blocks[jobs[0] := body], lines, jobs[1..])
  }

  function BlocksOf(lines: seq<string>, jobs: seq<string>): map<string, seq<string>> {
    WithJobs(TopLevelBlocks(lines), lines, jobs)
  }

  // ---- The scanner ----

  method Block(lines: seq<string>, start: nat, indent: string) returns (body: seq<string>)
    requires start < |lines|
    ensures body == [StripRight(lines[start])] + BodyOf(lines[start + 1..], indent)
  {
    body := [StripRight(lines[start])];
    var i := start + 1;
    while i < |lines|
      invariant start + 1 <= i <= |lines|
      invariant body + BodyOf(lines[i..], indent) == [StripRight(lines[start])] + BodyOf(lines[start + 1..], indent)
    {
      assert lines[i..][1..] == lines[i + 1..];
      var line := lines[i];
      if Strip(line) != "" && !IsIndented(line, indent) && !StartsWith(Strip(line), "#") {
        break;
      }
      if Strip(line) != "" && !StartsWith(Strip(line), "#") {
        body := body + [StripRight(line)];
      }
      i := i + 1;
    }
  }

  lemma UpdateThenAdd(blocks: map<string, seq<string>>, key: string, body: seq<string>, rest: map<string, seq<string>>)
    ensures blocks[key := body] + rest == blocks + (map[key := body] + rest)
    ensures blocks + (map[] + rest) == blocks + rest
  {
  }

  method ReadTopLevel(lines: seq<string>) returns (blocks: map<string, seq<string>>)
    ensures blocks == TopLevelBlocks(lines)
  {
    blocks := map[];
    for index := 0 to |lines|
      invariant blocks + TopLevelBlocks(lines[index..]) == TopLevelBlocks(lines)
    {
      assert lines[index..][1..] == lines[index + 1..];
      var line := lines[index];
      ghost var rest := TopLevelBlocks(lines[index + 1..]);
      ghost var before := blocks;
      if line != "" && !IsSpace(line[0]) && !StartsWith(line, "#") && ':' in line {
        var key := KeyOf(line);
        if key != "jobs" && key != "name" {
          var body := Block(lines, index, "");
          blocks := blocks["top-level " + key := body];
          UpdateThenAdd(before, "top-level " + key, body, rest);
        }
      }
      UpdateThenAdd(before, "", [], rest);
    }
  }

  method FindJob(lines: seq<string>, job: string) returns (start: Option<nat>)
    ensures start == None ==> JobBlock(lines, job) == None
    ensures start.Some? ==> start.value < |lines| && JobBlock(lines, job) == Some(BodyOf(lines[start.value + 1..], "  "))
  {
    for i := 0 to |lines|
      invariant JobBlock(lines[i..], job) == JobBlock(lines, job)
    {
      assert lines[i..][1..] == lines[i + 1..];
      if StripRight(lines[i]) == JobLine(job) {
        return Some(i);
      }
    }
    return None;
  }

  method GateBlocks(text: Option<seq<string>>, jobs: seq<string>) returns (blocks: Option<map<string, seq<string>>>)
    ensures blocks == if text == None then None else Some(BlocksOf(text.value, jobs))
  {
    if text == None {
      return None;
    }
    var lines := text.value;
    var found := ReadTopLevel(lines);
    for j := 0 to |jobs|
      invariant WithJobs(found, lines, jobs[j..]) == BlocksOf(lines, jobs)
    {
      assert jobs[j..][1..] == jobs[j + 1..];
      var start := FindJob(lines, jobs[j]);
      if start.Some? {
        var body := Block(lines, start.value, "  ");
        found := found[jobs[j] := body[1..]];
      }
    }
    return Some(found);
  }

  // ---- Comments, blanks and trailing space do not matter ----

  /** A significant line, trimmed, is a non-empty prefix that does not end in a blank. */
  lemma SignificantTrims(line: string)
    requires IsSignificant(line)
    ensures var t := StripRight(line);
            t != "" && t <= line && !IsSpace(t[|t| - 1]) && AllSpace(line[|t|..])
  {
    var k := StripRightSplits(line);
    StripOfTrimmed(line);
  }

  lemma TrimmedIsAsSignificant(line: string)
    ensures IsSignificant(StripRight(line)) == IsSignificant(line)
  {
    StripOfTrimmed(line);
  }

  lemma TrimmedIsAsIndented(line: string, indent: string)
    requires IsSignificant(line) && AllSpace(indent)
    ensures IsIndented(StripRight(line), indent) == IsIndented(line, indent)
  {
    SignificantTrims(line);
    var t := StripRight(line);
    var prefix := indent + " ";
    assert forall i :: 0 <= i < |prefix| ==> IsSpace(prefix[i]);
  }

  lemma {:induction false} BeforeInPrefix(a: string, b: string, c: char)
    requires c in a
    ensures TextBefore(a + b, c) == TextBefore(a, c)
  {
    if a[0] != c {
      assert (a + b)[1..] == a[1..] + b;
      BeforeInPrefix(a[1..], b, c);
    }
  }

  lemma TrimmedIsTheSameKey(line: string)
    requires IsSignificant(line)
    ensures IsTopLevelKey(StripRight(line)) == IsTopLevelKey(line)
    ensures IsTopLevelKey(line) ==> KeyOf(StripRight(line)) == KeyOf(line)
  {
    SignificantTrims(line);
    var t := StripRight(line);
    var rest := line[|t|..];
    assert line == t + rest;
    assert ':' !in rest;
    assert t[0] == line[0];
    if ':' in line {
      BeforeInPrefix(t, rest, ':');
    }
  }

  lemma InsignificantIsNoKey(line: string)
    requires !IsSignificant(line)
    ensures !IsTopLevelKey(line)
  {
    if line != "" && !IsSpace(line[0]) {
      assert StripLeft(line) == line;
      StripRightKeepsFirst(line);
    }
  }

  lemma {:induction false} BodyOfSignificant(following: seq<string>, indent: string)
    requires AllSpace(indent)
    ensures BodyOf(Significant(following), indent) == BodyOf(following, indent)
  {
    if following != [] {
      var line, rest := following[0], following[1..];
      BodyOfSignificant(rest, indent);
      if IsSignificant(line) {
        TrimmedIsAsSignificant(line);
        TrimmedIsAsIndented(line, indent);
        StripRightTwice(line);
        assert Significant(following)[1..] == Significant(rest);
      } else {
        assert Significant(following) == Significant(rest);
      }
    }
  }

  lemma {:induction false} TopLevelOfSignificant(lines: seq<string>)
    ensures TopLevelBlocks(Significant(lines)) == TopLevelBlocks(lines)
  {
    if lines != [] {
      var line, rest := lines[0], lines[1..];
      TopLevelOfSignificant(rest);
      if IsSignificant(line) {
        TrimmedIsTheSameKey(line);
        StripRightTwice(line);
        BodyOfSignificant(rest, "");
        assert Significant(lines)[1..] == Significant(rest);
      } else {
        InsignificantIsNoKey(line);
        assert Significant(lines) == Significant(rest);
      }
    }
  }

  /** A job whose opening line is not itself a comment; every job name not starting with `#` or a blank is one. */
  predicate IsJobName(job: string) {
    IsSignificant(JobLine(job))
  }

  lemma {:induction false} JobOfSignificant(lines: seq<string>, job: string)
    requires IsJobName(job)
    ensures JobBlock(Significant(lines), job) == JobBlock(lines, job)
  {
    if lines != [] {
      var line, rest := lines[0], lines[1..];
      JobOfSignificant(rest, job);
      TrimmedIsAsSignificant(line);
      if IsSignificant(line) {
        StripRightTwice(line);
        BodyOfSignificant(rest, "  ");
        assert Significant(lines)[1..] == Significant(rest);
      } else {
        assert Significant(lines) == Significant(rest);
      }
    }
  }

  lemma {:induction false} JobsOfSignificant(blocks: map<string, seq<string>>, lines: seq<string>, jobs: seq<string>)
    requires forall i :: 0 <= i < |jobs| ==> IsJobName(jobs[i])
    ensures WithJobs(blocks, Significant(lines), jobs) == WithJobs(blocks, lines, jobs)
    decreases |jobs|
  {
    if jobs != [] {
      JobOfSignificant(lines, jobs[0]);
      match JobBlock(lines, jobs[0]) {
        case None => JobsOfSignificant(blocks, lines, jobs[1..]);
        case Some(body) => JobsOfSignificant(blocks[jobs[0] := body], lines, jobs[1..]);
      }
    }
  }

  /**
   Comment and blank insensitivity: files with the same significant lines, whatever comments,
   blank lines and trailing blanks either has besides, give the same blocks.
   */
  lemma SameSignificantLinesSameBlocks(a: seq<string>, b: seq<string>, jobs: seq<string>)
    requires Significant(a) == Significant(b)
    requires forall i :: 0 <= i < |jobs| ==> IsJobName(jobs[i])
    ensures BlocksOf(a, jobs) == BlocksOf(b, jobs)
  {
    TopLevelOfSignificant(a);
    TopLevelOfSignificant(b);
    JobsOfSignificant(TopLevelBlocks(a), a, jobs);
    JobsOfSignificant(TopLevelBlocks(b), b, jobs);
  }

  lemma {:induction false} SignificantConcat(a: seq<string>, b: seq<string>)
    ensures Significant(a + b) == Significant(a) + Significant(b)
  {
    if a == [] {
      assert a + b == b;
    } else {
      assert (a + b)[1..] == a[1..] + b;
      SignificantConcat(a[1..], b);
    }
  }

  /** In particular, comments and blank lines can be put in or taken out anywhere. */
  lemma CommentsAndBlanksDoNotMatter(before: seq<string>, noise: seq<string>, after: seq<string>, jobs: seq<string>)
    requires forall i :: 0 <= i < |noise| ==> !IsSignificant(noise[i])
    requires forall i :: 0 <= i < |jobs| ==> IsJobName(jobs[i])
    ensures BlocksOf(before + noise + after, jobs) == BlocksOf(before + after, jobs)
  {
    NoiseIsInsignificant(noise);
    SignificantConcat(before, noise);
    SignificantConcat(before + noise, after);
    SignificantConcat(before, after);
    assert Significant(before) + [] == Significant(before);
    SameSignificantLinesSameBlocks(before + noise + after, before + after, jobs);
  }

  lemma {:induction false} NoiseIsInsignificant(noise: seq<string>)
    requires forall i :: 0 <= i < |noise| ==> !IsSignificant(noise[i])
    ensures Significant(noise) == []
  {
    if noise != [] {
      NoiseIsInsignificant(noise[1..]);
    }
  }

  /** Where a block ends: at the first significant line that is not indented further. */
  function BlockEnd(following: seq<string>, indent: string): (n: nat)
    ensures n <= |following|
  {
    if following == [] || (IsSignificant(following[0]) && !IsIndented(following[0], indent)) then 0
    else 1 + BlockEnd(following[1..], indent)
  }

  /** The converse: a block's body is every significant line up to its end, so equal bodies hide no edit. */
  lemma {:induction false} BodyIsAllSignificantLines(following: seq<string>, indent: string)
    ensures BodyOf(following, indent) == Significant(following[..BlockEnd(following, indent)])
    ensures forall i :: 0 <= i < BlockEnd(following, indent) && IsSignificant(following[i]) ==> IsIndented(following[i], indent)
    ensures BlockEnd(following, indent) < |following| ==>
              var line := following[BlockEnd(following, indent)];
              IsSignificant(line) && !IsIndented(line, indent)
  {
    if BlockEnd(following, indent) > 0 {
      var n := BlockEnd(following[1..], indent);
      BodyIsAllSignificantLines(following[1..], indent);
      assert following[..n + 1][1..] == following[1..][..n];
    }
  }

  /** A file that defines a job once answers for it with that job's significant lines. */
  lemma {:induction false} JobBlockIsItsRegion(before: seq<string>, line: string, following: seq<string>, job: string)
    requires StripRight(line) == JobLine(job)
    requires forall i :: 0 <= i < |before| ==> StripRight(before[i]) != JobLine(job)
    ensures JobBlock(before + [line] + following, job)
         == Some(Significant(following[..BlockEnd(following, "  ")]))
  {
    var lines := before + [line] + following;
    if before == [] {
      assert lines[1..] == following;
      BodyIsAllSignificantLines(following, "  ");
    } else {
      assert lines[1..] == before[1..] + [line] + following;
      JobBlockIsItsRegion(before[1..], line, following, job);
    }
  }

  /** Ordinary job names pass the test above. */
  lemma OrdinaryJobNames(job: string)
    requires job == "" || (job[0] != '#' && !IsSpace(job[0]))
    ensures IsJobName(job)
  {
    var line := JobLine(job);
    var rest := job + ":";
    assert line == "  " + rest;
    StripLeftIs("  ", rest);
    StripRightIs(rest, "");
    assert rest + "" == rest;
  }

  /** The test is needed: a job named as a comment makes its comment-like line matter. */
  lemma CommentJobNamesMatter(job: string)
    requires !IsJobName(job)
    ensures !IsSignificant(JobLine(job)) && BlocksOf([JobLine(job)], [job]) != BlocksOf([], [job])
  {
    var line := JobLine(job);
    StripRightIs(line, "");
    assert line + "" == line;
    assert JobBlock([line], job) == Some(BodyOf([line][1..], "  "));
    InsignificantIsNoKey(line);
    assert TopLevelBlocks([line]) == map[];
    var none: map<string, seq<string>> := map[];
    var body := BodyOf([line][1..], "  ");
    assert [job][1..] == [];
    assert WithJobs(none, [line], [job]) == WithJobs(none[job := body], [line], []);
    assert WithJobs(none, [], [job]) == WithJobs(none, [], []);
    assert job in BlocksOf([line], [job]) && job !in BlocksOf([], [job]);
  }

  /** Such a job: its opening line reads as a comment. */
  lemma HashIsNoJobName(job: string)
    requires job == "#x"
    ensures !IsJobName(job) && BlocksOf([JobLine(job)], [job]) != BlocksOf([], [job])
  {
    var rest := job + ":";
    StripLeftIs("  ", rest);
    StripRightIs(rest, "");
    assert JobLine(job) == "  " + rest && rest + "" == rest;
    CommentJobNamesMatter(job);
  }
}
