/**
 What the extracted blocks say of the file: two files have the same blocks exactly when every
 recorded key and every job of the gate has the same significant lines in its region.
 */
module GateRegions {
  import opened Options
  import opened Text
  import opened GateBlocks

  // ---- Regions of the file ----

  predicate Records(line: string, name: string) {
    IsRecordedKey(line) && TopLevelName(line) == name
  }

  /** The last line that records a key under this name. */
  predicate RecordsLast(lines: seq<string>, name: string, k: nat) {
    && k < |lines| && Records(lines[k], name)
    && forall m :: k < m < |lines| ==> !Records(lines[m], name)
  }

  /** The key's own line and the significant lines up to the next one that is not indented. */
  function KeyRegion(lines: seq<string>, k: nat): seq<string>
    requires k < |lines|
  {
    [StripRight(lines[k])] + Significant(lines[k + 1..][..BlockEnd(lines[k + 1..], "")])
  }

  predicate HasKeyRegion(lines: seq<string>, name: string, region: seq<string>) {
    exists k :: 0 <= k < |lines| && RecordsLast(lines, name, k) && KeyRegion(lines, k) == region
  }

  /** The first line that opens the job. */
  predicate OpensFirst(lines: seq<string>, job: string, k: nat) {
    && k < |lines| && StripRight(lines[k]) == JobLine(job)
    && forall m :: 0 <= m < k ==> StripRight(lines[m]) != JobLine(job)
  }

  /** The significant lines under the opening line, up to the next one that is not indented further. */
  function JobRegion(lines: seq<string>, k: nat): seq<string>
    requires k < |lines|
  {
    Significant(lines[k + 1..][..BlockEnd(lines[k + 1..], "  ")])
  }

  predicate HasJobRegion(lines: seq<string>, job: string, region: seq<string>) {
    exists k :: 0 <= k < |lines| && OpensFirst(lines, job, k) && JobRegion(lines, k) == region
  }

  // ---- Top-level blocks are regions ----

  lemma {:induction false} UnrecordedHasNoBlock(lines: seq<string>, name: string)
    requires forall m :: 0 <= m < |lines| ==> !Records(lines[m], name)
    ensures name !in TopLevelBlocks(lines)
  {
    if lines != [] {
      assert !Records(lines[0], name);
      UnrecordedHasNoBlock(lines[1..], name);
    }
  }

  lemma FirstKeyRegion(lines: seq<string>)
    requires lines != []
    ensures KeyRegion(lines, 0) == [StripRight(lines[0])] + BodyOf(lines[1..], "")
  {
    BodyIsAllSignificantLines(lines[1..], "");
  }

  lemma LaterKeyRegion(lines: seq<string>, k: nat)
    requires 0 < k < |lines|
    ensures KeyRegion(lines, k) == KeyRegion(lines[1..], k - 1)
  {
    assert lines[1..][k..] == lines[k + 1..];
  }

  /** The block of a key is the region of the last line that records it. */
  lemma {:induction false} TopLevelBlockIsItsRegion(lines: seq<string>, name: string, k: nat)
    requires RecordsLast(lines, name, k)
    ensures name in TopLevelBlocks(lines) && TopLevelBlocks(lines)[name] == KeyRegion(lines, k)
  {
    var rest := lines[1..];
    if k == 0 {
      assert forall m :: 0 <= m < |rest| ==> rest[m] == lines[m + 1];
      UnrecordedHasNoBlock(rest, name);
      FirstKeyRegion(lines);
    } else {
      assert forall m :: 0 <= m < |rest| ==> rest[m] == lines[m + 1];
      TopLevelBlockIsItsRegion(rest, name, k - 1);
      LaterKeyRegion(lines, k);
    }
  }

  lemma {:induction false} BlockHasALine(lines: seq<string>, name: string) returns (k: nat)
    requires name in TopLevelBlocks(lines)
    ensures RecordsLast(lines, name, k)
  {
    var rest := lines[1..];
    if name in TopLevelBlocks(rest) {
      k := BlockHasALine(rest, name);
      k := k + 1;
      assert forall m :: 0 < m < |lines| ==> lines[m] == rest[m - 1];
    } else {
      k := 0;
      forall m | 0 < m < |lines|
        ensures !Records(lines[m], name)
      {
        NoBlockNoLine(rest, name, m - 1);
      }
    }
  }

  lemma {:induction false} NoBlockNoLine(lines: seq<string>, name: string, m: nat)
    requires m < |lines| && name !in TopLevelBlocks(lines)
    ensures !Records(lines[m], name)
  {
    if m > 0 {
      NoBlockNoLine(lines[1..], name, m - 1);
    }
  }

  lemma KeysAreRegions(lines: seq<string>, name: string, region: seq<string>)
    ensures HasKeyRegion(lines, name, region)
       <==> name in TopLevelBlocks(lines) && TopLevelBlocks(lines)[name] == region
  {
    if HasKeyRegion(lines, name, region) {
      var k :| 0 <= k < |lines| && RecordsLast(lines, name, k) && KeyRegion(lines, k) == region;
      TopLevelBlockIsItsRegion(lines, name, k);
    }
    if name in TopLevelBlocks(lines) {
      var k := BlockHasALine(lines, name);
      TopLevelBlockIsItsRegion(lines, name, k);
    }
  }

  // ---- Job blocks are regions ----

  lemma JobBlockIsTheFirst(lines: seq<string>, job: string, k: nat)
    requires OpensFirst(lines, job, k)
    ensures JobBlock(lines, job) == Some(JobRegion(lines, k))
  {
    JobBlockIsItsRegion(lines[..k], lines[k], lines[k + 1..], job);
    assert lines[..k] + [lines[k]] + lines[k + 1..] == lines;
  }

  lemma {:induction false} JobHasALine(lines: seq<string>, job: string) returns (k: nat)
    requires JobBlock(lines, job).Some?
    ensures OpensFirst(lines, job, k)
  {
    if StripRight(lines[0]) == JobLine(job) {
      k := 0;
    } else {
      var rest := lines[1..];
      k := JobHasALine(rest, job);
      k := k + 1;
      assert forall m :: 0 < m < |lines| ==> lines[m] == rest[m - 1];
    }
  }

  lemma JobsAreRegions(lines: seq<string>, job: string, region: seq<string>)
    ensures HasJobRegion(lines, job, region) <==> JobBlock(lines, job) == Some(region)
  {
    if HasJobRegion(lines, job, region) {
      var k :| 0 <= k < |lines| && OpensFirst(lines, job, k) && JobRegion(lines, k) == region;
      JobBlockIsTheFirst(lines, job, k);
    }
    if JobBlock(lines, job).Some? {
      var k := JobHasALine(lines, job);
      JobBlockIsTheFirst(lines, job, k);
    }
  }

  // ---- What the blocks hold ----

  const PREFIX := "top-level "

  predicate IsTopLevelName(name: string) {
    StartsWith(name, PREFIX)
  }

  lemma {:induction false} TopLevelNamesAreMarked(lines: seq<string>, name: string)
    requires name in TopLevelBlocks(lines)
    ensures IsTopLevelName(name)
  {
    if name in TopLevelBlocks(lines[1..]) {
      TopLevelNamesAreMarked(lines[1..], name);
    } else {
      assert name == PREFIX + KeyOf(lines[0]);
    }
  }

  predicate Holds(blocks: map<string, seq<string>>, name: string, body: seq<string>) {
    name in blocks && blocks[name] == body
  }

  lemma {:induction false} WithJobsHolds(
    blocks: map<string, seq<string>>, lines: seq<string>, jobs: seq<string>, name: string, body: seq<string>)
    ensures Holds(WithJobs(blocks, lines, jobs), name, body)
       <==> (if name in jobs && JobBlock(lines, name).Some? then JobBlock(lines, name) == Some(body)
             else Holds(blocks, name, body))
    decreases |jobs|
  {
    if jobs != [] {
      assert name in jobs <==> name == jobs[0] || name in jobs[1..];
      match JobBlock(lines, jobs[0]) {
        case None => WithJobsHolds(blocks, lines, jobs[1..], name, body);
        case Some(found) => WithJobsHolds(blocks[jobs[0] := found], lines, jobs[1..], name, body);
      }
    }
  }

  predicate IsOpened(lines: seq<string>, job: string) {
    exists k :: 0 <= k < |lines| && OpensFirst(lines, job, k)
  }

  /** The region a name stands for: the job's if it is one of the gate's and the file opens it, otherwise the key's. */
  predicate HasRegion(lines: seq<string>, jobs: seq<string>, name: string, region: seq<string>) {
    if name in jobs && IsOpened(lines, name) then HasJobRegion(lines, name, region) else HasKeyRegion(lines, name, region)
  }

  lemma OpenedHasABlock(lines: seq<string>, job: string)
    ensures IsOpened(lines, job) <==> JobBlock(lines, job).Some?
  {
    if IsOpened(lines, job) {
      var k :| 0 <= k < |lines| && OpensFirst(lines, job, k);
      JobBlockIsTheFirst(lines, job, k);
    }
    if JobBlock(lines, job).Some? {
      var k := JobHasALine(lines, job);
    }
  }

  lemma BlocksHold(lines: seq<string>, jobs: seq<string>, name: string, body: seq<string>)
    ensures Holds(BlocksOf(lines, jobs), name, body) <==> HasRegion(lines, jobs, name, body)
  {
    WithJobsHolds(TopLevelBlocks(lines), lines, jobs, name, body);
    OpenedHasABlock(lines, name);
    KeysAreRegions(lines, name, body);
    JobsAreRegions(lines, name, body);
  }

  // ---- Equal results mean equal regions ----

  ghost predicate SameRegions(a: seq<string>, b: seq<string>, jobs: seq<string>) {
    forall name: string, region: seq<string> :: HasRegion(a, jobs, name, region) <==> HasRegion(b, jobs, name, region)
  }

  lemma SameMaps(x: map<string, seq<string>>, y: map<string, seq<string>>)
    requires forall name: string, body: seq<string> :: Holds(x, name, body) <==> Holds(y, name, body)
    ensures x == y
  {
    forall name | name in x
      ensures name in y && y[name] == x[name]
    {
      assert Holds(x, name, x[name]);
    }
    forall name | name in y
      ensures name in x
    {
      assert Holds(y, name, y[name]);
    }
  }

  /**
   Both directions: two files give equal results exactly when every key and job of the gate
   stands for the same significant lines in both, or for none in either. Any edit of a
   significant line in one of these regions is a difference.
   */
  lemma EqualBlocksMeanEqualRegions(a: seq<string>, b: seq<string>, jobs: seq<string>)
    ensures BlocksOf(a, jobs) == BlocksOf(b, jobs) <==> SameRegions(a, b, jobs)
  {
    var x, y := BlocksOf(a, jobs), BlocksOf(b, jobs);
    forall name: string, body: seq<string>
      ensures Holds(x, name, body) <==> HasRegion(a, jobs, name, body)
      ensures Holds(y, name, body) <==> HasRegion(b, jobs, name, body)
    {
      BlocksHold(a, jobs, name, body);
      BlocksHold(b, jobs, name, body);
    }
    if SameRegions(a, b, jobs) {
      SameMaps(x, y);
    }
  }

  // ---- Jobs and keys apart: no job is named like a top-level block ----

  predicate AreJobNames(jobs: seq<string>) {
    forall i :: 0 <= i < |jobs| ==> !IsTopLevelName(jobs[i])
  }

  lemma KeyRegionsAreMarked(lines: seq<string>, name: string, region: seq<string>)
    requires HasKeyRegion(lines, name, region)
    ensures IsTopLevelName(name)
  {
    KeysAreRegions(lines, name, region);
    TopLevelNamesAreMarked(lines, name);
  }

  lemma JobRegionsOpen(lines: seq<string>, job: string, region: seq<string>)
    requires HasJobRegion(lines, job, region)
    ensures IsOpened(lines, job)
  {
    JobsAreRegions(lines, job, region);
    OpenedHasABlock(lines, job);
  }

  lemma RegionsApart(lines: seq<string>, jobs: seq<string>, name: string, region: seq<string>)
    requires AreJobNames(jobs)
    ensures HasKeyRegion(lines, name, region) <==> IsTopLevelName(name) && HasRegion(lines, jobs, name, region)
    ensures name in jobs ==> (HasJobRegion(lines, name, region) <==> HasRegion(lines, jobs, name, region))
  {
    if HasKeyRegion(lines, name, region) {
      KeyRegionsAreMarked(lines, name, region);
    }
    if HasJobRegion(lines, name, region) {
      JobRegionsOpen(lines, name, region);
    }
  }

  /** Equal results hide no edit: not under a recorded key, and not under a job of the gate. */
  lemma EqualBlocksHideNoEdit(a: seq<string>, b: seq<string>, jobs: seq<string>, name: string, region: seq<string>)
    requires AreJobNames(jobs) && BlocksOf(a, jobs) == BlocksOf(b, jobs)
    ensures HasKeyRegion(a, name, region) <==> HasKeyRegion(b, name, region)
    ensures name in jobs ==> (HasJobRegion(a, name, region) <==> HasJobRegion(b, name, region))
  {
    EqualBlocksMeanEqualRegions(a, b, jobs);
    RegionsApart(a, jobs, name, region);
    RegionsApart(b, jobs, name, region);
  }
}
