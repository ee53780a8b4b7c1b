/**
 The gate's attempt loop. Each attempt rewrites the root configuration, runs the mutation
 tool, reads its results and puts the configuration back; what it proved is carried forward.
 */
module MutationGateRun {
  import opened Options
  import opened MutationGate

  /** What one attempt's run of the tool, and the reading of its results, comes to. */
  datatype Outcome = Crashed | Unreadable | Finished(raw: seq<Mutant>)

  /**
   The text edits of one rewrite: dropping incompatible arguments, then the substitutions
   that narrow the sources and the tests, each asked for or not and each able to find no match.
   */
  datatype Edit = Edit(
    strip: string -> string,
    narrow: Option<string -> Option<string>>,
    select: Option<string -> Option<string>>)

  function Substituted(text: string, sub: Option<string -> Option<string>>): Option<string> {
    match sub
    case None => Some(text)
    case Some(f) => f(text)
  }

  /** The text after all edits, or nothing if a substitution finds no place to make. */
  function Sanitized(text: string, edit: Edit): Option<string> {
    match Substituted(edit.strip(text), edit.narrow)
    case None => None
    case Some(narrowed) => Substituted(narrowed, edit.select)
  }

  datatype Fault = BadConfig | ToolCrashed | ResultsUnreadable | UndeclaredEmpty(paths: seq<string>)

  datatype Verdict = Passed(stats: Stats) | NoSurface(stats: Stats) | Failed(last: Option<Stats>) | Aborted(fault: Fault)

  datatype Plan = Plan(
    maxChildren: int,
    minScore: real,
    sources: seq<string>,
    allowEmpty: bool,
    allowlist: map<string, string>,
    knownEmpty: set<string>,
    rootEdit: Edit,
    copyEdit: Edit)

  /** Targets that yielded no mutants without being declared to. */
  function UndeclaredZeroMutantPaths(sources: seq<string>, known: set<string>): seq<string> {
    if sources == [] then []
    else if sources[0] in known then UndeclaredZeroMutantPaths(sources[1..], known)
    else [sources[0]] + UndeclaredZeroMutantPaths(sources[1..], known)
  }

  lemma {:induction false} NothingUndeclared(sources: seq<string>, known: set<string>)
    ensures UndeclaredZeroMutantPaths(sources, known) == [] <==> forall path :: path in sources ==> path in known
  {
    if sources != [] {
      NothingUndeclared(sources[1..], known);
      assert sources == [sources[0]] + sources[1..];
    }
  }

  class ConfigFile {
    var text: Option<string>

    /** Every substitution is made before anything is written, so a failure leaves the file alone. */
    method Sanitize(edit: Edit) returns (ok: bool)
      modifies this
      ensures old(text) == None ==> ok && text == None
      ensures old(text).Some? ==> (ok <==> Sanitized(old(text).value, edit).Some?)
      ensures old(text).Some? ==> text == if ok then Sanitized(old(text).value, edit) else old(text)
    {
      if text == None {
        return true;
      }
      var updated := edit.strip(text.value);
      if edit.narrow.Some? {
        var narrowed := edit.narrow.value(updated);
        if narrowed == None {
          return false;
        }
        updated := narrowed.value;
      }
      if edit.select.Some? {
        var selected := edit.select.value(updated);
        if selected == None {
          return false;
        }
        updated := selected.value;
      }
      if updated != text.value {
        text := Some(updated);
      }
      return true;
    }
  }

  /** What can be told of the configuration before any attempt: both rewrites find their places. */
  predicate Rewritable(text: Option<string>, plan: Plan) {
    text.Some? ==> Sanitized(text.value, plan.copyEdit).Some? && Sanitized(text.value, plan.rootEdit).Some?
  }

  function AttemptStats(raw: seq<Mutant>, plan: Plan, proven: set<string>): Stats {
    StatsOf(Promoted(Effective(raw, plan.allowlist.Keys), proven))
  }

  predicate HasNoSurface(stats: Stats, plan: Plan) {
    plan.allowEmpty && stats.total == 0 && stats.badTotal == 0
  }

  /** The verdict as a function of the outcomes still to come and what is proven so far. */
  function Gate(plan: Plan, rewritable: bool, outcomes: seq<Outcome>, proven: set<string>, last: Option<Stats>): Verdict {
    if outcomes == [] then Failed(last)
    else if !rewritable then Aborted(BadConfig)
    else
      match outcomes[0]
      case Crashed => Aborted(ToolCrashed)
      case Unreadable => Aborted(ResultsUnreadable)
      case Finished(raw) =>
        var stats := AttemptStats(raw, plan, proven);
        var undeclared := UndeclaredZeroMutantPaths(plan.sources, plan.knownEmpty);
        if HasNoSurface(stats, plan) then
          if undeclared != [] then Aborted(UndeclaredEmpty(undeclared)) else NoSurface(stats)
        else if Clears(stats, plan.minScore) then Passed(stats)
        else
          Gate(plan, rewritable, outcomes[1..],
               proven + KilledNames(Promoted(Effective(raw, plan.allowlist.Keys), proven)), Some(stats))
  }

  /**
   One run of the tool: its worker count, the two configurations it ran on, and the root
   configuration its results were read under, if they were asked for.
   */
  datatype ToolRun = ToolRun(
    children: int, root: Option<string>, copy: Option<string>, readUnder: Option<Option<string>>)

  function Rewritten(text: Option<string>, edit: Edit): Option<string> {
    match text
    case None => None
    case Some(original) => Sanitized(original, edit)
  }

  /** The run an attempt makes: both files rewritten, and the results read before the root is put back. */
  function RunOf(plan: Plan, children: int, original: Option<string>, outcome: Outcome): ToolRun {
    var root := Rewritten(original, plan.rootEdit);
    ToolRun(children, root, Rewritten(original, plan.copyEdit), if outcome.Crashed? then None else Some(root))
  }

  class Workspace {
    const root: ConfigFile
    const copy: ConfigFile
    /** Every run of the tool so far. */
    var runs: seq<ToolRun>

    constructor (root: ConfigFile, copy: ConfigFile)
      ensures this.root == root && this.copy == copy && runs == []
    {
      this.root, this.copy, runs := root, copy, [];
    }

    /** A fresh copy of the configuration for the mutated tree, edited on its own terms. */
    method SeedMutantsConfig(plan: Plan) returns (ok: bool)
      requires root != copy
      modifies copy
      ensures ok <==> root.text == None || Sanitized(root.text.value, plan.copyEdit).Some?
      ensures ok ==> copy.text == Rewritten(root.text, plan.copyEdit)
    {
      copy.text := root.text;
      ok := copy.Sanitize(plan.copyEdit);
    }

    /** One attempt, up to its tally. Every way out leaves the root configuration as it was. */
    method RunAttempt(plan: Plan, children: int, outcome: Outcome, proven: set<string>)
      returns (fault: Option<Fault>, effective: seq<Mutant>, stats: Stats)
      requires root != copy
      modifies this, root, copy
      ensures root.text == old(root.text)
      ensures runs == old(runs)
                + if Rewritable(root.text, plan) then [RunOf(plan, children, root.text, outcome)] else []
      ensures fault == if !Rewritable(root.text, plan) then Some(BadConfig)
                       else if outcome.Crashed? then Some(ToolCrashed)
                       else if outcome.Unreadable? then Some(ResultsUnreadable)
                       else None
      ensures fault == None ==>
                && effective == Promoted(Effective(outcome.raw, plan.allowlist.Keys), proven)
                && stats == AttemptStats(outcome.raw, plan, proven)
    {
      var rootOriginal := root.text;
      fault, effective, stats := None, [], StatsOf([]);
      var seeded := SeedMutantsConfig(plan);
      if !seeded {
        return Some(BadConfig), effective, stats;
      }
      if rootOriginal.Some? {
        var rewritten := root.Sanitize(plan.rootEdit);
        if !rewritten {
          return Some(BadConfig), effective, stats;
        }
      }
      runs := runs + [ToolRun(children, root.text, copy.text, if outcome.Crashed? then None else Some(root.text))];
      match outcome {
        case Crashed => fault := Some(ToolCrashed);
        case Unreadable => fault := Some(ResultsUnreadable);
        case Finished(raw) => effective, stats := CollectStats(raw, plan.allowlist, proven);
      }
      if rootOriginal.Some? {
        root.text := rootOriginal;
      }
    }

    /**
     Whatever happens in any attempt, the root configuration ends as it began, at most
     `retries + 1` attempts run, every attempt after the first uses one worker, and each runs
     and is read with the rewritten configuration in place.
     */
    method RunMutationGate(plan: Plan, retries: int, outcomes: seq<Outcome>) returns (verdict: Verdict)
      requires root != copy
      requires |outcomes| == if retries < 0 then 0 else retries + 1
      modifies this, root, copy
      ensures root.text == old(root.text)
      ensures verdict == Gate(plan, Rewritable(root.text, plan), outcomes, {}, None)
      ensures old(runs) <= runs && |runs| <= |old(runs)| + |outcomes|
      ensures forall i :: |old(runs)| <= i < |runs| ==>
                runs[i] == RunOf(plan, if i == |old(runs)| then plan.maxChildren else 1, root.text, outcomes[i - |old(runs)|])
    {
      var attempts := retries + 1;
      var last: Option<Stats> := None;
      var proven: set<string> := {};
      ghost var rewritable := Rewritable(root.text, plan);

      var attempt := 1;
      while attempt <= attempts
        invariant 1 <= attempt <= |outcomes| + 1
        invariant root.text == old(root.text)
        invariant |runs| == |old(runs)| + attempt - 1 && old(runs) <= runs
        invariant forall i :: |old(runs)| <= i < |runs| ==>
                    runs[i] == RunOf(plan, if i == |old(runs)| then plan.maxChildren else 1, root.text,
                                     outcomes[i - |old(runs)|])
        invariant Gate(plan, rewritable, outcomes, {}, None)
               == Gate(plan, rewritable, outcomes[attempt - 1..], proven, last)
        decreases attempts - attempt
      {
        var outcome := outcomes[attempt - 1];
        assert outcomes[attempt - 1..][1..] == outcomes[attempt..];
        var fault, effective, stats :=
          RunAttempt(plan, if attempt == 1 then plan.maxChildren else 1, outcome, proven);
        if fault.Some? {
          return Aborted(fault.value);
        }
        if plan.allowEmpty && stats.total == 0 && stats.badTotal == 0 {
          var undeclared := UndeclaredZeroMutantPaths(plan.sources, plan.knownEmpty);
          if undeclared != [] {
            return Aborted(UndeclaredEmpty(undeclared));
          }
          return NoSurface(stats);
        }
        if Clears(stats, plan.minScore) {
          return Passed(stats);
        }
        proven := proven + KilledNames(effective);
        last := Some(stats);
        attempt := attempt + 1;
      }
      return Failed(last);
    }
  }

  // ---- Soundness and completeness of a pass ----

  /** Some attempt of the list reported the mutant killed. */
  predicate RawKilled(name: string, outcomes: seq<Outcome>) {
    exists i :: 0 <= i < |outcomes| && outcomes[i].Finished? && Mutant(name, Killed) in outcomes[i].raw
  }

  /** What the loop carries after these attempts. */
  function Carried(outcomes: seq<Outcome>, allowed: set<string>): set<string> {
    if outcomes == [] then {}
    else
      var front := Carried(outcomes[..|outcomes| - 1], allowed);
      match outcomes[|outcomes| - 1]
      case Finished(raw) => front + KilledNames(Promoted(Effective(raw, allowed), front))
      case _ => front
  }

  lemma KilledNamesOfAttempt(raw: seq<Mutant>, allowed: set<string>, proven: set<string>, name: string)
    ensures name in proven + KilledNames(Promoted(Effective(raw, allowed), proven))
       <==> name in proven || Mutant(name, Killed) in raw
  {
    AllowlistMembers(raw, allowed);
    var effective := Effective(raw, allowed);
    var promoted := Promoted(effective, proven);
    if name !in proven && name in KilledNames(promoted) {
      var i :| 0 <= i < |promoted| && promoted[i].state == Killed && promoted[i].name == name;
      assert effective[i] in effective;
    }
    if Mutant(name, Killed) in raw {
      assert Mutant(name, Killed) in effective;
      var i :| 0 <= i < |effective| && effective[i] == Mutant(name, Killed);
      assert promoted[i] == effective[i] && promoted[i] in promoted;
    }
  }

  /** Every carried kill traces back to a raw kill of an earlier attempt, and every raw kill is carried. */
  lemma {:induction false} CarriedKillsAreRawKills(outcomes: seq<Outcome>, allowed: set<string>, name: string)
    ensures name in Carried(outcomes, allowed) <==> RawKilled(name, outcomes)
  {
    if outcomes != [] {
      var n := |outcomes| - 1;
      var front := outcomes[..n];
      CarriedKillsAreRawKills(front, allowed, name);
      if outcomes[n].Finished? {
        KilledNamesOfAttempt(outcomes[n].raw, allowed, Carried(front, allowed), name);
      }
      if RawKilled(name, front) {
        var i :| 0 <= i < |front| && front[i].Finished? && Mutant(name, Killed) in front[i].raw;
        assert outcomes[i] == front[i];
      }
      if RawKilled(name, outcomes) {
        var i :| 0 <= i < |outcomes| && outcomes[i].Finished? && Mutant(name, Killed) in outcomes[i].raw;
        assert i < n ==> front[i] == outcomes[i];
      }
    }
  }

  /** Killed now; timed out now after a kill earlier; or a documented equivalent in an excusable state. */
  predicate Answered(m: Mutant, earlier: seq<Outcome>, allowed: set<string>) {
    || m.state == Killed
    || (m.state == Timeout && RawKilled(m.name, earlier))
    || IsExcused(m, allowed)
  }

  /** Something counts, and every raw mutant of attempt `k` has an answer. */
  predicate FullyAnswered(outcomes: seq<Outcome>, k: nat, allowed: set<string>)
    requires k < |outcomes| && outcomes[k].Finished?
  {
    && (exists m :: m in outcomes[k].raw && !IsExcused(m, allowed))
    && forall m :: m in outcomes[k].raw ==> Answered(m, outcomes[..k], allowed)
  }

  lemma AttemptClearsWhenAnswered(outcomes: seq<Outcome>, k: nat, plan: Plan)
    requires k < |outcomes| && outcomes[k].Finished? && plan.minScore == 100.0
    ensures Clears(AttemptStats(outcomes[k].raw, plan, Carried(outcomes[..k], plan.allowlist.Keys)), 100.0)
       <==> FullyAnswered(outcomes, k, plan.allowlist.Keys)
  {
    var allowed := plan.allowlist.Keys;
    var raw, carried := outcomes[k].raw, Carried(outcomes[..k], allowed);
    var effective := Effective(raw, allowed);
    var promoted := Promoted(effective, carried);
    ClearsAtOneHundred(promoted);
    AllowlistMembers(raw, allowed);
    forall m | m in effective
      ensures PromotedOne(m, carried).state == Killed <==> Answered(m, outcomes[..k], allowed)
    {
      CarriedKillsAreRawKills(outcomes[..k], allowed, m.name);
    }
    AllKilledAfterPromotion(effective, carried);
    assert effective != [] <==> exists m :: m in raw && !IsExcused(m, allowed) by {
      if effective != [] {
        assert effective[0] in effective;
      }
    }
  }

  lemma AllKilledAfterPromotion(effective: seq<Mutant>, proven: set<string>)
    ensures (forall m :: m in Promoted(effective, proven) ==> m.state == Killed)
       <==> (forall m :: m in effective ==> PromotedOne(m, proven).state == Killed)
  {
    var promoted := Promoted(effective, proven);
    forall i | 0 <= i < |effective|
      ensures promoted[i] == PromotedOne(effective[i], proven) && promoted[i] in promoted && effective[i] in effective
    {
    }
  }

  predicate HadNoSurface(outcomes: seq<Outcome>, k: nat, plan: Plan)
    requires k < |outcomes| && outcomes[k].Finished?
  {
    plan.allowEmpty && forall m :: m in outcomes[k].raw ==> IsExcused(m, plan.allowlist.Keys)
  }

  /** Attempt `k` is the first one to settle the run, and settles it clean. */
  predicate PassesAt(outcomes: seq<Outcome>, k: nat, plan: Plan) {
    && k < |outcomes|
    && (forall j :: 0 <= j <= k ==> outcomes[j].Finished?)
    && (forall j :: 0 <= j < k ==>
          !FullyAnswered(outcomes, j, plan.allowlist.Keys) && !HadNoSurface(outcomes, j, plan))
    && FullyAnswered(outcomes, k, plan.allowlist.Keys)
  }

  lemma NoSurfaceMeansAllExcused(outcomes: seq<Outcome>, k: nat, plan: Plan, proven: set<string>)
    requires k < |outcomes| && outcomes[k].Finished?
    ensures HasNoSurface(AttemptStats(outcomes[k].raw, plan, proven), plan) <==> HadNoSurface(outcomes, k, plan)
  {
    var allowed := plan.allowlist.Keys;
    AllowlistMembers(outcomes[k].raw, allowed);
    var effective := Effective(outcomes[k].raw, allowed);
    CountsAreBounded(Promoted(effective, proven));
    if effective != [] {
      assert effective[0] in effective;
    }
  }

  /** The verdict from attempt `k` on, given that nothing before it ended the run. */
  lemma {:induction false} PassFrom(plan: Plan, outcomes: seq<Outcome>, k: nat, last: Option<Stats>)
    requires plan.minScore == 100.0 && k <= |outcomes|
    requires forall j :: 0 <= j < k ==> outcomes[j].Finished?
    requires forall j :: 0 <= j < k ==>
               !FullyAnswered(outcomes, j, plan.allowlist.Keys) && !HadNoSurface(outcomes, j, plan)
    ensures Gate(plan, true, outcomes[k..], Carried(outcomes[..k], plan.allowlist.Keys), last).Passed?
       <==> exists j :: k <= j && PassesAt(outcomes, j, plan)
    decreases |outcomes| - k
  {
    var allowed := plan.allowlist.Keys;
    if k < |outcomes| && outcomes[k].Finished? {
      var proven := Carried(outcomes[..k], allowed);
      var stats := AttemptStats(outcomes[k].raw, plan, proven);
      NoSurfaceMeansAllExcused(outcomes, k, plan, proven);
      AttemptClearsWhenAnswered(outcomes, k, plan);
      assert outcomes[k..][1..] == outcomes[k + 1..];
      assert outcomes[..k + 1][..k] == outcomes[..k];
      if !HasNoSurface(stats, plan) && !Clears(stats, 100.0) {
        PassFrom(plan, outcomes, k + 1, Some(stats));
      }
      if Clears(stats, 100.0) {
        assert PassesAt(outcomes, k, plan);
      }
    }
  }

  /**
   Soundness and completeness over a whole run under a 100 minimum: the gate passes exactly
   when the configuration can be rewritten and some attempt, with nothing before it ending
   the run, leaves every raw mutant killed, killed earlier and timed out, or excused.
   */
  lemma PassesExactlyWhenEveryMutantIsAnswered(plan: Plan, rewritable: bool, outcomes: seq<Outcome>)
    requires plan.minScore == 100.0
    ensures Gate(plan, rewritable, outcomes, {}, None).Passed?
       <==> rewritable && exists k :: PassesAt(outcomes, k, plan)
  {
    assert outcomes[0..] == outcomes && outcomes[..0] == [];
    PassFrom(plan, outcomes, 0, None);
    if rewritable && Gate(plan, rewritable, outcomes, {}, None).Passed? {
      var k :| 0 <= k && PassesAt(outcomes, k, plan);
    }
  }

  /** Proving more beforehand never turns a passing run into a failing one. */
  lemma {:induction false} MoreProofKeepsThePass(
    plan: Plan, rewritable: bool, outcomes: seq<Outcome>, fewer: set<string>, more: set<string>,
    last: Option<Stats>, other: Option<Stats>)
    requires fewer <= more
    requires Gate(plan, rewritable, outcomes, fewer, last).Passed?
    ensures Gate(plan, rewritable, outcomes, more, other).Passed?
  {
    var raw := outcomes[0].raw;
    var effective := Effective(raw, plan.allowlist.Keys);
    MoreProofNeverHurts(effective, fewer, more);
    var a, b := AttemptStats(raw, plan, fewer), AttemptStats(raw, plan, more);
    if Clears(a, plan.minScore) {
      ClearingIsMonotone(effective, fewer, more, plan.minScore);
    } else if !Clears(b, plan.minScore) {
      CountsAreBounded(Promoted(effective, fewer));
      CountsAreBounded(Promoted(effective, more));
      KilledNamesGrow(effective, fewer, more);
      MoreProofKeepsThePass(plan, rewritable, outcomes[1..],
        fewer + KilledNames(Promoted(effective, fewer)), more + KilledNames(Promoted(effective, more)),
        Some(a), Some(b));
    }
  }

  lemma KilledNamesGrow(effective: seq<Mutant>, fewer: set<string>, more: set<string>)
    requires fewer <= more
    ensures KilledNames(Promoted(effective, fewer)) <= KilledNames(Promoted(effective, more))
  {
    var a, b := Promoted(effective, fewer), Promoted(effective, more);
    forall name | name in KilledNames(a)
      ensures name in KilledNames(b)
    {
      var i :| 0 <= i < |a| && a[i].state == Killed && a[i].name == name;
      assert b[i].state == Killed && b[i] in b;
    }
  }
}
