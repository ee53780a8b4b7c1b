/**
 The verdict of a whole run, for every outcome of every attempt and every minimum score, told
 from the raw results: which attempt settles the run, and what it settles it to.
 */
module MutationVerdict {
  import opened Options
  import opened MutationGate
  import opened MutationGateRun

  // ---- One attempt, from its raw results and the kills of earlier ones ----

  predicate MayBeExcused(state: MutantState) {
    state == Survived || state == Suspicious || state == Timeout
  }

  /** Not a documented equivalent in a state that may be excused. */
  predicate Counts(m: Mutant, allowed: set<string>) {
    !(m.name in allowed && MayBeExcused(m.state))
  }

  /** Killed now, or timed out now and killed in an earlier attempt. */
  predicate IsProven(m: Mutant, earlier: seq<Outcome>) {
    m.state == Killed || (m.state == Timeout && RawKilled(m.name, earlier))
  }

  predicate IsLeft(m: Mutant, earlier: seq<Outcome>) {
    || m.state == NotChecked || m.state == Survived || m.state == Suspicious || m.state == Skipped
    || (m.state == Timeout && !RawKilled(m.name, earlier))
  }

  function Counted(raw: seq<Mutant>, allowed: set<string>): set<int> {
    set i | 0 <= i < |raw| && Counts(raw[i], allowed)
  }

  function Proven(raw: seq<Mutant>, allowed: set<string>, earlier: seq<Outcome>): set<int> {
    set i | 0 <= i < |raw| && Counts(raw[i], allowed) && IsProven(raw[i], earlier)
  }

  predicate NoneLeft(raw: seq<Mutant>, allowed: set<string>, earlier: seq<Outcome>) {
    forall i :: 0 <= i < |raw| && Counts(raw[i], allowed) ==> !IsLeft(raw[i], earlier)
  }

  /** Nothing counts, and the targets were named explicitly. */
  predicate EmptyAt(outcomes: seq<Outcome>, k: nat, plan: Plan)
    requires k < |outcomes| && outcomes[k].Finished?
  {
    plan.allowEmpty && Counted(outcomes[k].raw, plan.allowlist.Keys) == {}
  }

  /** Something counts, nothing that counts is left unanswered, and the proven share reaches the minimum. */
  predicate CleanAt(outcomes: seq<Outcome>, k: nat, plan: Plan)
    requires k < |outcomes| && outcomes[k].Finished?
  {
    var raw, allowed, earlier := outcomes[k].raw, plan.allowlist.Keys, outcomes[..k];
    && Counted(raw, allowed) != {}
    && NoneLeft(raw, allowed, earlier)
    && 100.0 * |Proven(raw, allowed, earlier)| as real >= plan.minScore * |Counted(raw, allowed)| as real
  }

  predicate GoesOn(outcomes: seq<Outcome>, k: nat, plan: Plan)
    requires k < |outcomes|
  {
    outcomes[k].Finished? && !EmptyAt(outcomes, k, plan) && !CleanAt(outcomes, k, plan)
  }

  /** The first attempt after which the gate does not go on. */
  predicate SettlesAt(outcomes: seq<Outcome>, k: nat, plan: Plan) {
    && k < |outcomes| && !GoesOn(outcomes, k, plan)
    && forall j :: 0 <= j < k ==> GoesOn(outcomes, j, plan)
  }

  predicate AllDeclared(plan: Plan) {
    forall path :: path in plan.sources ==> path in plan.knownEmpty
  }

  /** `at` lists, in order, where in the sources the undeclared ones stand. */
  predicate ListsUndeclared(at: seq<nat>, sources: seq<string>, known: set<string>, paths: seq<string>) {
    && |at| == |paths|
    && (forall m :: 0 <= m < |at| ==> at[m] < |sources| && paths[m] == sources[at[m]] && paths[m] !in known)
    && (forall m, n :: 0 <= m < n < |at| ==> at[m] < at[n])
    && (forall i: nat :: i < |sources| && sources[i] !in known ==> i in at)
  }

  ghost predicate AreUndeclared(paths: seq<string>, plan: Plan) {
    exists at: seq<nat> :: ListsUndeclared(at, plan.sources, plan.knownEmpty, paths)
  }

  /** What an attempt settles the run to. */
  ghost predicate VerdictAt(verdict: Verdict, outcomes: seq<Outcome>, k: nat, plan: Plan)
    requires k < |outcomes|
  {
    match outcomes[k]
    case Crashed => verdict == Aborted(ToolCrashed)
    case Unreadable => verdict == Aborted(ResultsUnreadable)
    case Finished(raw) =>
      if EmptyAt(outcomes, k, plan) then
        if AllDeclared(plan) then verdict.NoSurface?
        else verdict.Aborted? && verdict.fault.UndeclaredEmpty? && AreUndeclared(verdict.fault.paths, plan)
      else
        && verdict.Passed?
        && verdict.stats.total == |Counted(raw, plan.allowlist.Keys)|
        && verdict.stats.killed == |Proven(raw, plan.allowlist.Keys, outcomes[..k])|
  }

  // ---- The counts behind an attempt's tally ----

  lemma {:induction false} CountedIsTheTotal(raw: seq<Mutant>, allowed: set<string>)
    ensures |Effective(raw, allowed)| == |Counted(raw, allowed)|
  {
    if raw != [] {
      var n := |raw| - 1;
      var front := raw[..n];
      CountedIsTheTotal(front, allowed);
      assert Counted(raw, allowed) == Counted(front, allowed) + (if Counts(raw[n], allowed) then {n} else {});
    }
  }

  /** The kills of an attempt, given the names proven before it. */
  function KillsWith(raw: seq<Mutant>, allowed: set<string>, proven: set<string>): set<int> {
    set i | 0 <= i < |raw| && Counts(raw[i], allowed) && PromotedOne(raw[i], proven).state == Killed
  }

  predicate IsBad(state: MutantState) {
    state == NotChecked || state == Survived || state == Suspicious || state == Timeout || state == Skipped
  }

  predicate NoneBad(raw: seq<Mutant>, allowed: set<string>, proven: set<string>) {
    forall i :: 0 <= i < |raw| && Counts(raw[i], allowed) ==> !IsBad(PromotedOne(raw[i], proven).state)
  }

  lemma TallyGrows(mutants: seq<Mutant>, m: Mutant)
    ensures var a, b := StatsOf(mutants), StatsOf(mutants + [m]);
            && b.killed == a.killed + (if m.state == Killed then 1 else 0)
            && b.badTotal == a.badTotal + (if IsBad(m.state) then 1 else 0)
  {
    assert (mutants + [m])[..|mutants|] == mutants;
  }

  lemma PromotedGrows(effective: seq<Mutant>, m: Mutant, proven: set<string>)
    ensures Promoted(effective + [m], proven) == Promoted(effective, proven) + [PromotedOne(m, proven)]
  {
  }

  lemma EffectiveUnfolds(raw: seq<Mutant>, allowed: set<string>)
    requires raw != []
    ensures var front, m := Effective(raw[..|raw| - 1], allowed), raw[|raw| - 1];
            Effective(raw, allowed) == if Counts(m, allowed) then front + [m] else front
  {
  }

  lemma KillsUnfold(raw: seq<Mutant>, allowed: set<string>, proven: set<string>)
    requires raw != []
    ensures var n := |raw| - 1;
            var more := Counts(raw[n], allowed) && PromotedOne(raw[n], proven).state == Killed;
            |KillsWith(raw, allowed, proven)| == |KillsWith(raw[..n], allowed, proven)| + (if more then 1 else 0)
  {
    var n := |raw| - 1;
    var more := Counts(raw[n], allowed) && PromotedOne(raw[n], proven).state == Killed;
    assert KillsWith(raw, allowed, proven) == KillsWith(raw[..n], allowed, proven) + (if more then {n} else {});
  }

  lemma NoneBadUnfolds(raw: seq<Mutant>, allowed: set<string>, proven: set<string>)
    requires raw != []
    ensures var n := |raw| - 1;
            var more := Counts(raw[n], allowed) && IsBad(PromotedOne(raw[n], proven).state);
            NoneBad(raw, allowed, proven) <==> NoneBad(raw[..n], allowed, proven) && !more
  {
    var n := |raw| - 1;
    assert forall i :: 0 <= i < n ==> raw[i] == raw[..n][i];
  }

  lemma {:induction false} TallyIsCounted(raw: seq<Mutant>, allowed: set<string>, proven: set<string>)
    ensures var stats := StatsOf(Promoted(Effective(raw, allowed), proven));
            && stats.killed == |KillsWith(raw, allowed, proven)|
            && (stats.badTotal == 0 <==> NoneBad(raw, allowed, proven))
  {
    if raw != [] {
      var front, m := raw[..|raw| - 1], raw[|raw| - 1];
      TallyIsCounted(front, allowed, proven);
      EffectiveUnfolds(raw, allowed);
      KillsUnfold(raw, allowed, proven);
      NoneBadUnfolds(raw, allowed, proven);
      PromotedGrows(Effective(front, allowed), m, proven);
      TallyGrows(Promoted(Effective(front, allowed), proven), PromotedOne(m, proven));
    }
  }

  /** With what the loop carries, the kills are the proven mutants and the bad ones are those left. */
  lemma CarriedMeansProven(raw: seq<Mutant>, allowed: set<string>, earlier: seq<Outcome>)
    ensures var carried := Carried(earlier, allowed);
            && KillsWith(raw, allowed, carried) == Proven(raw, allowed, earlier)
            && (NoneBad(raw, allowed, carried) <==> NoneLeft(raw, allowed, earlier))
  {
    var carried := Carried(earlier, allowed);
    forall i | 0 <= i < |raw|
      ensures PromotedOne(raw[i], carried).state == Killed <==> IsProven(raw[i], earlier)
      ensures IsBad(PromotedOne(raw[i], carried).state) <==> IsLeft(raw[i], earlier)
    {
      CarriedKillsAreRawKills(earlier, allowed, raw[i].name);
    }
  }

  /** What one attempt's tally holds, in terms of the raw results. */
  lemma AttemptTally(outcomes: seq<Outcome>, k: nat, plan: Plan)
    requires k < |outcomes| && outcomes[k].Finished?
    ensures var raw, allowed, earlier := outcomes[k].raw, plan.allowlist.Keys, outcomes[..k];
            var stats := AttemptStats(raw, plan, Carried(earlier, allowed));
            && stats.total == |Counted(raw, allowed)|
            && stats.killed == |Proven(raw, allowed, earlier)|
            && (stats.badTotal == 0 <==> NoneLeft(raw, allowed, earlier))
  {
    var raw, allowed := outcomes[k].raw, plan.allowlist.Keys;
    CountedIsTheTotal(raw, allowed);
    TallyIsCounted(raw, allowed, Carried(outcomes[..k], allowed));
    CarriedMeansProven(raw, allowed, outcomes[..k]);
  }

  lemma ShareReaches(killed: nat, total: nat, minimum: real)
    requires total > 0
    ensures killed as real / total as real * 100.0 >= minimum <==> 100.0 * killed as real >= minimum * total as real
  {
    var share := killed as real / total as real;
    assert share * total as real == killed as real;
    if share * 100.0 >= minimum {
      assert share * 100.0 * total as real >= minimum * total as real;
    } else {
      assert share * 100.0 * total as real < minimum * total as real;
    }
  }

  lemma NoneCounted(raw: seq<Mutant>, allowed: set<string>)
    requires Counted(raw, allowed) == {}
    ensures forall i :: 0 <= i < |raw| ==> !Counts(raw[i], allowed)
  {
    forall i | 0 <= i < |raw|
      ensures !Counts(raw[i], allowed)
    {
      assert i !in Counted(raw, allowed);
    }
  }

  lemma AttemptSettles(outcomes: seq<Outcome>, k: nat, plan: Plan)
    requires k < |outcomes| && outcomes[k].Finished?
    ensures var stats := AttemptStats(outcomes[k].raw, plan, Carried(outcomes[..k], plan.allowlist.Keys));
            && (HasNoSurface(stats, plan) <==> EmptyAt(outcomes, k, plan))
            && (Clears(stats, plan.minScore) <==> CleanAt(outcomes, k, plan))
  {
    AttemptTally(outcomes, k, plan);
    var raw, allowed, earlier := outcomes[k].raw, plan.allowlist.Keys, outcomes[..k];
    if Counted(raw, allowed) == {} {
      NoneCounted(raw, allowed);
    } else {
      ShareReaches(|Proven(raw, allowed, earlier)|, |Counted(raw, allowed)|, plan.minScore);
    }
  }

  function InState(mutants: seq<Mutant>, state: MutantState): set<int> {
    set i | 0 <= i < |mutants| && mutants[i].state == state
  }

  lemma {:induction false} CountOfIsCounted(mutants: seq<Mutant>, state: MutantState)
    ensures CountOf(mutants, state) == |InState(mutants, state)|
  {
    if mutants != [] {
      var n := |mutants| - 1;
      CountOfIsCounted(mutants[..n], state);
      assert InState(mutants, state)
          == InState(mutants[..n], state) + (if mutants[n].state == state then {n} else {});
    }
  }

  /** Every figure of a tally is how many mutants are in the state it is named for. */
  lemma FiguresAreCounts(mutants: seq<Mutant>)
    ensures var stats := StatsOf(mutants);
            && stats.total == |mutants| && stats.killed == |InState(mutants, Killed)|
            && stats.survived == |InState(mutants, Survived)| && stats.suspicious == |InState(mutants, Suspicious)|
            && stats.timeout == |InState(mutants, Timeout)| && stats.skipped == |InState(mutants, Skipped)|
            && stats.notChecked == |InState(mutants, NotChecked)|
  {
    CountOfIsCounted(mutants, Killed);
    CountOfIsCounted(mutants, Survived);
    CountOfIsCounted(mutants, Suspicious);
    CountOfIsCounted(mutants, Timeout);
    CountOfIsCounted(mutants, Skipped);
    CountOfIsCounted(mutants, NotChecked);
  }

  // ---- The undeclared targets ----

  lemma {:induction false} UndeclaredFromTheEnd(front: seq<string>, last: string, known: set<string>)
    ensures UndeclaredZeroMutantPaths(front + [last], known)
         == UndeclaredZeroMutantPaths(front, known) + (if last in known then [] else [last])
  {
    if front != [] {
      assert (front + [last])[1..] == front[1..] + [last];
      UndeclaredFromTheEnd(front[1..], last, known);
    }
  }

  lemma OneMoreListed(at: seq<nat>, front: seq<string>, last: string, known: set<string>, paths: seq<string>)
    requires ListsUndeclared(at, front, known, paths)
    ensures last in known ==> ListsUndeclared(at, front + [last], known, paths)
    ensures last !in known ==> ListsUndeclared(at + [|front|], front + [last], known, paths + [last])
  {
    assert forall i: nat :: i in at + [|front|] <==> i in at || i == |front|;
  }

  lemma {:induction false} UndeclaredAreListed(sources: seq<string>, known: set<string>) returns (at: seq<nat>)
    ensures ListsUndeclared(at, sources, known, UndeclaredZeroMutantPaths(sources, known))
  {
    if sources == [] {
      at := [];
    } else {
      var front, last := sources[..|sources| - 1], sources[|sources| - 1];
      at := UndeclaredAreListed(front, known);
      OneMoreListed(at, front, last, known, UndeclaredZeroMutantPaths(front, known));
      UndeclaredFromTheEnd(front, last, known);
      assert sources == front + [last];
      at := if last in known then at else at + [|front|];
    }
  }

  // ---- The whole run ----

  lemma EmptyVerdict(verdict: Verdict, outcomes: seq<Outcome>, k: nat, plan: Plan)
    requires k < |outcomes| && outcomes[k].Finished? && EmptyAt(outcomes, k, plan)
    requires var undeclared := UndeclaredZeroMutantPaths(plan.sources, plan.knownEmpty);
             if undeclared != [] then verdict == Aborted(UndeclaredEmpty(undeclared)) else verdict.NoSurface?
    ensures VerdictAt(verdict, outcomes, k, plan)
  {
    NothingUndeclared(plan.sources, plan.knownEmpty);
    var at := UndeclaredAreListed(plan.sources, plan.knownEmpty);
  }

  /** What the attempt settles the run to is what the loop says at it. */
  lemma SettlingVerdict(plan: Plan, outcomes: seq<Outcome>, k: nat, last: Option<Stats>)
    requires k < |outcomes| && !GoesOn(outcomes, k, plan)
    ensures VerdictAt(Gate(plan, true, outcomes[k..], Carried(outcomes[..k], plan.allowlist.Keys), last), outcomes, k, plan)
  {
    if outcomes[k].Finished? {
      AttemptSettles(outcomes, k, plan);
      AttemptTally(outcomes, k, plan);
      if EmptyAt(outcomes, k, plan) {
        EmptyVerdict(Gate(plan, true, outcomes[k..], Carried(outcomes[..k], plan.allowlist.Keys), last), outcomes, k, plan);
      }
    }
  }

  /** The tally the loop holds before attempt `k`: that of the attempt before it. */
  predicate IsLastTally(last: Option<Stats>, outcomes: seq<Outcome>, k: nat, plan: Plan)
    requires k <= |outcomes| && forall j :: 0 <= j < k ==> GoesOn(outcomes, j, plan)
  {
    if k == 0 then last == None
    else
      assert GoesOn(outcomes, k - 1, plan);
      var raw, allowed, earlier := outcomes[k - 1].raw, plan.allowlist.Keys, outcomes[..k - 1];
      && last.Some? && last.value.total == |Counted(raw, allowed)|
      && last.value.killed == |Proven(raw, allowed, earlier)|
  }

  lemma GoingOn(plan: Plan, outcomes: seq<Outcome>, k: nat, last: Option<Stats>) returns (stats: Stats)
    requires k < |outcomes| && GoesOn(outcomes, k, plan)
    ensures Gate(plan, true, outcomes[k..], Carried(outcomes[..k], plan.allowlist.Keys), last)
         == Gate(plan, true, outcomes[k + 1..], Carried(outcomes[..k + 1], plan.allowlist.Keys), Some(stats))
    ensures stats.total == |Counted(outcomes[k].raw, plan.allowlist.Keys)|
    ensures stats.killed == |Proven(outcomes[k].raw, plan.allowlist.Keys, outcomes[..k])|
  {
    AttemptSettles(outcomes, k, plan);
    AttemptTally(outcomes, k, plan);
    stats := AttemptStats(outcomes[k].raw, plan, Carried(outcomes[..k], plan.allowlist.Keys));
    assert outcomes[k..][1..] == outcomes[k + 1..];
    assert outcomes[..k + 1][..k] == outcomes[..k];
  }

  /** The verdict from attempt `k` on, when every attempt before it goes on. */
  lemma {:induction false} VerdictFrom(plan: Plan, outcomes: seq<Outcome>, k: nat, last: Option<Stats>)
    requires k <= |outcomes| && forall j :: 0 <= j < k ==> GoesOn(outcomes, j, plan)
    requires IsLastTally(last, outcomes, k, plan)
    ensures var verdict := Gate(plan, true, outcomes[k..], Carried(outcomes[..k], plan.allowlist.Keys), last);
            && (forall m :: 0 <= m < |outcomes| && SettlesAt(outcomes, m, plan) ==> VerdictAt(verdict, outcomes, m, plan))
            && ((forall m :: 0 <= m < |outcomes| ==> GoesOn(outcomes, m, plan)) ==>
                  verdict.Failed? && IsLastTally(verdict.last, outcomes, |outcomes|, plan))
    decreases |outcomes| - k
  {
    if k < |outcomes| {
      if GoesOn(outcomes, k, plan) {
        var stats := GoingOn(plan, outcomes, k, last);
        VerdictFrom(plan, outcomes, k + 1, Some(stats));
      } else {
        SettlingVerdict(plan, outcomes, k, last);
      }
    }
  }

  function VerdictOf(plan: Plan, rewritable: bool, outcomes: seq<Outcome>): Verdict {
    Gate(plan, rewritable, outcomes, {}, None)
  }

  /**
   The verdict, for every run: the first attempt that does not go on settles it, and with none
   the gate fails on the tally of the last one. A configuration that cannot be rewritten aborts the first attempt.
   */
  lemma VerdictIsSettled(plan: Plan, rewritable: bool, outcomes: seq<Outcome>)
    ensures outcomes == [] ==> VerdictOf(plan, rewritable, outcomes).Failed?
    ensures outcomes != [] && !rewritable ==> VerdictOf(plan, rewritable, outcomes) == Aborted(BadConfig)
    ensures rewritable ==> forall k :: 0 <= k < |outcomes| && SettlesAt(outcomes, k, plan) ==>
                             VerdictAt(VerdictOf(plan, rewritable, outcomes), outcomes, k, plan)
    ensures rewritable && (forall k :: 0 <= k < |outcomes| ==> GoesOn(outcomes, k, plan)) ==>
              var verdict := VerdictOf(plan, rewritable, outcomes);
              verdict.Failed? && IsLastTally(verdict.last, outcomes, |outcomes|, plan)
  {
    assert outcomes[0..] == outcomes && outcomes[..0] == [];
    VerdictFrom(plan, outcomes, 0, None);
  }

  lemma {:induction false} SomeAttemptSettles(plan: Plan, outcomes: seq<Outcome>, k: nat)
    requires k <= |outcomes| && forall j :: 0 <= j < k ==> GoesOn(outcomes, j, plan)
    ensures (forall m :: 0 <= m < |outcomes| ==> GoesOn(outcomes, m, plan))
         || exists m :: 0 <= m < |outcomes| && SettlesAt(outcomes, m, plan)
    decreases |outcomes| - k
  {
    if k < |outcomes| {
      if GoesOn(outcomes, k, plan) {
        SomeAttemptSettles(plan, outcomes, k + 1);
      } else {
        assert SettlesAt(outcomes, k, plan);
      }
    }
  }

  predicate SettlesEmpty(outcomes: seq<Outcome>, k: nat, plan: Plan) {
    SettlesAt(outcomes, k, plan) && outcomes[k].Finished? && EmptyAt(outcomes, k, plan)
  }

  predicate SettlesClean(outcomes: seq<Outcome>, k: nat, plan: Plan) {
    SettlesAt(outcomes, k, plan) && outcomes[k].Finished? && !EmptyAt(outcomes, k, plan)
  }

  /** A run that is not cut short settles at one attempt or goes on to the end. */
  lemma SettlesOrGoesOn(plan: Plan, outcomes: seq<Outcome>) returns (k: nat)
    ensures || (SettlesAt(outcomes, k, plan) && VerdictAt(VerdictOf(plan, true, outcomes), outcomes, k, plan))
            || VerdictOf(plan, true, outcomes).Failed?
    ensures forall m :: SettlesAt(outcomes, m, plan) ==> m == k
  {
    k := 0;
    VerdictIsSettled(plan, true, outcomes);
    SomeAttemptSettles(plan, outcomes, 0);
    if exists m :: 0 <= m < |outcomes| && SettlesAt(outcomes, m, plan) {
      k :| 0 <= k < |outcomes| && SettlesAt(outcomes, k, plan);
    }
  }

  /** The gate passes exactly when some attempt is the first to settle the run, and settles it clean. */
  lemma PassesExactlyWhenClean(plan: Plan, rewritable: bool, outcomes: seq<Outcome>)
    ensures VerdictOf(plan, rewritable, outcomes).Passed?
       <==> rewritable && exists k :: SettlesClean(outcomes, k, plan)
  {
    VerdictIsSettled(plan, rewritable, outcomes);
    var k := SettlesOrGoesOn(plan, outcomes);
    assert SettlesAt(outcomes, k, plan) ==> (SettlesClean(outcomes, k, plan) || SettlesEmpty(outcomes, k, plan)
                                             || !outcomes[k].Finished?);
  }

  /** It returns with no surface exactly when the settling attempt is empty and every target is declared. */
  lemma NoSurfaceExactlyWhenDeclared(plan: Plan, rewritable: bool, outcomes: seq<Outcome>)
    ensures VerdictOf(plan, rewritable, outcomes).NoSurface?
       <==> rewritable && AllDeclared(plan) && exists k :: SettlesEmpty(outcomes, k, plan)
  {
    VerdictIsSettled(plan, rewritable, outcomes);
    var k := SettlesOrGoesOn(plan, outcomes);
    assert SettlesAt(outcomes, k, plan) ==> (SettlesClean(outcomes, k, plan) || SettlesEmpty(outcomes, k, plan)
                                             || !outcomes[k].Finished?);
  }

  /** And it raises over undeclared targets, naming exactly those, exactly when the settling attempt is empty and some target is not. */
  lemma AbortsExactlyWhenUndeclared(plan: Plan, rewritable: bool, outcomes: seq<Outcome>)
    ensures var verdict := VerdictOf(plan, rewritable, outcomes);
            && (verdict.Aborted? && verdict.fault.UndeclaredEmpty?
                <==> rewritable && !AllDeclared(plan) && exists k :: SettlesEmpty(outcomes, k, plan))
            && (verdict.Aborted? && verdict.fault.UndeclaredEmpty? ==> AreUndeclared(verdict.fault.paths, plan))
  {
    VerdictIsSettled(plan, rewritable, outcomes);
    var k := SettlesOrGoesOn(plan, outcomes);
    assert SettlesAt(outcomes, k, plan) ==> (SettlesClean(outcomes, k, plan) || SettlesEmpty(outcomes, k, plan)
                                             || !outcomes[k].Finished?);
  }

  // ---- The rewrite of a configuration ----

  /** Each edit asked for is made, on what the one before it left; where one finds no place there is no rewrite. */
  lemma EditsAreMadeInTurn(text: string, edit: Edit)
    ensures edit.narrow == None && edit.select == None ==> Sanitized(text, edit) == Some(edit.strip(text))
    ensures edit.narrow.Some? && edit.narrow.value(edit.strip(text)) == None ==> Sanitized(text, edit) == None
    ensures edit.narrow.Some? && edit.narrow.value(edit.strip(text)).Some? ==>
              var narrowed := edit.narrow.value(edit.strip(text)).value;
              Sanitized(text, edit) == if edit.select == None then Some(narrowed) else edit.select.value(narrowed)
    ensures edit.narrow == None && edit.select.Some? ==> Sanitized(text, edit) == edit.select.value(edit.strip(text))
  {
  }

  /** No file is no obstacle; a file must take both its own edits and those of the copy. */
  lemma RewritableMeansBothEdits(text: Option<string>, plan: Plan)
    ensures text == None ==> Rewritable(text, plan)
    ensures text.Some? ==>
              (Rewritable(text, plan)
               <==> Sanitized(text.value, plan.copyEdit).Some? && Sanitized(text.value, plan.rootEdit).Some?)
  {
  }
}
