/**
 The mutation gate's verdict on one attempt: what counts toward it, what an earlier attempt
 may prove, and how it is tallied and scored.

 Scores are exact reals; with at most 2^53 mutants no rounding can reach 100 early.
 */
module MutationGate {
  datatype MutantState = Killed | Survived | Suspicious | Timeout | Skipped | NotChecked | Elsewise(text: string)

  datatype Mutant = Mutant(name: string, state: MutantState)

  const BAD_MUTANT_STATES := [NotChecked, Survived, Suspicious, Timeout, Skipped]
  const EXCUSABLE_STATES := [Survived, Suspicious, Timeout]

  // ---- The equivalent-mutant allowlist ----

  predicate IsExcused(m: Mutant, allowed: set<string>) {
    m.name in allowed && m.state in EXCUSABLE_STATES
  }

  function Effective(mutants: seq<Mutant>, allowed: set<string>): seq<Mutant> {
    if mutants == [] then []
    else
      var front := Effective(mutants[..|mutants| - 1], allowed);
      var m := mutants[|mutants| - 1];
      if IsExcused(m, allowed) then front else front + [m]
  }

  function Excused(mutants: seq<Mutant>, allowed: set<string>): seq<Mutant> {
    if mutants == [] then []
    else
      var front := Excused(mutants[..|mutants| - 1], allowed);
      var m := mutants[|mutants| - 1];
      if IsExcused(m, allowed) then front + [m] else front
  }

  function Names(mutants: seq<Mutant>): (r: seq<string>) {
    seq(|mutants|, i requires 0 <= i < |mutants| => mutants[i].name)
  }

  /** One pass over the results; the stale ids are whatever the pass did not excuse. */
  method ApplyEquivalentAllowlist(mutants: seq<Mutant>, allowlist: map<string, string>)
    returns (effective: seq<Mutant>, excused: seq<string>, stale: set<string>)
    ensures effective == Effective(mutants, allowlist.Keys)
    ensures excused == Names(Excused(mutants, allowlist.Keys))
    ensures stale == allowlist.Keys - set name | name in excused
  {
    effective, excused := [], [];
    for i := 0 to |mutants|
      invariant effective == Effective(mutants[..i], allowlist.Keys)
      invariant excused == Names(Excused(mutants[..i], allowlist.Keys))
    {
      assert mutants[..i + 1][..i] == mutants[..i];
      if mutants[i].name in allowlist && mutants[i].state in EXCUSABLE_STATES {
        excused := excused + [mutants[i].name];
      } else {
        effective := effective + [mutants[i]];
      }
    }
    assert mutants[..|mutants|] == mutants;
    stale := allowlist.Keys - set name | name in excused;
  }

  /** `part` can be had from `whole` by leaving elements out. */
  predicate Subsequence(part: seq<Mutant>, whole: seq<Mutant>) {
    if part == [] then true
    else if whole == [] then false
    else if part[|part| - 1] == whole[|whole| - 1] then Subsequence(part[..|part| - 1], whole[..|whole| - 1])
    else Subsequence(part, whole[..|whole| - 1])
  }

  lemma {:induction false} LongerWhole(part: seq<Mutant>, whole: seq<Mutant>, m: Mutant)
    requires Subsequence(part, whole)
    ensures Subsequence(part, whole + [m])
    decreases |whole|, 1
  {
    assert (whole + [m])[..|whole|] == whole;
    if part != [] && part[|part| - 1] == m {
      DropLast(part, whole);
    }
  }

  lemma {:induction false} DropLast(part: seq<Mutant>, whole: seq<Mutant>)
    requires part != [] && Subsequence(part, whole)
    ensures Subsequence(part[..|part| - 1], whole)
    decreases |whole|, 0
  {
    var front := whole[..|whole| - 1];
    assert front + [whole[|whole| - 1]] == whole;
    if part[|part| - 1] == whole[|whole| - 1] {
      LongerWhole(part[..|part| - 1], front, whole[|whole| - 1]);
    } else {
      DropLast(part, front);
      LongerWhole(part[..|part| - 1], front, whole[|whole| - 1]);
    }
  }

  /** Effective and excused mutants partition the raw ones. */
  lemma {:induction false} AllowlistPartitions(mutants: seq<Mutant>, allowed: set<string>)
    ensures multiset(Effective(mutants, allowed)) + multiset(Excused(mutants, allowed)) == multiset(mutants)
  {
    if mutants != [] {
      var front := mutants[..|mutants| - 1];
      AllowlistPartitions(front, allowed);
      assert front + [mutants[|mutants| - 1]] == mutants;
    }
  }

  /** Which part a mutant falls in is decided by its name and state alone. */
  lemma {:induction false} AllowlistMembers(mutants: seq<Mutant>, allowed: set<string>)
    ensures forall m :: m in Effective(mutants, allowed) <==> m in mutants && !IsExcused(m, allowed)
    ensures forall m :: m in Excused(mutants, allowed) <==> m in mutants && IsExcused(m, allowed)
  {
    if mutants != [] {
      var front := mutants[..|mutants| - 1];
      AllowlistMembers(front, allowed);
      assert front + [mutants[|mutants| - 1]] == mutants;
    }
  }

  /** What still counts keeps its order. */
  lemma {:induction false} EffectiveKeepsOrder(mutants: seq<Mutant>, allowed: set<string>)
    ensures Subsequence(Effective(mutants, allowed), mutants)
  {
    if mutants != [] {
      var front := mutants[..|mutants| - 1];
      var m := mutants[|mutants| - 1];
      EffectiveKeepsOrder(front, allowed);
      assert front + [m] == mutants;
      if IsExcused(m, allowed) {
        LongerWhole(Effective(front, allowed), front, m);
      } else {
        assert Effective(mutants, allowed)[..|Effective(mutants, allowed)| - 1] == Effective(front, allowed);
      }
    }
  }

  /** The id survived this run in a state the allowlist may excuse. */
  predicate IsMatched(mutants: seq<Mutant>, id: string) {
    exists m :: m in mutants && m.name == id && m.state in EXCUSABLE_STATES
  }

  lemma ExcusedAreMatched(mutants: seq<Mutant>, allowed: set<string>, id: string)
    ensures id in Names(Excused(mutants, allowed)) <==> id in allowed && IsMatched(mutants, id)
  {
    AllowlistMembers(mutants, allowed);
    var ex := Excused(mutants, allowed);
    if id in Names(ex) {
      var i :| 0 <= i < |ex| && Names(ex)[i] == id;
      assert ex[i] in ex;
    }
    if id in allowed && IsMatched(mutants, id) {
      var m :| m in mutants && m.name == id && m.state in EXCUSABLE_STATES;
      assert m in ex;
      var i :| 0 <= i < |ex| && ex[i] == m;
      assert Names(ex)[i] == id;
    }
  }

  /** Stale and excused ids partition the allowlist, and an id is stale exactly when no mutant matched it. */
  lemma StaleAndExcusedPartition(mutants: seq<Mutant>, allowlist: map<string, string>)
    ensures var excused := set name | name in Names(Excused(mutants, allowlist.Keys));
            var stale := allowlist.Keys - excused;
            && excused !! stale && excused + stale == allowlist.Keys
            && forall id :: id in stale <==> id in allowlist && !IsMatched(mutants, id)
  {
    forall id
      ensures id in Names(Excused(mutants, allowlist.Keys)) <==> id in allowlist && IsMatched(mutants, id)
    {
      ExcusedAreMatched(mutants, allowlist.Keys, id);
    }
  }

  // ---- Kills carried over from earlier attempts ----

  function PromotedOne(m: Mutant, proven: set<string>): Mutant {
    if m.state == Timeout && m.name in proven then m.(state := Killed) else m
  }

  function Promoted(effective: seq<Mutant>, proven: set<string>): (r: seq<Mutant>)
    ensures |r| == |effective|
  {
    seq(|effective|, i requires 0 <= i < |effective| => PromotedOne(effective[i], proven))
  }

  function KilledNames(mutants: seq<Mutant>): set<string> {
    set m | m in mutants && m.state == Killed :: m.name
  }

  // ---- The tally ----

  function CountOf(mutants: seq<Mutant>, state: MutantState): nat {
    if mutants == [] then 0
    else CountOf(mutants[..|mutants| - 1], state) + (if mutants[|mutants| - 1].state == state then 1 else 0)
  }

  method StateCountsFrom(mutants: seq<Mutant>) returns (counts: map<MutantState, nat>)
    ensures forall st :: st in counts ==> counts[st] == CountOf(mutants, st)
    ensures forall st :: st !in counts ==> CountOf(mutants, st) == 0
    ensures SumOver(counts, counts.Keys) == |mutants|
  {
    counts := map[];
    for i := 0 to |mutants|
      invariant forall st :: st in counts ==> counts[st] == CountOf(mutants[..i], st)
      invariant forall st :: st !in counts ==> CountOf(mutants[..i], st) == 0
      invariant SumOver(counts, counts.Keys) == i
    {
      assert mutants[..i + 1][..i] == mutants[..i];
      var state := mutants[i].state;
      SumAfterUpdate(counts, state, (if state in counts then counts[state] else 0) + 1);
      counts := counts[state := (if state in counts then counts[state] else 0) + 1];
    }
    assert mutants[..|mutants|] == mutants;
  }

  ghost function Pick(keys: set<MutantState>): (k: MutantState)
    requires keys != {}
    ensures k in keys
  {
    var k :| k in keys;
    k
  }

  ghost function SumOver(counts: map<MutantState, nat>, keys: set<MutantState>): nat
    requires keys <= counts.Keys
  {
    if keys == {} then 0 else counts[Pick(keys)] + SumOver(counts, keys - {Pick(keys)})
  }

  lemma {:induction false} SumWithout(counts: map<MutantState, nat>, keys: set<MutantState>, k: MutantState)
    requires keys <= counts.Keys && k in keys
    ensures SumOver(counts, keys) == counts[k] + SumOver(counts, keys - {k})
    decreases |keys|
  {
    var j := Pick(keys);
    if j != k {
      SumWithout(counts, keys - {j}, k);
      SumWithout(counts, keys - {k}, j);
      assert keys - {j} - {k} == keys - {k} - {j};
    }
  }

  lemma {:induction false} SumUntouched(a: map<MutantState, nat>, b: map<MutantState, nat>, keys: set<MutantState>)
    requires keys <= a.Keys && keys <= b.Keys && forall k :: k in keys ==> a[k] == b[k]
    ensures SumOver(a, keys) == SumOver(b, keys)
    decreases |keys|
  {
    if keys != {} {
      var k :| k in keys;
      SumWithout(a, keys, k);
      SumWithout(b, keys, k);
      SumUntouched(a, b, keys - {k});
    }
  }

  lemma SumAfterUpdate(counts: map<MutantState, nat>, k: MutantState, n: nat)
    ensures SumOver(counts[k := n], counts[k := n].Keys)
         == SumOver(counts, counts.Keys) - (if k in counts then counts[k] else 0) + n
  {
    var after := counts[k := n];
    var others := counts.Keys - {k};
    SumWithout(after, after.Keys, k);
    assert after.Keys - {k} == others;
    SumUntouched(after, counts, others);
    if k in counts {
      SumWithout(counts, counts.Keys, k);
    } else {
      assert others == counts.Keys;
    }
  }

  datatype Stats = Stats(
    total: nat, killed: nat, survived: nat, suspicious: nat, timeout: nat, skipped: nat, notChecked: nat, badTotal: nat)

  function StatsOf(mutants: seq<Mutant>): Stats {
    Stats(|mutants|, CountOf(mutants, Killed), CountOf(mutants, Survived), CountOf(mutants, Suspicious),
          CountOf(mutants, Timeout), CountOf(mutants, Skipped), CountOf(mutants, NotChecked),
          CountOf(mutants, NotChecked) + CountOf(mutants, Survived) + CountOf(mutants, Suspicious)
          + CountOf(mutants, Timeout) + CountOf(mutants, Skipped))
  }

  /** `sum(state_counts.values())`. */
  method SumOfValues(counts: map<MutantState, nat>) returns (total: nat)
    ensures total == SumOver(counts, counts.Keys)
  {
    total := 0;
    var left := counts.Keys;
    while left != {}
      invariant left <= counts.Keys && total + SumOver(counts, left) == SumOver(counts, counts.Keys)
      decreases |left|
    {
      var k :| k in left;
      SumWithout(counts, left, k);
      total := total + counts[k];
      left := left - {k};
    }
  }

  function CountIn(counts: map<MutantState, nat>, state: MutantState): nat {
    if state in counts then counts[state] else 0
  }

  method CollectStats(raw: seq<Mutant>, allowlist: map<string, string>, proven: set<string>)
    returns (effective: seq<Mutant>, stats: Stats)
    ensures effective == Promoted(Effective(raw, allowlist.Keys), proven)
    ensures stats == StatsOf(effective)
  {
    var counted, _, _ := ApplyEquivalentAllowlist(raw, allowlist);
    effective := if proven == {} then counted else Promoted(counted, proven);
    assert effective == Promoted(counted, proven);
    var counts := StateCountsFrom(effective);
    var total := SumOfValues(counts);
    var bad := 0;
    for i := 0 to |BAD_MUTANT_STATES|
      invariant i == 0 ==> bad == 0
      invariant i == 1 ==> bad == CountIn(counts, NotChecked)
      invariant i == 2 ==> bad == CountIn(counts, NotChecked) + CountIn(counts, Survived)
      invariant i == 3 ==> bad == CountIn(counts, NotChecked) + CountIn(counts, Survived) + CountIn(counts, Suspicious)
      invariant i == 4 ==> bad == CountIn(counts, NotChecked) + CountIn(counts, Survived) + CountIn(counts, Suspicious)
                                + CountIn(counts, Timeout)
      invariant i == 5 ==> bad == CountIn(counts, NotChecked) + CountIn(counts, Survived) + CountIn(counts, Suspicious)
                                + CountIn(counts, Timeout) + CountIn(counts, Skipped)
    {
      bad := bad + CountIn(counts, BAD_MUTANT_STATES[i]);
    }
    stats := Stats(total, CountIn(counts, Killed), CountIn(counts, Survived), CountIn(counts, Suspicious),
                   CountIn(counts, Timeout), CountIn(counts, Skipped), CountIn(counts, NotChecked), bad);
  }

  /** Killed over total as a percentage, and 0 when there is nothing to kill. */
  function MutationScore(stats: Stats): real {
    if stats.total == 0 then 0.0 else stats.killed as real / stats.total as real * 100.0
  }

  /** The condition under which an attempt ends the loop. */
  predicate Clears(stats: Stats, minScore: real) {
    stats.total > 0 && MutationScore(stats) >= minScore && stats.badTotal == 0
  }

  lemma {:induction false} CountsAreBounded(mutants: seq<Mutant>)
    ensures CountOf(mutants, Killed) + StatsOf(mutants).badTotal <= |mutants|
    ensures CountOf(mutants, Killed) == |mutants| <==> forall m :: m in mutants ==> m.state == Killed
  {
    if mutants != [] {
      var front := mutants[..|mutants| - 1];
      CountsAreBounded(front);
      assert mutants == front + [mutants[|mutants| - 1]];
    }
  }

  lemma FullScore(killed: nat, total: nat)
    requires 0 < total && killed <= total
    ensures killed as real / total as real * 100.0 >= 100.0 <==> killed == total
  {
    var x := killed as real / total as real;
    assert x * total as real == killed as real;
    if killed < total {
      assert x < 1.0;
    }
  }

  /** Under a 100 minimum an attempt clears exactly when there is something to kill and all of it was. */
  lemma ClearsAtOneHundred(mutants: seq<Mutant>)
    ensures Clears(StatsOf(mutants), 100.0) <==> mutants != [] && forall m :: m in mutants ==> m.state == Killed
  {
    CountsAreBounded(mutants);
    if mutants != [] {
      FullScore(CountOf(mutants, Killed), |mutants|);
    }
  }

  // ---- Promotion ----

  /** Only a timeout with an earlier kill is promoted, and only to a kill. */
  lemma PromotionChangesOnlyProvenTimeouts(effective: seq<Mutant>, proven: set<string>, i: nat)
    requires i < |effective|
    ensures var before, after := effective[i], Promoted(effective, proven)[i];
            && after.name == before.name
            && (after != before <==> before.state == Timeout && before.name in proven)
            && (after != before ==> after.state == Killed)
  {
  }

  lemma PromotedFront(effective: seq<Mutant>, proven: set<string>)
    requires effective != []
    ensures Promoted(effective, proven)[..|effective| - 1] == Promoted(effective[..|effective| - 1], proven)
  {
  }

  /** More earlier kills: as many mutants, no fewer kills, no more bad ones. */
  lemma {:induction false} MoreProofNeverHurts(effective: seq<Mutant>, fewer: set<string>, more: set<string>)
    requires fewer <= more
    ensures var a, b := StatsOf(Promoted(effective, fewer)), StatsOf(Promoted(effective, more));
            a.total == b.total && a.killed <= b.killed && b.badTotal <= a.badTotal
  {
    if effective != [] {
      PromotedFront(effective, fewer);
      PromotedFront(effective, more);
      MoreProofNeverHurts(effective[..|effective| - 1], fewer, more);
    }
  }

  lemma ScoreGrowsWithKills(killed: nat, more: nat, total: nat)
    requires killed <= more && 0 < total
    ensures killed as real / total as real * 100.0 <= more as real / total as real * 100.0
  {
  }

  /** So an attempt that clears the gate still clears it with more proven beforehand. */
  lemma ClearingIsMonotone(effective: seq<Mutant>, fewer: set<string>, more: set<string>, minScore: real)
    requires fewer <= more && Clears(StatsOf(Promoted(effective, fewer)), minScore)
    ensures Clears(StatsOf(Promoted(effective, more)), minScore)
  {
    MoreProofNeverHurts(effective, fewer, more);
    var a, b := StatsOf(Promoted(effective, fewer)), StatsOf(Promoted(effective, more));
    ScoreGrowsWithKills(a.killed, b.killed, a.total);
  }
}
