/** The run-length tables of the Unicode generator: a canonical, shortest encoding of a function. */
module UnicodeRuns {
  const MAX_CODE_POINT: nat := 0x10FFFF

  /** The points `first` to `last`, all with one value. */
  datatype Run = Run(first: nat, last: nat, value: int)

  predicate Covers(r: Run, point: nat) {
    r.first <= point <= r.last
  }

  /** What the loop does with one point: skip it, lengthen the last run, or start another. */
  function WithPoint(out: seq<Run>, point: nat, v: int, skip: int): seq<Run> {
    if v == skip then out
    else if out != [] && out[|out| - 1].last + 1 == point && out[|out| - 1].value == v then
      out[..|out| - 1] + [Run(out[|out| - 1].first, point, v)]
    else out + [Run(point, point, v)]
  }

  function RunsBelow(value: nat -> int, skip: int, end: nat): seq<Run> {
    if end == 0 then [] else WithPoint(RunsBelow(value, skip, end - 1), end - 1, value(end - 1), skip)
  }

  method Runs(value: nat -> int, skip: int) returns (out: seq<Run>)
    ensures out == RunsBelow(value, skip, MAX_CODE_POINT + 1)
  {
    out := [];
    for point := 0 to MAX_CODE_POINT + 1
      invariant out == RunsBelow(value, skip, point)
    {
      var v := value(point);
      if v != skip {
        if out != [] && out[|out| - 1].last == point - 1 && out[|out| - 1].value == v {
          out := out[..|out| - 1] + [Run(out[|out| - 1].first, point, v)];
        } else {
          out := out + [Run(point, point, v)];
        }
      }
    }
  }

  predicate AllBelow(table: seq<Run>, end: nat) {
    forall i :: 0 <= i < |table| ==> table[i].last < end
  }

  /** In order, disjoint, none empty, and no two neighbours that could be one run. */
  predicate IsCanonical(table: seq<Run>) {
    && (forall i :: 0 <= i < |table| ==> table[i].first <= table[i].last)
    && (forall i, j :: 0 <= i < j < |table| ==> table[i].last < table[j].first)
    && (forall i, j :: 0 <= i < j < |table| && table[i].last + 1 == table[j].first ==> table[i].value != table[j].value)
  }

  predicate HasEntry(table: seq<Run>, point: nat, v: int) {
    exists i :: 0 <= i < |table| && Covers(table[i], point) && table[i].value == v
  }

  /** Looking a point up in a table gives its value, or nothing exactly when it is skipped. */
  ghost predicate Denotes(table: seq<Run>, value: nat -> int, skip: int, end: nat) {
    forall point: nat, v: int :: HasEntry(table, point, v) <==> point < end && value(point) == v && v != skip
  }

  /** A run after all others, and not a continuation of the last, keeps a table canonical. */
  lemma AppendIsCanonical(out: seq<Run>, r: Run)
    requires IsCanonical(out) && AllBelow(out, r.first) && r.first <= r.last
    requires out != [] && out[|out| - 1].last + 1 == r.first ==> out[|out| - 1].value != r.value
    ensures IsCanonical(out + [r]) && AllBelow(out + [r], r.last + 1)
  {
    var after := out + [r];
    forall i, j | 0 <= i < j < |after|
      ensures after[i].last + 1 == after[j].first ==> after[i].value != after[j].value
    {
      if j == |out| && i < |out| - 1 {
        assert out[i].last < out[|out| - 1].first <= out[|out| - 1].last < r.first;
      }
    }
  }

  lemma PrefixIsCanonical(out: seq<Run>)
    requires IsCanonical(out) && out != []
    ensures IsCanonical(out[..|out| - 1]) && AllBelow(out[..|out| - 1], out[|out| - 1].first)
  {
  }

  lemma WithPointIsCanonical(out: seq<Run>, point: nat, v: int, skip: int)
    requires IsCanonical(out) && AllBelow(out, point)
    ensures IsCanonical(WithPoint(out, point, v, skip)) && AllBelow(WithPoint(out, point, v, skip), point + 1)
  {
    if v == skip {
    } else if out != [] && out[|out| - 1].last + 1 == point && out[|out| - 1].value == v {
      PrefixIsCanonical(out);
      AppendIsCanonical(out[..|out| - 1], Run(out[|out| - 1].first, point, v));
    } else {
      AppendIsCanonical(out, Run(point, point, v));
    }
  }

  lemma WithPointEntries(out: seq<Run>, point: nat, v: int, skip: int, p: nat, w: int)
    requires IsCanonical(out) && AllBelow(out, point)
    ensures HasEntry(WithPoint(out, point, v, skip), p, w)
       <==> HasEntry(out, p, w) || (p == point && w == v && v != skip)
  {
    var after := WithPoint(out, point, v, skip);
    if HasEntry(out, p, w) {
      var i :| 0 <= i < |out| && Covers(out[i], p) && out[i].value == w;
      assert Covers(after[i], p) && after[i].value == w;
    }
    if p == point && w == v && v != skip {
      assert Covers(after[|after| - 1], p) && after[|after| - 1].value == w;
    }
    if HasEntry(after, p, w) && p != point {
      var i :| 0 <= i < |after| && Covers(after[i], p) && after[i].value == w;
      assert Covers(out[i], p);
    }
  }

  predicate IsTable(table: seq<Run>, end: nat) {
    IsCanonical(table) && AllBelow(table, end)
  }

  lemma WithPointIsTable(out: seq<Run>, point: nat, v: int, skip: int)
    requires IsTable(out, point)
    ensures IsTable(WithPoint(out, point, v, skip), point + 1)
  {
    WithPointIsCanonical(out, point, v, skip);
  }

  lemma NextIsTable(value: nat -> int, skip: int, point: nat, out: seq<Run>, next: seq<Run>)
    requires IsTable(out, point) && out == RunsBelow(value, skip, point) && next == RunsBelow(value, skip, point + 1)
    ensures IsTable(next, point + 1)
  {
    WithPointIsTable(out, point, value(point), skip);
  }

  /** The table built for a function is canonical. */
  lemma {:induction false} RunsAreCanonical(value: nat -> int, skip: int, end: nat, table: seq<Run>)
    requires table == RunsBelow(value, skip, end)
    ensures IsTable(table, end)
  {
    if end == 0 {
      assert table == [];
    } else {
      var out := RunsBelow(value, skip, end - 1);
      RunsAreCanonical(value, skip, end - 1, out);
      NextIsTable(value, skip, end - 1, out, table);
    }
  }

  lemma NextDenotes(value: nat -> int, skip: int, point: nat, out: seq<Run>, next: seq<Run>)
    requires IsTable(out, point) && Denotes(out, value, skip, point)
    requires next == WithPoint(out, point, value(point), skip)
    ensures Denotes(next, value, skip, point + 1)
  {
    forall p: nat, v: int
      ensures HasEntry(next, p, v) <==> p < point + 1 && value(p) == v && v != skip
    {
      WithPointEntries(out, point, value(point), skip, p, v);
      assert HasEntry(out, p, v) <==> p < point && value(p) == v && v != skip;
    }
  }

  lemma NextTableDenotes(value: nat -> int, skip: int, point: nat, out: seq<Run>, next: seq<Run>)
    requires out == RunsBelow(value, skip, point) && next == RunsBelow(value, skip, point + 1)
    requires IsTable(out, point) && Denotes(out, value, skip, point)
    ensures Denotes(next, value, skip, point + 1)
  {
    NextDenotes(value, skip, point, out, WithPoint(out, point, value(point), skip));
  }

  lemma {:induction false} TableDenotes(value: nat -> int, skip: int, end: nat, table: seq<Run>)
    requires table == RunsBelow(value, skip, end)
    ensures Denotes(table, value, skip, end)
  {
    if end == 0 {
      assert table == [];
    } else {
      var out := RunsBelow(value, skip, end - 1);
      TableDenotes(value, skip, end - 1, out);
      RunsAreCanonical(value, skip, end - 1, out);
      NextTableDenotes(value, skip, end - 1, out, table);
    }
  }

  /** And it denotes that function: each point has its value, and the skipped ones none. */
  lemma RunsDenoteTheFunction(value: nat -> int, skip: int, end: nat)
    ensures Denotes(RunsBelow(value, skip, end), value, skip, end)
  {
    TableDenotes(value, skip, end, RunsBelow(value, skip, end));
  }

  /** The table of all code points, 0 to 0x10FFFF: each point's value, and no entry where it is skipped. */
  lemma TableOfAllPoints(value: nat -> int, skip: int, point: nat, v: int)
    ensures HasEntry(RunsBelow(value, skip, MAX_CODE_POINT + 1), point, v)
       <==> point <= 0x10FFFF && value(point) == v && v != skip
  {
    RunsDenoteTheFunction(value, skip, MAX_CODE_POINT + 1);
  }

  // ---- No table for the same function is shorter ----

  /** The point before a run never has the value of the run. */
  lemma RunsStartAfterAChange(table: seq<Run>, j: nat)
    requires IsCanonical(table) && j < |table| && table[j].first > 0
    ensures !HasEntry(table, table[j].first - 1, table[j].value)
  {
    var gap := table[j].first - 1;
    forall m | 0 <= m < |table|
      ensures !(Covers(table[m], gap) && table[m].value == table[j].value)
    {
      assert m < j ==> table[m].last < table[j].first;
      assert j < m ==> table[j].last < table[m].first;
    }
  }

  /** Two different runs of a canonical table cannot start inside one run of another table for the same function. */
  lemma StartsAreApart(table: seq<Run>, other: seq<Run>, value: nat -> int, skip: int, end: nat, i: nat, j: nat, k: nat)
    requires IsCanonical(table) && Denotes(table, value, skip, end) && Denotes(other, value, skip, end)
    requires i < j < |table| && k < |other|
    ensures !(Covers(other[k], table[i].first) && Covers(other[k], table[j].first))
  {
    assert table[i].first <= table[i].last < table[j].first;
    RunsStartAfterAChange(table, j);
    assert HasEntry(table, table[j].first, table[j].value) by { assert Covers(table[j], table[j].first); }
    if Covers(other[k], table[i].first) && Covers(other[k], table[j].first) {
      assert HasEntry(other, table[j].first, other[k].value);
      assert Covers(other[k], table[j].first - 1);
      assert HasEntry(other, table[j].first - 1, other[k].value);
    }
  }

  /** Where each run of the table starts in the other one. */
  lemma StartIsCovered(table: seq<Run>, other: seq<Run>, value: nat -> int, skip: int, end: nat, i: nat) returns (k: nat)
    requires IsCanonical(table) && Denotes(table, value, skip, end) && Denotes(other, value, skip, end)
    requires i < |table|
    ensures k < |other| && Covers(other[k], table[i].first)
  {
    assert Covers(table[i], table[i].first);
    assert HasEntry(table, table[i].first, table[i].value);
    assert HasEntry(other, table[i].first, table[i].value);
    k :| 0 <= k < |other| && Covers(other[k], table[i].first) && other[k].value == table[i].value;
  }

  /** The first `n` runs start in `n` different entries of the other table. */
  lemma {:induction false} StartsAreDistinct(
    table: seq<Run>, other: seq<Run>, value: nat -> int, skip: int, end: nat, n: nat) returns (used: set<nat>)
    requires IsCanonical(table) && Denotes(table, value, skip, end) && Denotes(other, value, skip, end)
    requires n <= |table|
    ensures |used| == n
    ensures forall k :: k in used ==> k < |other| && exists i :: 0 <= i < n && Covers(other[k], table[i].first)
  {
    if n == 0 {
      used := {};
    } else {
      var before := StartsAreDistinct(table, other, value, skip, end, n - 1);
      var k := StartIsCovered(table, other, value, skip, end, n - 1);
      if k in before {
        var i :| 0 <= i < n - 1 && Covers(other[k], table[i].first);
        StartsAreApart(table, other, value, skip, end, i, n - 1, k);
      }
      used := before + {k};
    }
  }

  lemma {:induction false} BoundedSet(used: set<nat>, n: nat)
    requires forall k :: k in used ==> k < n
    ensures |used| <= n
  {
    if n > 0 {
      BoundedSet(used - {n - 1}, n - 1);
    } else {
      assert used == {};
    }
  }

  /** Minimality: any table of triples for the same function is at least as long as the one built. */
  lemma NoTableIsShorter(value: nat -> int, skip: int, end: nat, other: seq<Run>)
    requires Denotes(other, value, skip, end)
    ensures |RunsBelow(value, skip, end)| <= |other|
  {
    var table := RunsBelow(value, skip, end);
    RunsAreCanonical(value, skip, end, table);
    RunsDenoteTheFunction(value, skip, end);
    var used := StartsAreDistinct(table, other, value, skip, end, |table|);
    BoundedSet(used, |other|);
  }

  // ---- Primary composites ----

  const HANGUL_FIRST: nat := 0xAC00
  const HANGUL_LAST: nat := 0xD7A3

  /** What the character database says of one point. */
  datatype Mapping = NoMapping | OnePart(first: int) | TwoParts(first: int, second: nat)

  /** A canonical one-level decomposition; `second` is -1 when there is one part. */
  datatype Decomposition = Decomposition(point: int, first: int, second: int)

  datatype Composite = Composite(starter: int, combiner: int, point: int)

  /** The decompositions of the points below `end`; Hangul has none. */
  function Decompositions(mapping: nat -> Mapping, end: nat): seq<Decomposition> {
    if end == 0 then []
    else
      var point := end - 1;
      var earlier := Decompositions(mapping, point);
      if HANGUL_FIRST <= point <= HANGUL_LAST then earlier
      else match mapping(point)
        case NoMapping => earlier
        case OnePart(first) => earlier + [Decomposition(point, first, -1)]
        case TwoParts(first, second) => earlier + [Decomposition(point, first, second)]
  }

  /** The two-part decompositions that `nfc` composes back, before they are sorted. */
  function Compositions(ds: seq<Decomposition>, nfc: (int, int) -> int): seq<Composite> {
    if ds == [] then []
    else
      var d := ds[|ds| - 1];
      var earlier := Compositions(ds[..|ds| - 1], nfc);
      if d.second >= 0 && nfc(d.first, d.second) == d.point
      then earlier + [Composite(d.first, d.second, d.point)]
      else earlier
  }

  /** A decomposition the character database gives: the point, its first part, and the second or -1. */
  predicate IsGiven(mapping: nat -> Mapping, point: nat, d: Decomposition) {
    match mapping(point)
    case NoMapping => false
    case OnePart(first) => d == Decomposition(point, first, -1)
    case TwoParts(first, second) => d == Decomposition(point, first, second)
  }

  /** The list holds exactly the decompositions given for points outside the Hangul syllables. */
  lemma {:induction false} DecompositionsAreExact(mapping: nat -> Mapping, end: nat, d: Decomposition)
    ensures d in Decompositions(mapping, end)
       <==> 0 <= d.point < end && !(0xAC00 <= d.point <= 0xD7A3) && IsGiven(mapping, d.point, d)
  {
    if end > 0 {
      DecompositionsAreExact(mapping, end - 1, d);
    }
  }

  predicate PointsIncrease(ds: seq<Decomposition>) {
    forall i, j :: 0 <= i < j < |ds| ==> ds[i].point < ds[j].point
  }

  predicate PointsBelow(ds: seq<Decomposition>, end: int) {
    forall i :: 0 <= i < |ds| ==> ds[i].point < end
  }

  lemma {:induction false} DecompositionsAreInOrder(mapping: nat -> Mapping, end: nat)
    ensures PointsIncrease(Decompositions(mapping, end)) && PointsBelow(Decompositions(mapping, end), end)
  {
    if end > 0 {
      DecompositionsAreInOrder(mapping, end - 1);
    }
  }

  predicate IsRecomposed(c: Composite, nfc: (int, int) -> int, ds: seq<Decomposition>) {
    && nfc(c.starter, c.combiner) == c.point
    && exists i :: 0 <= i < |ds| && ds[i] == Decomposition(c.point, c.starter, c.combiner)
  }

  lemma {:induction false} CompositionsAreRecomposed(ds: seq<Decomposition>, nfc: (int, int) -> int, k: nat)
    requires k < |Compositions(ds, nfc)|
    ensures IsRecomposed(Compositions(ds, nfc)[k], nfc, ds)
  {
    var last := ds[|ds| - 1];
    var earlier := Compositions(ds[..|ds| - 1], nfc);
    if k < |earlier| {
      CompositionsAreRecomposed(ds[..|ds| - 1], nfc, k);
      var i :| 0 <= i < |ds| - 1
        && ds[..|ds| - 1][i] == Decomposition(earlier[k].point, earlier[k].starter, earlier[k].combiner);
      assert ds[i] == ds[..|ds| - 1][i];
    } else {
      assert ds[|ds| - 1] == Decomposition(last.point, last.first, last.second);
    }
  }

  /** No composite is lost. */
  lemma {:induction false} RecomposedPairsAreListed(ds: seq<Decomposition>, nfc: (int, int) -> int, c: Composite)
    requires IsRecomposed(c, nfc, ds) && c.combiner >= 0
    ensures c in Compositions(ds, nfc)
  {
    var i :| 0 <= i < |ds| && ds[i] == Decomposition(c.point, c.starter, c.combiner);
    if i < |ds| - 1 {
      assert ds[..|ds| - 1][i] == ds[i];
      RecomposedPairsAreListed(ds[..|ds| - 1], nfc, c);
    }
  }

  /** No two entries share a starter and a combiner, so the table can be a map keyed by pairs. */
  lemma {:induction false} NoPairHasTwoComposites(ds: seq<Decomposition>, nfc: (int, int) -> int, j: nat, k: nat)
    requires PointsIncrease(ds) && j < k < |Compositions(ds, nfc)|
    ensures var a, b := Compositions(ds, nfc)[j], Compositions(ds, nfc)[k];
            (a.starter, a.combiner) != (b.starter, b.combiner)
  {
    var front := ds[..|ds| - 1];
    var earlier := Compositions(front, nfc);
    if k < |earlier| {
      NoPairHasTwoComposites(front, nfc, j, k);
    } else {
      CompositionsAreRecomposed(front, nfc, j);
    }
  }
}
