/** The seeded generator of the benchmark and the chunks it cuts a stream into. */
module XorShift {
  import opened Options

  // ---- Integers as their bits, least significant first; bits past the end are zero ----

  type Bits = seq<bool>

  predicate Bit(s: Bits, i: int) {
    0 <= i < |s| && s[i]
  }

  function ShiftLeft(s: Bits, k: nat): Bits {
    seq(|s| + k, i => Bit(s, i - k))
  }

  function ShiftRight(s: Bits, k: nat): Bits {
    seq(if k <= |s| then |s| - k else 0, i => Bit(s, i + k))
  }

  function Xor(a: Bits, b: Bits): Bits {
    seq(if |a| < |b| then |b| else |a|, i => Bit(a, i) != Bit(b, i))
  }

  /** The mask `& 0xFFFFFFFF`. */
  function Low32(s: Bits): Word {
    seq(32, i => Bit(s, i))
  }

  /** One turn of the generator, on integers that grow past 32 bits before they are masked. */
  function WideStep(state: Bits): Word {
    var a := Xor(state, Low32(ShiftLeft(state, 13)));
    var b := Xor(a, ShiftRight(a, 17));
    var c := Xor(b, Low32(ShiftLeft(b, 5)));
    Low32(c)
  }

  // ---- The same step on 32-bit words ----

  type Word = w: Bits | |w| == 32 witness seq(32, _ => false)

  const ZERO: Word := seq(32, _ => false)

  function XorUp(x: Word, k: nat): Word {
    seq(32, i => Bit(x, i) != Bit(x, i - k))
  }

  function XorDown(x: Word, k: nat): Word {
    seq(32, i => Bit(x, i) != Bit(x, i + k))
  }

  function Step(x: Word): Word {
    XorUp(XorDown(XorUp(x, 13), 17), 5)
  }

  lemma MaskedShiftIsXorUp(x: Word, k: nat)
    ensures Xor(x, Low32(ShiftLeft(x, k))) == XorUp(x, k)
  {
  }

  lemma ShiftIsXorDown(x: Word, k: nat)
    ensures Xor(x, ShiftRight(x, k)) == XorDown(x, k)
  {
  }

  /** The update on unbounded integers refines the 32-bit step. */
  lemma WideStepIsStep(x: Word)
    ensures WideStep(x) == Step(x)
  {
    MaskedShiftIsXorUp(x, 13);
    ShiftIsXorDown(XorUp(x, 13), 17);
    MaskedShiftIsXorUp(XorDown(XorUp(x, 13), 17), 5);
    assert Low32(Step(x)) == Step(x);
  }

  // ---- The step is a bijection that fixes only zero ----

  /** Bit `i` of the word that shifting up by `k` turned into `y`. */
  predicate BitBeforeUp(y: Word, k: nat, i: nat)
    requires k > 0
  {
    Bit(y, i) != (k <= i && BitBeforeUp(y, k, i - k))
  }

  predicate BitBeforeDown(y: Word, k: nat, i: nat)
    requires k > 0
    decreases 32 - i
  {
    i < 32 && Bit(y, i) != BitBeforeDown(y, k, i + k)
  }

  function UndoUp(y: Word, k: nat): Word
    requires k > 0
  {
    seq(32, i requires 0 <= i => BitBeforeUp(y, k, i))
  }

  function UndoDown(y: Word, k: nat): Word
    requires k > 0
  {
    seq(32, i requires 0 <= i => BitBeforeDown(y, k, i))
  }

  function Unstep(y: Word): Word {
    UndoUp(UndoDown(UndoUp(y, 5), 17), 13)
  }

  lemma {:induction false} BitBeforeXorUp(x: Word, k: nat, i: nat)
    requires k > 0 && i < 32
    ensures BitBeforeUp(XorUp(x, k), k, i) == x[i]
  {
    if k <= i {
      BitBeforeXorUp(x, k, i - k);
    }
  }

  lemma {:induction false} BitBeforeXorDown(x: Word, k: nat, i: nat)
    requires k > 0 && i < 32
    ensures BitBeforeDown(XorDown(x, k), k, i) == x[i]
    decreases 32 - i
  {
    if i + k < 32 {
      BitBeforeXorDown(x, k, i + k);
    }
  }

  /** For every shift, `x ^= x << k` on 32 bits is a bijection. */
  lemma XorUpIsReversible(x: Word, k: nat)
    requires k > 0
    ensures UndoUp(XorUp(x, k), k) == x && XorUp(UndoUp(x, k), k) == x
  {
    forall i | 0 <= i < 32
      ensures UndoUp(XorUp(x, k), k)[i] == x[i]
    {
      BitBeforeXorUp(x, k, i);
    }
  }

  /** For every shift, `x ^= x >> k` is a bijection. */
  lemma XorDownIsReversible(x: Word, k: nat)
    requires k > 0
    ensures UndoDown(XorDown(x, k), k) == x && XorDown(UndoDown(x, k), k) == x
  {
    forall i | 0 <= i < 32
      ensures UndoDown(XorDown(x, k), k)[i] == x[i]
    {
      BitBeforeXorDown(x, k, i);
    }
    forall i | 0 <= i < 32
      ensures XorDown(UndoDown(x, k), k)[i] == x[i]
    {
      assert Bit(UndoDown(x, k), i + k) == BitBeforeDown(x, k, i + k);
    }
  }

  lemma StepIsABijection(x: Word)
    ensures Unstep(Step(x)) == x && Step(Unstep(x)) == x
  {
    XorUpIsReversible(x, 13);
    XorDownIsReversible(XorUp(x, 13), 17);
    XorUpIsReversible(XorDown(XorUp(x, 13), 17), 5);
    XorUpIsReversible(x, 5);
    XorDownIsReversible(UndoUp(x, 5), 17);
    XorUpIsReversible(UndoDown(UndoUp(x, 5), 17), 13);
  }

  /** What bit `i` of a fixed word says of the bits of the word, once the intermediate words are eliminated. */
  predicate Equation(x: Word, i: int) {
    var below := Bit(x, i - 5) != Bit(x, i - 10);
    if i < 15 then below != (Bit(x, i - 13) != (Bit(x, i + 17) == Bit(x, i + 4)))
    else below != ((Bit(x, i - 13) != Bit(x, i - 15)) != ((Bit(x, i - 20) != Bit(x, i - 25)) == Bit(x, i - 30)))
  }

  lemma UpBy5Unrolled(b: Word, x: Word, i: nat)
    requires x == XorUp(b, 5) && i < 32
    ensures b[i] == (x[i] != (Bit(x, i - 5) != (Bit(x, i - 10) != (Bit(x, i - 15)
                      != (Bit(x, i - 20) != (Bit(x, i - 25) != Bit(x, i - 30)))))))
  {
    assert x[i] == (b[i] != Bit(b, i - 5));
    assert Bit(x, i - 5) == (Bit(b, i - 5) != Bit(b, i - 10));
    assert Bit(x, i - 10) == (Bit(b, i - 10) != Bit(b, i - 15));
    assert Bit(x, i - 15) == (Bit(b, i - 15) != Bit(b, i - 20));
    assert Bit(x, i - 20) == (Bit(b, i - 20) != Bit(b, i - 25));
    assert Bit(x, i - 25) == (Bit(b, i - 25) != Bit(b, i - 30));
    assert Bit(x, i - 30) == Bit(b, i - 30);
  }

  lemma DownUpUnrolled(x: Word, i: nat)
    requires i < 32
    ensures XorDown(XorUp(x, 13), 17)[i]
         == ((x[i] != Bit(x, i - 13)) != (Bit(x, i + 17) != (i < 15 && Bit(x, i + 4))))
  {
  }

  lemma FixedWordsSolve(x: Word, i: nat)
    requires Step(x) == x && i < 32
    ensures Equation(x, i)
  {
    UpBy5Unrolled(XorDown(XorUp(x, 13), 17), x, i);
    DownUpUnrolled(x, i);
  }

  predicate Solves(x: Word, from: nat, to: nat) {
    forall i :: from <= i < to ==> Equation(x, i)
  }

  /** 32 equations in 32 bits with no solution but zero. */
  lemma OnlyZeroSolves(x: Word)
    requires Solves(x, 0, 32)
    ensures x == ZERO
  {
    assert Equation(x, 0) && Equation(x, 1) && Equation(x, 2) && Equation(x, 3) && Equation(x, 4);
    assert Equation(x, 5) && Equation(x, 6) && Equation(x, 7) && Equation(x, 8) && Equation(x, 9);
    assert Equation(x, 10) && Equation(x, 11) && Equation(x, 12) && Equation(x, 13) && Equation(x, 14);
    assert Equation(x, 15) && Equation(x, 16) && Equation(x, 17) && Equation(x, 18) && Equation(x, 19);
    assert Equation(x, 20) && Equation(x, 21) && Equation(x, 22) && Equation(x, 23) && Equation(x, 24);
    assert Equation(x, 25) && Equation(x, 26) && Equation(x, 27) && Equation(x, 28) && Equation(x, 29);
    assert Equation(x, 30) && Equation(x, 31);
  }

  lemma OnlyZeroIsFixed(x: Word)
    ensures Step(x) == x <==> x == ZERO
  {
    if Step(x) == x {
      forall i | 0 <= i < 32
        ensures Equation(x, i)
      {
        FixedWordsSolve(x, i);
      }
      OnlyZeroSolves(x);
    }
  }

  // ---- The numbers behind the bits ----

  const STATES: nat := 0x1_0000_0000
  const FALLBACK: nat := 0x9E37_79B9

  function Pow2(n: nat): (r: nat)
    ensures r > 0
  {
    if n == 0 then 1 else 2 * Pow2(n - 1)
  }

  function ToNat(s: Bits): (r: nat)
    ensures r < Pow2(|s|)
  {
    if s == [] then 0 else (if s[0] then 1 else 0) + 2 * ToNat(s[1..])
  }

  function FromNat(n: nat, width: nat): (s: Bits)
    ensures |s| == width
    ensures n < Pow2(width) ==> ToNat(s) == n
  {
    if width == 0 then [] else [n % 2 == 1] + FromNat(n / 2, width - 1)
  }

  lemma {:induction false} NumbersTellWordsApart(a: Bits, b: Bits)
    requires |a| == |b| && ToNat(a) == ToNat(b)
    ensures a == b
  {
    if a != [] {
      NumbersTellWordsApart(a[1..], b[1..]);
      assert a == [a[0]] + a[1..] && b == [b[0]] + b[1..];
    }
  }

  lemma {:induction false} NoBitsIsZero(n: nat)
    ensures ToNat(seq(n, _ => false)) == 0
  {
    if n > 0 {
      NoBitsIsZero(n - 1);
      assert seq(n, _ => false)[1..] == seq(n - 1, _ => false);
    }
  }

  lemma WordsHold32Bits()
    ensures Pow2(32) == STATES
  {
    assert Pow2(8) == 0x100;
    assert Pow2(16) == 0x1_0000;
    assert Pow2(24) == 0x100_0000;
  }

  lemma WordsAreBelow(x: Word)
    ensures ToNat(x) < STATES
  {
    WordsHold32Bits();
  }

  lemma OnlyZeroCountsZero(x: Word)
    ensures ToNat(x) == 0 <==> x == ZERO
  {
    NoBitsIsZero(32);
    if ToNat(x) == 0 {
      NumbersTellWordsApart(x, ZERO);
    }
  }

  /** The state a seed starts from: its low 32 bits, or a fixed word in place of zero. */
  function Start(seed: int): Word {
    var low := seed % STATES;
    FromNat(if low == 0 then FALLBACK else low, 32)
  }

  lemma StartIsNotZero(seed: int)
    ensures Start(seed) != ZERO
    ensures seed % STATES != 0 ==> ToNat(Start(seed)) == seed % STATES
  {
    WordsHold32Bits();
    OnlyZeroCountsZero(Start(seed));
  }

  // ---- Runs of any injective step ----

  function Turned<T(!new)>(turn: T -> T, x: T, n: nat): T {
    if n == 0 then x else turn(Turned(turn, x, n - 1))
  }

  ghost predicate IsInjective<T(!new)>(turn: T -> T) {
    forall a, b :: turn(a) == turn(b) ==> a == b
  }

  lemma {:induction false} FixedPointNotReached<T(!new)>(turn: T -> T, fixed: T, x: T, n: nat)
    requires IsInjective(turn) && turn(fixed) == fixed && x != fixed
    ensures Turned(turn, x, n) != fixed
  {
    if n > 0 {
      FixedPointNotReached(turn, fixed, x, n - 1);
    }
  }

  lemma {:induction false} CommonPast<T(!new)>(turn: T -> T, x: T, i: nat, j: nat)
    requires IsInjective(turn) && i <= j && Turned(turn, x, i) == Turned(turn, x, j)
    ensures Turned(turn, x, j - i) == x
  {
    if i > 0 {
      CommonPast(turn, x, i - 1, j - 1);
    }
  }

  lemma {:induction false} ReturnRepeats<T(!new)>(turn: T -> T, x: T, period: nat, n: nat)
    requires Turned(turn, x, period) == x
    ensures Turned(turn, x, n + period) == Turned(turn, x, n)
  {
    if n > 0 {
      ReturnRepeats(turn, x, period, n - 1);
    }
  }

  ghost predicate AllDiffer(numbers: nat -> nat, n: nat) {
    forall i, j :: 0 <= i < j < n ==> numbers(i) != numbers(j)
  }

  lemma {:induction false} Counted(numbers: nat -> nat, n: nat) returns (seen: set<nat>)
    requires AllDiffer(numbers, n)
    ensures |seen| == n && forall m :: m in seen ==> exists i :: 0 <= i < n && m == numbers(i)
  {
    if n == 0 {
      seen := {};
    } else {
      var before := Counted(numbers, n - 1);
      seen := before + {numbers(n - 1)};
    }
  }

  lemma {:induction false} FewBelow(seen: set<nat>, bound: nat)
    requires forall m :: m in seen ==> 0 < m <= bound
    ensures |seen| <= bound
  {
    if bound == 0 {
      assert seen == {};
    } else {
      FewBelow(seen - {bound}, bound - 1);
    }
  }

  /** Of more than `bound` numbers from 1 to `bound`, two are equal. */
  lemma TwoAreEqual(numbers: nat -> nat, bound: nat) returns (i: nat, j: nat)
    requires forall k :: 0 < numbers(k) <= bound
    ensures i < j <= bound && numbers(i) == numbers(j)
  {
    if AllDiffer(numbers, bound + 1) {
      var seen := Counted(numbers, bound + 1);
      FewBelow(seen, bound);
    }
    i, j :| 0 <= i < j < bound + 1 && numbers(i) == numbers(j);
  }

  ghost predicate NumbersApart<T(!new)>(number: T -> nat) {
    forall a, b :: number(a) == number(b) ==> a == b
  }

  /** A run of an injective step among `bound` values comes back to its very start, and repeats from there. */
  lemma RunsReturn<T(!new)>(turn: T -> T, number: T -> nat, x: T, bound: nat) returns (period: nat)
    requires IsInjective(turn) && NumbersApart(number)
    requires forall k :: 0 < number(Turned(turn, x, k)) <= bound
    ensures 1 <= period <= bound
    ensures forall n: nat :: Turned(turn, x, n + period) == Turned(turn, x, n)
  {
    var numbers := (k: nat) => number(Turned(turn, x, k));
    var i, j := TwoAreEqual(numbers, bound);
    assert number(Turned(turn, x, i)) == number(Turned(turn, x, j));
    CommonPast(turn, x, i, j);
    period := j - i;
    forall n: nat
      ensures Turned(turn, x, n + period) == Turned(turn, x, n)
    {
      ReturnRepeats(turn, x, period, n);
    }
  }

  // ---- The runs of the generator ----

  function State(x: Word, n: nat): Word {
    Turned(Step, x, n)
  }

  lemma StepIsInjective()
    ensures IsInjective(Step)
  {
    forall a: Word, b: Word | Step(a) == Step(b)
      ensures a == b
    {
      StepIsABijection(a);
      StepIsABijection(b);
    }
  }

  lemma NeverZero(x: Word, n: nat)
    requires x != ZERO
    ensures State(x, n) != ZERO
  {
    StepIsInjective();
    OnlyZeroIsFixed(ZERO);
    FixedPointNotReached(Step, ZERO, x, n);
  }

  function Fraction(x: Word): real {
    ToNat(x) as real / STATES as real
  }

  lemma FractionsAreInside(x: Word)
    requires x != ZERO
    ensures 0.0 < Fraction(x) < 1.0
  {
    WordsAreBelow(x);
    OnlyZeroCountsZero(x);
  }

  lemma NextState(x: Word, n: nat, state: Word)
    requires x != ZERO && state == State(x, n)
    ensures WideStep(state) == State(x, n + 1) && IsDraw(Fraction(WideStep(state)), x, n)
  {
    WideStepIsStep(state);
    NeverZero(x, n + 1);
    FractionsAreInside(State(x, n + 1));
  }

  /** The value of the state `i + 1` turns after the start, strictly between 0 and 1. */
  predicate IsDraw(value: real, x: Word, i: nat) {
    value == Fraction(State(x, i + 1)) && 0.0 < value < 1.0
  }

  predicate AreDrawn(values: seq<real>, x: Word) {
    forall i :: 0 <= i < |values| ==> IsDraw(values[i], x, i)
  }

  lemma OneMoreIsDrawn(values: seq<real>, x: Word, value: real)
    requires AreDrawn(values, x) && IsDraw(value, x, |values|)
    ensures AreDrawn(values + [value], x)
  {
  }

  /** The first `n` values the generator yields. */
  method Draw(seed: int, n: nat) returns (values: seq<real>)
    ensures |values| == n && AreDrawn(values, Start(seed))
  {
    var state: Word := Start(seed);
    ghost var start := state;
    values := [];
    StartIsNotZero(seed);
    for k := 0 to n
      invariant state == State(start, k) && |values| == k && AreDrawn(values, start)
    {
      NextState(start, k, state);
      state := WideStep(state);
      OneMoreIsDrawn(values, start, Fraction(state));
      values := values + [Fraction(state)];
    }
  }

  lemma StatesAreNumbered(x: Word, k: nat)
    requires x != ZERO
    ensures 0 < ToNat(State(x, k)) <= STATES - 1
  {
    var state := State(x, k);
    NeverZero(x, k);
    WordsAreBelow(state);
    OnlyZeroCountsZero(state);
  }

  lemma NumbersAreApart(number: Word -> nat)
    requires forall w: Word :: number(w) == ToNat(w)
    ensures NumbersApart(number)
  {
    forall a: Word, b: Word | number(a) == number(b)
      ensures a == b
    {
      NumbersTellWordsApart(a, b);
    }
  }

  /** Some number of turns between 1 and 2^32 - 1 brings every run back to its very start. */
  lemma RunsArePurelyPeriodic(x: Word) returns (period: nat)
    requires x != ZERO
    ensures 1 <= period < STATES
    ensures forall n: nat :: State(x, n + period) == State(x, n)
  {
    var number := (w: Word) => ToNat(w);
    forall k: nat
      ensures 0 < number(Turned(Step, x, k)) <= STATES - 1
    {
      StatesAreNumbered(x, k);
    }
    StepIsInjective();
    NumbersAreApart(number);
    period := RunsReturn(Step, number, x, STATES - 1);
    forall n: nat
      ensures State(x, n + period) == State(x, n)
    {
      assert Turned(Step, x, n + period) == Turned(Step, x, n);
    }
  }

  // ---- Chunks ----

  function Least(a: int, b: int): int {
    if a < b then a else b
  }

  function ChunkCount(length: nat, size: int): nat
    requires size >= 1
  {
    (length + size - 1) / size
  }

  lemma CountTimesSize(length: nat, size: int)
    requires size >= 1
    ensures length <= ChunkCount(length, size) * size < length + size
  {
  }

  lemma StartsInside(length: nat, size: int, i: nat)
    requires size >= 1 && i < ChunkCount(length, size)
    ensures i * size < length && 0 <= i * size
    ensures i < ChunkCount(length, size) - 1 ==> (i + 1) * size < length
  {
    CountTimesSize(length, size);
    var rest := ChunkCount(length, size) - 1 - i;
    assert i * size == ChunkCount(length, size) * size - size - rest * size;
    assert rest > 0 ==> rest * size >= size;
  }

  function Chunk(stream: string, size: int, i: nat): string
    requires size >= 1 && i < ChunkCount(|stream|, size)
  {
    StartsInside(|stream|, size, i);
    stream[i * size .. Least((i + 1) * size, |stream|)]
  }

  /** The stream cut every `size` characters; a size below one is refused. */
  function ChunkStream(stream: string, size: int): Option<seq<string>> {
    if size < 1 then None
    else
      var count := ChunkCount(|stream|, size);
      Some(seq(count, i requires 0 <= i < count => Chunk(stream, size, i)))
  }

  function Glued(chunks: seq<string>): string {
    if chunks == [] then "" else Glued(chunks[..|chunks| - 1]) + chunks[|chunks| - 1]
  }

  lemma {:induction false} FirstChunksGlued(stream: string, size: int, k: nat)
    requires size >= 1 && k <= ChunkCount(|stream|, size)
    ensures 0 <= k * size
    ensures Glued(ChunkStream(stream, size).value[..k]) == stream[..Least(k * size, |stream|)]
  {
    if k > 0 {
      var chunks := ChunkStream(stream, size).value;
      FirstChunksGlued(stream, size, k - 1);
      StartsInside(|stream|, size, k - 1);
      var cut := (k - 1) * size;
      assert k * size == cut + size;
      assert chunks[..k][..k - 1] == chunks[..k - 1];
      assert chunks[k - 1] == stream[cut .. Least(cut + size, |stream|)];
    }
  }

  /** The chunks are the stream: none is empty, all but the last have the full size, and the last has no more. */
  lemma ChunksAreTheStream(stream: string, size: int)
    ensures ChunkStream(stream, size).None? <==> size < 1
    ensures size >= 1 ==>
              var chunks := ChunkStream(stream, size).value;
              && Glued(chunks) == stream
              && (forall i :: 0 <= i < |chunks| ==> 0 < |chunks[i]| <= size)
              && (forall i :: 0 <= i < |chunks| - 1 ==> |chunks[i]| == size)
  {
    if size >= 1 {
      var chunks := ChunkStream(stream, size).value;
      FirstChunksGlued(stream, size, |chunks|);
      CountTimesSize(|stream|, size);
      assert chunks[..|chunks|] == chunks;
      forall i | 0 <= i < |chunks|
        ensures 0 < |chunks[i]| <= size && (i < |chunks| - 1 ==> |chunks[i]| == size)
      {
        StartsInside(|stream|, size, i);
        assert (i + 1) * size == i * size + size;
      }
    }
  }

  // ---- The bits as the integers of the generator ----

  function Rest(s: Bits): Bits {
    if s == [] then [] else s[1..]
  }

  lemma Halves(s: Bits)
    ensures ToNat(s) == (if Bit(s, 0) then 1 else 0) + 2 * ToNat(Rest(s))
  {
  }

  lemma Doubles(bit: bool, s: Bits)
    ensures ToNat([bit] + s) == (if bit then 1 else 0) + 2 * ToNat(s)
  {
    assert ([bit] + s)[1..] == s;
  }

  lemma ShiftLeftUnfolds(s: Bits, k: nat)
    ensures ShiftLeft(s, k + 1) == [false] + ShiftLeft(s, k)
  {
    var x, y := ShiftLeft(s, k + 1), [false] + ShiftLeft(s, k);
    forall i | 0 <= i < |x|
      ensures x[i] == y[i]
    {
      assert x[i] == Bit(s, i - (k + 1));
      assert i > 0 ==> y[i] == ShiftLeft(s, k)[i - 1];
    }
  }

  lemma ShiftRightUnfolds(s: Bits, k: nat)
    ensures ShiftRight(s, k + 1) == ShiftRight(Rest(s), k)
  {
    var x, y := ShiftRight(s, k + 1), ShiftRight(Rest(s), k);
    forall i | 0 <= i < |x|
      ensures x[i] == y[i]
    {
      assert x[i] == Bit(s, i + (k + 1)) && y[i] == Bit(Rest(s), i + k);
    }
  }

  lemma ShiftByNone(s: Bits)
    ensures ShiftLeft(s, 0) == s && ShiftRight(s, 0) == s
  {
  }

  lemma TwiceTimes(n: nat, p: nat)
    ensures 2 * (n * p) == n * (2 * p)
  {
  }

  /** Shifting left multiplies by a power of two: no bit is lost, as with unbounded integers. */
  lemma {:induction false} ShiftLeftMultiplies(s: Bits, k: nat)
    ensures ToNat(ShiftLeft(s, k)) == ToNat(s) * Pow2(k)
  {
    if k == 0 {
      ShiftByNone(s);
    } else {
      ShiftLeftMultiplies(s, k - 1);
      ShiftLeftUnfolds(s, k - 1);
      Doubles(false, ShiftLeft(s, k - 1));
      TwiceTimes(ToNat(s), Pow2(k - 1));
    }
  }

  /** Shifting right divides by a power of two and drops the remainder. */
  lemma {:induction false} ShiftRightDivides(s: Bits, k: nat)
    ensures ToNat(ShiftRight(s, k)) == ToNat(s) / Pow2(k)
    decreases k
  {
    if k == 0 {
      ShiftByNone(s);
    } else {
      ShiftRightDivides(Rest(s), k - 1);
      ShiftRightUnfolds(s, k - 1);
      Halves(s);
      HalvedAgain(ToNat(s), Pow2(k - 1));
    }
  }

  lemma OnlyZeroIsSmall(x: int, p: nat)
    requires -(p as int) < x * p < p
    ensures x == 0
  {
    assert x >= 1 ==> x * p >= p;
    assert x <= -1 ==> x * p <= -(p as int);
  }

  lemma QuotientIs(n: nat, p: nat, q: nat, r: nat)
    requires p > 0 && n == q * p + r && r < p
    ensures n / p == q && n % p == r
  {
    var d := n / p;
    assert n == d * p + n % p;
    assert (q - d) * p == n % p - r;
    OnlyZeroIsSmall(q - d, p);
  }

  lemma HalvedAgain(n: nat, p: nat)
    requires p > 0
    ensures n / 2 / p == n / (2 * p) && n % (2 * p) == n % 2 + 2 * (n / 2 % p)
  {
    var m := n / 2;
    var q, r := m / p, m % p;
    assert m == q * p + r;
    assert n == q * (2 * p) + (2 * r + n % 2);
    QuotientIs(n, 2 * p, q, 2 * r + n % 2);
  }

  function Low(s: Bits, width: nat): Bits {
    seq(width, i => Bit(s, i))
  }

  lemma LowUnfolds(s: Bits, width: nat)
    ensures Low(s, width + 1) == [Bit(s, 0)] + Low(Rest(s), width)
  {
  }

  lemma {:induction false} LowIsRemainder(s: Bits, width: nat)
    ensures ToNat(Low(s, width)) == ToNat(s) % Pow2(width)
  {
    if width > 0 {
      LowIsRemainder(Rest(s), width - 1);
      LowUnfolds(s, width - 1);
      Doubles(Bit(s, 0), Low(Rest(s), width - 1));
      Halves(s);
      HalvedAgain(ToNat(s), Pow2(width - 1));
    }
  }

  /** The mask keeps the remainder modulo 2^32. */
  lemma MaskIsRemainder(s: Bits)
    ensures ToNat(Low32(s)) == ToNat(s) % 0x1_0000_0000
  {
    assert Low32(s) == Low(s, 32);
    LowIsRemainder(s, 32);
    WordsHold32Bits();
  }

  /** The start and the fraction, as numbers. */
  lemma StartsAndFractions(seed: int, x: Word)
    ensures ToNat(Start(seed)) == if seed % 0x1_0000_0000 == 0 then 0x9E37_79B9 else seed % 0x1_0000_0000
    ensures Fraction(x) * 4294967296.0 == ToNat(x) as real
  {
    WordsHold32Bits();
  }
}
