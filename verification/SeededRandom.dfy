/**
 The linear congruential generator of
 `packages/tekmemo-benchmark-kit/src/utils/seeded-random.ts`, with its division
 in exact reals: every step can be undone, every seed runs through all states, and
 one state in all of them gives a number out of range.
 */
module SeededRandom {
  import opened Arithmetic
  import opened Optional

  const M := 0x1_0000_0000
  const A := 1664525
  const C := 1013904223
  const A_INVERSE := 4276115653
  const LAST := 0xffff_ffff

  type State = s: int | 0 <= s < 0x1_0000_0000

  /** `x >>> 0`. */
  function ToUint32(x: int): State { x % M }

  /** A number modulo 2^32, as a signed one. */
  function ToInt32(x: int): int {
    if x % M >= 0x8000_0000 then x % M - M else x % M
  }

  /** `Math.imul`. */
  function Imul(a: int, b: int): int { ToInt32(a * b) }

  function Advance(s: State): State {
    ToUint32(Imul(A, s) + C)
  }

  function Fraction(s: State): real {
    s as real / LAST as real
  }

  /** `int(min, max)` once the state has been advanced to `s`. */
  function IntAt(s: State, min: int, max: int): int {
    (Fraction(s) * (max - min + 1) as real).Floor + min
  }

  datatype Error = EmptyArray | UndefinedItem

  function PickAt<T>(s: State, items: seq<Option<T>>): Result<T, Error> {
    if items == [] then Err(EmptyArray)
    else
      var i := IntAt(s, 0, |items| - 1);
      if 0 <= i < |items| && items[i].Some? then Ok(items[i].value) else Err(UndefinedItem)
  }

  class Generator {
    var state: State

    constructor (seed: int)
      ensures state == ToUint32(seed)
    {
      state := ToUint32(seed);
    }

    method Next() returns (x: real)
      modifies this
      ensures state == Advance(old(state)) && x == Fraction(state)
    {
      state := ToUint32(Imul(A, state) + C);
      x := state as real / LAST as real;
    }

    method Int(min: int, max: int) returns (n: int)
      modifies this
      ensures state == Advance(old(state)) && n == IntAt(state, min, max)
    {
      var x := Next();
      n := (x * (max - min + 1) as real).Floor + min;
    }

    method Pick<T>(items: seq<Option<T>>) returns (r: Result<T, Error>)
      modifies this
      ensures state == (if items == [] then old(state) else Advance(old(state)))
      ensures r == PickAt(state, items)
    {
      if |items| == 0 {
        return Err(EmptyArray);
      }
      var i := Int(0, |items| - 1);
      if 0 <= i < |items| && items[i].Some? {
        return Ok(items[i].value);
      }
      return Err(UndefinedItem);
    }
  }

  // ------------------------------------------------------------ reversibility

  lemma AdvanceIsLinear(s: State)
    ensures Advance(s) == (A * s + C) % M == (1664525 * s + 1013904223) % 0x1_0000_0000
  {
    var x := A * s;
    SignedOff(x);
    var k := if x % M >= 0x8000_0000 then x / M + 1 else x / M;
    Quotient(x + C);
    Residue(x - M * k + C, (x + C) % M, (x + C) / M - k);
  }

  lemma SignedOff(x: int)
    ensures ToInt32(x) == x - M * (if x % M >= 0x8000_0000 then x / M + 1 else x / M)
  {
  }

  function Retreat(s: State): State {
    (A_INVERSE * (s - C)) % M
  }

  lemma Residue(x: int, s: State, k: int)
    requires x == s + M * k
    ensures x % M == s
  {
  }

  lemma Quotient(x: int)
    ensures x == M * (x / M) + x % M
  {
  }

  lemma RetreatAdvance(s: State)
    ensures Retreat(Advance(s)) == s
  {
    AdvanceIsLinear(s);
    var t := A * s + C;
    Quotient(t);
    Residue(A_INVERSE * (t % M - C), s, 1657219 * s - A_INVERSE * (t / M));
  }

  lemma AdvanceRetreat(s: State)
    ensures Advance(Retreat(s)) == s
  {
    var t := A_INVERSE * (s - C);
    AdvanceIsLinear(Retreat(s));
    Quotient(t);
    Residue(A * (t % M) + C, s, 1657219 * (s - C) - A * (t / M));
  }

  function Iterate(n: nat, s: State): State {
    if n == 0 then s else Advance(Iterate(n - 1, s))
  }

  function IterateBack(n: nat, s: State): State {
    if n == 0 then s else IterateBack(n - 1, Retreat(s))
  }

  /** Every run can be undone, step by step. */
  lemma {:induction false} RunsAreReversible(n: nat, s: State)
    ensures IterateBack(n, Iterate(n, s)) == s
  {
    hide Advance, Retreat;
    if n > 0 {
      RetreatAdvance(Iterate(n - 1, s));
      RunsAreReversible(n - 1, s);
    }
  }

  // -------------------------------------------------------------------- range

  lemma FractionBounds(s: State)
    ensures 0.0 <= Fraction(s) <= 1.0
    ensures Fraction(s) == 1.0 <==> s == LAST
  {
  }

  lemma ScaledFloor(x: real, n: int)
    requires 0.0 <= x < 1.0 && n >= 1
    ensures 0 <= (x * n as real).Floor < n
  {
    var m := n as real;
    assert x * m >= 0.0;
    assert (1.0 - x) * m > 0.0;
    assert x * m < m;
  }

  /** The result is in range for every state but the last, for which it is one too large. */
  lemma IntInRange(s: State, min: int, max: int)
    requires min <= max
    ensures if s == LAST then IntAt(s, min, max) == max + 1 else min <= IntAt(s, min, max) <= max
  {
    hide Fraction;
    FractionBounds(s);
    if s != LAST {
      ScaledFloor(Fraction(s), max - min + 1);
    }
  }

  /** A pick among items that are all defined fails in the last state only. */
  lemma PickFailsIff<T>(s: State, items: seq<Option<T>>)
    requires items != [] && forall i :: 0 <= i < |items| ==> items[i].Some?
    ensures PickAt(s, items).Err? <==> s == LAST
    ensures s != LAST ==> Some(PickAt(s, items).value) in items
    ensures s == LAST ==> PickAt(s, items) == Err(UndefinedItem)
    ensures PickAt<T>(s, []) == Err(EmptyArray)
  {
    hide IntAt;
    IntInRange(s, 0, |items| - 1);
  }

  // ------------------------------------------------------------------- period

  /** 2^k divides x. */
  predicate Divides(k: nat, x: int) {
    k == 0 || (x % 2 == 0 && Divides(k - 1, x / 2))
  }

  lemma {:induction false} DividesIsModulo(k: nat, x: int)
    ensures Divides(k, x) <==> x % Pow2(k) == 0
  {
    if k > 0 {
      DividesIsModulo(k - 1, x / 2);
      HalfModulo(x, Pow2(k - 1));
    }
  }

  lemma HalfModulo(x: int, p: nat)
    requires p > 0
    ensures x % (2 * p) == 0 <==> x % 2 == 0 && (x / 2) % p == 0
  {
    if x % 2 == 0 && (x / 2) % p == 0 {
      var q := x / 2 / p;
      assert x / 2 == p * q;
      assert x == (2 * p) * q;
      ProductQuotient(2 * p, q);
    }
    if x % (2 * p) == 0 {
      var q := x / (2 * p);
      assert x == (2 * p) * q;
      assert x == 2 * (p * q);
      ProductQuotient(p, q);
    }
  }

  /** An odd factor does not matter. */
  lemma {:induction false} OddFactor(k: nat, x: int, odd: int)
    requires odd % 2 == 1
    ensures Divides(k, x * odd) <==> Divides(k, x)
  {
    if k > 0 {
      var h := odd / 2;
      assert odd == 2 * h + 1;
      assert x * odd == 2 * (x * h) + x;
      if x % 2 == 0 {
        var y := x / 2;
        assert x * odd == 2 * (y * odd);
        OddFactor(k - 1, y, odd);
      }
    }
  }

  /** 1 + a + … + a^(n-1). */
  function Geometric(n: nat): int {
    if n == 0 then 0 else 1 + A * Geometric(n - 1)
  }

  function Power(n: nat): int {
    if n == 0 then 1 else A * Power(n - 1)
  }

  lemma {:induction false} PowerModFour(n: nat)
    ensures Power(n) % 4 == 1
  {
    if n > 0 {
      PowerModFour(n - 1);
      FourStep(Power(n - 1));
      assert A == 1664525;
    }
  }

  lemma FourStep(p: int)
    requires p % 4 == 1
    ensures (1664525 * p) % 4 == 1
  {
    var q := p / 4;
    assert 1664525 * p == 4 * (1664525 * q + 416131) + 1;
  }

  lemma {:induction false} GeometricParity(n: nat)
    ensures Geometric(n) % 2 == n % 2
  {
    if n > 0 {
      GeometricParity(n - 1);
      ParityStep(Geometric(n - 1), n);
    }
  }

  lemma ParityStep(g: int, n: nat)
    requires n > 0 && g % 2 == (n - 1) % 2
    ensures (1 + A * g) % 2 == n % 2
  {
    var p, q := g / 2, (n - 1) / 2;
    var r := g % 2;
    assert g == 2 * p + r && n == 2 * q + r + 1;
    assert 1 + A * g == 2 * (A * p + 832262 * r) + (r + 1);
    ParityOf(A * p + 832262 * r, r + 1);
    ParityOf(q, r + 1);
  }

  lemma ParityOf(k: int, x: int)
    ensures (2 * k + x) % 2 == x % 2
  {
  }

  lemma {:induction false} GeometricSum(m: nat, n: nat)
    ensures Geometric(m + n) == Geometric(n) + Power(n) * Geometric(m)
  {
    if n > 0 {
      GeometricSum(m, n - 1);
      assert Power(n) * Geometric(m) == A * (Power(n - 1) * Geometric(m)) by {
        Associate(A, Power(n - 1), Geometric(m));
      }
    }
  }

  lemma Associate(x: int, y: int, z: int)
    ensures (x * y) * z == x * (y * z)
  {
  }

  lemma GeometricDouble(m: nat)
    ensures Geometric(2 * m) == 2 * (Geometric(m) * ((1 + Power(m)) / 2))
    ensures ((1 + Power(m)) / 2) % 2 == 1
  {
    hide Geometric, Power;
    GeometricSum(m, m);
    PowerModFour(m);
    HalfIsOdd(Power(m));
    assert m + m == 2 * m;
    Distribute(Geometric(m), Power(m), (1 + Power(m)) / 2);
  }

  lemma HalfIsOdd(p: int)
    requires p % 4 == 1
    ensures 1 + p == 2 * ((1 + p) / 2) && ((1 + p) / 2) % 2 == 1
  {
  }

  lemma Distribute(g: int, p: int, half: int)
    requires 1 + p == 2 * half
    ensures g + p * g == 2 * (g * half)
  {
    assert g + p * g == (1 + p) * g;
  }

  /** 2^k divides the geometric sum of n terms exactly when it divides n. */
  lemma {:induction false} GeometricDivides(k: nat, n: nat)
    ensures Divides(k, Geometric(n)) <==> Divides(k, n)
    decreases k
  {
    hide Geometric, Power;
    if k > 0 {
      GeometricParity(n);
      if n % 2 == 0 {
        var m := n / 2;
        GeometricDouble(m);
        var half := (1 + Power(m)) / 2;
        assert Geometric(n) / 2 == Geometric(m) * half;
        OddFactor(k - 1, Geometric(m), half);
        GeometricDivides(k - 1, m);
      }
    }
  }

  /** How far a state moves in n steps, before reduction. */
  function Offset(n: nat, s: State): int {
    Geometric(n) * ((A - 1) * s + C)
  }

  lemma {:induction false} IterateOffset(n: nat, s: State)
    ensures (Iterate(n, s) - s - Offset(n, s)) % M == 0
  {
    if n > 0 {
      IterateOffset(n - 1, s);
      var before := Iterate(n - 1, s);
      AdvanceIsLinear(before);
      OffsetStep(n, s);
      LinearStep(before, Advance(before), s, Offset(n - 1, s), Offset(n, s));
    }
  }

  lemma OffsetStep(n: nat, s: State)
    requires n > 0
    ensures Offset(n, s) == (A - 1) * s + C + A * Offset(n - 1, s)
  {
    var g, e := Geometric(n - 1), (A - 1) * s + C;
    assert (1 + A * g) * e == e + A * (g * e) by {
      Associate(A, g, e);
    }
  }

  lemma LinearStep(before: State, after: State, s: State, offset: int, next: int)
    requires (before - s - offset) % M == 0 && after == (A * before + C) % M && next == (A - 1) * s + C + A * offset
    ensures (after - s - next) % M == 0
  {
    Quotient(before - s - offset);
    Quotient(A * before + C);
    var k := A * ((before - s - offset) / M) - (A * before + C) / M;
    assert after - s - next == 0 + M * k;
    Residue(after - s - next, 0, k);
  }

  /** A state comes back after n steps exactly when n is a multiple of 2^32. */
  lemma PeriodExact(n: nat, s: State)
    ensures Iterate(n, s) == s <==> n % M == 0
  {
    hide Iterate, Offset, Divides, Pow2;
    IterateOffset(n, s);
    SameResidue(Iterate(n, s), s, Offset(n, s));
    OffsetDivides(n, s);
    PowerOfModulus();
    DividesIsModulo(32, Offset(n, s));
    DividesIsModulo(32, n);
  }

  lemma OffsetDivides(n: nat, s: State)
    ensures Divides(32, Offset(n, s)) <==> Divides(32, n)
  {
    hide Divides, Geometric;
    IncrementIsOdd(s);
    OddFactor(32, Geometric(n), (A - 1) * s + C);
    GeometricDivides(32, n);
  }

  lemma IncrementIsOdd(s: State)
    ensures ((A - 1) * s + C) % 2 == 1
  {
    ParityOf(832262 * s, C);
    assert (A - 1) * s + C == 2 * (832262 * s) + C;
  }

  lemma SameResidue(t: State, s: State, offset: int)
    requires (t - s - offset) % M == 0
    ensures t == s <==> offset % M == 0
  {
    Quotient(t - s - offset);
    Quotient(offset);
  }

  lemma PowerOfModulus()
    ensures Pow2(32) == M
  {
    assert Pow2(8) == 0x100;
    assert Pow2(16) == 0x1_0000;
    assert Pow2(24) == 0x100_0000;
  }

  lemma {:induction false} IterateSum(m: nat, n: nat, s: State)
    ensures Iterate(m + n, s) == Iterate(n, Iterate(m, s))
  {
    hide Advance;
    if n > 0 { IterateSum(m, n - 1, s); }
  }

  /** Two draws of a run are in the same state exactly when they are a multiple of 2^32 apart. */
  lemma StatesRepeat(i: nat, j: nat, s: State)
    requires i <= j
    ensures Iterate(i, s) == Iterate(j, s) <==> (j - i) % M == 0
  {
    hide Iterate;
    IterateSum(i, j - i, s);
    PeriodExact(j - i, Iterate(i, s));
  }

  // ---------------------------------------------------------------- all states

  function Below(n: nat): set<int> {
    if n == 0 then {} else Below(n - 1) + {n - 1}
  }

  lemma {:induction false} BelowMeaning(n: nat)
    ensures |Below(n)| == n && forall x :: x in Below(n) <==> 0 <= x < n
  {
    if n > 0 { BelowMeaning(n - 1); }
  }

  function Visited(n: nat, s: State): set<int> {
    if n == 0 then {} else Visited(n - 1, s) + {Iterate(n, s)}
  }

  predicate ReachedAt(i: nat, s: State, t: int) {
    Iterate(i, s) == t
  }

  lemma {:induction false} VisitedMeaning(n: nat, s: State, t: int)
    ensures t in Visited(n, s) <==> exists i :: 1 <= i <= n && ReachedAt(i, s, t)
  {
    hide Iterate;
    if n > 0 {
      VisitedMeaning(n - 1, s, t);
      assert ReachedAt(n, s, t) <==> t == Iterate(n, s);
    }
  }

  lemma {:induction false} VisitedSize(n: nat, s: State)
    requires n <= M
    ensures |Visited(n, s)| == n && Visited(n, s) <= Below(M)
  {
    hide Iterate, Below;
    BelowMeaning(M);
    if n > 0 {
      VisitedSize(n - 1, s);
      if Iterate(n, s) in Visited(n - 1, s) {
        VisitedMeaning(n - 1, s, Iterate(n, s));
        var i: nat :| 1 <= i <= n - 1 && ReachedAt(i, s, Iterate(n, s));
        StatesRepeat(i, n, s);
        assert false;
      }
    }
  }

  lemma {:induction false} SubsetOfSameSize<T>(a: set<T>, b: set<T>)
    requires a <= b && |a| == |b|
    ensures a == b
  {
    if a != {} {
      var x :| x in a;
      SubsetOfSameSize(a - {x}, b - {x});
    } else {
      assert |b| == 0;
    }
  }

  /** From any seed, 2^32 draws visit every state, and so the one for which `int` is out of range. */
  lemma EveryStateVisited(s: State, t: State) returns (i: nat)
    ensures 1 <= i <= M && Iterate(i, s) == t
    ensures forall j: nat :: 1 <= j <= M && Iterate(j, s) == t ==> j == i
  {
    hide Iterate, Below, Visited;
    VisitedSize(M, s);
    BelowMeaning(M);
    SubsetOfSameSize(Visited(M, s), Below(M));
    VisitedMeaning(M, s, t);
    assert t in Visited(M, s);
    i :| 1 <= i <= M && ReachedAt(i, s, t);
    forall j: nat | 1 <= j <= M && Iterate(j, s) == t
      ensures j == i
    {
      if j < i { StatesRepeat(j, i, s); } else { StatesRepeat(i, j, s); }
    }
  }

  /** Of every 2^32 successive draws exactly one is out of range, whatever the seed and the bounds. */
  lemma OneDrawOutOfRange(s: State, min: int, max: int) returns (i: nat)
    requires min <= max
    ensures 1 <= i <= M && IntAt(Iterate(i, s), min, max) == max + 1
    ensures forall j: nat :: 1 <= j <= M && j != i ==> min <= IntAt(Iterate(j, s), min, max) <= max
  {
    hide Iterate, IntAt;
    i := EveryStateVisited(s, LAST);
    IntInRange(LAST, min, max);
    forall j: nat | 1 <= j <= M && j != i
      ensures min <= IntAt(Iterate(j, s), min, max) <= max
    {
      IntInRange(Iterate(j, s), min, max);
    }
  }
}
