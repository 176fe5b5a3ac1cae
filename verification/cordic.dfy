/** The integer-only rotation routine the generator emits as C text:
    starting from (COS_K1, 0, z0) it performs one pseudo-rotation per table
    entry, steering the residual angle z toward zero with additions,
    subtractions and arithmetic right shifts. Registers are modelled as
    unbounded integers; `FitsSigned` states when a value would fit the C type. */
module Cordic {
  import opened Results
  import opened FixedPoint

  /** The three registers of one call: the vector (x, y) and the residual angle z. */
  datatype State = State(x: int, y: int, z: int)

  function IntAbs(v: int): nat
  {
    if v < 0 then -v else v
  }

  /** `v >> i` on a signed register: an arithmetic shift (see `AsrFloor`). */
  function Asr(v: int, i: nat): int
  {
    v / Pow2(i)
  }

  /** The shift divides by 2^i and rounds toward negative infinity. */
  lemma AsrFloor(v: int, i: nat)
    ensures Asr(v, i) * Pow2(i) <= v < Asr(v, i) * Pow2(i) + Pow2(i)
  {
  }

  /** Only one integer lies in the window the floor bounds describe. */
  lemma AsrUnique(v: int, i: nat, q: int)
    requires q * Pow2(i) <= v < q * Pow2(i) + Pow2(i)
    ensures q == Asr(v, i)
  {
    var p, r := Pow2(i), Asr(v, i);
    AsrFloor(v, i);
    if q < r {
      WindowsDisjoint(q, r, p);
    } else if r < q {
      WindowsDisjoint(r, q, p);
    }
  }

  /** Multiples of a positive p at least one step apart are at least p apart. */
  lemma WindowsDisjoint(a: int, b: int, p: int)
    requires a < b && p > 0
    ensures a * p + p <= b * p
  {
    assert (b - a - 1) * p >= 0;
    assert (b - a - 1) * p == b * p - a * p - p;
  }

  /** Shifting by i + 1 is shifting by i and then by one more bit. */
  lemma AsrSucc(v: int, i: nat)
    ensures Asr(v, i + 1) == Asr(Asr(v, i), 1)
  {
    var p, a := Pow2(i), Asr(v, i);
    var b := Asr(a, 1);
    AsrFloor(v, i);
    AsrFloor(a, 1);
    assert Pow2(1) == 2;
    assert Pow2(i + 1) == 2 * p;
    MulMonotone(b * 2, a, p);
    MulMonotone(a, b * 2 + 1, p);
    assert (b * 2) * p == b * (2 * p);
    assert (b * 2 + 1) * p + p == b * (2 * p) + 2 * p;
    AsrUnique(v, i + 1, b);
  }

  /** Multiplying by a positive factor preserves order. */
  lemma MulMonotone(x: int, y: int, p: int)
    requires x <= y && p > 0
    ensures x * p <= y * p
  {
    assert (y - x) * p >= 0;
    assert (y - x) * p == y * p - x * p;
  }

  /** The shift keeps the sign: the result is negative exactly when the operand is. */
  lemma AsrSign(v: int, i: nat)
    ensures Asr(v, i) < 0 <==> v < 0
  {
    var p, r := Pow2(i), Asr(v, i);
    AsrFloor(v, i);
    if r < 0 {
      WindowsDisjoint(r, 0, p);
      assert 0 * p == 0;
    } else {
      assert r * p >= 0;
    }
  }

  /** -1 >> i stays -1 for every i, where truncating division would give 0
      from i = 1 on: the shift is not C's `/`. */
  lemma AsrMinusOne(i: nat)
    ensures Asr(-1, i) == -1
  {
    AsrUnique(-1, i, -1);
  }

  /** The rotation direction d_i: +1 when the residual is zero or positive, -1 otherwise. */
  function Direction(z: int): (d: int)
    ensures d == 1 || d == -1
    ensures d == 1 <==> z >= 0
  {
    if z >= 0 then 1 else -1
  }

  /** Pseudo-rotation i with table entry t. Both new vector components are
      computed from the registers as they were before the step. */
  function Step(s: State, i: nat, t: int): (r: State)
    ensures r.x == s.x - Direction(s.z) * Asr(s.y, i)
    ensures r.y == s.y + Direction(s.z) * Asr(s.x, i)
    ensures r.z == s.z - Direction(s.z) * t
  {
    if s.z >= 0 then
      State(s.x - Asr(s.y, i), s.y + Asr(s.x, i), s.z - t)
    else
      State(s.x + Asr(s.y, i), s.y - Asr(s.x, i), s.z + t)
  }

  /** The state after the first `k` pseudo-rotations from (gain, 0, z0). */
  function Run(table: seq<int>, gain: int, z0: int, k: nat): State
    requires k <= |table|
    decreases k
  {
    if k == 0 then State(gain, 0, z0)
    else Step(Run(table, gain, z0, k - 1), k - 1, table[k - 1])
  }

  /** The terminal state: one pseudo-rotation per table entry. */
  function Rotate(table: seq<int>, gain: int, z0: int): State
  {
    Run(table, gain, z0, |table|)
  }

  /** The directions d_0 .. d_{k-1} chosen by the first `k` steps. */
  function Directions(table: seq<int>, gain: int, z0: int, k: nat): (d: seq<int>)
    requires k <= |table|
    ensures |d| == k
    decreases k
  {
    if k == 0 then []
    else Directions(table, gain, z0, k - 1) + [Direction(Run(table, gain, z0, k - 1).z)]
  }

  /** Entry i of the recorded directions is the one step i chose from its residual. */
  lemma {:induction false} DirectionsRecordSteps(table: seq<int>, gain: int, z0: int, k: nat, i: nat)
    requires i < k <= |table|
    ensures Directions(table, gain, z0, k)[i] == Direction(Run(table, gain, z0, i).z)
    decreases k
  {
    if i < k - 1 {
      DirectionsRecordSteps(table, gain, z0, k - 1, i);
    }
  }

  /** Sum of d[i] * t[i] over the indices of `d`. */
  function WeightedSum(d: seq<int>, t: seq<int>): int
    requires |d| <= |t|
    decreases |d|
  {
    if |d| == 0 then 0
    else WeightedSum(d[..|d| - 1], t) + d[|d| - 1] * t[|d| - 1]
  }

  /** The residual after k steps is the input angle minus the signed sum
      of the table entries applied so far. */
  lemma {:induction false} ResidualInvariant(table: seq<int>, gain: int, z0: int, k: nat)
    requires k <= |table|
    ensures Run(table, gain, z0, k).z == z0 - WeightedSum(Directions(table, gain, z0, k), table)
    decreases k
  {
    if k > 0 {
      ResidualInvariant(table, gain, z0, k - 1);
      var before := Directions(table, gain, z0, k - 1);
      var dk := Direction(Run(table, gain, z0, k - 1).z);
      assert (before + [dk])[..k - 1] == before;
      assert WeightedSum(before + [dk], table) == WeightedSum(before, table) + dk * table[k - 1];
    }
  }

  /** The final residual: z_N = z0 - sum over i of d_i * table[i]. */
  lemma FinalResidual(table: seq<int>, gain: int, z0: int)
    ensures Rotate(table, gain, z0).z == z0 - WeightedSum(Directions(table, gain, z0, |table|), table)
  {
    ResidualInvariant(table, gain, z0, |table|);
  }

  /** Sum of the table entries from index k on. */
  function Tail(t: seq<int>, k: nat): int
    requires k <= |t|
    decreases |t| - k
  {
    if k == |t| then 0 else t[k] + Tail(t, k + 1)
  }

  /** The table shape that makes the residual converge: entries are
      non-negative and none exceeds the sum of the later ones by more than
      `slack`. Truncated tables need a slack of a few units beyond the last
      entry, since every entry may have lost up to one unit. */
  predicate ConvergentTable(t: seq<int>, slack: nat)
  {
    && (forall i :: 0 <= i < |t| ==> 0 <= t[i])
    && (forall i :: 0 <= i < |t| ==> t[i] <= Tail(t, i + 1) + slack)
  }

  /** While the input angle lies in the table's convergence domain, the
      residual after k steps is bounded by the entries still to come plus
      the slack. */
  lemma {:induction false} ResidualBounded(table: seq<int>, slack: nat, gain: int, z0: int, k: nat)
    requires ConvergentTable(table, slack)
    requires IntAbs(z0) <= Tail(table, 0) + slack
    requires k <= |table|
    ensures IntAbs(Run(table, gain, z0, k).z) <= Tail(table, k) + slack
    decreases k
  {
    if k > 0 {
      ResidualBounded(table, slack, gain, z0, k - 1);
      assert Tail(table, k - 1) == table[k - 1] + Tail(table, k);
    }
  }

  /** After all N steps the residual angle is at most the slack. */
  lemma RotateConverges(table: seq<int>, slack: nat, gain: int, z0: int)
    requires ConvergentTable(table, slack)
    requires IntAbs(z0) <= Tail(table, 0) + slack
    ensures IntAbs(Rotate(table, gain, z0).z) <= slack
  {
    ResidualBounded(table, slack, gain, z0, |table|);
  }

  /** Within the convergence domain, if the domain bound itself fits a
      register of `width` bits then so does every intermediate residual. */
  lemma ResidualFits(table: seq<int>, slack: nat, gain: int, z0: int, k: nat, width: nat)
    requires ConvergentTable(table, slack)
    requires IntAbs(z0) <= Tail(table, 0) + slack
    requires k <= |table| && width >= 1
    requires FitsSigned(Tail(table, 0) + slack, width)
    ensures FitsSigned(Run(table, gain, z0, k).z, width)
  {
    ResidualBounded(table, slack, gain, z0, k);
    TailMonotone(table, 0, k);
  }

  /** The arctangent table the generator emits for 16 iterations in format
      "2.30": entry i is int(atan(2^-i) * 2^30) as evaluated in double precision. */
  const DefaultTable: seq<int> := [
      843314856, 497837829, 263043836, 133525158,
      67021686, 33543515, 16775850, 8388437,
      4194282, 2097149, 1048575, 524287,
      262143, 131071, 65535, 32767]

  /** The default table has sixteen non-negative entries. */
  lemma DefaultTableNonNegative()
    ensures |DefaultTable| == 16
    ensures forall i :: 0 <= i < |DefaultTable| ==> 0 <= DefaultTable[i]
  {
  }

  /** The partial sums of the default table, from each index to the end. */
  lemma DefaultTableTails()
    ensures Tail(DefaultTable, 0) == 1871806976
    ensures Tail(DefaultTable, 1) == 1028492120
    ensures Tail(DefaultTable, 2) == 530654291
    ensures Tail(DefaultTable, 3) == 267610455
    ensures Tail(DefaultTable, 4) == 134085297
    ensures Tail(DefaultTable, 5) == 67063611
    ensures Tail(DefaultTable, 6) == 33520096
    ensures Tail(DefaultTable, 7) == 16744246
    ensures Tail(DefaultTable, 8) == 8355809
    ensures Tail(DefaultTable, 9) == 4161527
    ensures Tail(DefaultTable, 10) == 2064378
    ensures Tail(DefaultTable, 11) == 1015803
    ensures Tail(DefaultTable, 12) == 491516
    ensures Tail(DefaultTable, 13) == 229373
    ensures Tail(DefaultTable, 14) == 98302
    ensures Tail(DefaultTable, 15) == 32767
    ensures Tail(DefaultTable, 16) == 0
  {
    var t := DefaultTable;
    assert Tail(t, 16) == 0;
    assert Tail(t, 15) == 32767;
    assert Tail(t, 14) == 98302;
    assert Tail(t, 13) == 229373;
    assert Tail(t, 12) == 491516;
    assert Tail(t, 11) == 1015803;
    assert Tail(t, 10) == 2064378;
    assert Tail(t, 9) == 4161527;
    assert Tail(t, 8) == 8355809;
    assert Tail(t, 7) == 16744246;
    assert Tail(t, 6) == 33520096;
    assert Tail(t, 5) == 67063611;
    assert Tail(t, 4) == 134085297;
    assert Tail(t, 3) == 267610455;
    assert Tail(t, 2) == 530654291;
    assert Tail(t, 1) == 1028492120;
    assert Tail(t, 0) == 1871806976;
  }

  /** The default table has the convergent shape with a slack of 32772
      (its last entry plus 5), and its whole convergence domain, about
      1.74 * 2^30, fits the 32-bit register the format selects. */
  lemma DefaultTableConverges()
    ensures ConvergentTable(DefaultTable, 32772)
    ensures Tail(DefaultTable, 0) + 32772 == 1871839748
    ensures FitsSigned(Tail(DefaultTable, 0) + 32772, 32)
  {
    DefaultTableShapeLow();
    DefaultTableShapeHigh();
    DefaultTableTails();
    Pow2Values();
  }

  /** The shape condition at indices 0 to 7 of the default table. */
  lemma DefaultTableShapeLow()
    ensures forall i :: 0 <= i < 8 ==> 0 <= DefaultTable[i] <= Tail(DefaultTable, i + 1) + 32772
  {
    DefaultTableTails();
  }

  /** The shape condition at indices 8 to 15 of the default table. */
  lemma DefaultTableShapeHigh()
    ensures forall i :: 8 <= i < 16 ==> 0 <= DefaultTable[i] <= Tail(DefaultTable, i + 1) + 32772
  {
    DefaultTableTails();
  }

  /** For the default table: any angle within the domain leaves a final
      residual of at most 32772 units (about 3.1e-5 rad), and no residual
      along the way leaves the 32-bit register. */
  lemma DefaultResidualBound(gain: int, z0: int, k: nat)
    requires IntAbs(z0) <= 1871839748
    requires k <= |DefaultTable|
    ensures IntAbs(Rotate(DefaultTable, gain, z0).z) <= 32772
    ensures FitsSigned(Run(DefaultTable, gain, z0, k).z, 32)
  {
    DefaultTableConverges();
    RotateConverges(DefaultTable, 32772, gain, z0);
    ResidualFits(DefaultTable, 32772, gain, z0, k, 32);
  }

  /** Sums over shorter tails of a non-negative table are no larger. */
  lemma {:induction false} TailMonotone(t: seq<int>, j: nat, k: nat)
    requires j <= k <= |t|
    requires forall i :: 0 <= i < |t| ==> 0 <= t[i]
    ensures Tail(t, k) <= Tail(t, j)
    decreases k - j
  {
    if j < k {
      TailMonotone(t, j + 1, k);
    }
  }

  /** `get_sin_cos` on an already quantized angle: the loop of the emitted C
      routine. Each output slot is filled only when requested, and whether
      one is requested does not affect the other. */
  method GetSinCos(table: seq<int>, gain: int, z0: int, wantSin: bool, wantCos: bool)
    returns (sinVal: Option<int>, cosVal: Option<int>)
    ensures wantSin ==> sinVal == Some(Rotate(table, gain, z0).y)
    ensures !wantSin ==> sinVal == None
    ensures wantCos ==> cosVal == Some(Rotate(table, gain, z0).x)
    ensures !wantCos ==> cosVal == None
  {
    var x, y, z := gain, 0, z0;
    var i: nat := 0;
    while i < |table|
      invariant i <= |table|
      invariant State(x, y, z) == Run(table, gain, z0, i)
    {
      var xNew, yNew := x, y;
      if z >= 0 {
        xNew := x - Asr(y, i);
        yNew := y + Asr(x, i);
        z := z - table[i];
      } else {
        xNew := x + Asr(y, i);
        yNew := y - Asr(x, i);
        z := z + table[i];
      }
      x, y := xNew, yNew;
      i := i + 1;
    }
    sinVal := if wantSin then Some(y) else None;
    cosVal := if wantCos then Some(x) else None;
  }
}
