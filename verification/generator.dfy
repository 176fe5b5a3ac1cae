/** The generator's constructor: it validates the iteration count and the
    format descriptor, then derives every constant the emitted C routine
    embeds (scaling factor, quantized arctangent table, quantized gain,
    register type). The transcendental values atan(2^-i) and
    cos(atan(2^-i)) are supplied by the caller as exact reals. */
module Generator {
  import opened Results
  import opened Text
  import opened FixedPoint
  import Cordic

  /** A fully configured generator; immutable once built. */
  datatype Generator = Generator(
    n: nat,                 // iterations, also ATAN_TABLE_SIZE
    format: Format,
    scalingFactor: nat,     // FIXED_POINT_SCALING_FACTOR
    atanTable: seq<int>,    // ATAN_TABLE
    cosK1: real,            // unquantized gain-correction product
    cosK1Scaled: int,       // COS_K1
    storageWidth: nat,      // bits of the C register type
    typedefName: string)    // the C register type, e.g. "int32_t"
  {
    /** What every constructed generator satisfies. */
    predicate WellFormed()
    {
      && n >= 1
      && format.Valid()
      && scalingFactor == format.ScalingFactor()
      && |atanTable| == n
      && IsStorageWidth(storageWidth)
      && format.TotalBits() <= storageWidth
    }
  }

  /** The C type name for a register of `width` bits. */
  function TypedefName(width: nat): string
  {
    "int" + NatToString(width) + "_t"
  }

  /** The gain-correction constant: the product of the first `n` factors
      cos(atan(2^-i)), accumulated at full precision before quantization. */
  function CosK1(cosAtan: nat -> real, n: nat): real
  {
    if n == 0 then 1.0 else CosK1(cosAtan, n - 1) * cosAtan(n - 1)
  }

  /** The quantized arctangent table: entry i encodes atan(2^-i), truncated
      toward zero to a whole number of 1/scale units. Since every atan(2^-i)
      is positive, the first bounds apply and no entry is negative. */
  function AtanTable(atan: nat -> real, n: nat, scale: nat): (t: seq<int>)
    ensures |t| == n
    ensures forall i :: 0 <= i < n && 0.0 <= atan(i) ==>
              0 <= t[i] && t[i] as real <= atan(i) * scale as real < t[i] as real + 1.0
    ensures forall i :: 0 <= i < n && atan(i) < 0.0 ==>
              t[i] <= 0 && t[i] as real - 1.0 < atan(i) * scale as real <= t[i] as real
  {
    seq(n, i requires 0 <= i => Quantize(atan(i), scale))
  }

  /** `CORDICTrigGenerator(n, desc)`. An iteration count of zero or less is
      reported before the descriptor is looked at; a bad descriptor gives
      `FormatError`; otherwise every derived constant follows the format. */
  function NewGenerator(n: int, desc: string, atan: nat -> real, cosAtan: nat -> real)
    : (r: Result<Generator>)
    ensures n <= 0 ==> r == Err(InvalidIterationCount)
    ensures n > 0 ==> (r.Ok? <==> ParseFormat(desc).Ok?)
    ensures n > 0 && r.Err? ==> r.error == FormatError
    ensures r.Ok? ==> r.value.WellFormed() && r.value.n == n
    ensures r.Ok? ==> r.value.format == ParseFormat(desc).value
    ensures r.Ok? ==> r.value.scalingFactor == Pow2(r.value.format.fractionalBits)
    ensures r.Ok? ==> forall i :: 0 <= i < n ==>
                        r.value.atanTable[i] == Quantize(atan(i), r.value.scalingFactor)
    ensures r.Ok? ==> r.value.cosK1 == CosK1(cosAtan, n)
    ensures r.Ok? ==> r.value.cosK1Scaled == Quantize(CosK1(cosAtan, n), r.value.scalingFactor)
    ensures r.Ok? ==> forall w :: IsStorageWidth(w) && r.value.format.TotalBits() <= w ==>
                        r.value.storageWidth <= w
    ensures r.Ok? ==> r.value.typedefName == TypedefName(r.value.storageWidth)
  {
    if n <= 0 then Err(InvalidIterationCount)
    else
      var format :- ParseFormat(desc);
      var scale := format.ScalingFactor();
      var cosK1 := CosK1(cosAtan, n);
      var width := StorageWidth(format.TotalBits());
      Ok(Generator(n, format, scale, AtanTable(atan, n, scale), cosK1,
                   Quantize(cosK1, scale), width, TypedefName(width)))
  }

  /** With every factor in (0, 1], the gain lies in (0, 1]. */
  lemma {:induction false} CosK1Bounds(cosAtan: nat -> real, n: nat)
    requires forall i :: 0 <= i < n ==> 0.0 < cosAtan(i) <= 1.0
    ensures 0.0 < CosK1(cosAtan, n) <= 1.0
  {
    if n > 0 {
      CosK1Bounds(cosAtan, n - 1);
      var p, c := CosK1(cosAtan, n - 1), cosAtan(n - 1);
      assert CosK1(cosAtan, n) == p * c;
      assert 0.0 < p * c;
      assert p * c <= p * 1.0;
    }
  }

  /** One more iteration never increases the gain: it shrinks toward about 0.6073. */
  lemma CosK1Decreasing(cosAtan: nat -> real, n: nat)
    requires forall i :: 0 <= i <= n ==> 0.0 < cosAtan(i) <= 1.0
    ensures CosK1(cosAtan, n + 1) <= CosK1(cosAtan, n)
  {
    CosK1Bounds(cosAtan, n);
    var p, c := CosK1(cosAtan, n), cosAtan(n);
    assert p * c <= p * 1.0;
  }

  /** Distinct register widths get distinct C type names. */
  lemma TypedefNameInjective(a: nat, b: nat)
    requires TypedefName(a) == TypedefName(b)
    ensures a == b
  {
    var sa, sb := TypedefName(a), TypedefName(b);
    assert sa[3..|sa| - 2] == NatToString(a);
    assert sb[3..|sb| - 2] == NatToString(b);
    NatToStringRoundTrip(a);
    NatToStringRoundTrip(b);
  }

  /** The C type names of the three widths the examples below use. */
  lemma TypedefNameExamples()
    ensures TypedefName(16) == "int16_t"
    ensures TypedefName(32) == "int32_t"
    ensures TypedefName(64) == "int64_t"
  {
    assert NatToString(16) == "16" by {
      assert NatToString(1) == "1";
    }
    assert NatToString(32) == "32" by {
      assert NatToString(3) == "3";
    }
    assert NatToString(64) == "64" by {
      assert NatToString(6) == "6";
    }
  }

  /** The default configuration "2.30": 2 whole and 30 fractional bits in 32 bits. */
  lemma NewGeneratorDefaultExample(atan: nat -> real, cosAtan: nat -> real)
    ensures NewGenerator(16, "2.30", atan, cosAtan).Ok?
    ensures var g := NewGenerator(16, "2.30", atan, cosAtan).value;
            && g.format == Format(2, 30) && g.format.TotalBits() == 32
            && g.scalingFactor == Pow2(30)
            && g.storageWidth == 32 && g.typedefName == "int32_t"
  {
    ParseFormatExampleAccepted();
    var r := NewGenerator(16, "2.30", atan, cosAtan);
    assert r.Ok?;
    var g := r.value;
    assert g.format == Format(2, 30);
    assert g.storageWidth == 32;
    TypedefNameExamples();
  }

  /** "2.14" (16 bits) fits a 16-bit register. */
  lemma NewGeneratorInt16Example(atan: nat -> real, cosAtan: nat -> real)
    ensures NewGenerator(16, "2.14", atan, cosAtan).Ok?
    ensures NewGenerator(16, "2.14", atan, cosAtan).value.typedefName == "int16_t"
  {
    ParseFormatExampleWidth16();
    var r := NewGenerator(16, "2.14", atan, cosAtan);
    assert r.Ok? && r.value.format == Format(2, 14);
    assert r.value.storageWidth == 16;
    TypedefNameExamples();
  }

  /** "2.56" (58 bits) needs a 64-bit register. */
  lemma NewGeneratorInt64Example(atan: nat -> real, cosAtan: nat -> real)
    ensures NewGenerator(16, "2.56", atan, cosAtan).Ok?
    ensures NewGenerator(16, "2.56", atan, cosAtan).value.typedefName == "int64_t"
  {
    ParseFormatExampleWidth64();
    var r := NewGenerator(16, "2.56", atan, cosAtan);
    assert r.Ok? && r.value.format == Format(2, 56);
    assert r.value.storageWidth == 64;
    TypedefNameExamples();
  }

  /** Zero and negative iteration counts are refused. */
  lemma NewGeneratorIterationExamples(atan: nat -> real, cosAtan: nat -> real)
    ensures NewGenerator(0, "2.30", atan, cosAtan) == Err(InvalidIterationCount)
    ensures NewGenerator(-1, "2.30", atan, cosAtan) == Err(InvalidIterationCount)
  {
  }

  /** Entry i of `d` is the whole part of atan(i) * scale: the bounds a
      truncated table entry meets when the arctangent is non-negative. */
  predicate Brackets(atan: nat -> real, scale: nat, d: seq<int>)
  {
    forall i :: 0 <= i < |d| ==> d[i] as real <= atan(i) * scale as real < d[i] as real + 1.0
  }

  /** A quantized table is determined by the truncation bounds: the
      non-negative integers that bracket each scaled arctangent are it. */
  lemma QuantizedTableFromBounds(atan: nat -> real, scale: nat, t: seq<int>, d: seq<int>)
    requires |t| == |d|
    requires forall i :: 0 <= i < |t| ==> t[i] == Quantize(atan(i), scale)
    requires forall i :: 0 <= i < |d| ==> 0 <= d[i]
    requires Brackets(atan, scale, d)
    ensures t == d
  {
    forall i | 0 <= i < |t|
      ensures t[i] == d[i]
    {
      TruncUnique(atan(i) * scale as real, d[i]);
    }
  }

  /** The table built for 16 iterations at 2^30 units per radian is
      `Cordic.DefaultTable` when each supplied arctangent, scaled by 2^30,
      truncates to the listed entry. */
  lemma DefaultTableGenerated(atan: nat -> real)
    requires Brackets(atan, Pow2(30), Cordic.DefaultTable)
    ensures AtanTable(atan, 16, Pow2(30)) == Cordic.DefaultTable
  {
    Cordic.DefaultTableNonNegative();
    var t := AtanTable(atan, 16, Pow2(30));
    assert forall i :: 0 <= i < |t| ==> t[i] == Quantize(atan(i), Pow2(30));
    QuantizedTableFromBounds(atan, Pow2(30), t, Cordic.DefaultTable);
  }

  /** A built generator's table is `AtanTable` at its own scaling factor,
      so facts about `AtanTable` carry over to the constructor's output. */
  lemma NewGeneratorTable(n: int, desc: string, atan: nat -> real, cosAtan: nat -> real)
    ensures var r := NewGenerator(n, desc, atan, cosAtan);
            r.Ok? ==> r.value.atanTable == AtanTable(atan, n, r.value.scalingFactor)
  {
  }

  /** The generator built for (16, "2.30") carries `Cordic.DefaultTable`
      under the same assumption on the supplied arctangents, so the
      convergence facts proved about that table hold of its output. */
  lemma DefaultGeneratorTable(atan: nat -> real, cosAtan: nat -> real)
    requires Brackets(atan, Pow2(30), Cordic.DefaultTable)
    ensures NewGenerator(16, "2.30", atan, cosAtan).Ok?
    ensures NewGenerator(16, "2.30", atan, cosAtan).value.atanTable == Cordic.DefaultTable
  {
    NewGeneratorDefaultExample(atan, cosAtan);
    NewGeneratorTable(16, "2.30", atan, cosAtan);
    DefaultTableGenerated(atan);
  }
}
