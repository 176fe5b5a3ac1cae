/** The fixed-point format "W.F" of the generator: W whole bits and F
    fractional bits, the scaling factor 2^F, the C register width chosen to
    hold W + F bits, and the truncating quantization of real constants. */
module FixedPoint {
  import opened Results
  import opened Text

  /** The largest total bit count a format may request. */
  const MaxTotalBits: nat := 64

  /** A parsed format. Only `Valid` formats are ever produced by `ParseFormat`. */
  datatype Format = Format(wholeBits: nat, fractionalBits: nat) {

    function TotalBits(): nat
    {
      wholeBits + fractionalBits
    }

    predicate Valid()
    {
      TotalBits() <= MaxTotalBits
    }

    /** The integer that represents 1.0 in this format. */
    function ScalingFactor(): (s: nat)
      ensures s >= 1
    {
      Pow2(fractionalBits)
    }
  }

  /** 2^n. */
  function Pow2(n: nat): (p: nat)
    ensures p >= 1
  {
    if n == 0 then 1 else 2 * Pow2(n - 1)
  }

  /** Powers of two multiply by adding exponents. */
  lemma {:induction false} Pow2Add(a: nat, b: nat)
    ensures Pow2(a + b) == Pow2(a) * Pow2(b)
    decreases a
  {
    if a > 0 {
      Pow2Add(a - 1, b);
      assert Pow2(a + b) == 2 * Pow2(a - 1 + b);
    }
  }

  /** The scaling factor of a 30-bit fraction and the bound of a signed 32-bit register. */
  lemma Pow2Values()
    ensures Pow2(30) == 1073741824
    ensures Pow2(31) == 2147483648
  {
    assert Pow2(2) == 4;
    assert Pow2(3) == 8;
    Pow2Add(3, 3);
    Pow2Add(6, 6);
    Pow2Add(12, 12);
    Pow2Add(24, 6);
    Pow2Add(30, 1);
  }

  /** Parses a descriptor such as "2.30". It is accepted exactly when it is
      two integer literals separated by one `.`, both values are
      non-negative and they sum to at most 64 bits; every other descriptor
      yields `FormatError`. */
  function ParseFormat(desc: string): (r: Result<Format>)
    ensures r.Err? ==> r.error == FormatError
    ensures r.Ok? ==> r.value.Valid()
    ensures r.Ok? ==> Count(desc, '.') == 1
    ensures r.Ok? ==>
              exists k :: 0 <= k < |desc| && desc[k] == '.'
                           && ParseInt(desc[..k]) == Some(r.value.wholeBits as int)
                           && ParseInt(desc[k + 1..]) == Some(r.value.fractionalBits as int)
  {
    var parts := Split(desc, '.');
    if |parts| != 2 then Err(FormatError)
    else
      match (ParseInt(parts[0]), ParseInt(parts[1]))
      case (Some(w), Some(f)) =>
        if w + f > MaxTotalBits then Err(FormatError)
        else if w < 0 || f < 0 then Err(FormatError)
        else
          var k := |parts[0]|;
          assert parts[1..] == [parts[1]];
          assert Join(parts[1..], '.') == parts[1];
          assert desc == parts[0] + "." + parts[1];
          assert desc[k] == '.' && desc[..k] == parts[0] && desc[k + 1..] == parts[1];
          Ok(Format(w, f))
      case _ => Err(FormatError)
  }

  /** The canonical descriptor of a format, e.g. "2.30". */
  function FormatToString(f: Format): string
  {
    NatToString(f.wholeBits) + "." + NatToString(f.fractionalBits)
  }

  /** Every pair of integer literals around one `.` whose values form a valid
      format is accepted, with exactly those values. */
  lemma ParseFormatAccepts(a: string, b: string)
    requires IsIntLiteral(a) && IsIntLiteral(b)
    requires 0 <= ParseInt(a).value && 0 <= ParseInt(b).value
    requires ParseInt(a).value + ParseInt(b).value <= MaxTotalBits
    ensures ParseFormat(a + "." + b) == Ok(Format(ParseInt(a).value, ParseInt(b).value))
  {
    assert '.' !in a && '.' !in b;
    assert Join([a, b], '.') == a + "." + b;
    SplitJoin([a, b], '.');
  }

  /** Descriptors whose literals are fine but whose values are negative or
      exceed 64 bits in total are rejected. */
  lemma ParseFormatRejectsRange(a: string, b: string)
    requires IsIntLiteral(a) && IsIntLiteral(b)
    requires ParseInt(a).value < 0 || ParseInt(b).value < 0
             || ParseInt(a).value + ParseInt(b).value > MaxTotalBits
    ensures ParseFormat(a + "." + b) == Err(FormatError)
  {
    assert '.' !in a && '.' !in b;
    assert Join([a, b], '.') == a + "." + b;
    SplitJoin([a, b], '.');
  }

  /** Parsing the canonical descriptor of a valid format gives the format back. */
  lemma FormatRoundTrip(f: Format)
    requires f.Valid()
    ensures ParseFormat(FormatToString(f)) == Ok(f)
  {
    IntToStringRoundTrip(f.wholeBits);
    IntToStringRoundTrip(f.fractionalBits);
    ParseFormatAccepts(NatToString(f.wholeBits), NatToString(f.fractionalBits));
  }

  /** The register widths the generated C code may use (`int8_t` ... `int64_t`). */
  predicate IsStorageWidth(w: nat)
  {
    w == 8 || w == 16 || w == 32 || w == 64
  }

  /** The register width for a format of `totalBits` bits: the smallest
      storage width that holds them (64 for anything wider than 32). */
  function StorageWidth(totalBits: int): (w: nat)
    ensures IsStorageWidth(w)
    ensures totalBits <= MaxTotalBits ==> totalBits <= w
    ensures forall c :: IsStorageWidth(c) && totalBits <= c ==> w <= c
    ensures totalBits > 32 ==> w == 64
  {
    if totalBits <= 8 then 8
    else if totalBits <= 16 then 16
    else if totalBits <= 32 then 32
    else 64
  }

  /** A wider format never gets a narrower register. */
  lemma StorageWidthMonotone(a: int, b: int)
    requires a <= b
    ensures StorageWidth(a) <= StorageWidth(b)
  {
  }

  /** Whether `v` is representable in a two's-complement register of `width` bits. */
  predicate FitsSigned(v: int, width: nat)
    requires width >= 1
  {
    -(Pow2(width - 1) as int) <= v < Pow2(width - 1)
  }

  function Abs(x: real): real
  {
    if x < 0.0 then -x else x
  }

  /** Truncation toward zero, as Python's `int()` applies it to a float: the
      integer of the same sign whose magnitude is the whole part of |x|. */
  function Trunc(x: real): (r: int)
    ensures 0.0 <= x ==> 0 <= r && r as real <= x < r as real + 1.0
    ensures x < 0.0 ==> r <= 0 && r as real - 1.0 < x <= r as real
  {
    if x >= 0.0 then x.Floor else -((-x).Floor)
  }

  /** The two bounds of `Trunc` pin the result down: no other integer meets them. */
  lemma TruncUnique(x: real, k: int)
    requires 0.0 <= x ==> 0 <= k && k as real <= x < k as real + 1.0
    requires x < 0.0 ==> k <= 0 && k as real - 1.0 < x <= k as real
    ensures k == Trunc(x)
  {
  }

  /** Unlike the floor, truncation is symmetric about zero. */
  lemma TruncOdd(x: real)
    ensures Trunc(-x) == -Trunc(x)
  {
    if x < 0.0 {
      TruncUnique(-x, -Trunc(x));
    } else if x > 0.0 {
      TruncUnique(-x, -Trunc(x));
    }
  }

  /** `int(value * scale)`: the fixed-point encoding of a real constant,
      truncated toward zero rather than rounded. */
  function Quantize(value: real, scale: nat): (q: int)
    ensures Abs(q as real) <= Abs(value * scale as real) < Abs(q as real) + 1.0
    ensures 0.0 <= value ==> 0 <= q
    ensures value <= 0.0 ==> q <= 0
  {
    Trunc(value * scale as real)
  }

  /** A constant that is already a multiple of 1/scale is encoded exactly. */
  lemma QuantizeExact(value: real, scale: nat, k: int)
    requires value * scale as real == k as real
    ensures Quantize(value, scale) == k
  {
    TruncUnique(k as real, k);
  }

  /** The descriptor "2.30" is two whole bits and thirty fractional bits. */
  lemma ParseFormatExampleAccepted()
    ensures ParseFormat("2.30") == Ok(Format(2, 30))
  {
    assert "2.30" == "2" + "." + "30";
    assert "30"[..1] == "3" && "3"[..0] == "";
    assert DigitsValue("30") == 30;
    ParseFormatAccepts("2", "30");
  }

  /** "2.14": 16 bits in total. */
  lemma ParseFormatExampleWidth16()
    ensures ParseFormat("2.14") == Ok(Format(2, 14))
  {
    assert "2.14" == "2" + "." + "14";
    assert "14"[..1] == "1" && "1"[..0] == "";
    assert DigitsValue("14") == 14;
    ParseFormatAccepts("2", "14");
  }

  /** "2.56": 58 bits in total. */
  lemma ParseFormatExampleWidth64()
    ensures ParseFormat("2.56") == Ok(Format(2, 56))
  {
    assert "2.56" == "2" + "." + "56";
    assert "56"[..1] == "5" && "5"[..0] == "";
    assert DigitsValue("56") == 56;
    ParseFormatAccepts("2", "56");
  }

  /** Like `int()`, the parser takes a `+` sign and leading zeros. */
  lemma ParseFormatExamplePlusAndZeros()
    ensures ParseFormat("+2.030") == Ok(Format(2, 30))
  {
    assert NatToString(30) == "30" by {
      assert NatToString(3) == "3";
    }
    assert "+2" == "+" + Zeros(0) + NatToString(2);
    ParseIntValue("+", 0, 2);
    assert "030" == "" + Zeros(1) + NatToString(30);
    ParseIntValue("", 1, 30);
    assert "+2.030" == "+2" + "." + "030";
    ParseFormatAccepts("+2", "030");
  }

  /** Like `int()`, the parser reads "-0" as zero, which is not negative. */
  lemma ParseFormatExampleNegativeZero()
    ensures ParseFormat("-0.30") == Ok(Format(0, 30))
  {
    assert "-0" == "-" + Zeros(0) + NatToString(0);
    ParseIntValue("-", 0, 0);
    ParseFormatExampleAccepted();
    assert "-0.30" == "-0" + "." + "30";
    assert "30"[..1] == "3" && "3"[..0] == "";
    assert DigitsValue("30") == 30;
    ParseFormatAccepts("-0", "30");
  }

  /** A descriptor with two separators is malformed. */
  lemma ParseFormatExampleTooManyParts()
    ensures ParseFormat("2.30.1") == Err(FormatError)
  {
    assert "2.30.1" == Join(["2", "30", "1"], '.');
    SplitJoin(["2", "30", "1"], '.');
  }

  /** 65 + 0 bits exceeds the 64-bit cap. */
  lemma ParseFormatExampleTooWide()
    ensures ParseFormat("65.0") == Err(FormatError)
  {
    assert "65.0" == "65" + "." + "0";
    assert "65"[..1] == "6" && "6"[..0] == "";
    assert DigitsValue("65") == 65;
    ParseFormatRejectsRange("65", "0");
  }

  /** Negative whole or fractional bit counts are rejected. */
  lemma ParseFormatExampleNegative()
    ensures ParseFormat("-2.30") == Err(FormatError)
    ensures ParseFormat("2.-30") == Err(FormatError)
  {
    assert "-2.30" == "-2" + "." + "30";
    assert "-2"[1..] == "2";
    ParseFormatRejectsRange("-2", "30");

    assert "2.-30" == "2" + "." + "-30";
    assert "-30"[1..] == "30";
    ParseFormatRejectsRange("2", "-30");
  }

  /** The register-width table at its boundaries. */
  lemma StorageWidthExamples()
    ensures StorageWidth(8) == 8 && StorageWidth(16) == 16 && StorageWidth(17) == 32
    ensures StorageWidth(32) == 32 && StorageWidth(33) == 64 && StorageWidth(64) == 64
  {
  }
}
