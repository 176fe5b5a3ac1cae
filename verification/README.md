# CORDIC sine/cosine generator — Dafny model

This project models the core of `cordic-trig-generator`: a Python class that
configures a fixed-point CORDIC sine/cosine routine and emits it as C code.
Two pieces of integer logic are modelled and proved about.

- **Configuration front-end** (`CORDICTrigGenerator.__init__` and
  `parse_fixed_point_format`). It checks the iteration count and parses the
  `"W.F"` descriptor with `str.split('.')` followed by `int()`, where `int()`
  is restricted to an optional sign and ASCII digits (see "## Left out").
  It then derives the scaling factor `2^F` and picks the smallest C register
  type in {8,16,32,64} bits. Finally it quantizes real constants by
  truncation toward zero (`int(v * S)`).
- **Rotation engine** (the emitted `get_sin_cos` loop). It starts from
  `(COS_K1, 0, z0)` and runs one pseudo-rotation per arctangent-table entry.
  Each step picks its direction from the sign of `z`, with zero counting as
  positive. It updates `x` and `y` simultaneously with arithmetic right
  shifts, which are floor divisions by `2^i`, and it adds or subtracts
  `ATAN_TABLE[i]` from `z`.

Files and modules:

| file | module | contents |
|---|---|---|
| `results.dfy` | `Results` | `Option`, `ConfigError` (`InvalidIterationCount`, `FormatError`), `Result` |
| `text.dfy` | `Text` | `Split`/`Join` (`str.split`), `ParseInt` (`int()`), `NatToString`/`IntToString`, `Zeros` |
| `fixed_point.dfy` | `FixedPoint` | `Format`, `ParseFormat`, `StorageWidth`, `Pow2`, `Trunc`, `Quantize` |
| `generator.dfy` | `Generator` | the `Generator` record, `NewGenerator` (the constructor), `CosK1`, `AtanTable` |
| `cordic.dfy` | `Cordic` | `Asr` (`>>`), `Step`, `Run`/`Rotate`, residual lemmas, `DefaultTable`, `GetSinCos` |

The transcendental values `atan(2^-i)` and `cos(atan(2^-i))` are parameters
of type `nat -> real`, and the model computes with them as exact reals. The
rotation engine takes the quantized table and gain as plain integers, and the
quantized input angle `z0` as an integer. A constructed generator satisfies
`WellFormed`, which includes `|atanTable| == n`. So running the engine over
`atanTable` performs exactly `ATAN_TABLE_SIZE = n` iterations.

Points where the code's behaviour is easy to misread:

- The command-line help (`cordic_trig_generator.py:158`) presents a descriptor
  as two plain numbers such as `2.30`. Each part goes through `int()`, though,
  so a leading `+`, leading zeros and `-0` are accepted as well (`"+2.030"`
  and `"-0.30"` are valid). The model accepts them too.
- The iteration count is checked before the descriptor is parsed. For `n <= 0`
  with a malformed descriptor, the model therefore reports
  `InvalidIterationCount`.
- `python_source/tests/test_generator.py:62-70` reads an attribute the
  constructor never sets (`fixed_point_typedef` instead of
  `_fixed_point_typedef`). `NewGeneratorDefaultExample`,
  `NewGeneratorInt16Example` and `NewGeneratorInt64Example` state the type
  names that test expects (`test_generator.py:64-70`). They read them from
  `typedefName`, the model's counterpart of `_fixed_point_typedef`.

## Model

| member | source | states |
|---|---|---|
| Generator.NewGenerator | python_source/cordic_trig_generator.py:7-34 | A count `n <= 0` gives `InvalidIterationCount`. For `n > 0`, the result is built exactly when the descriptor parses; otherwise it is `FormatError`. A built generator has `n >= 1`, a valid format and scaling factor `2^F`. Its table has `n` entries, entry i being `Quantize(atan(i))`. Its unquantized gain `cosK1` is the full-precision product of the factors, and its quantized gain is that product quantized, and its register is the smallest allowed width holding `W+F` bits, named `int<w>_t`. |
| Generator.CosK1 | python_source/cordic_trig_generator.py:36-40 | The exact product of the supplied factors `cos(atan(2^-i))` for `i < n`, in loop order starting from 1. It has no contract of its own: `CosK1Bounds` and `CosK1Decreasing` state its range and its monotonicity in `n`. |
| Generator.AtanTable | python_source/cordic_trig_generator.py:17-20 | The table has one entry per iteration. Entry i is `atan(2^-i)*S` with the fraction cut off toward zero: for a non-negative arctangent, `0 <= t[i] <= atan(i)*S < t[i]+1`; for a negative one, the mirror-image bounds. |
| Generator.QuantizedTableFromBounds | python_source/cordic_trig_generator.py:17-20 | Any table of non-negative integers that bracket each scaled arctangent (`d[i] <= atan(i)*S < d[i]+1`) is exactly the quantized table, so the truncation bounds determine the table. |
| Generator.NewGeneratorTable | python_source/cordic_trig_generator.py:17-20 | A built generator's table is `AtanTable` over its `n` iterations at its own scaling factor. |
| Generator.DefaultTableGenerated | python_source/cordic_trig_generator.py:17-20 | With arctangents whose scaled values truncate to the listed entries, the 16-entry table at `2^30` is `Cordic.DefaultTable`. |
| Generator.DefaultGeneratorTable | python_source/cordic_trig_generator.py:7-34 | Under the same assumption, `(16, "2.30")` builds a generator whose table is `Cordic.DefaultTable`, so `DefaultResidualBound` speaks about the generator's own output. |
| Generator.CosK1Bounds | python_source/cordic_trig_generator.py:36-40 | With every factor in (0,1], the gain product lies in (0,1]. |
| Generator.CosK1Decreasing | python_source/cordic_trig_generator.py:36-40 | One more iteration never increases the gain product. |
| Generator.TypedefName | python_source/cordic_trig_generator.py:34 | The C type name `int<w>_t` of a `w`-bit register. It has no contract of its own: `TypedefNameExamples` pins the names for 16, 32 and 64 bits, and `TypedefNameInjective` shows distinct widths get distinct names. |
| Generator.TypedefNameInjective | python_source/cordic_trig_generator.py:34 | Two widths with the same type name are equal, so the name identifies the register width. |
| Generator.TypedefNameExamples | python_source/cordic_trig_generator.py:34 | The names for 16, 32 and 64 bits are `int16_t`, `int32_t` and `int64_t`. |
| Generator.NewGeneratorDefaultExample | python_source/tests/test_generator.py:14-19 | `(16, "2.30")` yields W=2, F=30, 32 total bits, scale `2^30` and register `int32_t`. |
| Generator.NewGeneratorInt16Example | python_source/tests/test_generator.py:66-67 | `"2.14"` selects `int16_t`. |
| Generator.NewGeneratorInt64Example | python_source/tests/test_generator.py:69-70 | `"2.56"` selects `int64_t`. |
| Generator.NewGeneratorIterationExamples | python_source/tests/test_generator.py:34-39 | Iteration counts 0 and -1 are refused with `InvalidIterationCount`. |
| FixedPoint.ParseFormat | python_source/cordic_trig_generator.py:48-64 | Every failure is the single `FormatError`. An accepted descriptor has exactly one `.`, and it is literal W, then `.`, then literal F. Its values satisfy `W >= 0`, `F >= 0` and `W+F <= 64`. |
| FixedPoint.ParseFormatAccepts | python_source/cordic_trig_generator.py:50-54 | Conversely, any two integer literals that `int()` accepts, around one `.`, whose values form a valid format parse to exactly those values. |
| FixedPoint.ParseFormatRejectsRange | python_source/cordic_trig_generator.py:60-64 | Well-formed literals with a negative component or a total above 64 are rejected. |
| FixedPoint.FormatRoundTrip | python_source/cordic_trig_generator.py:48-64 | Parsing the canonical text `W.F` of any valid format returns that format. |
| FixedPoint.ParseFormatExampleAccepted | python_source/tests/test_generator.py:15-19 | `"2.30"` parses to W=2, F=30. |
| FixedPoint.ParseFormatExampleWidth16 | python_source/tests/test_generator.py:66 | `"2.14"` parses to W=2, F=14. |
| FixedPoint.ParseFormatExampleWidth64 | python_source/tests/test_generator.py:69 | `"2.56"` parses to W=2, F=56. |
| FixedPoint.ParseFormatExamplePlusAndZeros | python_source/cordic_trig_generator.py:50-54 | `"+2.030"` parses to W=2, F=30, as `int()` reads each part. |
| FixedPoint.ParseFormatExampleNegativeZero | python_source/cordic_trig_generator.py:50-64 | `"-0.30"` parses to W=0, F=30: `-0` is zero and passes the negativity check. |
| FixedPoint.Pow2 | python_source/cordic_trig_generator.py:14 | `2**F`, the scaling factor; it is at least 1. `Pow2Add` shows exponents add under multiplication and `Pow2Values` pins 2^30 and 2^31. |
| FixedPoint.Pow2Add | python_source/cordic_trig_generator.py:14 | `2^(a+b) == 2^a * 2^b`. |
| FixedPoint.Pow2Values | python_source/cordic_trig_generator.py:14 | The scaling factor for 30 fractional bits is 1073741824, and the signed 32-bit bound is 2^31 = 2147483648. |
| FixedPoint.ParseFormatExampleTooManyParts | python_source/tests/test_generator.py:21-22 | `"2.30.1"` is rejected. |
| FixedPoint.ParseFormatExampleTooWide | python_source/tests/test_generator.py:24-25 | `"65.0"` is rejected. |
| FixedPoint.ParseFormatExampleNegative | python_source/tests/test_generator.py:27-31 | `"-2.30"` and `"2.-30"` are rejected. |
| FixedPoint.StorageWidth | python_source/cordic_trig_generator.py:25-32 | The width is one of 8/16/32/64. For totals up to 64 it holds the total. It is no larger than any allowed width that holds the total. Any total above 32 gets 64, as the final `else` does. |
| FixedPoint.StorageWidthMonotone | python_source/cordic_trig_generator.py:25-32 | A larger bit total never gets a narrower register. |
| FixedPoint.StorageWidthExamples | python_source/cordic_trig_generator.py:25-32 | Totals 8, 16, 17, 32, 33 and 64 map to 8, 16, 32, 32, 64 and 64. |
| FixedPoint.Trunc | python_source/cordic_trig_generator.py:19 | `int()` of a real keeps its sign and drops the fractional part of its magnitude. |
| FixedPoint.TruncUnique | python_source/cordic_trig_generator.py:19 | No other integer meets those bounds, so `Trunc` is truncation toward zero and nothing else. |
| FixedPoint.TruncOdd | python_source/cordic_trig_generator.py:19 | Truncation is symmetric: `Trunc(-x) == -Trunc(x)`, unlike floor or round-half-up. |
| FixedPoint.Quantize | python_source/cordic_trig_generator.py:18-23 | `abs(q) <= abs(v*S) < abs(q)+1`, and `q` has the sign of `v` or is 0. |
| FixedPoint.QuantizeExact | python_source/cordic_trig_generator.py:23 | A constant whose scaled value is an integer is encoded exactly. |
| Text.Split | python_source/cordic_trig_generator.py:51 | `split('.')` yields one more piece than there are dots. No piece contains a dot, and joining the pieces with dots restores the input. |
| Text.SplitJoin | python_source/cordic_trig_generator.py:51 | Splitting dot-free pieces joined by dots gives back the pieces. |
| Text.SplitPrefix | python_source/cordic_trig_generator.py:51 | A dot-free prefix only extends the first piece of a split. |
| Text.ParseInt | python_source/cordic_trig_generator.py:52-53 | For strings of at most 4300 digits, `int()` succeeds exactly on integer literals (an optional sign and ASCII digits); the model also accepts longer literals. A negative value needs a leading `-`, and a literal never contains a dot. |
| Text.IntToStringRoundTrip | python_source/cordic_trig_generator.py:52-53 | Parsing the decimal rendering of any integer returns it. |
| Text.ParseIntValue | python_source/cordic_trig_generator.py:52-53 | `int()` of a sign (`""`, `+` or `-`), then any number of zeros, then the rendering of m is m, or -m after `-`. |
| Text.ParseSignedDigits | python_source/cordic_trig_generator.py:52-53 | A sign (or none) followed by digits reads as the digits' value, negated after `-`. |
| Text.DigitsCanonicalForm | python_source/cordic_trig_generator.py:52-53 | Every digit string is leading zeros followed by the rendering of its value, so `ParseIntValue` covers every literal. |
| Text.CanonicalDigits | python_source/cordic_trig_generator.py:52-53 | A digit string without a leading zero is exactly the rendering of its value. |
| Text.LeadingZerosValue | python_source/cordic_trig_generator.py:52-53 | Leading zeros do not change a digit string's value. |
| Text.NatToStringRoundTrip | python_source/cordic_trig_generator.py:52-53 | Reading back the digits of any natural number returns it. |
| Cordic.AsrFloor | python_source/cordic_trig_generator.py:123-128 | `v >> i` is the integer `q` with `q*2^i <= v < (q+1)*2^i`, i.e. it rounds toward negative infinity. |
| Cordic.AsrUnique | python_source/cordic_trig_generator.py:123-128 | Only one integer meets the floor bounds. |
| Cordic.AsrSucc | python_source/cordic_trig_generator.py:123-128 | Shifting by i+1 equals shifting by i and then by one bit. |
| Cordic.AsrSign | python_source/cordic_trig_generator.py:123-128 | The shift preserves the sign of its operand. |
| Cordic.AsrMinusOne | python_source/cordic_trig_generator.py:123-128 | `-1 >> i == -1` for every i, whereas truncating division would give 0. |
| Cordic.Asr | python_source/cordic_trig_generator.py:123-128 | `v >> i` on a signed register. It has no contract of its own: `AsrFloor` states it is the floor of `v / 2^i`, `AsrUnique` that nothing else is. |
| Cordic.Direction | python_source/cordic_trig_generator.py:122 | The direction is +1 exactly when `z >= 0`, so zero counts as positive, and -1 otherwise. |
| Cordic.Step | python_source/cordic_trig_generator.py:119-133 | With direction d: `x' = x - d*(y>>i)`, `y' = y + d*(x>>i)`, `z' = z - d*t[i]`. Both new components use the old x and y. |
| Cordic.Run | python_source/cordic_trig_generator.py:118-134 | The state after the first k iterations of the loop, from `(COS_K1, 0, z0)`. It has no contract of its own: `ResidualInvariant`, `ResidualBounded` and `GetSinCos` describe it. |
| Cordic.Rotate | python_source/cordic_trig_generator.py:118-134 | The state after all `ATAN_TABLE_SIZE` iterations. It has no contract of its own: `FinalResidual`, `RotateConverges` and `GetSinCos` describe it. |
| Cordic.DirectionsRecordSteps | python_source/cordic_trig_generator.py:122-129 | Entry i of the recorded directions is +1 exactly when the residual before step i was non-negative, and -1 otherwise. |
| Cordic.ResidualInvariant | python_source/cordic_trig_generator.py:118-134 | After k steps, `z_k = z0 - sum_{i<k} d_i*t[i]`, where `d_i` is the direction chosen at step i. |
| Cordic.FinalResidual | python_source/cordic_trig_generator.py:112-134 | After all N steps, `z_N = z0 - sum_{i<N} d_i*t[i]`. |
| Cordic.ResidualBounded | python_source/cordic_trig_generator.py:116-134 | Take a table with non-negative entries, none exceeding the sum of the later ones by more than `slack`, and an input with `abs(z0) <= sum + slack`. After k steps, `abs(z_k)` is at most the sum of the remaining entries plus `slack`. |
| Cordic.RotateConverges | python_source/cordic_trig_generator.py:116-134 | In the same setting, the final residual is at most `slack`. |
| Cordic.ResidualFits | python_source/cordic_trig_generator.py:112-134 | If the domain bound fits the signed register, then every intermediate `z` fits it too. |
| Cordic.DefaultTableConverges | python_source/cordic_trig_generator.py:17-20 | The table the generator emits for 16 iterations in `"2.30"` (entries copied as integers) has that shape with slack 32772, its last entry plus 5. Its domain bound 1871839748 fits a signed 32-bit register. |
| Cordic.DefaultTableTails | python_source/cordic_trig_generator.py:17-20 | The suffix sums of that default table. |
| Cordic.DefaultResidualBound | python_source/cordic_trig_generator.py:111-134 | With the default table, any `abs(z0) <= 1871839748` (about 1.74 rad) ends with `abs(z_N) <= 32772`, and no intermediate `z` leaves the `int32_t` range. |
| Cordic.GetSinCos | python_source/cordic_trig_generator.py:111-143 | The imperative loop computes the terminal state of `Rotate`. The sine slot receives `y_N` only when requested and the cosine slot receives `x_N` only when requested. Omitting one slot does not change the other. |

## Left out

- Code emission: the header/source text built and written by `write_to_file` (`cordic_trig_generator.py:66-148`), `scaling_factor_str` (:15) and the command-line entry point (:151-193) are text templating and file I/O.
- Transcendental evaluation: `generate_atan_table` and `generate_cos_k1` (:36-46) call `math.atan` and `np.cos`. Their per-index values are parameters (`atan`, `cosAtan`). The product and the table layout are modelled.
- FixedPoint.Quantize: computes `v * S` and the gain product over exact reals, not IEEE doubles, so the double rounding before `int()` is not modelled.
- Text.ParseInt: does not accept the surrounding whitespace, `_` digit separators or non-ASCII digits that Python's `int()` also takes. It accepts only an optional `+`/`-` followed by ASCII digits.
- Text.ParseInt: accepts literals of any length. CPython 3.11 and later (and the 3.10.7 and 3.9.14 security releases) refuse a string of more than 4300 digits, leading zeros included, unless `sys.set_int_max_str_digits` raises the limit; such a descriptor would then fail with "Invalid fixed point format" (:55-58). The model leaves this interpreter setting out, so `ParseFormat`, `ParseFormatAccepts` and `ParseIntValue` also hold for such longer literals.
- FixedPoint.ParseFormat: the two `ValueError` messages for a total above 64 and for a negative component are merged into one `FormatError`, because their order (:60 before :63) only affects the message text.
- C float conversions: the angle conversion `theta_rad * (float)S` (:114) and the output scaling (:137, :141) are left out. The engine takes the quantized angle `z0` as an integer and returns the integers `x_N` and `y_N`.
- Register width: fixed-width wrap-around and the implementation-defined right shift of negative values are left out. Shift counts at or beyond the width of `int` (or of the register, when it is wider) are undefined in C and are also left out; `int8_t` and `int16_t` operands are promoted to `int` first, so their shifts up to 31 are defined and `Asr` matches them. `Asr` is floor division on unbounded integers, and `FitsSigned` only states when a value would fit.
- Generator.CosK1: multiplies the factors as exact reals; the source multiplies IEEE doubles (:37-39) and rounds after each factor.
- Output aliasing: the C routine takes two output pointers that may point to the same variable, in which case the cosine store (:140-142) overwrites the sine. `GetSinCos` returns two separate values, so it does not model aliasing.
- Bounds on `x` and `y`: only the residual `z` is bounded (`ResidualBounded`, `ResidualFits`).
- Accuracy: range reduction is unimplemented in the code (:116). The closeness of `x_N` and `y_N` to `cos` and `sin` needs trigonometry and floating point, so the accuracy tolerance of `c_source/test/test_generated_cordic_trig.cpp:16-17` is not stated.
- Idempotence of the constructor is not stated separately: `NewGenerator` is a pure function, so equal inputs give equal generators.
