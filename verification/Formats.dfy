/** fmt.c: the numeric conversions, Fmt_putd, and the two string sinks.

    The put function of the source is given one character at a time; here what it is given is the
    sequence `out`.  The ' ' flag has no effect in fmt.c. */
module Formats {
  import opened Machine
  import opened Numerals

  const INT_MIN: int := -0x8000_0000
  const INT_MAX: int := 0x7FFF_FFFF

  function Repeat(n: int, c: byte): (s: seq<byte>)
    ensures |s| == if n < 0 then 0 else n
  {
    if n <= 0 then [] else seq(n, _ => c)
  }

  /** pad. */
  method Pad(out: seq<byte>, n: int, c: byte) returns (r: seq<byte>)
    ensures r == out + Repeat(n, c)
  {
    r := out;
    var nn := n;
    while nn > 0
      invariant n <= 0 ==> nn == n && r == out
      invariant n > 0 ==> 0 <= nn <= n && r == out + Repeat(n - nn, c)
    {
      assert n > 0 ==> Repeat(n - nn + 1, c) == Repeat(n - nn, c) + [c];
      nn := nn - 1;
      r := r + [c];
    }
  }

  /** What a directive asks for, once width and flags are normalized: the width, whether to
      justify left, whether to pad with zeros, whether to show a plus sign, the precision. */
  datatype Spec = Spec(width: nat, left: bool, zeros: bool, plus: bool, precision: int)

  function Normalize(minus: bool, zero: bool, plus: bool, width: int, precision: int): Spec
  {
    Spec(if width == INT_MIN then 0 else if width < 0 then -width else width,
         minus || (width < 0 && width != INT_MIN), zero && precision < 0, plus, precision)
  }

  predicate Signed(str: seq<byte>) { str != [] && (str[0] == MINUS || str[0] == PLUS) }

  function Sign(str: seq<byte>, plus: bool): seq<byte>
  {
    if Signed(str) then [str[0]] else if plus then [PLUS] else []
  }

  function Digits(str: seq<byte>): seq<byte> { if Signed(str) then str[1..] else str }

  function Least(precision: int): nat { if precision < 0 then 1 else precision }

  /** How many digits the digits d are reckoned as. */
  function Shortest(d: seq<byte>, least: nat): nat
  {
    if |d| < least then least else if least == 0 && d == [ZERO] then 0 else |d|
  }

  /** The number of characters Fmt_putd reckons with. */
  function Reckoned(str: seq<byte>, spec: Spec): nat
  {
    |Sign(str, spec.plus)| + Shortest(Digits(str), Least(spec.precision))
  }

  /** What Fmt_putd emits. */
  function Field(str: seq<byte>, spec: Spec): seq<byte>
  {
    var fill := spec.width - Reckoned(str, spec);
    var number := Repeat(Least(spec.precision) - |Digits(str)|, ZERO) + Digits(str);
    if spec.left then Sign(str, spec.plus) + number + Repeat(fill, SPACE)
    else if spec.zeros then Sign(str, spec.plus) + Repeat(fill, ZERO) + number
    else Repeat(fill, SPACE) + Sign(str, spec.plus) + number
  }

  /** The sign as it is emitted, 0 being none. */
  function Shown(sign: byte): seq<byte> { if sign == 0 then [] else [sign] }

  /** The sign and what pads it: lines 357-373. */
  method Lead(sign: byte, n: nat, flags: array<byte>, width: nat) returns (out: seq<byte>)
    requires flags.Length == 256
    ensures out == if flags[MINUS] != 0 then Shown(sign)
                   else if flags[ZERO] != 0 then Shown(sign) + Repeat(width - n, ZERO)
                   else Repeat(width - n, SPACE) + Shown(sign)
  {
    hide Repeat;
    out := [];
    if flags[MINUS] != 0 {
      if sign != 0 { out := out + [sign]; }
    } else if flags[ZERO] != 0 {
      if sign != 0 { out := out + [sign]; }
      out := Pad(out, width - n, ZERO);
    } else {
      out := Pad(out, width - n, SPACE);
      if sign != 0 { out := out + [sign]; }
    }
  }

  /** Emit str justified in width: lines 357-384. */
  method Justify(str: seq<byte>, sign: byte, n: nat, flags: array<byte>, width: nat,
      precision: nat) returns (out: seq<byte>)
    requires flags.Length == 256
    ensures var number := Repeat(precision - |str|, ZERO) + str;
            out == if flags[MINUS] != 0 then Shown(sign) + number + Repeat(width - n, SPACE)
                   else if flags[ZERO] != 0 then Shown(sign) + Repeat(width - n, ZERO) + number
                   else Repeat(width - n, SPACE) + Shown(sign) + number
  {
    hide Repeat, Shown;
    out := Lead(sign, n, flags, width);
    ghost var start := out;
    out := Pad(out, precision - |str|, ZERO);
    ghost var before := out;
    for i := 0 to |str|
      invariant out == before + str[..i]
    {
      out := out + [str[i]];
    }
    assert out == start + (Repeat(precision - |str|, ZERO) + str) by { assert str[..|str|] == str; }
    if flags[MINUS] != 0 {
      out := Pad(out, width - n, SPACE);
    }
  }

  /** Compute the sign: lines 331-338. */
  method SignOf(str: seq<byte>, flags: array<byte>) returns (sign: byte, p: seq<byte>)
    requires flags.Length == 256
    ensures Shown(sign) == Sign(str, flags[PLUS] != 0) && p == Digits(str)
  {
    sign, p := 0, str;
    if |str| > 0 && (str[0] == MINUS || str[0] == PLUS) {
      sign := str[0];
      p := str[1..];
    } else if flags[PLUS] != 0 {
      sign := PLUS;
    }
  }

  /** Lines 347-355: how many characters there will be, pads aside. */
  method Reckon(p: seq<byte>, sign: byte, precision: nat) returns (n: nat)
    ensures n == |Shown(sign)| + Shortest(p, precision)
  {
    if |p| < precision {
      n := precision;
    } else if precision == 0 && |p| == 1 && p[0] == ZERO {
      n := 0;
    } else {
      n := |p|;
    }
    if sign != 0 {
      n := n + 1;
    }
  }

  /** Normalize width and flags: lines 317-329. */
  method NormalizeArgs(flags: array<byte>, width0: int, precision: int) returns (width: nat)
    requires flags.Length == 256 && INT_MIN <= width0 <= INT_MAX
    modifies flags
    ensures Spec(width, flags[MINUS] != 0, flags[ZERO] != 0, flags[PLUS] != 0, precision)
            == Normalize(old(flags[MINUS]) != 0, old(flags[ZERO]) != 0, old(flags[PLUS]) != 0, width0, precision)
    ensures FlagsKept(flags[..], old(flags[..]), width0, precision)
  {
    var w := width0;
    if w == INT_MIN {
      w := 0;
    }
    if w < 0 {
      flags[MINUS] := 1;
      w := -w;
    }
    if precision >= 0 {
      flags[ZERO] := 0;
    }
    width := w;
  }

  /** What becomes of the caller's flags: a negative width sets '-', a precision takes '0' away. */
  predicate FlagsKept(flags: seq<byte>, before: seq<byte>, width: int, precision: int)
  {
    && |flags| == |before| == 256
    && flags[MINUS] == (if INT_MIN < width < 0 then 1 else before[MINUS])
    && flags[ZERO] == (if precision >= 0 then 0 else before[ZERO])
    && forall i :: 0 <= i < 256 && i != MINUS && i != ZERO ==> flags[i] == before[i]
  }

  /** Fmt_putd. */
  method PutD(str: seq<byte>, flags: array<byte>, width0: int, precision0: int) returns (out: seq<byte>)
    requires flags.Length == 256 && INT_MIN <= width0 <= INT_MAX
    modifies flags
    ensures out == Field(str, Normalize(old(flags[MINUS]) != 0, old(flags[ZERO]) != 0, old(flags[PLUS]) != 0, width0,
        precision0))
    ensures LaidOut(out, Sign(str, old(flags[PLUS]) != 0), Digits(str), old(flags[MINUS]) != 0, old(flags[ZERO]) != 0,
        width0, precision0)
    ensures FlagsKept(flags[..], old(flags[..]), width0, precision0)
  {
    hide *;
    FieldLaidOut(str, flags[MINUS] != 0, flags[ZERO] != 0, flags[PLUS] != 0, width0, precision0);
    var width := NormalizeArgs(flags, width0, precision0);
    ghost var spec := Spec(width, flags[MINUS] != 0, flags[ZERO] != 0, flags[PLUS] != 0, precision0);
    var sign, p := SignOf(str, flags);
    var precision := precision0;
    if precision < 0 {
      precision := 1;
    }
    var n := Reckon(p, sign, precision);
    FieldIs(str, spec, sign, precision);
    out := Justify(p, sign, n, flags, width, precision);
  }

  lemma FieldIs(str: seq<byte>, spec: Spec, sign: byte, precision: nat)
    requires Shown(sign) == Sign(str, spec.plus) && precision == if spec.precision < 0 then 1 else spec.precision
    ensures var n := |Shown(sign)| + Shortest(Digits(str), precision);
            var number := Repeat(precision - |Digits(str)|, ZERO) + Digits(str);
            Field(str, spec) == if spec.left then Shown(sign) + number + Repeat(spec.width - n, SPACE)
                                else if spec.zeros then Shown(sign) + Repeat(spec.width - n, ZERO) + number
                                else Repeat(spec.width - n, SPACE) + Shown(sign) + number
  {
    hide Repeat, Shortest, Digits, Sign, Shown;
  }

  // ---------------------------------------------------------------- what a field is

  /** The width is reached, and exceeded only by the number itself.  With precision 0 the digit of
      zero is emitted although it is reckoned as nothing. */
  lemma FieldLength(str: seq<byte>, spec: Spec)
    ensures var n := Reckoned(str, spec);
            |Field(str, spec)| == Max(spec.width, n) + if spec.precision == 0 && Digits(str) == [ZERO] then 1 else 0
  {
  }

  /** The width that is asked for, whatever its sign. */
  function Asked(width: int): nat { if width == INT_MIN then 0 else if width < 0 then -width else width }

  /** How long a conversion is, in terms of its arguments: the width, or the sign and the digits if
      they are more; one more exactly when the precision and the number are zero. */
  function Emitted(number: nat, radix: nat, signed: bool, width: int, precision: int): nat
    requires 2 <= radix <= 16
  {
    var sign := if signed then 1 else 0;
    if precision == 0 && number == 0 then Max(Asked(width), sign) + 1
    else Max(Asked(width), sign + Max(|Numeral(number, radix)|, Least(precision)))
  }

  /** A field with the digits of a number. */
  lemma NumeralLength(str: seq<byte>, spec: Spec, number: nat, radix: nat, width: int)
    requires 2 <= radix <= 16 && Digits(str) == Numeral(number, radix) && spec.width == Asked(width)
    ensures |Field(str, spec)| == Emitted(number, radix, Sign(str, spec.plus) != [], width, spec.precision)
  {
    OnlyZero(number, radix);
    FieldLength(str, spec);
    hide Field, Numeral, Sign, Digits;
  }

  lemma OnlyZero(number: nat, radix: nat)
    requires 2 <= radix <= 16
    ensures Numeral(number, radix) == [ZERO] <==> number == 0
  {
    ReadNumeral(number, radix);
    ZeroNumeral(radix);
    hide Numeral, Read, IsNumeral;
  }

  lemma ZeroNumeral(radix: nat)
    requires 2 <= radix <= 16
    ensures Numeral(0, radix) == [ZERO]
  {
  }

  /** The length fmt.c promises: the larger of the width and of the sign with the digits, of which
      there are at least as many as the precision says. */
  function Promised(number: nat, radix: nat, signed: bool, width: int, precision: int): nat
    requires 2 <= radix <= 16
  {
    Max(Asked(width), (if signed then 1 else 0) + Max(|Numeral(number, radix)|, Least(precision)))
  }

  /** Exactly when the promise is kept: unless precision and number are zero and the width asked for
      exceeds the sign.  Then one character too many is emitted. */
  lemma KeepsWidthExactly(number: nat, radix: nat, signed: bool, width: int, precision: int)
    requires 2 <= radix <= 16
    ensures Emitted(number, radix, signed, width, precision) == Promised(number, radix, signed, width, precision)
            <==> !(precision == 0 && number == 0 && Asked(width) > if signed then 1 else 0)
    ensures Emitted(number, radix, signed, width, precision) <= Promised(number, radix, signed, width, precision) + 1
  {
    ZeroNumeral(radix);
    hide Numeral;
  }

  /** %1.0d of 0 is two characters long. */
  lemma WidthExceeded(minus: bool, zero: bool)
    ensures |Field(Decimal(0), Normalize(minus, zero, false, 1, 0))| == 2 == Promised(0, 10, false, 1, 0) + 1
  {
    DecimalLength(0, minus, zero, false, 1, 0);
    ZeroNumeral(10);
    hide Field, Normalize, Decimal, Numeral;
  }

  lemma DecimalLength(val: int, minus: bool, zero: bool, plus: bool, width: int, precision: int)
    ensures |Field(Decimal(val), Normalize(minus, zero, plus, width, precision))|
            == Emitted(if val < 0 then -val else val, 10, val < 0 || plus, width, precision)
  {
    var m := if val < 0 then -val else val;
    ReadNumeral(m, 10);
    assert Digits(Decimal(val)) == Numeral(m, 10);
    NumeralLength(Decimal(val), Normalize(minus, zero, plus, width, precision), m, 10, width);
  }

  lemma UnsignedLength(number: nat, radix: nat, minus: bool, zero: bool, plus: bool, width: int, precision: int)
    requires 2 <= radix <= 16
    ensures |Field(Numeral(number, radix), Normalize(minus, zero, plus, width, precision))| == Emitted(number, radix,
        plus, width, precision)
  {
    ReadNumeral(number, radix);
    assert Digits(Numeral(number, radix)) == Numeral(number, radix);
    NumeralLength(Numeral(number, radix), Normalize(minus, zero, plus, width, precision), number, radix, width);
  }

  // ---------------------------------------------------------------- where the padding is

  /** The zeros that the precision asks for. */
  function Extra(digits: seq<byte>, precision: int): nat
  {
    if precision > |digits| then precision - |digits| else if digits == [] && precision < 0 then 1 else 0
  }

  /** out is sign and digits laid out as flags, width and precision, as they are passed, ask for: what
      is more than the sign, the zeros of the precision and the digits are spaces behind them with '-'
      or a negative width; otherwise zeros behind the sign with '0' and no precision; and spaces in
      front in all other cases. */
  predicate LaidOut(out: seq<byte>, sign: seq<byte>, digits: seq<byte>, minus: bool, zero: bool, width: int,
      precision: int)
  {
    var extra := Repeat(Extra(digits, precision), ZERO);
    var pad := |out| - |sign| - |extra| - |digits|;
    && pad >= 0
    && out == if minus || INT_MIN < width < 0 then sign + extra + digits + Repeat(pad, SPACE)
              else if zero && precision < 0 then sign + Repeat(pad, ZERO) + extra + digits
              else Repeat(pad, SPACE) + sign + extra + digits
  }

  /** A field is laid out as asked for. */
  lemma FieldLaidOut(str: seq<byte>, minus: bool, zero: bool, plus: bool, width: int, precision: int)
    requires INT_MIN <= width <= INT_MAX
    ensures LaidOut(Field(str, Normalize(minus, zero, plus, width, precision)), Sign(str, plus), Digits(str), minus,
        zero, width, precision)
  {
    var spec := Normalize(minus, zero, plus, width, precision);
    var d := Digits(str);
    assert Repeat(Least(precision) - |d|, ZERO) == Repeat(Extra(d, precision), ZERO);
    hide Reckoned, Sign, Digits, Least, Extra, Repeat, LaidOut;
    Padded(Sign(str, plus), Repeat(Extra(d, precision), ZERO), d, minus, zero, width, precision,
        spec.width - Reckoned(str, spec));
  }

  lemma Padded(sign: seq<byte>, extra: seq<byte>, d: seq<byte>, minus: bool, zero: bool, width: int, precision: int,
      fill: int)
    requires extra == Repeat(Extra(d, precision), ZERO)
    ensures LaidOut(if minus || INT_MIN < width < 0 then sign + (extra + d) + Repeat(fill, SPACE)
                    else if zero && precision < 0 then sign + Repeat(fill, ZERO) + (extra + d)
                    else Repeat(fill, SPACE) + sign + (extra + d), sign, d, minus, zero, width, precision)
  {
    PadIs(fill, ZERO);
    PadIs(fill, SPACE);
    hide Extra;
    Regroup(sign, extra, d, Repeat(fill, if minus || INT_MIN < width < 0 || !(zero && precision < 0) then SPACE
        else ZERO));
  }

  lemma PadIs(n: int, c: byte)
    ensures Repeat(|Repeat(n, c)|, c) == Repeat(n, c)
  {
  }

  predicate Spaces(s: seq<byte>) { forall i :: 0 <= i < |s| ==> s[i] == SPACE }

  predicate NoSpace(s: seq<byte>) { forall i :: 0 <= i < |s| ==> s[i] != SPACE }

  /** Read from the text: with '-' or a negative width it begins with the sign, or with a digit, and
      spaces come only behind the last digit; otherwise it ends with the last digit, and spaces come
      only in front of the sign; with '0' and no precision there are none.  m is where the spaces begin
      or end. */
  lemma SpacesAreWhereAsked(out: seq<byte>, sign: seq<byte>, digits: seq<byte>, minus: bool, zero: bool, width: int,
      precision: int) returns (m: nat)
    requires LaidOut(out, sign, digits, minus, zero, width, precision) && NoSpace(sign) && NoSpace(digits)
    ensures m <= |out|
    ensures minus || INT_MIN < width < 0 ==> NoSpace(out[..m]) && Spaces(out[m..]) && sign <= out
    ensures !(minus || INT_MIN < width < 0) ==> Spaces(out[..m]) && NoSpace(out[m..]) && sign <= out[m..]
    ensures !(minus || INT_MIN < width < 0) ==> |digits| <= |out| && digits == out[|out| - |digits|..]
    ensures zero && precision < 0 && !(minus || INT_MIN < width < 0) ==> m == 0
  {
    var extra := Repeat(Extra(digits, precision), ZERO);
    var pad := |out| - |sign| - |extra| - |digits|;
    hide Extra;
    if minus || INT_MIN < width < 0 {
      m := |out| - pad;
      assert out == (sign + (extra + digits)) + Repeat(pad, SPACE);
    } else if zero && precision < 0 {
      m := 0;
      assert out == (sign + Repeat(pad, ZERO) + extra) + digits == sign + (Repeat(pad, ZERO) + extra + digits);
    } else {
      m := pad;
      assert out == Repeat(pad, SPACE) + (sign + (extra + digits));
      assert out == (Repeat(pad, SPACE) + sign + extra) + digits;
    }
  }

  /** The sign of a number as it is to be shown. */
  function SignFor(negative: bool, plus: bool): seq<byte>
  {
    if negative then [MINUS] else if plus then [PLUS] else []
  }

  lemma DecimalSign(val: int, plus: bool)
    ensures Sign(Decimal(val), plus) == SignFor(val < 0, plus)
    ensures Digits(Decimal(val)) == Numeral(if val < 0 then -val else val, 10)
  {
    ReadNumeral(if val < 0 then -val else val, 10);
    hide Numeral;
  }

  lemma UnsignedSign(m: nat, radix: nat, plus: bool)
    requires 2 <= radix <= 16
    ensures Sign(Numeral(m, radix), plus) == SignFor(false, plus) && Digits(Numeral(m, radix)) == Numeral(m, radix)
  {
    ReadNumeral(m, radix);
    hide Numeral;
  }

  /** %5d of 42 has its spaces in front, %-5d behind. */
  lemma Examples(zero: bool)
    ensures Field(Decimal(42), Normalize(false, false, false, 5, -1)) == [SPACE, SPACE, SPACE, ZERO + 4, ZERO + 2]
    ensures Field(Decimal(42), Normalize(true, zero, false, 5, -1)) == [ZERO + 4, ZERO + 2, SPACE, SPACE, SPACE]
    ensures Field(Decimal(-42), Normalize(false, true, false, 5, -1)) == [MINUS, ZERO, ZERO, ZERO + 4, ZERO + 2]
  {
    assert Numeral(4, 10) == [ZERO + 4];
    assert Numeral(42, 10) == Numeral(4, 10) + [ZERO + 2];
  }

  /** s without the spaces around it. */
  function Trim(s: seq<byte>): seq<byte>
  {
    if s != [] && s[0] == SPACE then Trim(s[1..])
    else if s != [] && s[|s| - 1] == SPACE then Trim(s[..|s| - 1])
    else s
  }

  lemma {:induction false} TrimPadding(a: int, t: seq<byte>, b: int)
    requires t != [] && t[0] != SPACE && t[|t| - 1] != SPACE
    ensures Trim(Repeat(a, SPACE) + t + Repeat(b, SPACE)) == t
    decreases if a > 0 then a else 0, if b > 0 then b else 0
  {
    var s := Repeat(a, SPACE) + t + Repeat(b, SPACE);
    if a > 0 {
      assert s[1..] == Repeat(a - 1, SPACE) + t + Repeat(b, SPACE) && s[0] == SPACE;
      TrimPadding(a - 1, t, b);
    } else if b > 0 {
      assert s[..|s| - 1] == Repeat(a, SPACE) + t + Repeat(b - 1, SPACE) && s[|s| - 1] == SPACE && s[0] == t[0];
      TrimPadding(a, t, b - 1);
    } else {
      assert s == t;
    }
  }

  /** Without the spaces a field is the sign, some zeros, and the digits. */
  lemma FieldTrimmed(str: seq<byte>, spec: Spec) returns (zeros: int)
    requires Digits(str) != [] && Digits(str)[0] != SPACE && Digits(str)[|Digits(str)| - 1] != SPACE
    ensures Trim(Field(str, spec)) == Sign(str, spec.plus) + Repeat(zeros, ZERO) + Digits(str)
  {
    var fill := spec.width - Reckoned(str, spec);
    var least := Least(spec.precision) - |Digits(str)|;
    var sign, d := Sign(str, spec.plus), Digits(str);
    assert sign == [] || (|sign| == 1 && sign[0] != SPACE);
    zeros := if spec.left || !spec.zeros then least
        else (if fill > 0 then fill else 0) + (if least > 0 then least else 0);
    Core(sign, zeros, d);
    RepeatAdds(fill, least);
    hide Reckoned, Sign, Digits, Least, Repeat, Trim;
    FieldParts(str, spec, sign, fill, least, d);
    TrimPadding(if spec.left || spec.zeros then 0 else fill, sign + Repeat(zeros, ZERO) + d, if spec.left then fill
        else 0);
  }

  lemma RepeatAdds(a: int, b: int)
    ensures Repeat((if a > 0 then a else 0) + (if b > 0 then b else 0), ZERO) == Repeat(a, ZERO) + Repeat(b, ZERO)
  {
  }

  /** A field as padding around one core. */
  lemma FieldParts(str: seq<byte>, spec: Spec, sign: seq<byte>, fill: int, least: int, d: seq<byte>)
    requires sign == Sign(str, spec.plus) && d == Digits(str) && fill == spec.width - Reckoned(str, spec)
        && least == Least(spec.precision) - |d|
    ensures var zeros := if spec.left || !spec.zeros then Repeat(least, ZERO)
        else Repeat(fill, ZERO) + Repeat(least, ZERO);
            Field(str, spec) == Repeat(if spec.left
                || spec.zeros then 0 else fill, SPACE) + (sign + zeros + d) + Repeat(if spec.left then fill
                     else 0, SPACE)
  {
    assert Repeat(0, SPACE) == [];
    hide Repeat, Reckoned, Sign, Digits, Least;
    Regroup(sign, Repeat(least, ZERO), d, Repeat(fill, if spec.zeros && !spec.left then ZERO else SPACE));
  }

  lemma Regroup(a: seq<byte>, b: seq<byte>, c: seq<byte>, p: seq<byte>)
    ensures a + (b + c) + p == [] + (a + b + c) + p
    ensures a + p + (b + c) == [] + (a + (p + b) + c) + []
    ensures p + a + (b + c) == p + (a + b + c) + []
  {
  }

  lemma Core(sign: seq<byte>, zeros: int, d: seq<byte>)
    requires (sign == [] || (|sign| == 1 && sign[0] != SPACE)) && d != [] && d[0] != SPACE && d[|d| - 1] != SPACE
    ensures var t := sign + Repeat(zeros, ZERO) + d; t != [] && t[0] != SPACE && t[|t| - 1] == d[|d| - 1]
  {
  }

  /** Digits in a radix are no signs and no spaces. */
  lemma NumeralChars(s: seq<byte>, radix: nat)
    requires IsNumeral(s, radix) && radix <= 16 && s != []
    ensures s[0] != SPACE && s[0] != MINUS && s[0] != PLUS && s[|s| - 1] != SPACE
  {
    assert DigitValue(s[0]) < radix && DigitValue(s[|s| - 1]) < radix;
  }

  /** sign, zeros, digits read as a number. */
  lemma CoreReads(sign: seq<byte>, zeros: int, d: seq<byte>, radix: nat)
    requires (sign == [] || sign == [PLUS] || sign == [MINUS]) && IsNumeral(d, radix) && radix <= 16 && d != []
    ensures ReadSigned(sign + Repeat(zeros, ZERO) + d, radix) == (if sign == [MINUS] then 0 - Read(d, radix)
        else Read(d, radix))
  {
    var u := Repeat(zeros, ZERO) + d;
    UnsignedPart(zeros, d, radix);
    hide Read, IsNumeral, Repeat;
    assert sign + Repeat(zeros, ZERO) + d == sign + u;
    if sign == [] {
      assert sign + u == u;
    } else {
      TailOf(sign[0], u);
      assert sign == [sign[0]];
    }
  }

  lemma TailOf(c: byte, u: seq<byte>)
    ensures ([c] + u)[0] == c && ([c] + u)[1..] == u
  {
  }

  lemma UnsignedPart(zeros: int, d: seq<byte>, radix: nat)
    requires IsNumeral(d, radix) && radix <= 16 && d != []
    ensures var u := Repeat(zeros, ZERO) + d;
            u != [] && u[0] != MINUS && u[0] != PLUS && Read(u, radix) == Read(d, radix)
  {
    var z := if zeros > 0 then zeros else 0;
    assert Repeat(zeros, ZERO) == seq(z, _ => ZERO);
    ReadZeros(z, d, radix);
    NumeralChars(d, radix);
    hide Read, IsNumeral;
  }

  /** Reading back what %d emits gives the value, whatever the flags, width and precision. */
  lemma SignedReadsBack(val: int, spec: Spec)
    ensures ReadSigned(Trim(Field(Decimal(val), spec)), 10) == val
  {
    var m := if val < 0 then -val else val;
    ReadNumeral(m, 10);
    NumeralChars(Numeral(m, 10), 10);
    assert Digits(Decimal(val)) == Numeral(m, 10);
    var zeros := FieldTrimmed(Decimal(val), spec);
    CoreReads(Sign(Decimal(val), spec.plus), zeros, Numeral(m, 10), 10);
  }

  /** The same for %u, %o and %x. */
  lemma UnsignedReadsBack(m: nat, radix: nat, spec: Spec)
    requires 2 <= radix <= 16
    ensures ReadSigned(Trim(Field(Numeral(m, radix), spec)), radix) == m
  {
    ReadNumeral(m, radix);
    NumeralChars(Numeral(m, radix), radix);
    assert Digits(Numeral(m, radix)) == Numeral(m, radix);
    var zeros := FieldTrimmed(Numeral(m, radix), spec);
    CoreReads(Sign(Numeral(m, radix), spec.plus), zeros, Numeral(m, radix), radix);
  }

  /** cvt_d. */
  method CvtD(val: int, flags: array<byte>, width: int, precision: int) returns (out: seq<byte>)
    requires INT_MIN <= val <= INT_MAX && flags.Length == 256 && INT_MIN <= width <= INT_MAX
    modifies flags
    ensures out == Field(Decimal(val), Normalize(old(flags[MINUS]) != 0, old(flags[ZERO]) != 0,
        old(flags[PLUS]) != 0, width, precision))
    ensures ReadSigned(Trim(out), 10) == val
    ensures LaidOut(out, SignFor(val < 0, old(flags[PLUS]) != 0), Numeral(if val < 0 then -val else val, 10),
        old(flags[MINUS]) != 0, old(flags[ZERO]) != 0, width, precision)
    ensures |out| == Emitted(if val < 0 then -val else val, 10, val < 0 || old(flags[PLUS]) != 0, width, precision)
  {
    var buf, p := DecimalText(val);
    DecimalLength(val, flags[MINUS] != 0, flags[ZERO] != 0, flags[PLUS] != 0, width, precision);
    SignedReadsBack(val, Normalize(flags[MINUS] != 0, flags[ZERO] != 0, flags[PLUS] != 0, width, precision));
    DecimalSign(val, flags[PLUS] != 0);
    hide Field, Normalize, Trim, ReadSigned, Decimal, Numeral, Emitted, Sign, Digits, SignFor, LaidOut;
    out := PutD(buf[p..], flags, width, precision);
  }

  /** The text that cvt_d hands to Fmt_putd: lines 92-109. */
  method DecimalText(val: int) returns (buf: array<byte>, p: nat)
    requires INT_MIN <= val <= INT_MAX
    ensures fresh(buf) && p < buf.Length && buf[p..] == Decimal(val)
  {
    var m: nat;
    if val == INT_MIN {
      m := INT_MAX + 1;
    } else if val < 0 {
      m := -val;
    } else {
      m := val;
    }
    buf := new byte[43];
    p := Fill(m, 10, buf);
    assert Decimal(val) == if val < 0 then [MINUS] + Numeral(m, 10) else Numeral(m, 10);
    hide Decimal, Numeral;
    if val < 0 {
      ghost var digits := buf[p..];
      p := p - 1;
      buf[p] := MINUS;
      assert buf[p..] == [MINUS] + digits;
    }
  }

  /** cvt_u, cvt_o and cvt_x, which differ in the radix: 10, 8 and 16. */
  method CvtU(number: nat, radix: nat, flags: array<byte>, width: int, precision: int) returns (out: seq<byte>)
    requires number <= 2 * INT_MAX + 1 && radix in {8, 10, 16} && flags.Length == 256 && INT_MIN <= width <= INT_MAX
    modifies flags
    ensures out == Field(Numeral(number, radix),
        Normalize(old(flags[MINUS]) != 0, old(flags[ZERO]) != 0, old(flags[PLUS]) != 0, width, precision))
    ensures ReadSigned(Trim(out), radix) == number
    ensures LaidOut(out, SignFor(false, old(flags[PLUS]) != 0), Numeral(number, radix), old(flags[MINUS]) != 0,
        old(flags[ZERO]) != 0, width, precision)
    ensures |out| == Emitted(number, radix, old(flags[PLUS]) != 0, width, precision)
  {
    var buf := new byte[43];
    var p := Fill(number, radix, buf);
    UnsignedLength(number, radix, flags[MINUS] != 0, flags[ZERO] != 0, flags[PLUS] != 0, width, precision);
    UnsignedReadsBack(number, radix, Normalize(flags[MINUS] != 0, flags[ZERO] != 0, flags[PLUS] != 0, width,
        precision));
    UnsignedSign(number, radix, flags[PLUS] != 0);
    hide Field, Normalize, Trim, ReadSigned, Numeral, Emitted, Sign, Digits, SignFor, LaidOut;
    out := PutD(buf[p..], flags, width, precision);
  }

  // ---------------------------------------------------------------- the sinks

  /** struct buf; bp is an index. */
  class Buf {
    var buf: array<byte>
    var bp: nat
    var size: nat

    ghost predicate Valid()
      reads this
    {
      bp <= size <= buf.Length
    }

    ghost function Text(): seq<byte>
      requires Valid()
      reads this, buf
    {
      buf[..bp]
    }

    constructor (buf: array<byte>, size: nat)
      requires size <= buf.Length
      ensures Valid() && this.buf == buf && this.size == size && Text() == []
    {
      this.buf, bp, this.size := buf, 0, size;
    }

    /** insert: not ok is Fmt_Overflow being raised. */
    method Insert(c: byte) returns (ok: bool)
      requires Valid()
      modifies this`bp, buf
      ensures Valid() && ok == (old(bp) < size)
      ensures Text() == if ok then old(Text()) + [c] else old(Text())
      ensures forall i :: size <= i < buf.Length ==> buf[i] == old(buf[i])
    {
      if bp >= size {
        return false;
      }
      buf[bp] := c;
      bp := bp + 1;
      return true;
    }

    /** append: the buffer is doubled when it is full. */
    method Append(c: byte)
      requires Valid() && size > 0
      modifies this, buf
      ensures Valid() && size > 0 && Text() == old(Text()) + [c] && (buf == old(buf) || fresh(buf))
    {
      if bp >= size {
        var a := new byte[2 * size](_ => 0);
        forall i | 0 <= i < size {
          a[i] := buf[i];
        }
        assert a[..size] == buf[..size];
        buf := a;
        bp := size;
        size := 2 * size;
      }
      buf[bp] := c;
      bp := bp + 1;
    }
  }

  /** Fmt_vsfmt, when the formatting emits `text`: Fmt_Overflow is raised exactly when the text and
      its null character do not fit; buf is not written past its size. */
  method VSFmt(buf: array<byte>, size: nat, text: seq<byte>) returns (ok: bool, len: nat)
    requires 0 < size <= buf.Length
    modifies buf
    ensures ok <==> |text| + 1 <= size
    ensures ok ==> len == |text| && buf[..len + 1] == text + [0]
    ensures !ok ==> buf[..size] == (text + [0])[..size]
    ensures forall i :: size <= i < buf.Length ==> buf[i] == old(buf[i])
  {
    var cl := new Buf(buf, size);
    len := 0;
    for i := 0 to |text|
      invariant cl.Valid() && cl.buf == buf && cl.size == size && fresh(cl)
      invariant cl.Text() == text[..i]
      invariant forall j :: size <= j < buf.Length ==> buf[j] == old(buf[j])
    {
      ok := cl.Insert(text[i]);
      if !ok {
        assert (text + [0])[..size] == text[..i];
        return false, 0;
      }
    }
    assert text[..|text|] == text;
    ok := cl.Insert(0);
    if ok {
      len := cl.bp - 1;
    } else {
      assert (text + [0])[..size] == text;
    }
  }

  /** Fmt_vstring: the text and its null character, in a buffer of just that size. */
  method VString(text: seq<byte>) returns (str: array<byte>)
    ensures fresh(str) && str[..] == text + [0]
  {
    var a := new byte[256](_ => 0);
    var cl := new Buf(a, 256);
    for i := 0 to |text|
      invariant cl.Valid() && cl.size > 0 && fresh(cl) && fresh(cl.buf)
      invariant cl.Text() == text[..i]
    {
      cl.Append(text[i]);
    }
    assert text[..|text|] == text;
    cl.Append(0);
    str := new byte[cl.bp](_ => 0);
    forall i | 0 <= i < cl.bp {
      str[i] := cl.buf[i];
    }
    assert str[..] == cl.buf[..cl.bp];
  }
}
