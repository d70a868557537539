/** Writing numbers in a radix and reading them: what the digit loops of atom.c and fmt.c do. */
module Numerals {
  import opened Machine

  const MINUS: byte := 45
  const PLUS: byte := 43
  const ZERO: byte := 48
  const SPACE: byte := 32

  /** The unsigned integers are below 2 to the 64th. */
  const WORD: nat := 0x1_0000_0000_0000_0000

  /** "0123456789abcdef"[d]. */
  function Digit(d: nat): byte
    requires d < 16
  {
    if d < 10 then ZERO + d else 87 + d
  }

  /** The characters are those of the source. */
  lemma Characters(d: nat)
    requires d < 16
    ensures Digit(d) == "0123456789abcdef"[d] as int && MINUS == '-' as int && PLUS == '+' as int
        && ZERO == '0' as int && SPACE == ' ' as int
  {
    var text := "0123456789abcdef";
    assert text[..10] == "0123456789";
  }

  /** The digit a character stands for, or 16. */
  function DigitValue(c: byte): nat
  {
    if ZERO <= c < ZERO + 10 then c - ZERO else if 97 <= c < 103 then c - 87 else 16
  }

  function Numeral(m: nat, radix: nat): (s: seq<byte>)
    requires 2 <= radix <= 16
    ensures s != []
  {
    (if m < radix then [] else Numeral(m / radix, radix)) + [Digit(m % radix)]
  }

  predicate IsNumeral(s: seq<byte>, radix: nat) { forall i :: 0 <= i < |s| ==> DigitValue(s[i]) < radix }

  /** The value of a digit string; leading zeros count for nothing. */
  function Read(s: seq<byte>, radix: nat): nat
  {
    if s == [] then 0 else Read(s[..|s| - 1], radix) * radix + DigitValue(s[|s| - 1])
  }

  /** Reading back what was written gives the number; only zero is written with a leading zero. */
  lemma {:induction false} ReadNumeral(m: nat, radix: nat)
    requires 2 <= radix <= 16
    ensures IsNumeral(Numeral(m, radix), radix) && Read(Numeral(m, radix), radix) == m
    ensures Numeral(m, radix)[0] == ZERO <==> m == 0
    ensures Numeral(m, radix)[0] != MINUS && Numeral(m, radix)[0] != PLUS
  {
    var q, d := m / radix, m % radix;
    Quotient(m, radix);
    assert Numeral(m, radix) == (if m < radix then [] else Numeral(q, radix)) + [Digit(d)];
    if m < radix {
      assert Read([], radix) == 0;
      LastDigit([], 0, d, radix);
    } else {
      ReadNumeral(q, radix);
      var t := Numeral(q, radix);
      assert (t + [Digit(d)])[0] == t[0];
      LastDigit(t, q, d, radix);
    }
  }

  lemma LastDigit(t: seq<byte>, q: nat, d: nat, radix: nat)
    requires 2 <= radix <= 16 && d < radix && IsNumeral(t, radix) && Read(t, radix) == q
    ensures var s := t + [Digit(d)];
            IsNumeral(s, radix) && Read(s, radix) == q * radix + d && Digit(d) != MINUS && Digit(d) != PLUS
                && (Digit(d) == ZERO <==> d == 0)
  {
    ReadSnoc(t, Digit(d), radix);
    assert DigitValue(Digit(d)) == d;
  }

  lemma ReadSnoc(t: seq<byte>, c: byte, radix: nat)
    ensures Read(t + [c], radix) == Read(t, radix) * radix + DigitValue(c)
  {
    assert (t + [c])[..|t|] == t;
  }

  lemma Quotient(m: nat, radix: nat)
    requires 2 <= radix
    ensures m == m / radix * radix + m % radix && (m >= radix ==> 0 < m / radix < m)
        && (m < radix ==> m % radix == m && m / radix == 0)
  {
    var q := m / radix;
    Double(q, radix);
    if m < radix {
      Small(m, radix);
    } else {
      assert q != 0;
    }
  }

  lemma Double(q: nat, radix: nat)
    requires 2 <= radix
    ensures q * radix >= 2 * q
  {
  }

  lemma Small(m: nat, radix: nat)
    requires m < radix
    ensures m % radix == m && m / radix == 0
  {
  }

  lemma {:induction false} ReadZeros(k: nat, s: seq<byte>, radix: nat)
    ensures Read(seq(k, _ => ZERO) + s, radix) == Read(s, radix)
  {
    var z := seq(k, _ => ZERO);
    if s == [] {
      assert z + s == z;
      if k > 0 {
        assert z[..k - 1] == seq(k - 1, _ => ZERO) + [];
        ReadZeros(k - 1, [], radix);
      }
    } else {
      assert (z + s)[..k + |s| - 1] == z + s[..|s| - 1];
      ReadZeros(k, s[..|s| - 1], radix);
    }
  }

  /** A signed integer in decimal. */
  function Decimal(n: int): (s: seq<byte>)
    ensures s != []
  {
    if n < 0 then [MINUS] + Numeral(-n, 10) else Numeral(n, 10)
  }

  /** Reading an optional sign and digits. */
  function ReadSigned(s: seq<byte>, radix: nat): int
  {
    if s != [] && s[0] == MINUS then 0 - Read(s[1..], radix)
    else if s != [] && s[0] == PLUS then Read(s[1..], radix)
    else Read(s, radix)
  }

  lemma ReadDecimal(n: int)
    ensures ReadSigned(Decimal(n), 10) == n
  {
    ReadNumeral(if n < 0 then -n else n, 10);
  }

  lemma DecimalInjective(m: int, n: int)
    requires Decimal(m) == Decimal(n)
    ensures m == n
  {
    ReadDecimal(m);
    ReadDecimal(n);
  }

  function Power(radix: nat, k: nat): nat { if k == 0 then 1 else radix * Power(radix, k - 1) }

  lemma {:induction false} PowerEight()
    ensures Power(8, 22) > WORD
  {
    assert Power(8, 4) == 4096;
    assert Power(8, 8) == 16777216;
    assert Power(8, 12) == 68719476736;
    assert Power(8, 16) == 281474976710656;
    assert Power(8, 20) == 1152921504606846976;
  }

  /** The digits still to be written: none for zero. */
  function Written(m: nat, radix: nat): seq<byte>
    requires 2 <= radix <= 16
  {
    if m == 0 then [] else Numeral(m, radix)
  }

  /** do *--p = digit of m % radix; while ((m /= radix) > 0): the loop of cvt_d, cvt_u, cvt_o, cvt_x
      and Atom_int, which fills the buffer from its end and never runs out of it. */
  method Fill(number: nat, radix: nat, buf: array<byte>) returns (p: nat)
    requires number < WORD && 8 <= radix <= 16 && buf.Length == 43
    modifies buf
    ensures 1 <= p < 43 && buf[p..] == Numeral(number, radix)
  {
    PowerEight();
    assert Power(8, 0) == 1;
    ghost var text := Numeral(number, radix);
    hide Power, Numeral, Digit, Written;
    var c: byte, m: nat := LowDigit(number, radix, 22);
    p := 42;
    buf[p] := c;
    assert buf[p..] == [c];
    assert text == Written(m, radix) + buf[p..];
    while m > 0
      invariant 21 <= p < 43 && m < Power(8, p - 21)
      invariant text == Written(m, radix) + buf[p..]
      decreases p
    {
      ghost var rest := buf[p..];
      assert p != 21;
      c, m := LowDigit(m, radix, p - 21);
      p := p - 1;
      buf[p] := c;
      assert buf[p + 1..] == rest;
      assert buf[p..] == [c] + rest;
      Gather(Written(m, radix), c, rest);
    }
    WrittenZero(radix);
  }

  lemma Gather(s: seq<byte>, c: byte, rest: seq<byte>)
    ensures (s + [c]) + rest == s + ([c] + rest)
  {
  }

  lemma WrittenZero(radix: nat)
    requires 2 <= radix <= 16
    ensures Written(0, radix) == []
  {
  }

  /** The last digit of m, and what is left to write. */
  method LowDigit(m: nat, radix: nat, ghost k: nat) returns (c: byte, q: nat)
    requires 8 <= radix <= 16 && 0 < k && m < Power(8, k)
    ensures q < Power(8, k - 1)
    ensures Numeral(m, radix) == Written(q, radix) + [c] && (m > 0 ==> Written(m, radix) == Numeral(m, radix))
  {
    Shift(m, radix, k);
    c, q := Digit(m % radix), m / radix;
  }

  /** One digit fewer to go. */
  lemma Shift(m: nat, radix: nat, k: nat)
    requires 8 <= radix <= 16 && 0 < k && m < Power(8, k)
    ensures m / radix < Power(8, k - 1)
    ensures Numeral(m, radix) == (if m / radix == 0 then [] else Numeral(m / radix, radix)) + [Digit(m % radix)]
  {
    Below(m, radix, Power(8, k - 1));
    Quotient(m, radix);
    assert m / radix == 0 <==> m < radix;
  }

  lemma Below(m: nat, radix: nat, b: nat)
    requires 8 <= radix && m < 8 * b
    ensures m / radix < b
  {
    var q := m / radix;
    assert m == q * radix + m % radix;
    assert q * radix >= q * 8;
  }
}
