/** Rust's fixed-width unsigned integers, their decimal text (`Display`, `{:020}`)
    and parsing (`str::parse`), and the `as i32` cast. */
module Numbers {
  import opened Wrappers
  import opened Strings

  const U32_MAX: int := 0xFFFF_FFFF
  const U64_MAX: int := 0xFFFF_FFFF_FFFF_FFFF
  const I32_MAX: int := 0x7FFF_FFFF

  type byte = x: int | 0 <= x < 0x100
  type u32 = x: int | 0 <= x <= 0xFFFF_FFFF
  type u64 = x: int | 0 <= x <= 0xFFFF_FFFF_FFFF_FFFF

  predicate IsDigit(c: char) {
    '0' <= c <= '9'
  }

  function DigitValue(c: char): (d: int)
    requires IsDigit(c)
    ensures 0 <= d < 10
  {
    c as int - '0' as int
  }

  function DigitChar(d: int): (c: char)
    requires 0 <= d < 10
    ensures IsDigit(c) && DigitValue(c) == d
  {
    ('0' as int + d) as char
  }

  predicate AllDigits(s: string) {
    forall i :: 0 <= i < |s| ==> IsDigit(s[i])
  }

  /** Numeric value of a string of decimal digits. */
  function ValueOf(s: string): nat
    requires AllDigits(s)
  {
    if |s| == 0 then 0 else 10 * ValueOf(s[..|s| - 1]) + DigitValue(s[|s| - 1])
  }

  function Pow10(w: nat): (p: nat)
    ensures p >= 1
  {
    if w == 0 then 1 else 10 * Pow10(w - 1)
  }

  /** Rust's `Display` (and `to_string`) for an unsigned integer: the shortest decimal text. */
  function Decimal(n: nat): (s: string)
    decreases n
  {
    if n < 10 then [DigitChar(n)] else Decimal(n / 10) + [DigitChar(n % 10)]
  }

  /** Rust's `{:0w}` format of an unsigned integer below 10^w: exactly `w` digits, zero-padded. */
  function Padded(n: nat, w: nat): string
  {
    if w == 0 then [] else Padded(n / 10, w - 1) + [DigitChar(n % 10)]
  }

  /** Rust's `str::parse` for an unsigned type whose maximum is `max`: an optional `+`,
      then at least one ASCII digit (leading zeros allowed), with value at most `max`. */
  function ParseUnsigned(s: string, max: nat): (r: Option<nat>)
    ensures r.Some? ==> r.value <= max
  {
    var digits := if |s| > 0 && s[0] == '+' then s[1..] else s;
    if |digits| == 0 || !AllDigits(digits) then None
    else if ValueOf(digits) <= max then Some(ValueOf(digits))
    else None
  }

  /** Rust's `as i32` on a `u32`: two's complement reinterpretation. */
  function AsI32(n: u32): (r: int)
    ensures -0x8000_0000 <= r <= I32_MAX
    ensures r >= 0 <==> n <= I32_MAX
    ensures (r - n) % 0x1_0000_0000 == 0
  {
    if n <= I32_MAX then n else n - 0x1_0000_0000
  }

  lemma {:induction false} DecimalDigits(n: nat)
    ensures |Decimal(n)| >= 1 && AllDigits(Decimal(n))
    ensures ValueOf(Decimal(n)) == n
    ensures Decimal(n)[0] == '0' ==> n == 0
    decreases n
  {
    if n >= 10 {
      DecimalDigits(n / 10);
      var s := Decimal(n);
      assert s[..|s| - 1] == Decimal(n / 10);
    }
  }

  /** Parsing the decimal text of a value gives the value back. */
  lemma ParseDecimal(n: nat, max: nat)
    requires n <= max
    ensures ParseUnsigned(Decimal(n), max) == Some(n)
  {
    DecimalDigits(n);
  }

  lemma {:induction false} PaddedDigits(n: nat, w: nat)
    ensures |Padded(n, w)| == w && AllDigits(Padded(n, w))
    ensures n < Pow10(w) ==> ValueOf(Padded(n, w)) == n
    decreases w
  {
    if w > 0 {
      PaddedDigits(n / 10, w - 1);
      var s := Padded(n, w);
      assert s[..|s| - 1] == Padded(n / 10, w - 1);
    }
  }

  /** Zero-padding to a fixed width turns numeric order into lexicographic order. */
  lemma {:induction false} PaddedOrder(a: nat, b: nat, w: nat)
    requires a < Pow10(w) && b < Pow10(w)
    ensures Below(Padded(a, w), Padded(b, w)) <==> a < b
    decreases w
  {
    if w == 0 {
      assert a == 0 && b == 0;
    } else {
      var x, y := Padded(a / 10, w - 1), Padded(b / 10, w - 1);
      DecimalShift(a, b, w);
      PaddedDigits(a / 10, w - 1);
      PaddedDigits(b / 10, w - 1);
      PaddedOrder(a / 10, b / 10, w - 1);
      BelowSnoc(x, y, DigitChar(a % 10), DigitChar(b % 10));
      if x == y {
        assert a / 10 == b / 10;
      }
    }
  }

  /** Two numbers below 10^w compare as their leading w-1 digits do, then by the last. */
  lemma DecimalShift(a: nat, b: nat, w: nat)
    requires w > 0 && a < Pow10(w) && b < Pow10(w)
    ensures a / 10 < Pow10(w - 1) && b / 10 < Pow10(w - 1)
    ensures a < b <==> a / 10 < b / 10 || (a / 10 == b / 10 && a % 10 < b % 10)
    ensures DigitChar(a % 10) < DigitChar(b % 10) <==> a % 10 < b % 10
  {
  }

  /** Fixed-width text is injective. */
  lemma PaddedInjective(a: nat, b: nat, w: nat)
    requires a < Pow10(w) && b < Pow10(w)
    requires Padded(a, w) == Padded(b, w)
    ensures a == b
  {
    PaddedDigits(a, w);
    PaddedDigits(b, w);
  }

  /** Twenty digits hold every `u64`. */
  lemma U64FitsTwentyDigits()
    ensures U64_MAX < Pow10(20)
  {
    assert Pow10(1) == 10;
    assert Pow10(2) == 100;
    assert Pow10(3) == 1000;
    assert Pow10(4) == 10000;
    assert Pow10(5) == 100000;
    assert Pow10(6) == 1000000;
    assert Pow10(7) == 10000000;
    assert Pow10(8) == 100000000;
    assert Pow10(9) == 1000000000;
    assert Pow10(10) == 10000000000;
    assert Pow10(11) == 100000000000;
    assert Pow10(12) == 1000000000000;
    assert Pow10(13) == 10000000000000;
    assert Pow10(14) == 100000000000000;
    assert Pow10(15) == 1000000000000000;
    assert Pow10(16) == 10000000000000000;
    assert Pow10(17) == 100000000000000000;
    assert Pow10(18) == 1000000000000000000;
    assert Pow10(19) == 10000000000000000000;
    assert Pow10(20) == 100000000000000000000;
  }
}
