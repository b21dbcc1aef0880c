/**
 * Rust's fixed-width integers, UTF-8 byte lengths, decimal formatting (`format!("{}", n)`)
 * and `str::parse::<u8>`, as used by the widgets.
 */
module Text {
  import opened Wrappers

  type u8 = x: int | 0 <= x < 0x100
  type u16 = x: int | 0 <= x < 0x1_0000

  /** `x as u8` on a `u16`: the cast keeps the low eight bits. */
  function AsU8(x: u16): (r: u8)
    ensures x < 0x100 ==> r == x
    ensures (x - r) % 0x100 == 0
  {
    x % 0x100
  }

  /** The number of bytes UTF-8 uses for one Unicode scalar value. */
  function Utf8Width(c: char): (w: nat)
    ensures 1 <= w <= 4
    ensures w == 1 <==> (c as int) < 0x80
  {
    if (c as int) < 0x80 then 1
    else if (c as int) < 0x800 then 2
    else if (c as int) < 0x1_0000 then 3
    else 4
  }

  /** Rust's `str::len`: the UTF-8 byte length of a string. */
  function Utf8Len(s: string): nat
  {
    if |s| == 0 then 0 else Utf8Width(s[0]) + Utf8Len(s[1..])
  }

  /** A string never has fewer bytes than characters; only ASCII text has exactly as many. */
  lemma {:induction false} Utf8LenAtLeastLength(s: string)
    ensures Utf8Len(s) >= |s|
    ensures Utf8Len(s) == |s| <==> forall i :: 0 <= i < |s| ==> (s[i] as int) < 0x80
  {
    if |s| > 0 {
      Utf8LenAtLeastLength(s[1..]);
      assert forall i :: 1 <= i < |s| ==> s[i] == s[1..][i - 1];
    }
  }

  /** Byte lengths add up over concatenation. */
  lemma {:induction false} Utf8LenAppend(a: string, b: string)
    ensures Utf8Len(a + b) == Utf8Len(a) + Utf8Len(b)
  {
    if |a| > 0 {
      assert (a + b)[1..] == a[1..] + b;
      Utf8LenAppend(a[1..], b);
    } else {
      assert a + b == b;
    }
  }

  predicate IsDigit(c: char)
  {
    '0' <= c <= '9'
  }

  predicate AllDigits(s: string)
  {
    forall i :: 0 <= i < |s| ==> IsDigit(s[i])
  }

  function Digit(d: nat): (c: char)
    requires d < 10
    ensures IsDigit(c)
  {
    ('0' as int + d) as char
  }

  function DigitValue(c: char): (d: nat)
    requires IsDigit(c)
    ensures d < 10 && Digit(d) == c
  {
    (c as int) - ('0' as int)
  }

  /** `format!("{}", n)` for an unsigned integer: decimal digits, no leading zero. */
  function DecimalString(n: nat): (r: string)
    ensures |r| >= 1 && AllDigits(r)
    ensures r[0] == '0' ==> n == 0
    decreases n
  {
    if n < 10 then [Digit(n)] else DecimalString(n / 10) + [Digit(n % 10)]
  }

  /** The value of a string of decimal digits, most significant first. */
  function DigitsValue(s: string): nat
    requires AllDigits(s)
  {
    if |s| == 0 then 0 else DigitsValue(s[..|s| - 1]) * 10 + DigitValue(s[|s| - 1])
  }

  /**
   * `s.parse::<u8>()`: an optional leading '+', then at least one ASCII digit, and a value
   * that fits in eight bits; anything else (including a '-' sign) is an error.
   */
  function ParseU8(s: string): (r: Option<u8>)
    ensures var d := if |s| > 0 && s[0] == '+' then s[1..] else s;
      (r.Some? <==> |d| > 0 && AllDigits(d) && DigitsValue(d) < 0x100) && (r.Some? ==> r.value == DigitsValue(d))
  {
    var digits := if |s| > 0 && s[0] == '+' then s[1..] else s;
    if |digits| == 0 || !AllDigits(digits) then None
    else if DigitsValue(digits) < 0x100 then Some(DigitsValue(digits))
    else None
  }

  /** Reading back the decimal form of `n` gives `n`. */
  lemma {:induction false} DigitsValueOfDecimal(n: nat)
    ensures DigitsValue(DecimalString(n)) == n
    decreases n
  {
    if n >= 10 {
      var s := DecimalString(n);
      assert s[..|s| - 1] == DecimalString(n / 10);
      DigitsValueOfDecimal(n / 10);
    }
  }

  /** `parse::<u8>` inverts `format!("{}", n)` on every eight-bit value. */
  lemma ParseU8OfDecimal(n: u8)
    ensures ParseU8(DecimalString(n)) == Some(n)
  {
    DigitsValueOfDecimal(n);
  }

  /** `c.to_string().repeat(n)`. */
  function Repeat(c: char, n: nat): (r: string)
    ensures |r| == n
    ensures forall i :: 0 <= i < n ==> r[i] == c
  {
    if n == 0 then [] else [c] + Repeat(c, n - 1)
  }

  /** chrono's `%H` and `%M`: a two-digit, zero-padded number. */
  function ZeroPad2(n: nat): (r: string)
    requires n < 100
    ensures |r| == 2 && AllDigits(r) && DigitsValue(r) == n
  {
    var r := [Digit(n / 10), Digit(n % 10)];
    assert r[..1] == [Digit(n / 10)] && r[..1][..0] == [];
    assert DigitsValue(r[..1]) == n / 10;
    r
  }
}
