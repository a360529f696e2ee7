/** Byte strings, fixed-width numerals and decimal numbers. */
module Encoding {
  type byte = x: int | 0 <= x < 256

  const INT64_LIMIT: int := 0x8000_0000_0000_0000
  const UINT64_LIMIT: nat := 0x1_0000_0000_0000_0000

  predicate IsInt64(n: int) { -INT64_LIMIT <= n < INT64_LIMIT }

  /** The bytes of an ASCII string. */
  function Ascii(s: string): (r: seq<byte>)
    ensures |r| == |s|
  {
    seq(|s|, i requires 0 <= i < |s| => s[i] as int % 128)
  }

  /** Byte-wise lexicographic order, as Go and SQLite compare strings. */
  predicate LexLess(a: seq<byte>, b: seq<byte>)
    decreases |a|
  {
    if b == [] then false
    else if a == [] then true
    else if a[0] != b[0] then a[0] < b[0]
    else LexLess(a[1..], b[1..])
  }

  lemma {:induction false} LexAppend(a: seq<byte>, b: seq<byte>, c: byte, d: byte)
    requires |a| == |b|
    ensures LexLess(a + [c], b + [d]) <==> LexLess(a, b) || (a == b && c < d)
    decreases |a|
  {
    if a != [] {
      assert (a + [c])[1..] == a[1..] + [c] && (b + [d])[1..] == b[1..] + [d];
      assert a == [a[0]] + a[1..] && b == [b[0]] + b[1..];
      LexAppend(a[1..], b[1..], c, d);
    }
  }

  // ---- Fixed-width numerals ----------------------------------------------

  /** n has at most k digits in the given base. */
  predicate Fits(n: nat, base: nat, k: nat)
    requires base > 0
    decreases k
  {
    if k == 0 then n == 0 else Fits(n / base, base, k - 1)
  }

  /** The last k base-256 digits of n, most significant first. */
  function BigEndian(n: nat, k: nat): (r: seq<byte>)
    ensures |r| == k
    decreases k
  {
    if k == 0 then [] else BigEndian(n / 256, k - 1) + [n % 256]
  }

  function Value(digits: seq<byte>): nat
    decreases |digits|
  {
    if digits == [] then 0 else Value(digits[..|digits| - 1]) * 256 + digits[|digits| - 1]
  }

  lemma {:induction false} BigEndianRoundTrip(n: nat, k: nat)
    requires Fits(n, 256, k)
    ensures Value(BigEndian(n, k)) == n
    decreases k
  {
    if k > 0 {
      BigEndianRoundTrip(n / 256, k - 1);
      assert BigEndian(n, k)[..k - 1] == BigEndian(n / 256, k - 1);
    }
  }

  lemma Uint64Fits(n: nat)
    requires n < UINT64_LIMIT
    ensures Fits(n, 256, 8)
  {
    var a := n / 256;
    assert a < 0x100_0000_0000_0000;
    var b := a / 256;
    assert b < 0x1_0000_0000_0000;
    var c := b / 256;
    assert c < 0x100_0000_0000;
    var d := c / 256;
    assert Fits(d, 256, 4) by {
      assert d < 0x1_0000_0000;
      assert Fits(d / 256 / 256, 256, 2);
    }
    assert Fits(b, 256, 6) == Fits(c, 256, 5) == Fits(d, 256, 4);
    assert Fits(n, 256, 8) == Fits(a, 256, 7) == Fits(b, 256, 6);
  }

  // ---- Decimal numbers ---------------------------------------------------

  const ZERO: byte := 48
  const MINUS: byte := 45

  predicate IsDigit(b: byte) { ZERO <= b < ZERO + 10 }

  /** Decimal digits without leading zeros. */
  function Digits(n: nat): (r: seq<byte>)
    ensures 0 < |r| <= n + 1
    ensures forall i | 0 <= i < |r| :: IsDigit(r[i])
    decreases n
  {
    if n < 10 then [ZERO + n] else Digits(n / 10) + [ZERO + n % 10]
  }

  /** strconv.FormatInt in base ten. */
  function FormatInt(n: int): (r: seq<byte>)
    ensures |r| > 0
  {
    if n < 0 then [MINUS] + Digits(-n) else Digits(n)
  }

  function ParseDigits(s: seq<byte>): int
    decreases |s|
  {
    if s == [] then 0 else ParseDigits(s[..|s| - 1]) * 10 + s[|s| - 1] - ZERO
  }

  function ParseInt(s: seq<byte>): int { if s != [] && s[0] == MINUS then -ParseDigits(s[1..]) else ParseDigits(s) }

  lemma {:induction false} DigitsRoundTrip(n: nat)
    ensures ParseDigits(Digits(n)) == n
    decreases n
  {
    if n < 10 {
      assert ParseDigits([ZERO + n]) == ParseDigits([]) * 10 + n;
    } else {
      DigitsRoundTrip(n / 10);
      assert Digits(n)[..|Digits(n)| - 1] == Digits(n / 10);
    }
  }

  lemma FormatIntRoundTrip(n: int)
    ensures ParseInt(FormatInt(n)) == n
  {
    if n < 0 {
      DigitsRoundTrip(-n);
      assert FormatInt(n)[1..] == Digits(-n);
    } else {
      DigitsRoundTrip(n);
      assert FormatInt(n)[0] != MINUS;
    }
  }
}

/** The storage order of projected events (internal/missionpass/events.go). */
module EventCursor {
  import opened Encoding

  function Padded(n: nat, width: nat): (r: seq<byte>)
    ensures |r| == width
    ensures forall i | 0 <= i < width :: IsDigit(r[i])
    decreases width
  {
    if width == 0 then [] else Padded(n / 10, width - 1) + [ZERO + n % 10]
  }

  /** fmt's zero-padded integer verb, whose width counts the sign. */
  function Signed(n: int, width: nat): (r: seq<byte>)
    requires width > 0
    ensures |r| == width
  {
    if n < 0 then [MINUS] + Padded(-n, width - 1) else Padded(n, width)
  }

  const CURSOR_WIDTH: nat := 20

  /** eventCursor. */
  function Cursor(seqNo: int): (r: seq<byte>)
    ensures |r| == CURSOR_WIDTH
  {
    Signed(seqNo, CURSOR_WIDTH)
  }

  lemma {:induction false} PaddedOrder(x: nat, y: nat, width: nat)
    requires Fits(x, 10, width) && Fits(y, 10, width)
    ensures LexLess(Padded(x, width), Padded(y, width)) <==> x < y
    ensures Padded(x, width) == Padded(y, width) <==> x == y
    decreases width
  {
    if width > 0 {
      var a, b := Padded(x / 10, width - 1), Padded(y / 10, width - 1);
      PaddedOrder(x / 10, y / 10, width - 1);
      LexAppend(a, b, ZERO + x % 10, ZERO + y % 10);
      assert Padded(x, width)[..width - 1] == a && Padded(y, width)[..width - 1] == b;
    }
  }

  function Pow10(k: nat): nat { if k == 0 then 1 else 10 * Pow10(k - 1) }

  lemma {:induction false} FitsBelow(n: nat, k: nat)
    requires n < Pow10(k)
    ensures Fits(n, 10, k)
    decreases k
  {
    if k > 0 { FitsBelow(n / 10, k - 1); }
  }

  lemma Int64Fits(n: nat, k: nat)
    requires n <= INT64_LIMIT && 19 <= k <= 20
    ensures Fits(n, 10, k)
  {
    assert Pow10(4) == 10_000;
    assert Pow10(8) == 10_000 * Pow10(4) by { assert Pow10(6) == 100 * Pow10(4); }
    assert Pow10(12) == 10_000 * Pow10(8) by { assert Pow10(10) == 100 * Pow10(8); }
    assert Pow10(16) == 10_000 * Pow10(12) by { assert Pow10(14) == 100 * Pow10(12); }
    assert Pow10(18) == 100 * Pow10(16);
    assert Pow10(19) == 10 * Pow10(18) && Pow10(20) == 10 * Pow10(19);
    FitsBelow(n, k);
  }

  lemma SignedOrder(x: int, y: int, width: nat)
    requires width > 0
    requires Fits(if x < 0 then -x else x, 10, if x < 0 then width - 1 else width)
    requires Fits(if y < 0 then -y else y, 10, if y < 0 then width - 1 else width)
    ensures LexLess(Signed(x, width), Signed(y, width)) <==> if x < 0 && y < 0 then y < x else x < y
    ensures Signed(x, width) == Signed(y, width) <==> x == y
  {
    if x >= 0 && y >= 0 {
      PaddedOrder(x, y, width);
    } else if x < 0 && y < 0 {
      // Larger magnitude, larger string.
      PaddedOrder(-x, -y, width - 1);
      assert Signed(x, width)[1..] == Padded(-x, width - 1) && Signed(y, width)[1..] == Padded(-y, width - 1);
    } else {
      assert Signed(x, width)[0] != Signed(y, width)[0];
    }
  }

  /** Two cursors compare as strings the way their sequence numbers compare,
      for every pair of int64 numbers that are not both negative; two negative
      numbers compare the other way round. */
  lemma CursorOrder(x: int, y: int)
    requires IsInt64(x) && IsInt64(y)
    ensures LexLess(Cursor(x), Cursor(y)) <==> if x < 0 && y < 0 then y < x else x < y
    ensures Cursor(x) == Cursor(y) <==> x == y
  {
    Int64Fits(if x < 0 then -x else x, if x < 0 then 19 else 20);
    Int64Fits(if y < 0 then -y else y, if y < 0 then 19 else 20);
    SignedOrder(x, y, CURSOR_WIDTH);
  }
}
