/** Byte strings and the text forms the canisters give them: lower-case hex
    (the `hex` crate), `trim_start_matches("0x")`, big-endian integers, UTF-8
    and decimal formatting. */
module Bytes {
  import opened Wrappers

  /** Rust `u8`. */
  type uint8 = x: int | 0 <= x < 256

  /** 2^64, one more than `u64::MAX`. */
  const TWO_64: nat := 0x1_0000_0000_0000_0000

  /** Rust `u64`. */
  type uint64 = x: int | 0 <= x < 0x1_0000_0000_0000_0000

  // ---------------------------------------------------------------------------
  // Hex digits and the `hex` crate
  // ---------------------------------------------------------------------------

  predicate IsHexDigit(c: char) {
    ('0' <= c <= '9') || ('a' <= c <= 'f') || ('A' <= c <= 'F')
  }

  predicate IsLowerHexDigit(c: char) {
    ('0' <= c <= '9') || ('a' <= c <= 'f')
  }

  /** Text made of lower-case hex digits only, as `hex::encode` writes. */
  predicate IsLowerHex(s: string) {
    forall i :: 0 <= i < |s| ==> IsLowerHexDigit(s[i])
  }

  predicate AllHexDigits(s: string) {
    forall i :: 0 <= i < |s| ==> IsHexDigit(s[i])
  }

  function HexDigitValue(c: char): (v: nat)
    requires IsHexDigit(c)
    ensures v < 16
  {
    if '0' <= c <= '9' then c as int - '0' as int
    else if 'a' <= c <= 'f' then c as int - 'a' as int + 10
    else c as int - 'A' as int + 10
  }

  /** The lower-case digit for a nibble; the inverse of HexDigitValue. */
  function LowerHexDigit(v: nat): (c: char)
    requires v < 16
    ensures IsLowerHexDigit(c) && HexDigitValue(c) == v
  {
    if v < 10 then ('0' as int + v) as char else ('a' as int + v - 10) as char
  }

  /** `hex::encode`: two lower-case digits per byte, high nibble first. */
  function HexEncode(bs: seq<uint8>): (s: string)
    ensures |s| == 2 * |bs|
    ensures IsLowerHex(s)
  {
    seq(2 * |bs|, i requires 0 <= i < 2 * |bs| =>
      if i % 2 == 0 then LowerHexDigit(bs[i / 2] / 16) else LowerHexDigit(bs[i / 2] % 16))
  }

  /** Byte `k` becomes the digits at `2 * k` and `2 * k + 1`, high nibble
      first. */
  lemma HexEncodeDigits(bs: seq<uint8>)
    ensures forall k :: 0 <= k < |bs| ==>
              HexEncode(bs)[2 * k] == LowerHexDigit(bs[k] / 16)
              && HexEncode(bs)[2 * k + 1] == LowerHexDigit(bs[k] % 16)
  {
  }

  /** `hex::decode`: fails on an odd number of digits or on any character
      that is not a hex digit (either case); otherwise one byte per pair of
      digits, the first digit being the high nibble. */
  function HexDecode(s: string): (r: Option<seq<uint8>>)
    ensures r.Some? <==> |s| % 2 == 0 && AllHexDigits(s)
    ensures r.Some? ==> |r.value| == |s| / 2
    ensures r.Some? ==> forall k :: 0 <= k < |r.value| ==>
              r.value[k] == HexDigitValue(s[2 * k]) * 16 + HexDigitValue(s[2 * k + 1])
  {
    if |s| % 2 == 0 && AllHexDigits(s) then
      Some(seq(|s| / 2, k requires 0 <= k < |s| / 2 =>
        HexDigitValue(s[2 * k]) * 16 + HexDigitValue(s[2 * k + 1])))
    else None
  }

  /** Decoding undoes encoding. */
  lemma HexRoundTrip(bs: seq<uint8>)
    ensures HexDecode(HexEncode(bs)) == Some(bs)
  {
    var s := HexEncode(bs);
    HexEncodeDigits(bs);
    assert AllHexDigits(s) by {
      forall i | 0 <= i < |s| ensures IsHexDigit(s[i]) { assert IsLowerHexDigit(s[i]); }
    }
    var r := HexDecode(s);
    assert r.Some?;
    var v := r.value;
    assert |v| == |bs|;
    forall k | 0 <= k < |bs|
      ensures v[k] == bs[k]
    {
      var hi, lo := bs[k] / 16, bs[k] % 16;
      assert s[2 * k] == LowerHexDigit(hi) && s[2 * k + 1] == LowerHexDigit(lo);
      assert v[k] == HexDigitValue(s[2 * k]) * 16 + HexDigitValue(s[2 * k + 1]);
    }
    assert v == bs;
  }
  /** Two byte strings with the same hex text are equal, so comparing
      `hex::encode` outputs compares the bytes. */
  lemma HexEncodeInjective(a: seq<uint8>, b: seq<uint8>)
    ensures HexEncode(a) == HexEncode(b) <==> a == b
  {
    if HexEncode(a) == HexEncode(b) {
      HexRoundTrip(a);
      HexRoundTrip(b);
    }
  }

  /** Encoding a concatenation is concatenating the encodings. */
  lemma HexEncodeAppend(a: seq<uint8>, b: seq<uint8>)
    ensures HexEncode(a + b) == HexEncode(a) + HexEncode(b)
  {
    var l, r := HexEncode(a + b), HexEncode(a) + HexEncode(b);
    forall i | 0 <= i < |l| ensures l[i] == r[i] {
      if i < 2 * |a| {
        assert (a + b)[i / 2] == a[i / 2];
      } else {
        assert (a + b)[i / 2] == b[i / 2 - |a|];
        assert (i - 2 * |a|) / 2 == i / 2 - |a|;
        assert (i - 2 * |a|) % 2 == i % 2;
      }
    }
  }

  /** Lower-case hex text is hex text. */
  lemma LowerHexIsHex(s: string)
    requires IsLowerHex(s)
    ensures AllHexDigits(s)
  {
    forall i | 0 <= i < |s| ensures IsHexDigit(s[i]) { assert IsLowerHexDigit(s[i]); }
  }

  // ---------------------------------------------------------------------------
  // str::trim_start_matches("0x")
  // ---------------------------------------------------------------------------

  predicate StartsWith0x(s: string) {
    |s| >= 2 && s[0] == '0' && s[1] == 'x'
  }

  /** `s.trim_start_matches("0x")`: removes every leading repetition of
      "0x" (so "0x0x5" becomes "5"); an upper-case "0X" is kept. */
  function TrimLeading0x(s: string): (r: string)
    ensures |r| <= |s| && r == s[|s| - |r|..]
    ensures !StartsWith0x(r)
    ensures (|s| - |r|) % 2 == 0
    ensures forall i :: 0 <= i < |s| - |r| ==> s[i] == (if i % 2 == 0 then '0' else 'x')
    decreases |s|
  {
    if StartsWith0x(s) then
      var r := TrimLeading0x(s[2..]);
      assert forall i :: 2 <= i < |s| - |r| ==> s[i] == s[2..][i - 2];
      r
    else s
  }

  // ---------------------------------------------------------------------------
  // Big-endian unsigned integers
  // ---------------------------------------------------------------------------

  function Pow256(k: nat): (p: nat)
    ensures p >= 1
  {
    if k == 0 then 1 else 256 * Pow256(k - 1)
  }

  /** 2^256, one more than the largest `uint256`. */
  const TWO_256: nat := 0x1_0000_0000_0000_0000_0000_0000_0000_0000_0000_0000_0000_0000_0000_0000_0000_0000

  lemma {:induction false} Pow256Add(a: nat, b: nat)
    ensures Pow256(a + b) == Pow256(a) * Pow256(b)
  {
    if a > 0 {
      Pow256Add(a - 1, b);
      assert Pow256(a + b) == 256 * Pow256(a - 1 + b);
      assert 256 * (Pow256(a - 1) * Pow256(b)) == (256 * Pow256(a - 1)) * Pow256(b);
    }
  }

  /** Thirty-two bytes hold exactly the values below 2^256. */
  lemma Pow256ThirtyTwo()
    ensures Pow256(32) == TWO_256
  {
    assert Pow256(4) == 0x1_0000_0000;
    Pow256Add(4, 4);
    Pow256Add(8, 8);
    Pow256Add(16, 16);
  }

  /** The `len` low-order bytes of `n`, most significant first (so `n` is
      reduced modulo 256^len). */
  function BigEndian(n: nat, len: nat): (bs: seq<uint8>)
    ensures |bs| == len
  {
    seq(len, i requires 0 <= i < len => (n / Pow256(len - 1 - i)) % 256)
  }

  /** The unsigned integer a big-endian byte string denotes. */
  function FromBigEndian(bs: seq<uint8>): nat
  {
    if bs == [] then 0 else FromBigEndian(bs[..|bs| - 1]) * 256 + bs[|bs| - 1]
  }

  /** Division is determined by quotient and remainder. */
  lemma DivUnique(n: nat, d: nat, q: nat, r: nat)
    requires 0 <= r < d && n == d * q + r
    ensures n / d == q && n % d == r
  {
    var q', r' := n / d, n % d;
    assert n == d * q' + r' && 0 <= r' < d;
    assert d * q' < d * (q + 1) by { assert d * (q + 1) == d * q + d; }
    MulLtCancel(d, q', q + 1);
    assert d * q < d * (q' + 1) by { assert d * (q' + 1) == d * q' + d; }
    MulLtCancel(d, q, q' + 1);
  }

  lemma MulLtCancel(d: nat, a: nat, b: nat)
    requires d * a < d * b
    ensures a < b
  {
  }

  /** Dividing by 256 and then by `p` is dividing by 256 * p. */
  lemma DivDiv256(n: nat, p: nat)
    requires p >= 1
    ensures n / 256 / p == n / (256 * p)
  {
    var q, r := n / 256, n % 256;
    var a, b := q / p, q % p;
    assert n == 256 * q + r;
    assert q == p * a + b;
    assert n == (256 * p) * a + (256 * b + r) by {
      assert 256 * q == 256 * (p * a) + 256 * b;
      assert 256 * (p * a) == (256 * p) * a;
    }
    assert 256 * b + r < 256 * p by {
      assert b <= p - 1;
      assert 256 * b <= 256 * (p - 1);
    }
    DivUnique(n, 256 * p, a, 256 * b + r);
  }

  /** Dropping the last byte of an encoding is encoding the number shifted
      right by one byte. */
  lemma BigEndianInit(n: nat, len: nat)
    requires len > 0
    ensures BigEndian(n, len)[..len - 1] == BigEndian(n / 256, len - 1)
    ensures BigEndian(n, len)[len - 1] == n % 256
  {
    var bs, cs := BigEndian(n, len), BigEndian(n / 256, len - 1);
    forall i | 0 <= i < len - 1 ensures bs[i] == cs[i] {
      var p := Pow256(len - 2 - i);
      assert Pow256(len - 1 - i) == 256 * p;
      DivDiv256(n, p);
    }
    assert bs[..len - 1] == cs;
    assert Pow256(len - 1 - (len - 1)) == 1;
    assert bs[len - 1] == (n / 1) % 256;
  }

  /** Reading back a big-endian encoding of a number that fits gives the number. */
  lemma {:induction false} BigEndianRoundTrip(n: nat, len: nat)
    requires n < Pow256(len)
    ensures FromBigEndian(BigEndian(n, len)) == n
  {
    if len > 0 {
      BigEndianInit(n, len);
      DivUnique(n, 256, n / 256, n % 256);
      assert n / 256 < Pow256(len - 1);
      BigEndianRoundTrip(n / 256, len - 1);
    } else {
      assert n == 0;
    }
  }

  // ---------------------------------------------------------------------------
  // UTF-8 (`str::as_bytes`)
  // ---------------------------------------------------------------------------

  /** The UTF-8 encoding of one Unicode scalar value (RFC 3629). */
  function Utf8Char(c: char): (bs: seq<uint8>)
    ensures 1 <= |bs| <= 4
    ensures |bs| == 1 <==> (c as int) < 0x80
    ensures |bs| == 1 ==> bs[0] == c as int
  {
    var cp := c as int;
    if cp < 0x80 then [cp]
    else if cp < 0x800 then [0xC0 + cp / 64, 0x80 + cp % 64]
    else if cp < 0x10000 then [0xE0 + cp / 4096, 0x80 + (cp / 64) % 64, 0x80 + cp % 64]
    else [0xF0 + cp / 262144, 0x80 + (cp / 4096) % 64, 0x80 + (cp / 64) % 64, 0x80 + cp % 64]
  }

  /** The bytes of a Rust `String`: its UTF-8 encoding. */
  function Utf8(s: string): (bs: seq<uint8>)
    ensures |bs| >= |s|
  {
    if s == [] then [] else Utf8Char(s[0]) + Utf8(s[1..])
  }

  predicate IsAscii(s: string) {
    forall i :: 0 <= i < |s| ==> (s[i] as int) < 0x80
  }

  /** On ASCII text the UTF-8 bytes are the character codes. */
  lemma {:induction false} Utf8OfAscii(s: string)
    requires IsAscii(s)
    ensures Utf8(s) == seq(|s|, i requires 0 <= i < |s| => s[i] as int as uint8)
  {
    if s != [] {
      Utf8OfAscii(s[1..]);
    }
  }

  // ---------------------------------------------------------------------------
  // Decimal formatting (`{}` on an unsigned integer)
  // ---------------------------------------------------------------------------

  predicate IsDecimalDigit(c: char) {
    '0' <= c <= '9'
  }

  function DigitChar(d: nat): (c: char)
    requires d < 10
    ensures IsDecimalDigit(c) && c as int - '0' as int == d
  {
    ('0' as int + d) as char
  }

  /** Shortest decimal numeral of `n`: no leading zero, "0" for zero. */
  function DecimalString(n: nat): (s: string)
    ensures |s| >= 1
    ensures forall i :: 0 <= i < |s| ==> IsDecimalDigit(s[i])
    ensures |s| > 1 ==> s[0] != '0'
  {
    if n < 10 then [DigitChar(n)] else DecimalString(n / 10) + [DigitChar(n % 10)]
  }

  function DecimalValue(s: string): nat
    requires forall i :: 0 <= i < |s| ==> IsDecimalDigit(s[i])
  {
    if s == [] then 0
    else
      assert IsDecimalDigit(s[|s| - 1]);
      DecimalValue(s[..|s| - 1]) * 10 + (s[|s| - 1] as int - '0' as int)
  }

  /** Reading a formatted number back gives the number. */
  lemma {:induction false} DecimalRoundTrip(n: nat)
    ensures DecimalValue(DecimalString(n)) == n
  {
    if n >= 10 {
      var s := DecimalString(n);
      assert s[..|s| - 1] == DecimalString(n / 10);
      DecimalRoundTrip(n / 10);
    }
  }
}
