/** `u64::from_str_radix(s, 16)`, the parser both canisters apply to the hex
    quantities an EVM JSON-RPC node returns (nonces, token ids) once
    `trim_start_matches("0x")` has removed the prefix. */
module RadixParse {
  import opened Wrappers
  import opened Bytes

  /** The kinds of `core::num::ParseIntError` that unsigned parsing reports. */
  datatype IntErrorKind = Empty | InvalidDigit | PosOverflow

  function Pow16(k: nat): (p: nat)
    ensures p >= 1
  {
    if k == 0 then 1 else 16 * Pow16(k - 1)
  }

  /** Reference meaning of a string of hex digits, most significant first. */
  function HexValue(ds: string): nat
    requires AllHexDigits(ds)
  {
    if ds == [] then 0 else HexDigitValue(ds[0]) * Pow16(|ds| - 1) + HexValue(ds[1..])
  }

  /** The digits `from_str_radix` reads: an unsigned type accepts one
      optional leading '+'; a '-' is left in place and so is an invalid digit. */
  function DigitsOf(s: string): string {
    if |s| > 0 && s[0] == '+' then s[1..] else s
  }

  /** The digit loop of `from_str_radix`: for each character, left to right,
      a non-digit is reported first, then a multiply-add that leaves `u64`. */
  function AccumulateHex(ds: string, acc: uint64): Result<uint64, IntErrorKind>
    decreases |ds|
  {
    if ds == [] then Ok(acc)
    else if !IsHexDigit(ds[0]) then Err(InvalidDigit)
    else if acc * 16 + HexDigitValue(ds[0]) >= TWO_64 then Err(PosOverflow)
    else AccumulateHex(ds[1..], acc * 16 + HexDigitValue(ds[0]))
  }

  /** A non-empty string is all hex digits exactly when its head and its tail are. */
  lemma AllHexDigitsCons(ds: string)
    requires ds != []
    ensures AllHexDigits(ds) <==> IsHexDigit(ds[0]) && AllHexDigits(ds[1..])
  {
    if IsHexDigit(ds[0]) && AllHexDigits(ds[1..]) {
      forall i | 0 <= i < |ds| ensures IsHexDigit(ds[i]) {
        if i > 0 { assert ds[i] == ds[1..][i - 1]; }
      }
    }
  }

  /** One step of the digit loop shifts the accumulator by one digit. */
  lemma ShiftOneDigit(ds: string, acc: nat)
    requires ds != [] && AllHexDigits(ds)
    ensures AllHexDigits(ds[1..])
    ensures acc * Pow16(|ds|) + HexValue(ds)
            == (acc * 16 + HexDigitValue(ds[0])) * Pow16(|ds| - 1) + HexValue(ds[1..])
  {
    AllHexDigitsCons(ds);
    var p := Pow16(|ds| - 1);
    var d := HexDigitValue(ds[0]);
    assert Pow16(|ds|) == 16 * p;
    assert HexValue(ds) == d * p + HexValue(ds[1..]);
    ShiftArith(acc, d, p);
  }

  lemma ShiftArith(acc: nat, d: nat, p: nat)
    ensures acc * (16 * p) + d * p == (acc * 16 + d) * p
  {
    assert acc * (16 * p) == (acc * 16) * p;
  }

  /** The digit loop computes the reference value, shifted past what it has
      already accumulated, and fails exactly when a digit is bad or that
      value does not fit in 64 bits. */
  lemma {:induction false} AccumulateHexMeaning(ds: string, acc: uint64)
    ensures AccumulateHex(ds, acc).Ok? <==>
              AllHexDigits(ds) && acc * Pow16(|ds|) + HexValue(ds) < TWO_64
    ensures AccumulateHex(ds, acc).Ok? ==>
              AccumulateHex(ds, acc).value == acc * Pow16(|ds|) + HexValue(ds)
  {
    if ds != [] {
      AllHexDigitsCons(ds);
      if IsHexDigit(ds[0]) {
        var next := acc * 16 + HexDigitValue(ds[0]);
        if next < TWO_64 {
          assert AccumulateHex(ds, acc) == AccumulateHex(ds[1..], next);
          AccumulateHexMeaning(ds[1..], next);
          if AllHexDigits(ds) {
            ShiftOneDigit(ds, acc);
          }
        } else {
          assert AccumulateHex(ds, acc) == Err(PosOverflow);
          if AllHexDigits(ds) {
            ShiftOneDigit(ds, acc);
            assert next * Pow16(|ds| - 1) >= next;
          }
        }
      } else {
        assert AccumulateHex(ds, acc) == Err(InvalidDigit);
      }
    }
  }

  /** `u64::from_str_radix(s, 16)`: "" is `Empty`, a lone "+" is
      `InvalidDigit`, and otherwise the digits after an optional '+' are
      read left to right. */
  function FromStrRadix16(s: string): (r: Result<uint64, IntErrorKind>)
    ensures s == [] ==> r == Err(Empty)
    ensures s == "+" ==> r == Err(InvalidDigit)
    ensures r.Ok? <==>
              DigitsOf(s) != [] && AllHexDigits(DigitsOf(s)) && HexValue(DigitsOf(s)) < TWO_64
    ensures r.Ok? ==> r.value == HexValue(DigitsOf(s))
  {
    if s == [] then Err(Empty)
    else if s == "+" then Err(InvalidDigit)
    else
      AccumulateHexMeaning(DigitsOf(s), 0);
      AccumulateHex(DigitsOf(s), 0)
  }

  /** The hex quantity of a JSON-RPC answer: strip every leading "0x", then
      parse base 16. */
  function ParsePrefixedHexU64(s: string): (r: Result<uint64, IntErrorKind>)
    ensures r.Ok? <==>
              var ds := DigitsOf(TrimLeading0x(s));
              ds != [] && AllHexDigits(ds) && HexValue(ds) < TWO_64
    ensures r.Ok? ==> r.value == HexValue(DigitsOf(TrimLeading0x(s)))
  {
    FromStrRadix16(TrimLeading0x(s))
  }

  /** The nonce examples of the canister's unit tests. */
  lemma NonceExamples()
    ensures ParsePrefixedHexU64("0xa") == Ok(10)
    ensures ParsePrefixedHexU64("0x15") == Ok(21)
    ensures ParsePrefixedHexU64("0x0") == Ok(0)
  {
    TrimExample("0xa", "a");
    TrimExample("0x15", "15");
    TrimExample("0x0", "0");
    assert AccumulateHex("a", 0) == Ok(10);
    assert AccumulateHex("5", 1) == Ok(21);
    assert AccumulateHex("15", 0) == Ok(21);
    assert AccumulateHex("0", 0) == Ok(0);
  }

  /** `TrimLeading0x` removes exactly one prefix from "0x" followed by a
      string that does not start with "0x". */
  lemma TrimExample(s: string, rest: string)
    requires s == "0x" + rest && !StartsWith0x(rest)
    ensures TrimLeading0x(s) == rest
  {
    assert s[2..] == rest;
  }

  /** A bare prefix leaves no digits. */
  lemma BarePrefixIsEmpty()
    ensures ParsePrefixedHexU64("0x") == Err(Empty)
  {
    TrimExample("0x", "");
  }

  /** A repeated prefix is stripped too. */
  lemma RepeatedPrefixStripped()
    ensures ParsePrefixedHexU64("0x0xff") == Ok(255)
  {
    TrimExample("0xff", "ff");
    assert "0x0xff"[2..] == "0xff";
    assert TrimLeading0x("0x0xff") == "ff";
    assert AccumulateHex("f", 15) == Ok(255);
    assert AccumulateHex("ff", 0) == Ok(255);
  }

  /** A non-digit right after the prefix is rejected. */
  lemma RejectExample()
    ensures ParsePrefixedHexU64("0xg") == Err(InvalidDigit)
  {
    TrimExample("0xg", "g");
    assert DigitsOf("g") == "g" && !IsHexDigit('g');
    assert AccumulateHex("g", 0) == Err(InvalidDigit);
  }

  /** On a string of hex digits the loop never reports a bad digit: it
      either succeeds or overflows. */
  lemma {:induction false} HexDigitsNeverInvalid(ds: string, acc: uint64)
    requires AllHexDigits(ds)
    ensures AccumulateHex(ds, acc).Ok? || AccumulateHex(ds, acc) == Err(PosOverflow)
  {
    if ds != [] {
      AllHexDigitsCons(ds);
      var next := acc * 16 + HexDigitValue(ds[0]);
      if next < TWO_64 {
        HexDigitsNeverInvalid(ds[1..], next);
      }
    }
  }

  lemma {:induction false} Pow16Monotone(j: nat, k: nat)
    requires j <= k
    ensures Pow16(j) <= Pow16(k)
  {
    if j < k {
      Pow16Monotone(j, k - 1);
    }
  }

  lemma {:induction false} Pow16Add(a: nat, b: nat)
    ensures Pow16(a + b) == Pow16(a) * Pow16(b)
  {
    if a > 0 {
      Pow16Add(a - 1, b);
      assert Pow16(a + b) == 16 * Pow16(a - 1 + b);
      assert 16 * (Pow16(a - 1) * Pow16(b)) == (16 * Pow16(a - 1)) * Pow16(b);
    }
  }

  /** Sixteen hex digits are exactly the 64 bits of a `u64`. */
  lemma Pow16Sixteen()
    ensures Pow16(16) == TWO_64
  {
    assert Pow16(4) == 0x1_0000;
    Pow16Add(4, 4);
    Pow16Add(8, 8);
  }

  /** Hex digits whose value does not fit in 64 bits fail with
      `PosOverflow`; in particular any numeral of more than sixteen digits
      with a non-zero leading digit does. */
  lemma Overflow(ds: string)
    requires ds != [] && AllHexDigits(ds)
    requires HexValue(ds) >= TWO_64 || (|ds| > 16 && ds[0] != '0')
    ensures FromStrRadix16(ds) == Err(PosOverflow)
  {
    assert DigitsOf(ds) == ds;
    if HexValue(ds) < TWO_64 {
      Pow16Sixteen();
      Pow16Monotone(16, |ds| - 1);
      assert false;
    }
    if ds != "+" {
      HexDigitsNeverInvalid(ds, 0);
    }
  }

  /** The value of a concatenation of numerals: the first shifted past the
      digits of the second. */
  lemma {:induction false} HexValueAppend(a: string, b: string)
    requires AllHexDigits(a) && AllHexDigits(b)
    ensures AllHexDigits(a + b)
    ensures HexValue(a + b) == HexValue(a) * Pow16(|b|) + HexValue(b)
  {
    AllHexDigitsAppend(a, b);
    if a == [] {
      assert a + b == b;
    } else {
      AllHexDigitsCons(a);
      assert (a + b)[1..] == a[1..] + b;
      assert (a + b)[0] == a[0];
      HexValueAppend(a[1..], b);
      Pow16Add(|a| - 1, |b|);
      AppendArith(HexValue(a + b), HexValue(a[1..] + b), Pow16(|a + b| - 1), HexValue(a),
                  HexDigitValue(a[0]), Pow16(|a| - 1), Pow16(|b|), HexValue(a[1..]), HexValue(b));
    }
  }

  lemma AllHexDigitsAppend(a: string, b: string)
    requires AllHexDigits(a) && AllHexDigits(b)
    ensures AllHexDigits(a + b)
  {
    forall i | 0 <= i < |a + b| ensures IsHexDigit((a + b)[i]) {
      if i < |a| { assert (a + b)[i] == a[i]; } else { assert (a + b)[i] == b[i - |a|]; }
    }
  }

  lemma AppendArith(v: nat, m: nat, pq: nat, a: nat, d: nat, p: nat, q: nat, x: nat, y: nat)
    requires v == d * pq + m && m == x * q + y && pq == p * q && a == d * p + x
    ensures v == a * q + y
  {
    assert d * (p * q) == (d * p) * q;
    assert (d * p) * q + x * q == (d * p + x) * q;
  }

  /** Read as a numeral, the hex text of a byte string is the big-endian
      number those bytes denote. */
  lemma {:induction false} HexValueOfEncoding(bs: seq<uint8>)
    ensures AllHexDigits(HexEncode(bs))
    ensures HexValue(HexEncode(bs)) == FromBigEndian(bs)
  {
    LowerHexIsHex(HexEncode(bs));
    if bs != [] {
      var init, last := bs[..|bs| - 1], bs[|bs| - 1];
      assert bs == init + [last];
      HexEncodeAppend(init, [last]);
      HexValueOfEncoding(init);
      HexValueOfByte(last);
      HexValueAppend(HexEncode(init), HexEncode([last]));
      assert Pow16(2) == 256;
    }
  }

  /** The two digits of one byte read back as the byte. */
  lemma HexValueOfByte(b: uint8)
    ensures AllHexDigits(HexEncode([b]))
    ensures HexValue(HexEncode([b])) == b
  {
    var h := HexEncode([b]);
    LowerHexIsHex(h);
    HexEncodeDigits([b]);
    var hi, lo := HexDigitValue(h[0]), HexDigitValue(h[1]);
    assert hi == b / 16 && lo == b % 16;
    assert h[1..][1..] == [];
    assert HexValue(h[1..]) == lo;
    assert HexValue(h) == hi * 16 + lo;
  }

  /** A 32-byte word written as "0x" and 64 hex digits, the form of an
      indexed `uint256` event topic, parses to its value when that fits in
      64 bits and overflows otherwise. */
  lemma WordTextParses(n: nat)
    requires n < TWO_256
    ensures var text := "0x" + HexEncode(BigEndian(n, 32));
            ParsePrefixedHexU64(text) == if n < TWO_64 then Ok(n) else Err(PosOverflow)
  {
    var ds := HexEncode(BigEndian(n, 32));
    var text := "0x" + ds;
    assert text[2..] == ds;
    assert !StartsWith0x(ds) by {
      assert IsLowerHexDigit(ds[1]);
    }
    assert TrimLeading0x(text) == ds;
    assert ds[0] != '+' by {
      assert IsLowerHexDigit(ds[0]);
    }
    assert DigitsOf(ds) == ds;
    HexValueOfEncoding(BigEndian(n, 32));
    Pow256ThirtyTwo();
    BigEndianRoundTrip(n, 32);
    if n >= TWO_64 {
      Overflow(ds);
    }
  }
}
