/** The Solidity contract ABI encoding of an argument list, as `ethabi::encode`
    produces it ("Formal Specification of the Encoding" in the Solidity
    Contract ABI Specification): every value takes one or more 32-byte
    words; static values sit in the head in order, and each dynamic value
    (a `string`, or a tuple holding one) leaves in the head a word with the
    byte offset of its own encoding in the tail. */
module Abi {
  import opened Bytes

  /** An EVM address: 20 bytes. */
  type Address20 = a: seq<uint8> | |a| == 20 witness seq(20, _ => 0)

  /** A `uint256` value. */
  type uint256 = n: nat | n < TWO_256

  /** The `ethabi::Token` variants the canisters build. */
  datatype Token =
    | Address(addr: Address20)
    | Uint(value: uint256)
    | FixedBytes(bytes: seq<uint8>)
    | String(text: string)
    | Tuple(items: seq<Token>)

  function Zeros(n: nat): (z: seq<uint8>)
    ensures |z| == n && forall i :: 0 <= i < n ==> z[i] == 0
  {
    seq(n, _ => 0)
  }

  /** A 32-byte big-endian word. */
  function Word(n: nat): (w: seq<uint8>)
    ensures |w| == 32
  {
    BigEndian(n, 32)
  }

  /** Right-pads with zero bytes to the next multiple of 32. */
  function PadRight(bs: seq<uint8>): (r: seq<uint8>)
    ensures |r| % 32 == 0 && |bs| <= |r| < |bs| + 32
    ensures r[..|bs|] == bs
    ensures forall i :: |bs| <= i < |r| ==> r[i] == 0
  {
    bs + Zeros((32 - |bs| % 32) % 32)
  }

  /** A `string` is dynamic, and so is a tuple with a dynamic member. */
  predicate IsDynamic(t: Token)
    decreases t, 1
  {
    match t
    case String(_) => true
    case Tuple(items) => AnyDynamic(items)
    case _ => false
  }

  predicate AnyDynamic(ts: seq<Token>)
    decreases ts, 0
  {
    ts != [] && (IsDynamic(ts[0]) || AnyDynamic(ts[1..]))
  }

  /** The encoding of one value, as it appears in place (static) or in the
      tail (dynamic). */
  function Enc(t: Token): seq<uint8>
    decreases t, 1
  {
    match t
    case Address(a) => Zeros(12) + a
    case Uint(n) => Word(n)
    case FixedBytes(b) => PadRight(b)
    case String(s) => var u := Utf8(s); Word(|u|) + PadRight(u)
    case Tuple(items) => EncodeSeq(items)
  }

  /** Each value of a list with its dynamic flag and its own encoding. */
  function Parts(ts: seq<Token>): (ps: seq<Part>)
    ensures |ps| == |ts|
    decreases ts, 0
  {
    seq(|ts|, i requires 0 <= i < |ts| => Part(IsDynamic(ts[i]), Enc(ts[i])))
  }

  /** `ethabi::encode` of an argument list. */
  function EncodeSeq(ts: seq<Token>): seq<uint8>
    decreases ts, 1
  {
    Layout(Parts(ts))
  }

  // ---------------------------------------------------------------------------
  // The head/tail layout of already-encoded values
  // ---------------------------------------------------------------------------

  /** One value of an argument list, already encoded. */
  datatype Part = Part(dynamic: bool, enc: seq<uint8>)

  /** Bytes a value takes in the head: one offset word if dynamic. */
  function HeadLen(p: Part): nat {
    if p.dynamic then 32 else |p.enc|
  }

  function HeadsLength(ps: seq<Part>): nat {
    if ps == [] then 0 else HeadLen(ps[0]) + HeadsLength(ps[1..])
  }

  /** The head part, where `offset` is the position (from the start of the
      encoding) at which the next dynamic value's encoding will start. */
  function Heads(ps: seq<Part>, offset: nat): seq<uint8> {
    if ps == [] then []
    else if ps[0].dynamic then Word(offset) + Heads(ps[1..], offset + |ps[0].enc|)
    else ps[0].enc + Heads(ps[1..], offset)
  }

  /** The tail part: the dynamic values' encodings, in order. */
  function Tails(ps: seq<Part>): seq<uint8> {
    if ps == [] then []
    else (if ps[0].dynamic then ps[0].enc else []) + Tails(ps[1..])
  }

  /** Heads then tails; the first tail starts right after the heads. */
  function Layout(ps: seq<Part>): seq<uint8> {
    Heads(ps, HeadsLength(ps)) + Tails(ps)
  }

  predicate WholeWords(ps: seq<Part>) {
    forall i :: 0 <= i < |ps| ==> |ps[i].enc| % 32 == 0
  }

  lemma WordsAdd(a: nat, b: nat)
    requires a % 32 == 0 && b % 32 == 0
    ensures (a + b) % 32 == 0
  {
    assert a == 32 * (a / 32) && b == 32 * (b / 32);
    assert a + b == 32 * (a / 32 + b / 32);
  }

  lemma WholeWordsTail(ps: seq<Part>)
    requires ps != [] && WholeWords(ps)
    ensures WholeWords(ps[1..])
  {
    forall i | 0 <= i < |ps| - 1 ensures |ps[1..][i].enc| % 32 == 0 {
      assert ps[1..][i] == ps[i + 1];
    }
  }

  lemma {:induction false} HeadsWords(ps: seq<Part>, offset: nat)
    requires WholeWords(ps)
    ensures |Heads(ps, offset)| == HeadsLength(ps)
    ensures |Heads(ps, offset)| % 32 == 0
  {
    if ps != [] {
      WholeWordsTail(ps);
      var o := if ps[0].dynamic then offset + |ps[0].enc| else offset;
      HeadsWords(ps[1..], o);
      var first := if ps[0].dynamic then Word(offset) else ps[0].enc;
      assert Heads(ps, offset) == first + Heads(ps[1..], o);
      WordsAdd(|first|, |Heads(ps[1..], o)|);
    }
  }

  lemma {:induction false} TailsWords(ps: seq<Part>)
    requires WholeWords(ps)
    ensures |Tails(ps)| % 32 == 0
  {
    if ps != [] {
      WholeWordsTail(ps);
      TailsWords(ps[1..]);
      var first := if ps[0].dynamic then ps[0].enc else [];
      assert Tails(ps) == first + Tails(ps[1..]);
      WordsAdd(|first|, |Tails(ps[1..])|);
    }
  }

  /** Laying out whole-word values gives whole words. */
  lemma LayoutWords(ps: seq<Part>)
    requires WholeWords(ps)
    ensures |Layout(ps)| % 32 == 0
  {
    HeadsWords(ps, HeadsLength(ps));
    TailsWords(ps);
    WordsAdd(|Heads(ps, HeadsLength(ps))|, |Tails(ps)|);
  }

  /** Unfolding `Heads` at a first element. */
  lemma HeadsCons(p: Part, rest: seq<Part>, offset: nat)
    ensures Heads([p] + rest, offset) ==
              if p.dynamic then Word(offset) + Heads(rest, offset + |p.enc|)
              else p.enc + Heads(rest, offset)
  {
    assert ([p] + rest)[0] == p && ([p] + rest)[1..] == rest;
  }

  /** Unfolding `Tails` at a first element. */
  lemma TailsCons(p: Part, rest: seq<Part>)
    ensures Tails([p] + rest) == (if p.dynamic then p.enc else []) + Tails(rest)
  {
    assert ([p] + rest)[0] == p && ([p] + rest)[1..] == rest;
  }

  /** The tails of a concatenated list are the tails of each part. */
  lemma {:induction false} TailsAppend(a: seq<Part>, b: seq<Part>)
    ensures Tails(a + b) == Tails(a) + Tails(b)
  {
    if a == [] {
      assert a + b == b;
    } else {
      var p, rest := a[0], a[1..];
      assert a == [p] + rest && a + b == [p] + (rest + b);
      TailsCons(p, rest + b);
      TailsCons(p, rest);
      TailsAppend(rest, b);
    }
  }

  /** The heads of a concatenated list: those of the second part continue
      from the tail offset reached after the first. */
  lemma {:induction false} HeadsAppend(a: seq<Part>, b: seq<Part>, offset: nat)
    ensures Heads(a + b, offset) == Heads(a, offset) + Heads(b, offset + |Tails(a)|)
  {
    if a == [] {
      assert a + b == b;
    } else {
      var p, rest := a[0], a[1..];
      assert a == [p] + rest && a + b == [p] + (rest + b);
      HeadsCons(p, rest + b, offset);
      HeadsCons(p, rest, offset);
      TailsCons(p, rest);
      var o := if p.dynamic then offset + |p.enc| else offset;
      HeadsAppend(rest, b, o);
    }
  }

  lemma {:induction false} HeadsLengthIsLength(ps: seq<Part>, offset: nat)
    ensures |Heads(ps, offset)| == HeadsLength(ps)
  {
    if ps != [] {
      HeadsLengthIsLength(ps[1..], if ps[0].dynamic then offset + |ps[0].enc| else offset);
    }
  }

  /** A layout cut at value `i`: the heads before it, the heads from it on,
      the tails before it and the tails from it on. */
  lemma LayoutSplit(ps: seq<Part>, i: nat)
    requires i < |ps|
    ensures var H := HeadsLength(ps);
            var q := H + |Tails(ps[..i])|;
            var hp, hq := Heads(ps[..i], H), Heads(ps[i..], q);
            Layout(ps) == (hp + hq) + (Tails(ps[..i]) + Tails(ps[i..])) &&
            |hp| == HeadsLength(ps[..i]) && |hp + hq| == H
  {
    var pre, post := ps[..i], ps[i..];
    assert ps == pre + post;
    var H := HeadsLength(ps);
    HeadsAppend(pre, post, H);
    TailsAppend(pre, post);
    HeadsLengthIsLength(pre, H);
    HeadsLengthIsLength(ps, H);
  }

  /** A slice inside the first part of a concatenation. */
  lemma SliceOfPrefix(e: seq<uint8>, a: seq<uint8>, b: seq<uint8>, k: nat, n: nat)
    requires e == a + b && k + n <= |a|
    ensures e[k..k + n] == a[k..k + n]
  {
  }

  /** A slice inside the second part of a concatenation. */
  lemma SliceOfSuffix(e: seq<uint8>, a: seq<uint8>, b: seq<uint8>, k: nat, n: nat)
    requires e == a + b && |a| <= k && k + n <= |e|
    ensures e[k..k + n] == b[k - |a|..k - |a| + n]
  {
  }

  /** Unfolding `Heads` at value `i` of a list. */
  lemma HeadsAt(ps: seq<Part>, i: nat, offset: nat)
    requires i < |ps|
    ensures Heads(ps[i..], offset) ==
              if ps[i].dynamic then Word(offset) + Heads(ps[i + 1..], offset + |ps[i].enc|)
              else ps[i].enc + Heads(ps[i + 1..], offset)
  {
    assert ps[i..][0] == ps[i] && ps[i..][1..] == ps[i + 1..];
  }

  /** Unfolding `Tails` at value `i` of a list. */
  lemma TailsAt(ps: seq<Part>, i: nat)
    requires i < |ps|
    ensures Tails(ps[i..]) == (if ps[i].dynamic then ps[i].enc else []) + Tails(ps[i + 1..])
  {
    assert ps[i..][0] == ps[i] && ps[i..][1..] == ps[i + 1..];
  }

  /** A piece at the start of the second head part of a layout. */
  lemma SliceInHeads(e: seq<uint8>, hp: seq<uint8>, hq: seq<uint8>, t: seq<uint8>,
                     x: seq<uint8>, y: seq<uint8>)
    requires e == (hp + hq) + t && hq == x + y
    ensures |hp| + |x| <= |e| && e[|hp|..|hp| + |x|] == x
  {
    assert e == hp + x + (y + t);
  }

  /** A piece at the start of the second tail part of a layout. */
  lemma SliceInTails(e: seq<uint8>, h: seq<uint8>, tp: seq<uint8>, tq: seq<uint8>,
                     x: seq<uint8>, y: seq<uint8>)
    requires e == h + (tp + tq) && tq == x + y
    ensures |h| + |tp| + |x| <= |e| && e[|h| + |tp|..|h| + |tp| + |x|] == x
  {
    assert e == (h + tp) + x + y;
  }

  /** The head/tail rule for a static value: value `i` lies in the head, in
      place, after the heads of the values before it. */
  lemma HeadTailStatic(ps: seq<Part>, i: nat)
    requires i < |ps| && !ps[i].dynamic
    ensures var e, p, enc := Layout(ps), HeadsLength(ps[..i]), ps[i].enc;
            p + |enc| <= |e| && e[p..p + |enc|] == enc
  {
    var H := HeadsLength(ps);
    var q := H + |Tails(ps[..i])|;
    LayoutSplit(ps, i);
    HeadsAt(ps, i, q);
    SliceInHeads(Layout(ps), Heads(ps[..i], H), Heads(ps[i..], q),
                 Tails(ps[..i]) + Tails(ps[i..]), ps[i].enc, Heads(ps[i + 1..], q));
  }

  /** The head/tail rule for a dynamic value, first half: the head slot of
      value `i` holds the offset of its encoding, which is the head size
      plus the tails of the values before it. */
  lemma HeadTailOffset(ps: seq<Part>, i: nat)
    requires i < |ps| && ps[i].dynamic
    ensures var e, p := Layout(ps), HeadsLength(ps[..i]);
            p + 32 <= |e| && e[p..p + 32] == Word(HeadsLength(ps) + |Tails(ps[..i])|)
  {
    var H := HeadsLength(ps);
    var q := H + |Tails(ps[..i])|;
    LayoutSplit(ps, i);
    HeadsAt(ps, i, q);
    SliceInHeads(Layout(ps), Heads(ps[..i], H), Heads(ps[i..], q),
                 Tails(ps[..i]) + Tails(ps[i..]), Word(q), Heads(ps[i + 1..], q + |ps[i].enc|));
  }

  /** The head/tail rule for a dynamic value, second half: at that offset
      the value's own encoding starts. */
  lemma HeadTailDynamic(ps: seq<Part>, i: nat)
    requires i < |ps| && ps[i].dynamic
    ensures var e, enc := Layout(ps), ps[i].enc;
            var q := HeadsLength(ps) + |Tails(ps[..i])|;
            q + |enc| <= |e| && e[q..q + |enc|] == enc
  {
    var H := HeadsLength(ps);
    var q := H + |Tails(ps[..i])|;
    LayoutSplit(ps, i);
    TailsAt(ps, i);
    SliceInTails(Layout(ps), Heads(ps[..i], H) + Heads(ps[i..], q), Tails(ps[..i]),
                 Tails(ps[i..]), ps[i].enc, Tails(ps[i + 1..]));
  }

  // ---------------------------------------------------------------------------
  // Properties of the token encoding
  // ---------------------------------------------------------------------------

  /** Every encoding is a whole number of words. */
  lemma {:induction false} EncWords(t: Token)
    ensures |Enc(t)| % 32 == 0
    decreases t, 1
  {
    match t
    case Address(a) => assert |Enc(t)| == 12 + 20;
    case Uint(n) => assert |Enc(t)| == |Word(n)|;
    case FixedBytes(b) => assert Enc(t) == PadRight(b);
    case String(s) =>
      var u := Utf8(s);
      assert Enc(t) == Word(|u|) + PadRight(u);
    case Tuple(items) => EncodeSeqWords(items);
  }

  lemma {:induction false} EncodeSeqWords(ts: seq<Token>)
    ensures |EncodeSeq(ts)| % 32 == 0
    decreases ts, 0
  {
    forall i | 0 <= i < |ts| ensures |Parts(ts)[i].enc| % 32 == 0 {
      EncWords(ts[i]);
    }
    LayoutWords(Parts(ts));
  }

  // ---------------------------------------------------------------------------
  // Reading an encoding back
  // ---------------------------------------------------------------------------

  /** The unsigned value of the word at `off`. */
  function ReadWord(e: seq<uint8>, off: nat): nat
    requires off + 32 <= |e|
  {
    FromBigEndian(e[off..off + 32])
  }

  /** A word reads back as the number it encodes. */
  lemma WordRoundTrip(n: nat)
    requires n < TWO_256
    ensures FromBigEndian(Word(n)) == n
  {
    Pow256ThirtyTwo();
    BigEndianRoundTrip(n, 32);
  }

  /** The address in the word at `off`: its low 20 bytes. */
  function ReadAddress(e: seq<uint8>, off: nat): seq<uint8>
    requires off + 32 <= |e|
  {
    e[off + 12..off + 32]
  }

  /** The bytes of a `string`/`bytes` value whose encoding starts at `off`:
      a length word, then that many bytes. */
  function ReadDynamicBytes(e: seq<uint8>, off: nat): Wrappers.Option<seq<uint8>>
  {
    if off + 32 <= |e| && off + 32 + ReadWord(e, off) <= |e| then
      Wrappers.Some(e[off + 32..off + 32 + ReadWord(e, off)])
    else Wrappers.None
  }

  /** A `string` value reads back from its own encoding as its UTF-8 bytes. */
  lemma StringRoundTrip(e: seq<uint8>, off: nat, s: string)
    requires |Utf8(s)| < TWO_256
    requires off + |Enc(String(s))| <= |e| && e[off..off + |Enc(String(s))|] == Enc(String(s))
    ensures ReadDynamicBytes(e, off) == Wrappers.Some(Utf8(s))
  {
    var u := Utf8(s);
    var w, p := Word(|u|), PadRight(u);
    var enc := Enc(String(s));
    assert enc == w + p;
    SliceOfSlice(e, off, enc, 0, 32);
    SliceOfPrefix(enc, w, p, 0, 32);
    assert e[off..off + 32] == w;
    WordRoundTrip(|u|);
    SliceOfSlice(e, off, enc, 32, |u|);
    SliceOfSuffix(enc, w, p, 32, |u|);
    assert p[..|u|] == u;
    assert e[off + 32..off + 32 + |u|] == u;
  }

  /** A slice of a part of a sequence is a slice of the sequence. */
  lemma SliceOfSlice(e: seq<uint8>, off: nat, part: seq<uint8>, k: nat, n: nat)
    requires off + |part| <= |e| && e[off..off + |part|] == part && k + n <= |part|
    ensures e[off + k..off + k + n] == part[k..k + n]
  {
    var a, b := e[off + k..off + k + n], part[k..k + n];
    forall i | 0 <= i < n ensures a[i] == b[i] {
      assert e[off..off + |part|][k + i] == e[off + k + i];
    }
    assert a == b;
  }

  /** An address value reads back from its own encoding. */
  lemma AddressRoundTrip(e: seq<uint8>, off: nat, a: Address20)
    requires off + 32 <= |e| && e[off..off + 32] == Enc(Address(a))
    ensures ReadAddress(e, off) == a
  {
    assert e[off + 12..off + 32] == e[off..off + 32][12..];
  }

  /** A `uint256` value reads back from its own encoding. */
  lemma UintRoundTrip(e: seq<uint8>, off: nat, n: uint256)
    requires off + 32 <= |e| && e[off..off + 32] == Enc(Uint(n))
    ensures ReadWord(e, off) == n
  {
    WordRoundTrip(n);
  }

  // ---------------------------------------------------------------------------
  // Where the arguments of a call sit
  // ---------------------------------------------------------------------------

  /** A static argument sits in place, after the heads of the arguments
      before it. */
  lemma StaticArgAt(ts: seq<Token>, i: nat)
    requires i < |ts| && !IsDynamic(ts[i])
    ensures var e, p := EncodeSeq(ts), HeadsLength(Parts(ts)[..i]);
            p + |Enc(ts[i])| <= |e| && e[p..p + |Enc(ts[i])|] == Enc(ts[i])
  {
    HeadTailStatic(Parts(ts), i);
  }

  /** A dynamic argument leaves in its head slot the offset `q` at which its
      own encoding starts: the size of all heads plus the tails of the
      arguments before it. */
  lemma DynamicArgAt(ts: seq<Token>, i: nat)
    requires i < |ts| && IsDynamic(ts[i])
    ensures var e, p := EncodeSeq(ts), HeadsLength(Parts(ts)[..i]);
            var q := HeadsLength(Parts(ts)) + |Tails(Parts(ts)[..i])|;
            p + 32 <= |e| && e[p..p + 32] == Word(q) &&
            q + |Enc(ts[i])| <= |e| && e[q..q + |Enc(ts[i])|] == Enc(ts[i])
  {
    HeadTailOffset(Parts(ts), i);
    HeadTailDynamic(Parts(ts), i);
  }

  /** An argument whose head is one word: any dynamic value, and a static
      value of 32 bytes. */
  predicate OneWordHead(t: Token) {
    IsDynamic(t) || |Enc(t)| == 32
  }

  lemma {:induction false} WordHeadsLength(ps: seq<Part>, i: nat)
    requires i <= |ps| && forall j :: 0 <= j < i ==> HeadLen(ps[j]) == 32
    ensures HeadsLength(ps[..i]) == 32 * i
  {
    if i > 0 {
      assert ps[..i][1..] == ps[1..][..i - 1];
      forall j | 0 <= j < i - 1 ensures HeadLen(ps[1..][j]) == 32 {
        assert ps[1..][j] == ps[j + 1];
      }
      WordHeadsLength(ps[1..], i - 1);
    }
  }

  /** With one-word heads, the heads before argument `i` take `32 * i` bytes. */
  lemma ArgsHeadsLength(ts: seq<Token>, i: nat)
    requires i <= |ts| && forall j :: 0 <= j < i ==> OneWordHead(ts[j])
    ensures HeadsLength(Parts(ts)[..i]) == 32 * i
  {
    var ps := Parts(ts);
    forall j | 0 <= j < i ensures HeadLen(ps[j]) == 32 {
      assert ps[j] == Part(IsDynamic(ts[j]), Enc(ts[j]));
    }
    WordHeadsLength(ps, i);
  }

  /** Static arguments leave no tail. */
  lemma {:induction false} StaticTails(ps: seq<Part>)
    requires forall j :: 0 <= j < |ps| ==> !ps[j].dynamic
    ensures Tails(ps) == []
  {
    if ps != [] {
      forall j | 0 <= j < |ps| - 1 ensures !ps[1..][j].dynamic {
        assert ps[1..][j] == ps[j + 1];
      }
      StaticTails(ps[1..]);
    }
  }

  /** A `string` argument reads back through the offset in its head slot. */
  lemma StringArgReadBack(ts: seq<Token>, i: nat, s: string)
    requires i < |ts| && ts[i] == String(s) && |EncodeSeq(ts)| < TWO_256
    ensures var e, p := EncodeSeq(ts), HeadsLength(Parts(ts)[..i]);
            p + 32 <= |e| && ReadDynamicBytes(e, ReadWord(e, p)) == Wrappers.Some(Utf8(s))
  {
    var e, p := EncodeSeq(ts), HeadsLength(Parts(ts)[..i]);
    var q := HeadsLength(Parts(ts)) + |Tails(Parts(ts)[..i])|;
    DynamicArgAt(ts, i);
    assert |Enc(String(s))| >= 32 + |Utf8(s)|;
    WordRoundTrip(q);
    assert ReadWord(e, p) == q;
    StringRoundTrip(e, q, s);
  }

  /** An `address` argument reads back from its head slot. */
  lemma AddressArgReadBack(ts: seq<Token>, i: nat, a: Address20)
    requires i < |ts| && ts[i] == Address(a)
    ensures var e, p := EncodeSeq(ts), HeadsLength(Parts(ts)[..i]);
            p + 32 <= |e| && ReadAddress(e, p) == a
  {
    var e, p := EncodeSeq(ts), HeadsLength(Parts(ts)[..i]);
    StaticArgAt(ts, i);
    AddressRoundTrip(e, p, a);
  }

  /** A `uint256` argument reads back from its head slot. */
  lemma UintArgReadBack(ts: seq<Token>, i: nat, n: uint256)
    requires i < |ts| && ts[i] == Uint(n)
    ensures var e, p := EncodeSeq(ts), HeadsLength(Parts(ts)[..i]);
            p + 32 <= |e| && ReadWord(e, p) == n
  {
    var e, p := EncodeSeq(ts), HeadsLength(Parts(ts)[..i]);
    StaticArgAt(ts, i);
    UintRoundTrip(e, p, n);
  }

  /** A list of one-word static values takes one word each. */
  lemma StaticArgsLength(ts: seq<Token>)
    requires forall j :: 0 <= j < |ts| ==> !IsDynamic(ts[j]) && |Enc(ts[j])| == 32
    ensures |EncodeSeq(ts)| == 32 * |ts|
  {
    var ps := Parts(ts);
    ArgsHeadsLength(ts, |ts|);
    assert ps[..|ps|] == ps;
    forall j | 0 <= j < |ps| ensures !ps[j].dynamic {
      assert ps[j] == Part(IsDynamic(ts[j]), Enc(ts[j]));
    }
    StaticTails(ps);
    HeadsLengthIsLength(ps, HeadsLength(ps));
  }

  /** When only the last argument is dynamic, everything after the heads is
      that argument's encoding. */
  lemma LastDynamicArg(ts: seq<Token>)
    requires |ts| > 0 && IsDynamic(ts[|ts| - 1])
    requires forall j :: 0 <= j < |ts| - 1 ==> !IsDynamic(ts[j])
    ensures var e, H := EncodeSeq(ts), HeadsLength(Parts(ts));
            H <= |e| && e[H..] == Enc(ts[|ts| - 1])
  {
    var ps := Parts(ts);
    forall j | 0 <= j < |ps| ensures ps[j].dynamic == IsDynamic(ts[j]) && ps[j].enc == Enc(ts[j]) {
      PartAt(ts, j);
    }
    LastDynamicLayout(ps);
  }

  lemma PartAt(ts: seq<Token>, j: nat)
    requires j < |ts|
    ensures Parts(ts)[j] == Part(IsDynamic(ts[j]), Enc(ts[j]))
  {
  }

  /** When only the last value is dynamic, its encoding is the whole tail. */
  lemma LastDynamicLayout(ps: seq<Part>)
    requires |ps| > 0 && ps[|ps| - 1].dynamic
    requires forall j :: 0 <= j < |ps| - 1 ==> !ps[j].dynamic
    ensures var e, H := Layout(ps), HeadsLength(ps);
            H <= |e| && e[H..] == ps[|ps| - 1].enc
  {
    var i := |ps| - 1;
    var H := HeadsLength(ps);
    var q := H + |Tails(ps[..i])|;
    LayoutSplit(ps, i);
    StaticPrefixTails(ps);
    LastTails(ps);
    SliceInTails(Layout(ps), Heads(ps[..i], H) + Heads(ps[i..], q), Tails(ps[..i]),
                 Tails(ps[i..]), ps[i].enc, []);
  }

  lemma StaticPrefixTails(ps: seq<Part>)
    requires |ps| > 0
    requires forall j :: 0 <= j < |ps| - 1 ==> !ps[j].dynamic
    ensures Tails(ps[..|ps| - 1]) == []
  {
    var pre := ps[..|ps| - 1];
    forall j | 0 <= j < |pre| ensures !pre[j].dynamic {
      assert pre[j] == ps[j];
    }
    StaticTails(pre);
  }

  lemma LastTails(ps: seq<Part>)
    requires |ps| > 0
    ensures Tails(ps[|ps| - 1..]) == (if ps[|ps| - 1].dynamic then ps[|ps| - 1].enc else [])
  {
    var i := |ps| - 1;
    TailsAt(ps, i);
    assert ps[i + 1..] == [];
  }
}
