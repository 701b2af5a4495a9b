/** The 64-bit polynomial hash that the multi-signature and zero-knowledge contracts use
    in place of a cryptographic hash: h := h * 31 + byte from h = 0, wrapping modulo 2^64
    (`bv64` arithmetic wraps exactly as Rust's `wrapping_mul` and `wrapping_add`). */
module PolyHash {
  import opened Common

  /** One step of the fold: multiply by 31 and add the byte, both wrapping. */
  function Step(h: bv64, b: bv8): bv64 {
    h * 31 + b as bv64
  }

  /** The hash of a byte string, folded from the left. */
  function Fold(data: Bytes): bv64 {
    if data == [] then 0
    else Step(Fold(data[..|data| - 1]), data[|data| - 1])
  }

  /** The hash loop of `hash_binary`. */
  method HashBinary(data: Bytes) returns (h: bv64)
    ensures h == Fold(data)
  {
    h := 0;
    for i := 0 to |data|
      invariant h == Fold(data[..i])
    {
      assert data[..i + 1][..i] == data[..i];
      h := Step(h, data[i]);
    }
    assert data[..|data|] == data;
  }

  /** A single byte hashes to its own value. */
  lemma FoldOfOneByte(b: bv8)
    ensures Fold([b]) == b as bv64
  {
    assert [b][..0] == [];
    assert Fold([b]) == Step(0, b);
  }

  /* ---------------------------------------------------------------------------
     Big-endian encoding (`u64::to_be_bytes`)
     ------------------------------------------------------------------------- */

  /** The eight bytes of a word, most significant first. */
  function ToBeBytes(h: bv64): (s: Bytes)
    ensures |s| == 8
  {
    [(h >> 56) as bv8, ((h >> 48) & 0xff) as bv8, ((h >> 40) & 0xff) as bv8, ((h >> 32) & 0xff) as bv8,
     ((h >> 24) & 0xff) as bv8, ((h >> 16) & 0xff) as bv8, ((h >> 8) & 0xff) as bv8, (h & 0xff) as bv8]
  }

  /** The word eight big-endian bytes encode. */
  function FromBeBytes(s: Bytes): bv64
    requires |s| == 8
  {
    (s[0] as bv64 << 56) | (s[1] as bv64 << 48) | (s[2] as bv64 << 40) | (s[3] as bv64 << 32) |
    (s[4] as bv64 << 24) | (s[5] as bv64 << 16) | (s[6] as bv64 << 8) | s[7] as bv64
  }

  /** Decoding the encoding of a word gives the word back; so the encoding is injective. */
  lemma BeBytesRoundTrip(h: bv64)
    ensures FromBeBytes(ToBeBytes(h)) == h
  {
  }

  /** Two words are equal exactly when their big-endian encodings are. */
  lemma BeBytesInjective(a: bv64, b: bv64)
    ensures ToBeBytes(a) == ToBeBytes(b) <==> a == b
  {
    if ToBeBytes(a) == ToBeBytes(b) {
      BeBytesRoundTrip(a);
      BeBytesRoundTrip(b);
    }
  }

  /** The hash as the zero-knowledge contract emits it: the word's eight big-endian bytes. */
  function HashBytes(data: Bytes): (r: Bytes)
    ensures |r| == 8
    ensures FromBeBytes(r) == Fold(data)
  {
    BeBytesRoundTrip(Fold(data));
    ToBeBytes(Fold(data))
  }

  /* ---------------------------------------------------------------------------
     XOR aggregation (`verify_aggregated_signature`)
     ------------------------------------------------------------------------- */

  /** The XOR of a list of 64-bit words (0 for the empty list); the order does not
      matter, see `XorAllAppend`. */
  function XorAll(hs: seq<bv64>): bv64 {
    if hs == [] then 0
    else hs[0] ^ XorAll(hs[1..])
  }

  /** The hash of each byte string, in order. */
  function Hashes(items: seq<Bytes>): (hs: seq<bv64>)
    ensures |hs| == |items|
  {
    seq(|items|, i requires 0 <= i < |items| => Fold(items[i]))
  }

  /** The XOR of the hashes of a list of byte strings. */
  function XorOfHashes(items: seq<Bytes>): bv64 {
    XorAll(Hashes(items))
  }

  /** The XOR loop of `verify_aggregated_signature`. */
  method CombineHashes(items: seq<Bytes>) returns (combined: bv64)
    ensures combined == XorOfHashes(items)
  {
    ghost var hs := Hashes(items);
    combined := 0;
    for i := 0 to |items|
      invariant combined == XorAll(hs[..i])
    {
      var h := HashBinary(items[i]);
      assert hs[..i + 1] == hs[..i] + [h];
      XorAllAppend(hs[..i], [h]);
      XorAllSingle(h);
      combined := combined ^ h;
    }
    assert hs[..|items|] == hs;
  }

  /** XOR-ing two lists together is the XOR of XOR-ing each. */
  lemma {:induction false} XorAllAppend(a: seq<bv64>, b: seq<bv64>)
    ensures XorAll(a + b) == XorAll(a) ^ XorAll(b)
  {
    if a == [] {
      XorAllAppendEmpty(b);
    } else {
      XorAllAppend(a[1..], b);
      XorAllAppendStep(a, b);
    }
  }

  lemma XorAllAppendEmpty(b: seq<bv64>)
    ensures XorAll([] + b) == XorAll([]) ^ XorAll(b)
  {
    assert [] + b == b;
    XorZero(XorAll(b));
  }

  /** The inductive step of `XorAllAppend`, peeling off the first word of `a`. */
  lemma XorAllAppendStep(a: seq<bv64>, b: seq<bv64>)
    requires a != [] && XorAll(a[1..] + b) == XorAll(a[1..]) ^ XorAll(b)
    ensures XorAll(a + b) == XorAll(a) ^ XorAll(b)
  {
    assert (a + b)[1..] == a[1..] + b;
    assert (a + b)[0] == a[0];
    XorAssociates(a[0], XorAll(a[1..]), XorAll(b));
  }

  /** A list of one word XORs to that word. */
  lemma XorAllSingle(x: bv64)
    ensures XorAll([x]) == x
  {
    assert [x][1..] == [];
    XorZero(x);
  }

  /** Aggregating two lists together is the XOR of aggregating each. */
  lemma XorOfHashesAppend(a: seq<Bytes>, b: seq<Bytes>)
    ensures XorOfHashes(a + b) == XorOfHashes(a) ^ XorOfHashes(b)
  {
    assert Hashes(a + b) == Hashes(a) + Hashes(b);
    XorAllAppend(Hashes(a), Hashes(b));
  }

  /** The aggregate of a single byte string is its hash. */
  lemma XorOfHashesSingle(x: Bytes)
    ensures XorOfHashes([x]) == Fold(x)
  {
    assert Hashes([x]) == [Fold(x)];
    XorAllSingle(Fold(x));
  }

  /** The aggregate does not depend on the order of the two halves, and a signature
      that occurs twice cancels itself out. */
  lemma XorOfHashesOrderAndCancel(a: seq<Bytes>, b: seq<Bytes>, x: Bytes)
    ensures XorOfHashes(a + b) == XorOfHashes(b + a)
    ensures XorOfHashes(a + [x, x]) == XorOfHashes(a)
  {
    XorOfHashesAppend(a, b);
    XorOfHashesAppend(b, a);
    XorCommutes(XorOfHashes(a), XorOfHashes(b));
    XorOfHashesAppend(a, [x, x]);
    XorOfHashesAppend([x], [x]);
    assert [x] + [x] == [x, x];
    XorOfHashesSingle(x);
    XorSelfCancels(Fold(x));
  }

  lemma XorSelfCancels(x: bv64)
    ensures x ^ x == 0
  {
  }

  lemma XorZero(x: bv64)
    ensures x ^ 0 == x && 0 ^ x == x
  {
  }

  lemma XorCommutes(x: bv64, y: bv64)
    ensures x ^ y == y ^ x
  {
  }

  lemma XorAssociates(x: bv64, y: bv64, z: bv64)
    ensures (x ^ y) ^ z == x ^ (y ^ z)
  {
  }
}
