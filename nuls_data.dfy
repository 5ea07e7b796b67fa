/** The byte-level helpers that `nulsexplorer/protocol/data.py` supplies to the decoder:
    the byte type, the protocol's length constants, little-endian fixed-width integers,
    the 48-bit reader with its all-ones sentinel, and the length-prefixed byte string.
    data.py is not part of this model; these definitions fix the behaviour the decoder relies on. */
module NulsData {
  import opened Wrappers

  type byte = x: int | 0 <= x < 256

  /** Length of an address in bytes. */
  const ADDRESS_LENGTH: nat := 23
  /** Length of a digest (algorithm tag, length, 32-byte hash) in bytes. */
  const HASH_LENGTH: nat := 34
  /** The placeholder payload of reward and transfer transactions. */
  const PLACE_HOLDER: seq<byte> := [0xFF, 0xFF, 0xFF, 0xFF]

  function Pow256(n: nat): (p: nat)
    ensures p > 0
  {
    if n == 0 then 1 else 256 * Pow256(n - 1)
  }

  /** The unsigned integer whose little-endian bytes are `s`. */
  function DecodeLE(s: seq<byte>): nat
  {
    if s == [] then 0 else s[0] + 256 * DecodeLE(s[1..])
  }

  /** The `n` little-endian bytes of `v`. */
  function EncodeLE(v: nat, n: nat): (s: seq<byte>)
    requires v < Pow256(n)
    ensures |s| == n
  {
    if n == 0 then [] else [v % 256] + EncodeLE(v / 256, n - 1)
  }

  lemma {:induction false} DecodeLEBound(s: seq<byte>)
    ensures DecodeLE(s) < Pow256(|s|)
  {
    if s != [] {
      DecodeLEBound(s[1..]);
    }
  }

  /** Decoding the encoding of `v` gives `v` back. */
  lemma {:induction false} DecodeEncodeLE(v: nat, n: nat)
    requires v < Pow256(n)
    ensures DecodeLE(EncodeLE(v, n)) == v
  {
    if n > 0 {
      DecodeEncodeLE(v / 256, n - 1);
      assert EncodeLE(v, n)[1..] == EncodeLE(v / 256, n - 1);
    }
  }

  /** Encoding the value of `s` gives `s` back. */
  lemma {:induction false} EncodeDecodeLE(s: seq<byte>)
    ensures DecodeLE(s) < Pow256(|s|)
    ensures EncodeLE(DecodeLE(s), |s|) == s
  {
    DecodeLEBound(s);
    if s != [] {
      EncodeDecodeLE(s[1..]);
    }
  }

  /** `n` bytes of 0xFF. */
  function AllOnes(n: nat): (s: seq<byte>)
    ensures |s| == n
  {
    if n == 0 then [] else [0xFF] + AllOnes(n - 1)
  }

  lemma {:induction false} DecodeAllOnes(n: nat)
    ensures DecodeLE(AllOnes(n)) == Pow256(n) - 1
  {
    if n > 0 {
      DecodeAllOnes(n - 1);
      assert AllOnes(n)[1..] == AllOnes(n - 1);
    }
  }

  /** The unsigned little-endian integer of width `n` at `c`; a short buffer fails
      (struct.unpack of "H" and "Q" raises on fewer bytes). */
  function ReadUint(buf: seq<byte>, c: nat, n: nat): (r: Option<nat>)
    ensures r.Some? <==> c + n <= |buf|
    ensures r.Some? ==> r.value < Pow256(n)
  {
    if c + n <= |buf| then
      DecodeLEBound(buf[c..c + n]);
      Some(DecodeLE(buf[c..c + n]))
    else None
  }

  /** The largest 48-bit value, which readUint48 reports as -1. */
  function Uint48Sentinel(): nat { Pow256(6) - 1 }

  /** The 48-bit field six bytes hold: little-endian, the all-ones pattern standing for -1. */
  function Uint48Of(s: seq<byte>): (v: int)
    requires |s| == 6
    ensures Lock48(v)
  {
    DecodeLEBound(s);
    if DecodeLE(s) == Uint48Sentinel() then -1 else DecodeLE(s)
  }

  /** Writing the field read from six bytes gives those bytes back. */
  lemma Uint48OfInverse(s: seq<byte>)
    requires |s| == 6
    ensures WriteUint48(Uint48Of(s)) == s
  {
    EncodeDecodeLE(s);
    if DecodeLE(s) == Uint48Sentinel() {
      DecodeAllOnes(6);
      EncodeDecodeLE(AllOnes(6));
      assert EncodeLE(DecodeLE(s), 6) == AllOnes(6);
    }
  }

  /** Reading the six bytes written for a field gives the field back. */
  lemma Uint48OfWrite(v: int)
    requires Lock48(v)
    ensures Uint48Of(WriteUint48(v)) == v
  {
    if v == -1 {
      DecodeAllOnes(6);
    } else {
      DecodeEncodeLE(v, 6);
    }
  }

  /** readUint48: the 48-bit field at `c`; a short buffer fails. */
  function ReadUint48(buf: seq<byte>, c: nat): (r: Option<int>)
    ensures r.Some? <==> c + 6 <= |buf|
    ensures r.Some? ==> Lock48(r.value)
  {
    if c + 6 <= |buf| then Some(Uint48Of(buf[c..c + 6])) else None
  }

  /** The values a 48-bit field can carry: -1 or an unsigned value below the sentinel. */
  predicate Lock48(v: int)
  {
    v == -1 || 0 <= v < Uint48Sentinel()
  }

  /** The six bytes readUint48 decodes to `v` (the low six bytes of its two's complement). */
  function WriteUint48(v: int): (s: seq<byte>)
    requires Lock48(v)
    ensures |s| == 6
  {
    if v == -1 then AllOnes(6) else EncodeLE(v, 6)
  }

  /** writeUint64: struct "Q" packing, which raises on a value outside [0, 2^64). */
  function WriteUint64(v: int): (r: Option<seq<byte>>)
    ensures r.Some? <==> 0 <= v < Pow256(8)
    ensures r.Some? ==> |r.value| == 8 && DecodeLE(r.value) == v
  {
    if 0 <= v < Pow256(8) then
      DecodeEncodeLE(v, 8);
      Some(EncodeLE(v, 8))
    else None
  }

  /** read_by_length: a one-byte length prefix followed by that many bytes; a buffer that
      ends before the prefix or the bytes fails. */
  function ReadByLength(buf: seq<byte>, c: nat): (r: Option<seq<byte>>)
    ensures r.Some? <==> c < |buf| && c + 1 + buf[c] <= |buf|
    ensures r.Some? ==> |r.value| == buf[c] && buf[c + 1..c + 1 + |r.value|] == r.value
  {
    if c < |buf| && c + 1 + buf[c] <= |buf| then Some(buf[c + 1..c + 1 + buf[c]]) else None
  }

  /** The length-prefixed encoding that ReadByLength reads. */
  function WithLength(s: seq<byte>): (r: seq<byte>)
    requires |s| < 256
    ensures |r| == 1 + |s|
  {
    [|s| as byte] + s
  }

  /** A length-prefixed field in place: the prefix byte is the length and the bytes follow. */
  lemma WithLengthAt(buf: seq<byte>, a: nat, s: seq<byte>)
    requires |s| < 256 && a + 1 + |s| <= |buf| && buf[a..a + 1 + |s|] == WithLength(s)
    ensures buf[a] == |s| && buf[a + 1..a + 1 + |s|] == s
  {
    assert buf[a] == buf[a..a + 1 + |s|][0];
    SubSlice(buf, a, a + 1 + |s|, 1, 1 + |s|);
  }

  /** Three pieces in place one after the other: each stands at its own offset. */
  lemma SplitThree(buf: seq<byte>, a: nat, p: seq<byte>, q: seq<byte>, r: seq<byte>)
    requires a + |p| + |q| + |r| <= |buf| && buf[a..a + |p| + |q| + |r|] == p + q + r
    ensures buf[a..a + |p|] == p
    ensures buf[a + |p|..a + |p| + |q|] == q
    ensures buf[a + |p| + |q|..a + |p| + |q| + |r|] == r
  {
    var e := a + |p| + |q| + |r|;
    SubSlice(buf, a, e, 0, |p|);
    SubSlice(buf, a, e, |p|, |p| + |q|);
    SubSlice(buf, a, e, |p| + |q|, |p| + |q| + |r|);
    assert (p + q + r)[..|p|] == p;
    assert (p + q + r)[|p|..|p| + |q|] == q;
    assert (p + q + r)[|p| + |q|..] == r;
  }

  /** A slice of a slice is a slice. */
  lemma SubSlice(buf: seq<byte>, a: nat, e: nat, i: nat, j: nat)
    requires a <= e <= |buf| && i <= j <= e - a
    ensures buf[a..e][i..j] == buf[a + i..a + j]
  {
    assert forall k :: 0 <= k < j - i ==> buf[a..e][i..j][k] == buf[a + i + k];
  }

  /** Two buffers that agree on `[c, e)` agree on every slice inside it. */
  lemma AgreeSub(b1: seq<byte>, b2: seq<byte>, c: nat, e: nat, a: nat, b: nat)
    requires c <= a <= b <= e <= |b1| && e <= |b2| && b1[c..e] == b2[c..e]
    ensures b1[a..b] == b2[a..b]
  {
    SubSlice(b1, c, e, a - c, b - c);
    SubSlice(b2, c, e, a - c, b - c);
  }

  /** Two buffers that agree on `[c, e)` agree on every byte inside it. */
  lemma AgreeAt(b1: seq<byte>, b2: seq<byte>, c: nat, e: nat, i: nat)
    requires c <= i < e <= |b1| && e <= |b2| && b1[c..e] == b2[c..e]
    ensures b1[i] == b2[i]
  {
    assert b1[i] == b1[c..e][i - c] && b2[i] == b2[c..e][i - c];
  }

  /** A length-prefixed field inside `[c, e)` reads the same from two buffers that agree there. */
  lemma ReadByLengthLocal(b1: seq<byte>, b2: seq<byte>, c: nat, e: nat, a: nat)
    requires ReadByLength(b1, a).Some? && c <= a && a + 1 + |ReadByLength(b1, a).value| <= e
    requires e <= |b1| && e <= |b2| && b1[c..e] == b2[c..e]
    ensures ReadByLength(b2, a) == ReadByLength(b1, a)
  {
    AgreeAt(b1, b2, c, e, a);
    AgreeSub(b1, b2, c, e, a + 1, a + 1 + b1[a]);
  }

  /** A clamped slice inside `[c, e)` is the same in two buffers that agree there. */
  lemma SliceLocal(b1: seq<byte>, b2: seq<byte>, c: nat, e: nat, a: nat, b: nat)
    requires c <= a <= b <= e <= |b1| && e <= |b2| && b1[c..e] == b2[c..e]
    ensures Slice(b1, a, b) == Slice(b2, a, b)
  {
    AgreeSub(b1, b2, c, e, a, b);
  }

  /** A one-byte slice. */
  lemma SliceOne(buf: seq<byte>, i: nat)
    requires i < |buf|
    ensures buf[i..i + 1] == [buf[i]]
  {
  }

  /** Adjacent slices join. */
  lemma SliceConcat(buf: seq<byte>, a: nat, b: nat, d: nat)
    requires a <= b <= d <= |buf|
    ensures buf[a..b] + buf[b..d] == buf[a..d]
  {
  }

  /** Pieces standing one after the other in `buf` join to the slice they span. */
  lemma JoinSlices(buf: seq<byte>, a: nat, b: nat, d: nat, p: seq<byte>, q: seq<byte>)
    requires a <= b <= d <= |buf| && p == buf[a..b] && q == buf[b..d]
    ensures p + q == buf[a..d]
  {
    SliceConcat(buf, a, b, d);
  }

  /** Three pieces standing one after the other in `buf` join to the slice they span. */
  lemma JoinThree(buf: seq<byte>, a: nat, b: nat, d: nat, f: nat, x: seq<byte>, y: seq<byte>, z: seq<byte>)
    requires a <= b <= d <= f <= |buf| && x == buf[a..b] && y == buf[b..d] && z == buf[d..f]
    ensures x + y + z == buf[a..f]
  {
    SliceConcat(buf, a, b, d);
    SliceConcat(buf, a, d, f);
  }

  /** A byte followed by a piece standing one after the other in `buf`. */
  lemma CountedPiece(buf: seq<byte>, c: nat, e: nat, p: seq<byte>)
    requires c < e <= |buf| && p == buf[c + 1..e]
    ensures [buf[c]] + p == buf[c..e]
  {
    SliceOne(buf, c);
    SliceConcat(buf, c, c + 1, e);
  }

  /** Python slicing `buf[a:b]` for non-negative bounds: clamped to the buffer, and empty
      when `b` is below `a`; it never fails. */
  function Slice(buf: seq<byte>, a: nat, b: nat): (s: seq<byte>)
    ensures a <= b <= |buf| ==> s == buf[a..b]
    ensures a <= b ==> |s| <= b - a
    ensures a <= |buf| < b ==> s == buf[a..]
    ensures |buf| < a <= b ==> s == []
    ensures b < a ==> s == []
  {
    if b < a then [] else if b <= |buf| then buf[a..b] else if a <= |buf| then buf[a..] else []
  }

  /** `buf[c]`, which raises IndexError past the end. */
  function ByteAt(buf: seq<byte>, c: nat): (r: Option<byte>)
    ensures r.Some? <==> c < |buf|
    ensures r.Some? ==> r.value == buf[c]
  {
    if c < |buf| then Some(buf[c]) else None
  }
}
