/** Coins and coin data of `nulsexplorer/protocol/transaction.py`: the spendable-value records
    of a transaction, their decoder, the inverse encoding, and the CoinData object that parses
    the ordered input and output lists and answers fee queries. */
module CoinCodec {
  import opened Wrappers
  import opened NulsData

  /** The owner slot of a coin: a reference to an output of an earlier transaction, or an
      address that receives newly made value. */
  datatype Owner = Spend(fromHash: seq<byte>, fromIndex: byte) | Address(address: seq<byte>)

  /** A decoded coin: owner, value (`na`) and lock time. */
  datatype Coin = Coin(owner: Owner, na: nat, lockTime: int)

  /** The bytes of the owner field as they stand in the buffer. */
  function OwnerBytes(o: Owner): seq<byte>
  {
    match o
    case Spend(h, i) => h + [i]
    case Address(a) => a
  }

  /** The owner an owner field of these bytes denotes: longer than an address means a spend
      reference, whose last byte is the output index. */
  function OwnerOf(owner: seq<byte>): Owner
  {
    if |owner| > ADDRESS_LENGTH then Spend(owner[..|owner| - 1], owner[|owner| - 1])
    else Address(owner)
  }

  /** The owner field is recovered from the owner it denotes, and the kind of owner is the
      one the field's length selects. */
  lemma OwnerOfInverse(owner: seq<byte>)
    ensures OwnerBytes(OwnerOf(owner)) == owner
    ensures OwnerOf(owner).Spend? <==> |owner| > ADDRESS_LENGTH
  {
    if |owner| > ADDRESS_LENGTH {
      assert owner == owner[..|owner| - 1] + [owner[|owner| - 1]];
    }
  }

  /** An owner the decoder can produce: it fits a one-byte length and its kind is the one its
      length selects. */
  predicate WellFormedOwner(o: Owner)
  {
    |OwnerBytes(o)| < 256 && (o.Spend? <==> |OwnerBytes(o)| > ADDRESS_LENGTH)
  }

  /** A coin the decoder can produce. */
  predicate WellFormedCoin(x: Coin)
  {
    WellFormedOwner(x.owner) && x.na < Pow256(8) && Lock48(x.lockTime)
  }

  /** Bytes a coin occupies: owner length prefix, owner, 8-byte value, 6-byte lock time. */
  function CoinSize(x: Coin): nat
  {
    1 + |OwnerBytes(x.owner)| + 8 + 6
  }

  /** The wire form of a coin, the inverse of ParseCoin. */
  function EncodeCoin(x: Coin): (s: seq<byte>)
    requires WellFormedCoin(x)
    ensures |s| == CoinSize(x)
  {
    WithLength(OwnerBytes(x.owner)) + EncodeLE(x.na, 8) + WriteUint48(x.lockTime)
  }

  /** The coin whose encoding starts at `c`, with the cursor after it: a one-byte owner
      length, the owner, an 8-byte value and a 6-byte lock time, all inside the buffer. */
  function CoinAt(buf: seq<byte>, c: nat): (r: Option<(Coin, nat)>)
    ensures r.Some? <==> c < |buf| && c + 1 + buf[c] + 14 <= |buf|
    ensures r.Some? ==> c < r.value.1 <= |buf|
  {
    if c < |buf| && c + 1 + buf[c] + 14 <= |buf| then
      var c1 := c + 1 + buf[c];
      Some((Coin(OwnerOf(buf[c + 1..c1]), DecodeLE(buf[c1..c1 + 8]), Uint48Of(buf[c1 + 8..c1 + 14])), c1 + 14))
    else None
  }

  /** A decoded coin is well formed and occupies exactly its size. */
  lemma CoinAtSize(buf: seq<byte>, c: nat, x: Coin, e: nat)
    requires CoinAt(buf, c) == Some((x, e))
    ensures WellFormedCoin(x) && e == c + CoinSize(x)
    ensures OwnerBytes(x.owner) == buf[c + 1..c + 1 + buf[c]]
  {
    var c1 := c + 1 + buf[c];
    OwnerOfInverse(buf[c + 1..c1]);
    DecodeLEBound(buf[c1..c1 + 8]);
  }

  /** Coin.parse: read_by_length for the owner, readUint64 for the value, readUint48 for the
      lock time; the cursor ends after the lock time. */
  function ParseCoin(buf: seq<byte>, c: nat): Option<(Coin, nat)>
  {
    match ReadByLength(buf, c)
    case None => None
    case Some(owner) =>
      var c1 := c + 1 + |owner|;
      match ReadUint(buf, c1, 8)
      case None => None
      case Some(na) =>
        match ReadUint48(buf, c1 + 8)
        case None => None
        case Some(lockTime) => Some((Coin(OwnerOf(owner), na, lockTime), c1 + 14))
  }

  /** Coin.parse decodes exactly the coin laid out at the cursor, and fails exactly when the
      buffer ends inside it. */
  lemma ParseCoinIsCoinAt(buf: seq<byte>, c: nat)
    ensures ParseCoin(buf, c) == CoinAt(buf, c)
  {
  }

  /** A decoded coin is well formed, occupies exactly its size, and encodes back to exactly
      the bytes it was decoded from. */
  lemma ParseCoinInverse(buf: seq<byte>, c: nat, x: Coin, e: nat)
    requires CoinAt(buf, c) == Some((x, e))
    ensures WellFormedCoin(x) && e == c + CoinSize(x) && EncodeCoin(x) == buf[c..e]
  {
    CoinAtSize(buf, c, x, e);
    var c1 := c + 1 + buf[c];
    EncodeDecodeLE(buf[c1..c1 + 8]);
    Uint48OfInverse(buf[c1 + 8..c1 + 14]);
    assert buf[c..c1] == WithLength(OwnerBytes(x.owner));
    SliceConcat(buf, c, c1, c1 + 8);
    SliceConcat(buf, c, c1 + 8, c1 + 14);
  }

  /** The fields of a coin whose encoding stands at `a`, each at its offset. */
  lemma CoinFieldsAt(buf: seq<byte>, a: nat, x: Coin)
    requires WellFormedCoin(x)
    requires a + CoinSize(x) <= |buf| && buf[a..a + CoinSize(x)] == EncodeCoin(x)
    ensures buf[a] == |OwnerBytes(x.owner)| && buf[a + 1..a + 1 + buf[a]] == OwnerBytes(x.owner)
    ensures DecodeLE(buf[a + 1 + buf[a]..a + 9 + buf[a]]) == x.na
    ensures Uint48Of(buf[a + 9 + buf[a]..a + 15 + buf[a]]) == x.lockTime
  {
    var ob := OwnerBytes(x.owner);
    SplitThree(buf, a, WithLength(ob), EncodeLE(x.na, 8), WriteUint48(x.lockTime));
    WithLengthAt(buf, a, ob);
    DecodeEncodeLE(x.na, 8);
    Uint48OfWrite(x.lockTime);
  }

  /** A coin whose encoding stands at `a` decodes to that coin, with the cursor after it. */
  lemma CoinRoundTrip(buf: seq<byte>, a: nat, x: Coin)
    requires WellFormedCoin(x)
    requires a + CoinSize(x) <= |buf| && buf[a..a + CoinSize(x)] == EncodeCoin(x)
    ensures CoinAt(buf, a) == Some((x, a + CoinSize(x)))
  {
    CoinFieldsAt(buf, a, x);
    var ob := OwnerBytes(x.owner);
    assert OwnerOf(ob) == x.owner by {
      if x.owner.Spend? {
        assert ob[..|ob| - 1] == x.owner.fromHash;
      }
    }
  }

  /** The bytes the first `k` coins of `cs` occupy, one after the other. */
  function SizeUpTo(cs: seq<Coin>, k: nat): nat
    requires k <= |cs|
  {
    if k == 0 then 0 else SizeUpTo(cs, k - 1) + CoinSize(cs[k - 1])
  }

  /** The bytes the coins `cs` occupy. */
  function CoinsSize(cs: seq<Coin>): nat
  {
    SizeUpTo(cs, |cs|)
  }

  predicate AllWellFormed(cs: seq<Coin>)
  {
    forall k :: 0 <= k < |cs| ==> WellFormedCoin(cs[k])
  }

  /** The first `k` coins of `cs` encoded one after the other. */
  function EncodeUpTo(cs: seq<Coin>, k: nat): (s: seq<byte>)
    requires k <= |cs| && AllWellFormed(cs)
    ensures |s| == SizeUpTo(cs, k)
  {
    if k == 0 then [] else EncodeUpTo(cs, k - 1) + EncodeCoin(cs[k - 1])
  }

  /** The coins `cs` encoded one after the other. */
  function EncodeCoins(cs: seq<Coin>): (s: seq<byte>)
    requires AllWellFormed(cs)
    ensures |s| == CoinsSize(cs)
  {
    EncodeUpTo(cs, |cs|)
  }

  /** Appending a coin leaves the sizes and encodings of the earlier coins alone. */
  lemma {:induction false} UpToAppend(cs: seq<Coin>, x: Coin, k: nat)
    requires k <= |cs|
    ensures SizeUpTo(cs + [x], k) == SizeUpTo(cs, k)
    ensures AllWellFormed(cs + [x]) && AllWellFormed(cs) ==> EncodeUpTo(cs + [x], k) == EncodeUpTo(cs, k)
  {
    if k > 0 {
      UpToAppend(cs, x, k - 1);
      assert (cs + [x])[k - 1] == cs[k - 1];
    }
  }

  /** `n` coins parsed one after the other from `c` (the loops of CoinData.parse). */
  function ParseCoins(buf: seq<byte>, c: nat, n: nat): (r: Option<(seq<Coin>, nat)>)
    requires c <= |buf|
    ensures r.Some? ==> |r.value.0| == n && c <= r.value.1 <= |buf|
    decreases n
  {
    if n == 0 then Some(([], c))
    else
      var prev := ParseCoins(buf, c, n - 1);
      if prev.None? then None
      else
        var next := CoinAt(buf, prev.value.1);
        if next.None? then None
        else Some((prev.value.0 + [next.value.0], next.value.1))
  }

  /** Parsing one more coin after a run: the run extended by that coin, or a failure. */
  lemma ParseCoinsNext(buf: seq<byte>, c: nat, n: nat, cs: seq<Coin>, e: nat)
    requires c <= |buf| && n > 0 && ParseCoins(buf, c, n - 1) == Some((cs, e))
    ensures ParseCoins(buf, c, n) == match CoinAt(buf, e)
      case None => None
      case Some((x, e')) => Some((cs + [x], e'))
  {
  }

  /** One turn of the loops of CoinData.parse: Coin.parse at the end of a run of `i` coins
      either fails, and so does the run of `i + 1`, or extends the run by the coin it reads. */
  lemma ParseCoinsStep(buf: seq<byte>, c: nat, i: nat, cs: seq<Coin>, e: nat)
    requires c <= |buf| && ParseCoins(buf, c, i) == Some((cs, e))
    ensures ParseCoin(buf, e).None? ==> ParseCoins(buf, c, i + 1).None?
    ensures ParseCoin(buf, e).Some? ==>
      ParseCoins(buf, c, i + 1) == Some((cs + [ParseCoin(buf, e).value.0], ParseCoin(buf, e).value.1))
  {
    ParseCoinIsCoinAt(buf, e);
  }

  /** A run of `n` coins is a run of `n - 1` coins and the coin that follows it. */
  lemma ParseCoinsLast(buf: seq<byte>, c: nat, n: nat, cs: seq<Coin>, e: nat)
    returns (prev: seq<Coin>, x: Coin, m: nat)
    requires c <= |buf| && n > 0 && ParseCoins(buf, c, n) == Some((cs, e))
    ensures ParseCoins(buf, c, n - 1) == Some((prev, m)) && CoinAt(buf, m) == Some((x, e))
    ensures cs == prev + [x]
  {
    prev, m := ParseCoins(buf, c, n - 1).value.0, ParseCoins(buf, c, n - 1).value.1;
    x := CoinAt(buf, m).value.0;
  }

  /** A run that fails stays failed one coin further. */
  lemma ParseCoinsFailNext(buf: seq<byte>, c: nat, n: nat)
    requires c <= |buf| && n > 0 && ParseCoins(buf, c, n - 1).None?
    ensures ParseCoins(buf, c, n).None?
  {
  }

  /** Once a run of coins fails, so do all longer runs. */
  lemma {:induction false} ParseCoinsStaysFailed(buf: seq<byte>, c: nat, i: nat, n: nat)
    requires c <= |buf| && i <= n && ParseCoins(buf, c, i).None?
    ensures ParseCoins(buf, c, n).None?
    decreases n
  {
    if i < n {
      ParseCoinsStaysFailed(buf, c, i, n - 1);
      ParseCoinsFailNext(buf, c, n);
    }
  }

  /** Appending a well-formed coin to well-formed coins: sizes add and encodings join. */
  lemma CoinsSnoc(cs: seq<Coin>, x: Coin)
    requires AllWellFormed(cs) && WellFormedCoin(x)
    ensures AllWellFormed(cs + [x])
    ensures CoinsSize(cs + [x]) == CoinsSize(cs) + CoinSize(x)
    ensures EncodeCoins(cs + [x]) == EncodeCoins(cs) + EncodeCoin(x)
  {
    var ds := cs + [x];
    assert AllWellFormed(ds) by {
      forall j | 0 <= j < |ds| ensures WellFormedCoin(ds[j]) {
        if j < |cs| { assert ds[j] == cs[j]; }
      }
    }
    UpToAppend(cs, x, |cs|);
  }

  /** Decoded coins are well formed, occupy exactly the bytes they were decoded from, and
      encode back to those bytes. */
  lemma {:induction false} ParseCoinsInverse(buf: seq<byte>, c: nat, n: nat, cs: seq<Coin>, e: nat)
    requires c <= |buf| && ParseCoins(buf, c, n) == Some((cs, e))
    ensures AllWellFormed(cs) && e == c + CoinsSize(cs) && EncodeCoins(cs) == buf[c..e]
    decreases n
  {
    if n > 0 {
      var prev, x, m := ParseCoinsLast(buf, c, n, cs, e);
      ParseCoinsInverse(buf, c, n - 1, prev, m);
      ParseCoinInverse(buf, m, x, e);
      CoinsSnoc(prev, x);
      SliceConcat(buf, c, m, e);
    }
  }

  /** A coin decodes the same from any buffer that agrees on the bytes it occupies. */
  lemma ParseCoinLocal(b1: seq<byte>, b2: seq<byte>, c: nat, x: Coin, e: nat)
    requires CoinAt(b1, c) == Some((x, e)) && e <= |b2| && b1[c..e] == b2[c..e]
    ensures CoinAt(b2, c) == Some((x, e))
  {
    ParseCoinInverse(b1, c, x, e);
    CoinRoundTrip(b2, c, x);
  }

  /** Agreement on a range of bytes carries over to its sub-ranges. */
  lemma AgreeWithin(b1: seq<byte>, b2: seq<byte>, c: nat, m: nat, e: nat)
    requires c <= m <= e <= |b1| && e <= |b2| && b1[c..e] == b2[c..e]
    ensures b1[c..m] == b2[c..m] && b1[m..e] == b2[m..e]
  {
    SubSlice(b1, c, e, 0, m - c);
    SubSlice(b2, c, e, 0, m - c);
    SubSlice(b1, c, e, m - c, e - c);
    SubSlice(b2, c, e, m - c, e - c);
  }

  /** A run of coins decodes the same from any buffer that agrees on the bytes it occupies. */
  lemma {:induction false} ParseCoinsLocal(b1: seq<byte>, b2: seq<byte>, c: nat, n: nat, cs: seq<Coin>, e: nat)
    requires c <= |b1| && ParseCoins(b1, c, n) == Some((cs, e))
    requires e <= |b2| && b1[c..e] == b2[c..e]
    ensures ParseCoins(b2, c, n) == Some((cs, e))
    decreases n
  {
    if n > 0 {
      var prev, x, m := ParseCoinsLast(b1, c, n, cs, e);
      AgreeWithin(b1, b2, c, m, e);
      ParseCoinsLocal(b1, b2, c, n - 1, prev, m);
      ParseCoinLocal(b1, b2, m, x, e);
      ParseCoinsNext(b2, c, n, prev, m);
    }
  }

  /** A count byte followed by that many coins (one half of CoinData.parse). */
  function ParseCounted(buf: seq<byte>, c: nat): (r: Option<(seq<Coin>, nat)>)
    ensures r.Some? ==> c < r.value.1 <= |buf|
  {
    match ByteAt(buf, c)
    case None => None
    case Some(count) => ParseCoins(buf, c + 1, count)
  }

  /** The wire form of a counted list of coins. */
  function EncodeCounted(cs: seq<Coin>): (s: seq<byte>)
    requires |cs| < 256 && AllWellFormed(cs)
    ensures |s| == 1 + CoinsSize(cs)
  {
    [|cs| as byte] + EncodeCoins(cs)
  }

  /** A decoded counted list is well formed, its length is the count byte, and it encodes back
      to exactly the bytes it was decoded from. */
  lemma ParseCountedInverse(buf: seq<byte>, c: nat, cs: seq<Coin>, e: nat)
    requires ParseCounted(buf, c) == Some((cs, e))
    ensures |cs| == buf[c] && AllWellFormed(cs) && e == c + 1 + CoinsSize(cs)
    ensures EncodeCounted(cs) == buf[c..e]
  {
    assert ParseCoins(buf, c + 1, buf[c]) == Some((cs, e));
    ParseCoinsInverse(buf, c + 1, buf[c], cs, e);
    CountedPiece(buf, c, e, EncodeCoins(cs));
  }

  /** A decoded counted list has as many coins as its count byte says and occupies exactly
      the count byte and the coins. */
  lemma ParseCountedCount(buf: seq<byte>, c: nat, cs: seq<Coin>, e: nat)
    requires ParseCounted(buf, c) == Some((cs, e))
    ensures c < |buf| && |cs| == buf[c] && e == c + 1 + CoinsSize(cs)
  {
    ParseCountedInverse(buf, c, cs, e);
  }

  /** A counted list decodes the same from any buffer that agrees on the bytes it occupies. */
  lemma ParseCountedLocal(b1: seq<byte>, b2: seq<byte>, c: nat, cs: seq<Coin>, e: nat)
    requires ParseCounted(b1, c) == Some((cs, e))
    requires e <= |b2| && b1[c..e] == b2[c..e]
    ensures ParseCounted(b2, c) == Some((cs, e))
  {
    assert ParseCoins(b1, c + 1, b1[c]) == Some((cs, e));
    AgreeWithin(b1, b2, c, c + 1, e);
    SliceOne(b1, c);
    SliceOne(b2, c);
    ParseCoinsLocal(b1, b2, c + 1, b1[c], cs, e);
  }

  /** The ordered inputs and outputs of a transaction. */
  datatype CoinDataValue = CoinDataValue(inputs: seq<Coin>, outputs: seq<Coin>)

  predicate WellFormedCoinData(cd: CoinDataValue)
  {
    |cd.inputs| < 256 && |cd.outputs| < 256 && AllWellFormed(cd.inputs) && AllWellFormed(cd.outputs)
  }

  /** Bytes coin data occupies: two count bytes and the coins. */
  function CoinDataSize(cd: CoinDataValue): nat
  {
    1 + CoinsSize(cd.inputs) + 1 + CoinsSize(cd.outputs)
  }

  /** The wire form of coin data, the inverse of ParseCoinData. */
  function EncodeCoinData(cd: CoinDataValue): (s: seq<byte>)
    requires WellFormedCoinData(cd)
    ensures |s| == CoinDataSize(cd)
  {
    EncodeCounted(cd.inputs) + EncodeCounted(cd.outputs)
  }

  /** CoinData.parse: a count byte and that many inputs, then a count byte and that many outputs. */
  function ParseCoinData(buf: seq<byte>, c: nat): (r: Option<(CoinDataValue, nat)>)
    ensures r.Some? ==> c < r.value.1 <= |buf|
  {
    match ParseCounted(buf, c)
    case None => None
    case Some((inputs, c1)) =>
      match ParseCounted(buf, c1)
      case None => None
      case Some((outputs, c2)) => Some((CoinDataValue(inputs, outputs), c2))
  }

  /** Decoded coin data is the counted inputs followed by the counted outputs. */
  lemma ParseCoinDataParts(buf: seq<byte>, c: nat, cd: CoinDataValue, e: nat) returns (c1: nat)
    requires ParseCoinData(buf, c) == Some((cd, e))
    ensures c < c1 < e <= |buf|
    ensures ParseCounted(buf, c) == Some((cd.inputs, c1)) && ParseCounted(buf, c1) == Some((cd.outputs, e))
  {
    c1 := ParseCounted(buf, c).value.1;
  }

  /** Decoded coin data is well formed, its input count is the first byte, it occupies exactly
      its size, and encoding it gives back exactly the bytes it was decoded from. */
  lemma ParseCoinDataInverse(buf: seq<byte>, c: nat, cd: CoinDataValue, e: nat)
    requires ParseCoinData(buf, c) == Some((cd, e))
    ensures WellFormedCoinData(cd) && e == c + CoinDataSize(cd)
    ensures |cd.inputs| == buf[c]
    ensures EncodeCoinData(cd) == buf[c..e]
  {
    var c1 := ParseCoinDataParts(buf, c, cd, e);
    ParseCountedInverse(buf, c, cd.inputs, c1);
    ParseCountedInverse(buf, c1, cd.outputs, e);
    JoinSlices(buf, c, c1, e, EncodeCounted(cd.inputs), EncodeCounted(cd.outputs));
  }

  /** The two counts of decoded coin data: the inputs number the first byte, the outputs the
      byte that follows the inputs. */
  lemma ParseCoinDataCounts(buf: seq<byte>, c: nat, cd: CoinDataValue, e: nat) returns (c1: nat)
    requires ParseCoinData(buf, c) == Some((cd, e))
    ensures c1 == c + 1 + CoinsSize(cd.inputs) && c1 < e
    ensures |cd.inputs| == buf[c] && |cd.outputs| == buf[c1]
  {
    c1 := ParseCoinDataParts(buf, c, cd, e);
    ParseCountedCount(buf, c, cd.inputs, c1);
    ParseCountedCount(buf, c1, cd.outputs, e);
  }

  /** Coin data decodes the same from any buffer that agrees on the bytes it occupies. */
  lemma ParseCoinDataLocal(b1: seq<byte>, b2: seq<byte>, c: nat, cd: CoinDataValue, e: nat)
    requires ParseCoinData(b1, c) == Some((cd, e))
    requires e <= |b2| && b1[c..e] == b2[c..e]
    ensures ParseCoinData(b2, c) == Some((cd, e))
  {
    var c1 := ParseCoinDataParts(b1, c, cd, e);
    AgreeWithin(b1, b2, c, c1, e);
    ParseCountedLocal(b1, b2, c, cd.inputs, c1);
    ParseCountedLocal(b1, b2, c1, cd.outputs, e);
  }

  /** Σ value over coins. */
  function SumNa(cs: seq<Coin>): nat
  {
    if cs == [] then 0 else SumNa(cs[..|cs| - 1]) + cs[|cs| - 1].na
  }

  /** One of the two loops of CoinData.parse: the count byte at `cursor`, then that many
      Coin.parse calls, each appending its coin; fails exactly when ParseCounted does. */
  method ParseCoinList(buf: seq<byte>, cursor: nat) returns (count: nat, cs: seq<Coin>, r: Option<nat>)
    ensures r.None? <==> ParseCounted(buf, cursor).None?
    ensures r.Some? ==> ParseCounted(buf, cursor) == Some((cs, r.value)) && count == |cs|
  {
    cs := [];
    var b := ByteAt(buf, cursor);
    if b.None? {
      return 0, cs, None;
    }
    count := b.value;
    var c := cursor + 1;
    var i := 0;
    while i < count
      invariant 0 <= i <= count
      invariant ParseCoins(buf, cursor + 1, i) == Some((cs, c))
    {
      ParseCoinsStep(buf, cursor + 1, i, cs, c);
      var coin := ParseCoin(buf, c);
      if coin.None? {
        ParseCoinsStaysFailed(buf, cursor + 1, i + 1, count);
        return count, cs, None;
      }
      cs := cs + [coin.value.0];
      c := coin.value.1;
      i := i + 1;
    }
    return count, cs, Some(c);
  }

  /** The CoinData object: counts and coin lists filled by Parse. */
  class CoinData {
    var fromCount: nat
    var toCount: nat
    var inputs: seq<Coin>
    var outputs: seq<Coin>

    constructor ()
      ensures inputs == [] && outputs == []
    {
      fromCount, toCount := 0, 0;
      inputs, outputs := [], [];
    }

    /** The decoded coin data. */
    function Value(): CoinDataValue
      reads this
    {
      CoinDataValue(inputs, outputs)
    }

    /** Parses coin data at `cursor` and returns the cursor after it; fails exactly when
        ParseCoinData does, and on success holds what it decodes. */
    method Parse(buf: seq<byte>, cursor: nat) returns (r: Option<nat>)
      modifies this
      ensures r.None? <==> ParseCoinData(buf, cursor).None?
      ensures r.Some? ==> ParseCoinData(buf, cursor) == Some((Value(), r.value))
      ensures r.Some? ==> fromCount == |inputs| && toCount == |outputs|
    {
      var c1;
      fromCount, inputs, c1 := ParseCoinList(buf, cursor);
      if c1.None? {
        return None;
      }
      var c2;
      toCount, outputs, c2 := ParseCoinList(buf, c1.value);
      return c2;
    }

    /** get_output_sum: the value carried by the outputs. */
    function GetOutputSum(): (sum: nat)
      reads this
      ensures forall k :: 0 <= k < |outputs| ==> outputs[k].na <= sum
    {
      SumNaBound(outputs);
      SumNa(outputs)
    }

    /** get_fee: what the inputs carry beyond the outputs; negative when the outputs exceed the
        inputs, which the decoder does not reject. */
    function GetFee(): (fee: int)
      reads this
      ensures fee + GetOutputSum() == SumNa(inputs)
    {
      SumNa(inputs) - SumNa(outputs)
    }
  }

  /** No coin carries more value than its list as a whole. */
  lemma {:induction false} SumNaBound(cs: seq<Coin>)
    ensures forall k :: 0 <= k < |cs| ==> cs[k].na <= SumNa(cs)
  {
    if cs != [] {
      SumNaBound(cs[..|cs| - 1]);
      assert forall k :: 0 <= k < |cs| - 1 ==> cs[k] == cs[..|cs| - 1][k];
    }
  }
}
