/** The transaction decoder of `nulsexplorer/protocol/transaction.py`: the type-specific
    payload (`_parse_data`), the transaction layout (`parse`) with its hash preimage and size,
    and the record projection (`to_dict`). The double hash is a parameter. */
module TxDecoder {
  import opened Wrappers
  import opened NulsData
  import opened CoinCodec
  import opened TxRecords

  /** The `module_data` dictionary, one shape per transaction type. Hex renderings are kept as
      the bytes they render; the commission rate is kept as its eight bytes. */
  datatype ModuleData =
    | NoData
    | Alias(address: seq<byte>, alias: seq<byte>)
    | RegisterAgent(deposit: nat, agentAddress: seq<byte>, packingAddress: seq<byte>,
                    rewardAddress: seq<byte>, commissionRate: seq<byte>)
    | JoinConsensus(deposit: nat, address: seq<byte>, agentHash: seq<byte>)
    | CancelDeposit(joinTxHash: seq<byte>)
    | YellowCard(count: nat, addresses: seq<seq<byte>>)
    | RedCard(address: seq<byte>, reason: byte, evidence: seq<byte>)
    | StopAgent(createTxHash: seq<byte>)

  /** The `count` addresses of a yellow card, read one after the other from `c`. */
  function Addresses(buf: seq<byte>, c: nat, count: nat): (r: seq<seq<byte>>)
    ensures |r| == count
  {
    if count == 0 then []
    else Addresses(buf, c, count - 1)
         + [Slice(buf, c + (count - 1) * ADDRESS_LENGTH, c + (count - 1) * ADDRESS_LENGTH + ADDRESS_LENGTH)]
  }

  /** Address `k` of a yellow card is the `k`-th ADDRESS_LENGTH slice after `c`. */
  lemma {:induction false} AddressesAt(buf: seq<byte>, c: nat, count: nat, k: nat)
    requires k < count
    ensures Addresses(buf, c, count)[k] == Slice(buf, c + k * ADDRESS_LENGTH, c + k * ADDRESS_LENGTH + ADDRESS_LENGTH)
  {
    if k < count - 1 {
      AddressesAt(buf, c, count - 1, k);
    }
  }

  /** _parse_data: the payload of a transaction of type `t` at `c`, and the cursor after it.
      Types 1 to 9 have a payload of their own; any other type reads nothing. Reads that
      raise on a short buffer fail; plain slices are clamped and never fail. */
  function ParsePayload(t: nat, buf: seq<byte>, c: nat): (r: Option<(ModuleData, nat)>)
    ensures r.Some? ==> c <= r.value.1
  {
    if t == 1 || t == 2 then Some((NoData, c + |PLACE_HOLDER|))
    else if t == 3 then ParseAlias(buf, c)
    else if t == 4 then ParseRegisterAgent(buf, c)
    else if t == 5 then ParseJoinConsensus(buf, c)
    else if t == 6 then Some((CancelDeposit(Slice(buf, c, c + HASH_LENGTH)), c + HASH_LENGTH))
    else if t == 7 then ParseYellowCard(buf, c)
    else if t == 8 then ParseRedCard(buf, c)
    else if t == 9 then Some((StopAgent(Slice(buf, c, c + HASH_LENGTH)), c + HASH_LENGTH))
    else Some((NoData, c))
  }

  /** Type 3: the address and the alias, each with a length prefix. */
  function ParseAlias(buf: seq<byte>, c: nat): (r: Option<(ModuleData, nat)>)
    ensures r.Some? ==> c <= r.value.1
  {
    match ReadByLength(buf, c)
    case None => None
    case Some(address) =>
      var c1 := c + |address| + 1;
      match ReadByLength(buf, c1)
      case None => None
      case Some(alias) => Some((Alias(address, alias), c1 + |alias| + 1))
  }

  /** Type 4: the deposit, three addresses and the eight bytes of the commission rate. */
  function ParseRegisterAgent(buf: seq<byte>, c: nat): (r: Option<(ModuleData, nat)>)
    ensures r.Some? ==> c <= r.value.1
  {
    match ReadUint(buf, c, 8)
    case None => None
    case Some(deposit) =>
      var a := c + 8;
      var rate := a + 3 * ADDRESS_LENGTH;
      if rate + 8 <= |buf| then
        Some((RegisterAgent(deposit, Slice(buf, a, a + ADDRESS_LENGTH),
                            Slice(buf, a + ADDRESS_LENGTH, a + 2 * ADDRESS_LENGTH),
                            Slice(buf, a + 2 * ADDRESS_LENGTH, rate), buf[rate..rate + 8]),
              rate + 8))
      else None
  }

  /** Type 5: the deposit, the address and the agent hash. */
  function ParseJoinConsensus(buf: seq<byte>, c: nat): (r: Option<(ModuleData, nat)>)
    ensures r.Some? ==> c <= r.value.1
  {
    match ReadUint(buf, c, 8)
    case None => None
    case Some(deposit) =>
      var a := c + 8;
      Some((JoinConsensus(deposit, Slice(buf, a, a + ADDRESS_LENGTH),
                          Slice(buf, a + ADDRESS_LENGTH, a + ADDRESS_LENGTH + HASH_LENGTH)),
            a + ADDRESS_LENGTH + HASH_LENGTH))
  }

  /** Type 7: a count byte and that many addresses. */
  function ParseYellowCard(buf: seq<byte>, c: nat): (r: Option<(ModuleData, nat)>)
    ensures r.Some? ==> c <= r.value.1
  {
    match ByteAt(buf, c)
    case None => None
    case Some(count) =>
      Some((YellowCard(count, Addresses(buf, c + 1, count)), c + 1 + count * ADDRESS_LENGTH))
  }

  /** Type 8: the address, the reason byte and the evidence. The cursor advances by the length
      of the hex rendering of the address and of the evidence, plus one each. */
  function ParseRedCard(buf: seq<byte>, c: nat): (r: Option<(ModuleData, nat)>)
    ensures r.Some? ==> c <= r.value.1
  {
    match ReadByLength(buf, c)
    case None => None
    case Some(address) =>
      var c1 := c + 2 * |address| + 1;
      match ByteAt(buf, c1)
      case None => None
      case Some(reason) =>
        match ReadByLength(buf, c1 + 1)
        case None => None
        case Some(evidence) => Some((RedCard(address, reason, evidence), c1 + 1 + 2 * |evidence| + 1))
  }

  /** The payload shape a transaction type yields. */
  predicate KindOf(t: nat, md: ModuleData)
  {
    match md
    case NoData => t < 3 || t > 9
    case Alias(_, _) => t == 3
    case RegisterAgent(_, _, _, _, _) => t == 4
    case JoinConsensus(_, _, _) => t == 5
    case CancelDeposit(_) => t == 6
    case YellowCard(_, _) => t == 7
    case RedCard(_, _, _) => t == 8
    case StopAgent(_) => t == 9
  }

  /** The bytes a payload occupies, from its shape and the lengths of its fields. */
  function PayloadSize(t: nat, md: ModuleData): nat
  {
    match md
    case NoData => if t == 1 || t == 2 then |PLACE_HOLDER| else 0
    case Alias(a, s) => 1 + |a| + 1 + |s|
    case RegisterAgent(_, _, _, _, _) => 8 + 3 * ADDRESS_LENGTH + 8
    case JoinConsensus(_, _, _) => 8 + ADDRESS_LENGTH + HASH_LENGTH
    case CancelDeposit(_) => HASH_LENGTH
    case YellowCard(n, _) => 1 + n * ADDRESS_LENGTH
    case RedCard(a, _, ev) => (2 * |a| + 1) + 1 + (2 * |ev| + 1)
    case StopAgent(_) => HASH_LENGTH
  }

  /** A decoded payload has the shape of its type and the cursor moves by its size. */
  lemma PayloadAdvance(t: nat, buf: seq<byte>, c: nat, md: ModuleData, p: nat)
    requires ParsePayload(t, buf, c) == Some((md, p))
    ensures KindOf(t, md) && p == c + PayloadSize(t, md)
  {
  }

  /** The payloads of fixed size, and when each of them fails. */
  lemma PayloadFixed(t: nat, buf: seq<byte>, c: nat)
    ensures t == 1 || t == 2 ==> ParsePayload(t, buf, c) == Some((NoData, c + 4))
    ensures t == 4 ==> (ParsePayload(t, buf, c).Some? <==> c + 85 <= |buf|)
    ensures t == 4 && ParsePayload(t, buf, c).Some? ==> ParsePayload(t, buf, c).value.1 == c + 85
    ensures t == 5 ==> (ParsePayload(t, buf, c).Some? <==> c + 8 <= |buf|)
    ensures t == 5 && ParsePayload(t, buf, c).Some? ==> ParsePayload(t, buf, c).value.1 == c + 65
    ensures t == 6 ==> ParsePayload(t, buf, c) == Some((CancelDeposit(Slice(buf, c, c + 34)), c + 34))
    ensures t == 9 ==> ParsePayload(t, buf, c) == Some((StopAgent(Slice(buf, c, c + 34)), c + 34))
    ensures t == 0 || t > 9 ==> ParsePayload(t, buf, c) == Some((NoData, c))
  {
  }

  /** A yellow card holds as many addresses as its count byte says, each the next
      ADDRESS_LENGTH bytes, and the cursor moves past all of them. */
  lemma YellowCardLayout(buf: seq<byte>, c: nat, md: ModuleData, p: nat)
    requires ParsePayload(7, buf, c) == Some((md, p))
    ensures md.YellowCard? && c < |buf| && md.count == buf[c] && |md.addresses| == md.count
    ensures forall k :: 0 <= k < md.count ==>
      md.addresses[k] == Slice(buf, c + 1 + k * ADDRESS_LENGTH, c + 1 + k * ADDRESS_LENGTH + ADDRESS_LENGTH)
    ensures p == c + 1 + md.count * ADDRESS_LENGTH
  {
    forall k | 0 <= k < md.count
      ensures md.addresses[k] == Slice(buf, c + 1 + k * ADDRESS_LENGTH, c + 1 + k * ADDRESS_LENGTH + ADDRESS_LENGTH)
    {
      AddressesAt(buf, c + 1, md.count, k);
    }
  }

  /** A red card reads its reason byte 2·|address| + 1 bytes after `c`, which lies past the
      address field as soon as the address is not empty. */
  lemma RedCardLayout(buf: seq<byte>, c: nat, md: ModuleData, p: nat)
    requires ParsePayload(8, buf, c) == Some((md, p))
    ensures md.RedCard? && ReadByLength(buf, c) == Some(md.address)
    ensures c + 2 * |md.address| + 1 < |buf| && md.reason == buf[c + 2 * |md.address| + 1]
    ensures ReadByLength(buf, c + 2 * |md.address| + 2) == Some(md.evidence)
    ensures |md.address| > 0 ==> c + 1 + |md.address| < c + 2 * |md.address| + 1
  {
  }

  lemma {:induction false} AddressesLocal(b1: seq<byte>, b2: seq<byte>, c: nat, e: nat, a: nat, count: nat)
    requires c <= a && a + count * ADDRESS_LENGTH <= e <= |b1| && e <= |b2| && b1[c..e] == b2[c..e]
    ensures Addresses(b1, a, count) == Addresses(b2, a, count)
  {
    if count > 0 {
      AddressesLocal(b1, b2, c, e, a, count - 1);
      var s := a + (count - 1) * ADDRESS_LENGTH;
      SliceLocal(b1, b2, c, e, s, s + ADDRESS_LENGTH);
    }
  }

  /** A payload depends only on the bytes it spans. */
  lemma PayloadLocal(t: nat, b1: seq<byte>, b2: seq<byte>, c: nat, md: ModuleData, p: nat)
    requires ParsePayload(t, b1, c) == Some((md, p))
    requires p <= |b1| && p <= |b2| && b1[c..p] == b2[c..p]
    ensures ParsePayload(t, b2, c) == Some((md, p))
  {
    if t == 3 {
      AliasLocal(b1, b2, c, md, p);
    } else if t == 4 {
      RegisterAgentLocal(b1, b2, c, md, p);
    } else if t == 5 {
      JoinConsensusLocal(b1, b2, c, md, p);
    } else if t == 6 || t == 9 {
      SliceLocal(b1, b2, c, p, c, p);
    } else if t == 7 {
      AgreeAt(b1, b2, c, p, c);
      AddressesLocal(b1, b2, c, p, c + 1, b1[c]);
    } else if t == 8 {
      RedCardLocal(b1, b2, c, md, p);
    }
  }

  lemma AliasLocal(b1: seq<byte>, b2: seq<byte>, c: nat, md: ModuleData, p: nat)
    requires ParsePayload(3, b1, c) == Some((md, p))
    requires p <= |b1| && p <= |b2| && b1[c..p] == b2[c..p]
    ensures ParsePayload(3, b2, c) == Some((md, p))
  {
    var address := ReadByLength(b1, c).value;
    ReadByLengthLocal(b1, b2, c, p, c);
    ReadByLengthLocal(b1, b2, c, p, c + |address| + 1);
  }

  lemma RegisterAgentLocal(b1: seq<byte>, b2: seq<byte>, c: nat, md: ModuleData, p: nat)
    requires ParsePayload(4, b1, c) == Some((md, p))
    requires p <= |b1| && p <= |b2| && b1[c..p] == b2[c..p]
    ensures ParsePayload(4, b2, c) == Some((md, p))
  {
    var a := c + 8;
    AgreeSub(b1, b2, c, p, c, c + 8);
    SliceLocal(b1, b2, c, p, a, a + ADDRESS_LENGTH);
    SliceLocal(b1, b2, c, p, a + ADDRESS_LENGTH, a + 2 * ADDRESS_LENGTH);
    SliceLocal(b1, b2, c, p, a + 2 * ADDRESS_LENGTH, a + 3 * ADDRESS_LENGTH);
    AgreeSub(b1, b2, c, p, a + 3 * ADDRESS_LENGTH, p);
  }

  lemma JoinConsensusLocal(b1: seq<byte>, b2: seq<byte>, c: nat, md: ModuleData, p: nat)
    requires ParsePayload(5, b1, c) == Some((md, p))
    requires p <= |b1| && p <= |b2| && b1[c..p] == b2[c..p]
    ensures ParsePayload(5, b2, c) == Some((md, p))
  {
    var a := c + 8;
    AgreeSub(b1, b2, c, p, c, c + 8);
    SliceLocal(b1, b2, c, p, a, a + ADDRESS_LENGTH);
    SliceLocal(b1, b2, c, p, a + ADDRESS_LENGTH, p);
  }

  lemma RedCardLocal(b1: seq<byte>, b2: seq<byte>, c: nat, md: ModuleData, p: nat)
    requires ParsePayload(8, b1, c) == Some((md, p))
    requires p <= |b1| && p <= |b2| && b1[c..p] == b2[c..p]
    ensures ParsePayload(8, b2, c) == Some((md, p))
  {
    var address := ReadByLength(b1, c).value;
    var c1 := c + 2 * |address| + 1;
    ReadByLengthLocal(b1, b2, c, p, c);
    AgreeAt(b1, b2, c, p, c1);
    ReadByLengthLocal(b1, b2, c, p, c1 + 1);
  }

  /** A decoded transaction: the fields `Transaction.parse` assigns. */
  datatype Tx = Tx(
    txType: nat,
    time: int,
    remark: seq<byte>,
    moduleData: ModuleData,
    coinData: CoinDataValue,
    hash: seq<byte>,
    scriptSig: seq<byte>,
    size: int)

  /** Transaction.parse, over the two variable-length stage decoders it calls: type (2 bytes),
      time (6 bytes), remark, payload, coin data and scriptSig, in this order from `c`; the hash
      is `hashTwice` of the type byte, 0xFF, the time as eight bytes and the bytes from the
      remark to the end of the coin data (a Python slice). A type that does not fit in a byte,
      or a time of -1, fails when the preimage is built. */
  function ParseTransactionWith(buf: seq<byte>, c: nat, hashTwice: seq<byte> -> seq<byte>,
                                payload: (nat, seq<byte>, nat) -> Option<(ModuleData, nat)>,
                                coinData: (seq<byte>, nat) -> Option<(CoinDataValue, nat)>): Option<(Tx, nat)>
  {
    match ReadUint(buf, c, 2)
    case None => None
    case Some(txType) =>
      match ReadUint48(buf, c + 2)
      case None => None
      case Some(time) =>
        match ReadByLength(buf, c + 8)
        case None => None
        case Some(remark) =>
          match payload(txType, buf, c + 8 + |remark| + 1)
          case None => None
          case Some((md, p)) => TailWith(buf, c, hashTwice, coinData, txType, time, remark, md, p)
  }

  /** The rest of Transaction.parse once the payload ends at `p`: the coin data, then the rest. */
  function TailWith(buf: seq<byte>, c: nat, hashTwice: seq<byte> -> seq<byte>,
                    coinData: (seq<byte>, nat) -> Option<(CoinDataValue, nat)>,
                    txType: nat, time: int, remark: seq<byte>, md: ModuleData, p: nat): Option<(Tx, nat)>
  {
    match coinData(buf, p)
    case None => None
    case Some((cd, q)) => Seal(buf, c, hashTwice, txType, time, remark, md, cd, q)
  }

  /** The end of Transaction.parse once the coin data ends at `q`: the hash of the preimage
      (type byte, 0xFF, time as eight bytes, the bytes from the remark to `q`), then the
      scriptSig and the size. */
  function Seal(buf: seq<byte>, c: nat, hashTwice: seq<byte> -> seq<byte>,
                txType: nat, time: int, remark: seq<byte>, md: ModuleData, cd: CoinDataValue, q: nat): Option<(Tx, nat)>
  {
    if txType >= 256 then None
    else
      match WriteUint64(time)
      case None => None
      case Some(time8) =>
        var hash := hashTwice([txType as byte, 0xFF] + time8 + Slice(buf, c + 8, q));
        match ReadByLength(buf, q)
        case None => None
        case Some(sig) =>
          var e := q + |sig| + 1;
          Some((Tx(txType, time, remark, md, cd, hash, sig, e - c), e))
  }

  /** Transaction.parse with its own payload and coin-data decoders. */
  function ParseTransaction(buf: seq<byte>, c: nat, hashTwice: seq<byte> -> seq<byte>): Option<(Tx, nat)>
  {
    ParseTransactionWith(buf, c, hashTwice, ParsePayload, ParseCoinData)
  }

  /** The stages of a decoding over any stage decoders, with the cursors between them. */
  lemma StagesWith(buf: seq<byte>, c: nat, h: seq<byte> -> seq<byte>,
                   payload: (nat, seq<byte>, nat) -> Option<(ModuleData, nat)>,
                   coinData: (seq<byte>, nat) -> Option<(CoinDataValue, nat)>, t: Tx, e: nat)
    returns (p0: nat, p: nat, q: nat)
    requires ParseTransactionWith(buf, c, h, payload, coinData) == Some((t, e))
    ensures ReadUint(buf, c, 2) == Some(t.txType) && t.txType < 256
    ensures ReadUint48(buf, c + 2) == Some(t.time) && 0 <= t.time < Pow256(8)
    ensures ReadByLength(buf, c + 8) == Some(t.remark) && p0 == c + 8 + |t.remark| + 1
    ensures payload(t.txType, buf, p0) == Some((t.moduleData, p))
    ensures coinData(buf, p) == Some((t.coinData, q))
    ensures ReadByLength(buf, q) == Some(t.scriptSig) && e == q + 1 + |t.scriptSig|
    ensures t.hash == h([t.txType as byte, 0xFF] + EncodeLE(t.time, 8) + Slice(buf, c + 8, q))
    ensures t.size == e - c
  {
    p0 := c + 8 + |t.remark| + 1;
    p := payload(t.txType, buf, p0).value.1;
    q := coinData(buf, p).value.1;
  }

  /** A decoding over any stage decoders fails when its payload stage fails. */
  lemma PayloadFailsWith(buf: seq<byte>, c: nat, h: seq<byte> -> seq<byte>,
                         payload: (nat, seq<byte>, nat) -> Option<(ModuleData, nat)>,
                         coinData: (seq<byte>, nat) -> Option<(CoinDataValue, nat)>,
                         txType: nat, time: int, remark: seq<byte>)
    requires ReadUint(buf, c, 2) == Some(txType) && ReadUint48(buf, c + 2) == Some(time)
    requires ReadByLength(buf, c + 8) == Some(remark) && payload(txType, buf, c + 8 + |remark| + 1).None?
    ensures ParseTransactionWith(buf, c, h, payload, coinData).None?
  {
  }

  /** Once the header and the payload are read, a decoding is the rest of it. */
  lemma PayloadThenTailWith(buf: seq<byte>, c: nat, h: seq<byte> -> seq<byte>,
                            payload: (nat, seq<byte>, nat) -> Option<(ModuleData, nat)>,
                            coinData: (seq<byte>, nat) -> Option<(CoinDataValue, nat)>,
                            txType: nat, time: int, remark: seq<byte>, md: ModuleData, p: nat)
    requires ReadUint(buf, c, 2) == Some(txType) && ReadUint48(buf, c + 2) == Some(time)
    requires ReadByLength(buf, c + 8) == Some(remark) && payload(txType, buf, c + 8 + |remark| + 1) == Some((md, p))
    ensures ParseTransactionWith(buf, c, h, payload, coinData) == TailWith(buf, c, h, coinData, txType, time, remark, md, p)
  {
  }

  /** The stages of a decoded transaction, with the cursors between them: `p0` after the
      remark, `p` after the payload, `q` after the coin data. */
  lemma TxParts(buf: seq<byte>, c: nat, h: seq<byte> -> seq<byte>, t: Tx, e: nat)
    returns (p0: nat, p: nat, q: nat)
    requires ParseTransaction(buf, c, h) == Some((t, e))
    ensures ReadUint(buf, c, 2) == Some(t.txType) && t.txType < 256
    ensures ReadUint48(buf, c + 2) == Some(t.time) && 0 <= t.time < Pow256(8)
    ensures ReadByLength(buf, c + 8) == Some(t.remark) && p0 == c + 9 + |t.remark|
    ensures ParsePayload(t.txType, buf, p0) == Some((t.moduleData, p))
    ensures ParseCoinData(buf, p) == Some((t.coinData, q))
    ensures p0 <= p < q <= |buf|
    ensures ReadByLength(buf, q) == Some(t.scriptSig) && e == q + 1 + |t.scriptSig|
    ensures t.hash == h([t.txType as byte, 0xFF] + EncodeLE(t.time, 8) + buf[c + 8..q])
    ensures t.size == e - c
  {
    p0, p, q := StagesWith(buf, c, h, ParsePayload, ParseCoinData, t, e);
  }

  /** The size of a transaction is the sum of its parts: type, time, remark with its prefix,
      payload, coin data and scriptSig with its prefix. */
  lemma TxSize(buf: seq<byte>, c: nat, h: seq<byte> -> seq<byte>, t: Tx, e: nat)
    requires ParseTransaction(buf, c, h) == Some((t, e))
    ensures t.size == e - c
    ensures t.size == 2 + 6 + (1 + |t.remark|) + PayloadSize(t.txType, t.moduleData)
                      + CoinDataSize(t.coinData) + (1 + |t.scriptSig|)
  {
    var p0, p, q := TxParts(buf, c, h, t, e);
    PayloadAdvance(t.txType, buf, p0, t.moduleData, p);
    ParseCoinDataInverse(buf, p, t.coinData, q);
  }

  /** What the hash covers: the type byte, 0xFF, the time as eight bytes, then the remark
      with its length prefix, the payload bytes and the coin data, and nothing after them. */
  lemma TxHashPreimage(buf: seq<byte>, c: nat, h: seq<byte> -> seq<byte>, t: Tx, e: nat)
    returns (p0: nat, p: nat, q: nat)
    requires ParseTransaction(buf, c, h) == Some((t, e))
    ensures t.txType < 256 && 0 <= t.time < Pow256(8)
    ensures |t.remark| < 256 && WellFormedCoinData(t.coinData)
    ensures p0 == c + 9 + |t.remark| && p == p0 + PayloadSize(t.txType, t.moduleData) && q == e - 1 - |t.scriptSig|
    ensures c + 8 < p0 <= p <= q <= |buf|
    ensures t.hash == h([t.txType as byte, 0xFF] + EncodeLE(t.time, 8) + buf[c + 8..q])
    ensures buf[c + 8..q] == WithLength(t.remark) + buf[p0..p] + EncodeCoinData(t.coinData)
  {
    p0, p, q := TxParts(buf, c, h, t, e);
    PayloadAdvance(t.txType, buf, p0, t.moduleData, p);
    ParseCoinDataInverse(buf, p, t.coinData, q);
    HashedSpan(buf, c, t.remark, p0, p, q);
  }

  /** Two hashes of preimages with the same type and time, over spans that end before their
      scriptSigs and agree. */
  lemma SameSpanSameHash(h: seq<byte> -> seq<byte>, t1: Tx, t2: Tx, b1: seq<byte>, b2: seq<byte>,
                         c: nat, q1: nat, q2: nat, e1: nat, e2: nat)
    requires t1.txType < 256 && 0 <= t1.time < Pow256(8) && t2.txType == t1.txType && t2.time == t1.time
    requires c + 8 <= q1 <= |b1| && q1 == e1 - 1 - |t1.scriptSig|
    requires c + 8 <= q2 <= |b2| && q2 == e2 - 1 - |t2.scriptSig|
    requires t1.hash == h([t1.txType as byte, 0xFF] + EncodeLE(t1.time, 8) + b1[c + 8..q1])
    requires t2.hash == h([t2.txType as byte, 0xFF] + EncodeLE(t2.time, 8) + b2[c + 8..q2])
    requires b1[c + 8..e1 - 1 - |t1.scriptSig|] == b2[c + 8..e2 - 1 - |t2.scriptSig|]
    ensures t2.hash == t1.hash
  {
  }

  /** The span from the remark to the end of the coin data, in its three pieces. */
  lemma HashedSpan(buf: seq<byte>, c: nat, remark: seq<byte>, p0: nat, p: nat, q: nat)
    requires ReadByLength(buf, c + 8) == Some(remark) && p0 == c + 9 + |remark| && p0 <= p <= q <= |buf|
    ensures |remark| < 256
    ensures buf[c + 8..q] == WithLength(remark) + buf[p0..p] + buf[p..q]
  {
    CountedPiece(buf, c + 8, p0, remark);
    JoinThree(buf, c + 8, p0, p, q, WithLength(remark), buf[p0..p], buf[p..q]);
  }

  /** The scriptSig is outside the hash: two decoded transactions with the same type and time,
      whose bytes from the remark to the end of the coin data agree, have the same hash, whatever
      their scriptSig bytes. */
  lemma HashIgnoresScriptSig(b1: seq<byte>, b2: seq<byte>, c: nat, h: seq<byte> -> seq<byte>,
                             t1: Tx, e1: nat, t2: Tx, e2: nat)
    requires ParseTransaction(b1, c, h) == Some((t1, e1)) && ParseTransaction(b2, c, h) == Some((t2, e2))
    requires t2.txType == t1.txType && t2.time == t1.time
    requires b1[c + 8..e1 - 1 - |t1.scriptSig|] == b2[c + 8..e2 - 1 - |t2.scriptSig|]
    ensures t2.hash == t1.hash
  {
    var _, _, q1 := TxHashPreimage(b1, c, h, t1, e1);
    var _, _, q2 := TxHashPreimage(b2, c, h, t2, e2);
    SameSpanSameHash(h, t1, t2, b1, b2, c, q1, q2, e1, e2);
  }

  /** The yellow-card loop of _parse_data: `count` addresses of ADDRESS_LENGTH bytes from `c`,
      and the cursor after them. */
  method ReadAddresses(buf: seq<byte>, c: nat, count: nat) returns (addrs: seq<seq<byte>>, end: nat)
    ensures addrs == Addresses(buf, c, count)
    ensures end == c + count * ADDRESS_LENGTH
  {
    addrs, end := [], c;
    for i := 0 to count
      invariant addrs == Addresses(buf, c, i)
      invariant end == c + i * ADDRESS_LENGTH
    {
      addrs := addrs + [Slice(buf, end, end + ADDRESS_LENGTH)];
      end := end + ADDRESS_LENGTH;
    }
  }

  /** Coin.to_dict: the value and the lock time, with the address when the owner is one, or
      the spent output's hash and index when it is a spend reference. */
  function CoinEntry(x: Coin): (e: Entry)
    ensures CoinOfEntry(e) == Some(x)
    ensures e.status.None? && e.toHash.None? && e.toIndex.None?
  {
    match x.owner
    case Spend(h, i) => Entry(None, Some(h), Some(i as nat), x.na, Some(x.lockTime), None, None, None)
    case Address(a) => Entry(Some(a), None, None, x.na, Some(x.lockTime), None, None, None)
  }

  /** The coin an input or output dictionary describes, if it describes one: a lock time and
      either an address alone or a spent hash with an index below 256. */
  function CoinOfEntry(e: Entry): Option<Coin>
  {
    if e.lockTime.None? then None
    else if e.address.Some? && e.fromHash.None? && e.fromIndex.None? then
      Some(Coin(Address(e.address.value), e.value, e.lockTime.value))
    else if e.address.None? && e.fromHash.Some? && e.fromIndex.Some? && e.fromIndex.value < 256 then
      Some(Coin(Spend(e.fromHash.value, e.fromIndex.value as byte), e.value, e.lockTime.value))
    else None
  }

  /** A dictionary that describes a coin and has no spend marks is that coin's dictionary. */
  lemma CoinOfEntryInverse(e: Entry, x: Coin)
    requires CoinOfEntry(e) == Some(x)
    requires e.status.None? && e.toHash.None? && e.toIndex.None?
    ensures CoinEntry(x) == e
  {
  }

  /** The dictionaries of a list of coins, in order. */
  function CoinEntries(cs: seq<Coin>): (es: seq<Entry>)
    ensures |es| == |cs|
    ensures forall i :: 0 <= i < |es| ==> CoinOfEntry(es[i]) == Some(cs[i]) && es[i].status.None?
  {
    if cs == [] then [] else CoinEntries(cs[..|cs| - 1]) + [CoinEntry(cs[|cs| - 1])]
  }

  /** The `info` dictionary of a payload: one key per field, numbers as numbers and the yellow
      card's addresses as a list. */
  function Info(md: ModuleData): (m: map<string, Field>)
    ensures forall t: nat {:trigger KindOf(t, md)} :: KindOf(t, md) ==> ModuleDataOf(t, m) == Some(md)
  {
    match md
    case NoData => map[]
    case Alias(a, s) => map["address" := Bytes(a), "alias" := Bytes(s)]
    case RegisterAgent(d, a, p, w, rate) =>
      map["deposit" := Num(d), "agentAddress" := Bytes(a), "packingAddress" := Bytes(p),
          "rewardAddress" := Bytes(w), "commissionRate" := Bytes(rate)]
    case JoinConsensus(d, a, h) => map["deposit" := Num(d), "address" := Bytes(a), "agentHash" := Bytes(h)]
    case CancelDeposit(h) => map["joinTxHash" := Bytes(h)]
    case YellowCard(n, addrs) => map["count" := Num(n), "addresses" := List(addrs)]
    case RedCard(a, reason, ev) => map["address" := Bytes(a), "reason" := Num(reason), "evidence" := Bytes(ev)]
    case StopAgent(h) => map["createTxHash" := Bytes(h)]
  }

  /** The bytes under key `k`, if `k` holds bytes. */
  function BytesAt(m: map<string, Field>, k: string): Option<seq<byte>>
  {
    if k in m && m[k].Bytes? then Some(m[k].bytes) else None
  }

  /** The non-negative number under key `k`, if `k` holds one. */
  function NatAt(m: map<string, Field>, k: string): Option<nat>
  {
    if k in m && m[k].Num? && m[k].num >= 0 then Some(m[k].num) else None
  }

  /** Reads an `info` dictionary back as the payload of a transaction of type `t`. */
  function ModuleDataOf(t: nat, m: map<string, Field>): Option<ModuleData>
  {
    if t == 3 then
      if BytesAt(m, "address").Some? && BytesAt(m, "alias").Some? && m.Keys == {"address", "alias"}
      then Some(Alias(BytesAt(m, "address").value, BytesAt(m, "alias").value)) else None
    else if t == 4 then
      if NatAt(m, "deposit").Some? && BytesAt(m, "agentAddress").Some? && BytesAt(m, "packingAddress").Some?
         && BytesAt(m, "rewardAddress").Some? && BytesAt(m, "commissionRate").Some?
         && m.Keys == {"deposit", "agentAddress", "packingAddress", "rewardAddress", "commissionRate"}
      then Some(RegisterAgent(NatAt(m, "deposit").value, BytesAt(m, "agentAddress").value,
                              BytesAt(m, "packingAddress").value, BytesAt(m, "rewardAddress").value,
                              BytesAt(m, "commissionRate").value))
      else None
    else if t == 5 then
      if NatAt(m, "deposit").Some? && BytesAt(m, "address").Some? && BytesAt(m, "agentHash").Some?
         && m.Keys == {"deposit", "address", "agentHash"}
      then Some(JoinConsensus(NatAt(m, "deposit").value, BytesAt(m, "address").value, BytesAt(m, "agentHash").value))
      else None
    else if t == 6 then
      if BytesAt(m, "joinTxHash").Some? && m.Keys == {"joinTxHash"} then Some(CancelDeposit(BytesAt(m, "joinTxHash").value)) else None
    else if t == 7 then
      if NatAt(m, "count").Some? && "addresses" in m && m["addresses"].List?
         && m.Keys == {"count", "addresses"}
      then Some(YellowCard(NatAt(m, "count").value, m["addresses"].items)) else None
    else if t == 8 then
      if BytesAt(m, "address").Some? && NatAt(m, "reason").Some? && NatAt(m, "reason").value < 256
         && BytesAt(m, "evidence").Some?
         && m.Keys == {"address", "reason", "evidence"}
      then Some(RedCard(BytesAt(m, "address").value, NatAt(m, "reason").value as byte, BytesAt(m, "evidence").value))
      else None
    else if t == 9 then
      if BytesAt(m, "createTxHash").Some? && m.Keys == {"createTxHash"} then Some(StopAgent(BytesAt(m, "createTxHash").value)) else None
    else if m.Keys == {} then Some(NoData) else None
  }

  /** A transaction object: the fields `Transaction.parse` fills in, with its coin data. */
  class Transaction {
    var txType: nat
    var time: int
    var hash: seq<byte>
    var height: Option<nat>
    var scriptSig: seq<byte>
    var remark: seq<byte>
    var moduleData: ModuleData
    var coinData: CoinData
    var size: int

    constructor (height: Option<nat>)
      ensures this.height == height && moduleData == NoData
    {
      txType, time, hash, scriptSig, remark, size := 0, 0, [], [], [], 0;
      this.height := height;
      moduleData := NoData;
      coinData := new CoinData();
    }

    /** The decoded transaction this object holds. */
    function Value(): Tx
      reads this, coinData
    {
      Tx(txType, time, remark, moduleData, coinData.Value(), hash, scriptSig, size)
    }

    /** to_dict: the record of this transaction. The fee is the coin data's fee, an empty
        remark or scriptSig is left out, `info` holds the payload and every coin becomes its
        dictionary, in order. */
    function ToDict(): (d: TxRecord)
      reads this, coinData
      ensures d.hash == hash && d.txType == txType && d.time == time && d.size == size
      ensures d.blockHeight == height
      ensures d.fee + coinData.GetOutputSum() == SumNa(coinData.inputs)
      ensures d.remark.None? <==> remark == []
      ensures d.remark.Some? ==> d.remark.value == remark
      ensures d.scriptSig.None? <==> scriptSig == []
      ensures d.scriptSig.Some? ==> d.scriptSig.value == scriptSig
      ensures KindOf(txType, moduleData) ==> ModuleDataOf(txType, d.info) == Some(moduleData)
      ensures |d.inputs| == |coinData.inputs| && |d.outputs| == |coinData.outputs|
      ensures forall i :: 0 <= i < |d.inputs| ==> CoinOfEntry(d.inputs[i]) == Some(coinData.inputs[i])
      ensures forall i :: 0 <= i < |d.outputs| ==> CoinOfEntry(d.outputs[i]) == Some(coinData.outputs[i])
      ensures forall i :: 0 <= i < |d.outputs| ==> d.outputs[i].status.None?
    {
      TxRecord(hash, txType, time, height, coinData.GetFee(),
               if remark == [] then None else Some(remark),
               if scriptSig == [] then None else Some(scriptSig),
               size, Info(moduleData),
               CoinEntries(coinData.inputs), CoinEntries(coinData.outputs))
    }

    /** _parse_data: reads the payload of this object's type at `cursor` into `moduleData` and
        returns the cursor after it; fails exactly when ParsePayload does. */
    method ParseData(buf: seq<byte>, cursor: nat) returns (r: Option<nat>)
      modifies this`moduleData
      ensures r.None? <==> ParsePayload(txType, buf, cursor).None?
      ensures r.Some? ==> ParsePayload(txType, buf, cursor) == Some((moduleData, r.value))
    {
      if txType == 1 || txType == 2 {
        moduleData := NoData;
        return Some(cursor + |PLACE_HOLDER|);
      } else if txType == 3 {
        r := ParseAliasData(buf, cursor);
      } else if txType == 4 {
        r := ParseRegisterAgentData(buf, cursor);
      } else if txType == 5 {
        r := ParseJoinConsensusData(buf, cursor);
      } else if txType == 6 {
        moduleData := CancelDeposit(Slice(buf, cursor, cursor + HASH_LENGTH));
        return Some(cursor + HASH_LENGTH);
      } else if txType == 7 {
        r := ParseYellowCardData(buf, cursor);
      } else if txType == 8 {
        r := ParseRedCardData(buf, cursor);
      } else if txType == 9 {
        moduleData := StopAgent(Slice(buf, cursor, cursor + HASH_LENGTH));
        return Some(cursor + HASH_LENGTH);
      } else {
        moduleData := NoData;
        return Some(cursor);
      }
    }

    /** Type 3 of _parse_data. */
    method ParseAliasData(buf: seq<byte>, cursor: nat) returns (r: Option<nat>)
      modifies this`moduleData
      ensures r.None? <==> ParseAlias(buf, cursor).None?
      ensures r.Some? ==> ParseAlias(buf, cursor) == Some((moduleData, r.value))
    {
      var address := ReadByLength(buf, cursor);
      if address.None? { return None; }
      var c := cursor + |address.value| + 1;
      var alias := ReadByLength(buf, c);
      if alias.None? { return None; }
      moduleData := Alias(address.value, alias.value);
      return Some(c + |alias.value| + 1);
    }

    /** Type 4 of _parse_data. */
    method ParseRegisterAgentData(buf: seq<byte>, cursor: nat) returns (r: Option<nat>)
      modifies this`moduleData
      ensures r.None? <==> ParseRegisterAgent(buf, cursor).None?
      ensures r.Some? ==> ParseRegisterAgent(buf, cursor) == Some((moduleData, r.value))
    {
      var deposit := ReadUint(buf, cursor, 8);
      if deposit.None? { return None; }
      var c := cursor + 8;
      var agent := Slice(buf, c, c + ADDRESS_LENGTH);
      c := c + ADDRESS_LENGTH;
      var packing := Slice(buf, c, c + ADDRESS_LENGTH);
      c := c + ADDRESS_LENGTH;
      var reward := Slice(buf, c, c + ADDRESS_LENGTH);
      c := c + ADDRESS_LENGTH;
      if c + 8 > |buf| { return None; }
      moduleData := RegisterAgent(deposit.value, agent, packing, reward, buf[c..c + 8]);
      return Some(c + 8);
    }

    /** Type 5 of _parse_data. */
    method ParseJoinConsensusData(buf: seq<byte>, cursor: nat) returns (r: Option<nat>)
      modifies this`moduleData
      ensures r.None? <==> ParseJoinConsensus(buf, cursor).None?
      ensures r.Some? ==> ParseJoinConsensus(buf, cursor) == Some((moduleData, r.value))
    {
      var deposit := ReadUint(buf, cursor, 8);
      if deposit.None? { return None; }
      var c := cursor + 8;
      var address := Slice(buf, c, c + ADDRESS_LENGTH);
      c := c + ADDRESS_LENGTH;
      moduleData := JoinConsensus(deposit.value, address, Slice(buf, c, c + HASH_LENGTH));
      return Some(c + HASH_LENGTH);
    }

    /** Type 7 of _parse_data: the count, then the loop over the addresses. */
    method ParseYellowCardData(buf: seq<byte>, cursor: nat) returns (r: Option<nat>)
      modifies this`moduleData
      ensures r.None? <==> ParseYellowCard(buf, cursor).None?
      ensures r.Some? ==> ParseYellowCard(buf, cursor) == Some((moduleData, r.value))
    {
      var count := ByteAt(buf, cursor);
      if count.None? { return None; }
      var addrs, c := ReadAddresses(buf, cursor + 1, count.value);
      moduleData := YellowCard(count.value, addrs);
      return Some(c);
    }

    /** Type 8 of _parse_data, advancing by the length of the hex renderings. */
    method ParseRedCardData(buf: seq<byte>, cursor: nat) returns (r: Option<nat>)
      modifies this`moduleData
      ensures r.None? <==> ParseRedCard(buf, cursor).None?
      ensures r.Some? ==> ParseRedCard(buf, cursor) == Some((moduleData, r.value))
    {
      var address := ReadByLength(buf, cursor);
      if address.None? { return None; }
      var c := cursor + 2 * |address.value| + 1;
      var reason := ByteAt(buf, c);
      if reason.None? { return None; }
      c := c + 1;
      var evidence := ReadByLength(buf, c);
      if evidence.None? { return None; }
      moduleData := RedCard(address.value, reason.value, evidence.value);
      return Some(c + 2 * |evidence.value| + 1);
    }

    /** parse: decodes a transaction at `cursor` into this object and returns the cursor after
        it; fails exactly when ParseTransaction does, and on success holds what it decodes. */
    method Parse(buf: seq<byte>, cursor: nat, hashTwice: seq<byte> -> seq<byte>) returns (r: Option<nat>)
      modifies this
      ensures r.None? <==> ParseTransaction(buf, cursor, hashTwice).None?
      ensures r.Some? ==> ParseTransaction(buf, cursor, hashTwice) == Some((Value(), r.value))
      ensures height == old(height)
    {
      var ty := ReadUint(buf, cursor, 2);
      if ty.None? { return None; }
      var tm := ReadUint48(buf, cursor + 2);
      if tm.None? { return None; }
      var rm := ReadByLength(buf, cursor + 8);
      if rm.None? { return None; }
      txType, time, remark := ty.value, tm.value, rm.value;
      var pr := ParseData(buf, cursor + 8 + |remark| + 1);
      if pr.None? {
        PayloadFailsWith(buf, cursor, hashTwice, ParsePayload, ParseCoinData, ty.value, tm.value, rm.value);
        return None;
      }
      PayloadThenTailWith(buf, cursor, hashTwice, ParsePayload, ParseCoinData, ty.value, tm.value, rm.value, moduleData, pr.value);
      r := ParseTail(buf, cursor, pr.value, hashTwice);
    }

    /** The rest of parse once the payload ends at `p`: a fresh CoinData parses the coin data,
        then SealParse finishes. */
    method ParseTail(buf: seq<byte>, cursor: nat, p: nat, hashTwice: seq<byte> -> seq<byte>) returns (r: Option<nat>)
      modifies this`coinData, this`hash, this`scriptSig, this`size
      ensures r.None? <==> TailWith(buf, cursor, hashTwice, ParseCoinData, txType, time, remark, moduleData, p).None?
      ensures r.Some? ==> TailWith(buf, cursor, hashTwice, ParseCoinData, txType, time, remark, moduleData, p)
                          == Some((Value(), r.value))
      ensures txType == old(txType) && time == old(time) && remark == old(remark)
      ensures moduleData == old(moduleData) && height == old(height)
    {
      var cd := new CoinData();
      var cr := cd.Parse(buf, p);
      coinData := cd;
      if cr.None? { return None; }
      r := SealParse(buf, cursor, cr.value, hashTwice);
    }

    /** The end of parse once the coin data ends at `q`: the hash, the scriptSig and the size. */
    method SealParse(buf: seq<byte>, cursor: nat, q: nat, hashTwice: seq<byte> -> seq<byte>) returns (r: Option<nat>)
      modifies this`hash, this`scriptSig, this`size
      ensures r.None? <==> Seal(buf, cursor, hashTwice, txType, time, remark, moduleData, coinData.Value(), q).None?
      ensures r.Some? ==> Seal(buf, cursor, hashTwice, txType, time, remark, moduleData, coinData.Value(), q)
                          == Some((Value(), r.value))
      ensures txType == old(txType) && time == old(time) && remark == old(remark)
      ensures moduleData == old(moduleData) && height == old(height) && coinData == old(coinData)
      ensures coinData.Value() == old(coinData.Value())
    {
      if txType >= 256 { return None; }
      var time8 := WriteUint64(time);
      if time8.None? { return None; }
      hash := hashTwice([txType as byte, 0xFF] + time8.value + Slice(buf, cursor + 8, q));
      var sig := ReadByLength(buf, q);
      if sig.None? { return None; }
      scriptSig := sig.value;
      size := q + |scriptSig| + 1 - cursor;
      return Some(q + |scriptSig| + 1);
    }
  }
}
