/** The transaction record as the explorer stores it: the dictionary `Transaction.to_dict`
    builds and the transactions collection holds. Keys that may be absent are `Option`s;
    hex and UTF-8 renderings are kept as the bytes they render. */
module TxRecords {
  import opened Wrappers
  import opened NulsData

  /** A transaction hash, the key of the collection. */
  type Hash = seq<byte>

  /** A value of the `info` dictionary. */
  datatype Field = Bytes(bytes: seq<byte>) | Num(num: int) | List(items: seq<seq<byte>>)

  /** One input or output dictionary. An output gains `status`, `toHash` and `toIndex`
      once it is classified or spent; an input gains `address` once its source is found. */
  datatype Entry = Entry(
    address: Option<seq<byte>>,
    fromHash: Option<Hash>,
    fromIndex: Option<nat>,
    value: nat,
    lockTime: Option<int>,
    status: Option<int>,
    toHash: Option<Hash>,
    toIndex: Option<nat>)

  /** One transaction dictionary. */
  datatype TxRecord = TxRecord(
    hash: Hash,
    txType: nat,
    time: int,
    blockHeight: Option<nat>,
    fee: int,
    remark: Option<seq<byte>>,
    scriptSig: Option<seq<byte>>,
    size: int,
    info: map<string, Field>,
    inputs: seq<Entry>,
    outputs: seq<Entry>)

  /** Status codes of an output. */
  const UNLOCKED: int := 0
  const LOCKED: int := 1
  const CONSENSUS_LOCKED: int := 2
  const SPENT: int := 3
}
