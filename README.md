# NULS explorer transaction core in Dafny

This project models the two parts of the NULS blockchain explorer that carry its logic.

**The binary transaction decoder** (`nulsexplorer/protocol/transaction.py`):
- `Coin.parse`, `CoinData.parse` with `get_fee` and `get_output_sum`, `Transaction._parse_data` and `Transaction.parse`, including the hash preimage and the size.
- The decoder is a cursor walking over an immutable byte buffer. Each parser is specified by a pure function over `seq<byte>` that returns `Option<(value, cursor)>`. `None` stands for the raise a short buffer causes.
- The `CoinData` and `Transaction` objects are classes. Their `Parse` methods advance the cursor step by step, fill their fields and run the coin and address loops. Each method is proved equal to its specification function.
- Those functions in turn carry the properties: the owner dispatch, the consumed lengths, coins kept in buffer order, encode/decode round trips, the payload advance for each type, the exact span the hash covers, and the size.
- `to_dict` is a projection onto a record datatype, proved invertible on the fields it carries.

**UTXO reconciliation** (`nulsexplorer/model/transactions.py`):
- `input_txdata` covers type-6 enrichment, input resolution against the batch map and the store, deferred spend updates and their bulk write, output status classification, and insert or return.
- `update_locks` is the block-height sweep.
- The transactions collection is a class holding a `map<Hash, TxRecord>`. The batch map of batch mode is a second class. `Collection.InputTxData` runs the input loop and mutates both, and it is proved equal to the pure `Reconcile`.
- Lemmas about `Reconcile` and `SweepLocks` state what the source promises: when it raises, which outputs are marked spent and by whom, which updates are deferred (and that writing them again changes nothing), which inputs gain an address, how outputs are classified, and what the sweep changes.

The module `NulsData` holds the helpers the decoder imports from `nulsexplorer/protocol/data.py`. That file is not part of this model, so the helpers are stated here with these choices:
- `read_by_length` reads a one-byte length prefix, because every caller advances by the length plus one.
- The fixed-width reads are little-endian unsigned integers.
- `readUint48` maps the all-ones pattern to -1, so that the lock time -1 tested by the reconciliation can occur.
- `writeUint64` fails on a value outside 0 .. 2^64 - 1.
- `ADDRESS_LENGTH` is 23, `HASH_LENGTH` is 34, and `PLACE_HOLDER` is four bytes.
- `hash_twice` is a function parameter about which nothing is assumed.

## Model

| member | source | states |
|---|---|---|
| CoinCodec.OwnerOfInverse | nulsexplorer/protocol/transaction.py:21-27 | the owner field is a spend reference exactly when it is longer than ADDRESS_LENGTH; then fromHash is all bytes but the last and fromIndex the last byte, otherwise it is the address; the field is recovered from the owner |
| CoinCodec.CoinAt | nulsexplorer/protocol/transaction.py:20-33 | a coin decodes exactly when the buffer holds the length byte, the owner, 8 value bytes and 6 lock-time bytes; the cursor moves forward and stays inside the buffer |
| CoinCodec.ParseCoin | nulsexplorer/protocol/transaction.py:20-33 | Coin.parse as written: read_by_length for the owner, an 8-byte value, readUint48 for the lock time; ParseCoinIsCoinAt states what it decodes |
| CoinCodec.ParseCoinIsCoinAt | nulsexplorer/protocol/transaction.py:20-33 | Coin.parse (read_by_length, 8-byte value, readUint48) decodes exactly the coin laid out at the cursor and fails exactly when the buffer ends inside it |
| CoinCodec.CoinAtSize | nulsexplorer/protocol/transaction.py:22-33 | Coin.parse returns cursor + 1 + len(owner) + 8 + 6, and the owner is the bytes after the length byte |
| CoinCodec.ParseCoinInverse | nulsexplorer/protocol/transaction.py:20-33 | a decoded coin is well formed and encodes back to exactly the bytes it was read from |
| CoinCodec.CoinRoundTrip | nulsexplorer/protocol/transaction.py:20-33 | any well-formed coin written at a cursor decodes to that coin, with the cursor after it |
| CoinCodec.ParseCoins | nulsexplorer/protocol/transaction.py:66-69 | n coins read one after the other yield exactly n coins, and the cursor stays in the buffer |
| CoinCodec.ParseCounted | nulsexplorer/protocol/transaction.py:63-69 | a count byte and that many coins; on success the cursor moves past the count byte and stays in the buffer |
| CoinCodec.ParseCoinData | nulsexplorer/protocol/transaction.py:62-79 | CoinData.parse; on success the cursor moves forward and stays in the buffer |
| CoinCodec.ParseCoinsInverse | nulsexplorer/protocol/transaction.py:66-77 | decoded coins stand in buffer order: their encodings concatenated are exactly the bytes consumed |
| CoinCodec.ParseCoinsLocal | nulsexplorer/protocol/transaction.py:66-77 | a run of coins depends only on the bytes it spans |
| CoinCodec.ParseCoinsStaysFailed | nulsexplorer/protocol/transaction.py:66-69 | once a Coin.parse in the loop raises, the whole loop raises |
| CoinCodec.ParseCountedInverse | nulsexplorer/protocol/transaction.py:63-69 | a counted list has as many coins as its count byte says and encodes back to exactly the count byte and the coins |
| CoinCodec.ParseCountedCount | nulsexplorer/protocol/transaction.py:63-69 | a counted list has buffer[c] coins and ends one byte plus the coins' sizes after c |
| CoinCodec.ParseCoinDataParts | nulsexplorer/protocol/transaction.py:62-79 | coin data is a counted input list followed directly by a counted output list |
| CoinCodec.ParseCoinDataCounts | nulsexplorer/protocol/transaction.py:62-79 | the input count is the first byte; the output count is the byte right after the inputs |
| CoinCodec.ParseCoinDataInverse | nulsexplorer/protocol/transaction.py:62-79 | decoded coin data is well formed, occupies exactly its size, and encodes back to exactly the bytes consumed |
| CoinCodec.ParseCoinDataLocal | nulsexplorer/protocol/transaction.py:62-79 | coin data depends only on the bytes it spans |
| CoinCodec.ParseCoinList | nulsexplorer/protocol/transaction.py:63-77 | the count-then-loop of CoinData.parse fails exactly when the counted-list function does, and otherwise returns its coins, its cursor and the count equal to the number of coins |
| CoinCodec.CoinData.Parse | nulsexplorer/protocol/transaction.py:62-79 | the object parse fails exactly when ParseCoinData does; on success the object holds the decoded inputs and outputs, from_count and to_count equal their lengths, and the cursor is the decoder's |
| CoinCodec.CoinData.constructor | nulsexplorer/protocol/transaction.py:53-57 | a new CoinData has empty input and output lists |
| CoinCodec.CoinData.GetOutputSum | nulsexplorer/protocol/transaction.py:84-85 | get_output_sum is at least the value of every output |
| CoinCodec.CoinData.GetFee | nulsexplorer/protocol/transaction.py:81-82 | get_fee plus get_output_sum is the sum of the input values |
| CoinCodec.SumNaBound | nulsexplorer/protocol/transaction.py:84-85 | no coin carries more than the sum of its list |
| NulsData.ReadByLength | nulsexplorer/protocol/transaction.py:21-22 | a length-prefixed read succeeds exactly when the prefix and that many bytes are in the buffer, and returns those bytes |
| NulsData.ReadUint | nulsexplorer/protocol/transaction.py:29 | struct.unpack of n bytes succeeds exactly when n bytes remain, and yields an unsigned value below 256^n |
| NulsData.Slice | nulsexplorer/protocol/transaction.py:117-122 | a Python slice: the bytes between the bounds when they lie in the buffer, the rest of the buffer when only the end bound lies past it, empty when both do or the bounds are reversed |
| NulsData.ByteAt | nulsexplorer/protocol/transaction.py:63 | buffer[cursor] succeeds exactly inside the buffer and yields that byte |
| NulsData.ReadUint48 | nulsexplorer/protocol/transaction.py:31-32 | a 6-byte read succeeds exactly when 6 bytes remain, and yields a lock time (a 48-bit value or -1) |
| NulsData.Uint48OfInverse | nulsexplorer/protocol/transaction.py:31 | writing back a read 6-byte lock time gives the same 6 bytes |
| NulsData.Uint48OfWrite | nulsexplorer/protocol/transaction.py:31 | reading back a written lock time gives the same lock time |
| NulsData.WriteUint64 | nulsexplorer/protocol/transaction.py:181-182 | writeUint64 succeeds exactly for 0 <= time < 2^64 and gives 8 bytes that decode to the time |
| NulsData.DecodeEncodeLE | nulsexplorer/protocol/transaction.py:29 | a fixed-width little-endian integer decodes back to the value written |
| NulsData.EncodeDecodeLE | nulsexplorer/protocol/transaction.py:29 | the bytes of a fixed-width little-endian read encode back to the same bytes |
| TxDecoder.ParsePayload | nulsexplorer/protocol/transaction.py:98-160 | _parse_data never moves the cursor backwards |
| TxDecoder.ParseAlias | nulsexplorer/protocol/transaction.py:106-112 | type 3 never moves the cursor backwards |
| TxDecoder.ParseRegisterAgent | nulsexplorer/protocol/transaction.py:114-125 | type 4 never moves the cursor backwards |
| TxDecoder.ParseJoinConsensus | nulsexplorer/protocol/transaction.py:127-133 | type 5 never moves the cursor backwards |
| TxDecoder.ParseYellowCard | nulsexplorer/protocol/transaction.py:139-146 | type 7 never moves the cursor backwards |
| TxDecoder.ParseRedCard | nulsexplorer/protocol/transaction.py:148-154 | type 8 never moves the cursor backwards |
| TxDecoder.Addresses | nulsexplorer/protocol/transaction.py:142-146 | the yellow-card addresses number exactly count |
| TxDecoder.PayloadAdvance | nulsexplorer/protocol/transaction.py:98-160 | a decoded payload has the shape of its type, and the cursor moves by exactly the payload's size |
| TxDecoder.PayloadFixed | nulsexplorer/protocol/transaction.py:100-137 | types 1/2 advance len(PLACE_HOLDER), type 4 advances 8+3·ADDRESS_LENGTH+8 and fails only when those bytes are short, type 5 advances 8+ADDRESS_LENGTH+HASH_LENGTH and fails only without the deposit, types 6 and 9 advance HASH_LENGTH, and any type outside 1..9 advances 0 with an empty payload |
| TxDecoder.YellowCardLayout | nulsexplorer/protocol/transaction.py:139-146 | a yellow card holds exactly count addresses, the k-th being the k-th consecutive ADDRESS_LENGTH slice, and advances by 1 + count·ADDRESS_LENGTH |
| TxDecoder.AddressesAt | nulsexplorer/protocol/transaction.py:143-145 | the k-th yellow-card address is the k-th consecutive ADDRESS_LENGTH slice |
| TxDecoder.ReadAddresses | nulsexplorer/protocol/transaction.py:142-146 | the yellow-card loop returns exactly the count consecutive address slices and the cursor after them |
| TxDecoder.RedCardLayout | nulsexplorer/protocol/transaction.py:148-154 | as written, a red card reads its reason byte 2·len(address)+1 bytes after the start (the hex length), which lies past the address field whenever the address is non-empty |
| TxDecoder.PayloadLocal | nulsexplorer/protocol/transaction.py:98-160 | a payload depends only on the bytes it spans |
| TxDecoder.Transaction.ParseData | nulsexplorer/protocol/transaction.py:98-160 | the object's _parse_data fails exactly when ParsePayload does, and otherwise holds the decoded payload with the same cursor |
| TxDecoder.Transaction.constructor | nulsexplorer/protocol/transaction.py:88-94 | a new transaction has the given block height and an empty module_data |
| TxDecoder.Transaction.ParseAliasData | nulsexplorer/protocol/transaction.py:106-112 | type 3 reads the address and the alias, each length-prefixed, exactly as ParseAlias |
| TxDecoder.Transaction.ParseRegisterAgentData | nulsexplorer/protocol/transaction.py:114-125 | type 4 reads the deposit, three addresses and the 8-byte commission rate, exactly as ParseRegisterAgent |
| TxDecoder.Transaction.ParseJoinConsensusData | nulsexplorer/protocol/transaction.py:127-133 | type 5 reads the deposit, the address and the agent hash, exactly as ParseJoinConsensus |
| TxDecoder.Transaction.ParseYellowCardData | nulsexplorer/protocol/transaction.py:139-146 | type 7 reads the count and that many addresses, exactly as ParseYellowCard |
| TxDecoder.Transaction.ParseRedCardData | nulsexplorer/protocol/transaction.py:148-154 | type 8 reads address, reason and evidence with the hex-length advances, exactly as ParseRedCard |
| TxDecoder.Transaction.Parse | nulsexplorer/protocol/transaction.py:162-193 | the object parse fails exactly when ParseTransaction does; on success the object holds the decoded transaction and returns the end cursor; the block height is kept |
| TxDecoder.Transaction.ParseTail | nulsexplorer/protocol/transaction.py:177-193 | a fresh CoinData parses the coin data, then hash, scriptSig and size follow, as the tail of ParseTransaction; the fields read before are kept |
| TxDecoder.Transaction.SealParse | nulsexplorer/protocol/transaction.py:181-193 | the hash, scriptSig and size are set as Seal computes them; nothing else changes |
| TxDecoder.ParseTransactionWith | nulsexplorer/protocol/transaction.py:162-175 | Transaction.parse over given payload and coin-data decoders: type, time, remark, payload, then the tail; StagesWith states what it decodes |
| TxDecoder.TailWith | nulsexplorer/protocol/transaction.py:177-179 | the coin data at the payload's end, then the seal; PayloadThenTailWith states its place in the parse |
| TxDecoder.Seal | nulsexplorer/protocol/transaction.py:181-193 | the hash of the preimage (failing for a type of 256 or more or a time outside writeUint64's range), then the scriptSig and the size; StagesWith states what it yields |
| TxDecoder.ParseTransaction | nulsexplorer/protocol/transaction.py:162-193 | Transaction.parse with the decoder's own payload and coin-data parsers; TxParts, TxSize and TxHashPreimage state what it decodes |
| TxDecoder.StagesWith | nulsexplorer/protocol/transaction.py:162-193 | a decoded transaction is type, time, remark, payload, coin data and scriptSig read in this order; the hash is hash_twice of [type, 0xFF] ++ writeUint64(time) ++ the bytes from the remark to the end of the coin data; size is the end cursor minus the start |
| TxDecoder.TxParts | nulsexplorer/protocol/transaction.py:162-193 | the same stages for the decoder's own payload and coin-data parsers, with the cursors between them and type < 256, 0 <= time < 2^64 |
| TxDecoder.PayloadFailsWith | nulsexplorer/protocol/transaction.py:175 | when _parse_data raises, parse raises |
| TxDecoder.PayloadThenTailWith | nulsexplorer/protocol/transaction.py:175-193 | after the header and the payload, parse is the coin data followed by the seal |
| TxDecoder.TxSize | nulsexplorer/protocol/transaction.py:188-191 | size equals the returned cursor minus the start, and equals 2 + 6 + (1+len(remark)) + payload + coin data + (1+len(scriptSig)) |
| TxDecoder.TxHashPreimage | nulsexplorer/protocol/transaction.py:170-186 | the hashed span is exactly the length-prefixed remark, the payload bytes and the encoded coin data, ending right before the scriptSig |
| TxDecoder.HashedSpan | nulsexplorer/protocol/transaction.py:170-183 | the span from the remark to the end of the coin data splits into the prefixed remark, the payload and the coin data |
| TxDecoder.HashIgnoresScriptSig | nulsexplorer/protocol/transaction.py:170-189 | two decoded transactions with the same type, time and bytes from the remark to the end of the coin data have the same hash, whatever their scriptSig |
| TxDecoder.CoinEntry | nulsexplorer/protocol/transaction.py:35-47 | Coin.to_dict holds the value and the lock time, with the address for an address owner or fromHash/fromIndex for a spend; the coin is recovered from the dictionary, and the dictionary carries no status |
| TxDecoder.CoinOfEntryInverse | nulsexplorer/protocol/transaction.py:35-47 | a dictionary that describes a coin and has no spend marks is that coin's dictionary |
| TxDecoder.CoinEntries | nulsexplorer/protocol/transaction.py:207-208 | the coin dictionaries keep the number and order of the coins, each recovering its coin |
| TxDecoder.Info | nulsexplorer/protocol/transaction.py:98-160 | the module_data dictionary holds the payload's fields under their keys, and the payload is read back from it for its type |
| TxDecoder.Transaction.ToDict | nulsexplorer/protocol/transaction.py:196-209 | to_dict copies hash, type, time, height and size; fee + output sum = input sum; an empty remark or scriptSig becomes None; info gives back the payload; inputs and outputs recover the coins in order and carry no status |
| Reconcile.Mark | nulsexplorer/model/transactions.py:94-96 | a spend sets status 3, toHash and toIndex and nothing else |
| Reconcile.MarkAt | nulsexplorer/model/transactions.py:93-96 | marking output j of a record changes that output only |
| Reconcile.ApplyUpdate | nulsexplorer/model/transactions.py:105-111 | one deferred update keeps the keys of the store |
| Reconcile.ApplyUpdates | nulsexplorer/model/transactions.py:121-122 | the bulk write keeps the keys of the store |
| Reconcile.ApplyUpdatesOnlyMarks | nulsexplorer/model/transactions.py:105-122 | the bulk write changes only the spend marks of outputs, and a changed output has status 3 |
| Reconcile.ApplyUpdatesSpent | nulsexplorer/model/transactions.py:105-122 | every deferred update whose record and output exist leaves that output with status 3 |
| Reconcile.ApplyUpdatesAt | nulsexplorer/model/transactions.py:105-122 | after the bulk write every stored output is as the last update naming it left it, untouched when none names it, and nothing else in any record changes |
| Reconcile.SpentByTwice | nulsexplorer/model/transactions.py:107-110 | a spend mark applied twice with the same hash and index is the mark applied once |
| Reconcile.ApplyUpdateIdempotent | nulsexplorer/model/transactions.py:105-111 | applying the same deferred update twice is applying it once |
| Reconcile.ApplyUpdatesIdempotent | nulsexplorer/model/transactions.py:121-122 | a retried bulk write of the same deferred updates leaves the store as the first write left it |
| Reconcile.Insert | nulsexplorer/model/transactions.py:137-140 | insert_one stores a record under a new hash; a duplicate hash leaves the store unchanged |
| Reconcile.Classify | nulsexplorer/model/transactions.py:128-133 | lockTime > 0 gives 1, lockTime == -1 gives 2, anything else 0, each in both directions |
| Reconcile.ClassifyOutput | nulsexplorer/model/transactions.py:125-133 | an output without status gets the status of its lock time (a missing lock time counting as 0); an output with a status is unchanged; no other field changes |
| Reconcile.ClassifyAll | nulsexplorer/model/transactions.py:125-133 | every output is classified, in place and in order |
| Reconcile.ClassifyOutputs | nulsexplorer/model/transactions.py:125-133 | the classification loop yields ClassifyAll of the outputs |
| Reconcile.CrashPersists | nulsexplorer/model/transactions.py:86-119 | once an input raises, later inputs change nothing |
| Reconcile.Annotate | nulsexplorer/model/transactions.py:113-115 | annotating an input keeps the number of inputs |
| Reconcile.ResolveOne | nulsexplorer/model/transactions.py:86-115 | one turn of the input loop keeps the number of inputs |
| Reconcile.ResolveUpTo | nulsexplorer/model/transactions.py:86-119 | the input loop keeps the number of inputs |
| Reconcile.ResolveFrame | nulsexplorer/model/transactions.py:86-119 | the input loop only sets the address of inputs it has passed and keeps the keys of the batch |
| Reconcile.ResolveMarks | nulsexplorer/model/transactions.py:90-96 | each batch output named by a batch-resolved input carries status 3, the transaction's hash and the position of the last such input; every other batch field is unchanged |
| Reconcile.ResolveDefers | nulsexplorer/model/transactions.py:98-111 | exactly one update is deferred per input not resolved in the batch, in input order, found in the snapshot or not |
| Reconcile.ResolveAnnotates | nulsexplorer/model/transactions.py:113-115 | an input whose source output is found carries that output's address; an input without a source is unchanged |
| Reconcile.Raises | nulsexplorer/model/transactions.py:86-115 | an input raises in the loop when it lacks fromHash or fromIndex, or when its source record is found but has no output fromIndex or that output has no address; a source found nowhere does not raise |
| Reconcile.OneRaises | nulsexplorer/model/transactions.py:86-115 | one turn of the input loop raises exactly when its input raises |
| Reconcile.RaisesKept | nulsexplorer/model/transactions.py:90-115 | the batch marks made by earlier inputs change no later input's reason to raise |
| Reconcile.ResolveRaises | nulsexplorer/model/transactions.py:86-119 | the input loop raises exactly when some input raises against the batch and the store as they were at the start |
| Reconcile.SourceAddressKept | nulsexplorer/model/transactions.py:90-115 | marking batch outputs never changes whether a source is found or its address |
| Reconcile.Lookup | nulsexplorer/model/transactions.py:66-69 | a record is looked up in the batch first in batch mode, then in the store |
| Reconcile.Enrich | nulsexplorer/model/transactions.py:63-71 | a transaction that is not type 6, or has no joinTxHash, passes unchanged; otherwise only info changes |
| Reconcile.EnrichJoin | nulsexplorer/model/transactions.py:63-71 | a cancel deposit takes address and agentHash from the join transaction, the batch first in batch mode, then the store; it fails exactly when that transaction or its keys are missing; the other info keys are kept |
| Reconcile.HashesListed | nulsexplorer/model/transactions.py:79 | the list of source hashes can be built only when every input has a fromHash |
| Reconcile.FromHashes | nulsexplorer/model/transactions.py:79 | the comprehension over the inputs yields their fromHash values in order, and fails exactly when some input has none |
| Reconcile.Reconcile | nulsexplorer/model/transactions.py:57-140 | input_txdata as a function of the store, the batch, the mode and the record: enrichment, the hash list, the input loop, the bulk write, classification, then return or insert |
| Reconcile.Settle | nulsexplorer/model/transactions.py:121-140 | after the input loop: a raise keeps the store; otherwise the deferred updates are written when there are any, the outputs are classified, and the record is returned or inserted |
| Reconcile.ReconcileOutcome | nulsexplorer/model/transactions.py:57-140 | batch mode returns the record and inserts nothing; otherwise the record is inserted under its hash; a raise leaves the store unchanged; the batch keeps its keys |
| Reconcile.ReconcileRecord | nulsexplorer/model/transactions.py:57-140 | the returned or stored record is the input record with its info replaced by the enriched one (for a type-6 record with a joinTxHash, the join transaction's address and agentHash, lines 63-71), its inputs annotated from their sources and every output classified |
| Reconcile.ReconcileWrites | nulsexplorer/model/transactions.py:98-122 | on existing hashes the store afterwards is the deferred updates applied in input order |
| Reconcile.ReconcileMarks | nulsexplorer/model/transactions.py:86-96 | after input_txdata each batch output carries the marks of the last batch-resolved input naming it, and nothing else in the batch changes |
| Reconcile.ReconcileCrashes | nulsexplorer/model/transactions.py:57-140 | input_txdata raises exactly when the enrichment fails, an input lacks fromHash, or some input raises in the loop; a raise before the loop leaves both the store and the batch untouched |
| Reconcile.MissingSourcesDoNotRaise | nulsexplorer/model/transactions.py:98-111 | inputs whose sources are in neither the batch nor the store do not make input_txdata raise |
| Reconcile.Batch.Mark | nulsexplorer/model/transactions.py:93-96 | marks one output of one batch record in place |
| Reconcile.Batch.constructor | nulsexplorer/model/transactions.py:57-58 | the batch object holds the given batch map |
| Reconcile.Collection.constructor | nulsexplorer/model/transactions.py:60-61 | the collection object holds the given store |
| Reconcile.Collection.BulkWrite | nulsexplorer/model/transactions.py:121-122 | the store becomes ApplyUpdates of the updates |
| Reconcile.Collection.InsertOne | nulsexplorer/model/transactions.py:137-140 | the store becomes Insert of the record |
| Reconcile.Collection.UpdateLocks | nulsexplorer/model/transactions.py:45-54 | the store becomes SweepLocks at the height |
| Reconcile.Collection.ResolveInput | nulsexplorer/model/transactions.py:86-115 | one turn of the input loop, on the batch object and local lists, is ResolveOne |
| Reconcile.Collection.ResolveInputs | nulsexplorer/model/transactions.py:86-119 | the input loop, mutating the batch, is ResolveUpTo over all inputs |
| Reconcile.Collection.InputTxData | nulsexplorer/model/transactions.py:57-140 | input_txdata (enrichment, the hash list, the input loop, the bulk write, classification, return or insert) leaves the outcome, store and batch that Reconcile gives |
| Reconcile.UnlockAll | nulsexplorer/model/transactions.py:54 | every output gets status 0 and keeps its other fields |
| Reconcile.Unlockable | nulsexplorer/model/transactions.py:50-53 | the filter of update_locks under array semantics: some output has status 1, some output has a lock time below the height, and no output has lock time -1 |
| Reconcile.SweepLocks | nulsexplorer/model/transactions.py:45-54 | update_locks keeps the keys of the store |
| Reconcile.SweepOnlyUnlocks | nulsexplorer/model/transactions.py:45-54 | update_locks changes only status fields, and only to 0 |
| Reconcile.SweepSkips | nulsexplorer/model/transactions.py:50-53 | a record with an output at lockTime -1, no status-1 output, or no lock time below the height is left unchanged |
| Reconcile.SweepUnlocksAll | nulsexplorer/model/transactions.py:49-54 | a matched record has every output set to 0 |
| Reconcile.SweepIdempotent | nulsexplorer/model/transactions.py:45-54 | update_locks at a fixed height is idempotent |
| Reconcile.SweepResetsSpent | nulsexplorer/model/transactions.py:50-54 | the filter matches whole records, so a spent output beside a status-1 output with a past lock time is reset to 0 |

## Left out

- `nulsexplorer/protocol/data.py` is not part of this model. Its helpers are stated in `NulsData`: the byte order, the one-byte length prefix of `read_by_length`, the -1 sentinel of `readUint48`, and the constant values are choices of this model.
- `hash_twice` and the NulsDigestData wrapper are not modelled. The hash is a function parameter, and `str(hash)` is kept as the raw digest.
- Hex renderings in `to_dict`, `Coin.to_dict` and `_parse_data` are kept as the bytes they render. The UTF-8 decoding of the remark and the alias is not modelled, so its failure on invalid UTF-8 is not captured.
- The commission rate of type 4 is a float64; it is kept as its 8 bytes.
- `__repr__`, logging, async scheduling, the MongoDB driver (`find`, `find_one`, `bulk_write`, `insert_one`), the `INDEXES` schema list, `nulsexplorer/modules/additional/ipfs.py` and `nulsexplorer/config.py` are not modelled; they are I/O or configuration.
- Reconcile.Reconcile: the record dictionary is mutated in place in the source. Here it is a returned value, so on a raise the partial annotation of the caller's dictionary is not visible.
- Reconcile.Reconcile: batch mode with no batch map (`batch_transactions` None) is not modelled; the batch is always a map, possibly empty.
- Reconcile.ApplyUpdates: the bulk write is unordered in the source; here the updates are applied in input order. Updates on distinct outputs commute, and two updates on one output are both status 3 but may differ in toHash/toIndex.
- Reconcile.ApplyUpdate: a record that is missing or has too few outputs is left alone; MongoDB would pad the array for an index past the end.
- The prefetched `source_txs` snapshot is a lookup in the store as it was when input_txdata started, which is the same thing because the store is not written before the bulk write.
- TxDecoder.ParseTransaction is stated through ParseTransactionWith, over its payload and coin-data decoders, to keep the proofs small; ParseTransaction passes the decoder's own parsers.
- TxDecoder.HashIgnoresScriptSig: the two-buffer agreement is stated for the hash only, not for the whole decoded transaction.
- TxDecoder.Seal: `bytes((type,))` raises for a type of 256 or more; that is modelled as a failed parse, as is a time of -1 rejected by `writeUint64`.
- Reconcile.SweepLocks: modelled as written, with MongoDB array semantics in the filter, so a spent output in a matched record is reset to 0; SweepResetsSpent exhibits it.
- TxDecoder.ParseRedCard: modelled as written, advancing by the hex length (2·len + 1) rather than the raw length.
