/** UTXO reconciliation of `nulsexplorer/model/transactions.py`: `input_txdata` (type-6
    enrichment, input resolution against the batch and the store, deferred spend updates,
    output status classification, insert or return) and `update_locks` (the height sweep).
    The transactions collection is a class holding a map from hash to record; the batch map of
    batch mode is a second class. */
module Reconcile {
  import opened Wrappers
  import opened TxRecords

  /* ---------- Spend marks ---------- */

  /** The marks a spend leaves on an output: status SPENT, the spending hash and input index. */
  function Mark(o: Entry, txHash: Hash, i: nat): (r: Entry)
    ensures r.status == Some(SPENT) && r.toHash == Some(txHash) && r.toIndex == Some(i)
    ensures r.(status := o.status, toHash := o.toHash, toIndex := o.toIndex) == o
  {
    o.(status := Some(SPENT), toHash := Some(txHash), toIndex := Some(i))
  }

  /** Record `r` with its output `j` marked as spent. */
  function MarkAt(r: TxRecord, j: nat, txHash: Hash, i: nat): (m: TxRecord)
    requires j < |r.outputs|
    ensures |m.outputs| == |r.outputs| && m.(outputs := r.outputs) == r
    ensures m.outputs[j] == Mark(r.outputs[j], txHash, i)
    ensures forall k :: 0 <= k < |r.outputs| && k != j ==> m.outputs[k] == r.outputs[k]
  {
    r.(outputs := r.outputs[j := Mark(r.outputs[j], txHash, i)])
  }

  /** A deferred update: set output `index` of the record `hash` to spent by `toHash`, input
      `toIndex`. */
  datatype Update = Update(hash: Hash, index: nat, toHash: Hash, toIndex: nat)

  /** One update as the store applies it: a missing record or output is left alone. */
  function ApplyUpdate(records: map<Hash, TxRecord>, u: Update): (r: map<Hash, TxRecord>)
    ensures r.Keys == records.Keys
  {
    if u.hash in records && u.index < |records[u.hash].outputs|
    then records[u.hash := MarkAt(records[u.hash], u.index, u.toHash, u.toIndex)]
    else records
  }

  /** The bulk write: the updates applied one after the other. */
  function ApplyUpdates(records: map<Hash, TxRecord>, us: seq<Update>): (r: map<Hash, TxRecord>)
    ensures r.Keys == records.Keys
  {
    if us == [] then records else ApplyUpdate(ApplyUpdates(records, us[..|us| - 1]), us[|us| - 1])
  }

  /** `insert_one` under a unique hash index: a record whose hash is already stored is dropped. */
  function Insert(records: map<Hash, TxRecord>, rec: TxRecord): (r: map<Hash, TxRecord>)
    ensures rec.hash in records ==> r == records
    ensures rec.hash !in records ==> r.Keys == records.Keys + {rec.hash} && r[rec.hash] == rec
    ensures forall h :: h in records ==> h in r && r[h] == records[h]
  {
    if rec.hash in records then records else records[rec.hash := rec]
  }

  /* ---------- Output classification ---------- */

  /** The status of a new output from its lock time: LOCKED for a time in the future,
      CONSENSUS_LOCKED for -1, UNLOCKED otherwise. */
  function Classify(lockTime: int): (s: int)
    ensures s == LOCKED <==> lockTime > 0
    ensures s == CONSENSUS_LOCKED <==> lockTime == -1
    ensures s == UNLOCKED <==> lockTime <= 0 && lockTime != -1
  {
    if lockTime > 0 then LOCKED else if lockTime == -1 then CONSENSUS_LOCKED else UNLOCKED
  }

  /** The lock time of an output, 0 when it has none. */
  function LockTimeOrZero(o: Entry): int
  {
    if o.lockTime.Some? then o.lockTime.value else 0
  }

  /** An output after classification: one without a status gets the status of its lock
      time; one with a status, and every other field, stays as it is. */
  function ClassifyOutput(o: Entry): (r: Entry)
    ensures r.status.Some?
    ensures o.status.Some? ==> r == o
    ensures o.status.None? ==> r.status == Some(Classify(LockTimeOrZero(o)))
    ensures r.(status := o.status) == o
  {
    if o.status.Some? then o else o.(status := Some(Classify(LockTimeOrZero(o))))
  }

  /** Every output classified, in order. */
  function ClassifyAll(os: seq<Entry>): (r: seq<Entry>)
    ensures |r| == |os|
    ensures forall k :: 0 <= k < |os| ==> r[k] == ClassifyOutput(os[k])
  {
    if os == [] then [] else ClassifyAll(os[..|os| - 1]) + [ClassifyOutput(os[|os| - 1])]
  }

  /** The classification loop over the outputs of a new transaction. */
  method ClassifyOutputs(os: seq<Entry>) returns (outs: seq<Entry>)
    ensures outs == ClassifyAll(os)
  {
    outs := os;
    var j := 0;
    while j < |outs|
      invariant 0 <= j <= |outs| == |os|
      invariant forall k :: 0 <= k < j ==> outs[k] == ClassifyOutput(os[k])
      invariant forall k :: j <= k < |os| ==> outs[k] == os[k]
    {
      if outs[j].status.None? {
        outs := outs[j := outs[j].(status := Some(Classify(LockTimeOrZero(outs[j]))))];
      }
      j := j + 1;
    }
  }

  /* ---------- Input resolution ---------- */

  /** What the input loop has built so far: the batch map, the inputs (annotated with the
      addresses found) and the deferred updates. */
  datatype Resolution = Resolution(batch: map<Hash, TxRecord>, inputs: seq<Entry>, updates: seq<Update>)

  /** The state after some inputs; `ok` is false once a lookup has raised. */
  datatype Step = Step(res: Resolution, ok: bool)

  /** Copies the address of the source output onto input `i`; raises when the source output
      has no address. */
  function Annotate(res: Resolution, i: nat, source: Entry): (s: Step)
    requires i < |res.inputs|
    ensures |s.res.inputs| == |res.inputs|
  {
    if source.address.None? then Step(res, false)
    else Step(res.(inputs := res.inputs[i := res.inputs[i].(address := source.address)]), true)
  }

  /** Input `i`: on a batch hit the batch output is marked in place; otherwise an update is
      deferred and the source is looked up in the store snapshot. A found source gives the
      input its address. A missing `fromHash`/`fromIndex`, an index past the source's outputs
      or a source output without an address raises. */
  function ResolveOne(records: map<Hash, TxRecord>, batchMode: bool, txHash: Hash, res: Resolution, i: nat): (s: Step)
    requires i < |res.inputs|
    ensures |s.res.inputs| == |res.inputs|
  {
    var e := res.inputs[i];
    if e.fromHash.None? || e.fromIndex.None? then Step(res, false)
    else
      var h := e.fromHash.value;
      var j := e.fromIndex.value;
      if batchMode && h in res.batch then
        if j >= |res.batch[h].outputs| then Step(res, false)
        else
          var src := MarkAt(res.batch[h], j, txHash, i);
          Annotate(res.(batch := res.batch[h := src]), i, src.outputs[j])
      else
        var res1 := res.(updates := res.updates + [Update(h, j, txHash, i)]);
        if h !in records then Step(res1, true)
        else if j >= |records[h].outputs| then Step(res1, false)
        else Annotate(res1, i, records[h].outputs[j])
  }

  /** The input loop after its first `k` inputs; it stops at the first input that raises. */
  function ResolveUpTo(records: map<Hash, TxRecord>, batchMode: bool, txHash: Hash, start: Resolution, k: nat): (s: Step)
    requires k <= |start.inputs|
    ensures |s.res.inputs| == |start.inputs|
  {
    if k == 0 then Step(start, true)
    else
      var prev := ResolveUpTo(records, batchMode, txHash, start, k - 1);
      if prev.ok then ResolveOne(records, batchMode, txHash, prev.res, k - 1) else prev
  }

  /** Once an input has raised, the later inputs change nothing. */
  lemma {:induction false} CrashPersists(records: map<Hash, TxRecord>, batchMode: bool, txHash: Hash,
                                         start: Resolution, k: nat, n: nat)
    requires k <= n <= |start.inputs|
    requires !ResolveUpTo(records, batchMode, txHash, start, k).ok
    ensures ResolveUpTo(records, batchMode, txHash, start, n) == ResolveUpTo(records, batchMode, txHash, start, k)
    decreases n - k
  {
    if k < n {
      CrashPersists(records, batchMode, txHash, start, k, n - 1);
    }
  }

  /** Whether input `e` is resolved from the batch and names output `j` of batch record `h`. */
  predicate Hits(batchMode: bool, keys: set<Hash>, e: Entry, h: Hash, j: nat)
  {
    batchMode && e.fromHash == Some(h) && e.fromIndex == Some(j) && h in keys
  }

  /** The last of the first `k` inputs that is resolved from the batch at output `j` of `h`. */
  function LastHit(batchMode: bool, keys: set<Hash>, inputs: seq<Entry>, h: Hash, j: nat, k: nat): Option<nat>
    requires k <= |inputs|
  {
    if k == 0 then None
    else if Hits(batchMode, keys, inputs[k - 1], h, j) then Some(k - 1)
    else LastHit(batchMode, keys, inputs, h, j, k - 1)
  }

  /** An output as the last spend of it leaves it. */
  function Marked(o: Entry, last: Option<nat>, txHash: Hash): Entry
  {
    match last
    case None => o
    case Some(i) => Mark(o, txHash, i)
  }

  /** The updates deferred by the first `k` inputs: one per input not resolved from the batch,
      in input order, each naming the input's source output and its own position. */
  function Deferred(batchMode: bool, keys: set<Hash>, txHash: Hash, inputs: seq<Entry>, k: nat): seq<Update>
    requires k <= |inputs|
  {
    if k == 0 then []
    else
      var e := inputs[k - 1];
      Deferred(batchMode, keys, txHash, inputs, k - 1)
      + (if e.fromHash.Some? && e.fromIndex.Some? && !(batchMode && e.fromHash.value in keys)
         then [Update(e.fromHash.value, e.fromIndex.value, txHash, k - 1)] else [])
  }

  /** The source output of input `e`, if the batch or the store holds it. */
  function SourceOf(records: map<Hash, TxRecord>, batchMode: bool, batch: map<Hash, TxRecord>, e: Entry): Option<Entry>
  {
    if e.fromHash.None? || e.fromIndex.None? then None
    else
      var h := e.fromHash.value;
      var j := e.fromIndex.value;
      if batchMode && h in batch then
        if j < |batch[h].outputs| then Some(batch[h].outputs[j]) else None
      else if h in records && j < |records[h].outputs| then Some(records[h].outputs[j])
      else None
  }

  /** One turn of the input loop sets at most the address of its own input and keeps the
      keys of the batch. */
  lemma OneFrame(records: map<Hash, TxRecord>, batchMode: bool, txHash: Hash, res: Resolution, i: nat)
    requires i < |res.inputs|
    ensures var s := ResolveOne(records, batchMode, txHash, res, i);
      && s.res.batch.Keys == res.batch.Keys
      && s.res.inputs[i].(address := res.inputs[i].address) == res.inputs[i]
      && (forall m :: 0 <= m < |res.inputs| && m != i ==> s.res.inputs[m] == res.inputs[m])
  {
  }

  /** One turn of the input loop that does not raise marks the batch output its input names
      when that input is resolved from the batch, and changes nothing else in the batch. */
  lemma OneMarks(records: map<Hash, TxRecord>, batchMode: bool, txHash: Hash, res: Resolution, i: nat)
    requires i < |res.inputs|
    requires ResolveOne(records, batchMode, txHash, res, i).ok
    ensures var b := ResolveOne(records, batchMode, txHash, res, i).res.batch;
      forall h :: h in res.batch ==>
        && h in b && |b[h].outputs| == |res.batch[h].outputs| && b[h].(outputs := res.batch[h].outputs) == res.batch[h]
        && forall j :: 0 <= j < |res.batch[h].outputs| ==>
             b[h].outputs[j] == if Hits(batchMode, res.batch.Keys, res.inputs[i], h, j)
                                then Mark(res.batch[h].outputs[j], txHash, i) else res.batch[h].outputs[j]
  {
  }

  /** One turn of the input loop that does not raise defers an update exactly when its input
      is not resolved from the batch. */
  lemma OneDefers(records: map<Hash, TxRecord>, batchMode: bool, txHash: Hash, res: Resolution, i: nat)
    requires i < |res.inputs|
    requires ResolveOne(records, batchMode, txHash, res, i).ok
    ensures var e := res.inputs[i];
      && e.fromHash.Some? && e.fromIndex.Some?
      && ResolveOne(records, batchMode, txHash, res, i).res.updates
         == res.updates + (if !(batchMode && e.fromHash.value in res.batch.Keys)
                           then [Update(e.fromHash.value, e.fromIndex.value, txHash, i)] else [])
  {
  }

  /** One turn of the input loop that does not raise gives its input the address of the
      source output when there is one, and leaves it alone otherwise. */
  lemma OneAnnotates(records: map<Hash, TxRecord>, batchMode: bool, txHash: Hash, res: Resolution, i: nat)
    requires i < |res.inputs|
    requires ResolveOne(records, batchMode, txHash, res, i).ok
    ensures var s := ResolveOne(records, batchMode, txHash, res, i);
      var src := SourceOf(records, batchMode, res.batch, res.inputs[i]);
      && (src.Some? ==> src.value.address.Some? && s.res.inputs[i].address == src.value.address)
      && (src.None? ==> s.res.inputs[i] == res.inputs[i])
  {
  }

  /** The input loop keeps the keys of the batch. */
  lemma {:induction false} ResolveKeys(records: map<Hash, TxRecord>, batchMode: bool, txHash: Hash, start: Resolution, k: nat)
    requires k <= |start.inputs|
    ensures ResolveUpTo(records, batchMode, txHash, start, k).res.batch.Keys == start.batch.Keys
  {
    if k > 0 {
      ResolveKeys(records, batchMode, txHash, start, k - 1);
      var prev := ResolveUpTo(records, batchMode, txHash, start, k - 1);
      if prev.ok {
        OneFrame(records, batchMode, txHash, prev.res, k - 1);
      }
    }
  }

  /** The input loop only ever sets the address of the inputs it has passed. */
  lemma {:induction false} ResolveInputsKept(records: map<Hash, TxRecord>, batchMode: bool, txHash: Hash, start: Resolution, k: nat)
    requires k <= |start.inputs|
    ensures var s := ResolveUpTo(records, batchMode, txHash, start, k);
      && (forall m :: 0 <= m < |start.inputs| ==> s.res.inputs[m].(address := start.inputs[m].address) == start.inputs[m])
      && (forall m :: k <= m < |start.inputs| ==> s.res.inputs[m] == start.inputs[m])
  {
    if k > 0 {
      ResolveInputsKept(records, batchMode, txHash, start, k - 1);
      var prev := ResolveUpTo(records, batchMode, txHash, start, k - 1);
      if prev.ok {
        OneFrame(records, batchMode, txHash, prev.res, k - 1);
      }
    }
  }

  /** The input loop only ever sets the address of the inputs it has passed, and keeps the
      keys of the batch. */
  lemma ResolveFrame(records: map<Hash, TxRecord>, batchMode: bool, txHash: Hash, start: Resolution, k: nat)
    requires k <= |start.inputs|
    ensures var s := ResolveUpTo(records, batchMode, txHash, start, k);
      && s.res.batch.Keys == start.batch.Keys
      && (forall m :: 0 <= m < |start.inputs| ==> s.res.inputs[m].(address := start.inputs[m].address) == start.inputs[m])
      && (forall m :: k <= m < |start.inputs| ==> s.res.inputs[m] == start.inputs[m])
  {
    ResolveKeys(records, batchMode, txHash, start, k);
    ResolveInputsKept(records, batchMode, txHash, start, k);
  }

  /** A completed input loop has run every earlier turn without raising. */
  lemma ResolveOkBefore(records: map<Hash, TxRecord>, batchMode: bool, txHash: Hash, start: Resolution, k: nat)
    requires 0 < k <= |start.inputs|
    requires ResolveUpTo(records, batchMode, txHash, start, k).ok
    ensures ResolveUpTo(records, batchMode, txHash, start, k - 1).ok
  {
  }

  /** Batch marking: after the first `k` inputs ran without raising, every batch output is as
      the last batch-resolved input that names it left it (status SPENT, this transaction's
      hash, that input's position), and untouched when no input names it. The rest of every
      batch record stays as it was. */
  lemma {:induction false} ResolveMarks(records: map<Hash, TxRecord>, batchMode: bool, txHash: Hash, start: Resolution, k: nat)
    requires k <= |start.inputs|
    requires ResolveUpTo(records, batchMode, txHash, start, k).ok
    ensures var b := ResolveUpTo(records, batchMode, txHash, start, k).res.batch;
      forall h :: h in start.batch ==>
        && h in b && |b[h].outputs| == |start.batch[h].outputs| && b[h].(outputs := start.batch[h].outputs) == start.batch[h]
        && forall j :: 0 <= j < |start.batch[h].outputs| ==>
             b[h].outputs[j] == Marked(start.batch[h].outputs[j], LastHit(batchMode, start.batch.Keys, start.inputs, h, j, k), txHash)
  {
    if k > 0 {
      ResolveOkBefore(records, batchMode, txHash, start, k);
      ResolveMarks(records, batchMode, txHash, start, k - 1);
      ResolveFrame(records, batchMode, txHash, start, k - 1);
      var prev := ResolveUpTo(records, batchMode, txHash, start, k - 1);
      OneMarks(records, batchMode, txHash, prev.res, k - 1);
    }
  }

  /** Deferred updates: after the first `k` inputs ran without raising, exactly one update was
      deferred per input not resolved from the batch, in input order. */
  lemma {:induction false} ResolveDefers(records: map<Hash, TxRecord>, batchMode: bool, txHash: Hash, start: Resolution, k: nat)
    requires k <= |start.inputs|
    requires ResolveUpTo(records, batchMode, txHash, start, k).ok
    ensures ResolveUpTo(records, batchMode, txHash, start, k).res.updates
            == start.updates + Deferred(batchMode, start.batch.Keys, txHash, start.inputs, k)
  {
    if k > 0 {
      ResolveOkBefore(records, batchMode, txHash, start, k);
      ResolveDefers(records, batchMode, txHash, start, k - 1);
      ResolveFrame(records, batchMode, txHash, start, k - 1);
      var prev := ResolveUpTo(records, batchMode, txHash, start, k - 1);
      OneDefers(records, batchMode, txHash, prev.res, k - 1);
    }
  }

  /** Address annotation: after the first `k` inputs ran without raising, each of them whose
      source output was found carries that output's address, and the others are unchanged. */
  lemma {:induction false} ResolveAnnotates(records: map<Hash, TxRecord>, batchMode: bool, txHash: Hash, start: Resolution, k: nat)
    requires k <= |start.inputs|
    requires ResolveUpTo(records, batchMode, txHash, start, k).ok
    ensures var s := ResolveUpTo(records, batchMode, txHash, start, k);
      forall m :: 0 <= m < k ==>
        var src := SourceOf(records, batchMode, start.batch, start.inputs[m]);
        && (src.Some? ==> src.value.address.Some? && s.res.inputs[m].address == src.value.address)
        && (src.None? ==> s.res.inputs[m] == start.inputs[m])
  {
    if k > 0 {
      ResolveOkBefore(records, batchMode, txHash, start, k);
      ResolveAnnotates(records, batchMode, txHash, start, k - 1);
      ResolveMarks(records, batchMode, txHash, start, k - 1);
      ResolveFrame(records, batchMode, txHash, start, k - 1);
      var prev := ResolveUpTo(records, batchMode, txHash, start, k - 1);
      OneAnnotates(records, batchMode, txHash, prev.res, k - 1);
      OneFrame(records, batchMode, txHash, prev.res, k - 1);
      SourceAddressKept(records, batchMode, txHash, start, k - 1, start.inputs[k - 1]);
    }
  }

  /** The batch marks leave addresses alone, so a source found in the batch midway through the
      loop has the address it had at the start. */
  lemma SourceAddressKept(records: map<Hash, TxRecord>, batchMode: bool, txHash: Hash, start: Resolution, k: nat, e: Entry)
    requires k <= |start.inputs|
    requires ResolveUpTo(records, batchMode, txHash, start, k).ok
    ensures var b := ResolveUpTo(records, batchMode, txHash, start, k).res.batch;
      var now := SourceOf(records, batchMode, b, e);
      var before := SourceOf(records, batchMode, start.batch, e);
      now.Some? == before.Some? && (now.Some? ==> now.value.address == before.value.address)
  {
    ResolveMarks(records, batchMode, txHash, start, k);
    ResolveFrame(records, batchMode, txHash, start, k);
  }

  /** Whether input `e` raises when the loop reaches it: a missing `fromHash` or `fromIndex`,
      or a source record that is found but has no output `fromIndex` or whose output has no
      address. A source found nowhere does not raise. */
  predicate Raises(records: map<Hash, TxRecord>, batchMode: bool, batch: map<Hash, TxRecord>, e: Entry)
  {
    || e.fromHash.None? || e.fromIndex.None?
    || (Lookup(records, batch, batchMode, e.fromHash.value).Some?
        && (SourceOf(records, batchMode, batch, e).None? || SourceOf(records, batchMode, batch, e).value.address.None?))
  }

  /** One turn of the input loop raises exactly when its input raises. */
  lemma OneRaises(records: map<Hash, TxRecord>, batchMode: bool, txHash: Hash, res: Resolution, i: nat)
    requires i < |res.inputs|
    ensures !ResolveOne(records, batchMode, txHash, res, i).ok <==> Raises(records, batchMode, res.batch, res.inputs[i])
  {
  }

  /** The batch marks change no input's reason to raise. */
  lemma RaisesKept(records: map<Hash, TxRecord>, batchMode: bool, txHash: Hash, start: Resolution, k: nat, e: Entry)
    requires k <= |start.inputs|
    requires ResolveUpTo(records, batchMode, txHash, start, k).ok
    ensures Raises(records, batchMode, ResolveUpTo(records, batchMode, txHash, start, k).res.batch, e)
            == Raises(records, batchMode, start.batch, e)
  {
    ResolveFrame(records, batchMode, txHash, start, k);
    SourceAddressKept(records, batchMode, txHash, start, k, e);
  }

  /** The first `k` turns of the input loop raise exactly when one of the first `k` inputs
      raises against the batch and the store as they were at the start. */
  lemma {:induction false} ResolveRaises(records: map<Hash, TxRecord>, batchMode: bool, txHash: Hash, start: Resolution, k: nat)
    requires k <= |start.inputs|
    ensures !ResolveUpTo(records, batchMode, txHash, start, k).ok
            <==> exists m :: 0 <= m < k && Raises(records, batchMode, start.batch, start.inputs[m])
  {
    if k > 0 {
      ResolveRaises(records, batchMode, txHash, start, k - 1);
      var prev := ResolveUpTo(records, batchMode, txHash, start, k - 1);
      if prev.ok {
        ResolveFrame(records, batchMode, txHash, start, k - 1);
        RaisesKept(records, batchMode, txHash, start, k - 1, start.inputs[k - 1]);
        OneRaises(records, batchMode, txHash, prev.res, k - 1);
      }
    }
  }

  /* ---------- Type-6 enrichment ---------- */

  /** Record `h` as input_txdata finds it: from the batch in batch mode when the batch holds
      it, otherwise from the store. */
  function Lookup(records: map<Hash, TxRecord>, batch: map<Hash, TxRecord>, batchMode: bool, h: Hash): Option<TxRecord>
  {
    if batchMode && h in batch then Some(batch[h]) else if h in records then Some(records[h]) else None
  }

  /** A cancel-deposit transaction takes `address` and `agentHash` from the join transaction
      named by its `joinTxHash`. A join hash that is not a hash, a join transaction that cannot
      be found or one without those keys raises. Other transactions pass unchanged. */
  function Enrich(records: map<Hash, TxRecord>, batch: map<Hash, TxRecord>, batchMode: bool, rec: TxRecord): (r: Option<TxRecord>)
    ensures rec.txType != 6 || "joinTxHash" !in rec.info ==> r == Some(rec)
    ensures r.Some? ==> r.value.(info := rec.info) == rec
  {
    if rec.txType != 6 || "joinTxHash" !in rec.info then Some(rec)
    else
      var joinHash := rec.info["joinTxHash"];
      if !joinHash.Bytes? then None
      else
        var joinTx := Lookup(records, batch, batchMode, joinHash.bytes);
        if joinTx.None? || "address" !in joinTx.value.info || "agentHash" !in joinTx.value.info then None
        else Some(rec.(info := rec.info["address" := joinTx.value.info["address"]]
                                       ["agentHash" := joinTx.value.info["agentHash"]]))
  }

  /** Type-6 enrichment: with a `joinTxHash` the enrichment succeeds exactly when the join
      transaction is found (the batch first in batch mode, then the store) and has both keys;
      the record then carries the join transaction's `address` and `agentHash` and keeps every
      other key of its `info`. */
  lemma EnrichJoin(records: map<Hash, TxRecord>, batch: map<Hash, TxRecord>, batchMode: bool, rec: TxRecord, h: Hash)
    requires rec.txType == 6 && "joinTxHash" in rec.info && rec.info["joinTxHash"] == Bytes(h)
    ensures var r := Enrich(records, batch, batchMode, rec);
      var j := if batchMode && h in batch then batch[h] else if h in records then records[h] else rec;
      && (r.Some? <==> ((batchMode && h in batch) || h in records) && "address" in j.info && "agentHash" in j.info)
      && (r.Some? ==>
            && r.value.info.Keys == rec.info.Keys + {"address", "agentHash"}
            && r.value.info["address"] == j.info["address"] && r.value.info["agentHash"] == j.info["agentHash"]
            && forall key :: key in rec.info && key != "address" && key != "agentHash" ==> r.value.info[key] == rec.info[key])
  {
  }

  /* ---------- input_txdata ---------- */

  /** What `input_txdata` hands back: the annotated record in batch mode, nothing once the
      record is stored, or the exception that stopped it. */
  datatype Outcome = Returned(record: TxRecord) | Stored | Crashed

  /** The outcome with the store and the batch map afterwards. */
  datatype Effect = Effect(outcome: Outcome, records: map<Hash, TxRecord>, batch: map<Hash, TxRecord>)

  /** Whether every input carries a `fromHash`; the list of source hashes built before the
      input loop raises otherwise. */
  predicate HashesListed(inputs: seq<Entry>)
  {
    forall m :: 0 <= m < |inputs| ==> inputs[m].fromHash.Some?
  }

  /** The list of source hashes built before the input loop: one `fromHash` per input, in
      order; None when an input has none (the comprehension raises). */
  method FromHashes(inputs: seq<Entry>) returns (ihashes: Option<seq<Hash>>)
    ensures ihashes.Some? <==> HashesListed(inputs)
    ensures ihashes.Some? ==>
      && |ihashes.value| == |inputs|
      && forall m :: 0 <= m < |inputs| ==> inputs[m].fromHash == Some(ihashes.value[m])
  {
    var hs: seq<Hash> := [];
    for i := 0 to |inputs|
      invariant |hs| == i
      invariant forall m :: 0 <= m < i ==> inputs[m].fromHash == Some(hs[m])
    {
      if inputs[i].fromHash.None? {
        return None;
      }
      hs := hs + [inputs[i].fromHash.value];
    }
    return Some(hs);
  }

  /** input_txdata: enrichment, the list of source hashes, the input loop, the bulk write of
      the deferred updates (only when there are some), the classification of the outputs, then
      the record is returned (batch mode) or inserted. A raise leaves the store as it was and
      the batch as the input loop left it; a raise before the loop leaves the batch untouched. */
  function Reconcile(records: map<Hash, TxRecord>, batch: map<Hash, TxRecord>, batchMode: bool, rec: TxRecord): Effect
  {
    match Enrich(records, batch, batchMode, rec)
    case None => Effect(Crashed, records, batch)
    case Some(tx) =>
      if !HashesListed(tx.inputs) then Effect(Crashed, records, batch)
      else Settle(records, batchMode, tx, ResolveUpTo(records, batchMode, tx.hash, Resolution(batch, tx.inputs, []), |tx.inputs|))
  }

  /** The end of input_txdata once the input loop is over with state `s`. */
  function Settle(records: map<Hash, TxRecord>, batchMode: bool, tx: TxRecord, s: Step): Effect
  {
    if !s.ok then Effect(Crashed, records, s.res.batch)
    else
      var written := if |s.res.updates| > 0 then ApplyUpdates(records, s.res.updates) else records;
      var done := tx.(inputs := s.res.inputs, outputs := ClassifyAll(tx.outputs));
      if batchMode then Effect(Returned(done), written, s.res.batch)
      else Effect(Stored, Insert(written, done), s.res.batch)
  }

  /** The outcome of input_txdata: a raise leaves the store as it was; batch mode returns the
      record and inserts nothing; otherwise the record is stored under its hash (or dropped if
      the hash is already there). The batch keeps its keys. */
  lemma ReconcileOutcome(records: map<Hash, TxRecord>, batch: map<Hash, TxRecord>, batchMode: bool, rec: TxRecord)
    ensures var r := Reconcile(records, batch, batchMode, rec);
      && (r.outcome.Crashed? ==> r.records == records)
      && (batchMode ==> !r.outcome.Stored?)
      && (!batchMode ==> !r.outcome.Returned?)
      && r.batch.Keys == batch.Keys
      && (r.outcome.Returned? ==> r.records.Keys == records.Keys)
      && (r.outcome.Stored? ==> r.records.Keys == records.Keys + {rec.hash})
  {
    var tx := Enrich(records, batch, batchMode, rec);
    if tx.Some? {
      ResolveFrame(records, batchMode, tx.value.hash, Resolution(batch, tx.value.inputs, []), |tx.value.inputs|);
    }
  }

  /** The record input_txdata returns, or stores when its hash is new: the same transaction
      with its info enriched (the join details of a type-6 record), every input annotated from
      its source and every output classified. */
  lemma ReconcileRecord(records: map<Hash, TxRecord>, batch: map<Hash, TxRecord>, batchMode: bool, rec: TxRecord)
    ensures var r := Reconcile(records, batch, batchMode, rec);
      var done := if r.outcome.Returned? then Some(r.outcome.record)
                  else if r.outcome.Stored? && rec.hash !in records then Some(r.records[rec.hash])
                  else None;
      done.Some? ==>
        && done.value.(info := rec.info, inputs := rec.inputs, outputs := rec.outputs) == rec
        && Enrich(records, batch, batchMode, rec).Some?
        && done.value.info == Enrich(records, batch, batchMode, rec).value.info
        && done.value.outputs == ClassifyAll(rec.outputs)
        && |done.value.inputs| == |rec.inputs|
        && forall m :: 0 <= m < |rec.inputs| ==>
             var src := SourceOf(records, batchMode, batch, rec.inputs[m]);
             && (src.Some? ==> done.value.inputs[m] == rec.inputs[m].(address := src.value.address))
             && (src.None? ==> done.value.inputs[m] == rec.inputs[m])
  {
    var tx := Enrich(records, batch, batchMode, rec);
    if tx.Some? {
      var start := Resolution(batch, tx.value.inputs, []);
      ResolveFrame(records, batchMode, tx.value.hash, start, |tx.value.inputs|);
      if ResolveUpTo(records, batchMode, tx.value.hash, start, |tx.value.inputs|).ok {
        ResolveAnnotates(records, batchMode, tx.value.hash, start, |tx.value.inputs|);
      }
    }
  }

  /** The store after input_txdata, on the hashes it already held: the deferred updates (one
      per input not resolved from the batch) applied in input order. */
  lemma ReconcileWrites(records: map<Hash, TxRecord>, batch: map<Hash, TxRecord>, batchMode: bool, rec: TxRecord)
    ensures var r := Reconcile(records, batch, batchMode, rec);
      var written := ApplyUpdates(records, Deferred(batchMode, batch.Keys, rec.hash, rec.inputs, |rec.inputs|));
      !r.outcome.Crashed? ==> forall h :: h in records ==> h in r.records && r.records[h] == written[h]
  {
    var tx := Enrich(records, batch, batchMode, rec);
    if tx.Some? {
      var start := Resolution(batch, tx.value.inputs, []);
      var s := ResolveUpTo(records, batchMode, tx.value.hash, start, |tx.value.inputs|);
      if s.ok {
        assert tx.value.inputs == rec.inputs && tx.value.hash == rec.hash;
        ResolveDefers(records, batchMode, tx.value.hash, start, |tx.value.inputs|);
        assert s.res.updates == Deferred(batchMode, batch.Keys, rec.hash, rec.inputs, |rec.inputs|);
        var written := if |s.res.updates| > 0 then ApplyUpdates(records, s.res.updates) else records;
        assert written == ApplyUpdates(records, s.res.updates);
      }
    }
  }

  /** The batch after input_txdata: every batch output named by a batch-resolved input carries
      the spend marks of the last such input; nothing else in the batch changes. */
  lemma ReconcileMarks(records: map<Hash, TxRecord>, batch: map<Hash, TxRecord>, batchMode: bool, rec: TxRecord)
    ensures var r := Reconcile(records, batch, batchMode, rec);
      !r.outcome.Crashed? ==>
        forall h :: h in batch ==>
          && h in r.batch && |r.batch[h].outputs| == |batch[h].outputs| && r.batch[h].(outputs := batch[h].outputs) == batch[h]
          && forall j :: 0 <= j < |batch[h].outputs| ==>
               r.batch[h].outputs[j] == Marked(batch[h].outputs[j], LastHit(batchMode, batch.Keys, rec.inputs, h, j, |rec.inputs|), rec.hash)
  {
    var tx := Enrich(records, batch, batchMode, rec);
    if tx.Some? {
      var start := Resolution(batch, tx.value.inputs, []);
      if ResolveUpTo(records, batchMode, tx.value.hash, start, |tx.value.inputs|).ok {
        ResolveMarks(records, batchMode, tx.value.hash, start, |tx.value.inputs|);
      }
    }
  }

  /** When input_txdata raises: the enrichment fails, an input has no `fromHash` (before the
      loop, so the batch is untouched), or some input raises in the loop. */
  lemma ReconcileCrashes(records: map<Hash, TxRecord>, batch: map<Hash, TxRecord>, batchMode: bool, rec: TxRecord)
    ensures var r := Reconcile(records, batch, batchMode, rec);
      && (r.outcome.Crashed? <==>
            || Enrich(records, batch, batchMode, rec).None?
            || !HashesListed(rec.inputs)
            || exists m :: 0 <= m < |rec.inputs| && Raises(records, batchMode, batch, rec.inputs[m]))
      && (Enrich(records, batch, batchMode, rec).None? || !HashesListed(rec.inputs) ==>
            r.outcome.Crashed? && r.records == records && r.batch == batch)
  {
    var tx := Enrich(records, batch, batchMode, rec);
    if tx.Some? {
      assert tx.value.inputs == rec.inputs && tx.value.hash == rec.hash;
      ResolveRaises(records, batchMode, rec.hash, Resolution(batch, rec.inputs, []), |rec.inputs|);
    }
  }

  /** An input whose source is in neither the batch nor the store does not make input_txdata
      raise: with every source missing, a transaction that enriches is returned or stored. */
  lemma MissingSourcesDoNotRaise(records: map<Hash, TxRecord>, batch: map<Hash, TxRecord>, batchMode: bool, rec: TxRecord)
    requires Enrich(records, batch, batchMode, rec).Some?
    requires forall m :: 0 <= m < |rec.inputs| ==>
      && rec.inputs[m].fromHash.Some? && rec.inputs[m].fromIndex.Some?
      && Lookup(records, batch, batchMode, rec.inputs[m].fromHash.value).None?
    ensures !Reconcile(records, batch, batchMode, rec).outcome.Crashed?
  {
    ReconcileCrashes(records, batch, batchMode, rec);
  }

  /** An output that only a spend may have changed: same fields but the spend marks, and
      status SPENT if anything changed. */
  predicate SpendOnly(a: Entry, b: Entry)
  {
    b.(status := a.status, toHash := a.toHash, toIndex := a.toIndex) == a && (b != a ==> b.status == Some(SPENT))
  }

  /** A record whose outputs only spends may have changed. */
  predicate SpendsOnly(a: TxRecord, b: TxRecord)
  {
    |b.outputs| == |a.outputs| && b.(outputs := a.outputs) == a
    && forall k :: 0 <= k < |a.outputs| ==> SpendOnly(a.outputs[k], b.outputs[k])
  }

  /** The bulk write only marks outputs as spent: every stored record keeps everything but the
      spend marks of its outputs, and a changed output has status SPENT. */
  lemma {:induction false} ApplyUpdatesOnlyMarks(records: map<Hash, TxRecord>, us: seq<Update>)
    ensures forall h :: h in records ==> SpendsOnly(records[h], ApplyUpdates(records, us)[h])
  {
    if us != [] {
      var before := ApplyUpdates(records, us[..|us| - 1]);
      ApplyUpdatesOnlyMarks(records, us[..|us| - 1]);
      forall h | h in records
        ensures SpendsOnly(records[h], ApplyUpdates(records, us)[h])
      {
        var a, b, c := records[h], before[h], ApplyUpdates(records, us)[h];
        forall k | 0 <= k < |a.outputs|
          ensures SpendOnly(a.outputs[k], c.outputs[k])
        {
          assert SpendOnly(a.outputs[k], b.outputs[k]);
          assert SpendOnly(b.outputs[k], c.outputs[k]);
        }
      }
    }
  }

  /** Every update whose record and output exist leaves that output with status SPENT. */
  lemma {:induction false} ApplyUpdatesSpent(records: map<Hash, TxRecord>, us: seq<Update>, n: nat)
    requires n < |us| && us[n].hash in records && us[n].index < |records[us[n].hash].outputs|
    ensures var r := ApplyUpdates(records, us)[us[n].hash];
      us[n].index < |r.outputs| && r.outputs[us[n].index].status == Some(SPENT)
  {
    var before := ApplyUpdates(records, us[..|us| - 1]);
    ApplyUpdatesOnlyMarks(records, us[..|us| - 1]);
    assert SpendsOnly(records[us[n].hash], before[us[n].hash]);
    if n < |us| - 1 {
      ApplyUpdatesSpent(records, us[..|us| - 1], n);
    }
  }

  /** The last of the updates `us` that names output `j` of record `h`. */
  function LastUpdate(us: seq<Update>, h: Hash, j: nat): Option<Update>
  {
    if us == [] then None
    else if us[|us| - 1].hash == h && us[|us| - 1].index == j then Some(us[|us| - 1])
    else LastUpdate(us[..|us| - 1], h, j)
  }

  /** An output as update `u`, if there is one, leaves it. */
  function SpentBy(o: Entry, u: Option<Update>): Entry
  {
    match u
    case None => o
    case Some(u) => Mark(o, u.toHash, u.toIndex)
  }

  /** The bulk write output by output: every stored output is as the last update naming it
      left it, and untouched when no update names it; the rest of every record stays as it was. */
  lemma {:induction false} ApplyUpdatesAt(records: map<Hash, TxRecord>, us: seq<Update>)
    ensures var r := ApplyUpdates(records, us);
      forall h :: h in records ==>
        && |r[h].outputs| == |records[h].outputs| && r[h].(outputs := records[h].outputs) == records[h]
        && forall j :: 0 <= j < |records[h].outputs| ==>
             r[h].outputs[j] == SpentBy(records[h].outputs[j], LastUpdate(us, h, j))
  {
    if us != [] {
      ApplyUpdatesAt(records, us[..|us| - 1]);
    }
  }

  /** A second spend mark with the same hash and index leaves a marked output as it is. */
  lemma SpentByTwice(o: Entry, u: Option<Update>)
    ensures SpentBy(SpentBy(o, u), u) == SpentBy(o, u)
  {
  }

  /** Applying the same deferred update twice is applying it once. */
  lemma ApplyUpdateIdempotent(records: map<Hash, TxRecord>, u: Update)
    ensures ApplyUpdate(ApplyUpdate(records, u), u) == ApplyUpdate(records, u)
  {
    var once := ApplyUpdate(records, u);
    if u.hash in records && u.index < |records[u.hash].outputs| {
      var m := once[u.hash];
      assert m.outputs[u.index := Mark(m.outputs[u.index], u.toHash, u.toIndex)] == m.outputs;
      assert MarkAt(m, u.index, u.toHash, u.toIndex) == m;
      assert once[u.hash := m] == once;
    }
  }

  /** A retried bulk write changes nothing: the deferred updates applied again leave the store
      as their first application left it. */
  lemma ApplyUpdatesIdempotent(records: map<Hash, TxRecord>, us: seq<Update>)
    ensures ApplyUpdates(ApplyUpdates(records, us), us) == ApplyUpdates(records, us)
  {
    var once := ApplyUpdates(records, us);
    var twice := ApplyUpdates(once, us);
    ApplyUpdatesAt(records, us);
    ApplyUpdatesAt(once, us);
    forall h | h in once
      ensures twice[h] == once[h]
    {
      forall j | 0 <= j < |once[h].outputs|
        ensures twice[h].outputs[j] == once[h].outputs[j]
      {
        SpentByTwice(records[h].outputs[j], LastUpdate(us, h, j));
      }
      assert twice[h].outputs == once[h].outputs;
    }
  }

  /* ---------- update_locks ---------- */

  /** The filter of update_locks under array semantics: some output has status LOCKED, some
      output has a lock time below `height`, and no output has lock time -1. */
  predicate Unlockable(r: TxRecord, height: int)
  {
    (exists k :: 0 <= k < |r.outputs| && r.outputs[k].status == Some(LOCKED))
    && (exists k :: 0 <= k < |r.outputs| && r.outputs[k].lockTime.Some? && r.outputs[k].lockTime.value < height)
    && !(exists k :: 0 <= k < |r.outputs| && r.outputs[k].lockTime == Some(-1))
  }

  /** Every output with status UNLOCKED. */
  function UnlockAll(os: seq<Entry>): (r: seq<Entry>)
    ensures |r| == |os|
    ensures forall k :: 0 <= k < |os| ==> r[k] == os[k].(status := Some(UNLOCKED))
  {
    if os == [] then [] else UnlockAll(os[..|os| - 1]) + [os[|os| - 1].(status := Some(UNLOCKED))]
  }

  /** update_locks: every record the filter matches has the status of all its outputs set to
      UNLOCKED; the other records stay as they are. */
  function SweepLocks(records: map<Hash, TxRecord>, height: int): (s: map<Hash, TxRecord>)
    ensures s.Keys == records.Keys
  {
    map h | h in records :: if Unlockable(records[h], height) then records[h].(outputs := UnlockAll(records[h].outputs)) else records[h]
  }

  /** update_locks changes nothing but the status of outputs, and only to UNLOCKED. */
  lemma SweepOnlyUnlocks(records: map<Hash, TxRecord>, height: int)
    ensures var s := SweepLocks(records, height);
      forall h :: h in records ==>
        && |s[h].outputs| == |records[h].outputs| && s[h].(outputs := records[h].outputs) == records[h]
        && forall k :: 0 <= k < |records[h].outputs| ==>
             && s[h].outputs[k].(status := records[h].outputs[k].status) == records[h].outputs[k]
             && (s[h].outputs[k] != records[h].outputs[k] ==> s[h].outputs[k].status == Some(UNLOCKED))
  {
  }

  /** update_locks leaves a record alone when one of its outputs has lock time -1, when none
      has status LOCKED, or when none has a lock time below the height. */
  lemma SweepSkips(records: map<Hash, TxRecord>, height: int, h: Hash)
    requires h in records
    requires var os := records[h].outputs;
      || (exists k :: 0 <= k < |os| && os[k].lockTime == Some(-1))
      || (forall k :: 0 <= k < |os| ==> os[k].status != Some(LOCKED))
      || (forall k :: 0 <= k < |os| ==> os[k].lockTime.None? || os[k].lockTime.value >= height)
    ensures SweepLocks(records, height)[h] == records[h]
  {
  }

  /** A matched record has every output UNLOCKED, whatever its status was, spent included. */
  lemma SweepUnlocksAll(records: map<Hash, TxRecord>, height: int, h: Hash)
    requires h in records && Unlockable(records[h], height)
    ensures forall k :: 0 <= k < |records[h].outputs| ==> SweepLocks(records, height)[h].outputs[k].status == Some(UNLOCKED)
  {
  }

  /** update_locks is idempotent for a fixed height: a matched record no longer has a LOCKED
      output, so a second sweep matches nothing new. */
  lemma SweepIdempotent(records: map<Hash, TxRecord>, height: int)
    ensures SweepLocks(SweepLocks(records, height), height) == SweepLocks(records, height)
  {
    var once := SweepLocks(records, height);
    forall h | h in once
      ensures SweepLocks(once, height)[h] == once[h]
    {
      if Unlockable(records[h], height) {
        assert forall k :: 0 <= k < |once[h].outputs| ==> once[h].outputs[k].status == Some(UNLOCKED);
        assert !Unlockable(once[h], height);
      }
    }
  }

  /** The filter matches a whole record, so an output spent by a later transaction is reset to
      UNLOCKED when a sibling output is LOCKED with a past lock time. */
  lemma SweepResetsSpent(sibling: Entry, spent: Entry, r: TxRecord, height: int)
    requires sibling.status == Some(LOCKED) && sibling.lockTime.Some? && 0 < sibling.lockTime.value < height
    requires spent.status == Some(SPENT) && spent.lockTime == Some(0)
    requires r.outputs == [sibling, spent]
    ensures SweepLocks(map[r.hash := r], height)[r.hash].outputs[1] == spent.(status := Some(UNLOCKED))
  {
    assert r.outputs[0].status == Some(LOCKED);
  }

  /* ---------- The collections ---------- */

  /** The batch map of batch mode: records of the block being imported, by hash. */
  class Batch {
    var txs: map<Hash, TxRecord>

    constructor (txs: map<Hash, TxRecord>)
      ensures this.txs == txs
    {
      this.txs := txs;
    }

    /** Marks output `j` of the batch record `h` as spent by input `i` of `txHash`. */
    method Mark(h: Hash, j: nat, txHash: Hash, i: nat)
      requires h in txs && j < |txs[h].outputs|
      modifies this
      ensures txs == old(txs)[h := MarkAt(old(txs)[h], j, txHash, i)]
    {
      txs := txs[h := MarkAt(txs[h], j, txHash, i)];
    }
  }

  /** The transactions collection, by hash. */
  class Collection {
    var records: map<Hash, TxRecord>

    constructor (records: map<Hash, TxRecord>)
      ensures this.records == records
    {
      this.records := records;
    }

    /** bulk_write of the deferred updates. */
    method BulkWrite(updates: seq<Update>)
      modifies this
      ensures records == ApplyUpdates(old(records), updates)
    {
      records := ApplyUpdates(records, updates);
    }

    /** insert_one, with the duplicate-key error swallowed. */
    method InsertOne(rec: TxRecord)
      modifies this
      ensures records == Insert(old(records), rec)
    {
      if rec.hash !in records {
        records := records[rec.hash := rec];
      }
    }

    /** update_locks at `height`. */
    method UpdateLocks(height: int)
      modifies this
      ensures records == SweepLocks(old(records), height)
    {
      records := SweepLocks(records, height);
    }

    /** One turn of the input loop of input_txdata, for input `i`. */
    method ResolveInput(batch: Batch, batchMode: bool, txHash: Hash, inputs: seq<Entry>, updates: seq<Update>, i: nat)
      returns (inputs': seq<Entry>, updates': seq<Update>, ok: bool)
      requires i < |inputs|
      modifies batch
      ensures ResolveOne(records, batchMode, txHash, Resolution(old(batch.txs), inputs, updates), i)
              == Step(Resolution(batch.txs, inputs', updates'), ok)
    {
      var e := inputs[i];
      inputs', updates' := inputs, updates;
      if e.fromHash.None? || e.fromIndex.None? {
        return inputs', updates', false;
      }
      var h, j := e.fromHash.value, e.fromIndex.value;
      var source: Option<Entry> := None;
      if batchMode && h in batch.txs {
        if j >= |batch.txs[h].outputs| {
          return inputs', updates', false;
        }
        batch.Mark(h, j, txHash, i);
        source := Some(batch.txs[h].outputs[j]);
      } else {
        updates' := updates' + [Update(h, j, txHash, i)];
        if h in records {
          if j >= |records[h].outputs| {
            return inputs', updates', false;
          }
          source := Some(records[h].outputs[j]);
        }
      }
      if source.Some? {
        if source.value.address.None? {
          return inputs', updates', false;
        }
        inputs' := inputs'[i := e.(address := source.value.address)];
      }
      ok := true;
    }

    /** The input loop of input_txdata over the inputs of `tx`; it stops at the first input
        that raises. */
    method ResolveInputs(batch: Batch, batchMode: bool, tx: TxRecord) returns (inputs: seq<Entry>, updates: seq<Update>, ok: bool)
      modifies batch
      ensures ResolveUpTo(records, batchMode, tx.hash, Resolution(old(batch.txs), tx.inputs, []), |tx.inputs|)
              == Step(Resolution(batch.txs, inputs, updates), ok)
    {
      ghost var start := Resolution(batch.txs, tx.inputs, []);
      inputs, updates := tx.inputs, [];
      var i := 0;
      while i < |tx.inputs|
        invariant i <= |tx.inputs|
        invariant start.batch == old(batch.txs)
        invariant ResolveUpTo(records, batchMode, tx.hash, start, i) == Step(Resolution(batch.txs, inputs, updates), true)
      {
        inputs, updates, ok := ResolveInput(batch, batchMode, tx.hash, inputs, updates, i);
        if !ok {
          CrashPersists(records, batchMode, tx.hash, start, i + 1, |tx.inputs|);
          return;
        }
        i := i + 1;
      }
      ok := true;
    }

    /** input_txdata: the record `rec` reconciled against this collection and `batch`. */
    method InputTxData(batch: Batch, batchMode: bool, rec: TxRecord) returns (out: Outcome)
      modifies this, batch
      ensures Effect(out, records, batch.txs) == Reconcile(old(records), old(batch.txs), batchMode, rec)
    {
      var enriched := Enrich(records, batch.txs, batchMode, rec);
      if enriched.None? {
        return Crashed;
      }
      var tx := enriched.value;
      var ihashes := FromHashes(tx.inputs);
      if ihashes.None? {
        return Crashed;
      }
      var inputs, updates, ok := ResolveInputs(batch, batchMode, tx);
      if !ok {
        return Crashed;
      }
      if |updates| > 0 {
        BulkWrite(updates);
      }
      var outputs := ClassifyOutputs(tx.outputs);
      tx := tx.(inputs := inputs, outputs := outputs);
      if batchMode {
        return Returned(tx);
      }
      InsertOne(tx);
      return Stored;
    }
  }
}
