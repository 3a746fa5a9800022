/** What the pool lets in, exactly, and that what it let in is there until it is removed by
    name or an insertion into a full pool finds it among the cheapest tenth. */
module MempoolStays {
  import opened Wrappers
  import opened Collections
  import opened FeeOrder
  import opened Mempool
  import opened MempoolRuns

  // ---------------------------------------------------------------- what is let in

  /** A signature that the verifier accepts over the fields of the transaction and a chain id. */
  predicate Signed(c: Config, tx: Tx, chainId: int) {
    && tx.signature != "" && tx.publicKey != "" && c.verify.Some?
    && c.verify.value(Payload(tx.fromAddr, tx.toAddr, tx.amount, tx.nonce, chainId, tx.signature, tx.publicKey,
                              tx.data, if tx.gas == 0 then 21000 else tx.gas))
  }

  /** No entry is under the key. */
  predicate Absent(txs: seq<Entry>, key: string) {
    forall i :: 0 <= i < |txs| ==> txs[i].key != key
  }

  /** The validators, where they can be imported, accept the fields; addresses of five characters
      pass in any case. */
  predicate FieldsPass(c: Config, tx: Tx) {
    c.validators.Some? ==>
      var v := c.validators.value;
      && (v.addressOk(tx.fromAddr) || |tx.fromAddr| >= 5) && (v.addressOk(tx.toAddr) || |tx.toAddr| >= 5)
      && (tx.amount > 0.0 ==> v.amountOk(tx.amount))
  }

  /** What add accepts: a new hash, the minimum fee, an amount of at least zero, fields that pass, a
      signature that verifies for the configured chain id, 0 read as 1, or none where none is
      required, and the consent of the chain; the caller can vouch for the last two. */
  lemma AcceptsExactly(c: Config, p: Pool, tx: Tx, preverified: bool, prevalidated: bool)
    ensures Submit(c, p, tx, preverified, prevalidated).1 <==>
      && Absent(p.txs, tx.hash) && tx.hash != "" && tx.fee >= c.minFee && tx.amount >= 0.0 && FieldsPass(c, tx)
      && (preverified || (tx.signature == "" && !c.requireSignatures)
          || Signed(c, tx, if c.chainId == 0 then 1 else c.chainId))
      && (prevalidated || c.blockchain.None? || c.blockchain.value(tx))
  {
    hide Put;
    assert Absent(p.txs, tx.hash) <==> !Has(p.txs, tx.hash);
  }

  /** add_raw looks at the hash and the fee alone. */
  lemma RawAcceptsExactly(c: Config, p: Pool, tx: Tx)
    ensures SubmitRaw(c, p, tx).1 <==> Absent(p.txs, tx.hash) && tx.fee >= c.minFee
  {
    hide Put;
    assert Absent(p.txs, tx.hash) <==> !Has(p.txs, tx.hash);
  }

  /** The pool after an answer: an accepted transaction is its last entry, after everything that was
      there while there was room; a refused one leaves the entries, and is counted unless it was
      there already. */
  predicate Entered(c: Config, p: Pool, tx: Tx, r: (Pool, bool), counted: bool) {
    var q, n := r.0, |r.0.txs|;
    && (r.1 ==> n > 0 && q.txs[n - 1] == Entry(tx.hash, tx) && q.rejected == p.rejected)
    && (r.1 && |p.txs| < c.maxSize ==> q.txs[..n - 1] == p.txs)
    && (!r.1 ==> q.txs == p.txs)
    && (!r.1 ==> q.rejected == p.rejected + if counted && Absent(p.txs, tx.hash) then 1 else 0)
  }

  lemma AcceptedIsLast(c: Config, p: Pool, tx: Tx, preverified: bool, prevalidated: bool)
    ensures Entered(c, p, tx, Submit(c, p, tx, preverified, prevalidated), true)
    ensures Entered(c, p, tx, SubmitRaw(c, p, tx), false)
  {
    hide Evict, FormatOk, ChainOk, SignatureAlone;
    assert Absent(p.txs, tx.hash) <==> !Has(p.txs, tx.hash);
  }

  // ---------------------------------------------------------------- what leaves

  /** Under distinct keys, removing a key takes the entry under it and no other. */
  lemma {:induction false} WithoutExactly(txs: seq<Entry>, key: string, e: Entry)
    requires Distinct(txs)
    ensures e in Without(txs, key) <==> e in txs && e.key != key
  {
    if txs != [] {
      assert txs == [txs[0]] + txs[1..];
      if txs[0].key != key {
        WithoutExactly(txs[1..], key, e);
      }
    }
  }

  /** One of the transactions has the hash. */
  predicate Listed(gone: seq<Tx>, hash: string) {
    exists i :: 0 <= i < |gone| && gone[i].hash == hash
  }

  lemma ListedLast(gone: seq<Tx>, hash: string)
    requires gone != []
    ensures Listed(gone, hash) <==> Listed(gone[..|gone| - 1], hash) || gone[|gone| - 1].hash == hash
  {
    var front := gone[..|gone| - 1];
    if Listed(gone, hash) && gone[|gone| - 1].hash != hash {
      var i :| 0 <= i < |gone| && gone[i].hash == hash;
      assert front[i].hash == hash;
    }
    if Listed(front, hash) {
      var i :| 0 <= i < |front| && front[i].hash == hash;
      assert gone[i].hash == hash;
    }
  }

  lemma {:induction false} RemoveAllExactly(txs: seq<Entry>, gone: seq<Tx>, e: Entry)
    requires Distinct(txs) && Keyed(txs)
    ensures Distinct(RemoveAll(txs, gone)) && Keyed(RemoveAll(txs, gone))
    ensures e in RemoveAll(txs, gone) <==> e in txs && !Listed(gone, e.key)
    decreases |gone|
  {
    hide Distinct, Keyed, Without;
    if gone != [] {
      var front, last := gone[..|gone| - 1], gone[|gone| - 1];
      RemoveAllExactly(txs, front, e);
      WithoutExactly(RemoveAll(txs, front), last.hash, e);
      KeysKeep(RemoveAll(txs, front), last.hash);
      ListedLast(gone, e.key);
      hide Listed;
    } else {
      assert !Listed(gone, e.key);
    }
  }

  lemma KeysKeep(txs: seq<Entry>, key: string)
    requires Distinct(txs) && Keyed(txs)
    ensures Distinct(Without(txs, key)) && Keyed(Without(txs, key))
  {
    var i := WithoutDrops(txs, key);
    hide Without;
  }

  /** The pool is full, and the key is that of one of its |txs| / 10 cheapest. */
  predicate Drops(c: Config, txs: seq<Entry>, key: string) {
    var up := Sorted(Values(txs), true);
    |txs| >= c.maxSize && |up| == |txs| && Listed(up[..|txs| / 10], key)
  }

  /** An insertion into a full pool takes the cheapest tenth and no other entry. */
  lemma PutExactly(c: Config, txs: seq<Entry>, tx: Tx, e: Entry)
    requires Distinct(txs) && Keyed(txs) && e.key != tx.hash
    ensures e in Put(c, txs, tx) <==> e in txs && !Drops(c, txs, e.key)
  {
    hide Distinct, Keyed, Values, Sorted, RemoveAll, Listed;
    var up, k := Sorted(Values(txs), true), |txs| / 10;
    if |txs| >= c.maxSize {
      TakenFromSorted(txs, k);
      RemoveAllExactly(txs, up[..k], e);
      assert Take(up, k) == up[..k];
    }
  }

  /** A clean-up does nothing while less than four fifths of the room is used, and otherwise takes the
      cheapest tenth and no other entry. */
  lemma EvictExactly(c: Config, txs: seq<Entry>, e: Entry)
    requires Distinct(txs) && Keyed(txs)
    ensures 10 * |txs| < 8 * c.maxSize ==> Evict(c, txs) == txs
    ensures |Sorted(Values(txs), true)| == |txs|
    ensures 10 * |txs| >= 8 * c.maxSize ==>
      (e in Evict(c, txs) <==> e in txs && !Listed(Sorted(Values(txs), true)[..|txs| / 10], e.key))
  {
    hide Distinct, Keyed, Values, Sorted, RemoveAll, Listed;
    var up, k := Sorted(Values(txs), true), |txs| / 10;
    TakenFromSorted(txs, k);
    RemoveAllExactly(txs, up[..k], e);
    assert Take(up, k) == up[..k];
  }

  /** get with a negative limit leaves off that many of the cheapest. */
  lemma NegativeLimit(txs: seq<Entry>, limit: int, floor: real)
    requires limit < 0
    ensures var paying := Paying(Sorted(Values(txs), false), floor);
      Best(txs, limit, floor) == paying[..Max(0, |paying| + limit)]
  {
    hide Sorted, Paying;
  }

  /** add leaves an entry of the pool where it is, unless it is accepted into a full pool and the entry
      is among the cheapest tenth. */
  lemma SubmitSpares(c: Config, p: Pool, tx: Tx, preverified: bool, prevalidated: bool, e: Entry)
    requires Distinct(p.txs) && Keyed(p.txs) && e in p.txs
    ensures var r := Submit(c, p, tx, preverified, prevalidated);
      e in r.0.txs <==> !(r.1 && Drops(c, p.txs, e.key))
  {
    hide Put, FormatOk, ChainOk, SignatureAlone, Drops, Distinct, Keyed;
    if !Has(p.txs, tx.hash) {
      OtherKey(p.txs, e, tx.hash);
      PutExactly(c, p.txs, tx, e);
    }
  }

  lemma RawSpares(c: Config, p: Pool, tx: Tx, e: Entry)
    requires Distinct(p.txs) && Keyed(p.txs) && e in p.txs
    ensures var r := SubmitRaw(c, p, tx);
      e in r.0.txs <==> !(r.1 && Drops(c, p.txs, e.key))
  {
    hide Put, Drops, Distinct, Keyed;
    if !Has(p.txs, tx.hash) {
      OtherKey(p.txs, e, tx.hash);
      PutExactly(c, p.txs, tx, e);
    }
  }

  lemma OtherKey(txs: seq<Entry>, e: Entry, key: string)
    requires e in txs && !Has(txs, key)
    ensures e.key != key
  {
    var i :| 0 <= i < |txs| && txs[i] == e;
  }

  /** Some submission of the batch drops the key. */
  predicate BatchDrops(c: Config, p: Pool, txs: seq<Tx>, prevalidated: bool, key: string)
    decreases |txs|
  {
    txs != []
    && var front := txs[..|txs| - 1];
      var q := SubmitBatch(c, p, front, prevalidated);
      || BatchDrops(c, p, front, prevalidated, key)
      || (SubmitBatch(c, p, txs, prevalidated).added > q.added && Drops(c, q.pool.txs, key))
  }

  lemma {:induction false} BatchSpares(c: Config, p: Pool, txs: seq<Tx>, prevalidated: bool, e: Entry)
    requires Good(c, p.txs) && e in p.txs && !BatchDrops(c, p, txs, prevalidated, e.key)
    ensures e in SubmitBatch(c, p, txs, prevalidated).pool.txs
    decreases |txs|
  {
    hide Good, Put, Drops, FormatOk, ChainOk, SignatureInBatch, SignatureAlone, Submit;
    if txs != [] {
      var front, tx := txs[..|txs| - 1], txs[|txs| - 1];
      BatchSpares(c, p, front, prevalidated, e);
      BatchKeeps(c, p, front, prevalidated);
      var q := SubmitBatch(c, p, front, prevalidated);
      GoodKeys(c, q.pool.txs);
      SubmitSpares(c, q.pool, tx, true, prevalidated, e);
    }
  }

  lemma GoodKeys(c: Config, txs: seq<Entry>)
    requires Good(c, txs)
    ensures Distinct(txs) && Keyed(txs)
  {
  }

  // ---------------------------------------------------------------- over runs

  /** The operation takes the key out: by name, or by an insertion it makes into a full pool. */
  predicate Removes(c: Config, p: Pool, op: Op, key: string) {
    match op
    case OpAdd(tx, preverified, prevalidated) =>
      Submit(c, p, tx, preverified, prevalidated).1 && Drops(c, p.txs, key)
    case OpBatch(txs, prevalidated) => BatchDrops(c, p, txs, prevalidated, key)
    case OpRaw(tx) => SubmitRaw(c, p, tx).1 && Drops(c, p.txs, key)
    case OpRemove(hash) => hash == key
  }

  lemma OpSpares(c: Config, p: Pool, op: Op, e: Entry)
    requires Good(c, p.txs) && e in p.txs && !Removes(c, p, op, e.key)
    ensures e in Apply(c, p, op).txs
  {
    GoodKeys(c, p.txs);
    hide Good, Submit, SubmitBatch, SubmitRaw, Without, Drops, BatchDrops;
    match op
    case OpAdd(tx, preverified, prevalidated) => SubmitSpares(c, p, tx, preverified, prevalidated, e);
    case OpBatch(txs, prevalidated) => BatchSpares(c, p, txs, prevalidated, e);
    case OpRaw(tx) => RawSpares(c, p, tx, e);
    case OpRemove(hash) => WithoutExactly(p.txs, hash, e);
  }

  /** No operation from k on takes the key out. */
  ghost predicate Untouched(c: Config, ops: seq<Op>, k: nat, key: string) {
    forall i :: k <= i < |ops| ==> !Removes(c, Replay(c, ops[..i]), ops[i], key)
  }

  /** What was in the pool after k operations, and was not removed or evicted since, is in it. */
  lemma {:induction false} EntryStays(c: Config, ops: seq<Op>, k: nat, e: Entry)
    requires k <= |ops| && e in Replay(c, ops[..k]).txs && Untouched(c, ops, k, e.key)
    ensures e in Replay(c, ops).txs
    decreases |ops|
  {
    hide Removes, Apply;
    if k == |ops| {
      assert ops[..k] == ops;
    } else {
      var n := |ops| - 1;
      var front := ops[..n];
      assert front[..k] == ops[..k];
      forall i | k <= i < n ensures !Removes(c, Replay(c, front[..i]), front[i], e.key) {
        assert front[..i] == ops[..i];
      }
      EntryStays(c, front, k, e);
      ReplayKeeps(c, front);
      assert !Removes(c, Replay(c, ops[..n]), ops[n], e.key);
      OpSpares(c, Replay(c, front), ops[n], e);
    }
  }

  /** An accepted transaction that nobody removed and no insertion evicted since is in the pool after
      any run, under its hash, and get can return it: it is in every answer that is long enough and
      asks for no more than its fee. */
  lemma AcceptedStays(c: Config, ops: seq<Op>, k: nat, limit: nat, floor: real)
    requires k < |ops| && (ops[k].OpAdd? || ops[k].OpRaw?)
    requires var p := Replay(c, ops[..k]);
      if ops[k].OpAdd? then Submit(c, p, ops[k].tx, ops[k].preverified, ops[k].prevalidated).1
      else SubmitRaw(c, p, ops[k].rawTx).1
    requires var tx := if ops[k].OpAdd? then ops[k].tx else ops[k].rawTx;
      Untouched(c, ops, k + 1, tx.hash) && floor <= tx.fee && limit >= |Replay(c, ops).txs|
    ensures var tx := if ops[k].OpAdd? then ops[k].tx else ops[k].rawTx;
      Entry(tx.hash, tx) in Replay(c, ops).txs && tx in Best(Replay(c, ops).txs, limit, floor)
  {
    hide Best, Good, Untouched, Submit, SubmitRaw, Without;
    var tx := if ops[k].OpAdd? then ops[k].tx else ops[k].rawTx;
    var p := Replay(c, ops[..k]);
    if ops[k].OpAdd? {
      AcceptedIsLast(c, p, tx, ops[k].preverified, ops[k].prevalidated);
    } else {
      AcceptedIsLast(c, p, tx, true, true);
    }
    assert ops[..k + 1][..k] == ops[..k];
    var q := Replay(c, ops[..k + 1]);
    assert q == Apply(c, p, ops[k]) && q.txs[|q.txs| - 1] == Entry(tx.hash, tx);
    EntryStays(c, ops, k + 1, Entry(tx.hash, tx));
    BestHolds(Replay(c, ops).txs, Entry(tx.hash, tx), limit, floor);
  }

  lemma {:induction false} PayingHolds(s: seq<Tx>, floor: real, tx: Tx)
    requires tx in s && tx.fee >= floor
    ensures tx in Paying(s, floor)
    decreases |s|
  {
    if tx != s[|s| - 1] {
      PayingHolds(s[..|s| - 1], floor, tx);
    }
  }

  lemma {:induction false} PayingShorter(s: seq<Tx>, floor: real)
    ensures |Paying(s, floor)| <= |s|
    decreases |s|
  {
    if s != [] {
      PayingShorter(s[..|s| - 1], floor);
    }
  }

  lemma BestHolds(txs: seq<Entry>, e: Entry, limit: nat, floor: real)
    requires e in txs && floor <= e.tx.fee && limit >= |txs|
    ensures e.tx in Best(txs, limit, floor)
  {
    hide Sorted, Paying;
    EntryValue(txs, e);
    var down := Sorted(Values(txs), false);
    SortedSorts(Values(txs), false);
    SameSize(down, Values(txs));
    assert e.tx in down;
    PayingHolds(down, floor, e.tx);
    PayingShorter(down, floor);
  }

  // ---------------------------------------------------------------- batches

  /** A batch in two parts is the two batches in turn. */
  lemma {:induction false} BatchSplits(c: Config, p: Pool, a: seq<Tx>, b: seq<Tx>, prevalidated: bool)
    ensures var first := SubmitBatch(c, p, a, prevalidated);
      var second := SubmitBatch(c, first.pool, b, prevalidated);
      SubmitBatch(c, p, a + b, prevalidated)
      == Tally(second.pool, first.added + second.added, first.rejected + second.rejected, first.hashes + second.hashes)
    decreases |b|
  {
    hide Submit, SignatureInBatch;
    if b == [] {
      assert a + b == a;
    } else {
      var front, last := b[..|b| - 1], b[|b| - 1];
      BatchSplits(c, p, a, front, prevalidated);
      assert (a + b)[..|a + b| - 1] == a + front && (a + b)[|a + b| - 1] == last;
    }
  }

  /** A batch of one does to the entries what add does, and says whether it was accepted. */
  lemma BatchOfOne(c: Config, p: Pool, tx: Tx, prevalidated: bool)
    requires c.chainId != 0
    ensures var t, r := SubmitBatch(c, p, [tx], prevalidated), Submit(c, p, tx, false, prevalidated);
      && t.pool.txs == r.0.txs && t.added == (if r.1 then 1 else 0) && t.rejected == (if r.1 then 0 else 1)
      && t.hashes == (if r.1 then [tx.hash] else [])
  {
    hide Put, FormatOk, ChainOk;
    assert [tx][..0] == [] && [tx][0] == tx;
    assert SubmitBatch(c, p, [], prevalidated) == Tally(p, 0, 0, []);
  }

  // ---------------------------------------------------------------- equal fees

  function WithFee(s: seq<Tx>, fee: real): seq<Tx> {
    if s == [] then []
    else WithFee(s[..|s| - 1], fee) + if s[|s| - 1].fee == fee then [s[|s| - 1]] else []
  }

  lemma {:induction false} InsertIsStable(s: seq<Tx>, t: Tx, ascending: bool, fee: real)
    ensures WithFee(Insert(s, t, ascending), fee) == WithFee(s, fee) + if t.fee == fee then [t] else []
    decreases |s|
  {
    if s != [] {
      var front, last := s[..|s| - 1], s[|s| - 1];
      if Before(last.fee, t.fee, ascending) {
        assert (s + [t])[..|s|] == s;
      } else {
        InsertIsStable(front, t, ascending, fee);
        var r := Insert(front, t, ascending);
        assert (r + [last])[..|r|] == r;
      }
    }
  }

  /** Transactions of one fee stay in the order in which they came, in either direction. */
  lemma {:induction false} SortedIsStable(s: seq<Tx>, ascending: bool, fee: real)
    ensures WithFee(Sorted(s, ascending), fee) == WithFee(s, fee)
    decreases |s|
  {
    if s != [] {
      SortedIsStable(s[..|s| - 1], ascending, fee);
      InsertIsStable(Sorted(s[..|s| - 1], ascending), s[|s| - 1], ascending, fee);
    }
  }
}
