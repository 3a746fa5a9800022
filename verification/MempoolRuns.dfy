/** What the pool keeps over any run, what eviction spares, and when the batch path
    does what one-by-one submission does. */
module MempoolRuns {
  import opened Wrappers
  import opened FeeOrder
  import opened Mempool

  // ---------------------------------------------------------------- batch against one by one

  /** Same transactions in the same order, same count, same accepted hashes. */
  predicate SameEffect(c: Config, p: Pool, txs: seq<Tx>, prevalidated: bool) {
    var batch, each := SubmitBatch(c, p, txs, prevalidated), SubmitEach(c, p, txs, prevalidated);
    batch.pool.txs == each.pool.txs && batch.added == each.added && batch.hashes == each.hashes
    && batch.rejected == each.rejected
  }

  /** The two chain ids give the same verdict on every transaction that could enter. */
  ghost predicate FlagsMatch(c: Config, prevalidated: bool) {
    forall tx: Tx :: FormatOk(c, tx) && ChainOk(c, tx, prevalidated) ==>
      (SignatureAlone(c, tx) <==> SignatureInBatch(c, tx))
  }

  lemma {:induction false} FlagsGiveSameEffect(c: Config, p: Pool, q: Pool, txs: seq<Tx>, prevalidated: bool)
    requires FlagsMatch(c, prevalidated) && p.txs == q.txs
    ensures var batch, each := SubmitBatch(c, p, txs, prevalidated), SubmitEach(c, q, txs, prevalidated);
      && batch.pool.txs == each.pool.txs && batch.added == each.added
      && batch.hashes == each.hashes && batch.rejected == each.rejected
    decreases |txs|
  {
    hide Put;
    if txs != [] {
      FlagsGiveSameEffect(c, p, q, txs[..|txs| - 1], prevalidated);
      var tx := txs[|txs| - 1];
      assert FormatOk(c, tx) && ChainOk(c, tx, prevalidated) ==> (SignatureAlone(c, tx) <==> SignatureInBatch(c, tx));
    }
  }

  /** Into an empty pool a transaction goes on its signature alone. */
  lemma FirstOne(c: Config, tx: Tx, prevalidated: bool)
    requires FormatOk(c, tx) && ChainOk(c, tx, prevalidated)
    ensures SubmitEach(c, Pool([], 0), [tx], prevalidated).added == (if SignatureAlone(c, tx) then 1 else 0)
    ensures SubmitBatch(c, Pool([], 0), [tx], prevalidated).added == (if SignatureInBatch(c, tx) then 1 else 0)
  {
    hide Put, SignedOk;
    assert [tx][..0] == [] && [tx][0] == tx;
    assert SubmitEach(c, Pool([], 0), [], prevalidated) == Tally(Pool([], 0), 0, 0, []);
    assert SubmitBatch(c, Pool([], 0), [], prevalidated) == Tally(Pool([], 0), 0, 0, []);
  }

  /** add_batch equals add on each, for every pool and every batch, exactly when the
      configured chain id and the chain id used alone verify alike. */
  lemma BatchAgreesExactly(c: Config, prevalidated: bool)
    ensures (forall p: Pool, txs: seq<Tx> :: SameEffect(c, p, txs, prevalidated)) <==> FlagsMatch(c, prevalidated)
  {
    if FlagsMatch(c, prevalidated) {
      forall p: Pool, txs: seq<Tx> ensures SameEffect(c, p, txs, prevalidated) {
        FlagsGiveSameEffect(c, p, p, txs, prevalidated);
      }
    }
    if forall p: Pool, txs: seq<Tx> :: SameEffect(c, p, txs, prevalidated) {
      forall tx: Tx | FormatOk(c, tx) && ChainOk(c, tx, prevalidated)
        ensures SignatureAlone(c, tx) <==> SignatureInBatch(c, tx)
      {
        var p, txs := Pool([], 0), [tx];
        assert SameEffect(c, p, txs, prevalidated);
        FirstOne(c, tx, prevalidated);
      }
    }
  }

  /** A nonzero chain id is enough, whatever the verifier. */
  lemma {:induction false} BatchAgrees(c: Config, p: Pool, txs: seq<Tx>, prevalidated: bool)
    requires c.chainId != 0
    ensures SameEffect(c, p, txs, prevalidated)
    ensures SubmitBatch(c, p, txs, prevalidated).added + SubmitBatch(c, p, txs, prevalidated).rejected == |txs|
  {
    FlagsGiveSameEffect(c, p, p, txs, prevalidated);
    BatchCounts(c, p, txs, prevalidated);
  }

  lemma {:induction false} BatchCounts(c: Config, p: Pool, txs: seq<Tx>, prevalidated: bool)
    ensures var t := SubmitBatch(c, p, txs, prevalidated);
      t.added + t.rejected == |txs| && t.added == |t.hashes|
    decreases |txs|
  {
    hide Submit, Put;
    if txs != [] {
      BatchCounts(c, p, txs[..|txs| - 1], prevalidated);
    }
  }

  /** With chain id 0 the two paths part on any transaction that could enter and whose
      signature the two ids judge differently: into the empty pool only one lets it. */
  lemma ChainZeroDisagrees(c: Config, tx: Tx, prevalidated: bool)
    requires c.chainId == 0 && c.verify.Some? && tx.signature != "" && tx.publicKey != ""
    requires FormatOk(c, tx) && ChainOk(c, tx, prevalidated)
    requires c.verify.value(PayloadOf(tx, 0)) != c.verify.value(PayloadOf(tx, 1))
    ensures !SameEffect(c, Pool([], 0), [tx], prevalidated)
  {
    FirstOne(c, tx, prevalidated);
    hide SubmitEach, SubmitBatch;
  }

  /** Such an input: a verifier for signatures made with chain id 1. */
  lemma ChainZeroInput()
    ensures var c := Config(10, 0.0, 0, true, None, Some((p: Payload) => p.chainId == 1), None);
      var tx := Tx("h", "alice", "carol", 1.0, 0.5, 0, "signature", "key", "", 21000);
      !SameEffect(c, Pool([], 0), [tx], false)
  {
    var c := Config(10, 0.0, 0, true, None, Some((p: Payload) => p.chainId == 1), None);
    ChainZeroDisagrees(c, Tx("h", "alice", "carol", 1.0, 0.5, 0, "signature", "key", "", 21000), false);
    hide SameEffect;
  }

  /** Transactions already pooled when their turn comes, with a bad signature. */
  function BadDuplicates(c: Config, p: Pool, txs: seq<Tx>, prevalidated: bool): nat
    decreases |txs|
  {
    if txs == [] then 0
    else
      var front, tx := txs[..|txs| - 1], txs[|txs| - 1];
      BadDuplicates(c, p, front, prevalidated)
      + if Has(SubmitEach(c, p, front, prevalidated).pool.txs, tx.hash) && !SignatureInBatch(c, tx) then 1 else 0
  }

  /** The pool's own rejection counter is the one thing the batch path changes, and by
      exactly the badly signed duplicates, which add alone turns away uncounted. */
  lemma {:induction false} RejectedDiffers(c: Config, p: Pool, txs: seq<Tx>, prevalidated: bool)
    requires c.chainId != 0
    ensures SubmitBatch(c, p, txs, prevalidated).pool.rejected
         == SubmitEach(c, p, txs, prevalidated).pool.rejected + BadDuplicates(c, p, txs, prevalidated)
    decreases |txs|
  {
    hide SameEffect, Submit, Count, SignatureInBatch;
    if txs != [] {
      var front, tx := txs[..|txs| - 1], txs[|txs| - 1];
      RejectedDiffers(c, p, front, prevalidated);
      SamePool(c, p, front, prevalidated);
      RejectedStep(c, SubmitEach(c, p, front, prevalidated), SubmitBatch(c, p, front, prevalidated), tx, prevalidated);
    }
  }

  lemma SamePool(c: Config, p: Pool, txs: seq<Tx>, prevalidated: bool)
    requires c.chainId != 0
    ensures SubmitBatch(c, p, txs, prevalidated).pool.txs == SubmitEach(c, p, txs, prevalidated).pool.txs
  {
    FlagsGiveSameEffect(c, p, p, txs, prevalidated);
    hide SubmitBatch, SubmitEach;
  }

  /** One transaction on pools with the same entries. */
  lemma RejectedStep(c: Config, e: Tally, b: Tally, tx: Tx, prevalidated: bool)
    requires c.chainId != 0 && b.pool.txs == e.pool.txs
    ensures var each := Count(e, tx, Submit(c, e.pool, tx, false, prevalidated));
      var batch := Count(b, tx, if SignatureInBatch(c, tx) then Submit(c, b.pool, tx, true, prevalidated)
                                else (b.pool.(rejected := b.pool.rejected + 1), false));
      batch.pool.rejected - b.pool.rejected
      == each.pool.rejected - e.pool.rejected
         + if Has(e.pool.txs, tx.hash) && !SignatureInBatch(c, tx) then 1 else 0
  {
    hide Put, FormatOk, ChainOk;
  }

  // ---------------------------------------------------------------- what every run keeps

  predicate Distinct(txs: seq<Entry>) {
    forall i, j :: 0 <= i < j < |txs| ==> txs[i].key != txs[j].key
  }

  predicate Keyed(txs: seq<Entry>) {
    forall i :: 0 <= i < |txs| ==> txs[i].key == txs[i].tx.hash
  }

  predicate Paid(c: Config, txs: seq<Entry>) {
    forall i :: 0 <= i < |txs| ==> txs[i].tx.fee >= c.minFee
  }

  function Bound(c: Config): int {
    if c.maxSize > 10 then c.maxSize else 10
  }

  predicate Good(c: Config, txs: seq<Entry>) {
    Distinct(txs) && Keyed(txs) && Paid(c, txs) && |txs| <= Bound(c)
  }

  datatype Op =
    | OpAdd(tx: Tx, preverified: bool, prevalidated: bool)
    | OpBatch(txs: seq<Tx>, batchPrevalidated: bool)
    | OpRaw(rawTx: Tx)
    | OpRemove(hash: string)

  function Apply(c: Config, p: Pool, op: Op): Pool {
    match op
    case OpAdd(tx, preverified, prevalidated) => Submit(c, p, tx, preverified, prevalidated).0
    case OpBatch(txs, prevalidated) => SubmitBatch(c, p, txs, prevalidated).pool
    case OpRaw(tx) => SubmitRaw(c, p, tx).0
    case OpRemove(hash) => p.(txs := Without(p.txs, hash))
  }

  function Replay(c: Config, ops: seq<Op>): Pool
    decreases |ops|
  {
    if ops == [] then Pool([], 0) else Apply(c, Replay(c, ops[..|ops| - 1]), ops[|ops| - 1])
  }

  /** Without drops the one entry under the key, or nothing. */
  lemma {:induction false} WithoutDrops(txs: seq<Entry>, key: string) returns (i: nat)
    requires Distinct(txs)
    ensures i <= |txs|
    ensures i < |txs| ==> txs[i].key == key && Without(txs, key) == txs[..i] + txs[i + 1..]
    ensures i == |txs| ==> !Has(txs, key) && Without(txs, key) == txs
    decreases |txs|
  {
    if txs == [] {
      i := 0;
    } else if txs[0].key == key {
      i := 0;
    } else {
      var rest := txs[1..];
      assert txs == [txs[0]] + rest;
      var j := WithoutDrops(rest, key);
      i := j + 1;
      if j == |rest| && Has(txs, key) {
        var k :| 0 <= k < |txs| && txs[k].key == key;
        assert rest[k - 1].key == key;
      }
    }
  }

  /** The shape of the entries, size aside, survives a removal. */
  lemma WithoutKeeps(c: Config, txs: seq<Entry>, key: string)
    requires Distinct(txs) && Keyed(txs)
    ensures Distinct(Without(txs, key)) && Keyed(Without(txs, key)) && !Has(Without(txs, key), key)
    ensures |Without(txs, key)| == |txs| - (if Has(txs, key) then 1 else 0)
    ensures Paid(c, txs) ==> Paid(c, Without(txs, key))
    ensures forall k :: Has(Without(txs, key), k) ==> Has(txs, k)
  {
    var i := WithoutDrops(txs, key);
    var rest := Without(txs, key);
    hide Without;
    if i < |txs| {
      assert Has(txs, key);
      forall k | Has(rest, k) ensures Has(txs, k) && k != key {
        var j :| 0 <= j < |rest| && rest[j].key == k;
        assert rest[j] == txs[if j < i then j else j + 1];
      }
    }
  }

  lemma WithoutOne(txs: seq<Entry>, tx: Tx)
    requires Distinct(txs) && Keyed(txs) && tx in multiset(Values(txs))
    ensures multiset(Values(txs)) == multiset(Values(Without(txs, tx.hash))) + multiset{tx}
  {
    var at := PositionOf(txs, tx);
    var i := WithoutDrops(txs, tx.hash);
    assert Has(txs, txs[at].key);
    assert i == at;
    ValuesWithout(txs, i);
  }

  lemma PositionOf(txs: seq<Entry>, tx: Tx) returns (at: nat)
    requires tx in multiset(Values(txs))
    ensures at < |txs| && txs[at].tx == tx
  {
    assert tx in Values(txs);
    at :| 0 <= at < |txs| && Values(txs)[at] == tx;
  }

  lemma ValuesWithout(txs: seq<Entry>, i: nat)
    requires i < |txs|
    ensures multiset(Values(txs)) == multiset(Values(txs[..i] + txs[i + 1..])) + multiset{txs[i].tx}
  {
    SplitAt(Values(txs), i, Values(txs[..i] + txs[i + 1..]));
  }

  lemma SplitAt(s: seq<Tx>, i: nat, rest: seq<Tx>)
    requires i < |s| && rest == s[..i] + s[i + 1..]
    ensures multiset(s) == multiset(rest) + multiset{s[i]}
  {
    assert s == s[..i] + [s[i]] + s[i + 1..];
  }

  /** Deleting listed transactions one by one takes exactly those. */
  lemma {:induction false} RemoveAllDrops(c: Config, txs: seq<Entry>, gone: seq<Tx>)
    requires Distinct(txs) && Keyed(txs) && Paid(c, txs)
    requires multiset(gone) <= multiset(Values(txs))
    ensures var kept := RemoveAll(txs, gone);
      && Distinct(kept) && Keyed(kept) && Paid(c, kept) && |kept| == |txs| - |gone|
      && multiset(Values(txs)) == multiset(Values(kept)) + multiset(gone)
      && forall k :: Has(kept, k) ==> Has(txs, k)
    decreases |gone|
  {
    if gone != [] {
      var front, last := gone[..|gone| - 1], gone[|gone| - 1];
      SplitLast(gone, front, last);
      RemoveAllDrops(c, txs, front);
      var most := RemoveAll(txs, front);
      assert last in multiset(Values(most));
      WithoutOne(most, last);
      WithoutKeeps(c, most, last.hash);
      assert last in Values(most);
      var at :| 0 <= at < |most| && Values(most)[at] == last;
      assert most[at].key == last.hash;
      assert Has(most, last.hash);
    }
  }

  lemma TakenFromSorted(txs: seq<Entry>, k: nat)
    requires k <= |txs|
    ensures var up := Sorted(Values(txs), true);
      |up| == |txs| && multiset(Values(txs)) == multiset(up[..k]) + multiset(up[k..])
  {
    var up := Sorted(Values(txs), true);
    SortedSorts(Values(txs), true);
    SameSize(up, Values(txs));
    assert up == up[..k] + up[k..];
  }

  lemma EvictKeeps(c: Config, txs: seq<Entry>)
    requires Good(c, txs) && |txs| >= c.maxSize
    ensures Good(c, Evict(c, txs)) && |Evict(c, txs)| == |txs| - |txs| / 10
    ensures forall k :: Has(Evict(c, txs), k) ==> Has(txs, k)
    ensures |Sorted(Values(txs), true)| == |txs|
    ensures multiset(Values(Evict(c, txs))) == multiset(Sorted(Values(txs), true)[|txs| / 10..])
  {
    var k, up := |txs| / 10, Sorted(Values(txs), true);
    TakenFromSorted(txs, k);
    RemoveAllDrops(c, txs, up[..k]);
    assert Take(up, k) == up[..k];
    var kept := Evict(c, txs);
    assert multiset(Values(kept)) == multiset(Values(txs)) - multiset(up[..k]);
  }

  lemma PutKeeps(c: Config, txs: seq<Entry>, tx: Tx)
    requires Good(c, txs) && !Has(txs, tx.hash) && tx.fee >= c.minFee
    ensures Good(c, Put(c, txs, tx))
  {
    if |txs| >= c.maxSize {
      EvictKeeps(c, txs);
      hide Evict;
      PutLast(c, txs, Evict(c, txs), tx);
    } else {
      PutLast(c, txs, txs, tx);
    }
  }

  lemma PutLast(c: Config, txs: seq<Entry>, room: seq<Entry>, tx: Tx)
    requires Good(c, room) && |room| < Bound(c) && tx.fee >= c.minFee
    requires !Has(txs, tx.hash) && forall k :: Has(room, k) ==> Has(txs, k)
    ensures Good(c, room + [Entry(tx.hash, tx)])
  {
    forall i | 0 <= i < |room| ensures room[i].key != tx.hash {
      assert Has(room, room[i].key);
    }
  }

  lemma {:induction false} BatchKeeps(c: Config, p: Pool, txs: seq<Tx>, prevalidated: bool)
    requires Good(c, p.txs)
    ensures Good(c, SubmitBatch(c, p, txs, prevalidated).pool.txs)
    decreases |txs|
  {
    hide Put, Good;
    if txs != [] {
      var front, tx := txs[..|txs| - 1], txs[|txs| - 1];
      BatchKeeps(c, p, front, prevalidated);
      var q := SubmitBatch(c, p, front, prevalidated).pool;
      if !Has(q.txs, tx.hash) && FormatOk(c, tx) {
        PutKeeps(c, q.txs, tx);
      }
    }
  }

  lemma ApplyKeeps(c: Config, p: Pool, op: Op)
    requires Good(c, p.txs)
    ensures Good(c, Apply(c, p, op).txs)
  {
    hide Put;
    match op
    case OpAdd(tx, _, _) =>
      if !Has(p.txs, tx.hash) && FormatOk(c, tx) {
        PutKeeps(c, p.txs, tx);
      }
    case OpBatch(txs, prevalidated) => BatchKeeps(c, p, txs, prevalidated);
    case OpRaw(tx) =>
      if !Has(p.txs, tx.hash) && tx.fee >= c.minFee {
        PutKeeps(c, p.txs, tx);
      }
    case OpRemove(hash) => WithoutKeeps(c, p.txs, hash);
  }

  /** After any run: distinct keys, each its transaction's hash, every fee at least the
      minimum, and no more than max(max_size, 10) entries. */
  lemma {:induction false} ReplayKeeps(c: Config, ops: seq<Op>)
    ensures Good(c, Replay(c, ops).txs)
    decreases |ops|
  {
    if ops != [] {
      ReplayKeeps(c, ops[..|ops| - 1]);
      ApplyKeeps(c, Replay(c, ops[..|ops| - 1]), ops[|ops| - 1]);
    }
  }

  // ---------------------------------------------------------------- eviction and selection

  lemma {:induction false} PayingFees(s: seq<Tx>, floor: real)
    ensures Fees(Paying(s, floor)) == AtLeast(Fees(s), floor)
    decreases |s|
  {
    if s != [] {
      var front, last := s[..|s| - 1], s[|s| - 1];
      PayingFees(front, floor);
      assert Fees(s)[..|s| - 1] == Fees(front);
    }
  }

  lemma BestFees(txs: seq<Entry>, limit: nat, floor: real)
    ensures Fees(Best(txs, limit, floor)) == Take(AtLeast(Fees(Sorted(Values(txs), false)), floor), limit)
  {
    PayingFees(Sorted(Values(txs), false), floor);
  }

  /** Evicted transactions are no dearer than any that stay. */
  lemma EvictedAreCheapest(c: Config, txs: seq<Entry>, gone: Entry, stays: Entry)
    requires Good(c, txs) && |txs| >= c.maxSize
    requires gone in txs && gone !in Evict(c, txs) && stays in Evict(c, txs)
    ensures gone.tx.fee <= stays.tx.fee
  {
    hide Evict, Sorted, Values, Good;
    var k, up, kept := |txs| / 10, Sorted(Values(txs), true), Evict(c, txs);
    EvictKeeps(c, txs);
    GoneIsTaken(c, txs, gone);
    SortedSorts(Values(txs), true);
    EntryValue(kept, stays);
    assert stays.tx in multiset(up[k..]);
    CheaperFirst(up, k, gone.tx, stays.tx);
  }

  lemma EntryValue(txs: seq<Entry>, e: Entry)
    requires e in txs
    ensures e.tx in multiset(Values(txs))
  {
    var i :| 0 <= i < |txs| && txs[i] == e;
    assert Values(txs)[i] == e.tx;
  }

  /** What an eviction removes is among the cheapest tenth. */
  lemma GoneIsTaken(c: Config, txs: seq<Entry>, gone: Entry)
    requires Good(c, txs) && |txs| >= c.maxSize && gone in txs && gone !in Evict(c, txs)
    ensures |Sorted(Values(txs), true)| == |txs|
    ensures gone.tx in Sorted(Values(txs), true)[..|txs| / 10]
  {
    hide Evict, Sorted, Values;
    EvictKeeps(c, txs);
    TakenFromSorted(txs, |txs| / 10);
    EntryValue(txs, gone);
    KeptEntry(Evict(c, txs), gone.tx);
    var i :| 0 <= i < |txs| && txs[i] == gone;
    assert gone == Entry(gone.tx.hash, gone.tx);
  }

  lemma CheaperFirst(up: seq<Tx>, k: nat, x: Tx, y: Tx)
    requires InOrder(up, true) && k <= |up| && x in up[..k] && y in up[k..]
    ensures x.fee <= y.fee
  {
    var a :| 0 <= a < k && up[a] == x;
    var b :| 0 <= b < |up[k..]| && up[k..][b] == y;
    assert Before(up[a].fee, up[k + b].fee, true);
  }

  lemma KeptEntry(kept: seq<Entry>, tx: Tx)
    requires Keyed(kept)
    ensures tx in multiset(Values(kept)) ==> Entry(tx.hash, tx) in kept
  {
    if tx in multiset(Values(kept)) {
      assert tx in Values(kept);
      var j :| 0 <= j < |kept| && Values(kept)[j] == tx;
      assert kept[j] == Entry(tx.hash, tx);
    }
  }

  /** For every k up to the number of survivors and every fee floor, the fees that
      get(k, floor) returns are the same before and after an eviction. */
  lemma EvictionSparesTheBest(c: Config, txs: seq<Entry>, k: nat, floor: real)
    requires Good(c, txs) && |txs| >= c.maxSize && k <= |Evict(c, txs)|
    ensures Fees(Best(Evict(c, txs), k, floor)) == Fees(Best(txs, k, floor))
  {
    EvictKeeps(c, txs);
    hide Evict;
    var n, kept := |txs| / 10, Evict(c, txs);
    TakenFromSorted(txs, n);
    CheapestDropped(Values(txs), Values(kept), n);
    BestFees(txs, k, floor);
    BestFees(kept, k, floor);
    SortedSorts(Values(txs), false);
    TopOfPrefix(Fees(Sorted(Values(txs), false)), |kept|, floor, k);
  }

  /** get(k, floor) returns the dearest: it is fee-descending, drawn from the pool, and
      any pool transaction left out is below the floor or no dearer than all returned. */
  lemma BestIsBest(txs: seq<Entry>, k: nat, floor: real, tx: Tx)
    ensures var best := Best(txs, k, floor);
      && |best| <= k && Descending(Fees(best)) && multiset(best) <= multiset(Values(txs))
      && (multiset(best)[tx] < multiset(Values(txs))[tx] && tx.fee >= floor ==>
            |best| == k && forall b :: b in best ==> b.fee >= tx.fee)
  {
    var down := Sorted(Values(txs), false);
    SortedSorts(Values(txs), false);
    PayingIsPrefix(down, floor);
    hide Sorted, Paying, InOrder;
    PrefixIsBest(down, Best(txs, k, floor), tx);
    var best := Best(txs, k, floor);
    if multiset(best)[tx] < multiset(Values(txs))[tx] && tx.fee >= floor {
      var j :| |best| <= j < |down| && down[j] == tx;
      assert |best| < |Paying(down, floor)|;
    }
  }

  lemma PrefixIsBest(down: seq<Tx>, best: seq<Tx>, tx: Tx)
    requires InOrder(down, false) && best <= down
    ensures Descending(Fees(best)) && multiset(best) <= multiset(down)
    ensures multiset(best)[tx] < multiset(down)[tx] ==>
      (exists j :: |best| <= j < |down| && down[j] == tx) && forall b :: b in best ==> b.fee >= tx.fee
  {
    assert Descending(Fees(best)) by {
      assert forall i, j :: 0 <= i < j < |best| ==> Before(down[i].fee, down[j].fee, false);
    }
    var tail := down[|best|..];
    assert down == best + tail;
    assert multiset(down) == multiset(best) + multiset(tail);
    if multiset(best)[tx] < multiset(down)[tx] {
      assert tx in tail;
      var i :| 0 <= i < |tail| && tail[i] == tx;
      assert down[|best| + i] == tx;
      forall b | b in best ensures b.fee >= tx.fee {
        var a :| 0 <= a < |best| && best[a] == b;
        assert Before(down[a].fee, down[|best| + i].fee, false);
      }
    }
  }

  lemma {:induction false} PayingIsPrefix(s: seq<Tx>, floor: real)
    requires InOrder(s, false)
    ensures Paying(s, floor) <= s
    ensures forall i :: |Paying(s, floor)| <= i < |s| ==> s[i].fee < floor
    decreases |s|
  {
    if s != [] {
      PayingIsPrefix(s[..|s| - 1], floor);
      var front := s[..|s| - 1];
      var last := s[|s| - 1];
      assert |Paying(front, floor)| < |front| ==> Before(s[|Paying(front, floor)|].fee, last.fee, false);
    }
  }
}
