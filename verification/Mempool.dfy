/** The pool of unconfirmed transactions (blockchain/mempool.py). The dict of
    transactions is the sequence of its entries in insertion order. */
module Mempool {
  import opened Wrappers
  import opened FeeOrder

  datatype Entry = Entry(key: string, tx: Tx)

  /** What is signed. */
  datatype Payload = Payload(fromAddr: string, toAddr: string, value: real, nonce: int, chainId: int,
                             signature: string, publicKey: string, data: string, gasLimit: int)

  /** middleware/validators.py, when it can be imported. */
  datatype Validators = Validators(addressOk: string -> bool, amountOk: real -> bool)

  datatype Config = Config(
    maxSize: int, minFee: real, chainId: int, requireSignatures: bool,
    validators: Option<Validators>,
    verify: Option<Payload -> bool>,      // ECDSA, when it can be imported
    blockchain: Option<Tx -> bool>)       // validate_transaction, when a chain is attached

  datatype Pool = Pool(txs: seq<Entry>, rejected: int)

  predicate Has(txs: seq<Entry>, key: string) {
    exists i :: 0 <= i < |txs| && txs[i].key == key
  }

  function Values(txs: seq<Entry>): (v: seq<Tx>)
    ensures |v| == |txs|
    ensures forall i :: 0 <= i < |txs| ==> v[i] == txs[i].tx
  {
    seq(|txs|, i requires 0 <= i < |txs| => txs[i].tx)
  }

  function Without(txs: seq<Entry>, key: string): seq<Entry> {
    if txs == [] then []
    else if txs[0].key == key then txs[1..]
    else [txs[0]] + Without(txs[1..], key)
  }

  // ---------------------------------------------------------------- validation

  function PayloadOf(tx: Tx, chainId: int): Payload {
    Payload(tx.fromAddr, tx.toAddr, tx.amount, tx.nonce, chainId, tx.signature, tx.publicKey, tx.data,
            if tx.gas == 0 then 21000 else tx.gas)
  }

  predicate FormatOk(c: Config, tx: Tx) {
    && tx.hash != "" && tx.fee >= c.minFee
    && (c.validators.Some? ==>
          && (c.validators.value.addressOk(tx.fromAddr) || |tx.fromAddr| >= 5)
          && (c.validators.value.addressOk(tx.toAddr) || |tx.toAddr| >= 5))
    && tx.amount >= 0.0
    && (c.validators.Some? && tx.amount > 0.0 ==> c.validators.value.amountOk(tx.amount))
  }

  /** An unsigned transaction passes only when signatures are not required. */
  predicate SignedOk(c: Config, tx: Tx, chainId: int) {
    if tx.signature == "" then !c.requireSignatures
    else tx.publicKey != "" && c.verify.Some? && c.verify.value(PayloadOf(tx, chainId))
  }

  /** `_chain_id or 1`: a transaction checked alone reads chain id 0 as 1. */
  function ChainIdAlone(c: Config): int {
    if c.chainId == 0 then 1 else c.chainId
  }

  predicate SignatureAlone(c: Config, tx: Tx) {
    SignedOk(c, tx, ChainIdAlone(c))
  }

  predicate SignatureInBatch(c: Config, tx: Tx) {
    SignedOk(c, tx, c.chainId)
  }

  predicate ChainOk(c: Config, tx: Tx, prevalidated: bool) {
    c.blockchain.Some? && !prevalidated ==> c.blockchain.value(tx)
  }

  // ---------------------------------------------------------------- the operations

  function RemoveAll(txs: seq<Entry>, gone: seq<Tx>): seq<Entry>
    decreases |gone|
  {
    if gone == [] then txs else Without(RemoveAll(txs, gone[..|gone| - 1]), gone[|gone| - 1].hash)
  }

  /** The cheapest tenth leaves, unless less than four fifths of the room is used. */
  function Evict(c: Config, txs: seq<Entry>): seq<Entry> {
    if 10 * |txs| < 8 * c.maxSize then txs
    else RemoveAll(txs, Take(Sorted(Values(txs), true), |txs| / 10))
  }

  function Put(c: Config, txs: seq<Entry>, tx: Tx): seq<Entry> {
    (if |txs| >= c.maxSize then Evict(c, txs) else txs) + [Entry(tx.hash, tx)]
  }

  /** add, when the signature check comes out as sigOk. */
  function SubmitChecked(c: Config, p: Pool, tx: Tx, sigOk: bool, prevalidated: bool): (Pool, bool) {
    if Has(p.txs, tx.hash) then (p, false)
    else if !FormatOk(c, tx) || !sigOk || !ChainOk(c, tx, prevalidated) then
      (p.(rejected := p.rejected + 1), false)
    else (p.(txs := Put(c, p.txs, tx)), true)
  }

  function Submit(c: Config, p: Pool, tx: Tx, preverified: bool, prevalidated: bool): (Pool, bool) {
    SubmitChecked(c, p, tx, preverified || SignatureAlone(c, tx), prevalidated)
  }

  function SubmitRaw(c: Config, p: Pool, tx: Tx): (Pool, bool) {
    if Has(p.txs, tx.hash) || tx.fee < c.minFee then (p, false)
    else (p.(txs := Put(c, p.txs, tx)), true)
  }

  datatype Tally = Tally(pool: Pool, added: nat, rejected: nat, hashes: seq<string>)

  /** add on each transaction in turn, counting. */
  function SubmitEach(c: Config, p: Pool, txs: seq<Tx>, prevalidated: bool): Tally
    decreases |txs|
  {
    if txs == [] then Tally(p, 0, 0, [])
    else
      var t, tx := SubmitEach(c, p, txs[..|txs| - 1], prevalidated), txs[|txs| - 1];
      Count(t, tx, Submit(c, t.pool, tx, false, prevalidated))
  }

  /** add_batch: signatures first, then add without a signature check. */
  function SubmitBatch(c: Config, p: Pool, txs: seq<Tx>, prevalidated: bool): Tally
    decreases |txs|
  {
    if txs == [] then Tally(p, 0, 0, [])
    else
      var t, tx := SubmitBatch(c, p, txs[..|txs| - 1], prevalidated), txs[|txs| - 1];
      Count(t, tx, if SignatureInBatch(c, tx) then Submit(c, t.pool, tx, true, prevalidated)
                   else (t.pool.(rejected := t.pool.rejected + 1), false))
  }

  function Count(t: Tally, tx: Tx, r: (Pool, bool)): Tally {
    if r.1 then Tally(r.0, t.added + 1, t.rejected, t.hashes + [tx.hash])
    else Tally(r.0, t.added, t.rejected + 1, t.hashes)
  }

  /** s[:limit] in Python, where a negative limit counts from the end. */
  function UpTo<T>(s: seq<T>, limit: int): seq<T> {
    if limit >= 0 then Take(s, limit)
    else if |s| + limit >= 0 then s[..|s| + limit]
    else []
  }

  function Paying(s: seq<Tx>, floor: real): seq<Tx>
    decreases |s|
  {
    if s == [] then []
    else Paying(s[..|s| - 1], floor) + (if s[|s| - 1].fee >= floor then [s[|s| - 1]] else [])
  }

  function Best(txs: seq<Entry>, limit: int, floor: real): seq<Tx> {
    UpTo(Paying(Sorted(Values(txs), false), floor), limit)
  }

  // ---------------------------------------------------------------- the object

  class Mempool {
    const config: Config
    var transactions: seq<Entry>
    var rejectedCount: int

    constructor (config: Config)
      ensures this.config == config && Value() == Pool([], 0)
    {
      this.config := config;
      transactions, rejectedCount := [], 0;
    }

    function Value(): Pool
      reads this
    {
      Pool(transactions, rejectedCount)
    }

    method Add(tx: Tx, preverified: bool, prevalidated: bool) returns (ok: bool)
      modifies this
      ensures (Value(), ok) == Submit(config, old(Value()), tx, preverified, prevalidated)
    {
      if Has(transactions, tx.hash) {
        return false;
      }
      if !FormatOk(config, tx) {
        rejectedCount := rejectedCount + 1;
        return false;
      }
      if !preverified && !SignatureAlone(config, tx) {
        rejectedCount := rejectedCount + 1;
        return false;
      }
      if config.blockchain.Some? && !prevalidated {
        if !config.blockchain.value(tx) {
          rejectedCount := rejectedCount + 1;
          return false;
        }
      }
      if |transactions| >= config.maxSize {
        Cleanup();
      }
      transactions := transactions + [Entry(tx.hash, tx)];
      return true;
    }

    /** Signed transactions are gathered with their positions, checked in one call and
        written back by position. */
    method VerifySignaturesBatch(txs: seq<Tx>) returns (results: seq<bool>)
      ensures |results| == |txs|
      ensures forall i :: 0 <= i < |txs| ==> results[i] == SignatureInBatch(config, txs[i])
    {
      results := seq(|txs|, _ => false);
      if txs == [] {
        return;
      }
      var payloads: seq<Payload>, indexes: seq<nat> := [], [];
      for index := 0 to |txs|
        invariant |results| == |txs| && |payloads| == |indexes|
        invariant Gathered(config, txs, payloads, indexes, index)
        invariant forall i :: 0 <= i < |txs| && (i in indexes || i >= index) ==> !results[i]
        invariant forall i :: 0 <= i < index && i !in indexes ==> results[i] == SignatureInBatch(config, txs[i])
      {
        var tx := txs[index];
        if tx.signature == "" {
          results := results[index := !config.requireSignatures];
        } else if tx.publicKey != "" {
          payloads := payloads + [PayloadOf(tx, config.chainId)];
          indexes := indexes + [index];
        }
      }
      if payloads != [] && config.verify.Some? {
        var verified := seq(|payloads|, j requires 0 <= j < |payloads| => config.verify.value(payloads[j]));
        results := WriteBack(results, indexes, verified);
        forall i | 0 <= i < |txs| && i in indexes ensures results[i] == SignatureInBatch(config, txs[i]) {
          var k :| 0 <= k < |indexes| && indexes[k] == i;
          assert results[indexes[k]] == verified[k];
        }
      }
    }

    /** for index, ok in zip(indexes, verified): results[index] = ok */
    method WriteBack(results: seq<bool>, indexes: seq<nat>, verified: seq<bool>) returns (r: seq<bool>)
      requires |verified| == |indexes|
      requires forall j :: 0 <= j < |indexes| ==> indexes[j] < |results|
      requires forall j, k :: 0 <= j < k < |indexes| ==> indexes[j] < indexes[k]
      ensures |r| == |results|
      ensures forall i :: 0 <= i < |results| && i !in indexes ==> r[i] == results[i]
      ensures forall k :: 0 <= k < |indexes| ==> r[indexes[k]] == verified[k]
    {
      r := results;
      for j := 0 to |indexes|
        invariant |r| == |results|
        invariant forall i :: 0 <= i < |results| && i !in indexes[..j] ==> r[i] == results[i]
        invariant forall k :: 0 <= k < j ==> r[indexes[k]] == verified[k]
      {
        r := r[indexes[j] := verified[j]];
      }
    }

    method AddBatch(txs: seq<Tx>, prevalidated: bool) returns (added: nat, rejected: nat, hashes: seq<string>)
      modifies this
      ensures Tally(Value(), added, rejected, hashes) == SubmitBatch(config, old(Value()), txs, prevalidated)
    {
      added, rejected, hashes := 0, 0, [];
      if txs == [] {
        return;
      }
      var flags := VerifySignaturesBatch(txs);
      for i := 0 to |txs|
        invariant Tally(Value(), added, rejected, hashes)
               == SubmitBatch(config, old(Value()), txs[..i], prevalidated)
      {
        assert txs[..i + 1][..i] == txs[..i];
        if !flags[i] {
          rejectedCount := rejectedCount + 1;
          rejected := rejected + 1;
          continue;
        }
        var ok := Add(txs[i], true, prevalidated);
        if ok {
          added := added + 1;
          hashes := hashes + [txs[i].hash];
        } else {
          rejected := rejected + 1;
        }
      }
      assert txs[..|txs|] == txs;
    }

    method AddRaw(tx: Tx) returns (ok: bool)
      modifies this`transactions
      ensures (Value(), ok) == SubmitRaw(config, old(Value()), tx)
    {
      if Has(transactions, tx.hash) {
        return false;
      }
      if tx.fee < config.minFee {
        return false;
      }
      if |transactions| >= config.maxSize {
        Cleanup();
      }
      transactions := transactions + [Entry(tx.hash, tx)];
      return true;
    }

    method Get(limit: int, floor: real) returns (best: seq<Tx>)
      ensures best == Best(transactions, limit, floor)
    {
      var sorted := Sorted(Values(transactions), false);
      best := [];
      for i := 0 to |sorted|
        invariant best == Paying(sorted[..i], floor)
      {
        assert sorted[..i + 1][..i] == sorted[..i];
        if sorted[i].fee >= floor {
          best := best + [sorted[i]];
        }
      }
      assert sorted[..|sorted|] == sorted;
      best := UpTo(best, limit);
    }

    method Remove(hash: string) returns (found: bool)
      modifies this`transactions
      ensures found == Has(old(transactions), hash)
      ensures transactions == Without(old(transactions), hash)
    {
      found := Has(transactions, hash);
      transactions := Without(transactions, hash);
    }

    method Cleanup()
      modifies this`transactions
      ensures transactions == Evict(config, old(transactions))
    {
      if 10 * |transactions| < 8 * config.maxSize {
        return;
      }
      var gone := Take(Sorted(Values(transactions), true), |transactions| / 10);
      for i := 0 to |gone|
        invariant transactions == RemoveAll(old(transactions), gone[..i])
      {
        assert gone[..i + 1][..i] == gone[..i];
        transactions := Without(transactions, gone[i].hash);
      }
      assert gone[..|gone|] == gone;
    }
  }

  /** The payloads stand at the indexes of the signed transactions before n, in order. */
  ghost predicate Gathered(c: Config, txs: seq<Tx>, payloads: seq<Payload>, indexes: seq<nat>, n: nat)
    requires n <= |txs| && |payloads| == |indexes|
  {
    && (forall j :: 0 <= j < |indexes| ==>
          && indexes[j] < n && txs[indexes[j]].signature != "" && txs[indexes[j]].publicKey != ""
          && payloads[j] == PayloadOf(txs[indexes[j]], c.chainId))
    && (forall j, k :: 0 <= j < k < |indexes| ==> indexes[j] < indexes[k])
  }
}
