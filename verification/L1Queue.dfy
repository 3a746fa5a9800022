/** The bounded queue of L1 proofs the relayer watches (bridge/abs_bridge.py): outbound
    entries looked up by the hash of their lock, incoming entries kept distinct. */
module L1Queue {

  const QUEUE_LIMIT := 500

  datatype Outbound = Outbound(absTxHash: string, l1TxHash: string, chain: string)

  datatype Incoming = Incoming(l1TxHash: string, txId: string, recipient: string, amount: real, fromChain: string)

  /** s[-limit:] */
  function Last<T>(s: seq<T>, limit: nat): seq<T> {
    if |s| > limit then s[|s| - limit..] else s
  }

  /** [e for e in queue if e.abs_tx_hash != hash] */
  function Others(queue: seq<Outbound>, hash: string): seq<Outbound>
    decreases |queue|
  {
    if queue == [] then []
    else
      var last := queue[|queue| - 1];
      Others(queue[..|queue| - 1], hash) + if last.absTxHash != hash then [last] else []
  }

  function Enqueue(queue: seq<Outbound>, e: Outbound): seq<Outbound> {
    Last(Others(queue, e.absTxHash) + [e], QUEUE_LIMIT)
  }

  /** The first entry under the hash, or "". */
  function Lookup(queue: seq<Outbound>, hash: string): string {
    if queue == [] then ""
    else if queue[0].absTxHash == hash then queue[0].l1TxHash
    else Lookup(queue[1..], hash)
  }

  function OthersIncoming(queue: seq<Incoming>, l1TxHash: string, txId: string): seq<Incoming>
    decreases |queue|
  {
    if queue == [] then []
    else
      var last := queue[|queue| - 1];
      OthersIncoming(queue[..|queue| - 1], l1TxHash, txId)
      + if last.l1TxHash != l1TxHash && last.txId != txId then [last] else []
  }

  function EnqueueIncoming(queue: seq<Incoming>, l1TxHash: string, recipient: string, amount: real,
                           fromChain: string, txId: string): seq<Incoming>
  {
    if l1TxHash == "" || recipient == "" || amount <= 0.0 then queue
    else
      var id := if txId != "" then txId else l1TxHash;
      Last(OthersIncoming(queue, l1TxHash, id) + [Incoming(l1TxHash, id, recipient, amount, fromChain)], QUEUE_LIMIT)
  }

  // ---------------------------------------------------------------- the file

  /** The queue file, rewritten as a whole by each call. */
  class QueueFile {
    var outbound: seq<Outbound>
    var incoming: seq<Incoming>

    constructor ()
      ensures outbound == [] && incoming == []
    {
      outbound, incoming := [], [];
    }

    method EnqueueOutbound(e: Outbound)
      modifies this`outbound
      ensures outbound == Enqueue(old(outbound), e)
    {
      var kept := [];
      for i := 0 to |outbound|
        invariant outbound == old(outbound) && kept == Others(outbound[..i], e.absTxHash)
      {
        assert outbound[..i + 1][..i] == outbound[..i];
        if outbound[i].absTxHash != e.absTxHash {
          kept := kept + [outbound[i]];
        }
      }
      assert outbound[..|outbound|] == outbound;
      kept := kept + [e];
      outbound := if |kept| > QUEUE_LIMIT then kept[|kept| - QUEUE_LIMIT..] else kept;
    }

    method LookupOutbound(hash: string) returns (l1TxHash: string)
      ensures l1TxHash == Lookup(outbound, hash)
    {
      for i := 0 to |outbound|
        invariant Lookup(outbound, hash) == Lookup(outbound[i..], hash)
      {
        assert outbound[i..][1..] == outbound[i + 1..];
        if outbound[i].absTxHash == hash {
          return outbound[i].l1TxHash;
        }
      }
      return "";
    }

    method AddIncoming(l1TxHash: string, recipient: string, amount: real, fromChain: string, txId: string)
      modifies this`incoming
      ensures incoming == EnqueueIncoming(old(incoming), l1TxHash, recipient, amount, fromChain, txId)
    {
      if l1TxHash == "" || recipient == "" || amount <= 0.0 {
        return;
      }
      var id := if txId != "" then txId else l1TxHash;
      var kept := [];
      for i := 0 to |incoming|
        invariant incoming == old(incoming) && kept == OthersIncoming(incoming[..i], l1TxHash, id)
      {
        assert incoming[..i + 1][..i] == incoming[..i];
        if incoming[i].l1TxHash != l1TxHash && incoming[i].txId != id {
          kept := kept + [incoming[i]];
        }
      }
      assert incoming[..|incoming|] == incoming;
      kept := kept + [Incoming(l1TxHash, id, recipient, amount, fromChain)];
      incoming := if |kept| > QUEUE_LIMIT then kept[|kept| - QUEUE_LIMIT..] else kept;
    }
  }

  // ---------------------------------------------------------------- a recency map

  /** The queue after a history of enqueues. */
  function Queue(log: seq<Outbound>): seq<Outbound>
    decreases |log|
  {
    if log == [] then [] else Enqueue(Queue(log[..|log| - 1]), log[|log| - 1])
  }

  /** The same without the limit: each hash once, ordered by its last enqueue. */
  function Recency(log: seq<Outbound>): seq<Outbound>
    decreases |log|
  {
    if log == [] then []
    else Others(Recency(log[..|log| - 1]), log[|log| - 1].absTxHash) + [log[|log| - 1]]
  }

  predicate DistinctHashes(s: seq<Outbound>) {
    forall i, j :: 0 <= i < j < |s| ==> s[i].absTxHash != s[j].absTxHash
  }

  predicate HasHash(s: seq<Outbound>, hash: string) {
    exists i :: 0 <= i < |s| && s[i].absTxHash == hash
  }

  lemma {:induction false} OthersElements(s: seq<Outbound>, hash: string)
    ensures forall e :: e in Others(s, hash) <==> e in s && e.absTxHash != hash
    decreases |s|
  {
    if s != [] {
      OthersElements(s[..|s| - 1], hash);
      assert s == s[..|s| - 1] + [s[|s| - 1]];
    }
  }

  lemma {:induction false} OthersDistinct(s: seq<Outbound>, hash: string)
    requires DistinctHashes(s)
    ensures DistinctHashes(Others(s, hash))
    decreases |s|
  {
    if s != [] {
      var front, last := s[..|s| - 1], s[|s| - 1];
      OthersDistinct(front, hash);
      OthersElements(front, hash);
      forall i | 0 <= i < |Others(front, hash)| ensures Others(front, hash)[i].absTxHash != last.absTxHash {
        assert Others(front, hash)[i] in front;
      }
    }
  }

  lemma {:induction false} NoneToDrop(s: seq<Outbound>, hash: string)
    requires !HasHash(s, hash)
    ensures Others(s, hash) == s
    decreases |s|
  {
    if s != [] {
      var front, last := s[..|s| - 1], s[|s| - 1];
      HashInPrefix(s, |s| - 1, hash);
      NoneToDrop(front, hash);
      assert last.absTxHash != hash;
    }
  }

  lemma HashInPrefix(s: seq<Outbound>, k: nat, hash: string)
    requires k <= |s|
    ensures HasHash(s[..k], hash) ==> HasHash(s, hash)
  {
    if HasHash(s[..k], hash) {
      var i :| 0 <= i < |s[..k]| && s[..k][i].absTxHash == hash;
      assert s[i].absTxHash == hash;
    }
  }

  /** A distinct list with a hash at i, filtered, is the list without i. */
  lemma {:induction false} OthersAt(s: seq<Outbound>, hash: string, i: nat)
    requires DistinctHashes(s) && i < |s| && s[i].absTxHash == hash
    ensures Others(s, hash) == s[..i] + s[i + 1..]
    decreases |s|
  {
    var front, last := s[..|s| - 1], s[|s| - 1];
    if i == |s| - 1 {
      NoneToDrop(front, hash);
    } else {
      OthersAt(front, hash, i);
      assert s[i + 1..] == front[i + 1..] + [last];
    }
  }

  lemma HashInSuffix(s: seq<Outbound>, k: nat, hash: string)
    requires k <= |s|
    ensures HasHash(s[k..], hash) ==> HasHash(s, hash)
  {
    if HasHash(s[k..], hash) {
      var i :| 0 <= i < |s[k..]| && s[k..][i].absTxHash == hash;
      assert s[k + i].absTxHash == hash;
    }
  }

  lemma DropOlder(s: seq<Outbound>, e: Outbound, i: nat, k: nat)
    requires i < k <= |s|
    ensures (s[..i] + s[i + 1..] + [e])[k..] == (s[k..] + [e])[1..]
  {
  }

  lemma DropWithin(s: seq<Outbound>, e: Outbound, i: nat, k: nat)
    requires k <= i < |s|
    ensures (s[..i] + s[i + 1..] + [e])[k..] == s[k..][..i - k] + s[k..][i - k + 1..] + [e]
  {
  }

  lemma HashGone(s: seq<Outbound>, i: nat, k: nat)
    requires DistinctHashes(s) && i < k <= |s|
    ensures !HasHash(s[k..], s[i].absTxHash)
  {
  }

  lemma TruncationWithin(s: seq<Outbound>, e: Outbound, limit: nat, i: nat)
    requires DistinctHashes(s) && 0 < limit < |s| && |s| - limit <= i < |s| && s[i].absTxHash == e.absTxHash
    ensures Last(Others(Last(s, limit), e.absTxHash) + [e], limit) == Last(Others(s, e.absTxHash) + [e], limit)
  {
    hide Others, HasHash;
    var k := |s| - limit;
    OthersAt(s, e.absTxHash, i);
    DropWithin(s, e, i, k);
    OthersAt(s[k..], e.absTxHash, i - k);
  }

  lemma TruncationBefore(s: seq<Outbound>, e: Outbound, limit: nat, i: nat)
    requires DistinctHashes(s) && 0 < limit < |s| && i < |s| - limit && s[i].absTxHash == e.absTxHash
    ensures Last(Others(Last(s, limit), e.absTxHash) + [e], limit) == Last(Others(s, e.absTxHash) + [e], limit)
  {
    hide Others, HasHash, Last;
    var k := |s| - limit;
    OthersAt(s, e.absTxHash, i);
    HashGone(s, i, k);
    NoneToDrop(s[k..], e.absTxHash);
    hide DistinctHashes;
    var o, t := s[..i] + s[i + 1..] + [e], s[k..] + [e];
    LastIs(s, limit, k);
    LastIs(t, limit, 1);
    LastIs(o, limit, k);
    DropOlder(s, e, i, k);
  }

  lemma LastIs(s: seq<Outbound>, limit: nat, k: nat)
    requires |s| == limit + k
    ensures Last(s, limit) == s[k..]
  {
  }

  /** Truncating before the next enqueue changes nothing that it would have kept. */
  lemma TruncationCommutes(s: seq<Outbound>, e: Outbound, limit: nat)
    requires DistinctHashes(s) && limit > 0
    ensures Last(Others(Last(s, limit), e.absTxHash) + [e], limit) == Last(Others(s, e.absTxHash) + [e], limit)
  {
    hide Others;
    if |s| > limit && HasHash(s, e.absTxHash) {
      hide Last, DistinctHashes;
      var i :| 0 <= i < |s| && s[i].absTxHash == e.absTxHash;
      if i >= |s| - limit {
        TruncationWithin(s, e, limit, i);
      } else {
        TruncationBefore(s, e, limit, i);
      }
    } else if |s| > limit {
      HashInSuffix(s, |s| - limit, e.absTxHash);
      NoneToDrop(s, e.absTxHash);
      NoneToDrop(s[|s| - limit..], e.absTxHash);
      hide HasHash, DistinctHashes;
    }
  }

  /** The bounded queue is the last 500 of the unbounded one. */
  lemma {:induction false} QueueIsLast(log: seq<Outbound>)
    ensures DistinctHashes(Recency(log)) && Queue(log) == Last(Recency(log), QUEUE_LIMIT)
    decreases |log|
  {
    if log != [] {
      var front, e := log[..|log| - 1], log[|log| - 1];
      QueueIsLast(front);
      OthersDistinct(Recency(front), e.absTxHash);
      OthersElements(Recency(front), e.absTxHash);
      TruncationCommutes(Recency(front), e, QUEUE_LIMIT);
    }
  }

  /** The other hashes enqueued after the last enqueue of this one. */
  function Since(log: seq<Outbound>, hash: string): set<string>
    decreases |log|
  {
    if log == [] || log[|log| - 1].absTxHash == hash then {}
    else Since(log[..|log| - 1], hash) + {log[|log| - 1].absTxHash}
  }

  /** The proof enqueued last for this hash. */
  function Latest(log: seq<Outbound>, hash: string): string
    decreases |log|
  {
    if log == [] then ""
    else if log[|log| - 1].absTxHash == hash then log[|log| - 1].l1TxHash
    else Latest(log[..|log| - 1], hash)
  }

  function HashesOf(s: seq<Outbound>): set<string> {
    set e | e in s :: e.absTxHash
  }

  lemma {:induction false} DistinctSize(s: seq<Outbound>)
    requires DistinctHashes(s)
    ensures |HashesOf(s)| == |s|
    decreases |s|
  {
    if s != [] {
      var front, last := s[..|s| - 1], s[|s| - 1];
      DistinctSize(front);
      assert s == front + [last];
      assert HashesOf(s) == HashesOf(front) + {last.absTxHash};
      assert last.absTxHash !in HashesOf(front);
    }
  }

  /** What follows another entry after filtering. */
  lemma {:induction false} OthersAfter(s: seq<Outbound>, hash: string, j: nat) returns (i: nat)
    requires j < |s| && s[j].absTxHash != hash
    ensures i < |Others(s, hash)| && Others(s, hash)[i] == s[j]
    ensures HashesOf(Others(s, hash)[i + 1..]) == HashesOf(s[j + 1..]) - {hash}
    decreases |s|
  {
    hide HashesOf;
    var front, last := s[..|s| - 1], s[|s| - 1];
    if j == |s| - 1 {
      i := |Others(s, hash)| - 1;
      NoHashes();
      assert Others(s, hash)[i + 1..] == [] && s[j + 1..] == [];
    } else {
      i := OthersAfter(front, hash, j);
      assert s[j + 1..] == front[j + 1..] + [last];
      HashesAppend(front[j + 1..], last);
      HashesAppend(Others(front, hash)[i + 1..], last);
      if last.absTxHash != hash {
        assert Others(s, hash)[i + 1..] == Others(front, hash)[i + 1..] + [last];
      } else {
        assert Others(s, hash) == Others(front, hash);
      }
    }
  }

  lemma NoHashes()
    ensures HashesOf([]) == {}
  {
  }

  lemma HashesAppend(s: seq<Outbound>, e: Outbound)
    ensures HashesOf(s + [e]) == HashesOf(s) + {e.absTxHash}
  {
    assert forall h :: h in HashesOf(s) ==> h in HashesOf(s + [e]) by {
      forall x | x in s ensures x in s + [e] {
      }
    }
  }

  /** In the unbounded queue a hash stands just before those enqueued since. */
  lemma {:induction false} RecencyPosition(log: seq<Outbound>, hash: string) returns (i: nat)
    requires HasHash(log, hash)
    ensures i < |Recency(log)| && Recency(log)[i].absTxHash == hash
    ensures Recency(log)[i].l1TxHash == Latest(log, hash)
    ensures HashesOf(Recency(log)[i + 1..]) == Since(log, hash)
    decreases |log|
  {
    hide Others;
    var front, e := log[..|log| - 1], log[|log| - 1];
    var all := Recency(log);
    if e.absTxHash == hash {
      i := |all| - 1;
    } else {
      var k :| 0 <= k < |log| && log[k].absTxHash == hash;
      assert front[k].absTxHash == hash;
      var j := RecencyPosition(front, hash);
      i := OthersAfter(Recency(front), e.absTxHash, j);
      var rest := Others(Recency(front), e.absTxHash);
      assert all[i + 1..] == rest[i + 1..] + [e];
      HashesAppend(rest[i + 1..], e);
    }
  }

  lemma {:induction false} LookupFinds(s: seq<Outbound>, hash: string, i: nat)
    requires DistinctHashes(s) && i < |s| && s[i].absTxHash == hash
    ensures Lookup(s, hash) == s[i].l1TxHash
  {
    if i > 0 {
      LookupFinds(s[1..], hash, i - 1);
    }
  }

  lemma {:induction false} LookupMisses(s: seq<Outbound>, hash: string)
    requires !HasHash(s, hash)
    ensures Lookup(s, hash) == ""
  {
    if s != [] {
      assert s[0].absTxHash != hash;
      HashInSuffix(s, 1, hash);
      LookupMisses(s[1..], hash);
    }
  }

  lemma {:induction false} RecencyFromLog(log: seq<Outbound>)
    ensures forall e :: e in Recency(log) ==> e in log
    decreases |log|
  {
    if log != [] {
      RecencyFromLog(log[..|log| - 1]);
      OthersElements(Recency(log[..|log| - 1]), log[|log| - 1].absTxHash);
    }
  }

  lemma RecencyHashes(log: seq<Outbound>, hash: string)
    ensures HasHash(Recency(log), hash) ==> HasHash(log, hash)
  {
    RecencyFromLog(log);
    if HasHash(Recency(log), hash) {
      var i :| 0 <= i < |Recency(log)| && Recency(log)[i].absTxHash == hash;
      assert Recency(log)[i] in log;
    }
  }

  /** A lookup finds the proof enqueued last for the hash exactly while fewer than 500
      other hashes were enqueued since, and nothing otherwise. */
  lemma LookupIsRecent(log: seq<Outbound>, hash: string)
    ensures |Queue(log)| <= QUEUE_LIMIT && DistinctHashes(Queue(log))
    ensures Lookup(Queue(log), hash)
         == if HasHash(log, hash) && |Since(log, hash)| < QUEUE_LIMIT then Latest(log, hash) else ""
    ensures HasHash(Queue(log), hash) <==> HasHash(log, hash) && |Since(log, hash)| < QUEUE_LIMIT
  {
    QueueIsLast(log);
    hide Queue, Recency, Since, Latest, Lookup;
    var all, q := Recency(log), Queue(log);
    if HasHash(log, hash) {
      var i := RecencyPosition(log, hash);
      assert DistinctHashes(all[i + 1..]);
      DistinctSize(all[i + 1..]);
      var skipped := |all| - |q|;
      if i >= skipped {
        assert q[i - skipped] == all[i];
        LookupFinds(q, hash, i - skipped);
      } else {
        HashGone(all, i, skipped);
        LookupMisses(q, hash);
      }
    } else {
      RecencyHashes(log, hash);
      HashInSuffix(all, |all| - |q|, hash);
      LookupMisses(q, hash);
    }
  }

  // ---------------------------------------------------------------- incoming

  predicate DistinctIncoming(s: seq<Incoming>) {
    forall i, j :: 0 <= i < j < |s| ==> s[i].l1TxHash != s[j].l1TxHash && s[i].txId != s[j].txId
  }

  lemma {:induction false} OthersIncomingOk(s: seq<Incoming>, l1TxHash: string, txId: string)
    requires DistinctIncoming(s)
    ensures DistinctIncoming(OthersIncoming(s, l1TxHash, txId))
    ensures forall e :: e in OthersIncoming(s, l1TxHash, txId) <==> e in s && e.l1TxHash != l1TxHash && e.txId != txId
    decreases |s|
  {
    if s != [] {
      var front, last := s[..|s| - 1], s[|s| - 1];
      OthersIncomingOk(front, l1TxHash, txId);
      assert s == front + [last];
      forall i | 0 <= i < |OthersIncoming(front, l1TxHash, txId)|
        ensures OthersIncoming(front, l1TxHash, txId)[i].l1TxHash != last.l1TxHash
        ensures OthersIncoming(front, l1TxHash, txId)[i].txId != last.txId
      {
        assert OthersIncoming(front, l1TxHash, txId)[i] in front;
      }
    }
  }

  /** An enqueue keeps incoming entries distinct in both keys and at most 500, and puts
      the new one last. */
  lemma IncomingStaysDistinct(queue: seq<Incoming>, l1TxHash: string, recipient: string, amount: real,
                              fromChain: string, txId: string)
    requires DistinctIncoming(queue) && |queue| <= QUEUE_LIMIT
    ensures var q := EnqueueIncoming(queue, l1TxHash, recipient, amount, fromChain, txId);
      && DistinctIncoming(q) && |q| <= QUEUE_LIMIT
      && (l1TxHash != "" && recipient != "" && amount > 0.0 ==>
            q != [] && q[|q| - 1].l1TxHash == l1TxHash && q[|q| - 1].txId == if txId != "" then txId else l1TxHash)
  {
    hide OthersIncoming, Last;
    var id := if txId != "" then txId else l1TxHash;
    OthersIncomingOk(queue, l1TxHash, id);
    var kept := OthersIncoming(queue, l1TxHash, id);
    forall i | 0 <= i < |kept| ensures kept[i].l1TxHash != l1TxHash && kept[i].txId != id {
      assert kept[i] in kept;
    }
    DistinctTail(kept + [Incoming(l1TxHash, id, recipient, amount, fromChain)]);
  }

  lemma DistinctTail(s: seq<Incoming>)
    ensures DistinctIncoming(s) ==> DistinctIncoming(Last(s, QUEUE_LIMIT))
    ensures |Last(s, QUEUE_LIMIT)| <= QUEUE_LIMIT
    ensures s != [] ==> Last(s, QUEUE_LIMIT) != [] && Last(s, QUEUE_LIMIT)[|Last(s, QUEUE_LIMIT)| - 1] == s[|s| - 1]
  {
  }

  datatype IncomingCall = IncomingCall(l1TxHash: string, recipient: string, amount: real, fromChain: string,
                                       txId: string)

  /** The incoming queue after a history of calls. */
  function IncomingQueue(log: seq<IncomingCall>): seq<Incoming>
    decreases |log|
  {
    if log == [] then []
    else
      var c := log[|log| - 1];
      EnqueueIncoming(IncomingQueue(log[..|log| - 1]), c.l1TxHash, c.recipient, c.amount, c.fromChain, c.txId)
  }

  predicate Asks(c: IncomingCall) {
    c.l1TxHash != "" && c.recipient != "" && c.amount > 0.0
  }

  function EntryOf(c: IncomingCall): Incoming {
    Incoming(c.l1TxHash, if c.txId != "" then c.txId else c.l1TxHash, c.recipient, c.amount, c.fromChain)
  }

  /** After every sequence of calls the entries are distinct in both keys and at most 500,
      each comes from a call that asked for something, and the last such call's entry is
      the last of the queue. */
  lemma {:induction false} IncomingAlwaysDistinct(log: seq<IncomingCall>)
    ensures DistinctIncoming(IncomingQueue(log)) && |IncomingQueue(log)| <= QUEUE_LIMIT
    ensures forall e :: e in IncomingQueue(log) ==> exists c :: c in log && Asks(c) && e == EntryOf(c)
    ensures log != [] && Asks(log[|log| - 1]) ==>
      IncomingQueue(log) != [] && IncomingQueue(log)[|IncomingQueue(log)| - 1] == EntryOf(log[|log| - 1])
    decreases |log|
  {
    if log != [] {
      var front, c := log[..|log| - 1], log[|log| - 1];
      IncomingAlwaysDistinct(front);
      var q := IncomingQueue(front);
      IncomingStaysDistinct(q, c.l1TxHash, c.recipient, c.amount, c.fromChain, c.txId);
      IncomingFrom(q, c);
      forall e | e in IncomingQueue(log) ensures exists d :: d in log && Asks(d) && e == EntryOf(d) {
        if e !in q {
          assert c in log && Asks(c) && e == EntryOf(c);
        } else {
          var d :| d in front && Asks(d) && e == EntryOf(d);
          assert d in log;
        }
      }
    }
  }

  /** An enqueue adds nothing but its own entry, and puts that last. */
  lemma IncomingFrom(queue: seq<Incoming>, c: IncomingCall)
    requires DistinctIncoming(queue)
    ensures var q := EnqueueIncoming(queue, c.l1TxHash, c.recipient, c.amount, c.fromChain, c.txId);
      && (forall e :: e in q ==> e in queue || (Asks(c) && e == EntryOf(c)))
      && (Asks(c) ==> q != [] && q[|q| - 1] == EntryOf(c))
  {
    OthersIncomingOk(queue, c.l1TxHash, EntryOf(c).txId);
  }
}
