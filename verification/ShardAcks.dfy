/** Acknowledgements in the shard network: flooding is bounded, and a source confirms only
    on a quorum of both committees. */
module ShardAcks {
  import opened Wrappers
  import opened Collections
  import opened Sums
  import opened Money
  import opened Sharding
  import opened ShardNet

  // ---------------------------------------------------------------- flooding dies out

  /** Acknowledgements gossiped by all nodes so far. */
  function Gossiped(w: World): seq<int> {
    seq(|w.nodes|, j requires 0 <= j < |w.nodes| => AckCount(w.nodes[j].outbox))
  }

  /** Keys remembered by all nodes. */
  function Remembered(w: World): seq<int> {
    seq(|w.nodes|, j requires 0 <= j < |w.nodes| => |w.nodes[j].seen| + |w.nodes[j].relayed|)
  }

  /** (node, key) pairs that could still gossip: each key once seen and once relayed. */
  function Unspent(w: World, keys: set<string>): int {
    2 * |w.nodes| * |keys| - SumSeq(Remembered(w))
  }

  predicate KeysWithin(w: World, keys: set<string>) {
    forall j :: 0 <= j < |w.nodes| ==> w.nodes[j].seen <= keys && w.nodes[j].relayed <= keys
  }

  lemma NodePaysForAcks(net: Net, n: Node, step: Step)
    ensures PaidAcks(n, NodeAfter(net, n, step))
  {
    hide PaidAcks, AddTransaction, ReceiveCredit, ReceiveAck, Regossip, SubmitVote;
    match step {
      case Submit(_, r) => AddTransactionEffect(net, n, r);
      case Deliver(_, m) =>
        if m.Transfer? {
          ReceiveCreditEffect(n, m);
        } else {
          ReceiveAckEffect(n, m);
        }
      case Retry(_) => RegossipEffect(n, n.pending);
      case Vote(_, txId, shardId, vid) => SubmitVoteQuiet(n, txId, shardId, vid);
    }
  }

  lemma PaidInTotal(n: Node, m: Node)
    requires PaidAcks(n, m)
    ensures AckCount(m.outbox) + |n.seen| + |n.relayed| <= AckCount(n.outbox) + |m.seen| + |m.relayed|
  {
    hide AckCount, KeyCount;
  }

  /** The measure: what a step gossips, it takes from what is unspent. */
  lemma GossipSpends(net: Net, w: World, step: Step, keys: set<string>)
    requires step.at < |w.nodes|
    ensures var v := After(net, w, step);
      SumSeq(Gossiped(v)) + Unspent(v, keys) <= SumSeq(Gossiped(w)) + Unspent(w, keys)
  {
    hide SumSeq, AckCount, KeyCount, NodeAfter, Replies, Debits, Pays, PaidAcks;
    var i, v := step.at, After(net, w, step);
    NodePaysForAcks(net, w.nodes[i], step);
    PaidInTotal(w.nodes[i], v.nodes[i]);
    assert Gossiped(v) == Gossiped(w)[i := Gossiped(v)[i]];
    SumSeqUpdate(Gossiped(w), i, Gossiped(v)[i]);
    assert Remembered(v) == Remembered(w)[i := Remembered(v)[i]];
    SumSeqUpdate(Remembered(w), i, Remembered(v)[i]);
    assert |v.nodes| == |w.nodes|;
  }

  lemma {:induction false} SumAtMost(s: seq<int>, bound: int)
    requires forall i :: 0 <= i < |s| ==> s[i] <= bound
    ensures SumSeq(s) <= |s| * bound
    decreases |s|
  {
    if s != [] {
      SumAtMost(s[..|s| - 1], bound);
    }
  }

  lemma {:induction false} SumZero(s: seq<int>)
    requires forall i :: 0 <= i < |s| ==> s[i] == 0
    ensures SumSeq(s) == 0
    decreases |s|
  {
    if s != [] {
      SumZero(s[..|s| - 1]);
    }
  }

  lemma UnspentIsNatural(w: World, keys: set<string>)
    requires KeysWithin(w, keys)
    ensures Unspent(w, keys) >= 0
  {
    forall j | 0 <= j < |w.nodes| ensures Remembered(w)[j] <= 2 * |keys| {
      SubsetSize(w.nodes[j].seen, keys);
      SubsetSize(w.nodes[j].relayed, keys);
    }
    SumAtMost(Remembered(w), 2 * |keys|);
    assert |w.nodes| * (2 * |keys|) == 2 * |w.nodes| * |keys|;
  }

  lemma {:induction false} RunSpends(net: Net, w: World, steps: seq<Step>, keys: set<string>)
    requires Init(net, w) && Allowed(net, w, steps)
    ensures SumSeq(Gossiped(Run(net, w, steps))) + Unspent(Run(net, w, steps), keys) <= 2 * |w.nodes| * |keys|
    decreases |steps|
  {
    if steps == [] {
      SumZero(Gossiped(w));
      SumZero(Remembered(w));
    } else {
      RunSpends(net, w, steps[..|steps| - 1], keys);
      hide NodeAfter, Unspent, SumSeq, Init;
      GossipSpends(net, Run(net, w, steps[..|steps| - 1]), steps[|steps| - 1], keys);
    }
  }

  /** However long the run and however often acknowledgements are delivered, N nodes
      gossip at most 2 * N * K of them for K keys. */
  lemma FloodingIsBounded(net: Net, w: World, steps: seq<Step>, keys: set<string>)
    requires Init(net, w) && Allowed(net, w, steps) && KeysWithin(Run(net, w, steps), keys)
    ensures SumSeq(Gossiped(Run(net, w, steps))) <= 2 * |w.nodes| * |keys|
  {
    RunSpends(net, w, steps, keys);
    UnspentIsNatural(Run(net, w, steps), keys);
  }

  /** One node gossips one key at most twice: once as its own, once as a relay. */
  lemma {:induction false} AtMostTwicePerKey(net: Net, w: World, steps: seq<Step>, j: nat, key: string)
    requires Init(net, w) && Allowed(net, w, steps) && j < |w.nodes|
    ensures var n := Run(net, w, steps).nodes[j];
      KeyCount(n.outbox, key) <= Bit(n.seen, key) + Bit(n.relayed, key) <= 2
    decreases |steps|
  {
    if steps != [] {
      var last := steps[|steps| - 1];
      AtMostTwicePerKey(net, w, steps[..|steps| - 1], j, key);
      var v := Run(net, w, steps[..|steps| - 1]);
      NodePaysForAcks(net, v.nodes[last.at], last);
      hide NodeAfter, KeyCount, AckCount, Init;
    }
  }

  // ---------------------------------------------------------------- quorums

  /** Votes come from the committee, where there is one. */
  predicate VotesFromCommittee(c: Coordinator) {
    forall id, s :: id in c.votes && s in c.votes[id] ==> c.Committee(s) == {} || c.votes[id][s] <= c.Committee(s)
  }

  /** An open transfer needs both its shards. */
  predicate NeedsBothShards(n: Node) {
    n.coordinator.Some? ==>
      forall id :: id in n.coordinator.value.required ==>
        id in n.txs && n.coordinator.value.required[id] == {n.txs[id].fromShard, n.txs[id].toShard}
  }

  predicate SameShards(n: Node, m: Node) {
    forall id :: id in n.txs ==>
      id in m.txs && m.txs[id].fromShard == n.txs[id].fromShard && m.txs[id].toShard == n.txs[id].toShard
  }

  predicate CoordinatorOk(n: Node) {
    n.coordinator.Some? ==> VotesFromCommittee(n.coordinator.value) && NeedsBothShards(n)
  }

  /** The same committees, and no new transfer under way. */
  predicate Follows(n: Node, m: Node) {
    && m.coordinator.Some? == n.coordinator.Some?
    && (n.coordinator.Some? ==>
          var c, d := n.coordinator.value, m.coordinator.value;
          && d.committees == c.committees && (VotesFromCommittee(c) ==> VotesFromCommittee(d))
          && (forall id :: id in d.required ==> id in c.required && d.required[id] == c.required[id]))
  }

  lemma FollowsKeeps(n: Node, m: Node)
    requires CoordinatorOk(n) && Follows(n, m) && SameShards(n, m)
    ensures CoordinatorOk(m)
  {
  }

  lemma RecordVoteFromCommittee(c: Coordinator, txId: string, shard: int, vid: string)
    ensures VotesFromCommittee(c) ==> VotesFromCommittee(c.RecordVote(txId, shard, vid))
    ensures c.RecordVote(txId, shard, vid).committees == c.committees
    ensures c.RecordVote(txId, shard, vid).required == c.required
  {
    hide VotesFromCommittee;
    var d, v := c.RecordVote(txId, shard, vid), Text.Strip(vid);
    if VotesFromCommittee(c) && d != c {
      VoteAdded(c, d, txId, shard, v);
    }
  }

  /** One more vote, of a member where the shard has a committee. */
  lemma VoteAdded(c: Coordinator, d: Coordinator, txId: string, shard: int, v: string)
    requires VotesFromCommittee(c) && d.committees == c.committees
    requires c.Committee(shard) == {} || v in c.Committee(shard)
    requires d.votes == c.votes[txId := (if txId in c.votes then c.votes[txId] else map[])
                                          [shard := c.Votes(txId, shard) + {v}]]
    ensures VotesFromCommittee(d)
  {
    forall id, s | id in d.votes && s in d.votes[id] ensures d.Committee(s) == {} || d.votes[id][s] <= d.Committee(s) {
      if id in c.votes && s in c.votes[id] {
        assert c.Committee(s) == {} || c.votes[id][s] <= c.Committee(s);
      }
    }
  }

  lemma ClearFollows(c: Coordinator, txId: string)
    ensures VotesFromCommittee(c) ==> VotesFromCommittee(c.Clear(txId))
  {
    var d := c.Clear(txId);
    forall id, s | VotesFromCommittee(c) && id in d.votes && s in d.votes[id]
      ensures d.Committee(s) == {} || d.votes[id][s] <= d.Committee(s)
    {
      assert c.Committee(s) == {} || c.votes[id][s] <= c.Committee(s);
    }
  }

  /** Opening a transfer asks for its two shards and forgets older votes on it. */
  lemma OpenedOk(net: Net, n: Node, r: Request)
    requires CoordinatorOk(n)
    ensures CoordinatorOk(Opened(net, n, r)) && net.idOf(r) in Opened(net, n, r).txs
  {
    if n.coordinator.Some? {
      var c := n.coordinator.value;
      var id := net.idOf(r);
      var d := c.Begin(id, net.shardOf(r.fromAddr), net.shardOf(r.toAddr));
      forall k, s | k in d.votes && s in d.votes[k]
        ensures d.Committee(s) == {} || d.votes[k][s] <= d.Committee(s)
      {
        assert c.Committee(s) == {} || c.votes[k][s] <= c.Committee(s);
      }
    }
  }

  lemma GossipAckFollows(n: Node, txId: string, shardId: int, vid: string)
    ensures GossipAck(n, txId, shardId, vid).coordinator == n.coordinator
    ensures GossipAck(n, txId, shardId, vid).txs == n.txs
    ensures RelayAck(n, txId, shardId, vid).coordinator == n.coordinator
    ensures RelayAck(n, txId, shardId, vid).txs == n.txs
  {
  }

  lemma RecordShardAckFollows(n: Node, txId: string, shardId: int)
    ensures Follows(n, RecordShardAck(n, txId, shardId)) && RecordShardAck(n, txId, shardId).txs == n.txs
  {
    hide VotesFromCommittee, GossipAck;
    if n.coordinator.Some? {
      var c := n.coordinator.value;
      RecordVoteFromCommittee(c, txId, shardId, SignerOf(n));
      RecordAckFromCommittee(c, txId, shardId);
      GossipAckFollows(n.(coordinator := Some(c.RecordVote(txId, shardId, SignerOf(n)))), txId, shardId, SignerOf(n));
    }
  }

  lemma RecordAckFromCommittee(c: Coordinator, txId: string, shardId: int)
    ensures VotesFromCommittee(c) ==> VotesFromCommittee(c.RecordAck(txId, shardId))
    ensures c.RecordAck(txId, shardId).committees == c.committees && c.RecordAck(txId, shardId).required == c.required
  {
    assert c.RecordAck(txId, shardId).votes == c.votes;
    var d := c.RecordAck(txId, shardId);
    assert forall s :: d.Committee(s) == c.Committee(s);
  }

  lemma SettleFollows(n: Node, id: string)
    ensures Follows(n, Settle(n, id)) && Settle(n, id).txs == n.txs
  {
    hide VotesFromCommittee;
    if n.coordinator.Some? {
      ClearFollows(n.coordinator.value, id);
    }
  }

  lemma NoteVoteFollows(n: Node, txId: string, shardId: int, vid: string)
    requires n.coordinator.Some?
    ensures Follows(n, NoteVote(n, txId, shardId, vid)) && NoteVote(n, txId, shardId, vid).txs == n.txs
  {
    hide VotesFromCommittee, RelayAck, AckKey;
    var key := AckKey(txId, shardId, vid);
    var n1 := if key in n.seen then n
              else n.(seen := n.seen + {key},
                      coordinator := Some(n.coordinator.value.RecordVote(txId, shardId, vid)));
    RecordVoteFromCommittee(n.coordinator.value, txId, shardId, vid);
    GossipAckFollows(n1, txId, shardId, vid);
  }

  lemma LaunchOk(n: Node, id: string)
    requires id in n.txs && CoordinatorOk(n)
    ensures CoordinatorOk(Launch(n, id))
  {
    hide RecordShardAck, CoordinatorOk, Follows, Bump, Covered;
    var tx := n.txs[id];
    if Covered(n, tx) {
      var n1 := SetStatus(n.(accounts := Bump(n.accounts, tx.fromAddr, -tx.amount)), id, Debited);
      StatusOk(n, n1, id);
      RecordShardAckFollows(n1, id, tx.fromShard);
      var n2 := RecordShardAck(n1, id, tx.fromShard);
      FollowsKeeps(n1, n2);
      SameCoordinator(n2, Launch(n, id));
    } else {
      StatusOk(n, Launch(n, id), id);
    }
  }

  lemma SameCoordinator(n: Node, m: Node)
    requires CoordinatorOk(n) && m.coordinator == n.coordinator && SameShards(n, m)
    ensures CoordinatorOk(m)
  {
  }

  lemma StatusOk(n: Node, m: Node, id: string)
    requires CoordinatorOk(n) && m.coordinator == n.coordinator && id in n.txs && id in m.txs
    requires m.txs == n.txs[id := n.txs[id].(status := m.txs[id].status)]
    ensures CoordinatorOk(m)
  {
    SameCoordinator(n, m);
  }

  lemma ReceiveCreditOk(n: Node, m: Message)
    requires m.Transfer? && CoordinatorOk(n)
    ensures CoordinatorOk(ReceiveCredit(n, m))
  {
    hide RecordShardAck, Settle, CoordinatorOk, Follows, Bump;
    if Credits(n, m) {
      var tx := if m.txId in n.txs then n.txs[m.txId]
                else CrossTx(m.txId, m.fromShard, m.toShard, m.fromAddr, m.toAddr, m.amount, Confirmed);
      var n1 := n.(accounts := Bump(n.accounts, m.toAddr, m.amount),
                   txs := n.txs[m.txId := tx.(status := Confirmed)],
                   pending := Withdraw(n.pending, m.txId));
      SameCoordinator(n, n1);
      RecordShardAckFollows(n1, m.txId, m.toShard);
      var n2 := RecordShardAck(n1, m.txId, m.toShard);
      FollowsKeeps(n1, n2);
      SettleFollows(n2, m.txId);
      FollowsKeeps(n2, Settle(n2, m.txId));
    }
  }

  /** The node once the acknowledgement is recorded, before any confirmation. */
  function Recorded(n: Node, m: Message): Node
    requires m.Ack? && m.ackTxId in n.txs && n.coordinator.Some?
  {
    var id, vid := m.ackTxId, Text.Strip(m.validatorId);
    var tx := n.txs[id];
    if vid != "" then NoteVote(n, id, AckedShard(tx, m), vid)
    else if tx.fromShard == n.shard then RecordShardAck(n, id, AckedShard(tx, m))
    else n
  }

  lemma RecordedOk(n: Node, m: Message)
    requires m.Ack? && m.ackTxId in n.txs && n.coordinator.Some? && CoordinatorOk(n)
    ensures CoordinatorOk(Recorded(n, m)) && Recorded(n, m).coordinator.Some? && Recorded(n, m).txs == n.txs
  {
    hide RecordShardAck, NoteVote, CoordinatorOk;
    NoteVoteFollows(n, m.ackTxId, AckedShard(n.txs[m.ackTxId], m), Text.Strip(m.validatorId));
    RecordShardAckFollows(n, m.ackTxId, AckedShard(n.txs[m.ackTxId], m));
    assert n == Recorded(n, m) || Follows(n, Recorded(n, m));
    if n != Recorded(n, m) {
      FollowsKeeps(n, Recorded(n, m));
    }
  }

  lemma ReceiveAckOk(n: Node, m: Message)
    requires m.Ack? && CoordinatorOk(n)
    ensures CoordinatorOk(ReceiveAck(n, m))
  {
    hide RecordShardAck, NoteVote, Settle, CoordinatorOk, Follows;
    if AckAccepted(n, m) {
      var id := m.ackTxId;
      if n.coordinator.None? {
        StatusOk(n, Confirm(n, id), id);
      } else {
        RecordedOk(n, m);
        var n1 := Recorded(n, m);
        SettleFollows(n1, id);
        FollowsKeeps(n1, Settle(n1, id));
        StatusOk(Settle(n1, id), Confirm(Settle(n1, id), id), id);
      }
    }
  }

  lemma NodeAfterOk(net: Net, n: Node, step: Step)
    requires CoordinatorOk(n)
    ensures CoordinatorOk(NodeAfter(net, n, step))
  {
    hide CoordinatorOk, ReceiveCredit, ReceiveAck, Regossip, Launch, Opened;
    match step {
      case Submit(_, r) =>
        if AddOutcome(net, n, r).Cross? {
          OpenedOk(net, n, r);
          LaunchOk(Opened(net, n, r), net.idOf(r));
        } else {
          SameCoordinator(n, AddTransaction(net, n, r));
        }
      case Deliver(_, m) =>
        if m.Transfer? {
          ReceiveCreditOk(n, m);
        } else {
          ReceiveAckOk(n, m);
        }
      case Retry(_) => RegossipFollows(n, n.pending); SameCoordinator(n, Regossip(n, n.pending));
      case Vote(_, txId, shardId, vid) => SubmitVoteOk(n, txId, shardId, vid);
    }
  }

  lemma {:induction false} RegossipFollows(n: Node, ids: seq<string>)
    ensures Regossip(n, ids).coordinator == n.coordinator && Regossip(n, ids).txs == n.txs
    decreases |ids|
  {
    if ids != [] {
      RegossipFollows(n, ids[..|ids| - 1]);
    }
  }

  lemma SubmitVoteOk(n: Node, txId: string, shardId: int, vid: string)
    requires CoordinatorOk(n)
    ensures CoordinatorOk(SubmitVote(n, txId, shardId, vid))
  {
    hide CoordinatorOk, GossipAck;
    var v := Text.Strip(if vid != "" then vid else SignerOf(n));
    if v != "" && n.coordinator.Some? {
      var n1 := n.(coordinator := Some(n.coordinator.value.RecordVote(txId, shardId, v)));
      RecordVoteFromCommittee(n.coordinator.value, txId, shardId, v);
      FollowsKeeps(n, n1);
      GossipAckFollows(n1, txId, shardId, v);
      SameCoordinator(n1, SubmitVote(n, txId, shardId, vid));
    }
  }

  lemma {:induction false} RunCoordinators(net: Net, w: World, steps: seq<Step>, j: nat)
    requires Allowed(net, w, steps) && j < |w.nodes| && CoordinatorOk(w.nodes[j])
    ensures CoordinatorOk(Run(net, w, steps).nodes[j])
    decreases |steps|
  {
    if steps != [] {
      RunCoordinators(net, w, steps[..|steps| - 1], j);
      hide CoordinatorOk, NodeAfter;
      var v := Run(net, w, steps[..|steps| - 1]);
      if steps[|steps| - 1].at == j {
        NodeAfterOk(net, v.nodes[j], steps[|steps| - 1]);
      }
    }
  }

  /** Two thirds of the shard's committee, where it has one, voted for the transfer. */
  predicate CommitteeAgreed(c: Coordinator, id: string, shard: int) {
    c.Committee(shard) != {} ==>
      c.Votes(id, shard) <= c.Committee(shard) && 3 * |c.Votes(id, shard)| >= 2 * |c.Committee(shard)|
  }

  /** After any run from coordinators with no open transfers: if an acknowledgement turns
      a transfer confirmed at its source, the votes then recorded are members of, and two
      thirds of, the committees of both shards. */
  lemma ConfirmedByQuorum(net: Net, w: World, steps: seq<Step>, j: nat, m: Message)
    requires Allowed(net, w, steps) && j < |w.nodes| && m.Ack?
    requires w.nodes[j].coordinator.Some? && w.nodes[j].coordinator.value.votes == map[]
    requires w.nodes[j].coordinator.value.required == map[]
    requires var n := Run(net, w, steps).nodes[j];
      && n.coordinator.Some? && m.ackTxId in n.txs && n.txs[m.ackTxId].status != Confirmed
      && m.ackTxId in ReceiveAck(n, m).txs && ReceiveAck(n, m).txs[m.ackTxId].status == Confirmed
    ensures var n := Run(net, w, steps).nodes[j];
      var c, tx := Recorded(n, m).coordinator, n.txs[m.ackTxId];
      && c.Some? && CommitteeAgreed(c.value, m.ackTxId, tx.fromShard) && CommitteeAgreed(c.value, m.ackTxId, tx.toShard)
  {
    RunCoordinators(net, w, steps, j);
    hide Run, Allowed;
    ConfirmNeedsQuorum(Run(net, w, steps).nodes[j], m);
  }

  lemma ConfirmNeedsQuorum(n: Node, m: Message)
    requires m.Ack? && CoordinatorOk(n) && n.coordinator.Some? && m.ackTxId in n.txs
    requires n.txs[m.ackTxId].status != Confirmed
    requires m.ackTxId in ReceiveAck(n, m).txs && ReceiveAck(n, m).txs[m.ackTxId].status == Confirmed
    ensures var c, tx := Recorded(n, m).coordinator, n.txs[m.ackTxId];
      && c.Some? && CommitteeAgreed(c.value, m.ackTxId, tx.fromShard) && CommitteeAgreed(c.value, m.ackTxId, tx.toShard)
  {
    RecordedOk(n, m);
    var id, n1 := m.ackTxId, Recorded(n, m);
    var c := n1.coordinator.value;
    assert c.QuorumReached(id) by {
      hide RecordShardAck, NoteVote, CoordinatorOk;
    }
    assert c.ShardMet(id, n.txs[id].fromShard) && c.ShardMet(id, n.txs[id].toShard);
  }
}
