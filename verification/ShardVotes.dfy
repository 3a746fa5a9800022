/** What the quorum coordinator does with votes and acknowledgements, exactly: which count,
    when two thirds confirm a transfer, and which votes a node sends and passes on. */
module ShardVotes {
  import opened Wrappers
  import opened Text
  import opened Money
  import opened Sharding
  import opened ShardNet
  import opened ShardDelivers

  // ------------------------------------------------------------ votes

  /** The votes for a shard once a vote was taken in. */
  function VotesWith(c: Coordinator, id: string, s: int, shard: int, vid: string): set<string> {
    c.Votes(id, s) + (if s == shard && vid in c.Committee(s) then {vid} else {})
  }

  /** The coordinator needs both shards of the transfer, and both have a committee. */
  predicate Governed(c: Coordinator, tx: CrossTx, id: string) {
    && id in c.required && c.required[id] == {tx.fromShard, tx.toShard}
    && c.Committee(tx.fromShard) != {} && c.Committee(tx.toShard) != {}
  }

  predicate TwoThirds(votes: set<string>, committee: set<string>) {
    3 * |votes| >= 2 * |committee|
  }

  lemma VoteKept(c: Coordinator, id: string, shard: int, vid: string)
    ensures c.RecordVote(id, shard, vid).committees == c.committees
    ensures c.RecordVote(id, shard, vid).required == c.required
  {
    hide Strip;
  }

  lemma VoteCountsAt(c: Coordinator, id: string, shard: int, vid: string, s: int)
    requires id in c.required && shard in c.required[id] && c.Committee(shard) != {} && Strip(vid) == vid != ""
    ensures c.RecordVote(id, shard, vid).Votes(id, s) == VotesWith(c, id, s, shard, vid)
  {
    hide Strip, Coordinator.ShardMet, Coordinator.Acks, QuorumSize;
    if vid in c.Committee(shard) {
      var perShard := if id in c.votes then c.votes[id] else map[];
      var votes := c.votes[id := perShard[shard := c.Votes(id, shard) + {vid}]];
      assert c.RecordVote(id, shard, vid).votes == votes;
      assert s != shard ==> (s in votes[id] <==> s in perShard);
    }
  }

  lemma VoteCounts(c: Coordinator, tx: CrossTx, id: string, shard: int, vid: string)
    requires Governed(c, tx, id) && Strip(vid) == vid != ""
    requires shard == tx.fromShard || shard == tx.toShard
    ensures var d := c.RecordVote(id, shard, vid);
      && Governed(d, tx, id) && d.committees == c.committees
      && (forall s :: s in c.required[id] ==> d.Votes(id, s) == VotesWith(c, id, s, shard, vid))
  {
    hide Strip, VotesWith;
    VoteKept(c, id, shard, vid);
    var d := c.RecordVote(id, shard, vid);
    forall s | s in c.required[id] ensures d.Votes(id, s) == VotesWith(c, id, s, shard, vid) {
      VoteCountsAt(c, id, shard, vid, s);
    }
  }

  lemma QuorumIsTwoThirds(c: Coordinator, tx: CrossTx, id: string)
    requires Governed(c, tx, id)
    ensures c.QuorumReached(id) <==> TwoThirds(c.Votes(id, tx.fromShard), c.Committee(tx.fromShard))
                                     && TwoThirds(c.Votes(id, tx.toShard), c.Committee(tx.toShard))
  {
    assert c.QuorumReached(id) <==> c.ShardMet(id, tx.fromShard) && c.ShardMet(id, tx.toShard);
  }

  /** A vote not seen before confirms a transfer at its source exactly when with it two thirds of
      both committees have voted. */
  lemma VoteConfirmsExactly(n: Node, m: Message)
    requires m.Ack? && m.ackTxId != "" && m.ackTxId in n.txs && n.coordinator.Some?
    requires var tx := n.txs[m.ackTxId];
      && tx.fromShard == n.shard && tx.status != Confirmed && Governed(n.coordinator.value, tx, m.ackTxId)
      && m.shardId.Some? && (m.shardId.value == tx.fromShard || m.shardId.value == tx.toShard)
      && Strip(m.validatorId) != "" && AckKey(m.ackTxId, m.shardId.value, Strip(m.validatorId)) !in n.seen
    ensures var id, tx, c := m.ackTxId, n.txs[m.ackTxId], n.coordinator.value;
      var shard, vid, o := m.shardId.value, Strip(m.validatorId), ReceiveAck(n, m);
      && o.txs.Keys == n.txs.Keys
      && (o.txs[id].status == Confirmed
          <==> TwoThirds(VotesWith(c, id, tx.fromShard, shard, vid), c.Committee(tx.fromShard))
               && TwoThirds(VotesWith(c, id, tx.toShard, shard, vid), c.Committee(tx.toShard)))
      && (o.txs[id].status != Confirmed ==>
            && o.coordinator.Some? && Governed(o.coordinator.value, tx, id)
            && forall s :: s in c.required[id] ==> o.coordinator.value.Votes(id, s) == VotesWith(c, id, s, shard, vid))
  {
    hide AckKey, Strip, Withdraw, TwoThirds, VotesWith, Settle, RecordShardAck;
    var id, tx, c := m.ackTxId, n.txs[m.ackTxId], n.coordinator.value;
    StripTwice(m.validatorId);
    VoteCounts(c, tx, id, m.shardId.value, Strip(m.validatorId));
    QuorumIsTwoThirds(c.RecordVote(id, m.shardId.value, Strip(m.validatorId)), tx, id);
    NoteTalks(n, id, m.shardId.value, Strip(m.validatorId));
    SettleTalks(NoteVote(n, id, m.shardId.value, Strip(m.validatorId)), id);
  }

  /** What the coordinator forgets when a transfer is settled, and nothing else. */
  lemma Clears(c: Coordinator, id: string, k: string, s: int)
    ensures var d := c.Clear(id);
      && d.committees == c.committees && id !in d.required && d.Acks(id) == {} && d.Votes(id, s) == {}
      && (k != id ==>
            (k in d.required <==> k in c.required) && (k in c.required ==> d.required[k] == c.required[k])
            && d.Acks(k) == c.Acks(k) && d.Votes(k, s) == c.Votes(k, s))
  {
  }

  /** A transfer that begins needs both shards and has no votes; what other transfers have stays. */
  lemma Begins(c: Coordinator, id: string, f: int, t: int, k: string, s: int)
    ensures var d := c.Begin(id, f, t);
      && d.committees == c.committees && id in d.required && d.required[id] == {f, t} && d.Votes(id, s) == {}
      && d.Acks(k) == c.Acks(k)
      && (k != id ==>
            (k in d.required <==> k in c.required) && (k in c.required ==> d.required[k] == c.required[k])
            && d.Votes(k, s) == c.Votes(k, s))
  {
  }

  /** A transfer that an acknowledgement confirms leaves the coordinator and the pending list. */
  lemma ConfirmationClears(n: Node, m: Message, s: int)
    requires m.Ack? && m.ackTxId in n.txs && n.coordinator.Some? && n.txs[m.ackTxId].status != Confirmed
    requires m.ackTxId in ReceiveAck(n, m).txs && ReceiveAck(n, m).txs[m.ackTxId].status == Confirmed
    ensures var id, o := m.ackTxId, ReceiveAck(n, m);
      && o.coordinator.Some? && id !in o.coordinator.value.required && o.coordinator.value.Acks(id) == {}
      && o.coordinator.value.Votes(id, s) == {}
      && multiset(o.pending) == multiset(n.pending) - multiset{id}
  {
    hide AckKey, Strip, RecordShardAck, NoteVote, RemoveFirst, Coordinator.QuorumReached;
    var id, tx := m.ackTxId, n.txs[m.ackTxId];
    NoteTalks(n, id, AckedShard(tx, m), Strip(m.validatorId));
    RecordTalks(n, id, AckedShard(tx, m));
    AcksKeepRecords(n, id, AckedShard(tx, m), Strip(m.validatorId));
    if id in n.pending {
      RemovedOne(n.pending, id);
    }
  }

  /** A vote without a name, for a transfer or a shard that is not concerned, or of somebody who is not in
      the committee, changes nothing. */
  lemma VoteIgnored(c: Coordinator, id: string, shard: int, vid: string)
    requires Strip(vid) == "" || id !in c.required || shard !in c.required[id]
             || (c.Committee(shard) != {} && Strip(vid) !in c.Committee(shard))
    ensures c.RecordVote(id, shard, vid) == c
  {
    hide Strip;
  }

  /** A vote that counts marks its shard once two thirds of the committee have voted. */
  lemma VoteMarks(c: Coordinator, id: string, shard: int, vid: string)
    requires id in c.required && shard in c.required[id] && Strip(vid) == vid != "" && vid in c.Committee(shard)
    ensures c.RecordVote(id, shard, vid).Acks(id)
         == c.Acks(id) + if TwoThirds(c.Votes(id, shard) + {vid}, c.Committee(shard)) then {shard} else {}
  {
    hide Strip;
    VoteCountsAt(c, id, shard, vid, shard);
    var perShard := if id in c.votes then c.votes[id] else map[];
    var d := c.(votes := c.votes[id := perShard[shard := c.Votes(id, shard) + {vid}]]);
    assert d.Votes(id, shard) == c.Votes(id, shard) + {vid} && d.Committee(shard) == c.Committee(shard);
    assert d.ShardMet(id, shard) <==> TwoThirds(c.Votes(id, shard) + {vid}, c.Committee(shard));
  }

  /** An acknowledgement marks a shard that has no committee, if the transfer is known. */
  lemma AckMarks(c: Coordinator, id: string, shard: int)
    ensures var d := c.RecordAck(id, shard);
      && d.committees == c.committees && d.required == c.required && d.votes == c.votes
      && d.Acks(id) == c.Acks(id) + if id in c.required && c.Committee(shard) == {} then {shard} else {}
  {
  }

  /** Without committees a transfer has its quorum when both its shards are marked; one that needs no shard
      never has. */
  lemma QuorumIsMarks(c: Coordinator, id: string)
    requires id in c.required && forall s :: s in c.required[id] ==> c.Committee(s) == {}
    ensures c.QuorumReached(id) <==> c.required[id] != {} && c.required[id] <= c.Acks(id)
  {
    if c.QuorumReached(id) {
      forall s | s in c.required[id] ensures s in c.Acks(id) {
        assert c.ShardMet(id, s);
      }
    }
    if c.required[id] != {} && c.required[id] <= c.Acks(id) {
      forall s | s in c.required[id] ensures c.ShardMet(id, s) {
        assert s in c.Acks(id);
      }
    }
  }

  /** In a coordinator without committees, an acknowledgement that names no validator confirms a transfer at
      its source exactly when with its shard all that the transfer needs are marked. */
  lemma AckConfirmsExactly(n: Node, m: Message)
    requires m.Ack? && m.ackTxId != "" && m.ackTxId in n.txs && n.coordinator.Some? && Strip(m.validatorId) == ""
    requires var tx, c := n.txs[m.ackTxId], n.coordinator.value;
      && tx.fromShard == n.shard && tx.status != Confirmed && m.shardId.Some? && c.Committee(m.shardId.value) == {}
      && m.ackTxId in c.required && c.required[m.ackTxId] != {}
      && forall s :: s in c.required[m.ackTxId] ==> c.Committee(s) == {}
    ensures var id, c, o := m.ackTxId, n.coordinator.value, ReceiveAck(n, m);
      && o.txs.Keys == n.txs.Keys
      && (o.txs[id].status == Confirmed <==> c.required[id] <= c.Acks(id) + {m.shardId.value})
  {
    hide AckKey, Strip, Withdraw, Settle;
    var id, c := m.ackTxId, n.coordinator.value;
    AckMarks(c, id, m.shardId.value);
    var d := c.RecordAck(id, m.shardId.value);
    assert forall s :: d.Committee(s) == c.Committee(s);
    QuorumIsMarks(d, id);
    SettleTalks(RecordShardAck(n, id, m.shardId.value), id);
  }

  /** The name a node votes under: its validator, or itself. */
  function VoterName(n: Node): string {
    Strip(if n.validatorId == "" then n.nodeId else n.validatorId)
  }

  /** The node would gossip its own vote for the transfer: its shard has a committee, and it did not
      send that vote before. */
  predicate Votes(n: Node, id: string) {
    && n.gossips && n.coordinator.Some? && n.coordinator.value.Committee(n.shard) != {} && VoterName(n) != ""
    && AckKey(id, n.shard, VoterName(n)) !in n.seen
  }

  function VoteOf(n: Node, id: string): Message {
    Ack(id, Some(n.shard), None, VoterName(n))
  }

  lemma OwnVote(n: Node, id: string)
    requires Votes(n, id)
    ensures RecordShardAck(n, id, n.shard).outbox == n.outbox + [VoteOf(n, id)]
  {
    hide AckKey;
  }

  lemma LongerOutbox(a: seq<Message>, b: seq<Message>, c: seq<Message>, x: Message)
    requires a <= b <= c && x in b[|a|..]
    ensures x in c[|a|..]
  {
    assert c[|a|..] == b[|a|..] + c[|b|..];
  }

  /** A node that debits a transfer sends its own vote with it. */
  lemma DebitSendsVote(net: Net, n: Node, r: Request)
    requires net.shardOf(r.fromAddr) == n.shard != net.shardOf(r.toAddr) && Payable(n, r) && Votes(n, net.idOf(r))
    ensures var o := AddTransaction(net, n, r).outbox;
      |n.outbox| <= |o| && VoteOf(n, net.idOf(r)) in o[|n.outbox|..]
  {
    hide RecordShardAck, Bump, ToSatoshi, Strip, AckKey;
    var id, t := net.idOf(r), RecordOf(net, r);
    var o := Opened(net, n, r);
    assert Covered(n, t);
    var p := SetStatus(o.(accounts := Bump(o.accounts, r.fromAddr, -r.amount)), id, Debited);
    OwnVote(p, id);
    var q := RecordShardAck(p, id, n.shard);
    assert q.outbox[|n.outbox|..] == [VoteOf(n, id)];
    LongerOutbox(n.outbox, q.outbox, GossipTx(q, id).outbox, VoteOf(n, id));
  }

  /** So does a node that credits one. */
  lemma CreditSendsVote(n: Node, m: Message)
    requires m.Transfer? && Credits(n, m) && Votes(n, m.txId)
    ensures var o := ReceiveCredit(n, m).outbox;
      |n.outbox| <= |o| && VoteOf(n, m.txId) in o[|n.outbox|..]
  {
    hide RecordShardAck, Bump, ToSatoshi, Strip, AckKey, Withdraw;
    var tx := if m.txId in n.txs then n.txs[m.txId]
              else CrossTx(m.txId, m.fromShard, m.toShard, m.fromAddr, m.toAddr, m.amount, Confirmed);
    var p := n.(accounts := Bump(n.accounts, m.toAddr, m.amount), txs := n.txs[m.txId := tx.(status := Confirmed)],
                pending := Withdraw(n.pending, m.txId));
    OwnVote(p, m.txId);
    SettleTalks(RecordShardAck(p, m.txId, m.toShard), m.txId);
    assert RecordShardAck(p, m.txId, m.toShard).outbox[|n.outbox|..] == [VoteOf(n, m.txId)];
  }

  /** The acknowledgement is for a transfer on record that starts or ends at the node's shard. */
  predicate Concerns(n: Node, m: Message)
    requires m.Ack?
  {
    && m.ackTxId != "" && m.ackTxId in n.txs
    && (n.txs[m.ackTxId].fromShard == n.shard || n.txs[m.ackTxId].toShard == n.shard)
  }

  /** Any other acknowledgement is refused and changes nothing. */
  lemma OthersAreRefused(n: Node, m: Message)
    requires m.Ack?
    ensures AckAccepted(n, m) <==> Concerns(n, m)
    ensures !Concerns(n, m) ==> ReceiveAck(n, m) == n
  {
    hide AckKey, Strip, RecordShardAck, NoteVote, Settle, Confirm;
  }

  /** Without a coordinator an acknowledgement confirms the transfer at its source, takes it off the pending
      list, and does nothing elsewhere. */
  lemma PlainAckConfirms(n: Node, m: Message)
    requires m.Ack? && Concerns(n, m) && n.coordinator.None?
    ensures var id, o := m.ackTxId, ReceiveAck(n, m);
      if n.txs[id].fromShard == n.shard then
        && SameNode(n, o) && o.txs == n.txs[id := n.txs[id].(status := Confirmed)] && o.accounts == n.accounts
        && multiset(o.pending) == multiset(n.pending) - multiset{id} && o.outbox == n.outbox
      else o == n
  {
    OthersAreRefused(n, m);
    ConfirmEffect(n, m.ackTxId);
    hide Confirm, AckAccepted, Concerns, AckedShard, Strip;
  }

  lemma ConfirmEffect(n: Node, id: string)
    requires id in n.txs
    ensures var o := Confirm(n, id);
      && SameNode(n, o) && o.txs == n.txs[id := n.txs[id].(status := Confirmed)] && o.accounts == n.accounts
      && multiset(o.pending) == multiset(n.pending) - multiset{id} && o.outbox == n.outbox
  {
    hide RemoveFirst;
    if id in n.pending {
      RemovedOne(n.pending, id);
    }
  }

  /** A vote that names its shard is passed on once by every node with a coordinator that knows the
      transfer. */
  lemma VoteIsRelayed(n: Node, m: Message)
    requires m.Ack? && Concerns(n, m) && n.coordinator.Some? && n.gossips && m.shardId.Some?
    requires Strip(m.validatorId) != "" && AckKey(m.ackTxId, m.shardId.value, Strip(m.validatorId)) !in n.relayed
    ensures var o := ReceiveAck(n, m).outbox;
      |n.outbox| <= |o| && Ack(m.ackTxId, m.shardId, None, Strip(m.validatorId)) in o[|n.outbox|..]
  {
    hide AckKey, Strip, Withdraw;
    StripTwice(m.validatorId);
    var o := NoteVote(n, m.ackTxId, m.shardId.value, Strip(m.validatorId));
    assert o.outbox[|n.outbox|..] == [Ack(m.ackTxId, m.shardId, None, Strip(m.validatorId))];
    SettleTalks(o, m.ackTxId);
  }
}
