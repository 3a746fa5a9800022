/** What "confirmed at the source" is worth. An acknowledgement confirms a transfer there
    when the node has no coordinator, or when its coordinator then has its quorum; whether
    the transfer was ever credited is not looked at. Here is exactly when that goes wrong,
    for every coordinator, and for which nodes and acknowledgements it cannot: where there
    are no committees and what counts was sent. */
module ShardConfirms {
  import opened Wrappers
  import opened Text
  import opened Money
  import opened Sharding
  import opened ShardNet
  import opened ShardAcks

  /** The node's own transfer, confirmed. */
  predicate ConfirmedAtSource(w: World, j: int, id: string)
    requires InRange(w, j)
  {
    Own(w, j, id) && w.nodes[j].txs[id].status == Confirmed
  }

  /** What is confirmed at its source was credited. */
  ghost predicate ConfirmedPaid(w: World) {
    forall j, id :: 0 <= j < |w.nodes| && ConfirmedAtSource(w, j, id) ==> CreditedIn(w.credits, id)
  }

  // ---------------------------------------------------------------- exactly when it fails

  /** The acknowledgement confirms an own transfer: the guard before the status is set. */
  predicate Confirms(n: Node, m: Message)
    requires m.Ack?
  {
    && AckAccepted(n, m) && n.txs[m.ackTxId].fromShard == n.shard
    && (n.coordinator.None? || Complete(Recorded(n, m).coordinator, m.ackTxId))
  }

  predicate Complete(c: Option<Coordinator>, id: string) {
    c.Some? && c.value.QuorumReached(id)
  }

  /** The step confirms what was not credited. */
  predicate Unpaid(w: World, step: Step) {
    && step.at < |w.nodes| && step.Deliver? && step.message.Ack?
    && Confirms(w.nodes[step.at], step.message) && !CreditedIn(w.credits, step.message.ackTxId)
  }

  lemma AckSets(n: Node, m: Message)
    requires m.Ack?
    ensures var o := ReceiveAck(n, m);
      o.txs == if Confirms(n, m) then n.txs[m.ackTxId := n.txs[m.ackTxId].(status := Confirmed)] else n.txs
  {
    hide NoteVote, RecordShardAck;
    if m.ackTxId in n.txs && n.coordinator.Some? {
      AcksKeepRecords(n, m.ackTxId, AckedShard(n.txs[m.ackTxId], m), Strip(m.validatorId));
    }
  }

  /** Only an acknowledgement confirms a node's own transfer. */
  lemma NewlyConfirmed(net: Net, w: World, step: Step, id: string)
    requires Inv(w) && Enabled(w, step) && ConfirmedAtSource(After(net, w, step), step.at, id)
    ensures ConfirmedAtSource(w, step.at, id)
      || (step.Deliver? && step.message.Ack? && step.message.ackTxId == id)
  {
    hide Inv, AddTransaction, ReceiveAck, ReceiveCredit, Regossip, SubmitVote, PaidAcks, TransfersIn, Bump, Covered,
      Credits, Replies, Debits, Pays;
    var i, n := step.at, w.nodes[step.at];
    LinkedShard(w, i);
    match step {
      case Submit(_, r) => AddTransactionEffect(net, n, r);
      case Deliver(_, m) =>
        if m.Ack? {
          ReceiveAckEffect(n, m);
        } else {
          ReceiveCreditEffect(n, m);
          if Credits(n, m) {
            PaidIsInFlight(w, i, m);
          }
        }
      case Retry(_) => RegossipEffect(n, n.pending);
      case Vote(_, txId, shardId, vid) => SubmitVoteQuiet(n, txId, shardId, vid);
    }
  }

  lemma CreditedStays(net: Net, w: World, step: Step, id: string)
    requires step.at < |w.nodes| && CreditedIn(w.credits, id)
    ensures CreditedIn(After(net, w, step).credits, id)
  {
    hide NodeAfter, Debits, Pays, Replies;
    var k :| 0 <= k < |w.credits| && w.credits[k].txId == id;
    assert After(net, w, step).credits[k].txId == id;
  }

  lemma ConfirmsExactly(net: Net, w: World, step: Step)
    requires Inv(w) && Enabled(w, step) && step.Deliver? && step.message.Ack?
    ensures var v, id := After(net, w, step), step.message.ackTxId;
      && v.credits == w.credits
      && (Confirms(w.nodes[step.at], step.message) ==> ConfirmedAtSource(v, step.at, id))
      && (ConfirmedAtSource(v, step.at, id) ==>
            ConfirmedAtSource(w, step.at, id) || Confirms(w.nodes[step.at], step.message))
  {
    LinkedShard(w, step.at);
    AckSets(w.nodes[step.at], step.message);
    hide Inv, Confirms, ReceiveAck, Replies;
    if Confirms(w.nodes[step.at], step.message) {
      ConfirmsOwn(w.nodes[step.at], step.message);
    }
  }

  lemma ConfirmsOwn(n: Node, m: Message)
    requires m.Ack? && Confirms(n, m)
    ensures m.ackTxId in n.txs && n.txs[m.ackTxId].fromShard == n.shard
  {
    hide Recorded;
  }

  /** One step, any coordinators, any acknowledgements, sent or invented: after it what is
      confirmed was credited if and only if it did not confirm what was not. */
  lemma StepPaidExactly(net: Net, w: World, step: Step)
    requires Inv(w) && Enabled(w, step) && ConfirmedPaid(w)
    ensures ConfirmedPaid(After(net, w, step)) <==> !Unpaid(w, step)
  {
    var v := After(net, w, step);
    hide NodeAfter, Replies, Pays, Debits, DebitsOk, RecordsOk, OneOwner, SentOk, CreditsOk, CreditedIn, Confirms;
    if step.Deliver? && step.message.Ack? {
      ConfirmsExactly(net, w, step);
    }
    if !Unpaid(w, step) {
      forall j, id | 0 <= j < |v.nodes| && ConfirmedAtSource(v, j, id) ensures CreditedIn(v.credits, id) {
        if j == step.at {
          NewlyConfirmed(net, w, step, id);
        } else {
          assert v.nodes[j] == w.nodes[j] && ConfirmedAtSource(w, j, id);
        }
        assert CreditedIn(w.credits, id);
        CreditedStays(net, w, step, id);
      }
    }
  }

  /** After every step so far, what is confirmed was credited. */
  ghost predicate AlwaysPaid(net: Net, w: World, steps: seq<Step>)
    requires Allowed(net, w, steps)
    decreases |steps|
  {
    steps == [] || (AlwaysPaid(net, w, steps[..|steps| - 1]) && ConfirmedPaid(Run(net, w, steps)))
  }

  predicate NoneUnpaid(net: Net, w: World, steps: seq<Step>)
    requires Allowed(net, w, steps)
    decreases |steps|
  {
    steps == [] ||
    (NoneUnpaid(net, w, steps[..|steps| - 1]) && !Unpaid(Run(net, w, steps[..|steps| - 1]), steps[|steps| - 1]))
  }

  /** Over every run, with any coordinators and any acknowledgements: what is confirmed was
      credited all along if and only if no step confirmed what was not. */
  lemma {:induction false} AlwaysPaidExactly(net: Net, w: World, steps: seq<Step>)
    requires ValidNet(net) && Init(net, w) && Allowed(net, w, steps) && CleanRun(net, w, steps)
    ensures AlwaysPaid(net, w, steps) <==> NoneUnpaid(net, w, steps)
    ensures AlwaysPaid(net, w, steps) ==> ConfirmedPaid(Run(net, w, steps))
    decreases |steps|
  {
    if steps != [] {
      var most, last := steps[..|steps| - 1], steps[|steps| - 1];
      AlwaysPaidExactly(net, w, most);
      TotalOverRun(net, w, most);
      hide Inv, Init, After, ConfirmedPaid, Unpaid, ValidNet;
      assert Enabled(Run(net, w, most), last);
      if ConfirmedPaid(Run(net, w, most)) {
        StepPaidExactly(net, Run(net, w, most), last);
      }
    }
  }

  // ---------------------------------------------------------------- invented acknowledgements

  /** Without a coordinator one acknowledgement, in any state: it is harmless if and only if
      the node does not own the transfer, or the transfer was credited. */
  lemma InventedAckExactly(net: Net, w: World, j: nat, id: string)
    requires Inv(w) && ConfirmedPaid(w) && j < |w.nodes| && w.nodes[j].coordinator.None? && id != ""
    ensures ConfirmedPaid(After(net, w, Deliver(j, Ack(id, None, None, ""))))
      <==> (Own(w, j, id) ==> CreditedIn(w.credits, id))
  {
    LinkedShard(w, j);
    hide Inv, ConfirmedPaid, CreditedIn, After;
    StepPaidExactly(net, w, Deliver(j, Ack(id, None, None, "")));
  }

  /** It confirms whatever the node owns and credits nobody. */
  lemma InventedAckConfirms(net: Net, w: World, j: nat, id: string)
    requires Inv(w) && j < |w.nodes| && w.nodes[j].coordinator.None? && id != "" && Own(w, j, id)
    ensures var v := After(net, w, Deliver(j, Ack(id, None, None, "")));
      ConfirmedAtSource(v, j, id) && v.credits == w.credits
  {
    LinkedShard(w, j);
    hide Inv;
  }

  /** A transfer of the node, waiting for nothing but its other shard, in a coordinator that
      has no committee for it. */
  predicate WaitsForOther(n: Node, id: string) {
    && id != "" && id in n.txs && n.txs[id].fromShard == n.shard && n.coordinator.Some?
    && var c, t := n.coordinator.value, n.txs[id];
      && id in c.required && c.required[id] == {t.fromShard, t.toShard} && t.fromShard in c.Acks(id)
      && c.Committee(t.fromShard) == {} && c.Committee(t.toShard) == {}
  }

  /** There one acknowledgement without a validator confirms as well. */
  lemma InventedAckCompletes(net: Net, w: World, j: nat, id: string)
    requires Inv(w) && ConfirmedPaid(w) && j < |w.nodes| && WaitsForOther(w.nodes[j], id)
    ensures var step := Deliver(j, Ack(id, Some(w.nodes[j].txs[id].toShard), None, ""));
      var v := After(net, w, step);
      && ConfirmedAtSource(v, j, id) && v.credits == w.credits
      && (ConfirmedPaid(v) <==> CreditedIn(w.credits, id))
  {
    var n := w.nodes[j];
    var m := Ack(id, Some(n.txs[id].toShard), None, "");
    WaitingConfirms(n, id, m);
    hide Inv, ConfirmedPaid, CreditedIn, After, Confirms, WaitsForOther;
    ConfirmsExactly(net, w, Deliver(j, m));
    StepPaidExactly(net, w, Deliver(j, m));
  }

  lemma WaitingConfirms(n: Node, id: string, m: Message)
    requires WaitsForOther(n, id) && m == Ack(id, Some(n.txs[id].toShard), None, "")
    ensures Confirms(n, m)
  {
    var c := n.coordinator.value;
    assert Strip("") == "";
    assert Recorded(n, m).coordinator == Some(c.RecordAck(id, n.txs[id].toShard));
    assert c.RecordAck(id, n.txs[id].toShard).QuorumReached(id);
  }

  /** Every transfer just debited waits like that, where neither shard has a committee. */
  lemma DebitedWaits(net: Net, n: Node, r: Request)
    requires AddOutcome(net, n, r).Cross? && Covered(n, RecordOf(net, r)) && net.idOf(r) != ""
    requires n.coordinator.Some? && n.coordinator.value.Committee(net.shardOf(r.fromAddr)) == {}
    requires n.coordinator.value.Committee(net.shardOf(r.toAddr)) == {}
    ensures WaitsForOther(AddTransaction(net, n, r), net.idOf(r))
    ensures AddTransaction(net, n, r).txs[net.idOf(r)].toShard == net.shardOf(r.toAddr)
  {
    hide Bump, Withdraw, FromSatoshi;
    var id, f, t := net.idOf(r), net.shardOf(r.fromAddr), net.shardOf(r.toAddr);
    var n1 := Opened(net, n, r);
    assert n1.txs[id] == RecordOf(net, r).(status := Pending);
    var n2 := SetStatus(n1.(accounts := Bump(n1.accounts, r.fromAddr, -r.amount)), id, Debited);
    var c := n.coordinator.value.Begin(id, f, t);
    assert n2.coordinator == Some(c) && c.Committee(f) == {} && c.Committee(t) == {};
    assert RecordShardAck(n2, id, f) == n2.(coordinator := Some(c.RecordAck(id, f)));
    assert AddTransaction(net, n, r) == GossipTx(RecordShardAck(n2, id, f), id);
  }

  /** Such an input, from any state a run reaches: a debit, and before its gossip arrives an
      invented acknowledgement. The transfer is confirmed, and nobody has been credited. */
  lemma DebitThenInvented(net: Net, w: World, i: nat, r: Request)
    requires ValidNet(net) && |w.nodes| == net.numShards && Inv(w) && ConfirmedPaid(w)
    requires Clean(net, w, Submit(i, r)) && Debits(net, w.nodes[i], Submit(i, r)) && net.idOf(r) != ""
    requires var c := w.nodes[i].coordinator;
      c.Some? && c.value.Committee(net.shardOf(r.fromAddr)) == {} && c.value.Committee(net.shardOf(r.toAddr)) == {}
    ensures var ack := Deliver(i, Ack(net.idOf(r), Some(net.shardOf(r.toAddr)), None, ""));
      var v := After(net, After(net, w, Submit(i, r)), ack);
      && ConfirmedAtSource(v, i, net.idOf(r)) && v.credits == w.credits
      && (ConfirmedPaid(v) <==> CreditedIn(w.credits, net.idOf(r)))
  {
    hide Inv, ConfirmedPaid, CreditedIn, WaitsForOther, AddTransaction, Covered, Replies, Fresh, Repeated;
    var u := After(net, w, Submit(i, r));
    DebitedWaits(net, w.nodes[i], r);
    assert u.nodes[i] == AddTransaction(net, w.nodes[i], r) && u.credits == w.credits;
    StepKeeps(net, w, Submit(i, r));
    assert Enabled(w, Submit(i, r));
    StepPaidExactly(net, w, Submit(i, r));
    hide After;
    InventedAckCompletes(net, u, i, net.idOf(r));
  }

  /** Why a reply where only some nodes have a coordinator: there a vote passed around by a
      node that has one confirms at a node that has none, and it was sent. */
  lemma SentVoteConfirms(net: Net, w: World, j: nat, k: nat, id: string, shard: int, vid: string)
    requires Inv(w) && j < |w.nodes| && k < |w.nodes| && j != k && id != "" && Own(w, j, id)
    requires w.nodes[j].coordinator.None? && w.nodes[k].coordinator.Some? && w.nodes[k].gossips
    requires vid != "" && Strip(vid) == vid && AckKey(id, shard, vid) !in w.nodes[k].seen
    ensures var u := After(net, w, Vote(k, id, shard, vid));
      var vote := Ack(id, Some(shard), None, vid);
      var v := After(net, u, Deliver(j, vote));
      vote in u.sent && ConfirmedAtSource(v, j, id) && v.credits == w.credits
  {
    LinkedShard(w, j);
    hide Inv, AckKey, Strip;
    var u := After(net, w, Vote(k, id, shard, vid));
    var vote := Ack(id, Some(shard), None, vid);
    assert u.nodes[k] == SubmitVote(w.nodes[k], id, shard, vid) && u.nodes[j] == w.nodes[j];
    assert u.nodes[k].outbox == w.nodes[k].outbox + [vote];
    assert vote in u.nodes[k].outbox;
  }

  // ---------------------------------------------------------------- where it cannot happen

  /** No shard has a committee: what a manager has until committees are loaded. */
  predicate NoCommittees(n: Node) {
    n.coordinator.Some? ==> forall s :: s in n.coordinator.value.committees ==> n.coordinator.value.committees[s] == {}
  }

  /** A coordinator as it is built, but for its committees. */
  predicate Unused(n: Node) {
    n.coordinator.Some? ==> n.coordinator.value.required == map[] && n.coordinator.value.acks == map[]
  }

  /** Without committees acknowledgements that name a validator count nowhere but at a node
      without a coordinator. */
  predicate Counts(n: Node, m: Message)
    requires m.Ack?
  {
    n.coordinator.None? || Strip(m.validatorId) == ""
  }

  /** All nodes have a coordinator, or none has. */
  predicate Uniform(w: World) {
    (forall j :: 0 <= j < |w.nodes| ==> w.nodes[j].coordinator.None?)
    || (forall j :: 0 <= j < |w.nodes| ==> w.nodes[j].coordinator.Some?)
  }

  /** An acknowledgement that counts was sent; where only some nodes have a coordinator, it
      is the reply of a node that was handed the transfer, not a vote passed around. */
  predicate Honest(w: World, step: Step)
    requires step.at < |w.nodes|
  {
    step.Deliver? && step.message.Ack? && Counts(w.nodes[step.at], step.message) ==>
      step.message in w.sent && (Uniform(w) || step.message.ackToShard.Some?)
  }

  predicate HonestRun(net: Net, w: World, steps: seq<Step>)
    requires Allowed(net, w, steps)
    decreases |steps|
  {
    steps == [] ||
    (HonestRun(net, w, steps[..|steps| - 1]) && Honest(Run(net, w, steps[..|steps| - 1]), steps[|steps| - 1]))
  }

  /** No committees, every open transfer waits for another shard too, and another shard
      stands as acknowledged only for transfers among ids. */
  ghost predicate Backed(n: Node, ids: set<string>) {
    && NoCommittees(n)
    && (n.coordinator.Some? ==>
          var c := n.coordinator.value;
          && (forall id, s :: id in c.acks && s in c.acks[id] && s != n.shard ==> id in ids)
          && (forall id :: id in c.required ==> exists s :: s in c.required[id] && s != n.shard))
  }

  lemma NoCommitteeAt(c: Coordinator, s: int)
    requires forall t :: t in c.committees ==> c.committees[t] == {}
    ensures c.Committee(s) == {}
  {
  }

  lemma SameBacking(n: Node, m: Node, ids: set<string>)
    requires Backed(n, ids) && m.coordinator == n.coordinator && m.shard == n.shard
    ensures Backed(m, ids)
  {
  }

  lemma AckBacked(n: Node, id: string, shard: int, ids: set<string>)
    requires Backed(n, ids) && (shard == n.shard || id in ids)
    ensures Backed(RecordShardAck(n, id, shard), ids) && RecordShardAck(n, id, shard).shard == n.shard
  {
    if n.coordinator.Some? {
      NoCommitteeAt(n.coordinator.value, shard);
    }
  }

  /** Without committees a vote is written down and counts for nothing. */
  lemma VoteChangesNothing(c: Coordinator, id: string, shard: int, vid: string)
    requires c.Committee(shard) == {}
    ensures var d := c.RecordVote(id, shard, vid);
      d.acks == c.acks && d.required == c.required && d.committees == c.committees
  {
    assert shard in c.Acks(id) ==> c.Acks(id) + {shard} == c.Acks(id);
  }

  lemma VoteBacked(n: Node, id: string, shard: int, vid: string, ids: set<string>)
    requires Backed(n, ids) && n.coordinator.Some?
    ensures Backed(n.(coordinator := Some(n.coordinator.value.RecordVote(id, shard, vid))), ids)
  {
    NoCommitteeAt(n.coordinator.value, shard);
    VoteChangesNothing(n.coordinator.value, id, shard, vid);
  }

  lemma SubmitVoteBacked(n: Node, id: string, shard: int, vid: string, ids: set<string>)
    requires Backed(n, ids)
    ensures Backed(SubmitVote(n, id, shard, vid), ids)
  {
    hide Backed, AckKey;
    var v := Strip(if vid != "" then vid else SignerOf(n));
    if v != "" && n.coordinator.Some? {
      var n1 := n.(coordinator := Some(n.coordinator.value.RecordVote(id, shard, v)));
      VoteBacked(n, id, shard, v, ids);
      SameBacking(n1, GossipAck(n1, id, shard, v), ids);
    } else {
      SameBacking(n, SubmitVote(n, id, shard, vid), ids);
    }
  }

  lemma NoteBacked(n: Node, id: string, shard: int, vid: string, ids: set<string>)
    requires Backed(n, ids) && n.coordinator.Some?
    ensures Backed(NoteVote(n, id, shard, vid), ids) && NoteVote(n, id, shard, vid).shard == n.shard
  {
    hide Backed, AckKey;
    var key := AckKey(id, shard, vid);
    var n1 := if key in n.seen then n
              else n.(seen := n.seen + {key}, coordinator := Some(n.coordinator.value.RecordVote(id, shard, vid)));
    VoteBacked(n, id, shard, vid, ids);
    SameBacking(if key in n.seen then n
                else n.(coordinator := Some(n.coordinator.value.RecordVote(id, shard, vid))), n1, ids);
    SameBacking(n1, RelayAck(n1, id, shard, vid), ids);
  }

  lemma SettleBacked(n: Node, id: string, ids: set<string>)
    requires Backed(n, ids)
    ensures Backed(Settle(n, id), ids) && Settle(n, id).shard == n.shard
  {
  }

  lemma OpenedBacked(net: Net, n: Node, r: Request, ids: set<string>)
    requires Backed(n, ids) && AddOutcome(net, n, r).Cross?
    ensures Backed(Opened(net, n, r), ids)
  {
    if n.coordinator.Some? {
      var c, id, t := n.coordinator.value, net.idOf(r), net.shardOf(r.toAddr);
      var d := Opened(net, n, r).coordinator.value;
      assert t in d.required[id] && t != n.shard;
      forall k | k in d.required ensures exists s :: s in d.required[k] && s != n.shard {
        if k != id {
          assert k in c.required && d.required[k] == c.required[k];
        }
      }
    }
  }

  lemma LaunchBacked(n: Node, id: string, ids: set<string>)
    requires Backed(n, ids) && id in n.txs && n.txs[id].fromShard == n.shard
    ensures Backed(Launch(n, id), ids)
  {
    hide Backed, RecordShardAck, Bump, Covered, Withdraw;
    var tx := n.txs[id];
    if Covered(n, tx) {
      var n1 := SetStatus(n.(accounts := Bump(n.accounts, tx.fromAddr, -tx.amount)), id, Debited);
      SameBacking(n, n1, ids);
      AckBacked(n1, id, tx.fromShard, ids);
      SameBacking(RecordShardAck(n1, id, tx.fromShard), Launch(n, id), ids);
    } else {
      SameBacking(n, Launch(n, id), ids);
    }
  }

  lemma CreditBacked(n: Node, m: Message, ids: set<string>)
    requires m.Transfer? && Backed(n, ids)
    ensures Backed(ReceiveCredit(n, m), ids)
  {
    hide Backed, RecordShardAck, Settle, Bump, Withdraw;
    if Credits(n, m) {
      var tx := if m.txId in n.txs then n.txs[m.txId]
                else CrossTx(m.txId, m.fromShard, m.toShard, m.fromAddr, m.toAddr, m.amount, Confirmed);
      var n1 := n.(accounts := Bump(n.accounts, m.toAddr, m.amount),
                   txs := n.txs[m.txId := tx.(status := Confirmed)],
                   pending := Withdraw(n.pending, m.txId));
      SameBacking(n, n1, ids);
      AckBacked(n1, m.txId, m.toShard, ids);
      SettleBacked(RecordShardAck(n1, m.txId, m.toShard), m.txId, ids);
    }
  }

  /** An acknowledgement that counts is for a transfer among ids. */
  lemma RecordedBacked(n: Node, m: Message, ids: set<string>)
    requires m.Ack? && m.ackTxId in n.txs && n.coordinator.Some? && Backed(n, ids)
    requires Counts(n, m) ==> m.ackTxId in ids
    ensures Backed(Recorded(n, m), ids) && Recorded(n, m).shard == n.shard
  {
    hide Backed, RecordShardAck, NoteVote;
    var shard, vid := AckedShard(n.txs[m.ackTxId], m), Strip(m.validatorId);
    if vid != "" {
      NoteBacked(n, m.ackTxId, shard, vid, ids);
    } else {
      AckBacked(n, m.ackTxId, shard, ids);
    }
  }

  lemma ReceiveAckBacked(n: Node, m: Message, ids: set<string>)
    requires m.Ack? && Backed(n, ids) && (Counts(n, m) ==> m.ackTxId in ids)
    ensures Backed(ReceiveAck(n, m), ids)
  {
    hide Backed, RecordShardAck, NoteVote, Settle, Withdraw;
    if AckAccepted(n, m) {
      if n.coordinator.None? {
        SameBacking(n, ReceiveAck(n, m), ids);
      } else {
        RecordedBacked(n, m, ids);
        AcksKeepRecords(n, m.ackTxId, AckedShard(n.txs[m.ackTxId], m), Strip(m.validatorId));
        var n1 := Recorded(n, m);
        SettleBacked(n1, m.ackTxId, ids);
        SameBacking(if ReceiveAck(n, m) == n1 then n1 else Settle(n1, m.ackTxId), ReceiveAck(n, m), ids);
      }
    }
  }

  /** Such a node confirms only what is among ids. */
  lemma ConfirmsBacked(n: Node, m: Message, ids: set<string>)
    requires m.Ack? && Backed(n, ids) && (Counts(n, m) ==> m.ackTxId in ids) && Confirms(n, m)
    ensures m.ackTxId in ids
  {
    if n.coordinator.Some? {
      RecordedBacked(n, m, ids);
      hide Recorded;
      var c, id := Recorded(n, m).coordinator.value, m.ackTxId;
      var s :| s in c.required[id] && s != n.shard;
      assert c.ShardMet(id, s);
      NoCommitteeAt(c, s);
    }
  }

  lemma NodeBacked(net: Net, n: Node, step: Step, ids: set<string>)
    requires Backed(n, ids)
    requires step.Deliver? && step.message.Ack? && Counts(n, step.message) ==> step.message.ackTxId in ids
    ensures Backed(NodeAfter(net, n, step), ids)
  {
    hide Backed, ReceiveCredit, ReceiveAck, Regossip, SubmitVote, Launch, Counts;
    match step {
      case Submit(_, r) =>
        if AddOutcome(net, n, r).Cross? {
          OpenedBacked(net, n, r, ids);
          LaunchBacked(Opened(net, n, r), net.idOf(r), ids);
        } else {
          SameBacking(n, AddTransaction(net, n, r), ids);
        }
      case Deliver(_, m) =>
        if m.Transfer? {
          CreditBacked(n, m, ids);
        } else {
          ReceiveAckBacked(n, m, ids);
        }
      case Retry(_) =>
        RegossipFollows(n, n.pending);
        RegossipEffect(n, n.pending);
        SameBacking(n, Regossip(n, n.pending), ids);
      case Vote(_, txId, shardId, vid) => SubmitVoteBacked(n, txId, shardId, vid, ids);
    }
  }

  lemma MoreIds(n: Node, ids: set<string>, more: set<string>)
    requires Backed(n, ids) && ids <= more
    ensures Backed(n, more)
  {
  }

  // ---------------------------------------------------------------- what a node sends

  /** A vote gossiped or passed on: it names its validator and no shard of arrival. */
  predicate IsVote(m: Message) {
    m.Ack? && m.ackToShard.None? && Strip(m.validatorId) != ""
  }

  /** From n to m, new acknowledgements are votes, and only with a coordinator. */
  ghost predicate SendsVotes(n: Node, m: Node) {
    && m.coordinator.Some? == n.coordinator.Some?
    && forall x :: x in m.outbox && x.Ack? ==> x in n.outbox || (IsVote(x) && n.coordinator.Some?)
  }

  lemma SendsTwice(n: Node, m: Node, o: Node)
    requires SendsVotes(n, m) && SendsVotes(m, o)
    ensures SendsVotes(n, o)
  {
    hide IsVote;
  }

  lemma SendsNothing(n: Node, m: Node)
    requires m.coordinator.Some? == n.coordinator.Some? && m.outbox == n.outbox
    ensures SendsVotes(n, m)
  {
  }

  lemma GossipSends(n: Node, id: string, shard: int, vid: string)
    requires n.coordinator.Some?
    ensures SendsVotes(n, GossipAck(n, id, shard, vid)) && SendsVotes(n, RelayAck(n, id, shard, vid))
  {
    hide AckKey, Strip;
    StripTwice(vid);
  }

  lemma RecordShardAckSends(n: Node, id: string, shard: int)
    ensures SendsVotes(n, RecordShardAck(n, id, shard))
  {
    hide GossipAck, IsVote;
    if n.coordinator.Some? {
      var n1 := n.(coordinator := Some(n.coordinator.value.RecordVote(id, shard, SignerOf(n))));
      SendsNothing(n, n1);
      GossipSends(n1, id, shard, SignerOf(n));
      SendsTwice(n, n1, GossipAck(n1, id, shard, SignerOf(n)));
    }
  }

  lemma SubmitVoteSends(n: Node, id: string, shard: int, vid: string)
    ensures SendsVotes(n, SubmitVote(n, id, shard, vid))
  {
    hide GossipAck, IsVote, Strip;
    var v := Strip(if vid != "" then vid else SignerOf(n));
    if v != "" && n.coordinator.Some? {
      var n1 := n.(coordinator := Some(n.coordinator.value.RecordVote(id, shard, v)));
      SendsNothing(n, n1);
      GossipSends(n1, id, shard, v);
      SendsTwice(n, n1, GossipAck(n1, id, shard, v));
    }
  }

  lemma NoteSends(n: Node, id: string, shard: int, vid: string)
    requires n.coordinator.Some?
    ensures SendsVotes(n, NoteVote(n, id, shard, vid))
  {
    hide RelayAck, IsVote, AckKey;
    var key := AckKey(id, shard, vid);
    var n1 := if key in n.seen then n
              else n.(seen := n.seen + {key}, coordinator := Some(n.coordinator.value.RecordVote(id, shard, vid)));
    SendsNothing(n, n1);
    GossipSends(n1, id, shard, vid);
    SendsTwice(n, n1, RelayAck(n1, id, shard, vid));
  }

  lemma GossipTxSends(n: Node, id: string)
    ensures SendsVotes(n, GossipTx(n, id))
  {
  }

  lemma {:induction false} RegossipSends(n: Node, ids: seq<string>)
    ensures SendsVotes(n, Regossip(n, ids))
    decreases |ids|
  {
    hide SendsVotes, GossipTx;
    if ids == [] {
      SendsNothing(n, n);
    } else {
      var m, id := Regossip(n, ids[..|ids| - 1]), ids[|ids| - 1];
      RegossipSends(n, ids[..|ids| - 1]);
      GossipTxSends(m, id);
      SendsTwice(n, m, GossipTx(m, id));
    }
  }

  lemma LaunchSends(n: Node, id: string)
    requires id in n.txs
    ensures SendsVotes(n, Launch(n, id))
  {
    hide SendsVotes, RecordShardAck, GossipTx, Bump, Covered, Withdraw;
    var tx := n.txs[id];
    if Covered(n, tx) {
      var n1 := SetStatus(n.(accounts := Bump(n.accounts, tx.fromAddr, -tx.amount)), id, Debited);
      var n2 := RecordShardAck(n1, id, tx.fromShard);
      SendsNothing(n, n1);
      RecordShardAckSends(n1, id, tx.fromShard);
      GossipTxSends(n2, id);
      SendsTwice(n, n1, n2);
      SendsTwice(n, n2, GossipTx(n2, id));
    } else {
      SendsNothing(n, Launch(n, id));
    }
  }

  lemma SettleSends(n: Node, id: string)
    ensures SendsVotes(n, Settle(n, id))
  {
  }

  lemma CreditSends(n: Node, m: Message)
    requires m.Transfer?
    ensures SendsVotes(n, ReceiveCredit(n, m))
  {
    hide SendsVotes, RecordShardAck, Settle, Bump, Withdraw;
    if Credits(n, m) {
      var tx := if m.txId in n.txs then n.txs[m.txId]
                else CrossTx(m.txId, m.fromShard, m.toShard, m.fromAddr, m.toAddr, m.amount, Confirmed);
      var n1 := n.(accounts := Bump(n.accounts, m.toAddr, m.amount),
                   txs := n.txs[m.txId := tx.(status := Confirmed)],
                   pending := Withdraw(n.pending, m.txId));
      var n2 := RecordShardAck(n1, m.txId, m.toShard);
      SendsNothing(n, n1);
      RecordShardAckSends(n1, m.txId, m.toShard);
      SettleSends(n2, m.txId);
      SendsTwice(n, n1, n2);
      SendsTwice(n, n2, Settle(n2, m.txId));
    } else {
      SendsNothing(n, n);
    }
  }

  lemma ReceiveAckSends(n: Node, m: Message)
    requires m.Ack?
    ensures SendsVotes(n, ReceiveAck(n, m))
  {
    hide SendsVotes, RecordShardAck, NoteVote, Settle, Withdraw;
    if AckAccepted(n, m) && n.coordinator.Some? {
      var id, shard, vid := m.ackTxId, AckedShard(n.txs[m.ackTxId], m), Strip(m.validatorId);
      AcksKeepRecords(n, id, shard, vid);
      NoteSends(n, id, shard, vid);
      RecordShardAckSends(n, id, shard);
      SendsNothing(n, n);
      var n1 := Recorded(n, m);
      if ReceiveAck(n, m) != n1 {
        SettleSends(n1, id);
        SendsTwice(n, n1, Settle(n1, id));
        SendsNothing(Settle(n1, id), ReceiveAck(n, m));
        SendsTwice(n, Settle(n1, id), ReceiveAck(n, m));
      }
    } else {
      SendsNothing(n, ReceiveAck(n, m));
    }
  }

  lemma NodeSends(net: Net, n: Node, step: Step)
    ensures SendsVotes(n, NodeAfter(net, n, step))
  {
    hide SendsVotes, ReceiveCredit, ReceiveAck, Regossip, SubmitVote, Launch;
    match step {
      case Submit(_, r) =>
        if AddOutcome(net, n, r).Cross? {
          SendsNothing(n, Opened(net, n, r));
          LaunchSends(Opened(net, n, r), net.idOf(r));
          SendsTwice(n, Opened(net, n, r), AddTransaction(net, n, r));
        } else {
          SendsNothing(n, AddTransaction(net, n, r));
        }
      case Deliver(_, m) =>
        if m.Transfer? {
          CreditSends(n, m);
        } else {
          ReceiveAckSends(n, m);
        }
      case Retry(_) => RegossipSends(n, n.pending);
      case Vote(_, txId, shardId, vid) => SubmitVoteSends(n, txId, shardId, vid);
    }
  }

  // ---------------------------------------------------------------- the invariant

  /** The transfers that have arrived. */
  function ArrivedIds(w: World): set<string> {
    set id | id in w.debits && Arrived(w, id)
  }

  /** Acknowledgements in circulation are replies for what has arrived, or votes, and votes
      only where some node has a coordinator. */
  ghost predicate AcksPaid(w: World) {
    forall m :: m in w.sent && m.Ack? ==>
      if m.ackToShard.Some? then m.ackTxId in ArrivedIds(w)
      else IsVote(m) && exists j :: 0 <= j < |w.nodes| && w.nodes[j].coordinator.Some?
  }

  ghost predicate AllBacked(w: World) {
    forall j :: 0 <= j < |w.nodes| ==> Backed(w.nodes[j], ArrivedIds(w))
  }

  /** New acknowledgements in circulation are replies, or votes of the node. */
  lemma NewAck(net: Net, w: World, step: Step, m: Message)
    requires step.at < |w.nodes| && Linked(w)
    requires m in After(net, w, step).sent && m.Ack? && m !in w.sent
    ensures m in Replies(w.nodes[step.at], step) || (IsVote(m) && w.nodes[step.at].coordinator.Some?)
  {
    NodeSends(net, w.nodes[step.at], step);
    hide NodeAfter, Debits, Pays, Replies, IsVote;
  }

  /** A reply names its shard, and is for a transfer that has arrived. */
  lemma ReplyArrived(net: Net, w: World, step: Step, m: Message)
    requires Inv(w) && Enabled(w, step) && m in Replies(w.nodes[step.at], step)
    ensures m.Ack? && m.ackToShard.Some? && m.ackTxId in ArrivedIds(After(net, w, step))
  {
    var i, n := step.at, w.nodes[step.at];
    LinkedShard(w, i);
    ReceiveCreditEffect(n, step.message);
    hide DebitsOk, RecordsOk, OneOwner, CreditsOk, ReceiveCredit, PaidAcks, TransfersIn, Bump, Credits;
    assert After(net, w, step).nodes[i] == ReceiveCredit(n, step.message);
  }

  /** Nothing is taken off a node's records. */
  lemma RecordsStay(net: Net, n: Node, step: Step)
    ensures n.txs.Keys <= NodeAfter(net, n, step).txs.Keys
  {
    hide AddTransaction, ReceiveAck, ReceiveCredit, Regossip, SubmitVote, PaidAcks, TransfersIn, Bump, Covered, Credits;
    match step {
      case Submit(_, r) => AddTransactionEffect(net, n, r);
      case Deliver(_, m) =>
        if m.Ack? {
          ReceiveAckEffect(n, m);
        } else {
          ReceiveCreditEffect(n, m);
        }
      case Retry(_) => RegossipEffect(n, n.pending);
      case Vote(_, txId, shardId, vid) => SubmitVoteQuiet(n, txId, shardId, vid);
    }
  }

  /** What has arrived stays. */
  lemma ArrivedStays(net: Net, w: World, step: Step, id: string)
    requires Clean(net, w, step) && id in w.debits && Arrived(w, id)
    ensures id in After(net, w, step).debits && Arrived(After(net, w, step), id)
  {
    RecordsStay(net, w.nodes[step.at], step);
    hide NodeAfter, Covered, Pays, Replies;
    var v := After(net, w, step);
    assert v.debits[id] == w.debits[id] || Repeated(net, w, step.request);
  }

  lemma IdsGrow(net: Net, w: World, step: Step)
    requires Clean(net, w, step)
    ensures ArrivedIds(w) <= ArrivedIds(After(net, w, step))
  {
    hide After, Arrived, Fresh, Repeated, Crosses;
    forall id | id in ArrivedIds(w) ensures id in ArrivedIds(After(net, w, step)) {
      ArrivedStays(net, w, step, id);
    }
  }

  /** Which nodes have a coordinator does not change. */
  lemma SameKind(net: Net, w: World, step: Step)
    requires step.at < |w.nodes|
    ensures var v := After(net, w, step);
      |v.nodes| == |w.nodes|
      && forall j :: 0 <= j < |w.nodes| ==> v.nodes[j].coordinator.Some? == w.nodes[j].coordinator.Some?
  {
    NodeSends(net, w.nodes[step.at], step);
    hide NodeAfter, Debits, Pays, Replies;
  }

  lemma StepAcksPaid(net: Net, w: World, step: Step)
    requires Inv(w) && Clean(net, w, step) && AcksPaid(w)
    ensures AcksPaid(After(net, w, step))
  {
    var v := After(net, w, step);
    LinkedOk(w);
    IdsGrow(net, w, step);
    SameKind(net, w, step);
    hide Inv, After, Clean, ArrivedIds, Replies, IsVote;
    forall m | m in v.sent && m.Ack?
      ensures if m.ackToShard.Some? then m.ackTxId in ArrivedIds(v)
              else IsVote(m) && exists j :: 0 <= j < |v.nodes| && v.nodes[j].coordinator.Some?
    {
      if m !in w.sent {
        NewAck(net, w, step, m);
        if m in Replies(w.nodes[step.at], step) {
          ReplyArrived(net, w, step, m);
        } else {
          VoteHasNoShard(m);
          assert v.nodes[step.at].coordinator.Some?;
        }
      }
    }
  }

  lemma VoteHasNoShard(m: Message)
    requires IsVote(m)
    ensures m.Ack? && m.ackToShard.None?
  {
  }

  /** What counts, in an honest step, is for a transfer that has arrived. */
  lemma HonestArrived(w: World, step: Step)
    requires step.at < |w.nodes| && Honest(w, step) && AcksPaid(w)
    requires step.Deliver? && step.message.Ack? && Counts(w.nodes[step.at], step.message)
    ensures step.message.ackTxId in ArrivedIds(w)
  {
    hide ArrivedIds, Strip;
  }

  lemma StepBacked(net: Net, w: World, step: Step)
    requires Clean(net, w, step) && Honest(w, step) && AcksPaid(w) && AllBacked(w)
    ensures AllBacked(After(net, w, step))
  {
    var v, i := After(net, w, step), step.at;
    IdsGrow(net, w, step);
    hide ArrivedIds, Backed, NodeAfter, Replies, Debits, Pays, AcksPaid, Honest, Counts;
    if step.Deliver? && step.message.Ack? && Counts(w.nodes[i], step.message) {
      HonestArrived(w, step);
    }
    NodeBacked(net, w.nodes[i], step, ArrivedIds(w));
    forall j | 0 <= j < |v.nodes| ensures Backed(v.nodes[j], ArrivedIds(v)) {
      MoreIds(v.nodes[j], ArrivedIds(w), ArrivedIds(v));
    }
  }

  lemma ArrivedCredited(w: World, id: string)
    requires Inv(w) && id in ArrivedIds(w)
    ensures CreditedIn(w.credits, id)
  {
    hide DebitsOk, RecordsOk, OneOwner, SentOk, Arrived, CreditedIn, CreditOk;
  }

  /** An honest step confirms nothing unpaid. */
  lemma HonestIsPaid(w: World, step: Step)
    requires Inv(w) && step.at < |w.nodes| && Honest(w, step) && AcksPaid(w) && AllBacked(w)
    ensures !Unpaid(w, step)
  {
    hide Inv, ArrivedIds, Backed, AcksPaid, Honest, Counts, Confirms, CreditedIn;
    if step.Deliver? && step.message.Ack? && Confirms(w.nodes[step.at], step.message) {
      if Counts(w.nodes[step.at], step.message) {
        HonestArrived(w, step);
      }
      ConfirmsBacked(w.nodes[step.at], step.message, ArrivedIds(w));
      ArrivedCredited(w, step.message.ackTxId);
    }
  }

  lemma StartBacked(n: Node)
    requires NoCommittees(n) && Unused(n)
    ensures Backed(n, {})
  {
  }

  /** Nodes as they are built, no committees loaded. */
  predicate Simple(w: World) {
    forall j :: 0 <= j < |w.nodes| ==> NoCommittees(w.nodes[j]) && Unused(w.nodes[j])
  }

  lemma {:induction false} RunPaid(net: Net, w: World, steps: seq<Step>)
    requires ValidNet(net) && Init(net, w) && Simple(w)
    requires Allowed(net, w, steps) && CleanRun(net, w, steps) && HonestRun(net, w, steps)
    ensures var v := Run(net, w, steps);
      Inv(v) && AcksPaid(v) && AllBacked(v) && ConfirmedPaid(v) && NoneUnpaid(net, w, steps)
    decreases |steps|
  {
    TotalOverRun(net, w, steps);
    if steps == [] {
      forall j | 0 <= j < |w.nodes| ensures Backed(w.nodes[j], ArrivedIds(w)) {
        StartBacked(w.nodes[j]);
      }
    } else {
      var most, last := steps[..|steps| - 1], steps[|steps| - 1];
      RunPaid(net, w, most);
      var v := Run(net, w, most);
      hide Inv, Init, After, AcksPaid, AllBacked, ConfirmedPaid, Honest, Unpaid, Simple;
      assert Enabled(v, last);
      StepAcksPaid(net, v, last);
      StepBacked(net, v, last);
      HonestIsPaid(v, last);
      StepPaidExactly(net, v, last);
    }
  }

  // ---------------------------------------------------------------- the theorem

  /** After any run of nodes with or without coordinators, no committees loaded, in which
      the acknowledgements that count were sent: a transfer confirmed at its source was
      debited, and its recipient was credited. */
  lemma ConfirmedWasCredited(net: Net, w: World, steps: seq<Step>, j: nat, id: string)
    requires ValidNet(net) && Init(net, w) && Simple(w)
    requires Allowed(net, w, steps) && CleanRun(net, w, steps) && HonestRun(net, w, steps)
    requires j < |w.nodes| && ConfirmedAtSource(Run(net, w, steps), j, id)
    ensures var v := Run(net, w, steps);
      && id in v.debits
      && exists k :: 0 <= k < |v.credits| && v.credits[k]
           == Credit(id, v.debits[id].toAddr, ToSatoshi(v.debits[id].amount))
  {
    RunPaid(net, w, steps);
    var v := Run(net, w, steps);
    hide Run, Allowed, CleanRun, HonestRun, Init, Simple, AcksPaid, AllBacked, DebitsOk, RecordsOk, OneOwner, SentOk,
      ToSatoshi, Arrived;
    assert CreditedIn(v.credits, id);
    var k :| 0 <= k < |v.credits| && v.credits[k].txId == id;
    assert CreditOk(v, v.credits[k]);
  }
}
