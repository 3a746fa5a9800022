/** What a shard network gets done: a covered transfer is debited and sent, sent again while
    it is pending, credited when it is delivered, and from every reachable state everything
    debited can still be credited, so that no money need stay in flight. */
module ShardDelivers {
  import opened Wrappers
  import opened Text
  import opened Sums
  import opened Money
  import opened Sharding
  import opened ShardNet

  // ------------------------------------------------------------ one submission

  /** The fields of a node that no step changes. */
  predicate SameNode(n: Node, m: Node) {
    && m.shard == n.shard && m.nodeId == n.nodeId && m.validatorId == n.validatorId && m.gossips == n.gossips
    && m.hasDb == n.hasDb
  }

  /** The node appended to its outbox, and its accounts and transfers stayed. */
  predicate Talks(n: Node, m: Node) {
    && SameNode(n, m) && m.accounts == n.accounts && m.txs == n.txs && m.pending == n.pending && m.local == n.local
    && n.outbox <= m.outbox
  }

  lemma AckTalks(n: Node, id: string, shard: int, vid: string)
    ensures Talks(n, GossipAck(n, id, shard, vid)) && Talks(n, RelayAck(n, id, shard, vid))
  {
    hide AckKey, Strip;
  }

  lemma RecordTalks(n: Node, id: string, shard: int)
    ensures Talks(n, RecordShardAck(n, id, shard))
  {
    hide GossipAck;
    if n.coordinator.Some? {
      AckTalks(n.(coordinator := Some(n.coordinator.value.RecordVote(id, shard, SignerOf(n)))), id, shard, SignerOf(n));
    }
  }

  /** The request can be paid. */
  predicate Payable(n: Node, r: Request) {
    && r.amount > 0.0 && r.fromAddr != "" && r.toAddr != "" && n.hasDb
    && BalanceOf(n.accounts, r.fromAddr) as real / 1000000.0 >= r.amount
  }

  lemma SubmitPayable(net: Net, n: Node, r: Request)
    requires net.shardOf(r.fromAddr) == n.shard != net.shardOf(r.toAddr) && Payable(n, r)
    ensures var id, f, t, m := net.idOf(r), n.shard, net.shardOf(r.toAddr), AddTransaction(net, n, r);
      && SameNode(n, m) && m.local == n.local && n.outbox <= m.outbox && m.pending == n.pending + [id]
      && m.txs == n.txs[id := CrossTx(id, f, t, r.fromAddr, r.toAddr, r.amount, Debited)]
      && BalanceOf(n.accounts, r.fromAddr) >= ToSatoshi(r.amount)
      && m.accounts == n.accounts[r.fromAddr := BalanceOf(n.accounts, r.fromAddr) - ToSatoshi(r.amount)]
      && (n.gossips ==> Transfer(id, f, t, r.fromAddr, r.toAddr, r.amount) in m.outbox[|n.outbox|..])
  {
    hide RecordShardAck, Bump, ToSatoshi, RemoveFirst;
    var id, t := net.idOf(r), RecordOf(net, r);
    var o := Opened(net, n, r);
    assert Covered(n, t);
    DebitIsExact(n, t);
    var p := SetStatus(o.(accounts := Bump(o.accounts, r.fromAddr, -r.amount)), id, Debited);
    RecordTalks(p, id, t.fromShard);
    var q := RecordShardAck(p, id, t.fromShard);
    assert n.gossips ==> GossipTx(q, id).outbox[|n.outbox|..] == q.outbox[|n.outbox|..] + [Export(t)];
  }

  lemma SubmitUnpayable(net: Net, n: Node, r: Request)
    requires net.shardOf(r.fromAddr) == n.shard != net.shardOf(r.toAddr) && !Payable(n, r)
    ensures var id, f, t, m := net.idOf(r), n.shard, net.shardOf(r.toAddr), AddTransaction(net, n, r);
      && SameNode(n, m) && m.local == n.local && m.outbox == n.outbox && m.accounts == n.accounts
      && m.txs == n.txs[id := CrossTx(id, f, t, r.fromAddr, r.toAddr, r.amount, Failed)]
      && multiset(m.pending) == multiset(n.pending) && forall y :: y in n.pending && y != id ==> y in m.pending
  {
    hide RecordShardAck, Bump, ToSatoshi, RemoveFirst;
    assert !Covered(n, RecordOf(net, r));
    RemovedOne(n.pending + [net.idOf(r)], net.idOf(r));
  }

  /** A transfer to another shard is debited exactly when it can be paid: then the satoshi leave
      the sender, the transfer waits as debited and, at a node that gossips, is sent. Otherwise
      it is on record as failed and no balance moves. */
  lemma SubmitExactly(net: Net, n: Node, r: Request)
    requires net.shardOf(r.fromAddr) == n.shard != net.shardOf(r.toAddr)
    ensures var id, t, m := net.idOf(r), net.shardOf(r.toAddr), AddTransaction(net, n, r);
      var satoshi, paid := ToSatoshi(r.amount), Payable(n, r);
      && m.txs == n.txs[id := CrossTx(id, n.shard, t, r.fromAddr, r.toAddr, r.amount, if paid then Debited else Failed)]
      && (paid ==> BalanceOf(n.accounts, r.fromAddr) >= satoshi)
      && m.accounts == (if paid then n.accounts[r.fromAddr := BalanceOf(n.accounts, r.fromAddr) - satoshi]
                        else n.accounts)
      && multiset(m.pending) == multiset(n.pending) + (if paid then multiset{id} else multiset{})
      && (paid && n.gossips ==>
            |n.outbox| <= |m.outbox|
            && Transfer(id, n.shard, t, r.fromAddr, r.toAddr, r.amount) in m.outbox[|n.outbox|..])
      && (!paid ==> m.outbox == n.outbox)
  {
    hide AddTransaction, Payable, ToSatoshi;
    if Payable(n, r) {
      SubmitPayable(net, n, r);
    } else {
      SubmitUnpayable(net, n, r);
    }
  }

  /** A transfer of another shard's sender is refused, one within the shard is listed. */
  lemma SubmitElse(net: Net, n: Node, r: Request)
    ensures net.shardOf(r.fromAddr) != n.shard ==> AddTransaction(net, n, r) == n
    ensures net.shardOf(r.fromAddr) == n.shard == net.shardOf(r.toAddr) ==>
      AddTransaction(net, n, r) == n.(local := n.local + [r])
  {
    hide Launch, Opened;
  }

  lemma {:induction false} RemovedOne(s: seq<string>, x: string)
    requires x in s
    ensures multiset(RemoveFirst(s, x)) == multiset(s) - multiset{x}
    ensures forall y :: y in s && y != x ==> y in RemoveFirst(s, x)
  {
    assert s == [s[0]] + s[1..];
    if s[0] != x {
      RemovedOne(s[1..], x);
    }
  }

  lemma Withdrawn(pending: seq<string>, x: string)
    ensures forall y :: y in pending && y != x ==> y in Withdraw(pending, x)
  {
    if x in pending {
      RemovedOne(pending, x);
    }
  }

  // ------------------------------------------------------------ one delivery

  /** A delivered transfer is credited exactly when it is for this shard, not confirmed here yet and
      well formed: then its satoshi reach the recipient, and it is on record as confirmed. */
  lemma DeliveryExactly(n: Node, m: Message)
    requires m.Transfer?
    ensures var o := ReceiveCredit(n, m);
      var pays := m.toShard == n.shard && m.txId != "" && m.amount > 0.0 && m.toAddr != "" && n.hasDb
                  && (m.txId in n.txs ==> n.txs[m.txId].status != Confirmed);
      && SameNode(n, o) && n.outbox <= o.outbox
      && (pays ==>
            && o.accounts == n.accounts[m.toAddr := BalanceOf(n.accounts, m.toAddr) + ToSatoshi(m.amount)]
            && o.txs.Keys == n.txs.Keys + {m.txId} && o.txs[m.txId].status == Confirmed
            && (forall k :: k in n.txs && k != m.txId ==> o.txs[k] == n.txs[k])
            && (forall k :: k in n.pending && k != m.txId ==> k in o.pending))
      && (!pays ==> o == n)
  {
    hide RecordShardAck, ToSatoshi, RemoveFirst, Withdraw;
    ToSatoshiMirrors(m.amount);
    if Credits(n, m) {
      Withdrawn(n.pending, m.txId);
      var tx := if m.txId in n.txs then n.txs[m.txId]
                else CrossTx(m.txId, m.fromShard, m.toShard, m.fromAddr, m.toAddr, m.amount, Confirmed);
      var p := n.(accounts := Bump(n.accounts, m.toAddr, m.amount), txs := n.txs[m.txId := tx.(status := Confirmed)],
                  pending := Withdraw(n.pending, m.txId));
      RecordTalks(p, m.txId, m.toShard);
    }
  }

  /** A delivery is accepted, and acknowledged to the peer, exactly when the transfer is for this shard and
      was credited, now or before. */
  lemma AcceptedExactly(net: Net, w: World, step: Step)
    requires step.at < |w.nodes| && step.Deliver? && step.message.Transfer?
    ensures var n, m := w.nodes[step.at], step.message;
      var credited := m.txId in ReceiveCredit(n, m).txs && ReceiveCredit(n, m).txs[m.txId].status == Confirmed;
      CreditAccepted(n, m) <==> m.toShard == n.shard && m.txId != "" && credited
    ensures CreditAccepted(w.nodes[step.at], step.message) ==>
      Ack(step.message.txId, Some(step.message.toShard), Some(step.message.toShard), SignerOf(w.nodes[step.at]))
        in After(net, w, step).sent
  {
    hide ReceiveCredit, ToSatoshi;
    DeliveryExactly(w.nodes[step.at], step.message);
  }

  // ------------------------------------------------------------ sending again

  lemma {:induction false} ResendEffect(n: Node, ids: seq<string>)
    ensures Talks(n, Regossip(n, ids))
    ensures forall id :: id in ids && id in n.txs && n.txs[id].status == Debited && n.gossips ==>
                           Export(n.txs[id]) in Regossip(n, ids).outbox[|n.outbox|..]
    decreases |ids|
  {
    hide Export;
    if ids != [] {
      var m, last := Regossip(n, ids[..|ids| - 1]), ids[|ids| - 1];
      ResendEffect(n, ids[..|ids| - 1]);
      assert forall id :: id in ids ==> id in ids[..|ids| - 1] || id == last;
      var o := Regossip(n, ids);
      assert o.outbox == m.outbox || o.outbox == m.outbox + [Export(m.txs[last])];
      assert o.outbox[|n.outbox|..] == m.outbox[|n.outbox|..] + o.outbox[|m.outbox|..];
    }
  }

  /** While a transfer is pending and debited, the node that gossips sends it again in every round. */
  lemma RetrySends(n: Node, id: string)
    requires n.gossips && id in n.pending && id in n.txs && n.txs[id].status == Debited
    ensures var t := n.txs[id];
      && Talks(n, Regossip(n, n.pending))
      && Transfer(t.txId, t.fromShard, t.toShard, t.fromAddr, t.toAddr, t.amount)
           in Regossip(n, n.pending).outbox[|n.outbox|..]
  {
    ResendEffect(n, n.pending);
  }

  // ------------------------------------------------------------ every step

  /** Everything debited and unconfirmed at the node is on its pending list. */
  predicate WaitsForAll(n: Node) {
    forall id :: id in n.txs && n.txs[id].status == Debited ==> id in n.pending
  }

  lemma SubmitWaits(net: Net, n: Node, r: Request)
    ensures SameNode(n, AddTransaction(net, n, r))
    ensures WaitsForAll(n) ==> WaitsForAll(AddTransaction(net, n, r))
  {
    hide AddTransaction, Payable, ToSatoshi;
    SubmitElse(net, n, r);
    if net.shardOf(r.fromAddr) == n.shard != net.shardOf(r.toAddr) {
      if Payable(n, r) {
        SubmitPayable(net, n, r);
      } else {
        SubmitUnpayable(net, n, r);
      }
    }
  }

  lemma AckWaits(n: Node, m: Message)
    requires m.Ack?
    ensures SameNode(n, ReceiveAck(n, m))
    ensures WaitsForAll(n) ==> WaitsForAll(ReceiveAck(n, m))
  {
    hide RecordShardAck, NoteVote, Settle, Withdraw, Strip;
    if AckAccepted(n, m) {
      var id := m.ackTxId;
      var tx := n.txs[id];
      var shardId, vid := AckedShard(tx, m), Strip(m.validatorId);
      Withdrawn(n.pending, id);
      if n.coordinator.Some? {
        NoteTalks(n, id, shardId, vid);
        RecordTalks(n, id, shardId);
        var n1 := if vid != "" then NoteVote(n, id, shardId, vid)
                  else if tx.fromShard == n.shard then RecordShardAck(n, id, shardId)
                  else n;
        SettleTalks(n1, id);
      }
    }
  }

  lemma NoteTalks(n: Node, id: string, shard: int, vid: string)
    requires n.coordinator.Some?
    ensures Talks(n, NoteVote(n, id, shard, vid))
  {
    hide RelayAck, AckKey;
    var key := AckKey(id, shard, vid);
    var n1 := if key in n.seen then n
              else n.(seen := n.seen + {key},
                      coordinator := Some(n.coordinator.value.RecordVote(id, shard, vid)));
    AckTalks(n1, id, shard, vid);
  }

  lemma SettleTalks(n: Node, id: string)
    ensures Talks(n, Settle(n, id))
  {
  }

  lemma VoteTalks(n: Node, id: string, shard: int, vid: string)
    ensures Talks(n, SubmitVote(n, id, shard, vid))
  {
    hide GossipAck, Strip;
    if n.coordinator.Some? {
      var v := Strip(if vid != "" then vid else SignerOf(n));
      AckTalks(n.(coordinator := Some(n.coordinator.value.RecordVote(id, shard, v))), id, shard, v);
    }
  }

  lemma StepWaits(net: Net, n: Node, step: Step)
    ensures SameNode(n, NodeAfter(net, n, step))
    ensures WaitsForAll(n) ==> WaitsForAll(NodeAfter(net, n, step))
  {
    hide AddTransaction, ReceiveCredit, ReceiveAck, Regossip, SubmitVote, ToSatoshi;
    match step {
      case Submit(_, r) => SubmitWaits(net, n, r);
      case Deliver(_, m) =>
        if m.Ack? {
          AckWaits(n, m);
        } else {
          DeliveryExactly(n, m);
        }
      case Retry(_) => ResendEffect(n, n.pending);
      case Vote(_, id, shard, vid) => VoteTalks(n, id, shard, vid);
    }
  }

  // ------------------------------------------------------------ every run

  /** The transfer of a debit. */
  function TransferOf(t: CrossTx): Message {
    Transfer(t.txId, t.fromShard, t.toShard, t.fromAddr, t.toAddr, t.amount)
  }

  predicate SourceSilent(w: World, t: CrossTx) {
    InRange(w, t.fromShard) ==> !w.nodes[t.fromShard].gossips
  }

  /** Everything debited at a node that gossips was sent, and everything unconfirmed at its source
      waits there. */
  predicate AllSent(w: World) {
    && (forall id :: id in w.debits ==> SourceSilent(w, w.debits[id]) || TransferOf(w.debits[id]) in w.sent)
    && (forall j :: 0 <= j < |w.nodes| ==> WaitsForAll(w.nodes[j]))
  }

  lemma StepSends(net: Net, w: World, step: Step)
    requires Inv(w) && Enabled(w, step) && AllSent(w)
    ensures AllSent(After(net, w, step))
    ensures forall j :: 0 <= j < |w.nodes| ==> SameNode(w.nodes[j], After(net, w, step).nodes[j])
  {
    hide DebitsOk, RecordsOk, OneOwner, SentOk, CreditsOk, AddTransaction, ReceiveCredit, ReceiveAck, Regossip,
      SubmitVote, Replies, Payable, WaitsForAll, ToSatoshi, Pays, FromSatoshi;
    var n, v := w.nodes[step.at], After(net, w, step);
    LinkedShard(w, step.at);
    StepWaits(net, n, step);
    if Debits(net, n, step) {
      SentWhenDebited(net, n, step.request);
      var t := RecordOf(net, step.request);
      if n.gossips {
        var o := AddTransaction(net, n, step.request).outbox;
        assert TransferOf(t) in o;
      }
    }
  }

  lemma SentWhenDebited(net: Net, n: Node, r: Request)
    requires AddOutcome(net, n, r).Cross? && Covered(n, RecordOf(net, r))
    ensures n.gossips ==> TransferOf(RecordOf(net, r)) in AddTransaction(net, n, r).outbox
  {
    hide AddTransaction, ToSatoshi;
    SubmitPayable(net, n, r);
    var o := AddTransaction(net, n, r).outbox;
    if n.gossips {
      assert TransferOf(RecordOf(net, r)) in o[|n.outbox|..];
    }
  }

  lemma {:induction false} RunSends(net: Net, w: World, steps: seq<Step>)
    requires ValidNet(net) && Init(net, w) && Allowed(net, w, steps) && CleanRun(net, w, steps)
    ensures AllSent(Run(net, w, steps))
    ensures forall j :: 0 <= j < |w.nodes| ==> SameNode(w.nodes[j], Run(net, w, steps).nodes[j])
    decreases |steps|
  {
    hide Inv, Total, NodeAfter, Clean, Lost, After, AllSent, ValidNet;
    if steps == [] {
      assert AllSent(w) by { StartSends(net, w); }
    } else {
      var front := steps[..|steps| - 1];
      RunSends(net, w, front);
      TotalOverRun(net, w, front);
      StepSends(net, Run(net, w, front), steps[|steps| - 1]);
    }
  }

  lemma StartSends(net: Net, w: World)
    requires Init(net, w)
    ensures AllSent(w)
  {
  }

  /** Ids are digests, never empty. */
  ghost predicate Named(net: Net) {
    forall r :: net.idOf(r) != ""
  }

  lemma {:induction false} DebitsNamed(net: Net, w: World, steps: seq<Step>)
    requires Named(net) && Init(net, w) && Allowed(net, w, steps)
    ensures "" !in Run(net, w, steps).debits
    decreases |steps|
  {
    hide NodeAfter, Debits, Pays, Replies;
    if steps != [] {
      DebitsNamed(net, w, steps[..|steps| - 1]);
    }
  }

  /** The source gossips and the destination has a database. */
  predicate Open(w: World, t: CrossTx) {
    && (InRange(w, t.fromShard) ==> w.nodes[t.fromShard].gossips)
    && (InRange(w, t.toShard) ==> w.nodes[t.toShard].hasDb)
  }

  function DeliveryOf(t: CrossTx): Step
    requires t.toShard >= 0
  {
    Deliver(t.toShard, TransferOf(t))
  }

  /** The transfer can be delivered, is credited then, and if it was not before, its satoshi reach
      the recipient. */
  predicate Lands(net: Net, v: World, t: CrossTx) {
    && InRange(v, t.toShard) && Clean(net, v, DeliveryOf(t))
    && var n, u := v.nodes[t.toShard], After(net, v, DeliveryOf(t));
      && u.debits == v.debits && v.credits <= u.credits && CreditedIn(u.credits, t.txId)
      && (!CreditedIn(v.credits, t.txId) ==>
            u.nodes[t.toShard].accounts
            == n.accounts[t.toAddr := BalanceOf(n.accounts, t.toAddr) + ToSatoshi(t.amount)])
  }

  /** After any run, whatever was debited at a node that gossips can be delivered, and if it was not
      credited before, that delivery puts its satoshi in the recipient's account. */
  lemma DebitedCanBeDelivered(net: Net, w: World, steps: seq<Step>, id: string)
    requires ValidNet(net) && Named(net) && Init(net, w) && Allowed(net, w, steps) && CleanRun(net, w, steps)
    requires id in Run(net, w, steps).debits && Open(w, Run(net, w, steps).debits[id])
    ensures Lands(net, Run(net, w, steps), Run(net, w, steps).debits[id])
    ensures Run(net, w, steps).debits[id].txId == id
  {
    TotalOverRun(net, w, steps);
    RunSends(net, w, steps);
    DebitsNamed(net, w, steps);
    var v := Run(net, w, steps);
    hide Run, Allowed, CleanRun, Init, Inv, AllSent, Lands;
    DeliveryCredits(net, v, id);
  }

  lemma DeliveryCredits(net: Net, v: World, id: string)
    requires Inv(v) && AllSent(v) && id in v.debits && id != "" && Open(v, v.debits[id])
    ensures Lands(net, v, v.debits[id]) && v.debits[id].txId == id
  {
    hide RecordsOk, OneOwner, SentOk, WaitsForAll, ReceiveCredit, ToSatoshi;
    assert DebitOk(v, id);
    var t := v.debits[id];
    var m := TransferOf(t);
    LinkedShard(v, t.toShard);
    assert m in v.sent;
    var n := v.nodes[t.toShard];
    DeliveryExactly(n, m);
    var u := After(net, v, DeliveryOf(t));
    if Arrived(v, id) {
      CreditedMore(v.credits, u.credits, id);
    } else {
      assert id !in n.txs && Credits(n, m);
      assert u.credits[|v.credits|].txId == id;
    }
  }

  /** Every node gossips and has a database. */
  predicate AllOpen(w: World) {
    forall j :: 0 <= j < |w.nodes| ==> w.nodes[j].gossips && w.nodes[j].hasDb
  }

  lemma OpenWhenAll(w: World, t: CrossTx)
    requires AllOpen(w)
    ensures Open(w, t)
  {
  }

  function Uncredited(w: World): set<string> {
    set id | id in w.debits && !CreditedIn(w.credits, id)
  }

  /** more is a run of deliveries that goes on from steps, debits nothing and leaves nothing
      uncredited. */
  predicate Finishes(net: Net, w: World, steps: seq<Step>, more: seq<Step>)
    requires Allowed(net, w, steps)
  {
    && (forall k :: 0 <= k < |more| ==> more[k].Deliver?)
    && Allowed(net, w, steps + more) && CleanRun(net, w, steps + more)
    && LostOver(net, w, steps + more) == LostOver(net, w, steps)
    && Run(net, w, steps + more).debits == Run(net, w, steps).debits
    && Uncredited(Run(net, w, steps + more)) == {}
  }

  lemma FinishesLater(net: Net, w: World, steps: seq<Step>, step: Step, rest: seq<Step>)
    requires Allowed(net, w, steps) && Allowed(net, w, steps + [step]) && Finishes(net, w, steps + [step], rest)
    requires step.Deliver? && LostOver(net, w, steps + [step]) == LostOver(net, w, steps)
    requires Run(net, w, steps + [step]).debits == Run(net, w, steps).debits
    ensures Finishes(net, w, steps, [step] + rest)
  {
    hide Run, Allowed, CleanRun, LostOver, Uncredited;
    assert steps + ([step] + rest) == steps + [step] + rest;
  }

  lemma {:induction false} CanFinish(net: Net, w: World, steps: seq<Step>) returns (more: seq<Step>)
    requires ValidNet(net) && Named(net) && Init(net, w) && Allowed(net, w, steps) && CleanRun(net, w, steps)
    requires AllOpen(w)
    ensures Finishes(net, w, steps, more)
    decreases Uncredited(Run(net, w, steps))
  {
    var v := Run(net, w, steps);
    hide Clean, After, TransferOf, CreditedIn, Run, Allowed, CleanRun, LostOver, Init, Named, ValidNet, AllOpen, Open,
      Lands, Inv;
    if Uncredited(v) == {} {
      more := [];
      assert steps + more == steps;
    } else {
      hide Finishes;
      var id :| id in Uncredited(v);
      OpenWhenAll(w, v.debits[id]);
      DebitedCanBeDelivered(net, w, steps, id);
      FewerUncredited(net, v, id);
      var step := DeliveryOf(v.debits[id]);
      OneMore(net, w, steps, step);
      var rest := CanFinish(net, w, steps + [step]);
      more := [step] + rest;
      FinishesLater(net, w, steps, step, rest);
    }
  }

  /** From every reachable state the network can finish: deliveries alone lead to a state in which
      everything debited is credited, and the balances add up to those of the start, less what
      repeated debits took. */
  lemma EverythingCanBeDelivered(net: Net, w: World, steps: seq<Step>) returns (more: seq<Step>)
    requires ValidNet(net) && Named(net) && Init(net, w) && Allowed(net, w, steps) && CleanRun(net, w, steps)
    requires AllOpen(w)
    ensures forall k :: 0 <= k < |more| ==> more[k].Deliver?
    ensures Allowed(net, w, steps + more)
    ensures var v, u := Run(net, w, steps), Run(net, w, steps + more);
      && u.debits == v.debits && (forall id :: id in u.debits ==> CreditedIn(u.credits, id))
      && SumSeq(Held(u)) == SumSeq(Held(w)) - LostOver(net, w, steps)
  {
    more := CanFinish(net, w, steps);
    hide Clean, After, Held, CreditedIn, Run, Allowed, CleanRun, LostOver, Init, Named, ValidNet, AllOpen;
    var u := Run(net, w, steps + more);
    forall id | id in u.debits ensures CreditedIn(u.credits, id) {
      assert id !in Uncredited(u);
    }
    AllDelivered(net, w, steps + more);
  }

  lemma FewerUncredited(net: Net, v: World, id: string)
    requires id in v.debits && v.debits[id].txId == id && Lands(net, v, v.debits[id]) && id in Uncredited(v)
    ensures v.debits[id].toShard >= 0 && Clean(net, v, DeliveryOf(v.debits[id]))
    ensures Uncredited(After(net, v, DeliveryOf(v.debits[id]))) < Uncredited(v)
    ensures After(net, v, DeliveryOf(v.debits[id])).debits == v.debits
  {
    hide After, ToSatoshi, CreditedIn;
    var u := After(net, v, DeliveryOf(v.debits[id]));
    forall k | k in Uncredited(u) ensures k in Uncredited(v) {
      CreditedMore(v.credits, u.credits, k);
    }
  }

  lemma CreditedMore(a: seq<Credit>, b: seq<Credit>, id: string)
    requires a <= b
    ensures CreditedIn(a, id) ==> CreditedIn(b, id)
  {
    if CreditedIn(a, id) {
      var k :| 0 <= k < |a| && a[k].txId == id;
      assert b[k].txId == id;
    }
  }

  lemma OneMore(net: Net, w: World, steps: seq<Step>, step: Step)
    requires Allowed(net, w, steps) && CleanRun(net, w, steps) && Clean(net, Run(net, w, steps), step)
    ensures Allowed(net, w, steps + [step]) && CleanRun(net, w, steps + [step])
    ensures Run(net, w, steps + [step]) == After(net, Run(net, w, steps), step)
    ensures !step.Submit? ==> LostOver(net, w, steps + [step]) == LostOver(net, w, steps)
  {
    assert Enabled(Run(net, w, steps), step);
    hide After, Clean;
    assert (steps + [step])[..|steps|] == steps;
  }

  /** After any run, what is debited and unconfirmed at its source is sent again in the next round. */
  lemma UnconfirmedIsResent(net: Net, w: World, steps: seq<Step>, j: nat, id: string)
    requires ValidNet(net) && Init(net, w) && Allowed(net, w, steps) && CleanRun(net, w, steps)
    requires j < |w.nodes| && w.nodes[j].gossips && id in Run(net, w, steps).nodes[j].txs
    requires Run(net, w, steps).nodes[j].txs[id].status == Debited
    ensures var n := Run(net, w, steps).nodes[j];
      var t, outbox := n.txs[id], NodeAfter(net, n, Retry(j)).outbox;
      && |n.outbox| <= |outbox|
      && Transfer(t.txId, t.fromShard, t.toShard, t.fromAddr, t.toAddr, t.amount) in outbox[|n.outbox|..]
  {
    RunSends(net, w, steps);
    hide Run, Allowed, CleanRun, Init, Regossip;
    RetrySends(Run(net, w, steps).nodes[j], id);
  }

  // ------------------------------------------------------------ there and back

  /** Without a coordinator at its source, a transfer that can be delivered is confirmed there in two
      steps: its delivery, and the acknowledgement that the delivery brings back. */
  lemma DeliveryThenAckConfirms(net: Net, w: World, steps: seq<Step>, id: string)
    requires ValidNet(net) && Named(net) && Init(net, w) && Allowed(net, w, steps) && CleanRun(net, w, steps)
    requires id in Run(net, w, steps).debits && Open(w, Run(net, w, steps).debits[id])
    requires var v := Run(net, w, steps);
      var t := v.debits[id];
      InRange(v, t.fromShard) && InRange(v, t.toShard) && v.nodes[t.fromShard].coordinator.None?
    ensures var v := Run(net, w, steps);
      var t := v.debits[id];
      var u := After(net, v, DeliveryOf(t));
      && Enabled(v, DeliveryOf(t))
      && exists ack :: ack in u.sent && ack.Ack? && ack.ackTxId == id
                       && (var x := After(net, u, Deliver(t.fromShard, ack));
                           id in x.nodes[t.fromShard].txs && x.nodes[t.fromShard].txs[id].status == Confirmed)
  {
    TotalOverRun(net, w, steps);
    DebitedCanBeDelivered(net, w, steps, id);
    DebitsNamed(net, w, steps);
    RunSends(net, w, steps);
    var v := Run(net, w, steps);
    hide Run, Allowed, CleanRun, Init, AllSent, Inv, Lands, After;
    AckedInTwo(net, v, id);
  }

  lemma AckedInTwo(net: Net, v: World, id: string)
    requires Inv(v) && id in v.debits && id != "" && Lands(net, v, v.debits[id]) && Open(v, v.debits[id])
    requires var t := v.debits[id];
      InRange(v, t.fromShard) && InRange(v, t.toShard) && v.nodes[t.fromShard].coordinator.None?
    ensures var t := v.debits[id];
      var u := After(net, v, DeliveryOf(t));
      && Enabled(v, DeliveryOf(t))
      && exists ack :: ack in u.sent && ack.Ack? && ack.ackTxId == id
                       && (var x := After(net, u, Deliver(t.fromShard, ack));
                           id in x.nodes[t.fromShard].txs && x.nodes[t.fromShard].txs[id].status == Confirmed)
  {
    var t := v.debits[id];
    assert Enabled(v, DeliveryOf(t)) && t.fromShard != t.toShard && id in v.nodes[t.fromShard].txs
      && v.nodes[t.fromShard].txs[id].fromShard == t.fromShard by { LandsEnabled(net, v, id); }
    hide Inv, Lands;
    LinkedShard(v, t.fromShard);
    var u := After(net, v, DeliveryOf(t));
    AckComesBack(net, v, id);
    var ack := Ack(id, Some(t.toShard), Some(t.toShard), SignerOf(v.nodes[t.toShard]));
    assert u.nodes[t.fromShard] == v.nodes[t.fromShard];
    hide After;
    AckConfirms(net, u, t.fromShard, ack);
  }

  lemma LandsEnabled(net: Net, v: World, id: string)
    requires Inv(v) && id in v.debits && Lands(net, v, v.debits[id])
    ensures var t := v.debits[id];
      && t.toShard >= 0 && Enabled(v, DeliveryOf(t)) && t.fromShard != t.toShard && InRange(v, t.fromShard)
      && id in v.nodes[t.fromShard].txs && v.nodes[t.fromShard].txs[id].fromShard == t.fromShard
  {
    hide OneOwner, SentOk, RecordsOk, CreditsOk, Linked, After;
    assert DebitOk(v, id);
  }

  lemma AckComesBack(net: Net, v: World, id: string)
    requires Inv(v) && id in v.debits && id != "" && InRange(v, v.debits[id].toShard) && Open(v, v.debits[id])
    ensures var t := v.debits[id];
      Ack(id, Some(t.toShard), Some(t.toShard), SignerOf(v.nodes[t.toShard])) in After(net, v, DeliveryOf(t)).sent
  {
    hide OneOwner, SentOk, ReceiveCredit, CreditsOk;
    assert DebitOk(v, id);
    var t := v.debits[id];
    LinkedShard(v, t.toShard);
    if id in v.nodes[t.toShard].txs {
      assert RecordOk(v, t.toShard, id);
    }
  }

  lemma AckConfirms(net: Net, u: World, i: nat, ack: Message)
    requires i < |u.nodes| && ack.Ack? && ack.ackTxId != "" && u.nodes[i].coordinator.None? && u.nodes[i].shard == i
    requires ack.ackTxId in u.nodes[i].txs && u.nodes[i].txs[ack.ackTxId].fromShard == i
    ensures var x := After(net, u, Deliver(i, ack));
      ack.ackTxId in x.nodes[i].txs && x.nodes[i].txs[ack.ackTxId].status == Confirmed
  {
    hide Withdraw;
  }
}
