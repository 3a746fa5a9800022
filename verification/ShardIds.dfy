/** What a reused transfer id costs. A node cuts the id from a hash of the request, so the
    same request submitted twice gets the same id: it is debited twice and credited once.
    Nothing is asked of the run but that the hash tells different transfers apart. */
module ShardIds {
  import opened Wrappers
  import opened Sums
  import opened Money
  import opened Sharding
  import opened ShardNet

  /** Submissions with one id are one transfer. */
  predicate IdsAgree(net: Net, steps: seq<Step>) {
    forall k, l :: 0 <= k < l < |steps| && steps[k].Submit? && steps[l].Submit? ==>
      net.idOf(steps[k].request) == net.idOf(steps[l].request) ==>
      RecordOf(net, steps[k].request) == RecordOf(net, steps[l].request)
  }

  /** The transfer was submitted. */
  predicate Asked(net: Net, steps: seq<Step>, m: Message) {
    exists k :: 0 <= k < |steps| && steps[k].Submit? && Export(RecordOf(net, steps[k].request)) == m
  }

  lemma AskedOnce(net: Net, steps: seq<Step>, m: Message, o: Message)
    requires IdsAgree(net, steps) && Asked(net, steps, m) && Asked(net, steps, o) && m.txId == o.txId
    ensures m == o
  {
    var k :| 0 <= k < |steps| && steps[k].Submit? && Export(RecordOf(net, steps[k].request)) == m;
    var l :| 0 <= l < |steps| && steps[l].Submit? && Export(RecordOf(net, steps[l].request)) == o;
  }

  predicate DebitsAsked(net: Net, w: World, steps: seq<Step>) {
    forall id :: id in w.debits ==> Asked(net, steps, Export(w.debits[id]))
  }

  ghost predicate RecordsAsked(net: Net, w: World, steps: seq<Step>) {
    forall j, id :: 0 <= j < |w.nodes| && Own(w, j, id) ==> Asked(net, steps, Export(w.nodes[j].txs[id]))
  }

  /** A submission's id is fresh, or it is a transfer debited before. */
  lemma AskedIsClean(net: Net, w: World, steps: seq<Step>, step: Step)
    requires Inv(w) && Enabled(w, step) && step in steps && IdsAgree(net, steps)
    requires DebitsAsked(net, w, steps) && RecordsAsked(net, w, steps)
    ensures Clean(net, w, step)
  {
    if Crosses(net, w, step) && !Repeated(net, w, step.request) {
      var i, id, m := step.at, net.idOf(step.request), Export(RecordOf(net, step.request));
      LinkedShard(w, i);
      assert Asked(net, steps, m);
      hide OneOwner, SentOk, CreditsOk, IdsAgree, Asked;
      if id in w.debits {
        assert DebitOk(w, id);
        AskedOnce(net, steps, Export(w.debits[id]), m);
        assert false;
      }
      forall j | 0 <= j < |w.nodes| && j != i ensures id !in w.nodes[j].txs {
        if id in w.nodes[j].txs {
          assert RecordOk(w, j, id) && Own(w, j, id);
          AskedOnce(net, steps, Export(w.nodes[j].txs[id]), m);
        }
      }
    }
  }

  lemma DebitsStayAsked(net: Net, w: World, steps: seq<Step>, step: Step)
    requires step.at < |w.nodes| && step in steps && DebitsAsked(net, w, steps)
    ensures DebitsAsked(net, After(net, w, step), steps)
  {
    hide NodeAfter, Replies, Pays, AddOutcome, Covered;
    var v := After(net, w, step);
    forall id | id in v.debits ensures Asked(net, steps, Export(v.debits[id])) {
      if id in w.debits && v.debits[id] == w.debits[id] {
        assert Asked(net, steps, Export(w.debits[id]));
      } else {
        assert v.debits[id] == RecordOf(net, step.request);
      }
    }
  }

  /** What a step may put on record as the node's own: what it had, or what was submitted. */
  lemma OwnRecord(net: Net, w: World, step: Step, id: string)
    requires Inv(w) && Enabled(w, step) && Own(After(net, w, step), step.at, id)
    ensures var x := Export(After(net, w, step).nodes[step.at].txs[id]);
      || (Own(w, step.at, id) && x == Export(w.nodes[step.at].txs[id]))
      || (step.Submit? && x == Export(RecordOf(net, step.request)))
  {
    hide Inv, AddTransaction, ReceiveAck, ReceiveCredit, Regossip, SubmitVote, PaidAcks, TransfersIn, Bump, Covered,
      Credits, Replies, Debits, Pays;
    var i, n := step.at, w.nodes[step.at];
    LinkedShard(w, i);
    match step {
      case Submit(_, r) => AddTransactionEffect(net, n, r);
      case Deliver(_, m) =>
        if m.Ack? {
          ReceiveAckEffect(n, m);
        } else {
          ReceiveCreditEffect(n, m);
          if Credits(n, m) {
            PaidIsInFlight(w, i, m);
          }
        }
      case Retry(_) => RegossipEffect(n, n.pending);
      case Vote(_, txId, shardId, vid) => SubmitVoteQuiet(n, txId, shardId, vid);
    }
  }

  lemma RecordsStayAsked(net: Net, w: World, steps: seq<Step>, step: Step)
    requires Inv(w) && Enabled(w, step) && step in steps && RecordsAsked(net, w, steps)
    ensures RecordsAsked(net, After(net, w, step), steps)
  {
    var v := After(net, w, step);
    hide Inv, NodeAfter, Replies, Pays, Debits;
    forall j, id | 0 <= j < |v.nodes| && Own(v, j, id) ensures Asked(net, steps, Export(v.nodes[j].txs[id])) {
      if j == step.at {
        OwnRecord(net, w, step, id);
      } else {
        assert Own(w, j, id) && v.nodes[j] == w.nodes[j];
      }
    }
  }

  /** Along the way, the steps taken being a prefix of all. */
  lemma {:induction false} RunIsClean(net: Net, w: World, steps: seq<Step>, all: seq<Step>)
    requires ValidNet(net) && Init(net, w) && Allowed(net, w, steps)
    requires steps <= all && IdsAgree(net, all)
    ensures CleanRun(net, w, steps)
    ensures DebitsAsked(net, Run(net, w, steps), all) && RecordsAsked(net, Run(net, w, steps), all)
    decreases |steps|
  {
    if steps != [] {
      var most, last := steps[..|steps| - 1], steps[|steps| - 1];
      RunIsClean(net, w, most, all);
      TotalOverRun(net, w, most);
      var v := Run(net, w, most);
      assert last in all;
      hide Inv, Init, After, IdsAgree, DebitsAsked, RecordsAsked, Clean, Enabled;
      AskedIsClean(net, v, all, last);
      DebitsStayAsked(net, v, all, last);
      RecordsStayAsked(net, v, all, last);
    }
  }

  lemma {:induction false} LostIsNatural(net: Net, w: World, steps: seq<Step>)
    requires Allowed(net, w, steps)
    ensures LostOver(net, w, steps) >= 0
    decreases |steps|
  {
    if steps != [] {
      LostIsNatural(net, w, steps[..|steps| - 1]);
      hide NodeAfter, FromSatoshi;
      var v, last := Run(net, w, steps[..|steps| - 1]), steps[|steps| - 1];
      assert Lost(net, v, last) >= 0;
    }
  }

  /** The books over any run, whatever ids are used again and wherever: each debit under an
      id debited before is lost, and nothing else is. The money is conserved exactly when
      the repeated debits come to nothing. */
  lemma RepeatedIdsLose(net: Net, w: World, steps: seq<Step>)
    requires ValidNet(net) && Init(net, w) && Allowed(net, w, steps) && IdsAgree(net, steps)
    ensures CleanRun(net, w, steps) && Inv(Run(net, w, steps)) && LostOver(net, w, steps) >= 0
    ensures Total(Run(net, w, steps)) == SumSeq(Held(w)) - LostOver(net, w, steps)
    ensures Total(Run(net, w, steps)) == SumSeq(Held(w)) <==> LostOver(net, w, steps) == 0
  {
    RunIsClean(net, w, steps, steps);
    TotalOverRun(net, w, steps);
    LostIsNatural(net, w, steps);
  }

  /** One submission, from any state the runs reach: the total is kept exactly when nothing
      was debited under its id before, or the amount rounds to no satoshi. */
  lemma RepeatedIdLoses(net: Net, w: World, step: Step)
    requires ValidNet(net) && |w.nodes| == net.numShards && Inv(w) && step.Submit? && step.at < |w.nodes|
    requires Debits(net, w.nodes[step.at], step)
    requires var t := RecordOf(net, step.request);
      && (t.txId in w.debits ==> Export(w.debits[t.txId]) == Export(t))
      && (forall j :: 0 <= j < |w.nodes| && j != step.at && t.txId in w.nodes[j].txs ==> t.txId in w.debits)
    ensures var t := RecordOf(net, step.request);
      && Total(After(net, w, step)) == Total(w) - (if t.txId in w.debits then ToSatoshi(t.amount) else 0)
      && (Total(After(net, w, step)) == Total(w) <==> t.txId !in w.debits || ToSatoshi(t.amount) == 0)
  {
    hide Inv, After, Total, ToSatoshi, Covered;
    StepKeeps(net, w, step);
  }

  /** A node before its first step, without a coordinator. */
  function Start(shard: int, accounts: map<string, nat>): Node {
    Node(shard, "n", "", true, true, map[], [], [], {}, {}, None, accounts, [])
  }

  /** A debit puts the transfer on the list and takes its satoshi. */
  lemma DebitLists(net: Net, w: World, step: Step)
    requires step.at < |w.nodes| && step.Submit? && Debits(net, w.nodes[step.at], step)
    ensures var v, r := After(net, w, step), step.request;
      && v.nodes[step.at].accounts == Bump(w.nodes[step.at].accounts, r.fromAddr, -r.amount)
      && v.nodes[step.at].shard == w.nodes[step.at].shard && v.nodes[step.at].hasDb && net.idOf(r) in v.debits
  {
    hide AddTransaction, Bump, PaidAcks, TransfersIn, Replies;
    AddTransactionEffect(net, w.nodes[step.at], step.request);
    AddKeepsDb(net, w.nodes[step.at], step.request);
  }

  lemma AddKeepsDb(net: Net, n: Node, r: Request)
    ensures AddTransaction(net, n, r).hasDb == n.hasDb
  {
    hide Bump, Covered, RecordShardAck, GossipTx, Withdraw;
    if AddOutcome(net, n, r).Cross? {
      var n1, id := Opened(net, n, r), net.idOf(r);
      var n2 := SetStatus(n1.(accounts := Bump(n1.accounts, n1.txs[id].fromAddr, -n1.txs[id].amount)), id, Debited);
      AckKeepsDb(n2, id, n1.txs[id].fromShard);
    }
  }

  lemma AckKeepsDb(n: Node, id: string, shard: int)
    ensures GossipTx(RecordShardAck(n, id, shard), id).hasDb == n.hasDb
  {
    hide AckKey;
  }

  /** An input on which money is lost: one coin of two is sent, and the same request is
      submitted again. */
  lemma SameRequestTwice(net: Net)
    requires net.numShards == 2 && ValidNet(net) && net.shardOf("a") == 0 && net.shardOf("b") == 1
    ensures var w := World([Start(0, map["a" := 2000000]), Start(1, map[])], {}, map[], []);
      var step := Submit(0, Request("a", "b", 1.0, 0));
      && Init(net, w) && Allowed(net, w, [step, step]) && IdsAgree(net, [step, step])
      && Total(Run(net, w, [step, step])) == SumSeq(Held(w)) - 1000000
  {
    var w := World([Start(0, map["a" := 2000000]), Start(1, map[])], {}, map[], []);
    var step := Submit(0, Request("a", "b", 1.0, 0));
    hide After, Total, Held, Inv, Lost, Run, Allowed, LostOver, CleanRun, IdsAgree;
    assert Init(net, w);
    hide Init;
    assert IdsAgree(net, [step, step]) by { SameAgree(net, step); }
    CoinOnce(net, w, step);
    TwiceLost(net, w, step);
    RepeatedIdsLose(net, w, [step, step]);
  }

  lemma SameAgree(net: Net, step: Step)
    ensures IdsAgree(net, [step, step])
  {
  }

  lemma TwiceLost(net: Net, w: World, step: Step)
    requires step.at < |w.nodes| && step.Submit? && w.debits == map[]
    ensures Allowed(net, w, [step, step])
    ensures LostOver(net, w, [step, step]) == Lost(net, After(net, w, step), step)
  {
    hide After, Debits, ToSatoshi;
    assert [step][..0] == [] && [step, step][..1] == [step];
    assert Allowed(net, w, []) && Run(net, w, []) == w && LostOver(net, w, []) == 0;
    assert Allowed(net, w, [step]) && Run(net, w, [step]) == After(net, w, step) && LostOver(net, w, [step]) == 0;
  }

  lemma CoinOnce(net: Net, w: World, step: Step)
    requires net.shardOf("a") == 0 && net.shardOf("b") == 1 && step == Submit(0, Request("a", "b", 1.0, 0))
    requires |w.nodes| == 2 && w.nodes[0] == Start(0, map["a" := 2000000])
    ensures var v := After(net, w, step);
      |v.nodes| == 2 && Lost(net, v, step) == 1000000
  {
    hide After;
    assert FromSatoshi(2000000) == 2.0 && FromSatoshi(1000000) == 1.0;
    assert ToSatoshi(-1.0) == -1000000 && ToSatoshi(1.0) == 1000000;
    DebitLists(net, w, step);
    assert BalanceOf(After(net, w, step).nodes[0].accounts, "a") == 1000000;
  }
}
