/** A network with one node per shard. Any node may take any step at any time, every
    message ever sent may be delivered any number of times, in any order or never, and
    acknowledgements may even be made up. What is proved: no money is made, none is lost but
    by debits under an id debited before, and each transfer is credited at most once. */
module ShardNet {
  import opened Wrappers
  import opened Sums
  import opened Money
  import opened Sharding

  datatype Credit = Credit(txId: string, address: string, satoshi: int)

  /** debits and credits record history: the transfers debited at their source, and the
      payments made at destinations in order. */
  datatype World = World(nodes: seq<Node>, sent: set<Message>, debits: map<string, CrossTx>, credits: seq<Credit>)

  datatype Step =
    | Submit(at: nat, request: Request)
    | Deliver(at: nat, message: Message)
    | Retry(at: nat)
    | Vote(at: nat, txId: string, shardId: int, validatorId: string)

  ghost predicate ValidNet(net: Net) {
    forall a :: 0 <= net.shardOf(a) < net.numShards
  }

  /** Only transfers that were sent are delivered. */
  predicate Enabled(w: World, step: Step) {
    step.at < |w.nodes| && (step.Deliver? && step.message.Transfer? ==> step.message in w.sent)
  }

  /** No debit was made under the id, and no other node knows it. */
  predicate Fresh(w: World, at: nat, id: string) {
    id !in w.debits && forall j :: 0 <= j < |w.nodes| && j != at ==> id !in w.nodes[j].txs
  }

  /** The node's record of the request, once debited. */
  function RecordOf(net: Net, r: Request): CrossTx {
    CrossTx(net.idOf(r), net.shardOf(r.fromAddr), net.shardOf(r.toAddr), r.fromAddr, r.toAddr, r.amount, Debited)
  }

  /** A debit of the same transfer was made under the request's id before. */
  predicate Repeated(net: Net, w: World, r: Request) {
    var id := net.idOf(r);
    id in w.debits && Export(w.debits[id]) == Export(RecordOf(net, r))
  }

  /** A cross-shard submission. */
  predicate Crosses(net: Net, w: World, step: Step)
    requires step.at < |w.nodes|
  {
    step.Submit? && AddOutcome(net, w.nodes[step.at], step.request).Cross?
  }

  /** The id of a transfer submitted is fresh, or stands for that very transfer. */
  predicate Clean(net: Net, w: World, step: Step) {
    && Enabled(w, step)
    && (Crosses(net, w, step) ==>
          Fresh(w, step.at, net.idOf(step.request)) || Repeated(net, w, step.request))
  }

  predicate Debits(net: Net, n: Node, step: Step) {
    step.Submit? && AddOutcome(net, n, step.request).Cross? && Covered(n, RecordOf(net, step.request))
  }

  predicate Pays(n: Node, step: Step) {
    step.Deliver? && step.message.Transfer? && Credits(n, step.message)
  }

  function NodeAfter(net: Net, n: Node, step: Step): Node {
    match step
    case Submit(_, r) => AddTransaction(net, n, r)
    case Deliver(_, m) => if m.Transfer? then ReceiveCredit(n, m) else ReceiveAck(n, m)
    case Retry(_) => Regossip(n, n.pending)
    case Vote(_, txId, shardId, vid) => SubmitVote(n, txId, shardId, vid)
  }

  /** The peer that delivered an accepted transfer gets an acknowledgement back. */
  function Replies(n: Node, step: Step): set<Message> {
    if step.Deliver? && step.message.Transfer? && CreditAccepted(n, step.message) then
      {Ack(step.message.txId, Some(step.message.toShard), Some(step.message.toShard), SignerOf(n))}
    else {}
  }

  function After(net: Net, w: World, step: Step): (v: World)
    requires step.at < |w.nodes|
    ensures |v.nodes| == |w.nodes|
  {
    var n := w.nodes[step.at];
    var m := NodeAfter(net, n, step);
    World(w.nodes[step.at := m],
          w.sent + (set x | x in m.outbox) + Replies(n, step),
          if Debits(net, n, step) then w.debits[net.idOf(step.request) := RecordOf(net, step.request)] else w.debits,
          if Pays(n, step) then
            w.credits + [Credit(step.message.txId, step.message.toAddr, ToSatoshi(step.message.amount))]
          else w.credits)
  }

  predicate Allowed(net: Net, w: World, steps: seq<Step>)
    decreases |steps|, 0
  {
    steps == [] ||
    (Allowed(net, w, steps[..|steps| - 1]) &&
     Enabled(Run(net, w, steps[..|steps| - 1]), steps[|steps| - 1]))
  }

  function Run(net: Net, w: World, steps: seq<Step>): (v: World)
    requires Allowed(net, w, steps)
    ensures |v.nodes| == |w.nodes|
    decreases |steps|, 1
  {
    if steps == [] then w else After(net, Run(net, w, steps[..|steps| - 1]), steps[|steps| - 1])
  }

  /** Every step of the run is clean. */
  predicate CleanRun(net: Net, w: World, steps: seq<Step>)
    requires Allowed(net, w, steps)
    decreases |steps|
  {
    steps == [] ||
    (CleanRun(net, w, steps[..|steps| - 1]) &&
     Clean(net, Run(net, w, steps[..|steps| - 1]), steps[|steps| - 1]))
  }

  /** Every cross-shard submission of the run has a fresh id. */
  predicate FreshRun(net: Net, w: World, steps: seq<Step>)
    requires Allowed(net, w, steps)
    decreases |steps|
  {
    steps == [] ||
    (var v, last := Run(net, w, steps[..|steps| - 1]), steps[|steps| - 1];
     && FreshRun(net, w, steps[..|steps| - 1])
     && (Crosses(net, v, last) ==> Fresh(v, last.at, net.idOf(last.request))))
  }

  /** What a debit under an id debited before takes. */
  function Lost(net: Net, w: World, step: Step): int
    requires step.at < |w.nodes|
  {
    if Debits(net, w.nodes[step.at], step) && net.idOf(step.request) in w.debits then ToSatoshi(step.request.amount)
    else 0
  }

  function LostOver(net: Net, w: World, steps: seq<Step>): int
    requires Allowed(net, w, steps)
    decreases |steps|
  {
    if steps == [] then 0
    else
      LostOver(net, w, steps[..|steps| - 1]) + Lost(net, Run(net, w, steps[..|steps| - 1]), steps[|steps| - 1])
  }

  predicate Init(net: Net, w: World) {
    && |w.nodes| == net.numShards && w.sent == {} && w.debits == map[] && w.credits == []
    && forall j :: 0 <= j < |w.nodes| ==>
         var n := w.nodes[j];
         n.shard == j && n.txs == map[] && n.seen == {} && n.relayed == {} && n.outbox == []
  }

  // ---------------------------------------------------------------- what a node's step changes

  function TransfersIn(outbox: seq<Message>): set<Message> {
    set m | m in outbox && m.Transfer?
  }

  function KeyCount(outbox: seq<Message>, key: string): nat
    decreases |outbox|
  {
    if outbox == [] then 0
    else KeyCount(outbox[..|outbox| - 1], key) + if IsAckOf(outbox[|outbox| - 1], key) then 1 else 0
  }

  predicate IsAckOf(m: Message, key: string) {
    m.Ack? && m.shardId.Some? && AckKey(m.ackTxId, m.shardId.value, m.validatorId) == key
  }

  function AckCount(outbox: seq<Message>): nat
    decreases |outbox|
  {
    if outbox == [] then 0
    else AckCount(outbox[..|outbox| - 1]) + if outbox[|outbox| - 1].Ack? then 1 else 0
  }

  function Bit(s: set<string>, key: string): nat {
    if key in s then 1 else 0
  }

  /** From n to m every acknowledgement gossiped is paid for by a key newly remembered. */
  ghost predicate PaidAcks(n: Node, m: Node) {
    && n.seen <= m.seen && n.relayed <= m.relayed
    && AckCount(m.outbox) + |n.seen| + |n.relayed| <= AckCount(n.outbox) + |m.seen| + |m.relayed|
    && forall k :: KeyCount(m.outbox, k) + Bit(n.seen, k) + Bit(n.relayed, k)
                <= KeyCount(n.outbox, k) + Bit(m.seen, k) + Bit(m.relayed, k)
  }

  lemma PaidAcksCompose(n: Node, m: Node, o: Node)
    requires PaidAcks(n, m) && PaidAcks(m, o)
    ensures PaidAcks(n, o)
  {
    hide KeyCount, AckCount;
    forall k ensures KeyCount(o.outbox, k) + Bit(n.seen, k) + Bit(n.relayed, k)
                  <= KeyCount(n.outbox, k) + Bit(o.seen, k) + Bit(o.relayed, k)
    {
      assert KeyCount(m.outbox, k) + Bit(n.seen, k) + Bit(n.relayed, k)
          <= KeyCount(n.outbox, k) + Bit(m.seen, k) + Bit(m.relayed, k);
    }
  }

  /** Neither money nor records nor transfers sent. */
  predicate SameMoney(n: Node, m: Node) {
    m.shard == n.shard && m.accounts == n.accounts && m.txs == n.txs && TransfersIn(m.outbox) == TransfersIn(n.outbox)
  }

  lemma AckAppended(outbox: seq<Message>, m: Message)
    requires m.Ack?
    ensures TransfersIn(outbox + [m]) == TransfersIn(outbox)
    ensures AckCount(outbox + [m]) == AckCount(outbox) + 1
    ensures forall k :: KeyCount(outbox + [m], k) == KeyCount(outbox, k) + if IsAckOf(m, k) then 1 else 0
  {
    assert (outbox + [m])[..|outbox|] == outbox;
  }

  lemma TransferAppended(outbox: seq<Message>, m: Message)
    requires m.Transfer?
    ensures TransfersIn(outbox + [m]) == TransfersIn(outbox) + {m}
    ensures AckCount(outbox + [m]) == AckCount(outbox)
    ensures forall k :: KeyCount(outbox + [m], k) == KeyCount(outbox, k)
  {
    assert (outbox + [m])[..|outbox|] == outbox;
  }

  lemma GossipAckQuiet(n: Node, txId: string, shardId: int, vid: string)
    ensures SameMoney(n, GossipAck(n, txId, shardId, vid)) && PaidAcks(n, GossipAck(n, txId, shardId, vid))
  {
    hide AckKey;
    AckAppended(n.outbox, Ack(txId, Some(shardId), None, Text.Strip(vid)));
  }

  lemma RelayAckQuiet(n: Node, txId: string, shardId: int, vid: string)
    ensures SameMoney(n, RelayAck(n, txId, shardId, vid)) && PaidAcks(n, RelayAck(n, txId, shardId, vid))
  {
    hide AckKey;
    AckAppended(n.outbox, Ack(txId, Some(shardId), None, Text.Strip(vid)));
  }

  lemma RecordShardAckQuiet(n: Node, txId: string, shardId: int)
    ensures SameMoney(n, RecordShardAck(n, txId, shardId)) && PaidAcks(n, RecordShardAck(n, txId, shardId))
  {
    hide GossipAck, TransfersIn;
    if n.coordinator.Some? {
      var c := n.coordinator.value;
      var n1 := n.(coordinator := Some(c.RecordVote(txId, shardId, SignerOf(n))));
      GossipAckQuiet(n1, txId, shardId, SignerOf(n));
    }
  }

  lemma SubmitVoteQuiet(n: Node, txId: string, shardId: int, vid: string)
    ensures SameMoney(n, SubmitVote(n, txId, shardId, vid)) && PaidAcks(n, SubmitVote(n, txId, shardId, vid))
  {
    hide GossipAck, TransfersIn;
    if n.coordinator.Some? {
      var v := Text.Strip(if vid != "" then vid else SignerOf(n));
      GossipAckQuiet(n.(coordinator := Some(n.coordinator.value.RecordVote(txId, shardId, v))), txId, shardId, v);
    }
  }

  lemma NoteVoteQuiet(n: Node, txId: string, shardId: int, vid: string)
    requires n.coordinator.Some?
    ensures SameMoney(n, NoteVote(n, txId, shardId, vid)) && PaidAcks(n, NoteVote(n, txId, shardId, vid))
    ensures NoteVote(n, txId, shardId, vid).coordinator.Some?
  {
    hide RelayAck, TransfersIn, AckKey;
    var key := AckKey(txId, shardId, vid);
    var n1 := if key in n.seen then n
              else n.(seen := n.seen + {key},
                      coordinator := Some(n.coordinator.value.RecordVote(txId, shardId, vid)));
    assert PaidAcks(n, n1);
    RelayAckQuiet(n1, txId, shardId, vid);
    RelayKeepsCoordinator(n1, txId, shardId, vid);
    PaidAcksCompose(n, n1, RelayAck(n1, txId, shardId, vid));
  }

  lemma RelayKeepsCoordinator(n: Node, txId: string, shardId: int, vid: string)
    ensures RelayAck(n, txId, shardId, vid).coordinator == n.coordinator
  {
  }

  lemma GossipTxMoney(n: Node, id: string)
    ensures var m := GossipTx(n, id);
      && m.shard == n.shard && m.accounts == n.accounts && m.txs == n.txs && PaidAcks(n, m)
      && TransfersIn(m.outbox) <= TransfersIn(n.outbox) + (if id in n.txs then {Export(n.txs[id])} else {})
  {
    if id in n.txs {
      TransferAppended(n.outbox, Export(n.txs[id]));
    }
  }

  /** A covered transfer takes its satoshi from the sender, exactly: the balance was
      there, and the clamp at zero plays no part. */
  lemma DebitIsExact(n: Node, tx: CrossTx)
    requires Covered(n, tx)
    ensures ToSatoshi(tx.amount) >= 0
    ensures BalanceOf(n.accounts, tx.fromAddr) >= ToSatoshi(tx.amount)
    ensures Bump(n.accounts, tx.fromAddr, -tx.amount)
         == n.accounts[tx.fromAddr := BalanceOf(n.accounts, tx.fromAddr) - ToSatoshi(tx.amount)]
  {
    ToSatoshiMirrors(tx.amount);
    CoveredInSatoshi(BalanceOf(n.accounts, tx.fromAddr), tx.amount);
    hide ToSatoshi, FromSatoshi;
  }

  lemma AddTransactionEffect(net: Net, n: Node, r: Request)
    ensures var m := AddTransaction(net, n, r);
      && m.shard == n.shard && PaidAcks(n, m)
      && (if AddOutcome(net, n, r).Cross? then
            var tx := RecordOf(net, r);
            if Covered(n, tx) then
              && m.accounts == Bump(n.accounts, r.fromAddr, -r.amount) && m.txs == n.txs[tx.txId := tx]
              && TransfersIn(m.outbox) <= TransfersIn(n.outbox) + {Export(tx)}
            else
              && m.accounts == n.accounts && m.txs == n.txs[tx.txId := tx.(status := Failed)]
              && TransfersIn(m.outbox) == TransfersIn(n.outbox)
          else SameMoney(n, m))
  {
    hide TransfersIn, RecordShardAck, GossipTx, Bump, KeyCount, AckCount, FromSatoshi;
    if AddOutcome(net, n, r).Cross? {
      var tx := RecordOf(net, r);
      var n1 := Opened(net, n, r);
      assert n1.txs[tx.txId] == tx.(status := Pending) && PaidAcks(n, n1);
      if Covered(n, tx) {
        LaunchEffect(n1, tx);
        hide Opened, Launch, Covered;
        PaidAcksCompose(n, n1, Launch(n1, tx.txId));
      }
    }
  }

  /** The debit, the acknowledgement and the gossip of a transfer on record. */
  lemma LaunchEffect(n: Node, tx: CrossTx)
    requires tx.txId in n.txs && n.txs[tx.txId] == tx.(status := Pending) && tx.status == Debited && Covered(n, tx)
    ensures var m := Launch(n, tx.txId);
      && m.shard == n.shard && PaidAcks(n, m)
      && m.accounts == Bump(n.accounts, tx.fromAddr, -tx.amount) && m.txs == n.txs[tx.txId := tx]
      && TransfersIn(m.outbox) <= TransfersIn(n.outbox) + {Export(tx)}
  {
    hide TransfersIn, RecordShardAck, GossipTx, Bump, KeyCount, AckCount, FromSatoshi;
    var n2 := SetStatus(n.(accounts := Bump(n.accounts, tx.fromAddr, -tx.amount)), tx.txId, Debited);
    assert n2.txs[tx.txId] == tx && n2.txs == n.txs[tx.txId := tx];
    var n3 := RecordShardAck(n2, tx.txId, tx.fromShard);
    RecordShardAckQuiet(n2, tx.txId, tx.fromShard);
    GossipTxMoney(n3, tx.txId);
    assert PaidAcks(n, n2);
    PaidAcksCompose(n, n2, n3);
    PaidAcksCompose(n, n3, GossipTx(n3, tx.txId));
  }

  lemma SettleQuiet(n: Node, id: string)
    ensures SameMoney(n, Settle(n, id)) && PaidAcks(n, Settle(n, id))
  {
    hide KeyCount, AckCount;
  }

  lemma ReceiveCreditEffect(n: Node, m: Message)
    requires m.Transfer?
    ensures var o := ReceiveCredit(n, m);
      && o.shard == n.shard && PaidAcks(n, o) && TransfersIn(o.outbox) == TransfersIn(n.outbox)
      && (if Credits(n, m) then
            && o.accounts == Bump(n.accounts, m.toAddr, m.amount)
            && o.txs.Keys == n.txs.Keys + {m.txId} && (forall k :: k in n.txs && k != m.txId ==> o.txs[k] == n.txs[k])
            && (m.txId !in n.txs ==>
                  o.txs[m.txId] == CrossTx(m.txId, m.fromShard, m.toShard, m.fromAddr, m.toAddr, m.amount, Confirmed))
          else o == n)
  {
    hide TransfersIn, RecordShardAck, Settle, Bump, KeyCount, AckCount;
    if Credits(n, m) {
      var tx := if m.txId in n.txs then n.txs[m.txId]
                else CrossTx(m.txId, m.fromShard, m.toShard, m.fromAddr, m.toAddr, m.amount, Confirmed);
      var n1 := n.(accounts := Bump(n.accounts, m.toAddr, m.amount),
                   txs := n.txs[m.txId := tx.(status := Confirmed)],
                   pending := Withdraw(n.pending, m.txId));
      assert PaidAcks(n, n1);
      var n2 := RecordShardAck(n1, m.txId, m.toShard);
      RecordShardAckQuiet(n1, m.txId, m.toShard);
      SettleQuiet(n2, m.txId);
      PaidAcksCompose(n, n1, n2);
      PaidAcksCompose(n, n2, Settle(n2, m.txId));
    }
  }

  lemma ReceiveAckEffect(n: Node, m: Message)
    requires m.Ack?
    ensures var o := ReceiveAck(n, m);
      && o.shard == n.shard && PaidAcks(n, o) && o.accounts == n.accounts
      && TransfersIn(o.outbox) == TransfersIn(n.outbox)
      && (o.txs == n.txs ||
          (m.ackTxId in n.txs && n.txs[m.ackTxId].fromShard == n.shard
           && o.txs == n.txs[m.ackTxId := n.txs[m.ackTxId].(status := Confirmed)]))
  {
    hide TransfersIn, RecordShardAck, Settle, NoteVote, KeyCount, AckCount;
    if AckAccepted(n, m) {
      var id := m.ackTxId;
      var tx := n.txs[id];
      var shardId, vid, ownsFrom := AckedShard(tx, m), Text.Strip(m.validatorId), tx.fromShard == n.shard;
      if n.coordinator.Some? {
        var n1 := if vid != "" then NoteVote(n, id, shardId, vid)
                  else if ownsFrom then RecordShardAck(n, id, shardId)
                  else n;
        NoteVoteQuiet(n, id, shardId, vid);
        RecordShardAckQuiet(n, id, shardId);
        SettleQuiet(n1, id);
        PaidAcksCompose(n, n1, Settle(n1, id));
        if ownsFrom && n1.coordinator.Some? {
          var n2 := Settle(n1, id);
          assert PaidAcks(n2, Confirm(n2, id));
          PaidAcksCompose(n, n2, Confirm(n2, id));
        }
      } else if ownsFrom {
        assert PaidAcks(n, Confirm(n, id));
      }
    }
  }

  predicate ExportsDebited(n: Node, x: Message) {
    exists id :: id in n.txs && n.txs[id].status == Debited && x == Export(n.txs[id])
  }

  lemma {:induction false} RegossipEffect(n: Node, ids: seq<string>)
    ensures var m := Regossip(n, ids);
      && m.shard == n.shard && m.accounts == n.accounts && m.txs == n.txs && PaidAcks(n, m)
      && forall x :: x in TransfersIn(m.outbox) ==> x in TransfersIn(n.outbox) || ExportsDebited(n, x)
    decreases |ids|
  {
    hide TransfersIn, KeyCount, AckCount;
    if ids != [] {
      var m, id := Regossip(n, ids[..|ids| - 1]), ids[|ids| - 1];
      RegossipEffect(n, ids[..|ids| - 1]);
      if id in m.txs && m.txs[id].status == Debited {
        GossipTxMoney(m, id);
        PaidAcksCompose(n, m, GossipTx(m, id));
      }
    }
  }

  // ---------------------------------------------------------------- the invariant

  predicate InRange(w: World, shard: int) {
    0 <= shard < |w.nodes|
  }

  predicate DebitOk(w: World, id: string)
    requires id in w.debits
  {
    var t := w.debits[id];
    && t.txId == id && InRange(w, t.fromShard) && InRange(w, t.toShard) && t.fromShard != t.toShard
    && t.amount > 0.0 && t.toAddr != ""
    && id in w.nodes[t.fromShard].txs && w.nodes[t.fromShard].txs[id].fromShard == t.fromShard
  }

  /** A record is the node's own submission, or the mark of a credit. */
  predicate RecordOk(w: World, j: int, id: string)
    requires InRange(w, j) && id in w.nodes[j].txs
  {
    var r := w.nodes[j].txs[id];
    && r.txId == id
    && (if r.fromShard == j then
          r.status == Debited ==> id in w.debits && Export(w.debits[id]) == Export(r)
        else
          r.status == Confirmed && id in w.debits && w.debits[id].toShard == j)
  }

  predicate Own(w: World, j: int, id: string)
    requires InRange(w, j)
  {
    id in w.nodes[j].txs && w.nodes[j].txs[id].fromShard == j
  }

  predicate Arrived(w: World, id: string)
    requires id in w.debits
  {
    InRange(w, w.debits[id].toShard) && id in w.nodes[w.debits[id].toShard].txs
  }

  predicate SentOk(w: World) {
    forall m :: m in w.sent && m.Transfer? ==> m.txId in w.debits && m == Export(w.debits[m.txId])
  }

  predicate CreditOk(w: World, c: Credit) {
    c.txId in w.debits && Arrived(w, c.txId)
    && c.address == w.debits[c.txId].toAddr && c.satoshi == ToSatoshi(w.debits[c.txId].amount)
  }

  predicate CreditsOk(w: World) {
    && (forall k :: 0 <= k < |w.credits| ==> CreditOk(w, w.credits[k]))
    && (forall k, l :: 0 <= k < l < |w.credits| ==> w.credits[k].txId != w.credits[l].txId)
    && (forall id :: id in w.debits && Arrived(w, id) ==> CreditedIn(w.credits, id))
  }

  predicate CreditedIn(credits: seq<Credit>, id: string) {
    exists k :: 0 <= k < |credits| && credits[k].txId == id
  }

  predicate Linked(w: World) {
    forall j :: 0 <= j < |w.nodes| ==> w.nodes[j].shard == j && forall m :: m in w.nodes[j].outbox ==> m in w.sent
  }

  predicate DebitsOk(w: World) {
    forall id :: id in w.debits ==> DebitOk(w, id)
  }

  predicate RecordsOk(w: World) {
    forall j, id :: 0 <= j < |w.nodes| && id in w.nodes[j].txs ==> RecordOk(w, j, id)
  }

  ghost predicate OneOwner(w: World) {
    forall j, k, id :: 0 <= j < k < |w.nodes| ==> !(Own(w, j, id) && Own(w, k, id))
  }

  ghost predicate Inv(w: World) {
    Linked(w) && DebitsOk(w) && RecordsOk(w) && OneOwner(w) && SentOk(w) && CreditsOk(w)
  }

  /** Debited and not yet credited. */
  function InFlight(w: World): map<string, int> {
    map id | id in w.debits && !Arrived(w, id) :: ToSatoshi(w.debits[id].amount)
  }

  ghost function Held(w: World): seq<int> {
    seq(|w.nodes|, j requires 0 <= j < |w.nodes| => Sum(w.nodes[j].accounts))
  }

  /** All balances and all money in flight. */
  ghost function Total(w: World): int {
    SumSeq(Held(w)) + Sum(InFlight(w))
  }

  lemma HeldShift(w: World, v: World, i: nat, delta: int)
    requires i < |w.nodes| && |v.nodes| == |w.nodes|
    requires forall j :: 0 <= j < |w.nodes| && j != i ==> v.nodes[j].accounts == w.nodes[j].accounts
    requires Sum(v.nodes[i].accounts) == Sum(w.nodes[i].accounts) + delta
    ensures SumSeq(Held(v)) == SumSeq(Held(w)) + delta
  {
    hide Sum, SumSeq;
    assert Held(v) == Held(w)[i := Held(w)[i] + delta];
    SumSeqUpdate(Held(w), i, Held(w)[i] + delta);
  }

  lemma DebitSum(n: Node, t: CrossTx)
    requires Covered(n, t)
    ensures Sum(Bump(n.accounts, t.fromAddr, -t.amount)) == Sum(n.accounts) - ToSatoshi(t.amount)
  {
    DebitIsExact(n, t);
    ToSatoshiMirrors(t.amount);
    hide ToSatoshi, Sum, Bump;
    BumpSum(n.accounts, t.fromAddr, -t.amount);
  }

  lemma CreditSum(n: Node, m: Message)
    requires m.Transfer? && m.amount > 0.0
    ensures Sum(Bump(n.accounts, m.toAddr, m.amount)) == Sum(n.accounts) + ToSatoshi(m.amount)
  {
    ToSatoshiMirrors(m.amount);
    hide ToSatoshi, Sum, Bump;
    BumpSum(n.accounts, m.toAddr, m.amount);
  }

  lemma Launched(w: World, v: World, t: CrossTx)
    requires v.debits == w.debits[t.txId := t] && t.txId !in w.debits && !Arrived(v, t.txId)
    requires forall id :: id in w.debits ==> Arrived(v, id) == Arrived(w, id)
    ensures InFlight(v) == InFlight(w)[t.txId := ToSatoshi(t.amount)] && t.txId !in InFlight(w)
  {
    hide Arrived, ToSatoshi;
  }

  lemma Landed(w: World, v: World, id: string)
    requires v.debits == w.debits && id in w.debits && !Arrived(w, id) && Arrived(v, id)
    requires forall k :: k in w.debits && k != id ==> Arrived(v, k) == Arrived(w, k)
    ensures InFlight(v) == InFlight(w) - {id} && Get(InFlight(w), id) == ToSatoshi(w.debits[id].amount)
  {
    hide Arrived, ToSatoshi;
  }

  // ---------------------------------------------------------------- every step keeps it

  /** Only node i changed. */
  predicate OnlyAt(w: World, v: World, i: nat) {
    && i < |w.nodes| && |v.nodes| == |w.nodes|
    && (forall j :: 0 <= j < |w.nodes| && j != i ==> v.nodes[j] == w.nodes[j])
    && v.nodes[i].shard == w.nodes[i].shard && w.sent <= v.sent && forall m :: m in v.nodes[i].outbox ==> m in v.sent
  }

  /** The record under id is an own one that promises no debit. */
  predicate HarmlessRecord(w: World, v: World, i: nat, id: string)
    requires OnlyAt(w, v, i) && id in v.nodes[i].txs
  {
    var r := v.nodes[i].txs[id];
    r.txId == id && r.fromShard == i && r.status != Debited && (Own(w, i, id) || Fresh(w, i, id))
  }

  predicate QuietRecords(w: World, v: World, i: nat)
    requires OnlyAt(w, v, i)
  {
    && (forall id :: id in w.nodes[i].txs ==> id in v.nodes[i].txs)
    && (forall id :: id in v.nodes[i].txs ==>
          (id in w.nodes[i].txs && v.nodes[i].txs[id] == w.nodes[i].txs[id]) || HarmlessRecord(w, v, i, id))
  }

  /** No money moved, no debit, no credit. */
  predicate QuietStep(w: World, v: World, i: nat) {
    && OnlyAt(w, v, i) && v.debits == w.debits && v.credits == w.credits
    && v.nodes[i].accounts == w.nodes[i].accounts && QuietRecords(w, v, i)
    && forall m :: m in v.sent && m.Transfer? ==> m in w.sent || ExportsDebited(w.nodes[i], m)
  }

  /** A debited transfer is still in flight, or arrived, as before. */
  lemma QuietArrivals(w: World, v: World, i: nat)
    requires Inv(w) && QuietStep(w, v, i)
    ensures forall id :: id in w.debits ==> Arrived(v, id) == Arrived(w, id)
  {
    forall id | id in w.debits ensures Arrived(v, id) == Arrived(w, id) {
      assert DebitOk(w, id);
    }
  }

  lemma QuietTotal(w: World, v: World, i: nat)
    requires Inv(w) && QuietStep(w, v, i)
    ensures Total(v) == Total(w)
  {
    QuietArrivals(w, v, i);
    hide Sum, SumSeq, Inv;
    assert Held(v) == Held(w);
    assert InFlight(v) == InFlight(w);
  }

  lemma QuietSent(w: World, v: World, i: nat)
    requires Inv(w) && QuietStep(w, v, i)
    ensures SentOk(v)
  {
    forall m | m in v.sent && m.Transfer? ensures m.txId in v.debits && m == Export(v.debits[m.txId]) {
      if m !in w.sent {
        var id :| id in w.nodes[i].txs && w.nodes[i].txs[id].status == Debited && m == Export(w.nodes[i].txs[id]);
        assert RecordOk(w, i, id);
      }
    }
  }

  lemma QuietOwners(w: World, v: World, i: nat)
    requires OneOwner(w) && QuietStep(w, v, i)
    ensures OneOwner(v)
  {
    forall j, k, id | 0 <= j < k < |v.nodes| ensures !(Own(v, j, id) && Own(v, k, id)) {
      assert !(Own(w, j, id) && Own(w, k, id));
      assert Own(v, i, id) && !Own(w, i, id) ==> HarmlessRecord(w, v, i, id);
    }
  }

  lemma QuietRecordsOk(w: World, v: World, i: nat)
    requires RecordsOk(w) && DebitsOk(w) && QuietStep(w, v, i)
    ensures RecordsOk(v) && DebitsOk(v)
  {
    forall j, id | 0 <= j < |v.nodes| && id in v.nodes[j].txs ensures RecordOk(v, j, id) {
      if j != i {
        assert RecordOk(w, j, id);
      } else if !HarmlessRecord(w, v, i, id) {
        assert RecordOk(w, i, id);
      }
    }
    forall id | id in v.debits ensures DebitOk(v, id) {
      assert DebitOk(w, id);
      var f := w.debits[id].fromShard;
      if f == i && v.nodes[i].txs[id] != w.nodes[i].txs[id] {
        assert HarmlessRecord(w, v, i, id);
      }
    }
  }

  lemma QuietKeeps(w: World, v: World, i: nat)
    requires Inv(w) && QuietStep(w, v, i)
    ensures Inv(v) && Total(v) == Total(w)
  {
    QuietTotal(w, v, i);
    QuietSent(w, v, i);
    QuietOwners(w, v, i);
    QuietRecordsOk(w, v, i);
    QuietArrivals(w, v, i);
    hide DebitsOk, RecordsOk, OneOwner, SentOk, QuietRecords;
    assert CreditsOk(v) by {
      forall k | 0 <= k < |v.credits| ensures CreditOk(v, v.credits[k]) {
        assert CreditOk(w, w.credits[k]);
      }
    }
  }

  /** Node i debited transfer t. */
  predicate DebitEffect(w: World, v: World, i: nat, t: CrossTx) {
    && OnlyAt(w, v, i) && Covered(w.nodes[i], t)
    && t.fromShard == i && InRange(w, t.toShard) && t.toShard != i && t.status == Debited
    && v.debits == w.debits[t.txId := t] && v.credits == w.credits
    && v.nodes[i].accounts == Bump(w.nodes[i].accounts, t.fromAddr, -t.amount)
    && v.nodes[i].txs == w.nodes[i].txs[t.txId := t]
    && forall m :: m in v.sent && m.Transfer? ==> m in w.sent || m == Export(t)
  }

  /** Under a fresh id. */
  predicate DebitStep(w: World, v: World, i: nat, t: CrossTx) {
    DebitEffect(w, v, i, t) && Fresh(w, i, t.txId)
  }

  lemma DebitArrivals(w: World, v: World, i: nat, t: CrossTx)
    requires DebitsOk(w) && DebitStep(w, v, i, t)
    ensures !Arrived(v, t.txId) && forall id :: id in w.debits ==> Arrived(v, id) == Arrived(w, id)
  {
    hide Covered, Bump;
    forall id | id in w.debits ensures Arrived(v, id) == Arrived(w, id) {
      assert DebitOk(w, id);
    }
  }

  lemma DebitTotal(w: World, v: World, i: nat, t: CrossTx)
    requires Inv(w) && DebitStep(w, v, i, t)
    ensures Total(v) == Total(w)
  {
    var sat := ToSatoshi(t.amount);
    DebitSum(w.nodes[i], t);
    HeldShift(w, v, i, -sat);
    DebitArrivals(w, v, i, t);
    Launched(w, v, t);
    hide Inv, InFlight, Held, Sum, SumSeq, ToSatoshi, Covered, Bump;
    SumUpdate(InFlight(w), t.txId, sat);
  }

  lemma DebitDebitsOk(w: World, v: World, i: nat, t: CrossTx)
    requires DebitsOk(w) && DebitStep(w, v, i, t)
    ensures DebitsOk(v)
  {
    hide Bump, FromSatoshi, ToSatoshi;
    forall id | id in v.debits ensures DebitOk(v, id) {
      assert id != t.txId ==> DebitOk(w, id);
    }
  }

  lemma DebitRecordsOk(w: World, v: World, i: nat, t: CrossTx)
    requires RecordsOk(w) && DebitStep(w, v, i, t)
    ensures RecordsOk(v)
  {
    hide Bump, FromSatoshi, ToSatoshi, Covered;
    forall j, id | 0 <= j < |v.nodes| && id in v.nodes[j].txs ensures RecordOk(v, j, id) {
      if j != i || id != t.txId {
        assert RecordOk(w, j, id);
      }
    }
  }

  lemma DebitOwners(w: World, v: World, i: nat, t: CrossTx)
    requires OneOwner(w) && DebitStep(w, v, i, t)
    ensures OneOwner(v)
  {
    forall j, k, id | 0 <= j < k < |v.nodes| ensures !(Own(v, j, id) && Own(v, k, id)) {
      assert !(Own(w, j, id) && Own(w, k, id));
    }
  }

  lemma DebitCredits(w: World, v: World, i: nat, t: CrossTx)
    requires DebitsOk(w) && CreditsOk(w) && DebitStep(w, v, i, t)
    ensures CreditsOk(v)
  {
    hide ToSatoshi, Bump, Covered;
    forall k | 0 <= k < |v.credits| ensures CreditOk(v, v.credits[k]) {
      assert CreditOk(w, w.credits[k]);
    }
    forall id | id in v.debits && Arrived(v, id) ensures CreditedIn(v.credits, id) {
      assert id != t.txId && DebitOk(w, id);
      assert Arrived(w, id);
    }
  }

  lemma DebitKeeps(w: World, v: World, i: nat, t: CrossTx)
    requires Inv(w) && DebitStep(w, v, i, t)
    ensures Inv(v) && Total(v) == Total(w)
  {
    DebitTotal(w, v, i, t);
    DebitDebitsOk(w, v, i, t);
    DebitRecordsOk(w, v, i, t);
    DebitOwners(w, v, i, t);
    DebitCredits(w, v, i, t);
    DebitSent(w, v, i, t);
    hide DebitsOk, RecordsOk, OneOwner, CreditsOk, SentOk, Total, DebitStep;
  }

  lemma DebitSent(w: World, v: World, i: nat, t: CrossTx)
    requires SentOk(w) && DebitStep(w, v, i, t)
    ensures SentOk(v)
  {
    hide Bump, Covered, OnlyAt;
  }

  /** Under the id of an earlier debit of the same transfer. */
  predicate RedebitStep(w: World, v: World, i: nat, t: CrossTx) {
    DebitEffect(w, v, i, t) && t.txId in w.debits && Export(w.debits[t.txId]) == Export(t)
  }

  lemma RedebitArrivals(w: World, v: World, i: nat, t: CrossTx)
    requires DebitsOk(w) && RedebitStep(w, v, i, t)
    ensures forall id :: id in w.debits ==> Arrived(v, id) == Arrived(w, id)
  {
    hide Covered, Bump;
    forall id | id in w.debits ensures Arrived(v, id) == Arrived(w, id) {
      assert DebitOk(w, id);
    }
  }

  lemma Relaunched(w: World, v: World, t: CrossTx)
    requires t.txId in w.debits && w.debits[t.txId].amount == t.amount && v.debits == w.debits[t.txId := t]
    requires forall id :: id in w.debits ==> Arrived(v, id) == Arrived(w, id)
    ensures InFlight(v) == InFlight(w)
  {
    hide Arrived, ToSatoshi;
    forall id | id in w.debits ensures id in InFlight(v) <==> id in InFlight(w) {
    }
  }

  lemma RedebitTotal(w: World, v: World, i: nat, t: CrossTx)
    requires DebitsOk(w) && RedebitStep(w, v, i, t)
    ensures Total(v) == Total(w) - ToSatoshi(t.amount)
  {
    DebitSum(w.nodes[i], t);
    HeldShift(w, v, i, -ToSatoshi(t.amount));
    RedebitArrivals(w, v, i, t);
    Relaunched(w, v, t);
  }

  lemma RedebitDebitsOk(w: World, v: World, i: nat, t: CrossTx)
    requires DebitsOk(w) && RedebitStep(w, v, i, t)
    ensures DebitsOk(v)
  {
    hide Bump, FromSatoshi, ToSatoshi;
    forall id | id in v.debits ensures DebitOk(v, id) {
      assert DebitOk(w, id);
    }
  }

  lemma RedebitRecordsOk(w: World, v: World, i: nat, t: CrossTx)
    requires RecordsOk(w) && RedebitStep(w, v, i, t)
    ensures RecordsOk(v)
  {
    hide Bump, FromSatoshi, ToSatoshi, Covered;
    forall j, id | 0 <= j < |v.nodes| && id in v.nodes[j].txs ensures RecordOk(v, j, id) {
      if j != i || id != t.txId {
        assert RecordOk(w, j, id);
      }
    }
  }

  lemma RedebitOwners(w: World, v: World, i: nat, t: CrossTx)
    requires DebitsOk(w) && OneOwner(w) && RedebitStep(w, v, i, t)
    ensures OneOwner(v)
  {
    assert DebitOk(w, t.txId) && Own(w, i, t.txId);
    forall j, k, id | 0 <= j < k < |v.nodes| ensures !(Own(v, j, id) && Own(v, k, id)) {
      assert !(Own(w, j, id) && Own(w, k, id));
    }
  }

  lemma RedebitCredits(w: World, v: World, i: nat, t: CrossTx)
    requires DebitsOk(w) && CreditsOk(w) && RedebitStep(w, v, i, t)
    ensures CreditsOk(v)
  {
    RedebitArrivals(w, v, i, t);
    hide ToSatoshi, Bump, Covered, Arrived, OnlyAt;
    forall k | 0 <= k < |v.credits| ensures CreditOk(v, v.credits[k]) {
      assert CreditOk(w, w.credits[k]);
    }
    forall id | id in v.debits && Arrived(v, id) ensures CreditedIn(v.credits, id) {
      assert Arrived(w, id);
    }
  }

  lemma RedebitSent(w: World, v: World, i: nat, t: CrossTx)
    requires SentOk(w) && RedebitStep(w, v, i, t)
    ensures SentOk(v)
  {
    hide Bump, Covered, OnlyAt;
  }

  /** The second debit of a transfer shares the one credit of the first. */
  lemma RedebitKeeps(w: World, v: World, i: nat, t: CrossTx)
    requires Inv(w) && RedebitStep(w, v, i, t)
    ensures Inv(v) && Total(v) == Total(w) - ToSatoshi(t.amount)
  {
    hide DebitsOk, RecordsOk, OneOwner, CreditsOk, SentOk, Total, ToSatoshi, Bump, Covered;
    RedebitTotal(w, v, i, t);
    RedebitDebitsOk(w, v, i, t);
    RedebitRecordsOk(w, v, i, t);
    RedebitOwners(w, v, i, t);
    RedebitCredits(w, v, i, t);
    RedebitSent(w, v, i, t);
  }

  /** Node i paid out message m. */
  predicate CreditStep(w: World, v: World, i: nat, m: Message) {
    && OnlyAt(w, v, i) && m.Transfer? && m in w.sent && Credits(w.nodes[i], m)
    && v.debits == w.debits && v.credits == w.credits + [Credit(m.txId, m.toAddr, ToSatoshi(m.amount))]
    && v.nodes[i].accounts == Bump(w.nodes[i].accounts, m.toAddr, m.amount)
    && v.nodes[i].txs.Keys == w.nodes[i].txs.Keys + {m.txId}
    && (forall k :: k in w.nodes[i].txs && k != m.txId ==> v.nodes[i].txs[k] == w.nodes[i].txs[k])
    && (m.txId !in w.nodes[i].txs ==>
          v.nodes[i].txs[m.txId]
          == CrossTx(m.txId, m.fromShard, m.toShard, m.fromAddr, m.toAddr, m.amount, Confirmed))
    && forall x :: x in v.sent && x.Transfer? ==> x in w.sent
  }

  lemma OwnersDiffer(w: World, j: int, k: int, id: string)
    requires OneOwner(w) && InRange(w, j) && InRange(w, k) && Own(w, j, id) && Own(w, k, id)
    ensures j == k
  {
  }

  /** What is paid was debited elsewhere, for the same amount, and has not arrived yet. */
  lemma PaidIsInFlight(w: World, i: nat, m: Message)
    requires Inv(w) && i < |w.nodes| && m.Transfer? && m in w.sent && Credits(w.nodes[i], m)
    ensures m.txId in w.debits && m == Export(w.debits[m.txId]) && m.toShard == i && m.fromShard != i
    ensures m.txId !in w.nodes[i].txs && !Arrived(w, m.txId)
  {
    hide CreditsOk, OneOwner;
    var id := m.txId;
    assert DebitOk(w, id);
    if id in w.nodes[i].txs {
      assert RecordOk(w, i, id);
      OwnersDiffer(w, i, w.debits[id].fromShard, id);
    }
  }

  /** The other transfers are where they were. */
  lemma CreditArrivals(w: World, v: World, i: nat, m: Message)
    requires Inv(w) && CreditStep(w, v, i, m)
    ensures Arrived(v, m.txId)
    ensures forall id :: id in w.debits && id != m.txId ==> Arrived(v, id) == Arrived(w, id)
  {
    PaidIsInFlight(w, i, m);
    hide CreditsOk, OneOwner, RecordsOk, SentOk, Bump, ToSatoshi;
    assert DebitOk(w, m.txId);
    forall id | id in w.debits && id != m.txId ensures Arrived(v, id) == Arrived(w, id) {
      assert DebitOk(w, id);
    }
  }

  lemma CreditTotal(w: World, v: World, i: nat, m: Message)
    requires Inv(w) && CreditStep(w, v, i, m)
    ensures Total(v) == Total(w)
  {
    PaidIsInFlight(w, i, m);
    CreditSum(w.nodes[i], m);
    HeldShift(w, v, i, ToSatoshi(m.amount));
    CreditArrivals(w, v, i, m);
    Landed(w, v, m.txId);
    hide Inv, InFlight, Held, Sum, SumSeq, ToSatoshi, Bump, Arrived;
    SumRemove(InFlight(w), m.txId);
  }

  lemma CreditDebitsOk(w: World, v: World, i: nat, m: Message)
    requires Inv(w) && CreditStep(w, v, i, m)
    ensures DebitsOk(v)
  {
    hide CreditsOk, OneOwner, SentOk, RecordsOk, Bump, ToSatoshi, Credits;
    PaidIsInFlight(w, i, m);
    forall id | id in v.debits ensures DebitOk(v, id) {
      assert DebitOk(w, id);
    }
  }

  lemma CreditRecordsOk(w: World, v: World, i: nat, m: Message)
    requires Inv(w) && CreditStep(w, v, i, m)
    ensures RecordsOk(v)
  {
    hide CreditsOk, OneOwner, SentOk, DebitsOk, Bump, ToSatoshi, Credits;
    PaidIsInFlight(w, i, m);
    forall j, id | 0 <= j < |v.nodes| && id in v.nodes[j].txs ensures RecordOk(v, j, id) {
      if j != i || id != m.txId {
        assert RecordOk(w, j, id);
      }
    }
  }

  lemma CreditOwners(w: World, v: World, i: nat, m: Message)
    requires Inv(w) && CreditStep(w, v, i, m)
    ensures OneOwner(v)
  {
    hide CreditsOk, RecordsOk, DebitsOk, SentOk, Bump, ToSatoshi, Credits;
    PaidIsInFlight(w, i, m);
    forall j, k, id | 0 <= j < k < |v.nodes| ensures !(Own(v, j, id) && Own(v, k, id)) {
      assert !(Own(w, j, id) && Own(w, k, id));
    }
  }

  /** The credits made so far stand, and none of them is the one being made. */
  lemma OldCredits(w: World, v: World, i: nat, m: Message, k: nat)
    requires Inv(w) && CreditStep(w, v, i, m) && k < |w.credits|
    ensures CreditOk(v, w.credits[k]) && w.credits[k].txId != m.txId
  {
    assert i < |w.nodes|;
    hide DebitsOk, RecordsOk, OneOwner, SentOk, ToSatoshi, Bump, Credits, Arrived, OnlyAt;
    PaidIsInFlight(w, i, m);
    CreditArrivals(w, v, i, m);
    assert CreditOk(w, w.credits[k]);
  }

  lemma NewArrivals(w: World, v: World, i: nat, m: Message, id: string)
    requires Inv(w) && CreditStep(w, v, i, m) && id in v.debits && Arrived(v, id)
    ensures CreditedIn(v.credits, id)
  {
    hide DebitsOk, RecordsOk, OneOwner, SentOk, ToSatoshi, Bump, Credits, Arrived, OnlyAt;
    CreditArrivals(w, v, i, m);
    if id == m.txId {
      assert v.credits[|w.credits|].txId == id;
    } else {
      var k :| 0 <= k < |w.credits| && w.credits[k].txId == id;
      assert v.credits[k].txId == id;
    }
  }

  lemma NewCreditOk(w: World, v: World, i: nat, m: Message)
    requires Inv(w) && CreditStep(w, v, i, m)
    ensures CreditOk(v, Credit(m.txId, m.toAddr, ToSatoshi(m.amount)))
  {
    assert i < |w.nodes|;
    hide DebitsOk, RecordsOk, OneOwner, SentOk, CreditsOk, ToSatoshi, Bump, Credits, Arrived, OnlyAt;
    PaidIsInFlight(w, i, m);
    CreditArrivals(w, v, i, m);
  }

  lemma CreditCredits(w: World, v: World, i: nat, m: Message)
    requires Inv(w) && CreditStep(w, v, i, m)
    ensures CreditsOk(v)
  {
    hide DebitsOk, RecordsOk, OneOwner, SentOk, ToSatoshi, Bump, Credits, Arrived, OnlyAt, CreditOk, CreditedIn;
    NewCreditOk(w, v, i, m);
    forall k | 0 <= k < |w.credits| ensures CreditOk(v, w.credits[k]) && w.credits[k].txId != m.txId {
      OldCredits(w, v, i, m, k);
    }
    forall id | id in v.debits && Arrived(v, id) ensures CreditedIn(v.credits, id) {
      NewArrivals(w, v, i, m, id);
    }
  }

  lemma CreditSent(w: World, v: World, i: nat, m: Message)
    requires SentOk(w) && CreditStep(w, v, i, m)
    ensures SentOk(v)
  {
    hide Bump, Credits, OnlyAt;
  }

  lemma CreditKeeps(w: World, v: World, i: nat, m: Message)
    requires Inv(w) && CreditStep(w, v, i, m)
    ensures Inv(v) && Total(v) == Total(w)
  {
    hide DebitsOk, RecordsOk, OneOwner, CreditsOk, SentOk, Total, Bump, ToSatoshi, Credits;
    CreditTotal(w, v, i, m);
    CreditDebitsOk(w, v, i, m);
    CreditRecordsOk(w, v, i, m);
    CreditOwners(w, v, i, m);
    CreditCredits(w, v, i, m);
    CreditSent(w, v, i, m);
  }

  // ---------------------------------------------------------------- the theorems

  lemma AfterOnlyAt(net: Net, w: World, step: Step)
    requires step.at < |w.nodes| && NodeAfter(net, w.nodes[step.at], step).shard == w.nodes[step.at].shard
    ensures OnlyAt(w, After(net, w, step), step.at)
  {
    hide NodeAfter, Replies, Debits, Pays;
  }

  /** New transfers in circulation come out of the node's outbox. */
  lemma SentFrom(net: Net, w: World, step: Step, m: Message)
    requires step.at < |w.nodes| && Linked(w)
    requires m in After(net, w, step).sent && m.Transfer? && m !in w.sent
    ensures m in TransfersIn(NodeAfter(net, w.nodes[step.at], step).outbox)
    ensures m !in TransfersIn(w.nodes[step.at].outbox)
  {
    hide NodeAfter, Debits, Pays, CreditAccepted;
  }

  /** A submission sends nothing new but the transfer it debited. */
  lemma SubmitSent(net: Net, w: World, step: Step, m: Message)
    requires Linked(w) && step.Submit? && step.at < |w.nodes|
    requires m in After(net, w, step).sent && m.Transfer? && m !in w.sent
    ensures Debits(net, w.nodes[step.at], step) && m == Export(RecordOf(net, step.request))
  {
    AddTransactionEffect(net, w.nodes[step.at], step.request);
    SentFrom(net, w, step, m);
    hide After, AddTransaction, TransfersIn, KeyCount, AckCount, Covered, Bump;
  }

  lemma SubmitDebits(net: Net, w: World, step: Step)
    requires ValidNet(net) && |w.nodes| == net.numShards && Inv(w) && Enabled(w, step)
    requires Debits(net, w.nodes[step.at], step)
    ensures DebitEffect(w, After(net, w, step), step.at, RecordOf(net, step.request))
  {
    hide Inv, AddTransaction, TransfersIn, Covered, Bump, OnlyAt, PaidAcks, SameMoney, Export, ToSatoshi,
      KeyCount, AckCount, Replies, FromSatoshi;
    var i, n, t, v := step.at, w.nodes[step.at], RecordOf(net, step.request), After(net, w, step);
    LinkedShard(w, i);
    AddTransactionEffect(net, n, step.request);
    AfterOnlyAt(net, w, step);
    forall m | m in v.sent && m.Transfer? && m !in w.sent ensures m == Export(t) {
      LinkedOk(w);
      SubmitSent(net, w, step, m);
    }
    assert t.fromShard == i && InRange(w, t.toShard) && t.toShard != i;
    hide ValidNet, AddOutcome, InRange;
    assert v.nodes[i] == NodeAfter(net, n, step);
    assert v.debits == w.debits[t.txId := t] && v.credits == w.credits;
    hide After;
  }

  lemma LinkedOk(w: World)
    requires Inv(w)
    ensures Linked(w)
  {
  }

  lemma SubmitQuiet(net: Net, w: World, step: Step)
    requires Inv(w) && step.Submit? && Clean(net, w, step) && !Debits(net, w.nodes[step.at], step)
    ensures QuietStep(w, After(net, w, step), step.at)
  {
    hide DebitsOk, RecordsOk, OneOwner, SentOk, CreditsOk, Repeated, Fresh, AddTransaction, TransfersIn, Covered, Bump,
      Replies, PaidAcks;
    var i, n, v := step.at, w.nodes[step.at], After(net, w, step);
    LinkedShard(w, i);
    AddTransactionEffect(net, n, step.request);
    AfterOnlyAt(net, w, step);
    forall m | m in v.sent && m.Transfer? ensures m in w.sent {
      if m !in w.sent {
        SubmitSent(net, w, step, m);
      }
    }
    if AddOutcome(net, n, step.request).Cross? {
      FreshOrOwn(net, w, i, step.request);
    }
    hide Inv, OnlyAt;
    assert QuietRecords(w, v, i);
  }

  lemma SubmitKeeps(net: Net, w: World, step: Step)
    requires ValidNet(net) && |w.nodes| == net.numShards && Inv(w) && step.Submit? && Clean(net, w, step)
    ensures Inv(After(net, w, step)) && Total(After(net, w, step)) == Total(w) - Lost(net, w, step)
  {
    hide Inv, After, Total, AddOutcome, Covered, ToSatoshi, DebitEffect;
    if Debits(net, w.nodes[step.at], step) {
      SubmitDebits(net, w, step);
      if Fresh(w, step.at, net.idOf(step.request)) {
        DebitKeeps(w, After(net, w, step), step.at, RecordOf(net, step.request));
      } else {
        RedebitKeeps(w, After(net, w, step), step.at, RecordOf(net, step.request));
      }
    } else {
      SubmitQuiet(net, w, step);
      QuietKeeps(w, After(net, w, step), step.at);
    }
  }

  lemma LinkedShard(w: World, i: nat)
    requires Inv(w) && i < |w.nodes|
    ensures w.nodes[i].shard == i
  {
    hide DebitsOk, RecordsOk, OneOwner, SentOk, CreditsOk;
  }

  /** The record a clean submission writes is new, or the node's own. */
  lemma FreshOrOwn(net: Net, w: World, i: nat, r: Request)
    requires Inv(w) && i < |w.nodes| && net.shardOf(r.fromAddr) == i
    requires Fresh(w, i, net.idOf(r)) || Repeated(net, w, r)
    ensures net.idOf(r) in w.nodes[i].txs ==> Own(w, i, net.idOf(r))
    ensures Fresh(w, i, net.idOf(r)) || Own(w, i, net.idOf(r))
  {
    hide OneOwner, SentOk, CreditsOk;
    var id := net.idOf(r);
    assert id in w.nodes[i].txs ==> RecordOk(w, i, id);
    assert id in w.debits ==> DebitOk(w, id);
  }

  lemma DeliverKeeps(net: Net, w: World, step: Step)
    requires Inv(w) && step.Deliver? && step.message.Transfer? && Enabled(w, step)
    ensures Inv(After(net, w, step)) && Total(After(net, w, step)) == Total(w)
  {
    hide DebitsOk, RecordsOk, OneOwner, CreditsOk, SentOk, ReceiveCredit, TransfersIn, PaidAcks, Total, ToSatoshi, Bump;
    var i, m, n, v := step.at, step.message, w.nodes[step.at], After(net, w, step);
    ReceiveCreditEffect(n, m);
    AfterOnlyAt(net, w, step);
    forall x | x in v.sent && x.Transfer? ensures x in w.sent {
      if x !in w.sent {
        SentFrom(net, w, step, x);
      }
    }
    hide Inv;
    if Credits(n, m) {
      assert CreditStep(w, v, i, m);
      CreditKeeps(w, v, i, m);
    } else {
      assert QuietRecords(w, v, i);
      QuietKeeps(w, v, i);
    }
  }

  /** The steps that never touch an account. */
  lemma TalkKeeps(net: Net, w: World, step: Step)
    requires Inv(w) && Enabled(w, step)
    requires step.Retry? || step.Vote? || (step.Deliver? && step.message.Ack?)
    ensures Inv(After(net, w, step)) && Total(After(net, w, step)) == Total(w)
  {
    hide DebitsOk, RecordsOk, OneOwner, SentOk, CreditsOk, NodeAfter, Replies, Total, ExportsDebited, TransfersIn;
    var i, n, v := step.at, w.nodes[step.at], After(net, w, step);
    LinkedShard(w, i);
    TalkEffect(net, n, step);
    var m := NodeAfter(net, n, step);
    if m.txs != n.txs {
      assert RecordsOk(w);
      TalkedRecord(w, i, step.message.ackTxId);
    }
    AfterOnlyAt(net, w, step);
    forall x | x in v.sent && x.Transfer? ensures x in w.sent || ExportsDebited(n, x) {
      if x !in w.sent {
        SentFrom(net, w, step, x);
      }
    }
    hide Inv, OnlyAt;
    assert QuietRecords(w, v, i);
    QuietKeeps(w, v, i);
  }

  lemma TalkedRecord(w: World, i: nat, id: string)
    requires RecordsOk(w) && i < |w.nodes| && id in w.nodes[i].txs
    ensures w.nodes[i].txs[id].txId == id
  {
    assert RecordOk(w, i, id);
  }

  /** Such a step may confirm an own transfer and pass debited ones on, and no more. */
  lemma TalkEffect(net: Net, n: Node, step: Step)
    requires step.Retry? || step.Vote? || (step.Deliver? && step.message.Ack?)
    ensures var m := NodeAfter(net, n, step);
      && m.shard == n.shard && m.accounts == n.accounts
      && (forall x :: x in TransfersIn(m.outbox) ==> x in TransfersIn(n.outbox) || ExportsDebited(n, x))
      && (m.txs == n.txs ||
          (step.Deliver? && step.message.ackTxId in n.txs && n.txs[step.message.ackTxId].fromShard == n.shard
           && m.txs == n.txs[step.message.ackTxId := n.txs[step.message.ackTxId].(status := Confirmed)]))
  {
    hide TransfersIn, ExportsDebited, PaidAcks, ReceiveAck, Regossip, SubmitVote;
    match step {
      case Deliver(_, m) => ReceiveAckEffect(n, m);
      case Retry(_) => RegossipEffect(n, n.pending);
      case Vote(_, txId, shardId, vid) => SubmitVoteQuiet(n, txId, shardId, vid);
    }
  }

  lemma StepKeeps(net: Net, w: World, step: Step)
    requires ValidNet(net) && |w.nodes| == net.numShards && Inv(w) && Clean(net, w, step)
    ensures Inv(After(net, w, step)) && Total(After(net, w, step)) == Total(w) - Lost(net, w, step)
  {
    hide Inv, After, Total, AddOutcome, ToSatoshi;
    if step.Submit? {
      SubmitKeeps(net, w, step);
    } else if step.Deliver? && step.message.Transfer? {
      DeliverKeeps(net, w, step);
    } else {
      TalkKeeps(net, w, step);
    }
  }

  lemma InitInv(net: Net, w: World)
    requires Init(net, w)
    ensures Inv(w) && Total(w) == SumSeq(Held(w))
  {
    assert InFlight(w) == map[];
  }

  /** The books over any clean run: all balances plus the money in flight are what the
      balances were at the start, less what repeated debits took. */
  lemma {:induction false} TotalOverRun(net: Net, w: World, steps: seq<Step>)
    requires ValidNet(net) && Init(net, w) && Allowed(net, w, steps) && CleanRun(net, w, steps)
    ensures Inv(Run(net, w, steps))
    ensures Total(Run(net, w, steps)) == SumSeq(Held(w)) - LostOver(net, w, steps)
    decreases |steps|
  {
    if steps == [] {
      InitInv(net, w);
    } else {
      TotalOverRun(net, w, steps[..|steps| - 1]);
      hide Inv, Total, NodeAfter, Init, Clean, Lost;
      StepKeeps(net, Run(net, w, steps[..|steps| - 1]), steps[|steps| - 1]);
    }
  }

  /** With fresh ids every step is clean and nothing is lost. */
  lemma {:induction false} FreshIsClean(net: Net, w: World, steps: seq<Step>)
    requires Allowed(net, w, steps) && FreshRun(net, w, steps)
    ensures CleanRun(net, w, steps) && LostOver(net, w, steps) == 0
    decreases |steps|
  {
    if steps != [] {
      FreshIsClean(net, w, steps[..|steps| - 1]);
      hide NodeAfter, AddOutcome, Covered, ToSatoshi, Repeated;
    }
  }

  /** Conservation: after any run with fresh ids, all balances plus the money in flight
      are what the balances were at the start. */
  lemma Conservation(net: Net, w: World, steps: seq<Step>)
    requires ValidNet(net) && Init(net, w) && Allowed(net, w, steps) && FreshRun(net, w, steps)
    ensures Inv(Run(net, w, steps))
    ensures Total(Run(net, w, steps)) == SumSeq(Held(w))
  {
    FreshIsClean(net, w, steps);
    TotalOverRun(net, w, steps);
  }

  /** Exactly once: after any clean run each id was credited at most once, and only for a
      debited transfer, to its recipient, for its amount. */
  lemma CreditedAtMostOnce(net: Net, w: World, steps: seq<Step>, k: nat)
    requires ValidNet(net) && Init(net, w) && Allowed(net, w, steps) && CleanRun(net, w, steps)
    requires k < |Run(net, w, steps).credits|
    ensures var v := Run(net, w, steps);
      var c := v.credits[k];
      && c.txId in v.debits && c.address == v.debits[c.txId].toAddr && c.satoshi == ToSatoshi(v.debits[c.txId].amount)
      && forall l :: 0 <= l < |v.credits| && v.credits[l].txId == c.txId ==> l == k
  {
    TotalOverRun(net, w, steps);
    hide DebitsOk, RecordsOk, OneOwner, SentOk, Run, Allowed, CleanRun, Init, ToSatoshi;
    var v := Run(net, w, steps);
    assert CreditOk(v, v.credits[k]);
  }

  /** Once every debited transfer is credited, the balances alone add up to the start,
      less what repeated debits took. */
  lemma AllDelivered(net: Net, w: World, steps: seq<Step>)
    requires ValidNet(net) && Init(net, w) && Allowed(net, w, steps) && CleanRun(net, w, steps)
    requires forall id :: id in Run(net, w, steps).debits ==> CreditedIn(Run(net, w, steps).credits, id)
    ensures SumSeq(Held(Run(net, w, steps))) == SumSeq(Held(w)) - LostOver(net, w, steps)
  {
    TotalOverRun(net, w, steps);
    var v := Run(net, w, steps);
    hide DebitsOk, RecordsOk, OneOwner, SentOk, Run, Allowed, CleanRun, Init;
    forall id | id in v.debits ensures Arrived(v, id) {
      var k :| 0 <= k < |v.credits| && v.credits[k].txId == id;
      assert CreditOk(v, v.credits[k]);
    }
    assert InFlight(v) == map[];
  }
}
