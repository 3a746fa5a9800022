/** Cross-shard transfers of a node that owns one shard (dynamic_sharding.py in
    distributed mode, with consensus/cross_shard_coordinator.py on values). The class
    updates its fields and its database in place; the functions on Node values say
    what each method does. Balances are kept in satoshi, as the database keeps them. */
module Sharding {
  import opened Wrappers
  import opened Text
  import opened Money

  datatype Status = Pending | Debited | Confirmed | Failed

  datatype CrossTx = CrossTx(txId: string, fromShard: int, toShard: int, fromAddr: string, toAddr: string,
                             amount: real, status: Status)

  datatype Message =
    | Transfer(txId: string, fromShard: int, toShard: int, fromAddr: string, toAddr: string, amount: real)
    | Ack(ackTxId: string, shardId: Option<int>, ackToShard: Option<int>, validatorId: string)

  datatype Request = Request(fromAddr: string, toAddr: string, amount: real, nonce: int)

  /** How addresses map to shards and requests to ids: hashes, taken as given. */
  datatype Net = Net(numShards: nat, shardOf: string -> int, idOf: Request -> string)

  // ---------------------------------------------------------------- the coordinator

  datatype Coordinator = Coordinator(
    committees: map<int, set<string>>, required: map<string, set<int>>,
    acks: map<string, set<int>>, votes: map<string, map<int, set<string>>>)
  {
    function Committee(shard: int): set<string> {
      if shard in committees then committees[shard] else {}
    }

    function Votes(txId: string, shard: int): set<string> {
      if txId in votes && shard in votes[txId] then votes[txId][shard] else {}
    }

    function Acks(txId: string): set<int> {
      if txId in acks then acks[txId] else {}
    }

    function Begin(txId: string, fromShard: int, toShard: int): Coordinator {
      this.(required := required[txId := {fromShard, toShard}], acks := acks[txId := Acks(txId)],
            votes := votes - {txId})
    }

    predicate ShardMet(txId: string, shard: int) {
      if Committee(shard) == {} then shard in Acks(txId)
      else |Votes(txId, shard)| >= QuorumSize(|Committee(shard)|)
    }

    predicate QuorumReached(txId: string) {
      txId in required && required[txId] != {} && forall s :: s in required[txId] ==> ShardMet(txId, s)
    }

    function RecordVote(txId: string, shard: int, validatorId: string): Coordinator {
      var vid := Strip(validatorId);
      if vid == "" || txId !in required || shard !in required[txId]
         || (Committee(shard) != {} && vid !in Committee(shard)) then this
      else
        var perShard := if txId in votes then votes[txId] else map[];
        var c := this.(votes := votes[txId := perShard[shard := Votes(txId, shard) + {vid}]]);
        if c.ShardMet(txId, shard) then c.(acks := acks[txId := Acks(txId) + {shard}]) else c
    }

    function RecordAck(txId: string, shard: int): Coordinator {
      if txId !in required || Committee(shard) != {} then this
      else this.(acks := acks[txId := Acks(txId) + {shard}])
    }

    function Clear(txId: string): Coordinator {
      this.(required := required - {txId}, acks := acks - {txId}, votes := votes - {txId})
    }
  }

  /** max(1, ceil(n * 2/3)) */
  function QuorumSize(n: nat): nat {
    if n == 0 then 0 else (2 * n + 2) / 3
  }

  // ---------------------------------------------------------------- one node

  datatype Node = Node(
    shard: int, nodeId: string, validatorId: string, gossips: bool, hasDb: bool,
    txs: map<string, CrossTx>, pending: seq<string>, local: seq<Request>,
    seen: set<string>, relayed: set<string>, coordinator: Option<Coordinator>,
    accounts: map<string, nat>,
    outbox: seq<Message>)   // what the gossip callback was given

  function AckKey(txId: string, shardId: int, validatorId: string): string {
    txId + ":" + Decimal(shardId) + ":" + validatorId
  }

  function GossipAck(n: Node, txId: string, shardId: int, validatorId: string): Node {
    var vid := Strip(validatorId);
    var key := AckKey(txId, shardId, vid);
    if vid == "" || !n.gossips || key in n.seen then n
    else n.(seen := n.seen + {key}, outbox := n.outbox + [Ack(txId, Some(shardId), None, vid)])
  }

  function RelayAck(n: Node, txId: string, shardId: int, validatorId: string): Node {
    var vid := Strip(validatorId);
    var key := AckKey(txId, shardId, vid);
    if vid == "" || !n.gossips || key in n.relayed then n
    else n.(relayed := n.relayed + {key}, outbox := n.outbox + [Ack(txId, Some(shardId), None, vid)])
  }

  function SignerOf(n: Node): string {
    if n.validatorId != "" then n.validatorId else n.nodeId
  }

  function RecordShardAck(n: Node, txId: string, shardId: int): Node {
    if n.coordinator.None? then n
    else
      var c := n.coordinator.value;
      if c.Committee(shardId) != {} then
        if SignerOf(n) == "" then n
        else GossipAck(n.(coordinator := Some(c.RecordVote(txId, shardId, SignerOf(n)))), txId, shardId, SignerOf(n))
      else n.(coordinator := Some(c.RecordAck(txId, shardId)))
  }

  function SubmitVote(n: Node, txId: string, shardId: int, validatorId: string): Node {
    var vid := Strip(if validatorId != "" then validatorId else SignerOf(n));
    if vid == "" || n.coordinator.None? then n
    else GossipAck(n.(coordinator := Some(n.coordinator.value.RecordVote(txId, shardId, vid))), txId, shardId, vid)
  }

  predicate Covered(n: Node, tx: CrossTx) {
    && tx.amount > 0.0 && tx.fromAddr != "" && tx.toAddr != "" && n.hasDb
    && FromSatoshi(BalanceOf(n.accounts, tx.fromAddr)) >= tx.amount
  }

  function Export(tx: CrossTx): Message {
    Transfer(tx.txId, tx.fromShard, tx.toShard, tx.fromAddr, tx.toAddr, tx.amount)
  }

  function GossipTx(n: Node, txId: string): Node {
    if !n.gossips || txId !in n.txs then n else n.(outbox := n.outbox + [Export(n.txs[txId])])
  }

  function RemoveFirst(s: seq<string>, x: string): seq<string> {
    if s == [] then [] else if s[0] == x then s[1..] else [s[0]] + RemoveFirst(s[1..], x)
  }

  function Withdraw(pending: seq<string>, txId: string): seq<string> {
    if txId in pending then RemoveFirst(pending, txId) else pending
  }

  function SetStatus(n: Node, txId: string, status: Status): Node
    requires txId in n.txs
  {
    n.(txs := n.txs[txId := n.txs[txId].(status := status)])
  }

  /** The record of a new transfer, before any money moves. */
  function Opened(net: Net, n: Node, r: Request): Node {
    var id, f, t := net.idOf(r), net.shardOf(r.fromAddr), net.shardOf(r.toAddr);
    n.(txs := n.txs[id := CrossTx(id, f, t, r.fromAddr, r.toAddr, r.amount, Pending)],
       pending := n.pending + [id],
       coordinator := if n.coordinator.Some? then Some(n.coordinator.value.Begin(id, f, t)) else None)
  }

  datatype Outcome = ForeignSender | SameShard(shard: int) | Cross(crossShard: int, txId: string)

  function AddOutcome(net: Net, n: Node, r: Request): Outcome {
    var f := net.shardOf(r.fromAddr);
    if f != n.shard then ForeignSender
    else if f == net.shardOf(r.toAddr) then SameShard(f)
    else Cross(f, net.idOf(r))
  }

  function AddTransaction(net: Net, n: Node, r: Request): Node {
    var out := AddOutcome(net, n, r);
    if out.ForeignSender? then n
    else if out.SameShard? then n.(local := n.local + [r])
    else
      var id := out.txId;
      Launch(Opened(net, n, r), id)
  }

  /** Debit, acknowledge and gossip a recorded transfer, or fail it. */
  function Launch(n: Node, id: string): Node
    requires id in n.txs
  {
    var tx := n.txs[id];
    if Covered(n, tx) then
      var n1 := n.(accounts := Bump(n.accounts, tx.fromAddr, -tx.amount));
      GossipTx(RecordShardAck(SetStatus(n1, id, Debited), id, tx.fromShard), id)
    else
      SetStatus(n, id, Failed).(pending := Withdraw(n.pending, id))
  }

  /** This delivery moves money. */
  predicate Credits(n: Node, m: Message)
    requires m.Transfer?
  {
    && m.toShard == n.shard && m.txId != ""
    && !(m.txId in n.txs && n.txs[m.txId].status == Confirmed)
    && m.amount > 0.0 && m.toAddr != "" && n.hasDb
  }

  predicate CreditAccepted(n: Node, m: Message)
    requires m.Transfer?
  {
    Credits(n, m) || (m.toShard == n.shard && m.txId != "" && m.txId in n.txs && n.txs[m.txId].status == Confirmed)
  }

  function Settle(n: Node, txId: string): Node {
    if n.coordinator.Some? && n.coordinator.value.QuorumReached(txId) then
      n.(coordinator := Some(n.coordinator.value.Clear(txId)))
    else n
  }

  function ReceiveCredit(n: Node, m: Message): Node
    requires m.Transfer?
  {
    if !Credits(n, m) then n
    else
      var tx := if m.txId in n.txs then n.txs[m.txId]
                else CrossTx(m.txId, m.fromShard, m.toShard, m.fromAddr, m.toAddr, m.amount, Confirmed);
      var n1 := n.(accounts := Bump(n.accounts, m.toAddr, m.amount),
                   txs := n.txs[m.txId := tx.(status := Confirmed)],
                   pending := Withdraw(n.pending, m.txId));
      Settle(RecordShardAck(n1, m.txId, m.toShard), m.txId)
  }

  function AckedShard(tx: CrossTx, m: Message): int
    requires m.Ack?
  {
    if m.shardId.Some? then m.shardId.value else if m.ackToShard.Some? then m.ackToShard.value else tx.toShard
  }

  /** A first sighting is recorded; any sighting is relayed once. */
  function NoteVote(n: Node, txId: string, shardId: int, vid: string): Node
    requires n.coordinator.Some?
  {
    var key := AckKey(txId, shardId, vid);
    var n1 := if key in n.seen then n
              else n.(seen := n.seen + {key},
                      coordinator := Some(n.coordinator.value.RecordVote(txId, shardId, vid)));
    RelayAck(n1, txId, shardId, vid)
  }

  function Confirm(n: Node, txId: string): Node
    requires txId in n.txs
  {
    SetStatus(n, txId, Confirmed).(pending := Withdraw(n.pending, txId))
  }

  predicate AckAccepted(n: Node, m: Message)
    requires m.Ack?
  {
    && m.ackTxId != "" && m.ackTxId in n.txs
    && (n.txs[m.ackTxId].fromShard == n.shard || n.txs[m.ackTxId].toShard == n.shard)
  }

  function ReceiveAck(n: Node, m: Message): Node
    requires m.Ack?
  {
    if !AckAccepted(n, m) then n
    else
      var id := m.ackTxId;
      var tx := n.txs[id];
      var shardId, vid, ownsFrom := AckedShard(tx, m), Strip(m.validatorId), tx.fromShard == n.shard;
      if n.coordinator.None? then (if ownsFrom then Confirm(n, id) else n)
      else
        var n1 := if vid != "" then NoteVote(n, id, shardId, vid)
                  else if ownsFrom then RecordShardAck(n, id, shardId)
                  else n;
        if ownsFrom && n1.coordinator.value.QuorumReached(id) then Confirm(Settle(n1, id), id) else n1
  }

  /** Distributed mode: gossip every debited transfer again. */
  function Regossip(n: Node, ids: seq<string>): Node
    decreases |ids|
  {
    if ids == [] then n
    else
      var m, id := Regossip(n, ids[..|ids| - 1]), ids[|ids| - 1];
      if id in m.txs && m.txs[id].status == Debited then GossipTx(m, id) else m
  }

  lemma NothingToRecord(n: Node, txId: string, shardId: int)
    requires n.coordinator.None?
    ensures RecordShardAck(n, txId, shardId) == n
  {
  }

  lemma AcksKeepRecords(n: Node, txId: string, shardId: int, vid: string)
    requires n.coordinator.Some?
    ensures NoteVote(n, txId, shardId, vid).txs == n.txs && NoteVote(n, txId, shardId, vid).coordinator.Some?
    ensures RecordShardAck(n, txId, shardId).txs == n.txs && RecordShardAck(n, txId, shardId).coordinator.Some?
  {
    hide AckKey;
  }

  // ---------------------------------------------------------------- the objects

  /** The accounts table. */
  class Database {
    var accounts: map<string, nat>

    constructor (accounts: map<string, nat>)
      ensures this.accounts == accounts
    {
      this.accounts := accounts;
    }

    method UpdateBalance(address: string, delta: real)
      modifies this
      ensures accounts == Bump(old(accounts), address, delta)
    {
      var current := if address in accounts then accounts[address] else 0;
      var next := current + ToSatoshi(delta);
      if next < 0 {
        next := 0;
      }
      accounts := accounts[address := next];
    }
  }

  class ShardingManager {
    const net: Net
    const assignedShardId: int
    const nodeId: string
    const validatorId: string
    const gossips: bool
    const db: Database?
    var crossShardTxs: map<string, CrossTx>
    var pendingCrossTxs: seq<string>
    var local: seq<Request>
    var seenAcks: set<string>
    var relayedAcks: set<string>
    var coordinator: Option<Coordinator>
    var outbox: seq<Message>

    constructor (net: Net, shard: int, nodeId: string, validatorId: string, gossips: bool, db: Database?,
                 coordinator: Option<Coordinator>)
      ensures this.net == net && this.db == db
      ensures Value() == Node(shard, nodeId, Strip(if validatorId != "" then validatorId else nodeId), gossips,
                              db != null, map[], [], [], {}, {}, coordinator,
                              if db == null then map[] else db.accounts, [])
    {
      this.net, assignedShardId, this.nodeId, this.gossips, this.db := net, shard, nodeId, gossips, db;
      this.validatorId := Strip(if validatorId != "" then validatorId else nodeId);
      crossShardTxs, pendingCrossTxs, local, seenAcks, relayedAcks, outbox := map[], [], [], {}, {}, [];
      this.coordinator := coordinator;
    }

    function Value(): Node
      reads this, db
    {
      Node(assignedShardId, nodeId, validatorId, gossips, db != null, crossShardTxs, pendingCrossTxs, local,
           seenAcks, relayedAcks, coordinator, if db == null then map[] else db.accounts, outbox)
    }

    method EmitAck(txId: string, shardId: int, vid: string)
      modifies this`outbox
      ensures outbox == old(outbox) + [Ack(txId, Some(shardId), None, vid)]
    {
      outbox := outbox + [Ack(txId, Some(shardId), None, vid)];
    }

    method GossipValidatorAck(txId: string, shardId: int, validator: string)
      modifies this`seenAcks, this`outbox
      ensures Value() == GossipAck(old(Value()), txId, shardId, validator)
    {
      var vid := Strip(validator);
      if vid == "" || !gossips {
        return;
      }
      var key := AckKey(txId, shardId, vid);
      if key in seenAcks {
        return;
      }
      seenAcks := seenAcks + {key};
      EmitAck(txId, shardId, vid);
    }

    method RelayValidatorAck(txId: string, shardId: int, validator: string)
      modifies this`relayedAcks, this`outbox
      ensures Value() == RelayAck(old(Value()), txId, shardId, validator)
    {
      var vid := Strip(validator);
      if vid == "" || !gossips {
        return;
      }
      var key := AckKey(txId, shardId, vid);
      if key in relayedAcks {
        return;
      }
      relayedAcks := relayedAcks + {key};
      EmitAck(txId, shardId, vid);
    }

    method SubmitValidatorAck(txId: string, shardId: int, validator: string)
      modifies this`seenAcks, this`outbox, this`coordinator
      ensures Value() == SubmitVote(old(Value()), txId, shardId, validator)
    {
      var given := if validator != "" then validator else if validatorId != "" then validatorId else nodeId;
      var vid := Strip(given);
      if vid == "" || coordinator.None? {
        return;
      }
      coordinator := Some(coordinator.value.RecordVote(txId, shardId, vid));
      GossipValidatorAck(txId, shardId, vid);
    }

    method RecordAck(txId: string, shardId: int)
      modifies this`seenAcks, this`outbox, this`coordinator
      ensures Value() == RecordShardAck(old(Value()), txId, shardId)
    {
      if coordinator.None? {
        return;
      }
      if coordinator.value.Committee(shardId) != {} {
        var vid := if validatorId != "" then validatorId else nodeId;
        if vid == "" {
          return;
        }
        coordinator := Some(coordinator.value.RecordVote(txId, shardId, vid));
        GossipValidatorAck(txId, shardId, vid);
        return;
      }
      coordinator := Some(coordinator.value.RecordAck(txId, shardId));
    }

    method Debit(tx: CrossTx) returns (ok: bool)
      modifies db
      ensures ok == Covered(old(Value()), tx)
      ensures Value() == (if ok then old(Value()).(accounts := Bump(old(Value()).accounts, tx.fromAddr, -tx.amount))
                          else old(Value()))
    {
      if tx.amount <= 0.0 {
        return false;
      }
      if tx.fromAddr == "" || tx.toAddr == "" {
        return false;
      }
      if db == null {
        return false;
      }
      var balance := FromSatoshi(BalanceOf(db.accounts, tx.fromAddr));
      if balance < tx.amount {
        return false;
      }
      db.UpdateBalance(tx.fromAddr, -tx.amount);
      return true;
    }

    method Gossip(txId: string)
      modifies this`outbox
      ensures Value() == GossipTx(old(Value()), txId)
    {
      if !gossips || txId !in crossShardTxs {
        return;
      }
      outbox := outbox + [Export(crossShardTxs[txId])];
    }

    method Add(r: Request) returns (out: Outcome)
      modifies this, db
      ensures out == AddOutcome(net, old(Value()), r)
      ensures Value() == AddTransaction(net, old(Value()), r)
    {
      hide Launch;
      var fromShard, toShard := net.shardOf(r.fromAddr), net.shardOf(r.toAddr);
      if fromShard != assignedShardId {
        return ForeignSender;
      }
      if fromShard == toShard {
        local := local + [r];
        return SameShard(fromShard);
      }
      var txId := net.idOf(r);
      var tx := CrossTx(txId, fromShard, toShard, r.fromAddr, r.toAddr, r.amount, Pending);
      crossShardTxs := crossShardTxs[txId := tx];
      pendingCrossTxs := pendingCrossTxs + [txId];
      if coordinator.Some? {
        coordinator := Some(coordinator.value.Begin(txId, fromShard, toShard));
      }
      assert Value() == Opened(net, old(Value()), r);
      DebitAndGossip(tx);
      return Cross(fromShard, txId);
    }

    method DebitAndGossip(tx: CrossTx)
      requires tx.txId in crossShardTxs && crossShardTxs[tx.txId] == tx && tx.txId in pendingCrossTxs
      modifies this, db
      ensures Value() == Launch(old(Value()), tx.txId)
    {
      hide RecordShardAck, GossipTx, Bump, RemoveFirst, Covered;
      var txId := tx.txId;
      var debited := Debit(tx);
      if debited {
        crossShardTxs := crossShardTxs[txId := tx.(status := Debited)];
        if coordinator.Some? {
          RecordAck(txId, tx.fromShard);
        } else {
          NothingToRecord(Value(), txId, tx.fromShard);
        }
        Gossip(txId);
      } else {
        crossShardTxs := crossShardTxs[txId := tx.(status := Failed)];
        pendingCrossTxs := RemoveFirst(pendingCrossTxs, txId);
      }
    }

    method Credit(m: Message) returns (ok: bool)
      requires m.Transfer?
      modifies this, db
      ensures ok == CreditAccepted(old(Value()), m)
      ensures Value() == ReceiveCredit(old(Value()), m)
    {
      hide RecordShardAck, Settle, Bump, RemoveFirst;
      if m.toShard != assignedShardId || m.txId == "" {
        return false;
      }
      if m.txId in crossShardTxs && crossShardTxs[m.txId].status == Confirmed {
        return true;
      }
      if m.amount <= 0.0 || m.toAddr == "" {
        return false;
      }
      if db == null {
        return false;
      }
      db.UpdateBalance(m.toAddr, m.amount);
      var tx := if m.txId in crossShardTxs then crossShardTxs[m.txId]
                else CrossTx(m.txId, m.fromShard, m.toShard, m.fromAddr, m.toAddr, m.amount, Confirmed);
      crossShardTxs := crossShardTxs[m.txId := tx.(status := Confirmed)];
      if m.txId in pendingCrossTxs {
        pendingCrossTxs := RemoveFirst(pendingCrossTxs, m.txId);
      }
      AckAndSettle(m.txId, m.toShard);
      return true;
    }

    method AckAndSettle(txId: string, shardId: int)
      modifies this`seenAcks, this`outbox, this`coordinator
      ensures Value() == Settle(RecordShardAck(old(Value()), txId, shardId), txId)
    {
      hide RecordShardAck;
      if coordinator.Some? {
        RecordAck(txId, shardId);
        SettleQuorum(txId);
      } else {
        NothingToRecord(Value(), txId, shardId);
      }
    }

    method SettleQuorum(txId: string)
      modifies this`coordinator
      ensures Value() == Settle(old(Value()), txId)
    {
      if coordinator.Some? && coordinator.value.QuorumReached(txId) {
        coordinator := Some(coordinator.value.Clear(txId));
      }
    }

    /** confirmed, and no longer pending */
    method ConfirmOwn(txId: string)
      requires txId in crossShardTxs
      modifies this`crossShardTxs, this`pendingCrossTxs
      ensures Value() == Confirm(old(Value()), txId)
    {
      hide RemoveFirst;
      crossShardTxs := crossShardTxs[txId := crossShardTxs[txId].(status := Confirmed)];
      if txId in pendingCrossTxs {
        pendingCrossTxs := RemoveFirst(pendingCrossTxs, txId);
      }
    }

    method Note(txId: string, shardId: int, vid: string)
      requires coordinator.Some?
      modifies this`seenAcks, this`relayedAcks, this`coordinator, this`outbox
      ensures Value() == NoteVote(old(Value()), txId, shardId, vid)
    {
      hide RelayAck, AckKey;
      var key := AckKey(txId, shardId, vid);
      if key !in seenAcks {
        seenAcks := seenAcks + {key};
        coordinator := Some(coordinator.value.RecordVote(txId, shardId, vid));
      }
      RelayValidatorAck(txId, shardId, vid);
    }

    method AcceptAck(m: Message) returns (ok: bool)
      requires m.Ack?
      modifies this`crossShardTxs, this`pendingCrossTxs, this`seenAcks, this`relayedAcks, this`coordinator, this`outbox
      ensures ok == AckAccepted(old(Value()), m)
      ensures Value() == ReceiveAck(old(Value()), m)
    {
      hide NoteVote, RecordShardAck, Settle, Confirm;
      var txId := m.ackTxId;
      if txId == "" || txId !in crossShardTxs {
        return false;
      }
      var tx := crossShardTxs[txId];
      var shardId, vid := AckedShard(tx, m), Strip(m.validatorId);
      var ownsFrom, ownsTo := tx.fromShard == assignedShardId, tx.toShard == assignedShardId;
      if !ownsFrom && !ownsTo {
        return false;
      }
      if coordinator.Some? {
        if vid != "" {
          Note(txId, shardId, vid);
        } else if ownsFrom {
          RecordAck(txId, shardId);
        }
        AcksKeepRecords(old(Value()), txId, shardId, vid);
        if ownsFrom && coordinator.value.QuorumReached(txId) {
          SettleQuorum(txId);
          ConfirmOwn(txId);
        }
      } else if ownsFrom {
        ConfirmOwn(txId);
      }
      return true;
    }

    method Process()
      modifies this`outbox
      ensures Value() == Regossip(old(Value()), old(pendingCrossTxs))
    {
      var ids := pendingCrossTxs;
      for i := 0 to |ids|
        invariant Value() == Regossip(old(Value()), ids[..i])
      {
        assert ids[..i + 1][..i] == ids[..i];
        if ids[i] in crossShardTxs && crossShardTxs[ids[i]].status == Debited {
          Gossip(ids[i]);
        }
      }
      assert ids[..|ids|] == ids;
    }
  }
}
