/** The cross-chain bridge (bridge/abs_bridge.py) over the tables it works on
    (storage/database.py): balances, locks and credits. The objects are updated in
    place; the functions on Ledger values say what each call does. Verdicts of the
    external L1 verifier are inputs. */
module Bridge {
  import opened Wrappers
  import opened Text
  import opened Money
  import opened L1Queue

  datatype LockStatus = Pending | Confirmed | Refunded

  datatype Lock = Lock(fromAddr: string, toChain: string, toAddr: string, amount: real, status: LockStatus)

  datatype Credit = Credit(eventTx: string, recipient: string, amount: real, fromChain: string)

  datatype Ledger = Ledger(accounts: map<string, nat>, locks: map<string, Lock>, credits: map<string, Credit>)

  datatype Mode = Rust | Simulator | Unavailable

  /** atomicDb: the database offers the one-transaction operations. */
  datatype Config = Config(
    isProd: bool, bridgeEnabled: bool, requireL1Event: bool, requireL1Proof: bool, mode: Mode,
    burnRate: real, burnAddress: string, atomicDb: bool, env: string -> bool, hash: string -> string)

  /** What the external bridge program answers. */
  datatype Verifier = Verifier(ok: bool, txHash: string)

  // ---------------------------------------------------------------- fees and chains

  function NormalizeChain(chain: string): string {
    var key := Lower(Strip(chain));
    if key == "eth" || key == "ether" then "ethereum"
    else if key == "bnb" || key == "binance" then "bsc"
    else if key == "sol" then "solana"
    else if key == "abs" then "absolute"
    else key
  }

  function FeeRate(chain: string): (r: real)
    ensures 0.0 < r < 1.0
  {
    if chain == "bsc" then 0.002
    else if chain == "solana" then 0.001
    else if chain == "absolute" then 0.005
    else 0.01
  }

  predicate Supported(c: Config, chain: string) {
    if c.isProd then chain == "ethereum" || chain == "bsc" || chain == "polygon" || chain == "absolute"
    else chain == "ethereum" || chain == "bsc" || chain == "solana" || chain == "absolute"
  }

  function NetOf(chain: string, amount: real): real {
    amount - amount * FeeRate(chain)
  }

  function BurnOf(c: Config, chain: string, amount: real): real {
    amount * FeeRate(chain) * c.burnRate
  }

  // ---------------------------------------------------------------- tables

  function SetLockStatus(d: Ledger, txHash: string, status: LockStatus): Ledger {
    if txHash in d.locks then d.(locks := d.locks[txHash := d.locks[txHash].(status := status)]) else d
  }

  /** Nothing when the debit underflows: the transaction raises. */
  function Debited(c: Config, d: Ledger, fromAddr: string, amount: real, burn: real): Option<map<string, nat>> {
    if c.atomicDb then
      var debit := ToSatoshi(amount);
      if debit < 0 || BalanceOf(d.accounts, fromAddr) < debit then None
      else
        var paid := d.accounts[fromAddr := BalanceOf(d.accounts, fromAddr) - debit];
        Some(if burn != 0.0 && c.burnAddress != "" then Bump(paid, c.burnAddress, burn) else paid)
    else Some(Bump(Bump(d.accounts, fromAddr, -amount), c.burnAddress, burn))
  }

  function CreditKey(c: Config, fromChain: string, eventTx: string, logIndex: int): string {
    c.hash(Lower(Strip(fromChain) + ":" + Strip(eventTx) + ":" + Decimal(logIndex)))
  }

  /** The credit of an event whose key is new. */
  function Claimed(c: Config, d: Ledger, key: string, eventTx: string, txHash: string, recipient: string,
                   amount: real, fromChain: string): Ledger
  {
    var paid := d.(accounts := Bump(d.accounts, recipient, amount),
                   credits := d.credits[key := Credit(eventTx, recipient, amount, fromChain)]);
    var lockHash := if c.atomicDb then Strip(if txHash != "" then txHash else eventTx) else txHash;
    if c.atomicDb && lockHash == "" then paid else SetLockStatus(paid, lockHash, Confirmed)
  }

  // ---------------------------------------------------------------- locking

  datatype LockRequest = LockRequest(fromAddr: string, toChain: string, toAddr: string, amount: real, l1TxHash: string)

  datatype Refusal =
    | UnsupportedChain | TooSmall | InsufficientBalance | NeedsL1Event | VerificationFailed
    | NeedsL1Hash | VerifierFailed | BridgeUnavailable | DebitRaised

  datatype LockResult = Refused(why: Refusal) | Locked(txHash: string)

  /** The hash the lock will go under, from the caller, the verifier or the simulator. */
  function LockHash(c: Config, r: LockRequest, v: Verifier, issued: string): LockResult {
    match c.mode
    case Rust =>
      if r.l1TxHash != "" then (if v.ok then Locked(r.l1TxHash) else Refused(VerificationFailed))
      else if c.isProd then Refused(NeedsL1Hash)
      else if v.txHash == "" then Refused(VerifierFailed)
      else Locked(v.txHash)
    case Simulator => if c.isProd then Refused(BridgeUnavailable) else Locked(issued)
    case Unavailable => Refused(BridgeUnavailable)
  }

  function LockVerdict(c: Config, d: Ledger, r: LockRequest, v: Verifier, issued: string): LockResult {
    var chain := NormalizeChain(r.toChain);
    if !Supported(c, chain) then Refused(UnsupportedChain)
    else if NetOf(chain, r.amount) <= 0.0 then Refused(TooSmall)
    else if FromSatoshi(BalanceOf(d.accounts, r.fromAddr)) < r.amount then Refused(InsufficientBalance)
    else if c.isProd && c.bridgeEnabled && !c.requireL1Event then Refused(NeedsL1Event)
    else
      var h := LockHash(c, r, v, issued);
      if h.Refused? then h
      else if Debited(c, d, r.fromAddr, r.amount, BurnOf(c, chain, r.amount)).None? then Refused(DebitRaised)
      else h
  }

  function AfterLock(c: Config, d: Ledger, r: LockRequest, v: Verifier, issued: string): Ledger {
    var verdict := LockVerdict(c, d, r, v, issued);
    if verdict.Refused? then d
    else
      var chain := NormalizeChain(r.toChain);
      var accounts := Debited(c, d, r.fromAddr, r.amount, BurnOf(c, chain, r.amount)).value;
      Ledger(accounts,
             d.locks[verdict.txHash := Lock(r.fromAddr, chain, r.toAddr, NetOf(chain, r.amount), Pending)],
             d.credits)
  }

  // ---------------------------------------------------------------- incoming

  datatype IncomingRequest = IncomingRequest(
    txHash: string, recipient: string, amount: real, fromChain: string, l1TxHash: string, logIndex: int)

  datatype IncomingResult = Unconfirmed | Duplicate(key: string) | Credited(key: string)

  function EventTx(r: IncomingRequest): string {
    Strip(if r.l1TxHash != "" then r.l1TxHash else r.txHash)
  }

  /** The environment variable that holds the chain's RPC address. */
  function RpcVariable(fromChain: string): string {
    var chain := Lower(fromChain);
    if chain == "ethereum" || chain == "eth" then "ETH_RPC_URL"
    else if chain == "bsc" then "BSC_RPC_URL"
    else ""
  }

  predicate Verified(c: Config, r: IncomingRequest, v: Verifier) {
    match c.mode
    case Rust =>
      var rpc := RpcVariable(r.fromChain);
      && (r.l1TxHash != "" || !(c.isProd || (rpc != "" && c.env(rpc))))
      && v.ok
    case Simulator => true
    case Unavailable => false
  }

  function IncomingVerdict(c: Config, d: Ledger, r: IncomingRequest, v: Verifier): IncomingResult {
    if EventTx(r) == "" || r.recipient == "" || r.amount <= 0.0 then Unconfirmed
    else
      var key := CreditKey(c, r.fromChain, EventTx(r), r.logIndex);
      if key in d.credits then Duplicate(key)
      else if !Verified(c, r, v) then Unconfirmed
      else Credited(key)
  }

  function AfterIncoming(c: Config, d: Ledger, r: IncomingRequest, v: Verifier): Ledger {
    var verdict := IncomingVerdict(c, d, r, v);
    if verdict.Credited? then
      Claimed(c, d, verdict.key, EventTx(r), r.txHash, r.recipient, r.amount, r.fromChain)
    else d
  }

  function IncomingQueueAfter(c: Config, d: Ledger, q: seq<Incoming>, r: IncomingRequest): seq<Incoming> {
    if EventTx(r) == "" || r.recipient == "" || r.amount <= 0.0
       || CreditKey(c, r.fromChain, EventTx(r), r.logIndex) in d.credits || r.l1TxHash == "" then q
    else EnqueueIncoming(q, r.l1TxHash, r.recipient, r.amount, NormalizeChain(r.fromChain), r.txHash)
  }

  // ---------------------------------------------------------------- confirming and refunding

  /** A pending lock among those listed is confirmed once the verifier agrees; in rust mode
      it is shown the proof given or the one queued. */
  predicate ConfirmsLock(c: Config, d: Ledger, q: seq<Outbound>, listed: set<string>, txHash: string, l1TxHash: string,
                         accepts: string -> bool)
  {
    && txHash in listed && txHash in d.locks && d.locks[txHash].status == Pending
    && (match c.mode
        case Rust =>
          var proof := if l1TxHash != "" then l1TxHash else Lookup(q, txHash);
          (proof != "" || !(c.isProd && c.requireL1Proof)) && accepts(proof)
        case Simulator => true
        case Unavailable => false)
  }

  function AfterConfirm(c: Config, d: Ledger, q: seq<Outbound>, listed: set<string>, txHash: string, l1TxHash: string,
                        accepts: string -> bool): Ledger
  {
    if ConfirmsLock(c, d, q, listed, txHash, l1TxHash, accepts) then SetLockStatus(d, txHash, Confirmed) else d
  }

  predicate Refunds(c: Config, d: Ledger, txHash: string) {
    c.atomicDb && txHash in d.locks && d.locks[txHash].status == Pending
  }

  function AfterRefund(c: Config, d: Ledger, txHash: string): Ledger {
    if !Refunds(c, d, txHash) then d
    else
      var lock := d.locks[txHash];
      SetLockStatus(d.(accounts := Bump(d.accounts, lock.fromAddr, lock.amount)), txHash, Refunded)
  }

  // ---------------------------------------------------------------- the objects

  class Database {
    var accounts: map<string, nat>
    var locks: map<string, Lock>
    var credits: map<string, Credit>

    constructor (accounts: map<string, nat>)
      ensures Value() == Ledger(accounts, map[], map[])
    {
      this.accounts, locks, credits := accounts, map[], map[];
    }

    function Value(): Ledger
      reads this
    {
      Ledger(accounts, locks, credits)
    }

    method UpdateBalance(address: string, delta: real)
      modifies this`accounts
      ensures accounts == Bump(old(accounts), address, delta)
    {
      var next := BalanceOf(accounts, address) + ToSatoshi(delta);
      if next < 0 {
        next := 0;
      }
      accounts := accounts[address := next];
    }

    method SaveLock(txHash: string, lock: Lock)
      modifies this`locks
      ensures locks == old(locks)[txHash := lock]
    {
      locks := locks[txHash := lock];
    }

    method MarkLock(txHash: string, status: LockStatus)
      modifies this`locks
      ensures Value() == SetLockStatus(old(Value()), txHash, status)
    {
      if txHash in locks {
        locks := locks[txHash := locks[txHash].(status := status)];
      }
    }

    /** False when the debit underflows; nothing is changed then. */
    method DebitAndCreateLock(c: Config, fromAddr: string, amount: real, burn: real, txHash: string, lock: Lock)
      returns (ok: bool)
      requires c.atomicDb
      modifies this`accounts, this`locks
      ensures ok == Debited(c, old(Value()), fromAddr, amount, burn).Some?
      ensures Value() == if ok then
          Ledger(Debited(c, old(Value()), fromAddr, amount, burn).value, old(locks)[txHash := lock], old(credits))
        else old(Value())
    {
      var current, debit := BalanceOf(accounts, fromAddr), ToSatoshi(amount);
      if debit < 0 || current < debit {
        return false;
      }
      accounts := accounts[fromAddr := current - debit];
      if burn != 0.0 && c.burnAddress != "" {
        UpdateBalance(c.burnAddress, burn);
      }
      SaveLock(txHash, lock);
      return true;
    }

    method ClaimAndCredit(c: Config, key: string, r: IncomingRequest) returns (duplicate: bool)
      requires c.atomicDb
      modifies this
      ensures duplicate == (key in old(credits))
      ensures Value() == if duplicate then old(Value())
        else Claimed(c, old(Value()), key, EventTx(r), r.txHash, r.recipient, r.amount, r.fromChain)
    {
      if key in credits {
        return true;
      }
      credits := credits[key := Credit(EventTx(r), r.recipient, r.amount, r.fromChain)];
      UpdateBalance(r.recipient, r.amount);
      var lockHash := Strip(if r.txHash != "" then r.txHash else EventTx(r));
      if lockHash != "" {
        MarkLock(lockHash, Confirmed);
      }
      return false;
    }

    method RefundPending(c: Config, txHash: string) returns (refunded: bool)
      requires c.atomicDb
      modifies this`accounts, this`locks
      ensures refunded == Refunds(c, old(Value()), txHash)
      ensures Value() == AfterRefund(c, old(Value()), txHash)
    {
      if txHash !in locks {
        return false;
      }
      var lock := locks[txHash];
      if lock.status != Pending {
        return false;
      }
      UpdateBalance(lock.fromAddr, lock.amount);
      MarkLock(txHash, Refunded);
      return true;
    }
  }

  class RustBridge {
    const config: Config
    const db: Database
    const queue: QueueFile

    constructor (config: Config, db: Database, queue: QueueFile)
      ensures this.config == config && this.db == db && this.queue == queue
    {
      this.config, this.db, this.queue := config, db, queue;
    }

    method LockAndBridge(r: LockRequest, v: Verifier, issued: string) returns (result: LockResult)
      modifies db`accounts, db`locks, queue`outbound
      ensures result == LockVerdict(config, old(db.Value()), r, v, issued)
      ensures db.Value() == AfterLock(config, old(db.Value()), r, v, issued)
      ensures queue.outbound == if result.Locked? && r.l1TxHash != "" then
          Enqueue(old(queue.outbound), Outbound(result.txHash, r.l1TxHash, NormalizeChain(NormalizeChain(r.toChain))))
        else old(queue.outbound)
    {
      hide Debited, Bump, Enqueue, FeeRate, Lower, NormalizeChain;
      var chain := NormalizeChain(r.toChain);
      if !Supported(config, chain) {
        return Refused(UnsupportedChain);
      }
      var fee := r.amount * FeeRate(chain);
      var net := r.amount - fee;
      if net <= 0.0 {
        return Refused(TooSmall);
      }
      if FromSatoshi(BalanceOf(db.accounts, r.fromAddr)) < r.amount {
        return Refused(InsufficientBalance);
      }
      if config.isProd && config.bridgeEnabled && !config.requireL1Event {
        return Refused(NeedsL1Event);
      }
      var hash := LockHash(config, r, v, issued);
      if hash.Refused? {
        return hash;
      }
      var burn := fee * config.burnRate;
      assert net == NetOf(chain, r.amount) && burn == BurnOf(config, chain, r.amount);
      var ok := Debit(r.fromAddr, r.amount, burn, hash.txHash, Lock(r.fromAddr, chain, r.toAddr, net, Pending));
      if !ok {
        return Refused(DebitRaised);
      }
      if r.l1TxHash != "" {
        queue.EnqueueOutbound(Outbound(hash.txHash, r.l1TxHash, NormalizeChain(chain)));
      }
      return hash;
    }

    method Debit(fromAddr: string, amount: real, burn: real, txHash: string, lock: Lock) returns (ok: bool)
      modifies db`accounts, db`locks
      ensures ok == Debited(config, old(db.Value()), fromAddr, amount, burn).Some?
      ensures db.Value() == if ok then
          Ledger(Debited(config, old(db.Value()), fromAddr, amount, burn).value,
                 old(db.locks)[txHash := lock], old(db.credits))
        else old(db.Value())
    {
      if config.atomicDb {
        ok := db.DebitAndCreateLock(config, fromAddr, amount, burn, txHash, lock);
      } else {
        db.UpdateBalance(fromAddr, -amount);
        db.UpdateBalance(config.burnAddress, burn);
        db.SaveLock(txHash, lock);
        ok := true;
      }
    }

    method ConfirmIncoming(r: IncomingRequest, v: Verifier) returns (result: IncomingResult)
      modifies db, queue`incoming
      ensures result == IncomingVerdict(config, old(db.Value()), r, v)
      ensures db.Value() == AfterIncoming(config, old(db.Value()), r, v)
      ensures queue.incoming == IncomingQueueAfter(config, old(db.Value()), old(queue.incoming), r)
    {
      var eventTx := Strip(if r.l1TxHash != "" then r.l1TxHash else r.txHash);
      if eventTx == "" || r.recipient == "" || r.amount <= 0.0 {
        return Unconfirmed;
      }
      var key := CreditKey(config, r.fromChain, eventTx, r.logIndex);
      if key in db.credits {
        return Duplicate(key);
      }
      if r.l1TxHash != "" {
        queue.AddIncoming(r.l1TxHash, r.recipient, r.amount, NormalizeChain(r.fromChain), r.txHash);
      }
      if !Verified(config, r, v) {
        return Unconfirmed;
      }
      if config.atomicDb {
        var duplicate := db.ClaimAndCredit(config, key, r);
        if duplicate {
          return Duplicate(key);
        }
      } else {
        db.UpdateBalance(r.recipient, r.amount);
        db.credits := db.credits[key := Credit(eventTx, r.recipient, r.amount, r.fromChain)];
        db.MarkLock(r.txHash, Confirmed);
      }
      return Credited(key);
    }

    method ConfirmLock(listed: set<string>, txHash: string, l1TxHash: string, accepts: string -> bool)
      returns (confirmed: bool)
      modifies db`locks
      ensures confirmed == ConfirmsLock(config, old(db.Value()), queue.outbound, listed, txHash, l1TxHash, accepts)
      ensures db.Value() == AfterConfirm(config, old(db.Value()), queue.outbound, listed, txHash, l1TxHash, accepts)
    {
      if txHash !in listed || txHash !in db.locks || db.locks[txHash].status != Pending {
        return false;
      }
      if config.mode == Rust {
        var proof := l1TxHash;
        if proof == "" {
          proof := queue.LookupOutbound(txHash);
        }
        if proof == "" && config.isProd && config.requireL1Proof {
          return false;
        }
        if !accepts(proof) {
          return false;
        }
      } else if config.mode != Simulator {
        return false;
      }
      db.MarkLock(txHash, Confirmed);
      return true;
    }

    method Refund(txHash: string) returns (refunded: bool)
      modifies db`accounts, db`locks
      ensures refunded == Refunds(config, old(db.Value()), txHash)
      ensures db.Value() == AfterRefund(config, old(db.Value()), txHash)
    {
      if config.atomicDb {
        refunded := db.RefundPending(config, txHash);
      } else {
        refunded := false;
      }
    }
  }
}
