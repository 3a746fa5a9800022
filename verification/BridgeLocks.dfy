/** Who pays, who is paid, and why a lock is confirmed: what each call of the bridge does to
    every account and to every lock, and over whole runs exactly which locks are confirmed. */
module BridgeLocks {
  import opened Wrappers
  import opened Text
  import opened Money
  import opened L1Queue
  import opened Bridge
  import opened BridgeRuns

  // ---------------------------------------------------------------- locking

  /** The names of a chain, up to case and outer space; any other name stands for itself. */
  lemma ChainNames(chain: string)
    ensures var key := Lower(Strip(chain));
      && (NormalizeChain(chain) == "ethereum" <==> key in ["ethereum", "eth", "ether"])
      && (NormalizeChain(chain) == "bsc" <==> key in ["bsc", "bnb", "binance"])
      && (NormalizeChain(chain) == "solana" <==> key in ["solana", "sol"])
      && (NormalizeChain(chain) == "absolute" <==> key in ["absolute", "abs"])
      && (key !in ["eth", "ether", "bnb", "binance", "sol", "abs"] ==> NormalizeChain(chain) == key)
  {
    hide Lower, Strip;
  }

  /** What is left of an amount after the fee of its chain: one hundredth, or less where it says so. */
  lemma FeeOfChain(chain: string, amount: real)
    ensures NetOf("bsc", amount) == amount * 0.998
    ensures NetOf("solana", amount) == amount * 0.999
    ensures NetOf("absolute", amount) == amount * 0.995
    ensures chain !in ["bsc", "solana", "absolute"] ==> NetOf(chain, amount) == amount * 0.99
  {
  }

  predicate ServesChain(c: Config, chain: string) {
    || chain == "ethereum" || chain == "bsc" || chain == "absolute"
    || (if c.isProd then chain == "polygon" else chain == "solana")
  }

  /** Where the hash of a lock comes from, if one is issued. */
  predicate Issues(c: Config, r: LockRequest, v: Verifier, issued: string, hash: string) {
    match c.mode
    case Rust =>
      if r.l1TxHash != "" then v.ok && hash == r.l1TxHash else !c.isProd && v.txHash != "" && hash == v.txHash
    case Simulator => !c.isProd && hash == issued
    case Unavailable => false
  }

  /** A lock is recorded exactly when the chain is served, something is left after the fee, the balance
      covers the amount, production asks for an event, and a hash is issued; it never raises. */
  lemma LocksExactly(c: Config, d: Ledger, r: LockRequest, v: Verifier, issued: string, hash: string)
    requires ValidRate(c)
    ensures var chain := NormalizeChain(r.toChain);
      LockVerdict(c, d, r, v, issued) == Locked(hash) <==>
        && ServesChain(c, chain) && r.amount > r.amount * FeeRate(chain)
        && BalanceOf(d.accounts, r.fromAddr) as real / 1000000.0 >= r.amount
        && (c.isProd && c.bridgeEnabled ==> c.requireL1Event) && Issues(c, r, v, issued, hash)
  {
    hide NormalizeChain, Debited, ToSatoshi, BurnOf;
    var chain := NormalizeChain(r.toChain);
    assert NetOf(chain, r.amount) <= 0.0 <==> r.amount <= r.amount * FeeRate(chain);
    assert Supported(c, chain) <==> ServesChain(c, chain);
    var h := LockHash(c, r, v, issued);
    assert h == Locked(hash) <==> Issues(c, r, v, issued, hash);
    assert h.Refused? ==> h != Locked(hash);
    if NetOf(chain, r.amount) > 0.0 && FromSatoshi(BalanceOf(d.accounts, r.fromAddr)) >= r.amount {
      DebitedSum(c, d, r);
    }
  }

  /** A recorded lock takes the amount from the sender, puts the burn share at the burn address if
      there is one, touches no other balance, and is pending for the rest of the amount. A refused
      one changes nothing. */
  lemma LockMoves(c: Config, d: Ledger, r: LockRequest, v: Verifier, issued: string, a: string)
    requires ValidRate(c)
    ensures var chain, verdict := NormalizeChain(r.toChain), LockVerdict(c, d, r, v, issued);
      var o := AfterLock(c, d, r, v, issued);
      && o.credits == d.credits
      && (verdict.Refused? ==> o == d)
      && (verdict.Locked? ==>
            && o.locks == d.locks[verdict.txHash := Lock(r.fromAddr, chain, r.toAddr,
                                                         r.amount - r.amount * FeeRate(chain), Pending)]
            && BalanceOf(o.accounts, a) == BalanceOf(d.accounts, a)
               - (if a == r.fromAddr then ToSatoshi(r.amount) else 0)
               + (if a == c.burnAddress && (c.atomicDb ==> a != "") then ToSatoshi(BurnOf(c, chain, r.amount)) else 0))
  {
    hide NormalizeChain, ToSatoshi, Supported, BurnOf;
    var chain := NormalizeChain(r.toChain);
    assert NetOf(chain, r.amount) == r.amount - r.amount * FeeRate(chain);
    if LockVerdict(c, d, r, v, issued).Locked? {
      assert NetOf(chain, r.amount) > 0.0;
      assert AfterLock(c, d, r, v, issued).locks[LockVerdict(c, d, r, v, issued).txHash].status == Pending;
      DebitMoves(c, d, r, a);
    }
  }

  lemma DebitMoves(c: Config, d: Ledger, r: LockRequest, a: string)
    requires ValidRate(c) && NetOf(NormalizeChain(r.toChain), r.amount) > 0.0
    requires FromSatoshi(BalanceOf(d.accounts, r.fromAddr)) >= r.amount
    ensures var chain := NormalizeChain(r.toChain);
      var after := Debited(c, d, r.fromAddr, r.amount, BurnOf(c, chain, r.amount));
      && after.Some?
      && BalanceOf(after.value, a) == BalanceOf(d.accounts, a)
         - (if a == r.fromAddr then ToSatoshi(r.amount) else 0)
         + (if a == c.burnAddress && (c.atomicDb ==> a != "") then ToSatoshi(BurnOf(c, chain, r.amount)) else 0)
  {
    var chain := NormalizeChain(r.toChain);
    NetPositiveAmount(chain, r.amount);
    BurnPositive(c, chain, r.amount);
    CoveredInSatoshi(BalanceOf(d.accounts, r.fromAddr), r.amount);
    ToSatoshiMirrors(r.amount);
    ToSatoshiMirrors(BurnOf(c, chain, r.amount));
    assert ToSatoshi(0.0) == 0;
    hide ToSatoshi, NormalizeChain, FromSatoshi, BurnOf, NetOf;
  }

  // ---------------------------------------------------------------- incoming

  /** The transaction an arrival stands for: the one on the other chain, or its own hash. */
  function Source(r: IncomingRequest): string {
    if r.l1TxHash == "" then Strip(r.txHash) else Strip(r.l1TxHash)
  }

  /** An arrival is credited exactly when it names an event and a recipient for a positive amount, its
      key is free, and the verifier agrees, which in rust mode must be shown an L1 transaction in
      production and wherever the chain can be reached. */
  lemma ArrivesExactly(c: Config, d: Ledger, r: IncomingRequest, v: Verifier)
    ensures var key := CreditKey(c, r.fromChain, Source(r), r.logIndex);
      IncomingVerdict(c, d, r, v) == Credited(key) <==>
        && Source(r) != "" && r.recipient != "" && r.amount > 0.0 && key !in d.credits
        && (c.mode.Rust? ==>
              && v.ok
              && (r.l1TxHash == "" ==>
                    !c.isProd && (RpcVariable(r.fromChain) != "" ==> !c.env(RpcVariable(r.fromChain)))))
        && !c.mode.Unavailable?
    ensures IncomingVerdict(c, d, r, v).Credited? ==>
      IncomingVerdict(c, d, r, v).key == CreditKey(c, r.fromChain, Source(r), r.logIndex)
  {
    hide CreditKey, RpcVariable, Strip;
  }

  /** The variable that must be set for a chain to be reached. */
  lemma RpcOfChain(chain: string)
    ensures RpcVariable(chain) == "ETH_RPC_URL" <==> Lower(chain) in ["ethereum", "eth"]
    ensures RpcVariable(chain) == "BSC_RPC_URL" <==> Lower(chain) == "bsc"
    ensures Lower(chain) !in ["ethereum", "eth", "bsc"] ==> RpcVariable(chain) == ""
  {
    hide Lower;
    assert |"ETH_RPC_URL"| == 11 && "ETH_RPC_URL"[0] != "BSC_RPC_URL"[0];
  }

  /** An arrival under a free key, credited or not, queues the L1 transaction it names, if it names an event, a
      recipient and a positive amount; any other arrival leaves the queue. */
  lemma ArrivalQueues(c: Config, d: Ledger, q: seq<Incoming>, r: IncomingRequest)
    requires DistinctIncoming(q)
    ensures var after := IncomingQueueAfter(c, d, q, r);
      var asks := Source(r) != "" && r.recipient != "" && r.amount > 0.0 && r.l1TxHash != ""
                  && CreditKey(c, r.fromChain, Source(r), r.logIndex) !in d.credits;
      && (!asks ==> after == q)
      && (asks ==>
            && after == EnqueueIncoming(q, r.l1TxHash, r.recipient, r.amount, NormalizeChain(r.fromChain), r.txHash)
            && after != []
            && after[|after| - 1]
               == Incoming(r.l1TxHash, if r.txHash == "" then r.l1TxHash else r.txHash, r.recipient, r.amount,
                           NormalizeChain(r.fromChain)))
  {
    hide CreditKey, Strip, NormalizeChain, EnqueueIncoming, DistinctIncoming;
    IncomingFrom(q, IncomingCall(r.l1TxHash, r.recipient, r.amount, NormalizeChain(r.fromChain), r.txHash));
  }

  /** The lock that an arrival stands for. */
  function NamedLock(c: Config, r: IncomingRequest): string {
    if c.atomicDb then Strip(if r.txHash != "" then r.txHash else Source(r)) else r.txHash
  }

  predicate Names(c: Config, r: IncomingRequest, hash: string) {
    NamedLock(c, r) == hash && (c.atomicDb ==> hash != "")
  }

  /** A credited arrival puts its satoshi in the recipient's account, touches no other balance, keeps the
      event under its key, and confirms the lock it names, if there is one, and no other. */
  lemma ArrivalMoves(c: Config, d: Ledger, r: IncomingRequest, v: Verifier, a: string, h: string)
    ensures var verdict, o := IncomingVerdict(c, d, r, v), AfterIncoming(c, d, r, v);
      && (!verdict.Credited? ==> o == d)
      && (verdict.Credited? ==>
            && BalanceOf(o.accounts, a)
               == BalanceOf(d.accounts, a) + (if a == r.recipient then ToSatoshi(r.amount) else 0)
            && o.credits == d.credits[verdict.key := Credit(Source(r), r.recipient, r.amount, r.fromChain)]
            && o.locks.Keys == d.locks.Keys
            && (h in d.locks ==>
                  o.locks[h] == if Names(c, r, h) then d.locks[h].(status := Confirmed) else d.locks[h]))
  {
    ToSatoshiMirrors(r.amount);
    hide ToSatoshi, Strip, CreditKey, Verified;
  }

  // ---------------------------------------------------------------- confirming and refunding

  /** The verifier is shown the proof given, or the queued one, and accepts it; in production an
      empty proof can be forbidden. The simulator accepts everything. */
  predicate Agrees(c: Config, q: seq<Outbound>, hash: string, l1TxHash: string, accepts: string -> bool) {
    match c.mode
    case Rust =>
      var proof := if l1TxHash != "" then l1TxHash else Lookup(q, hash);
      accepts(proof) && (proof == "" ==> !(c.isProd && c.requireL1Proof))
    case Simulator => true
    case Unavailable => false
  }

  /** A call to confirm moves no money; it changes the lock it names from pending to confirmed if that
      is listed and the verifier agrees, and nothing else. */
  lemma ConfirmMoves(c: Config, d: Ledger, q: seq<Outbound>, listed: set<string>, txHash: string, l1TxHash: string,
                     accepts: string -> bool, h: string)
    ensures var o := AfterConfirm(c, d, q, listed, txHash, l1TxHash, accepts);
      && o.accounts == d.accounts && o.credits == d.credits && o.locks.Keys == d.locks.Keys
      && (h in d.locks ==>
            o.locks[h] == if h == txHash && h in listed && d.locks[h].status == Pending
                             && Agrees(c, q, h, l1TxHash, accepts)
              then d.locks[h].(status := Confirmed) else d.locks[h])
  {
    hide Lookup;
  }

  /** A refund pays a pending lock back to its sender, marks it, and does nothing else; without the
      one-transaction operations there are no refunds. */
  lemma RefundMoves(c: Config, d: Ledger, txHash: string, a: string, h: string)
    requires LocksPositive(d)
    ensures var o := AfterRefund(c, d, txHash);
      var pays := c.atomicDb && txHash in d.locks && d.locks[txHash].status == Pending;
      && o.credits == d.credits && o.locks.Keys == d.locks.Keys
      && (!pays ==> o == d)
      && (pays ==>
            BalanceOf(o.accounts, a) == BalanceOf(d.accounts, a)
            + if a == d.locks[txHash].fromAddr then ToSatoshi(d.locks[txHash].amount) else 0)
      && (h in d.locks ==>
            o.locks[h] == if pays && h == txHash then d.locks[h].(status := Refunded) else d.locks[h])
  {
    if txHash in d.locks {
      ToSatoshiMirrors(d.locks[txHash].amount);
    }
    hide ToSatoshi;
  }

  // ---------------------------------------------------------------- why a lock is confirmed

  /** Event e, on the ledger before it, confirms the lock. */
  predicate Reason(c: Config, d: Ledger, e: Event, h: string) {
    match e
    case Locking(_, _, _) => false
    case Arriving(r, v) => IncomingVerdict(c, d, r, v).Credited? && Names(c, r, h) && h in d.locks
    case Confirming(q, listed, txHash, l1, accepts) =>
      txHash == h && h in listed && h in d.locks && d.locks[h].status == Pending && Agrees(c, q, h, l1, accepts)
    case Refunding(_) => false
  }

  /** Event e records a new lock under the hash. */
  predicate Relocks(c: Config, d: Ledger, e: Event, h: string) {
    e.Locking? && LockVerdict(c, d, e.lock, e.lockVerifier, e.issued) == Locked(h)
  }

  predicate IsConfirmed(d: Ledger, h: string) {
    h in d.locks && d.locks[h].status == Confirmed
  }

  lemma EventConfirms(c: Config, d: Ledger, e: Event, h: string)
    ensures IsConfirmed(Apply(c, d, e), h) <==>
      Reason(c, d, e, h) || (IsConfirmed(d, h) && !Relocks(c, d, e, h))
  {
    hide IncomingVerdict, LockVerdict, Agrees, Names, Debited, NormalizeChain, NetOf, BurnOf;
    match e
    case Locking(r, v, issued) =>
    case Arriving(r, v) =>
      ArrivalMoves(c, d, r, v, "", h);
      hide AfterIncoming;
    case Confirming(q, listed, txHash, l1, accepts) =>
      ConfirmMoves(c, d, q, listed, txHash, l1, accepts, h);
      hide AfterConfirm;
    case Refunding(txHash) =>
  }

  /** Event k confirms the lock, and no later event records a new one under its hash. */
  predicate ConfirmedAt(c: Config, d: Ledger, events: seq<Event>, k: nat, h: string) {
    && k < |events| && Reason(c, Run(c, d, events[..k]), events[k], h)
    && forall i :: k < i < |events| ==> !Relocks(c, Run(c, d, events[..i]), events[i], h)
  }

  lemma ConfirmedAtLast(c: Config, d: Ledger, events: seq<Event>, k: nat, h: string)
    requires events != []
    ensures var n, front := |events| - 1, events[..|events| - 1];
      ConfirmedAt(c, d, events, k, h) <==>
        (k == n && Reason(c, Run(c, d, front), events[n], h))
        || (ConfirmedAt(c, d, front, k, h) && !Relocks(c, Run(c, d, front), events[n], h))
  {
    hide Reason, Relocks, Run;
    var n, front := |events| - 1, events[..|events| - 1];
    forall i | 0 <= i <= n ensures front[..i] == events[..i] {
    }
    if ConfirmedAt(c, d, events, k, h) && k < n {
      assert !Relocks(c, Run(c, d, events[..n]), events[n], h);
      forall i | k < i < n ensures !Relocks(c, Run(c, d, front[..i]), front[i], h) {
        assert !Relocks(c, Run(c, d, events[..i]), events[i], h);
      }
    }
    if ConfirmedAt(c, d, front, k, h) && !Relocks(c, Run(c, d, front), events[n], h) {
      forall i | k < i < |events| ensures !Relocks(c, Run(c, d, events[..i]), events[i], h) {
        if i < n {
          assert !Relocks(c, Run(c, d, front[..i]), front[i], h);
        }
      }
    }
  }

  /** Over any run: a lock that was not confirmed at the start is confirmed if and only if some event
      confirmed it, an arrival paid under its hash or a confirmation to which the verifier agreed,
      and no lock was recorded under its hash since. */
  lemma {:induction false} ConfirmedExactly(c: Config, d: Ledger, events: seq<Event>, h: string)
    requires !IsConfirmed(d, h)
    ensures IsConfirmed(Run(c, d, events), h) <==> exists k :: ConfirmedAt(c, d, events, k, h)
    decreases |events|
  {
    if events != [] {
      var n, front := |events| - 1, events[..|events| - 1];
      ConfirmedExactly(c, d, front, h);
      EventConfirms(c, Run(c, d, front), events[n], h);
      hide Reason, Relocks, IsConfirmed, Apply;
      forall k: nat ensures ConfirmedAt(c, d, events, k, h) <==>
        (k == n && Reason(c, Run(c, d, front), events[n], h))
        || (ConfirmedAt(c, d, front, k, h) && !Relocks(c, Run(c, d, front), events[n], h))
      {
        ConfirmedAtLast(c, d, events, k, h);
      }
      hide ConfirmedAt;
      if Reason(c, Run(c, d, front), events[n], h) {
        assert ConfirmedAt(c, d, events, n, h);
      }
    }
  }

  // ---------------------------------------------------------------- the proof that was shown

  /** The proofs that the locks of a run enqueued. */
  function Log(c: Config, d: Ledger, events: seq<Event>): seq<Outbound>
    decreases |events|
  {
    if events == [] then []
    else
      var front, e := events[..|events| - 1], events[|events| - 1];
      if !e.Locking? || e.lock.l1TxHash == "" then Log(c, d, front)
      else
        var verdict := LockVerdict(c, Run(c, d, front), e.lock, e.lockVerifier, e.issued);
        Log(c, d, front)
        + if verdict.Refused? then []
          else [Outbound(verdict.txHash, e.lock.l1TxHash, NormalizeChain(NormalizeChain(e.lock.toChain)))]
  }

  /** Confirmations look at the queue that the locks before them filled. */
  ghost predicate OwnQueue(c: Config, d: Ledger, events: seq<Event>) {
    forall k :: 0 <= k < |events| && events[k].Confirming? ==> events[k].queue == Queue(Log(c, d, events[..k]))
  }

  /** The proof given, or the one enqueued last for the hash unless 500 other hashes came since, or none. */
  function Shown(log: seq<Outbound>, h: string, l1TxHash: string): string {
    if l1TxHash != "" then l1TxHash
    else if HasHash(log, h) && |Since(log, h)| < 500 then Latest(log, h)
    else ""
  }

  /** Event k is an arrival paid under the hash, or a confirmation of the pending lock whose proof the
      verifier accepted. */
  predicate Settles(c: Config, d: Ledger, events: seq<Event>, k: nat, h: string) {
    && k < |events|
    && var t, e := Run(c, d, events[..k]), events[k];
      && h in t.locks
      && ((e.Arriving? && IncomingVerdict(c, t, e.incoming, e.verifier).Credited? && Names(c, e.incoming, h))
          || (e.Confirming? && e.txHash == h && h in e.listed && t.locks[h].status == Pending
              && e.accepts(Shown(Log(c, d, events[..k]), h, e.l1TxHash))))
  }

  lemma RustReason(c: Config, d: Ledger, events: seq<Event>, k: nat, h: string)
    requires c.mode.Rust? && OwnQueue(c, d, events) && k < |events|
    ensures Reason(c, Run(c, d, events[..k]), events[k], h) ==> Settles(c, d, events, k, h)
  {
    LookupIsRecent(Log(c, d, events[..k]), h);
    hide IncomingVerdict, Names, Run, Log, Queue, Lookup, HasHash, Since, Latest, DistinctHashes;
  }

  /** In rust mode, over any run whose confirmations use its own queue: a lock pending at one time and
      confirmed later was settled in between, by an arrival or by a proof that the verifier accepted. */
  lemma {:induction false} ConfirmedWasAccepted(c: Config, d: Ledger, events: seq<Event>, k: nat, h: string)
    requires c.mode.Rust? && OwnQueue(c, d, events) && k <= |events|
    requires !IsConfirmed(Run(c, d, events[..k]), h) && IsConfirmed(Run(c, d, events), h)
    ensures exists j :: k <= j < |events| && Settles(c, d, events, j, h)
    decreases |events|
  {
    hide IsConfirmed, Apply, Reason, Relocks, Settles, Log;
    WholePrefix(events, k);
    if k < |events| {
      var n, front := |events| - 1, events[..|events| - 1];
      assert front[..k] == events[..k];
      EventConfirms(c, Run(c, d, front), events[n], h);
      if IsConfirmed(Run(c, d, front), h) {
        assert OwnQueue(c, d, front) by { OwnPrefix(c, d, events); }
        hide OwnQueue;
        ConfirmedWasAccepted(c, d, front, k, h);
        var j :| k <= j < |front| && Settles(c, d, front, j, h);
        SettlesLonger(c, d, events, j, h);
      } else {
        RustReason(c, d, events, n, h);
      }
    }
  }

  lemma SettlesLonger(c: Config, d: Ledger, events: seq<Event>, k: nat, h: string)
    requires events != [] && Settles(c, d, events[..|events| - 1], k, h)
    ensures Settles(c, d, events, k, h)
  {
    hide Run, Log, Shown, IncomingVerdict, Names;
    assert events[..|events| - 1][..k] == events[..k];
  }

  lemma WholePrefix(events: seq<Event>, k: nat)
    ensures k == |events| ==> events[..k] == events
  {
  }

  lemma OwnPrefix(c: Config, d: Ledger, events: seq<Event>)
    requires events != [] && OwnQueue(c, d, events)
    ensures OwnQueue(c, d, events[..|events| - 1])
  {
    hide Log, Queue;
    var front := events[..|events| - 1];
    forall k | 0 <= k < |front| && front[k].Confirming? ensures front[k].queue == Queue(Log(c, d, front[..k])) {
      assert front[..k] == events[..k];
    }
  }

  /** And the converse: while nobody takes the lock anew, a settled lock is confirmed. In production the
      empty proof can be forbidden; everything else that settles confirms. */
  lemma SettledIsConfirmed(c: Config, d: Ledger, events: seq<Event>, j: nat, h: string)
    requires c.mode.Rust? && OwnQueue(c, d, events) && j < |events| && Settles(c, d, events, j, h)
    requires events[j].Confirming? && c.isProd && c.requireL1Proof ==>
      Shown(Log(c, d, events[..j]), h, events[j].l1TxHash) != ""
    requires forall i :: j < i < |events| ==> !Relocks(c, Run(c, d, events[..i]), events[i], h)
    ensures IsConfirmed(Run(c, d, events), h)
  {
    LookupIsRecent(Log(c, d, events[..j]), h);
    var t := Run(c, d, events[..j]);
    assert Reason(c, t, events[j], h) by {
      hide IncomingVerdict, Names, Run, Log, Queue, Lookup, HasHash, Since, Latest, DistinctHashes;
    }
    hide Reason, Relocks, Settles, IsConfirmed, Lookup, Queue, Log, OwnQueue;
    EventConfirms(c, t, events[j], h);
    assert events[..j + 1][..j] == events[..j];
    StaysConfirmed(c, d, events, j + 1, h);
  }

  lemma {:induction false} StaysConfirmed(c: Config, d: Ledger, events: seq<Event>, k: nat, h: string)
    requires k <= |events| && IsConfirmed(Run(c, d, events[..k]), h)
    requires forall i :: k <= i < |events| ==> !Relocks(c, Run(c, d, events[..i]), events[i], h)
    ensures IsConfirmed(Run(c, d, events), h)
    decreases |events|
  {
    hide Relocks, IsConfirmed, Apply, Reason;
    if k == |events| {
      assert events[..k] == events;
    } else {
      var n, front := |events| - 1, events[..|events| - 1];
      assert front[..k] == events[..k];
      forall i | k <= i < n ensures !Relocks(c, Run(c, d, front[..i]), front[i], h) {
        assert front[..i] == events[..i];
      }
      StaysConfirmed(c, d, front, k, h);
      EventConfirms(c, Run(c, d, front), events[n], h);
    }
  }
}
