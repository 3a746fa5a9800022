/** What every run of the bridge keeps: where the money is, and that nothing is paid twice
    under one replay key. (One source event can have several keys: BridgeAliases.) */
module BridgeRuns {
  import opened Wrappers
  import opened Text
  import opened Sums
  import opened Money
  import opened L1Queue
  import opened Bridge

  datatype Event =
    | Locking(lock: LockRequest, lockVerifier: Verifier, issued: string)
    | Arriving(incoming: IncomingRequest, verifier: Verifier)
    | Confirming(queue: seq<Outbound>, listed: set<string>, txHash: string, l1TxHash: string, accepts: string -> bool)
    | Refunding(refund: string)

  function Apply(c: Config, d: Ledger, e: Event): Ledger {
    match e
    case Locking(r, v, issued) => AfterLock(c, d, r, v, issued)
    case Arriving(r, v) => AfterIncoming(c, d, r, v)
    case Confirming(q, listed, txHash, l1, accepts) => AfterConfirm(c, d, q, listed, txHash, l1, accepts)
    case Refunding(txHash) => AfterRefund(c, d, txHash)
  }

  function Run(c: Config, d: Ledger, events: seq<Event>): Ledger
    decreases |events|
  {
    if events == [] then d else Apply(c, Run(c, d, events[..|events| - 1]), events[|events| - 1])
  }

  // ---------------------------------------------------------------- the balance sheet

  function CreditedOf(d: Ledger): map<string, int> {
    map k | k in d.credits :: ToSatoshi(d.credits[k].amount)
  }

  function LockedOf(d: Ledger): map<string, int> {
    map h | h in d.locks :: ToSatoshi(d.locks[h].amount)
  }

  /** Balances, plus what is recorded as locked, less what was credited from outside. */
  ghost function Sheet(d: Ledger): int {
    Sum(d.accounts) + Sum(LockedOf(d)) - Sum(CreditedOf(d))
  }

  /** The share of the fee that goes neither on to the other chain nor to the burn address. */
  function Unburned(c: Config, r: LockRequest): int {
    var chain := NormalizeChain(r.toChain);
    var burn := BurnOf(c, chain, r.amount);
    ToSatoshi(r.amount) - ToSatoshi(NetOf(chain, r.amount))
    - (if burn == 0.0 || (c.atomicDb && c.burnAddress == "") then 0 else ToSatoshi(burn))
  }

  /** What one event takes off the sheet: the unburned fee of a lock and any lock record it
      overwrites; a refund adds to it. */
  function Taken(c: Config, d: Ledger, e: Event): int {
    match e
    case Locking(r, v, issued) =>
      var verdict := LockVerdict(c, d, r, v, issued);
      if verdict.Refused? then 0
      else Unburned(c, r) + if verdict.txHash in d.locks then ToSatoshi(d.locks[verdict.txHash].amount) else 0
    case Arriving(_, _) => 0
    case Confirming(_, _, _, _, _) => 0
    case Refunding(txHash) => if Refunds(c, d, txHash) then -ToSatoshi(d.locks[txHash].amount) else 0
  }

  function TakenOver(c: Config, d: Ledger, events: seq<Event>): int
    decreases |events|
  {
    if events == [] then 0
    else
      var front, e := events[..|events| - 1], events[|events| - 1];
      TakenOver(c, d, front) + Taken(c, Run(c, d, front), e)
  }

  /** The burn rate is a rate. */
  predicate ValidRate(c: Config) {
    0.0 <= c.burnRate <= 1.0
  }

  /** Locks are recorded for positive amounts. */
  predicate LocksPositive(d: Ledger) {
    forall h :: h in d.locks ==> d.locks[h].amount > 0.0
  }

  lemma BurnPositive(c: Config, chain: string, amount: real)
    requires ValidRate(c) && amount > 0.0
    ensures BurnOf(c, chain, amount) >= 0.0
  {
    ProductPositive(amount, FeeRate(chain));
    ProductPositive(amount * FeeRate(chain), c.burnRate);
  }

  lemma ProductPositive(a: real, b: real)
    requires a >= 0.0 && b >= 0.0
    ensures a * b >= 0.0
  {
  }

  lemma NetPositiveAmount(chain: string, amount: real)
    requires NetOf(chain, amount) > 0.0
    ensures amount > 0.0
  {
    var rate := FeeRate(chain);
    assert NetOf(chain, amount) == amount * (1.0 - rate);
    if amount <= 0.0 {
      ProductPositive(-amount, 1.0 - rate);
    }
  }

  /** A lock never underflows once the balance check has passed, and takes the full amount
      from the sender and the burn share to the burn address. */
  lemma DebitedSum(c: Config, d: Ledger, r: LockRequest)
    requires ValidRate(c) && NetOf(NormalizeChain(r.toChain), r.amount) > 0.0
    requires FromSatoshi(BalanceOf(d.accounts, r.fromAddr)) >= r.amount
    ensures var chain := NormalizeChain(r.toChain);
      var after := Debited(c, d, r.fromAddr, r.amount, BurnOf(c, chain, r.amount));
      && after.Some?
      && Sum(after.value) + Unburned(c, r) + ToSatoshi(NetOf(chain, r.amount)) == Sum(d.accounts)
  {
    var chain := NormalizeChain(r.toChain);
    var burn, amount := BurnOf(c, chain, r.amount), r.amount;
    NetPositiveAmount(chain, amount);
    BurnPositive(c, chain, amount);
    CoveredInSatoshi(BalanceOf(d.accounts, r.fromAddr), amount);
    ToSatoshiMirrors(amount);
    ToSatoshiMirrors(burn);
    ToSatoshiMirrors(NetOf(chain, amount));
    assert ToSatoshi(0.0) == 0;
    hide ToSatoshi, Sum, NormalizeChain, FromSatoshi, BurnOf, NetOf;
    BumpSum(d.accounts, r.fromAddr, -amount);
    var paid := Bump(d.accounts, r.fromAddr, -amount);
    BumpSum(paid, c.burnAddress, burn);
    assert paid == d.accounts[r.fromAddr := BalanceOf(d.accounts, r.fromAddr) - ToSatoshi(amount)];
  }

  lemma LockRowSum(d: Ledger, h: string, lock: Lock)
    ensures Sum(LockedOf(d.(locks := d.locks[h := lock])))
         == Sum(LockedOf(d)) + ToSatoshi(lock.amount) - (if h in d.locks then ToSatoshi(d.locks[h].amount) else 0)
  {
    hide ToSatoshi;
    assert LockedOf(d.(locks := d.locks[h := lock])) == LockedOf(d)[h := ToSatoshi(lock.amount)];
    SumUpdate(LockedOf(d), h, ToSatoshi(lock.amount));
  }

  /** What is locked is read off the locks, and what is credited off the credits. */
  lemma SameTables(d: Ledger, e: Ledger)
    ensures d.locks == e.locks ==> LockedOf(d) == LockedOf(e)
    ensures d.credits == e.credits ==> CreditedOf(d) == CreditedOf(e)
  {
    hide ToSatoshi;
  }

  lemma StatusSheet(d: Ledger, h: string, status: LockStatus)
    ensures Sheet(SetLockStatus(d, h, status)) == Sheet(d)
    ensures SetLockStatus(d, h, status).credits == d.credits
    ensures LocksPositive(d) ==> LocksPositive(SetLockStatus(d, h, status))
  {
    hide Sum, ToSatoshi;
    assert LockedOf(SetLockStatus(d, h, status)) == LockedOf(d);
    assert CreditedOf(SetLockStatus(d, h, status)) == CreditedOf(d);
  }

  lemma LockSheet(c: Config, d: Ledger, r: LockRequest, v: Verifier, issued: string)
    requires ValidRate(c) && LocksPositive(d)
    ensures Sheet(AfterLock(c, d, r, v, issued)) == Sheet(d) - Taken(c, d, Locking(r, v, issued))
    ensures LocksPositive(AfterLock(c, d, r, v, issued)) && AfterLock(c, d, r, v, issued).credits == d.credits
    ensures LockVerdict(c, d, r, v, issued) != Refused(DebitRaised)
  {
    hide Sum, ToSatoshi, Debited, NormalizeChain, NetOf, Unburned, BurnOf, FromSatoshi, Supported, LockedOf, CreditedOf;
    var chain := NormalizeChain(r.toChain);
    var verdict := LockVerdict(c, d, r, v, issued);
    if verdict.Locked? || verdict == Refused(DebitRaised) {
      LockHashNotRaised(c, r, v, issued);
      DebitedSum(c, d, r);
    }
    if verdict.Locked? {
      var lock := Lock(r.fromAddr, chain, r.toAddr, NetOf(chain, r.amount), Pending);
      LockRowSum(d, verdict.txHash, lock);
      var after := AfterLock(c, d, r, v, issued);
      SameTables(after, d.(locks := d.locks[verdict.txHash := lock]));
      SameTables(after.(locks := d.locks), d);
      SameTables(after, after.(locks := d.locks));
    }
  }

  lemma LockHashNotRaised(c: Config, r: LockRequest, v: Verifier, issued: string)
    ensures LockHash(c, r, v, issued) != Refused(DebitRaised)
  {
  }

  lemma ClaimedSheet(c: Config, d: Ledger, key: string, eventTx: string, txHash: string, recipient: string,
                     amount: real, fromChain: string)
    requires key !in d.credits && amount > 0.0
    ensures Sheet(Claimed(c, d, key, eventTx, txHash, recipient, amount, fromChain)) == Sheet(d)
  {
    ToSatoshiMirrors(amount);
    hide Sum, ToSatoshi;
    var paid := d.(accounts := Bump(d.accounts, recipient, amount),
                   credits := d.credits[key := Credit(eventTx, recipient, amount, fromChain)]);
    BumpSum(d.accounts, recipient, amount);
    assert CreditedOf(paid) == CreditedOf(d)[key := ToSatoshi(amount)];
    SumUpdate(CreditedOf(d), key, ToSatoshi(amount));
    assert LockedOf(paid) == LockedOf(d);
    StatusSheet(paid, if c.atomicDb then Strip(if txHash != "" then txHash else eventTx) else txHash, Confirmed);
    hide Sheet, Bump, Strip;
  }

  lemma RefundSheet(c: Config, d: Ledger, txHash: string)
    requires LocksPositive(d)
    ensures Sheet(AfterRefund(c, d, txHash)) == Sheet(d) - Taken(c, d, Refunding(txHash))
    ensures LocksPositive(AfterRefund(c, d, txHash)) && AfterRefund(c, d, txHash).credits == d.credits
  {
    if Refunds(c, d, txHash) {
      var lock := d.locks[txHash];
      ToSatoshiMirrors(lock.amount);
      hide Sum, ToSatoshi;
      var paid := d.(accounts := Bump(d.accounts, lock.fromAddr, lock.amount));
      BumpSum(d.accounts, lock.fromAddr, lock.amount);
      assert LockedOf(paid) == LockedOf(d) && CreditedOf(paid) == CreditedOf(d);
      StatusSheet(paid, txHash, Refunded);
      hide Bump;
    }
  }

  lemma IncomingSheet(c: Config, d: Ledger, r: IncomingRequest, v: Verifier)
    requires LocksPositive(d)
    ensures Sheet(AfterIncoming(c, d, r, v)) == Sheet(d) && LocksPositive(AfterIncoming(c, d, r, v))
  {
    var verdict := IncomingVerdict(c, d, r, v);
    if verdict.Credited? {
      ClaimedSheet(c, d, verdict.key, EventTx(r), r.txHash, r.recipient, r.amount, r.fromChain);
      hide Sheet, Bump, Strip, EventTx;
    }
  }

  lemma EventSheet(c: Config, d: Ledger, e: Event)
    requires ValidRate(c) && LocksPositive(d)
    ensures Sheet(Apply(c, d, e)) == Sheet(d) - Taken(c, d, e) && LocksPositive(Apply(c, d, e))
  {
    match e {
      case Locking(r, v, issued) => LockSheet(c, d, r, v, issued);
      case Arriving(r, v) => IncomingSheet(c, d, r, v);
      case Confirming(_, _, txHash, _, _) => StatusSheet(d, txHash, Confirmed);
      case Refunding(txHash) => RefundSheet(c, d, txHash);
    }
    hide Sheet, LocksPositive, AfterLock, AfterIncoming, AfterRefund, SetLockStatus, ConfirmsLock;
  }

  /** The balance sheet of any run: all balances, plus the net amounts on record as locked,
      less the first amount under every distinct replay key, differ from the start by the
      unburned fees, the lock records overwritten and the refunds, and nothing else. */
  lemma {:induction false} SheetOverRun(c: Config, d: Ledger, events: seq<Event>)
    requires ValidRate(c) && LocksPositive(d)
    ensures LocksPositive(Run(c, d, events))
    ensures Sheet(Run(c, d, events)) == Sheet(d) - TakenOver(c, d, events)
    decreases |events|
  {
    hide Sheet, LocksPositive, Apply, Taken;
    if events != [] {
      SheetOverRun(c, d, events[..|events| - 1]);
      EventSheet(c, Run(c, d, events[..|events| - 1]), events[|events| - 1]);
    }
  }

  /** A run that reuses no lock hash and refunds nothing. */
  predicate FreshLocks(c: Config, d: Ledger, events: seq<Event>)
    decreases |events|
  {
    events == [] ||
    var front, e, t := events[..|events| - 1], events[|events| - 1], Run(c, d, events[..|events| - 1]);
    && FreshLocks(c, d, front) && !e.Refunding?
    && (e.Locking? ==>
          var verdict := LockVerdict(c, t, e.lock, e.lockVerifier, e.issued);
          verdict.Locked? ==> verdict.txHash !in t.locks)
  }

  function UnburnedOver(c: Config, d: Ledger, events: seq<Event>): int
    decreases |events|
  {
    if events == [] then 0
    else
      var front, e, t := events[..|events| - 1], events[|events| - 1], Run(c, d, events[..|events| - 1]);
      UnburnedOver(c, d, front)
      + if e.Locking? && LockVerdict(c, t, e.lock, e.lockVerifier, e.issued).Locked? then Unburned(c, e.lock) else 0
  }

  lemma {:induction false} FreshTakesOnlyFees(c: Config, d: Ledger, events: seq<Event>)
    requires FreshLocks(c, d, events)
    ensures TakenOver(c, d, events) == UnburnedOver(c, d, events)
    decreases |events|
  {
    hide Unburned, Apply, LockVerdict;
    if events != [] {
      FreshTakesOnlyFees(c, d, events[..|events| - 1]);
    }
  }

  /** Conservation: from empty tables, with every lock under a new hash and no refund, the
      balances plus all lock net amounts are the initial total plus the first amount under
      each distinct replay key, less the unburned fee of each lock. */
  lemma Conservation(c: Config, accounts: map<string, nat>, events: seq<Event>)
    requires ValidRate(c) && FreshLocks(c, Ledger(accounts, map[], map[]), events)
    ensures var d := Run(c, Ledger(accounts, map[], map[]), events);
      Sum(d.accounts) + Sum(LockedOf(d))
      == Sum(accounts) + Sum(CreditedOf(d)) - UnburnedOver(c, Ledger(accounts, map[], map[]), events)
  {
    var d0 := Ledger(accounts, map[], map[]);
    SheetOverRun(c, d0, events);
    FreshTakesOnlyFees(c, d0, events);
    assert LockedOf(d0) == map[] && CreditedOf(d0) == map[];
    hide Run, FreshLocks, UnburnedOver, TakenOver;
  }

  /** The net amount of the record a lock overwrites. */
  function Overwritten(c: Config, d: Ledger, e: Event): int {
    if e.Locking? then
      var verdict := LockVerdict(c, d, e.lock, e.lockVerifier, e.issued);
      if verdict.Locked? && verdict.txHash in d.locks then ToSatoshi(d.locks[verdict.txHash].amount) else 0
    else 0
  }

  function OverwrittenOver(c: Config, d: Ledger, events: seq<Event>): int
    decreases |events|
  {
    if events == [] then 0
    else
      var front, e := events[..|events| - 1], events[|events| - 1];
      OverwrittenOver(c, d, front) + Overwritten(c, Run(c, d, front), e)
  }

  function PaidBack(c: Config, d: Ledger, e: Event): int {
    if e.Refunding? && Refunds(c, d, e.refund) then ToSatoshi(d.locks[e.refund].amount) else 0
  }

  function PaidBackOver(c: Config, d: Ledger, events: seq<Event>): int
    decreases |events|
  {
    if events == [] then 0
    else
      var front, e := events[..|events| - 1], events[|events| - 1];
      PaidBackOver(c, d, front) + PaidBack(c, Run(c, d, front), e)
  }

  lemma {:induction false} TakenSplits(c: Config, d: Ledger, events: seq<Event>)
    ensures TakenOver(c, d, events)
         == UnburnedOver(c, d, events) + OverwrittenOver(c, d, events) - PaidBackOver(c, d, events)
    decreases |events|
  {
    hide Unburned, Apply, LockVerdict, ToSatoshi;
    if events != [] {
      TakenSplits(c, d, events[..|events| - 1]);
    }
  }

  /** The equation of Conservation holds after a run, whatever its hashes, if and only if
      nothing but the unburned fees was taken; that is, if and only if the records
      overwritten come to the refunds. */
  lemma ConservationExactly(c: Config, accounts: map<string, nat>, events: seq<Event>)
    requires ValidRate(c)
    ensures var d0 := Ledger(accounts, map[], map[]);
      var d := Run(c, d0, events);
      && (Sum(d.accounts) + Sum(LockedOf(d)) == Sum(accounts) + Sum(CreditedOf(d)) - UnburnedOver(c, d0, events)
          <==> TakenOver(c, d0, events) == UnburnedOver(c, d0, events))
      && (TakenOver(c, d0, events) == UnburnedOver(c, d0, events)
          <==> OverwrittenOver(c, d0, events) == PaidBackOver(c, d0, events))
  {
    var d0 := Ledger(accounts, map[], map[]);
    SheetOverRun(c, d0, events);
    TakenSplits(c, d0, events);
    assert LockedOf(d0) == map[] && CreditedOf(d0) == map[];
    hide Run, UnburnedOver, TakenOver, OverwrittenOver, PaidBackOver;
  }

  /** An input on which it fails: two locks of ten coins under one transaction hash. The
      second record takes the place of the first, and its net amount is nowhere. */
  lemma TwoLocksOneHash(c: Config)
    requires c.mode == Rust && !c.isProd && c.atomicDb && c.burnRate == 0.0 && c.burnAddress == ""
    ensures var d0 := Ledger(map["alice" := 20_000_000], map[], map[]);
      var lock := Locking(LockRequest("alice", "ethereum", "0xdef", 10.0, "0xabc"), Verifier(true, ""), "");
      var d := Run(c, d0, [lock, lock]);
      && d.accounts == map["alice" := 0]
      && d.locks == map["0xabc" := Lock("alice", "ethereum", "0xdef", 9.9, Pending)]
      && OverwrittenOver(c, d0, [lock, lock]) == 9_900_000 && PaidBackOver(c, d0, [lock, lock]) == 0
  {
    var d0 := Ledger(map["alice" := 20_000_000], map[], map[]);
    var r, v := LockRequest("alice", "ethereum", "0xdef", 10.0, "0xabc"), Verifier(true, "");
    var lock := Locking(r, v, "");
    hide Run, OverwrittenOver, PaidBackOver, Apply, Overwritten, PaidBack, ToSatoshi;
    TenCoins(c, d0, r, v, 20_000_000);
    var d1 := Apply(c, d0, lock);
    TenCoins(c, d1, r, v, 10_000_000);
    RunTwice(c, d0, lock);
  }

  lemma RunTwice(c: Config, d: Ledger, e: Event)
    ensures var t := Apply(c, d, e);
      && Run(c, d, [e, e]) == Apply(c, t, e)
      && OverwrittenOver(c, d, [e, e]) == Overwritten(c, d, e) + Overwritten(c, t, e)
      && PaidBackOver(c, d, [e, e]) == PaidBack(c, d, e) + PaidBack(c, t, e)
  {
    hide Apply, Overwritten, PaidBack;
    assert [e, e][..1] == [e] && [e][..0] == [];
    assert Run(c, d, []) == d && Run(c, d, [e]) == Apply(c, d, e);
    assert OverwrittenOver(c, d, []) == 0 && OverwrittenOver(c, d, [e]) == Overwritten(c, d, e);
    assert PaidBackOver(c, d, []) == 0 && PaidBackOver(c, d, [e]) == PaidBack(c, d, e);
  }

  lemma TenCoins(c: Config, d: Ledger, r: LockRequest, v: Verifier, balance: nat)
    requires c.mode == Rust && !c.isProd && c.atomicDb && c.burnRate == 0.0 && v.ok
    requires r == LockRequest("alice", "ethereum", "0xdef", 10.0, "0xabc")
    requires d.accounts == map["alice" := balance] && balance >= 10_000_000
    ensures var lock := Locking(r, v, "");
      && Overwritten(c, d, lock) == (if "0xabc" in d.locks then ToSatoshi(d.locks["0xabc"].amount) else 0)
      && PaidBack(c, d, lock) == 0 && ToSatoshi(9.9) == 9_900_000
    ensures var after := Apply(c, d, Locking(r, v, ""));
      && after.accounts == map["alice" := balance - 10_000_000]
      && after.locks == d.locks["0xabc" := Lock("alice", "ethereum", "0xdef", 9.9, Pending)]
  {
    hide NormalizeChain, FeeRate, NetOf, BurnOf, ToSatoshi, FromSatoshi;
    EthereumFee(c);
    assert LockVerdict(c, d, r, v, "") == Locked("0xabc");
  }

  lemma EthereumFee(c: Config)
    requires c.burnRate == 0.0
    ensures NormalizeChain("ethereum") == "ethereum"
    ensures NetOf("ethereum", 10.0) == 9.9 && BurnOf(c, "ethereum", 10.0) == 0.0
    ensures ToSatoshi(10.0) == 10_000_000 && ToSatoshi(9.9) == 9_900_000
    ensures forall n: nat :: n >= 10_000_000 ==> FromSatoshi(n) >= 10.0
  {
    assert NormalizeChain("ethereum") == "ethereum" by {
      StripNothing("ethereum");
      hide Strip;
      assert Lower("ethereum") == "ethereum";
    }
    hide NormalizeChain;
    assert FeeRate("ethereum") == 0.01;
  }

  /** The unburned fee is what its name says, up to the rounding of three amounts to whole
      satoshi: never negative, and within two satoshi of fee * (1 - burn rate). */
  lemma UnburnedIsFeeShare(c: Config, r: LockRequest)
    requires ValidRate(c) && NetOf(NormalizeChain(r.toChain), r.amount) > 0.0 && c.burnAddress != ""
    ensures var chain := NormalizeChain(r.toChain);
      var share := r.amount * FeeRate(chain) - BurnOf(c, chain, r.amount);
      share >= 0.0 && 0 <= ToSatoshi(share) <= Unburned(c, r) <= ToSatoshi(share) + 2
  {
    var chain := NormalizeChain(r.toChain);
    var fee, burn, net := r.amount * FeeRate(chain), BurnOf(c, chain, r.amount), NetOf(chain, r.amount);
    NetPositiveAmount(chain, r.amount);
    BurnPositive(c, chain, r.amount);
    ProductPositive(r.amount, FeeRate(chain));
    ProductPositive(fee, 1.0 - c.burnRate);
    assert burn == fee * c.burnRate && fee - burn == fee * (1.0 - c.burnRate);
    assert ToSatoshi(0.0) == 0;
    hide NormalizeChain, FeeRate, BurnOf, NetOf;
    FloorOfThree(net, burn, fee - burn);
    assert net + burn + (fee - burn) == r.amount;
  }

  lemma FloorOfThree(x: real, y: real, z: real)
    requires x >= 0.0 && y >= 0.0 && z >= 0.0
    ensures ToSatoshi(x) + ToSatoshi(y) + ToSatoshi(z) <= ToSatoshi(x + y + z)
         <= ToSatoshi(x) + ToSatoshi(y) + ToSatoshi(z) + 2
    ensures ToSatoshi(z) >= 0
  {
    var a, b, c := x * SATOSHI_MULTIPLIER, y * SATOSHI_MULTIPLIER, z * SATOSHI_MULTIPLIER;
    assert (x + y + z) * SATOSHI_MULTIPLIER == a + b + c;
  }

  // ---------------------------------------------------------------- exactly once

  /** A credit once recorded stays as it is, whatever else happens. */
  lemma {:induction false} CreditsStay(c: Config, d: Ledger, events: seq<Event>, key: string)
    requires key in d.credits
    ensures key in Run(c, d, events).credits && Run(c, d, events).credits[key] == d.credits[key]
    decreases |events|
  {
    hide LockVerdict, CreditKey, EventTx, ConfirmsLock, Debited, Bump, Strip, NormalizeChain;
    if events != [] {
      CreditsStay(c, d, events[..|events| - 1], key);
    }
  }

  /** After an event was credited, every later arrival under its key, at any time and
      whatever recipient or amount it claims, is reported as a duplicate and changes
      nothing. */
  lemma {:induction false} ReplayPaysNothing(c: Config, d: Ledger, r: IncomingRequest, v: Verifier,
                                             events: seq<Event>, replay: IncomingRequest, w: Verifier)
    requires IncomingVerdict(c, d, r, v).Credited?
    requires CreditKey(c, replay.fromChain, EventTx(replay), replay.logIndex) == IncomingVerdict(c, d, r, v).key
    requires EventTx(replay) != "" && replay.recipient != "" && replay.amount > 0.0
    ensures var t := Run(c, AfterIncoming(c, d, r, v), events);
      && IncomingVerdict(c, t, replay, w) == Duplicate(IncomingVerdict(c, d, r, v).key)
      && AfterIncoming(c, t, replay, w) == t
  {
    hide CreditKey, EventTx, Bump, Strip, Run;
    var key := IncomingVerdict(c, d, r, v).key;
    assert key in AfterIncoming(c, d, r, v).credits;
    CreditsStay(c, AfterIncoming(c, d, r, v), events, key);
  }

  /** No lock is taken under the hash. */
  predicate NotRelocked(c: Config, d: Ledger, events: seq<Event>, txHash: string)
    decreases |events|
  {
    events == [] ||
    var front, e, t := events[..|events| - 1], events[|events| - 1], Run(c, d, events[..|events| - 1]);
    && NotRelocked(c, d, front, txHash)
    && (e.Locking? ==> LockVerdict(c, t, e.lock, e.lockVerifier, e.issued) != Locked(txHash))
  }

  predicate Settled(d: Ledger, txHash: string) {
    txHash in d.locks && d.locks[txHash].status != Pending
  }

  lemma EventKeepsSettled(c: Config, d: Ledger, e: Event, txHash: string)
    requires Settled(d, txHash)
    requires e.Locking? ==> LockVerdict(c, d, e.lock, e.lockVerifier, e.issued) != Locked(txHash)
    ensures Settled(Apply(c, d, e), txHash)
  {
    hide LockVerdict, CreditKey, EventTx, Debited, Bump, Strip, NormalizeChain, NetOf, Lookup;
  }

  /** A lock once refunded or confirmed is not pending again in any run that does not take
      it anew. */
  lemma {:induction false} SettledStays(c: Config, d: Ledger, events: seq<Event>, txHash: string)
    requires Settled(d, txHash) && NotRelocked(c, d, events, txHash)
    ensures Settled(Run(c, d, events), txHash)
    decreases |events|
  {
    hide Settled, Apply, LockVerdict;
    if events != [] {
      SettledStays(c, d, events[..|events| - 1], txHash);
      EventKeepsSettled(c, Run(c, d, events[..|events| - 1]), events[|events| - 1], txHash);
    }
  }

  /** A lock is refunded at most once until it is taken anew: after a refund, in every run
      without a new lock under the hash, another refund is refused and changes nothing. */
  lemma {:induction false} RefundOnce(c: Config, d: Ledger, txHash: string, events: seq<Event>)
    requires Refunds(c, d, txHash) && NotRelocked(c, AfterRefund(c, d, txHash), events, txHash)
    ensures var t := Run(c, AfterRefund(c, d, txHash), events);
      !Refunds(c, t, txHash) && AfterRefund(c, t, txHash) == t
  {
    hide Bump, Run, NotRelocked;
    SettledStays(c, AfterRefund(c, d, txHash), events, txHash);
  }

  // ---------------------------------------------------------------- the replay key

  predicate NoColon(s: string) {
    ':' !in s
  }

  lemma {:induction false} SplitAtColon(a: string, x: string, b: string, y: string)
    requires NoColon(a) && NoColon(b) && a + ":" + x == b + ":" + y
    ensures a == b && x == y
  {
    if a == "" || b == "" {
      assert (a + ":" + x)[0] == (b + ":" + y)[0];
      assert a == "" && b == "";
      assert (a + ":" + x)[1..] == x && (b + ":" + y)[1..] == y;
    } else {
      assert (a + ":" + x)[0] == a[0] && (b + ":" + y)[0] == b[0];
      assert (a + ":" + x)[1..] == a[1..] + ":" + x && (b + ":" + y)[1..] == b[1..] + ":" + y;
      SplitAtColon(a[1..], x, b[1..], y);
    }
  }

  lemma LowerParts(a: string, b: string, n: int)
    ensures Lower(a + ":" + b + ":" + Decimal(n)) == Lower(a) + ":" + (Lower(b) + ":" + Lower(Decimal(n)))
  {
  }

  lemma LowerNoColon(s: string)
    requires NoColon(s)
    ensures NoColon(Lower(s))
  {
  }

  lemma DecimalDigits(m: nat)
    ensures forall i :: 0 <= i < |Digits(m, 10)| ==> '0' <= Digits(m, 10)[i] <= '9'
  {
    DigitsInBase(m, 10);
    hide Digits;
  }

  /** Decimals are lower case already and say their number. */
  lemma DecimalIsLower(n: int)
    ensures Lower(Decimal(n)) == Decimal(n)
    ensures ParseNumber(Decimal(n)) == Number(n)
  {
    hide Digits, ParseDigits, RightStrip, LeftStrip;
    var m: nat := if n < 0 then -n else n;
    var d, s := Digits(m, 10), Decimal(n);
    DecimalDigits(m);
    ParseDigitsOf(m, 10);
    assert s[|s| - 1] == d[|d| - 1];
    assert Lower(s) == s by {
      assert forall i :: 0 <= i < |s| ==> LowerChar(s[i]) == s[i];
    }
    StripNothing(s);
    assert !StartsHex(s) by {
      assert |s| >= 2 ==> s[..2][1] == s[1];
    }
    if n < 0 {
      assert s[1..] == d;
    }
    hide Strip, StartsHex;
  }

  lemma {:induction false} SplitAtLastColon(a: string, x: string, b: string, y: string)
    requires NoColon(x) && NoColon(y) && a + ":" + x == b + ":" + y
    ensures a == b && x == y
    decreases |x|
  {
    var s, t := a + ":" + x, b + ":" + y;
    assert s[|s| - 1] == t[|t| - 1];
    if x == "" || y == "" {
      assert x == "" && y == "";
      assert s[..|s| - 1] == a && t[..|t| - 1] == b;
    } else {
      var x', y' := x[..|x| - 1], y[..|y| - 1];
      assert s[..|s| - 1] == a + ":" + x' && t[..|t| - 1] == b + ":" + y';
      assert x == x' + [x[|x| - 1]] && y == y' + [y[|y| - 1]];
      SplitAtLastColon(a, x', b, y');
    }
  }

  function Colons(s: string): nat {
    if s == "" then 0 else (if s[0] == ':' then 1 else 0) + Colons(s[1..])
  }

  lemma {:induction false} ColonsAdd(s: string, t: string)
    ensures Colons(s + t) == Colons(s) + Colons(t)
  {
    if s == "" {
      assert s + t == t;
    } else {
      assert (s + t)[1..] == s[1..] + t;
      ColonsAdd(s[1..], t);
    }
  }

  lemma {:induction false} ColonsZero(s: string)
    ensures Colons(s) == 0 <==> NoColon(s)
  {
    if s != "" {
      ColonsZero(s[1..]);
      assert s == [s[0]] + s[1..];
    }
  }

  /** The part of the raw key before the log index. */
  function Label(chain: string, tx: string): string {
    Lower(Strip(chain)) + ":" + Lower(Strip(tx))
  }

  lemma DecimalHasNoColon(n: int)
    ensures NoColon(Decimal(n))
  {
    hide Digits;
    DecimalDigits(if n < 0 then -n else n);
  }

  /** With a collision-free hash, whatever the chains and transactions look like: two events
      share a replay key exactly when they have the same label and the same log index. */
  lemma KeyIsLabel(c: Config, chain1: string, tx1: string, n1: int, chain2: string, tx2: string, n2: int)
    requires forall s, t :: c.hash(s) == c.hash(t) ==> s == t
    ensures CreditKey(c, chain1, tx1, n1) == CreditKey(c, chain2, tx2, n2)
      <==> Label(chain1, tx1) == Label(chain2, tx2) && n1 == n2
  {
    KeyText(chain1, tx1, n1);
    KeyText(chain2, tx2, n2);
    hide Strip, Decimal, Lower, Label;
    if CreditKey(c, chain1, tx1, n1) == CreditKey(c, chain2, tx2, n2) {
      DecimalHasNoColon(n1);
      DecimalHasNoColon(n2);
      SplitAtLastColon(Label(chain1, tx1), Decimal(n1), Label(chain2, tx2), Decimal(n2));
      DecimalIsLower(n1);
      DecimalIsLower(n2);
    }
  }

  lemma KeyText(chain: string, tx: string, n: int)
    ensures Lower(Strip(chain) + ":" + Strip(tx) + ":" + Decimal(n)) == Label(chain, tx) + ":" + Decimal(n)
  {
    LowerParts(Strip(chain), Strip(tx), n);
    DecimalIsLower(n);
    hide Strip, Decimal, Lower, ParseNumber;
  }

  /** A label without further colons says its chain and its transaction. */
  lemma PlainLabel(chain1: string, tx1: string, chain2: string, tx2: string)
    requires NoColon(Strip(chain2)) && NoColon(Strip(tx2))
    ensures Label(chain1, tx1) == Label(chain2, tx2)
      <==> Lower(Strip(chain1)) == Lower(Strip(chain2)) && Lower(Strip(tx1)) == Lower(Strip(tx2))
  {
    var a, x, b, y := Lower(Strip(chain1)), Lower(Strip(tx1)), Lower(Strip(chain2)), Lower(Strip(tx2));
    LowerNoColon(Strip(chain2));
    LowerNoColon(Strip(tx2));
    hide Strip, Lower;
    if Label(chain1, tx1) == Label(chain2, tx2) {
      LabelColons(a, x);
      LabelColons(b, y);
      ColonsZero(a);
      ColonsZero(x);
      ColonsZero(b);
      ColonsZero(y);
      SplitAtColon(a, x, b, y);
    }
  }

  lemma LabelColons(a: string, x: string)
    ensures Colons(a + ":" + x) == Colons(a) + 1 + Colons(x)
  {
    ColonsAdd(a + ":", x);
    ColonsAdd(a, ":");
  }

  /** With a collision-free hash, and no colon in the chain and the transaction of one of
      them: two events share a replay key exactly when they name the same chain and
      transaction, up to case and surrounding space, and the same log index. */
  lemma KeyNamesEvent(c: Config, chain1: string, tx1: string, n1: int, chain2: string, tx2: string, n2: int)
    requires forall s, t :: c.hash(s) == c.hash(t) ==> s == t
    requires NoColon(Strip(chain2)) && NoColon(Strip(tx2))
    ensures CreditKey(c, chain1, tx1, n1) == CreditKey(c, chain2, tx2, n2)
      <==> Lower(Strip(chain1)) == Lower(Strip(chain2)) && Lower(Strip(tx1)) == Lower(Strip(tx2)) && n1 == n2
  {
    hide Strip, Lower, Label, CreditKey;
    KeyIsLabel(c, chain1, tx1, n1, chain2, tx2, n2);
    PlainLabel(chain1, tx1, chain2, tx2);
  }
}
