/** Replaying transactions on account objects (blockchain/immutable_state.py) and the
    checks made before (blockchain/tx_validator.py). The accounts are objects that the
    manager's dict refers to; a transfer to oneself works on one object twice. */
module StateReplay {
  import opened Wrappers
  import opened Sums
  import opened Money
  import opened Text

  /** The keys of a transaction dict that are read; a key may be missing. */
  datatype Tx = Tx(
    from: Option<string>, fromAddr: Option<string>, to: Option<string>, toAddr: Option<string>,
    amountSatoshi: Option<int>, amount: Option<real>, value: Option<real>,
    feeSatoshi: Option<int>, fee: Option<real>, data: string, nonce: int, hash: string,
    signature: string, publicKey: string, ethSigned: bool, size: nat)

  datatype Account = Account(balance: int, nonce: int)

  type State = map<string, Account>

  function Sender(tx: Tx): string {
    tx.from.Else(tx.fromAddr).Or("")
  }

  function Receiver(tx: Tx): string {
    tx.to.Else(tx.toAddr).Or("")
  }

  function FeeOf(tx: Tx): int {
    tx.feeSatoshi.Or(ToSatoshi(tx.fee.Or(0.0)))
  }

  /** What apply_transaction moves: `value` is not read. */
  function AppliedAmount(tx: Tx): int {
    tx.amountSatoshi.Or(ToSatoshi(tx.amount.Or(0.0)))
  }

  /** What validate checks: `value` stands in for a missing `amount`. */
  function CheckedAmount(tx: Tx): int {
    tx.amountSatoshi.Or(ToSatoshi(tx.amount.Else(tx.value).Or(0.0)))
  }

  // ---------------------------------------------------------------- applying

  function Created(s: State, address: string): State {
    if address in s then s else s[address := Account(0, 0)]
  }

  predicate Affords(s: State, tx: Tx) {
    Created(s, Sender(tx))[Sender(tx)].balance >= AppliedAmount(tx) + FeeOf(tx)
  }

  function Move(s: State, address: string, delta: int): State
    requires address in s
  {
    s[address := s[address].(balance := s[address].balance + delta)]
  }

  /** Both accounts come into being even when the transfer is refused. */
  function Applied(s: State, tx: Tx): State {
    var t := Created(Created(s, Sender(tx)), Receiver(tx));
    if Affords(s, tx) then
      Move(Move(t, Sender(tx), -(AppliedAmount(tx) + FeeOf(tx))), Receiver(tx), AppliedAmount(tx))
    else t
  }

  // ---------------------------------------------------------------- validating

  const MAX_TRANSACTION_SIZE_BYTES := 100 * 1024
  const MIN_TRANSACTION_FEE_SATOSHI := 1000
  const MAX_TRANSACTION_AMOUNT_SATOSHI := 21_000_000 * 1_000_000
  const ZERO_ADDRESS := "0x0000000000000000000000000000000000000000"

  /** The pool already holds the hash; the signature verifies. */
  datatype Checks = Checks(pooled: string -> bool, verifies: Tx -> bool, requireSignature: bool)

  predicate HasBasicFields(tx: Tx) {
    && (tx.from.Some? || tx.fromAddr.Some?) && (tx.to.Some? || tx.toAddr.Some?)
    && (tx.amount.Some? || tx.value.Some? || tx.amountSatoshi.Some?)
  }

  predicate ValidAddress(address: string) {
    |address| >= 10 && (StartsHex(address) ==> |address| == 42)
  }

  /** text.replace("0x", "") */
  function WithoutHexMarks(text: string): string {
    if text == "" then ""
    else if StartsHex(text) then WithoutHexMarks(text[2..])
    else [text[0]] + WithoutHexMarks(text[1..])
  }

  predicate IsDeploy(tx: Tx) {
    WithoutHexMarks(Strip(tx.data)) != "" && Lower(Receiver(tx)) == ZERO_ADDRESS
  }

  predicate SignatureOk(k: Checks, tx: Tx) {
    && (k.requireSignature ==> tx.signature != "" || tx.ethSigned)
    && (tx.ethSigned ==> k.verifies(tx))
    && (!tx.ethSigned && tx.signature != "" ==> tx.publicKey != "" && k.verifies(tx))
  }

  predicate Valid(k: Checks, s: State, tx: Tx) {
    && HasBasicFields(tx) && ValidAddress(Sender(tx)) && ValidAddress(Receiver(tx))
    && (CheckedAmount(tx) > 0 || IsDeploy(tx)) && CheckedAmount(tx) <= MAX_TRANSACTION_AMOUNT_SATOSHI
    && FeeOf(tx) >= MIN_TRANSACTION_FEE_SATOSHI && tx.size <= MAX_TRANSACTION_SIZE_BYTES
    && var account := Created(s, Sender(tx))[Sender(tx)];
      && tx.nonce == account.nonce && account.balance >= CheckedAmount(tx) + FeeOf(tx)
      && !(tx.hash != "" && k.pooled(tx.hash))
      && SignatureOk(k, tx)
  }

  // ---------------------------------------------------------------- the objects

  class AccountState {
    const address: string
    var balance: int
    var nonce: int

    constructor (address: string)
      ensures this.address == address && balance == 0 && nonce == 0
    {
      this.address, balance, nonce := address, 0, 0;
    }
  }

  class ImmutableStateManager {
    var accounts: map<string, AccountState>

    constructor ()
      ensures Wf() && Value() == map[] && fresh(Objects())
    {
      accounts := map[];
    }

    ghost function Objects(): set<AccountState>
      reads this
    {
      set a | a in accounts :: accounts[a]
    }

    /** Each object stands under its own address, so no two addresses share one. */
    ghost predicate Wf()
      reads this, Objects()
    {
      forall a :: a in accounts ==> accounts[a].address == a
    }

    ghost function Value(): State
      reads this, Objects()
    {
      map a | a in accounts :: Account(accounts[a].balance, accounts[a].nonce)
    }

    method GetAccount(address: string) returns (account: AccountState)
      requires Wf()
      modifies this
      ensures Wf() && Value() == Created(old(Value()), address)
      ensures address in accounts && account == accounts[address]
      ensures forall a :: a in old(accounts) ==> a in accounts && accounts[a] == old(accounts)[a]
      ensures fresh(Objects() - old(Objects())) && old(Objects()) <= Objects()
    {
      if address in accounts {
        return accounts[address];
      }
      var created := new AccountState(address);
      ghost var before := Objects();
      accounts := accounts[address := created];
      forall o | o in before ensures o in Objects() {
        var a :| a in old(accounts) && old(accounts)[a] == o;
        assert accounts[a] == o;
      }
      return created;
    }

    /** account.balance += delta, on the object the dict refers to. */
    method Adjust(account: AccountState, delta: int)
      requires Wf() && account.address in accounts && accounts[account.address] == account
      modifies account`balance
      ensures Wf() && Value() == Move(old(Value()), account.address, delta)
    {
      ghost var s := Value();
      account.balance := account.balance + delta;
      assert forall a :: a in accounts ==> Value()[a] == Move(s, account.address, delta)[a];
    }

    method ApplyTransaction(tx: Tx) returns (ok: bool)
      requires Wf()
      modifies this, Objects()
      ensures Wf() && Value() == Applied(old(Value()), tx)
      ensures ok == Affords(old(Value()), tx)
      ensures fresh(Objects() - old(Objects()))
    {
      hide ToSatoshi, AppliedAmount, FeeOf, Sender, Receiver, Move;
      var amount, fee := AppliedAmount(tx), FeeOf(tx);
      var from := GetAccount(Sender(tx));
      var to := GetAccount(Receiver(tx));
      var total := amount + fee;
      if from.balance < total {
        return false;
      }
      Transfer(from, to, total, amount);
      return true;
    }

    /** The two may be one object. */
    method Transfer(from: AccountState, to: AccountState, total: int, amount: int)
      requires Wf() && from.address in accounts && accounts[from.address] == from
      requires to.address in accounts && accounts[to.address] == to
      modifies from`balance, to`balance
      ensures Wf() && Value() == Move(Move(old(Value()), from.address, -total), to.address, amount)
    {
      hide Move;
      Adjust(from, -total);
      Adjust(to, amount);
    }

    method TotalSupply() returns (total: int)
      ensures total == Supply(Value())
    {
      total := 0;
      var rest := accounts.Keys;
      ghost var balances := Balances(Value());
      assert balances.Keys == accounts.Keys;
      while rest != {}
        invariant rest <= accounts.Keys && total + SumOver(balances, rest) == Supply(Value())
        decreases |rest|
      {
        var address :| address in rest;
        TakeKey(balances, rest, address);
        total := total + accounts[address].balance;
        rest := rest - {address};
      }
    }

    /** validate, which reads the sender's account and so brings it into being. */
    method Validate(k: Checks, tx: Tx) returns (ok: bool)
      requires Wf()
      modifies this
      ensures Wf() && ok == Valid(k, old(Value()), tx)
      ensures Value() == old(Value()) || Value() == Created(old(Value()), Sender(tx))
    {
      hide ToSatoshi;
      if !HasBasicFields(tx) {
        return false;
      }
      if !ValidAddress(Sender(tx)) || !ValidAddress(Receiver(tx)) {
        return false;
      }
      var amount := CheckedAmount(tx);
      if amount <= 0 && !IsDeploy(tx) {
        return false;
      }
      if amount > MAX_TRANSACTION_AMOUNT_SATOSHI {
        return false;
      }
      var fee := FeeOf(tx);
      if fee < MIN_TRANSACTION_FEE_SATOSHI {
        return false;
      }
      if tx.size > MAX_TRANSACTION_SIZE_BYTES {
        return false;
      }
      var account := GetAccount(Sender(tx));
      if tx.nonce != account.nonce {
        return false;
      }
      if account.balance < amount + fee {
        return false;
      }
      if tx.hash != "" && k.pooled(tx.hash) {
        return false;
      }
      if k.requireSignature && tx.signature == "" && !tx.ethSigned {
        return false;
      }
      if tx.ethSigned {
        return k.verifies(tx);
      } else if tx.signature != "" {
        return tx.publicKey != "" && k.verifies(tx);
      }
      return true;
    }
  }

  // ---------------------------------------------------------------- supply

  ghost function Balances(s: State): map<string, int> {
    map a | a in s :: s[a].balance
  }

  ghost function Supply(s: State): int {
    Sum(Balances(s))
  }

  lemma CreatedSupply(s: State, address: string)
    ensures Supply(Created(s, address)) == Supply(s)
  {
    hide Sum;
    if address !in s {
      assert Balances(Created(s, address)) == Balances(s)[address := 0];
      SumUpdate(Balances(s), address, 0);
    }
  }

  lemma MoveSupply(s: State, address: string, delta: int)
    requires address in s
    ensures Supply(Move(s, address, delta)) == Supply(s) + delta
  {
    hide Sum;
    assert Balances(Move(s, address, delta)) == Balances(s)[address := s[address].balance + delta];
    SumUpdate(Balances(s), address, s[address].balance + delta);
  }

  /** One transaction takes its fee out of the supply if it is accepted, and nothing
      otherwise, also when sender and receiver are one account. */
  lemma AppliedSupply(s: State, tx: Tx)
    ensures Supply(Applied(s, tx)) == Supply(s) - (if Affords(s, tx) then FeeOf(tx) else 0)
  {
    hide ToSatoshi, Supply;
    CreatedSupply(s, Sender(tx));
    CreatedSupply(Created(s, Sender(tx)), Receiver(tx));
    var t := Created(Created(s, Sender(tx)), Receiver(tx));
    if Affords(s, tx) {
      MoveSupply(t, Sender(tx), -(AppliedAmount(tx) + FeeOf(tx)));
      MoveSupply(Move(t, Sender(tx), -(AppliedAmount(tx) + FeeOf(tx))), Receiver(tx), AppliedAmount(tx));
    }
  }

  function Replay(s: State, txs: seq<Tx>): State
    decreases |txs|
  {
    if txs == [] then s else Applied(Replay(s, txs[..|txs| - 1]), txs[|txs| - 1])
  }

  /** The fees of the transactions the replay accepts. */
  function AcceptedFees(s: State, txs: seq<Tx>): int
    decreases |txs|
  {
    if txs == [] then 0
    else
      AcceptedFees(s, txs[..|txs| - 1])
      + if Affords(Replay(s, txs[..|txs| - 1]), txs[|txs| - 1]) then FeeOf(txs[|txs| - 1]) else 0
  }

  predicate NonNegative(s: State) {
    forall a :: a in s ==> s[a].balance >= 0
  }

  predicate Ordinary(txs: seq<Tx>) {
    forall i :: 0 <= i < |txs| ==> AppliedAmount(txs[i]) >= 0 && FeeOf(txs[i]) >= 0
  }

  /** Over any list the supply falls by exactly the fees of the accepted transactions;
      with non-negative amounts and fees no balance becomes negative. */
  lemma {:induction false} ReplaySupply(s: State, txs: seq<Tx>)
    ensures Supply(Replay(s, txs)) == Supply(s) - AcceptedFees(s, txs)
    ensures NonNegative(s) && Ordinary(txs) ==> NonNegative(Replay(s, txs))
    decreases |txs|
  {
    hide ToSatoshi, Supply, AppliedAmount, FeeOf;
    if txs != [] {
      var front := txs[..|txs| - 1];
      ReplaySupply(s, front);
      AppliedSupply(Replay(s, front), txs[|txs| - 1]);
      assert Ordinary(txs) ==> Ordinary(front);
    }
  }

  /** When amounts may be negative: an accepted transfer leaves all balances non-negative
      exactly when the receiver can give what is asked of it, and for a transfer to oneself
      when the balance covers the fee. */
  lemma NonNegativeExactly(s: State, tx: Tx)
    requires NonNegative(s) && Affords(s, tx)
    ensures NonNegative(Applied(s, tx)) <==>
      if Sender(tx) == Receiver(tx) then Created(s, Sender(tx))[Sender(tx)].balance >= FeeOf(tx)
      else Created(s, Receiver(tx))[Receiver(tx)].balance + AppliedAmount(tx) >= 0
  {
    hide ToSatoshi, AppliedAmount, FeeOf;
    var after := Applied(s, tx);
    assert after[Receiver(tx)].balance
        == Created(s, Receiver(tx))[Receiver(tx)].balance
           + if Sender(tx) == Receiver(tx) then -FeeOf(tx) else AppliedAmount(tx);
  }

  // ---------------------------------------------------------------- validate, then replay

  /** A transaction that is no deployment and validates is always applied. */
  lemma ValidIsApplied(k: Checks, s: State, tx: Tx)
    requires Valid(k, s, tx) && !IsDeploy(tx)
    ensures Affords(s, tx)
  {
  }

  /** It moves the amount that was checked exactly unless the amount was read from `value`
      alone, which replay does not read. */
  lemma CheckedIsAppliedExactly(tx: Tx)
    ensures AppliedAmount(tx) == CheckedAmount(tx)
      <==> tx.amountSatoshi.Some? || tx.amount.Some? || tx.value.None? || ToSatoshi(tx.value.value) == 0
  {
    assert ToSatoshi(0.0) == 0;
  }

  /** With explicit satoshi amounts, validate followed by apply takes amount and fee from
      the sender, gives the amount to the receiver and burns the fee. */
  lemma ValidatedTransfer(k: Checks, s: State, tx: Tx)
    requires Valid(k, s, tx) && !IsDeploy(tx) && tx.amountSatoshi.Some? && Sender(tx) != Receiver(tx)
    ensures Sender(tx) in Applied(s, tx) && Receiver(tx) in Applied(s, tx)
    ensures Applied(s, tx)[Sender(tx)].balance
         == Created(s, Sender(tx))[Sender(tx)].balance - tx.amountSatoshi.value - FeeOf(tx)
    ensures Applied(s, tx)[Receiver(tx)].balance
         == Created(s, Receiver(tx))[Receiver(tx)].balance + tx.amountSatoshi.value
    ensures forall a :: a in s && a != Sender(tx) && a != Receiver(tx) ==> Applied(s, tx)[a] == s[a]
    ensures Supply(Applied(s, tx)) == Supply(s) - FeeOf(tx)
  {
    ValidIsApplied(k, s, tx);
    AppliedSupply(s, tx);
    hide ToSatoshi, FeeOf, Supply;
  }

  // ---------------------------------------------------------------- what validates

  function NonceAt(s: State, address: string): int {
    if address in s then s[address].nonce else 0
  }

  function BalanceAt(s: State, address: string): int {
    if address in s then s[address].balance else 0
  }

  /** The address has ten characters or more, and 42 if it is written in hex. */
  predicate Plausible(address: string) {
    |address| >= 10 && (|address| >= 2 && address[..2] == "0x" ==> |address| == 42)
  }

  /** The fields are there, the addresses plausible, the amount positive, or the transaction deploys code,
      and at most 21 million coins, the fee at least 1000 satoshi, the text at most 100 KiB. */
  predicate Formed(tx: Tx) {
    && (tx.from.Some? || tx.fromAddr.Some?) && (tx.to.Some? || tx.toAddr.Some?)
    && (tx.amount.Some? || tx.value.Some? || tx.amountSatoshi.Some?)
    && Plausible(Sender(tx)) && Plausible(Receiver(tx))
    && (CheckedAmount(tx) > 0 || IsDeploy(tx)) && CheckedAmount(tx) <= 21_000_000_000_000
    && FeeOf(tx) >= 1000 && tx.size <= 102_400
  }

  /** An Ethereum signature verifies; another one has a key and verifies; or there is none, and none is
      required. */
  predicate Signed(k: Checks, tx: Tx) {
    if tx.ethSigned then k.verifies(tx)
    else if tx.signature != "" then tx.publicKey != "" && k.verifies(tx)
    else !k.requireSignature
  }

  /** A transaction validates exactly when it is well formed, carries the nonce of its sender, whose
      balance covers amount and fee, is not in the pool under its hash, and is signed as it must be.
      Nothing else is asked, so one that meets all of this is accepted, and one that misses any of it
      refused. */
  lemma ValidExactly(k: Checks, s: State, tx: Tx)
    ensures Valid(k, s, tx) <==>
      && Formed(tx) && tx.nonce == NonceAt(s, Sender(tx))
      && BalanceAt(s, Sender(tx)) >= CheckedAmount(tx) + FeeOf(tx)
      && (tx.hash == "" || !k.pooled(tx.hash)) && Signed(k, tx)
  {
    hide ToSatoshi, Sender, Receiver, IsDeploy;
    assert StartsHex(Sender(tx)) <==> |Sender(tx)| >= 2 && Sender(tx)[..2] == "0x";
    assert StartsHex(Receiver(tx)) <==> |Receiver(tx)| >= 2 && Receiver(tx)[..2] == "0x";
  }

  /** Nothing but the mark of hex, any number of times. */
  predicate OnlyMarks(text: string) {
    |text| % 2 == 0 && forall i :: 0 <= i < |text| ==> text[i] == if i % 2 == 0 then '0' else 'x'
  }

  lemma {:induction false} MarksVanish(text: string)
    ensures WithoutHexMarks(text) == "" <==> OnlyMarks(text)
  {
    if StartsHex(text) {
      MarksVanish(text[2..]);
      assert text[0] == text[..2][0] && text[1] == text[..2][1];
      assert text == text[..2] + text[2..];
      if OnlyMarks(text[2..]) {
        forall i | 2 <= i < |text| ensures text[i] == if i % 2 == 0 then '0' else 'x' {
          assert text[i] == text[2..][i - 2];
        }
      }
      if OnlyMarks(text) {
        forall i | 0 <= i < |text| - 2 ensures text[2..][i] == if i % 2 == 0 then '0' else 'x' {
          assert text[2..][i] == text[i + 2];
        }
      }
    } else if text != "" && OnlyMarks(text) {
      MarksStart(text);
    }
  }

  lemma MarksStart(text: string)
    requires text != "" && OnlyMarks(text)
    ensures StartsHex(text)
  {
    assert text[..2] == "0x";
  }

  /** A transaction deploys code exactly when it goes to the zero address, in any case of letters, with
      data that is more than marks of hex and space around them. */
  lemma DeploysExactly(tx: Tx)
    ensures IsDeploy(tx) <==>
      Lower(Receiver(tx)) == "0x" + seq(40, _ => '0') && !OnlyMarks(Strip(tx.data))
  {
    MarksVanish(Strip(tx.data));
    assert ZERO_ADDRESS == "0x" + seq(40, _ => '0');
    hide Lower, Receiver, Strip, WithoutHexMarks;
  }

  /** Applying transactions moves no nonce. */
  lemma {:induction false} NoncesStay(s: State, txs: seq<Tx>, address: string)
    ensures NonceAt(Replay(s, txs), address) == NonceAt(s, address)
    decreases |txs|
  {
    hide ToSatoshi, AppliedAmount, FeeOf;
    if txs != [] {
      NoncesStay(s, txs[..|txs| - 1], address);
    }
  }

  /** So the nonce check does not tell a transaction that was applied from a new one: what validates once
      validates after any replay, its own application included, exactly while the balance covers it. */
  lemma ValidAgainExactly(k: Checks, s: State, txs: seq<Tx>, tx: Tx)
    requires Valid(k, s, tx)
    ensures Valid(k, Replay(s, txs), tx) <==>
      BalanceAt(Replay(s, txs), Sender(tx)) >= CheckedAmount(tx) + FeeOf(tx)
  {
    hide ToSatoshi, Replay, Formed, Signed;
    ValidExactly(k, s, tx);
    ValidExactly(k, Replay(s, txs), tx);
    NoncesStay(s, txs, Sender(tx));
  }
}
