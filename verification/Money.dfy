/** Balances in satoshi, as the accounts table keeps them (runtime/amount.py and
    storage/database.py). Amounts come in ABS, one ABS being a million satoshi. */
module Money {
  import opened Sums

  const SATOSHI_MULTIPLIER := 1000000.0

  /** Towards zero. */
  function ToSatoshi(amount: real): int {
    if amount >= 0.0 then (amount * SATOSHI_MULTIPLIER).Floor else -((-amount * SATOSHI_MULTIPLIER).Floor)
  }

  function FromSatoshi(satoshi: int): real {
    satoshi as real / SATOSHI_MULTIPLIER
  }

  function BalanceOf(accounts: map<string, nat>, address: string): nat {
    if address in accounts then accounts[address] else 0
  }

  /** update_balance: never below zero. */
  function Bump(accounts: map<string, nat>, address: string, delta: real): map<string, nat> {
    var next := BalanceOf(accounts, address) + ToSatoshi(delta);
    accounts[address := if next >= 0 then next else 0]
  }

  /** What is taken and what is given of one amount are the same satoshi. */
  lemma ToSatoshiMirrors(amount: real)
    ensures ToSatoshi(-amount) == -ToSatoshi(amount)
    ensures amount >= 0.0 ==> ToSatoshi(amount) >= 0
  {
    assert -(-amount) == amount;
  }

  /** A balance that covers the amount covers its satoshi. */
  lemma CoveredInSatoshi(satoshi: nat, amount: real)
    requires FromSatoshi(satoshi) >= amount
    ensures satoshi >= ToSatoshi(amount)
  {
    assert satoshi as real >= amount * SATOSHI_MULTIPLIER;
    if amount >= 0.0 {
      assert satoshi as real >= (amount * SATOSHI_MULTIPLIER).Floor as real;
    } else {
      ToSatoshiMirrors(-amount);
      assert -(-amount) == amount;
    }
  }

  /** A change that the clamp does not touch moves the total by its satoshi. */
  lemma BumpSum(accounts: map<string, nat>, address: string, delta: real)
    requires BalanceOf(accounts, address) + ToSatoshi(delta) >= 0
    ensures Sum(Bump(accounts, address, delta)) == Sum(accounts) + ToSatoshi(delta)
  {
    hide ToSatoshi, Sum;
    SumUpdate(accounts, address, BalanceOf(accounts, address) + ToSatoshi(delta));
    assert Get(accounts, address) == BalanceOf(accounts, address);
  }
}
