/**
 Allowances in temporary storage (allowance.rs). An allowance has two clocks: the expiration ledger
 stored in it, and the lifetime of the entry that stores it.
 */
module AllowanceStore {
  import opened Prelude
  import opened Host
  import opened Token
  import opened Environment

  function ReadAllowance(e: Env, from: Address, spender: Address): (r: AllowanceValue)
    reads e
    ensures r == InForce(Values(e.allowances), AllowanceKey(from, spender), e.sequence)
  {
    var key := AllowanceKey(from, spender);
    if key in e.allowances then
      var allowance := e.allowances[key].value;
      if allowance.expirationLedger < e.sequence then AllowanceValue(0, allowance.expirationLedger) else allowance
    else
      AllowanceValue(0, 0)
  }

  method WriteAllowance(e: Env, from: Address, spender: Address, amount: int, expirationLedger: nat)
    returns (r: Result<()>)
    requires Lawful(e.host) && AllowancesOutliveApprovals(e.sequence, e.allowances) && 0 <= amount
    modifies e`allowances
    ensures
      var k := AllowanceKey(from, spender);
      match r
      case Ok(_) =>
        && Values(e.allowances) == Values(old(e.allowances))[k := AllowanceValue(amount, expirationLedger)]
        && AllowancesKept(e.sequence, old(e.allowances), e.allowances, {k})
        && (amount > 0 ==> e.sequence <= expirationLedger)
        && (amount > 0 ==> !ExtensionRefused(e.host, e.sequence, old(e.allowances), k, expirationLedger))
      case Err(error) =>
        && amount > 0
        && if expirationLedger < e.sequence then error == ExpirationInPast
           else error == TtlRefused && ExtensionRefused(e.host, e.sequence, old(e.allowances), k, expirationLedger)
  {
    if amount > 0 && expirationLedger < e.sequence {
      return Err(ExpirationInPast);
    }
    var key := AllowanceKey(from, spender);
    e.allowances := Put(e.host, Temporary, e.sequence, e.allowances, key, AllowanceValue(amount, expirationLedger));
    if amount > 0 {
      // the checked subtraction cannot fail: the guard above has excluded it
      var liveFor: nat := expirationLedger - e.sequence;
      r := e.ExtendAllowanceTtl(key, liveFor);
    } else {
      r := Ok(());
    }
  }

  /** Neither the expiration check nor the checked subtraction of `WriteAllowance` can fail from here. */
  method SpendAllowance(e: Env, from: Address, spender: Address, amount: int) returns (r: Result<()>)
    requires Lawful(e.host) && AllowancesOutliveApprovals(e.sequence, e.allowances) && 0 <= amount
    modifies e`allowances
    ensures
      var k := AllowanceKey(from, spender);
      match r
      case Ok(_) =>
        && Drawn(Values(old(e.allowances)), k, e.sequence, amount) == Ok(Values(e.allowances))
        && AllowancesKept(e.sequence, old(e.allowances), e.allowances, {k})
        && !DrawRefused(e.host, e.sequence, old(e.allowances), k, amount)
      case Err(error) =>
        || (error == TtlRefused && DrawRefused(e.host, e.sequence, old(e.allowances), k, amount))
        || (error == InsufficientAllowance && Drawn(Values(old(e.allowances)), k, e.sequence, amount).Err?)
  {
    var allowance := ReadAllowance(e, from, spender);
    if allowance.amount < amount {
      return Err(InsufficientAllowance);
    }
    r := WriteAllowance(e, from, spender, allowance.amount - amount, allowance.expirationLedger);
  }
}
