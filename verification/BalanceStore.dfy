/** Balances in persistent storage (balance.rs): every read and every write renews the entry. */
module BalanceStore {
  import opened Prelude
  import opened Host
  import opened Token
  import opened Environment

  ghost predicate Fit(balances: map<Address, int>) {
    forall id :: id in balances ==> 0 <= balances[id] <= I128_MAX
  }

  lemma KeptTwice(
    now: nat, m: map<Address, Entry<int>>, m1: map<Address, Entry<int>>, m2: map<Address, Entry<int>>,
    t1: set<Address>, t2: set<Address>)
    requires BalancesKept(now, m, m1, t1) && BalancesKept(now, m1, m2, t2)
    ensures BalancesKept(now, m, m2, t1 + t2)
  {
  }

  method ReadBalance(e: Env, addr: Address) returns (r: Result<int>)
    requires Lawful(e.host)
    modifies e`balances
    ensures r.Ok? ==>
      && r.value == Balance(Values(old(e.balances)), addr)
      && Values(e.balances) == Values(old(e.balances))
      && BalancesKept(e.sequence, old(e.balances), e.balances, {addr})
    ensures r.Err? ==> r.error == TtlRefused && e.host.servedUntil < e.sequence
  {
    if addr !in e.balances {
      return Ok(0);
    }
    var balance := e.balances[addr].value;
    var extended := e.ExtendBalanceTtl(addr);
    if extended.Err? {
      return Err(extended.error);
    }
    return Ok(balance);
  }

  method WriteBalance(e: Env, addr: Address, amount: int) returns (r: Result<()>)
    requires Lawful(e.host)
    modifies e`balances
    ensures r.Ok? ==>
      && Values(e.balances) == Values(old(e.balances))[addr := amount]
      && BalancesKept(e.sequence, old(e.balances), e.balances, {addr})
    ensures r.Err? ==> r.error == TtlRefused && e.host.servedUntil < e.sequence
  {
    e.balances := Put(e.host, Persistent, e.sequence, e.balances, addr, amount);
    r := e.ExtendBalanceTtl(addr);
  }

  method ReceiveBalance(e: Env, addr: Address, amount: int) returns (r: Result<()>)
    requires Lawful(e.host) && Fit(Values(e.balances)) && 0 <= amount
    modifies e`balances
    ensures r.Ok? ==>
      && Credited(Values(old(e.balances)), addr, amount) == Ok(Values(e.balances))
      && BalancesKept(e.sequence, old(e.balances), e.balances, {addr})
    ensures r.Err? ==>
      || (r.error == TtlRefused && e.host.servedUntil < e.sequence)
      || Credited(Values(old(e.balances)), addr, amount) == Err(r.error)
  {
    var balance := ReadBalance(e, addr);
    if balance.Err? {
      return Err(balance.error);
    }
    if !FitsI128(balance.value + amount) {
      return Err(Overflow);
    }
    r := WriteBalance(e, addr, balance.value + amount);
  }

  method SpendBalance(e: Env, addr: Address, amount: int) returns (r: Result<()>)
    requires Lawful(e.host) && Fit(Values(e.balances)) && 0 <= amount
    modifies e`balances
    ensures r.Ok? ==>
      && Debited(Values(old(e.balances)), addr, amount) == Ok(Values(e.balances))
      && BalancesKept(e.sequence, old(e.balances), e.balances, {addr})
    ensures r.Err? ==>
      || (r.error == TtlRefused && e.host.servedUntil < e.sequence)
      || Debited(Values(old(e.balances)), addr, amount) == Err(r.error)
  {
    var balance := ReadBalance(e, addr);
    if balance.Err? {
      return Err(balance.error);
    }
    if balance.value < amount {
      return Err(InsufficientBalance);
    }
    // balance - amount lies between 0 and balance, so the subtraction cannot overflow
    assert FitsI128(balance.value - amount);
    r := WriteBalance(e, addr, balance.value - amount);
  }

  /** Debiting and then crediting is moving, also when both ends are the same account. */
  lemma DebitThenCreditMoves(b: map<Address, int>, from: Address, to: Address, amount: int)
    requires Fit(b)
    ensures
      match Debited(b, from, amount)
      case Err(e) => Moved(b, from, to, amount) == Err(e)
      case Ok(b') => Moved(b, from, to, amount) == Credited(b', to, amount)
  {
    if amount <= Balance(b, from) && from == to {
      assert b[from := Balance(b, from) - amount][to := Balance(b, from)] == b[from := Balance(b, from)];
    }
  }
}
