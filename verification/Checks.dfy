/** Resynchronising the mirror's allowances after time has passed, and checking it against the token. */
module Checks {
  import opened Prelude
  import opened Host
  import opened Token
  import opened Supply
  import opened Runs
  import opened Environment
  import opened Client
  import opened Clock
  import opened Mirror
  import opened Lockstep

  /** The history goes on from `past`; since `l`, nothing but lifetimes has changed on the ledger and in the books. */
  ghost predicate Quiet(e: Env, past: seq<Step>, books: Tally, l: Ledger)
    reads e`sequence, e`timestamp, e`instance, e`balances, e`allowances, e`steps
  {
    && e.Continues(past)
    && e.Books() == books
    && Observed(l, e.Snapshot())
  }

  lemma ObservedTwice(l: Ledger, l1: Ledger, l2: Ledger)
    requires Observed(l, l1) && Observed(l1, l2)
    ensures Observed(l, l2)
  {
  }

  /** Asking for an allowance in the middle of a quiet stretch. */
  method AskAllowance(e: Env, from: Address, spender: Address, ghost past: seq<Step>, ghost books: Tally, ghost l: Ledger)
    returns (status: Status, amount: int)
    requires Quiet(e, past, books, l)
    modifies e
    ensures Quiet(e, past, books, l)
    ensures status.Completed? ==>
      && amount == AllowanceAt(l, AllowanceKey(from, spender))
      && l.sequence + INSTANCE_LIFETIME_THRESHOLD <= e.instance.value.liveUntil
    ensures status.Panicked? ==> status == Panicked(HostRefusal) && e.host.servedUntil < l.sequence
  {
    ghost var before := e.Snapshot();
    var r := QueryAllowance(e, from, spender);
    ObservedTwice(l, before, e.Snapshot());
    if r.Err? {
      return Panicked(HostRefusal), 0;
    }
    return Completed, r.value.value;
  }

  /** The first `n` accounts are good for 29 days. */
  ghost predicate Refreshed(l: Ledger, accounts: seq<Address>, n: nat) {
    forall i :: 0 <= i < n && i < |accounts| && accounts[i] in l.balances ==>
      l.sequence + BALANCE_LIFETIME_THRESHOLD <= l.balances[accounts[i]].liveUntil
  }

  lemma RefreshedStays(l: Ledger, l': Ledger, accounts: seq<Address>, n: nat)
    requires Refreshed(l, accounts, n) && Observed(l, l')
    ensures Refreshed(l', accounts, n)
  {
    SameKeys(l, l');
  }

  /** Asking for a balance, which also renews it. */
  method AskBalance(
    e: Env, accounts: seq<Address>, i: nat, ghost n: nat, ghost past: seq<Step>, ghost books: Tally, ghost l: Ledger)
    returns (status: Status, amount: int)
    requires Quiet(e, past, books, l) && i < |accounts| && Refreshed(e.Snapshot(), accounts, n)
    modifies e
    ensures Quiet(e, past, books, l)
    ensures status.Completed? ==>
      && amount == BalanceAt(l, accounts[i])
      && l.sequence + INSTANCE_LIFETIME_THRESHOLD <= e.instance.value.liveUntil
      && Refreshed(e.Snapshot(), accounts, if n == i then n + 1 else n)
    ensures status.Panicked? ==> status == Panicked(HostRefusal) && e.host.servedUntil < l.sequence
  {
    ghost var before := e.Snapshot();
    var r := QueryBalance(e, accounts[i]);
    ObservedTwice(l, before, e.Snapshot());
    if r.Err? {
      return Panicked(HostRefusal), 0;
    }
    RefreshedStays(before, e.Snapshot(), accounts, n);
    return Completed, r.value.value;
  }

  /******* Resynchronisation *******/

  /**
   Pairs before (`i`, `j`) are in agreement with the token; of the rest, those are not whose allowance
   the token has meanwhile dropped to zero.
   */
  ghost predicate SyncedUpTo(mirrored: map<AllowanceKey, int>, l: Ledger, accounts: seq<Address>, i: nat, j: nat) {
    forall x, y :: 0 <= x < |accounts| && 0 <= y < |accounts| ==>
      var k := AllowanceKey(accounts[x], accounts[y]);
      Granted(mirrored, k) == AllowanceAt(l, k) || (AllowanceAt(l, k) == 0 && (i < x || (i == x && j <= y)))
  }

  function Resynced(mirrored: map<AllowanceKey, int>, k: AllowanceKey, actual: int): map<AllowanceKey, int> {
    if actual == 0 && Granted(mirrored, k) != 0 then mirrored[k := 0] else mirrored
  }

  lemma PairSynced(mirrored: map<AllowanceKey, int>, l: Ledger, accounts: seq<Address>, i: nat, j: nat)
    requires i < |accounts| && j < |accounts| && SyncedUpTo(mirrored, l, accounts, i, j)
    ensures
      var k := AllowanceKey(accounts[i], accounts[j]);
      SyncedUpTo(Resynced(mirrored, k, AllowanceAt(l, k)), l, accounts, i, j + 1)
  {
  }

  lemma RowSynced(mirrored: map<AllowanceKey, int>, l: Ledger, accounts: seq<Address>, i: nat)
    requires SyncedUpTo(mirrored, l, accounts, i, |accounts|)
    ensures SyncedUpTo(mirrored, l, accounts, i + 1, 0)
  {
  }

  method ResyncRow(
    e: Env, m: ContractState, accounts: seq<Address>, i: nat, ghost past: seq<Step>, ghost books: Tally, ghost l: Ledger)
    returns (status: Status)
    requires Quiet(e, past, books, l) && i < |accounts| && SyncedUpTo(m.allowances, l, accounts, i, 0)
    modifies e, m`allowances
    ensures Quiet(e, past, books, l)
    ensures status.Completed? ==> SyncedUpTo(m.allowances, l, accounts, i + 1, 0)
    ensures status.Panicked? ==> status == Panicked(HostRefusal) && e.host.servedUntil < l.sequence
  {
    for j := 0 to |accounts|
      invariant Quiet(e, past, books, l) && SyncedUpTo(m.allowances, l, accounts, i, j)
    {
      var expected := m.GetAllowance(accounts[i], accounts[j]);
      var actual;
      status, actual := AskAllowance(e, accounts[i], accounts[j], past, books, l);
      if status.Panicked? {
        return;
      }
      PairSynced(m.allowances, l, accounts, i, j);
      if actual == 0 && expected != 0 {
        m.SetAllowance(accounts[i], accounts[j], actual);
      }
    }
    RowSynced(m.allowances, l, accounts, i);
    status := Completed;
  }

  /** For every pair: if the contract now says zero, so does the mirror. */
  method Resync(
    e: Env, m: ContractState, accounts: seq<Address>, ghost past: seq<Step>, ghost books: Tally, ghost l: Ledger)
    returns (status: Status)
    requires Quiet(e, past, books, l) && SyncedUpTo(m.allowances, l, accounts, 0, 0)
    modifies e, m`allowances
    ensures Quiet(e, past, books, l)
    ensures status.Completed? ==> AllowancesAgree(m.allowances, View(l).approvals, l.sequence, accounts)
    ensures status.Panicked? ==> status == Panicked(HostRefusal) && e.host.servedUntil < l.sequence
  {
    for i := 0 to |accounts|
      invariant Quiet(e, past, books, l) && SyncedUpTo(m.allowances, l, accounts, i, 0)
    {
      status := ResyncRow(e, m, accounts, i, past, books, l);
      if status.Panicked? {
        return;
      }
    }
    status := Completed;
  }

  /******* The assertions *******/

  /** Everything that is asserted after a transaction. */
  ghost predicate Matches(m: MirrorState, l: Ledger, accounts: seq<Address>) {
    && View(l).metadata == Some(m.metadata)
    && BalancesMatch(m.balances, l, accounts, |accounts|)
    && AllowancesMatch(m.allowances, l, accounts, |accounts|, 0)
    && m.sumOfMints - m.sumOfBurns == ListedTotal(accounts, View(l).balances)
  }

  ghost predicate BalancesMatch(mirrored: map<Address, int>, l: Ledger, accounts: seq<Address>, n: nat) {
    forall i :: 0 <= i < n && i < |accounts| ==>
      Balance(mirrored, accounts[i]) == BalanceAt(l, accounts[i]) && BalanceAt(l, accounts[i]) >= 0
  }

  ghost predicate AllowancesMatch(mirrored: map<AllowanceKey, int>, l: Ledger, accounts: seq<Address>, i: nat, j: nat) {
    forall x, y :: 0 <= x < |accounts| && 0 <= y < |accounts| && (x < i || (x == i && y < j)) ==>
      Granted(mirrored, AllowanceKey(accounts[x], accounts[y])) == AllowanceAt(l, AllowanceKey(accounts[x], accounts[y]))
  }

  /** The same, accessor by accessor, as a caller of mirror and token would compare them. */
  lemma MatchesMeans(m: MirrorState, l: Ledger, accounts: seq<Address>)
    ensures Matches(m, l, accounts) <==>
      && l.instance.Some? && l.instance.value.value.metadata == Some(m.metadata)
      && (forall i :: 0 <= i < |accounts| ==>
            Balance(m.balances, accounts[i]) == BalanceAt(l, accounts[i]) && BalanceAt(l, accounts[i]) >= 0)
      && (forall i, j :: 0 <= i < |accounts| && 0 <= j < |accounts| ==>
            Granted(m.allowances, AllowanceKey(accounts[i], accounts[j])) ==
            AllowanceAt(l, AllowanceKey(accounts[i], accounts[j])))
      && m.sumOfMints - m.sumOfBurns == ListedTotal(accounts, View(l).balances)
  {
  }

  method CheckBalances(
    e: Env, m: ContractState, accounts: seq<Address>, ghost past: seq<Step>, ghost books: Tally, ghost l: Ledger)
    returns (status: Status, ok: bool)
    requires Quiet(e, past, books, l)
    modifies e
    ensures Quiet(e, past, books, l)
    ensures status.Completed? ==>
      && Refreshed(e.Snapshot(), accounts, |accounts|)
      && (ok <==> BalancesMatch(m.balances, l, accounts, |accounts|))
    ensures status.Panicked? ==> status == Panicked(HostRefusal) && e.host.servedUntil < l.sequence
  {
    ok := true;
    for i := 0 to |accounts|
      invariant Quiet(e, past, books, l) && Refreshed(e.Snapshot(), accounts, i)
      invariant ok <==> BalancesMatch(m.balances, l, accounts, i)
    {
      var balance, again;
      status, balance := AskBalance(e, accounts, i, i, past, books, l);
      if status.Panicked? {
        return;
      }
      status, again := AskBalance(e, accounts, i, i + 1, past, books, l);
      if status.Panicked? {
        return;
      }
      ok := ok && m.GetBalance(accounts[i]) == balance && again >= 0;
    }
    status := Completed;
  }

  method CheckAllowanceRow(
    e: Env, m: ContractState, accounts: seq<Address>, i: nat, sofar: bool,
    ghost past: seq<Step>, ghost books: Tally, ghost l: Ledger)
    returns (status: Status, ok: bool)
    requires Quiet(e, past, books, l) && i < |accounts|
    requires sofar <==> AllowancesMatch(m.allowances, l, accounts, i, 0)
    modifies e
    ensures Quiet(e, past, books, l)
    ensures status.Completed? ==>
      && l.sequence + INSTANCE_LIFETIME_THRESHOLD <= e.instance.value.liveUntil
      && (ok <==> AllowancesMatch(m.allowances, l, accounts, i + 1, 0))
    ensures status.Panicked? ==> status == Panicked(HostRefusal) && e.host.servedUntil < l.sequence
  {
    ok := sofar;
    for j := 0 to |accounts|
      invariant Quiet(e, past, books, l)
      invariant j > 0 ==> l.sequence + INSTANCE_LIFETIME_THRESHOLD <= e.instance.value.liveUntil
      invariant ok <==> AllowancesMatch(m.allowances, l, accounts, i, j)
    {
      var allowance;
      status, allowance := AskAllowance(e, accounts[i], accounts[j], past, books, l);
      if status.Panicked? {
        return;
      }
      ok := ok && m.GetAllowance(accounts[i], accounts[j]) == allowance;
    }
    status := Completed;
  }

  method CheckAllowances(
    e: Env, m: ContractState, accounts: seq<Address>, ghost past: seq<Step>, ghost books: Tally, ghost l: Ledger)
    returns (status: Status, ok: bool)
    requires Quiet(e, past, books, l)
    modifies e
    ensures Quiet(e, past, books, l)
    ensures status.Completed? ==>
      && (|accounts| > 0 ==> l.sequence + INSTANCE_LIFETIME_THRESHOLD <= e.instance.value.liveUntil)
      && (ok <==> AllowancesMatch(m.allowances, l, accounts, |accounts|, 0))
    ensures status.Panicked? ==> status == Panicked(HostRefusal) && e.host.servedUntil < l.sequence
  {
    ok := true;
    for i := 0 to |accounts|
      invariant Quiet(e, past, books, l)
      invariant i > 0 ==> l.sequence + INSTANCE_LIFETIME_THRESHOLD <= e.instance.value.liveUntil
      invariant ok <==> AllowancesMatch(m.allowances, l, accounts, i, 0)
    {
      status, ok := CheckAllowanceRow(e, m, accounts, i, ok, past, books, l);
      if status.Panicked? {
        return;
      }
    }
    status := Completed;
  }

  method SumBalances(e: Env, accounts: seq<Address>, ghost past: seq<Step>, ghost books: Tally, ghost l: Ledger)
    returns (status: Status, sum: int)
    requires Quiet(e, past, books, l) && Refreshed(e.Snapshot(), accounts, |accounts|)
    modifies e
    ensures Quiet(e, past, books, l)
    ensures status.Completed? ==>
      && Refreshed(e.Snapshot(), accounts, |accounts|)
      && (|accounts| > 0 ==> l.sequence + INSTANCE_LIFETIME_THRESHOLD <= e.instance.value.liveUntil)
      && sum == ListedTotal(accounts, View(l).balances)
    ensures status.Panicked? ==> status == Panicked(HostRefusal) && e.host.servedUntil < l.sequence
  {
    sum := 0;
    for i := 0 to |accounts|
      invariant Quiet(e, past, books, l) && Refreshed(e.Snapshot(), accounts, |accounts|)
      invariant i > 0 ==> l.sequence + INSTANCE_LIFETIME_THRESHOLD <= e.instance.value.liveUntil
      invariant sum == ListedTotal(accounts[..i], View(l).balances)
    {
      var balance;
      status, balance := AskBalance(e, accounts, i, |accounts|, past, books, l);
      if status.Panicked? {
        return;
      }
      assert accounts[..i + 1][..i] == accounts[..i];
      sum := sum + balance;
    }
    assert accounts[..|accounts|] == accounts;
    status := Completed;
  }

  /**
   `assert_state` as a decision procedure: whatever the mirror says, the verdict is whether it matches
   the token. Asking renews every listed balance and the instance.
   */
  method AssertState(
    e: Env, m: ContractState, accounts: seq<Address>, ghost past: seq<Step>, ghost books: Tally, ghost l: Ledger)
    returns (status: Status, ok: bool)
    requires Quiet(e, past, books, l) && View(l).metadata.Some?
    modifies e
    ensures Quiet(e, past, books, l)
    ensures status.Completed? ==>
      && Refreshed(e.Snapshot(), accounts, |accounts|)
      && (|accounts| > 0 ==> l.sequence + INSTANCE_LIFETIME_THRESHOLD <= e.instance.value.liveUntil)
      && (ok <==> Matches(m.State(), l, accounts))
    ensures status.Panicked? ==> status == Panicked(HostRefusal) && e.host.servedUntil < l.sequence
  {
    ok := false;
    var metadata := e.instance.value.value.metadata.value;
    var sameMetadata := metadata.name == m.name && metadata.symbol == m.symbol && metadata.decimal == m.decimals;
    var sameBalances, sameAllowances, sum;
    status, sameBalances := CheckBalances(e, m, accounts, past, books, l);
    if status.Panicked? {
      return;
    }
    status, sameAllowances, sum := CheckAllowancesAndSum(e, m, accounts, past, books, l);
    ok := sameMetadata && sameBalances && sameAllowances && m.sumOfMints - m.sumOfBurns == sum;
  }

  /** The second half of the check. The balances that the first half has renewed stay renewed. */
  method CheckAllowancesAndSum(
    e: Env, m: ContractState, accounts: seq<Address>, ghost past: seq<Step>, ghost books: Tally, ghost l: Ledger)
    returns (status: Status, sameAllowances: bool, sum: int)
    requires Quiet(e, past, books, l) && Refreshed(e.Snapshot(), accounts, |accounts|)
    modifies e
    ensures Quiet(e, past, books, l)
    ensures status.Completed? ==>
      && Refreshed(e.Snapshot(), accounts, |accounts|)
      && (|accounts| > 0 ==> l.sequence + INSTANCE_LIFETIME_THRESHOLD <= e.instance.value.liveUntil)
      && (sameAllowances <==> AllowancesMatch(m.allowances, l, accounts, |accounts|, 0))
      && sum == ListedTotal(accounts, View(l).balances)
    ensures status.Panicked? ==> status == Panicked(HostRefusal) && e.host.servedUntil < l.sequence
  {
    sum := 0;
    ghost var checked := e.Snapshot();
    status, sameAllowances := CheckAllowances(e, m, accounts, past, books, checked);
    ObservedTwice(l, checked, e.Snapshot());
    if status.Panicked? {
      return;
    }
    RefreshedStays(checked, e.Snapshot(), accounts, |accounts|);
    status, sum := SumBalances(e, accounts, past, books, l);
  }
}
