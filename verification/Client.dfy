/** The accessors as the driver calls them. They change no value, only lifetimes. */
module Client {
  import opened Prelude
  import opened Host
  import opened Token
  import opened Runs
  import opened Environment
  import opened TokenContract

  ghost predicate SameExceptInstance(l: Ledger, l': Ledger) {
    l.(instance := None) == l'.(instance := None)
  }

  /** From `l` to `l'` nothing has changed but that some entries live longer. */
  ghost predicate Observed(l: Ledger, l': Ledger) {
    && l'.sequence == l.sequence
    && l'.timestamp == l.timestamp
    && View(l') == View(l)
    && l'.allowances == l.allowances
    && l.instance.Some? && l'.instance.Some?
    && l.instance.value.liveUntil <= l'.instance.value.liveUntil
    && (forall id :: id in l.balances ==> id in l'.balances && l.balances[id].liveUntil <= l'.balances[id].liveUntil)
  }

  /** What comes of an accessor call; the host can refuse it only beyond the ledgers it serves. */
  ghost predicate Answered(h: SorobanHost, l: Ledger, r: Result<Reply>, answer: int, l': Ledger) {
    && Observed(l, l')
    && (r.Ok? ==> r.value == Amount(answer) && l.sequence + INSTANCE_LIFETIME_THRESHOLD <= l'.instance.value.liveUntil)
    && (r.Err? ==> r.error == TtlRefused && h.servedUntil < l.sequence && l' == l)
  }

  lemma AllowanceQueryAnswered(
    h: SorobanHost, l: Ledger, auths: set<Address>, from: Address, spender: Address, r: Result<Reply>, l': Ledger)
    requires l.instance.Some? && CallSpec(h, l, auths, AllowanceOf(from, spender), r, l')
    ensures Answered(h, l, r, AllowanceAt(l, AllowanceKey(from, spender)), l')
    ensures SameExceptInstance(l, l')
  {
    if r.Ok? {
      SameKeys(l, l');
      assert l'.allowances == l.allowances;
      assert l'.balances == l.balances;
    }
  }

  lemma BalanceQueryAnswered(h: SorobanHost, l: Ledger, auths: set<Address>, id: Address, r: Result<Reply>, l': Ledger)
    requires l.instance.Some? && CallSpec(h, l, auths, BalanceOf(id), r, l')
    ensures Answered(h, l, r, BalanceAt(l, id), l')
    ensures r.Ok? && id in l'.balances ==> l.sequence + BALANCE_LIFETIME_THRESHOLD <= l'.balances[id].liveUntil
  {
    if r.Ok? {
      SameKeys(l, l');
      assert l'.allowances == l.allowances;
    }
  }

  lemma SameKeys(l: Ledger, l': Ledger)
    requires View(l) == View(l')
    ensures l.balances.Keys == l'.balances.Keys && l.allowances.Keys == l'.allowances.Keys
  {
    assert l.balances.Keys == View(l).balances.Keys && l'.balances.Keys == View(l').balances.Keys;
    assert l.allowances.Keys == View(l).approvals.Keys && l'.allowances.Keys == View(l').approvals.Keys;
  }

  method QueryAllowance(e: Env, from: Address, spender: Address) returns (r: Result<Reply>)
    requires e.Valid() && e.instance.Some?
    modifies e
    ensures e.Continues(old(e.steps)) && e.Books() == old(e.Books())
    ensures Answered(e.host, old(e.Snapshot()), r, AllowanceAt(old(e.Snapshot()), AllowanceKey(from, spender)), e.Snapshot())
    ensures SameExceptInstance(old(e.Snapshot()), e.Snapshot())
  {
    ghost var before, steps := e.Snapshot(), e.steps;
    r := TryInvoke(e, AllowanceOf(from, spender));
    TallyAfterCall(e.start, steps, Step(Invoke(e.auths, AllowanceOf(from, spender)), r, e.Snapshot()));
    AllowanceQueryAnswered(e.host, before, e.auths, from, spender, r, e.Snapshot());
  }

  method QueryBalance(e: Env, id: Address) returns (r: Result<Reply>)
    requires e.Valid() && e.instance.Some?
    modifies e
    ensures e.Continues(old(e.steps)) && e.Books() == old(e.Books())
    ensures Answered(e.host, old(e.Snapshot()), r, BalanceAt(old(e.Snapshot()), id), e.Snapshot())
    ensures r.Ok? && id in e.balances ==> e.sequence + BALANCE_LIFETIME_THRESHOLD <= e.balances[id].liveUntil
  {
    ghost var before, steps := e.Snapshot(), e.steps;
    r := TryInvoke(e, BalanceOf(id));
    TallyAfterCall(e.start, steps, Step(Invoke(e.auths, BalanceOf(id)), r, e.Snapshot()));
    BalanceQueryAnswered(e.host, before, e.auths, id, r, e.Snapshot());
  }
}
