/** When the fuzzer's mirror and the token agree, and why a call keeps them in agreement. */
module Lockstep {
  import opened Prelude
  import opened Host
  import opened Token
  import opened Runs
  import opened Environment
  import opened Clock
  import opened Mirror

  /** The token as every transaction finds it: same administrator and metadata, no account but the listed ones. */
  ghost predicate Settled(l: Ledger, accounts: seq<Address>, data: InstanceData, until: nat) {
    && l.instance.Some?
    && l.instance.value.value == data
    && (forall id :: id in l.balances ==> id in accounts)
    && Safe(l, until)
  }

  ghost predicate BalancesAgree(mirrored: map<Address, int>, balances: map<Address, int>, accounts: seq<Address>) {
    forall i :: 0 <= i < |accounts| ==> Balance(mirrored, accounts[i]) == Balance(balances, accounts[i])
  }

  ghost predicate AllowancesAgree(
    mirrored: map<AllowanceKey, int>, approvals: map<AllowanceKey, AllowanceValue>, now: nat, accounts: seq<Address>)
  {
    forall i, j :: 0 <= i < |accounts| && 0 <= j < |accounts| ==>
      Granted(mirrored, AllowanceKey(accounts[i], accounts[j])) ==
      InForce(approvals, AllowanceKey(accounts[i], accounts[j]), now).amount
  }

  /** The tally after one more command call. */
  ghost predicate Recorded(t: Tally, auths: set<Address>, c: Call, succeeded: bool, t': Tally) {
    && t'.minted == t.minted + (if succeeded && c.Mint? then c.amount else 0)
    && t'.burned == t.burned + (if succeeded && (c.Burn? || c.BurnFrom?) then c.amount else 0)
    && t'.lapsed == t.lapsed
    && t'.issued == t.issued + [Invoke(auths, c)]
  }

  /** The mirror agrees with the token on the listed accounts and with the run so far on its totals. */
  ghost predicate Agrees(m: ContractState, t: TokenState, now: nat, books: Tally, accounts: seq<Address>)
    reads m
  {
    && BalancesAgree(m.balances, t.balances, accounts)
    && AllowancesAgree(m.allowances, t.approvals, now, accounts)
    && m.sumOfMints == books.minted
    && m.sumOfBurns == books.burned
    && books.lapsed == 0
  }

  function DataOf(m: ContractState, admin: Address): InstanceData {
    InstanceData(Some(admin), Some(Metadata(m.decimals, m.name, m.symbol)))
  }

  /** Between commands every balance entry is good for 29 more days, and the instance for one more hop. */
  ghost predicate Standing(e: Env, accounts: seq<Address>, data: InstanceData)
    reads e`sequence, e`timestamp, e`instance, e`balances, e`allowances, e`steps
  {
    && e.Valid()
    && Settled(e.Snapshot(), accounts, data, e.sequence + BALANCE_LIFETIME_THRESHOLD)
    && e.sequence + MAX_LEDGERS_TO_ADVANCE <= e.instance.value.liveUntil
  }

  /** The invariant of a fuzzing run between commands: the token stands, and the mirror agrees with it. */
  ghost predicate InLockstep(e: Env, m: ContractState, accounts: seq<Address>)
    reads e, m
  {
    && |accounts| > 0
    && Standing(e, accounts, DataOf(m, accounts[0]))
    && Agrees(m, View(e.Snapshot()), e.sequence, e.Books(), accounts)
  }

  /** The calls that commands are made of, on behalf of and between listed accounts. */
  predicate Ordinary(c: Call, accounts: seq<Address>) {
    match c
    case Mint(to, _) => to in accounts
    case Approve(from, spender, _, _) => from in accounts && spender in accounts
    case Transfer(from, to, _) => from in accounts && to in accounts
    case TransferFrom(spender, from, to, _) => spender in accounts && from in accounts && to in accounts
    case Burn(from, _) => from in accounts
    case BurnFrom(spender, from, _) => spender in accounts && from in accounts
    case _ => false
  }

  lemma CallKeepsSettled(
    h: SorobanHost, l: Ledger, auths: set<Address>, c: Call, r: Result<Reply>, l': Ledger,
    accounts: seq<Address>, data: InstanceData)
    requires Settled(l, accounts, data, l.sequence + BALANCE_LIFETIME_THRESHOLD)
    requires data.admin.Some? && Ordinary(c, accounts) && CallSpec(h, l, auths, c, r, l')
    ensures Settled(l', accounts, data, l'.sequence + BALANCE_LIFETIME_THRESHOLD)
    ensures l'.sequence == l.sequence && l'.timestamp == l.timestamp
    ensures l.instance.value.liveUntil <= l'.instance.value.liveUntil
  {
    if r.Ok? {
      AppliedAdmin(View(l), l.sequence, auths, c);
      assert l'.instance.value.value == InstanceData(View(l').admin, View(l').metadata);
    }
  }

  /** What a successful call of this kind does to balances and approvals. */
  ghost predicate Effect(t: TokenState, now: nat, c: Call, t': TokenState) {
    match c
    case Mint(to, amount) =>
      0 <= amount && Credited(t.balances, to, amount) == Ok(t'.balances) && t'.approvals == t.approvals
    case Approve(from, spender, amount, expirationLedger) =>
      && 0 <= amount && (amount > 0 ==> now <= expirationLedger)
      && t'.balances == t.balances
      && t'.approvals == t.approvals[AllowanceKey(from, spender) := AllowanceValue(amount, expirationLedger)]
    case Transfer(from, to, amount) =>
      0 <= amount && Moved(t.balances, from, to, amount) == Ok(t'.balances) && t'.approvals == t.approvals
    case TransferFrom(spender, from, to, amount) =>
      && 0 <= amount && Moved(t.balances, from, to, amount) == Ok(t'.balances)
      && Drawn(t.approvals, AllowanceKey(from, spender), now, amount) == Ok(t'.approvals)
    case Burn(from, amount) =>
      0 <= amount && Debited(t.balances, from, amount) == Ok(t'.balances) && t'.approvals == t.approvals
    case BurnFrom(spender, from, amount) =>
      && 0 <= amount && Debited(t.balances, from, amount) == Ok(t'.balances)
      && Drawn(t.approvals, AllowanceKey(from, spender), now, amount) == Ok(t'.approvals)
    case _ => false
  }

  lemma CallHasEffect(h: SorobanHost, l: Ledger, auths: set<Address>, c: Call, r: Result<Reply>, l': Ledger, accounts: seq<Address>)
    requires Ordinary(c, accounts) && CallSpec(h, l, auths, c, r, l') && r.Ok?
    ensures Effect(View(l), l.sequence, c, View(l'))
  {
  }

  lemma CreditAgrees(mirrored: map<Address, int>, b: map<Address, int>, accounts: seq<Address>, to: Address, amount: int)
    requires BalancesAgree(mirrored, b, accounts) && to in accounts && Credited(b, to, amount).Ok?
    ensures BalancesAgree(mirrored[to := Balance(mirrored, to) + amount], Credited(b, to, amount).value, accounts)
  {
  }

  lemma DebitAgrees(mirrored: map<Address, int>, b: map<Address, int>, accounts: seq<Address>, from: Address, amount: int)
    requires BalancesAgree(mirrored, b, accounts) && from in accounts && Debited(b, from, amount).Ok?
    ensures BalancesAgree(mirrored[from := Balance(mirrored, from) - amount], Debited(b, from, amount).value, accounts)
  {
  }

  /** The mirror debits and then credits; for a transfer to oneself that, too, comes out even. */
  lemma MoveAgrees(
    mirrored: map<Address, int>, b: map<Address, int>, accounts: seq<Address>, from: Address, to: Address, amount: int)
    requires BalancesAgree(mirrored, b, accounts) && from in accounts && to in accounts && Moved(b, from, to, amount).Ok?
    ensures
      var debited := mirrored[from := Balance(mirrored, from) - amount];
      && Balance(debited, to) + amount == Balance(Moved(b, from, to, amount).value, to)
      && BalancesAgree(debited[to := Balance(debited, to) + amount], Moved(b, from, to, amount).value, accounts)
  {
  }

  lemma DrawAgrees(
    mirrored: map<AllowanceKey, int>, a: map<AllowanceKey, AllowanceValue>, now: nat, accounts: seq<Address>,
    from: Address, spender: Address, amount: int)
    requires AllowancesAgree(mirrored, a, now, accounts) && from in accounts && spender in accounts
    requires 0 <= amount && Drawn(a, AllowanceKey(from, spender), now, amount).Ok?
    ensures
      var k := AllowanceKey(from, spender);
      && Granted(mirrored, k) - amount >= 0
      && AllowancesAgree(mirrored[k := Granted(mirrored, k) - amount], Drawn(a, k, now, amount).value, now, accounts)
  {
  }

  lemma ApprovalAgrees(
    mirrored: map<AllowanceKey, int>, a: map<AllowanceKey, AllowanceValue>, now: nat, accounts: seq<Address>,
    k: AllowanceKey, amount: int, expirationLedger: nat)
    requires AllowancesAgree(mirrored, a, now, accounts)
    requires amount >= 0 && (amount > 0 ==> now <= expirationLedger)
    ensures AllowancesAgree(mirrored[k := amount], a[k := AllowanceValue(amount, expirationLedger)], now, accounts)
  {
  }
}
