/**
 The token as its callers see it. `TokenState` has no lifetimes and forgets nothing; `Apply` gives,
 call by call, the one condition under which the call succeeds and its one effect. `CallSpec` says
 what an invocation on real, time-limited storage may do. The code of the contract (modules
 `BalanceStore`, `AllowanceStore` and `TokenContract`) is proved to keep to it.
 */
module Token {
  import opened Prelude
  import opened Host

  type Address(==, !new)

  datatype AllowanceKey = AllowanceKey(from: Address, spender: Address)
  datatype AllowanceValue = AllowanceValue(amount: int, expirationLedger: nat)
  datatype Metadata = Metadata(decimal: nat, name: string, symbol: string)
  datatype InstanceData = InstanceData(admin: Option<Address>, metadata: Option<Metadata>)

  /** A ledger snapshot: the clock and the token's entries in the three storage classes. */
  datatype Ledger = Ledger(
    sequence: nat,
    timestamp: nat,
    instance: Option<Entry<InstanceData>>,
    balances: map<Address, Entry<int>>,
    allowances: map<AllowanceKey, Entry<AllowanceValue>>)

  datatype Call =
    | Initialize(admin: Address, decimal: nat, name: string, symbol: string)
    | Mint(to: Address, amount: i128)
    | SetAdmin(newAdmin: Address)
    | Approve(from: Address, spender: Address, amount: i128, expirationLedger: nat)
    | Transfer(from: Address, to: Address, amount: i128)
    | TransferFrom(spender: Address, from: Address, to: Address, amount: i128)
    | Burn(from: Address, amount: i128)
    | BurnFrom(spender: Address, from: Address, amount: i128)
    | AllowanceOf(from: Address, spender: Address)
    | BalanceOf(id: Address)

  datatype Reply = Done | Amount(value: int)

  /******* The token without lifetimes *******/

  datatype TokenState = TokenState(
    admin: Option<Address>,
    metadata: Option<Metadata>,
    balances: map<Address, int>,
    approvals: map<AllowanceKey, AllowanceValue>)

  function Balance(balances: map<Address, int>, id: Address): int {
    if id in balances then balances[id] else 0
  }

  /** The allowance in force at ledger `now`: an approval past its expiration counts for nothing. */
  function InForce(approvals: map<AllowanceKey, AllowanceValue>, k: AllowanceKey, now: nat): AllowanceValue {
    if k !in approvals then AllowanceValue(0, 0)
    else if approvals[k].expirationLedger < now then AllowanceValue(0, approvals[k].expirationLedger)
    else approvals[k]
  }

  function Credited(balances: map<Address, int>, to: Address, amount: int): Result<map<Address, int>> {
    if Balance(balances, to) + amount > I128_MAX then Err(Overflow)
    else Ok(balances[to := Balance(balances, to) + amount])
  }

  function Debited(balances: map<Address, int>, from: Address, amount: int): Result<map<Address, int>> {
    if Balance(balances, from) < amount then Err(InsufficientBalance)
    else Ok(balances[from := Balance(balances, from) - amount])
  }

  /** Moving tokens. To oneself it changes nothing, and it cannot overflow. */
  function Moved(balances: map<Address, int>, from: Address, to: Address, amount: int): Result<map<Address, int>> {
    if Balance(balances, from) < amount then Err(InsufficientBalance)
    else if from == to then Ok(balances[from := Balance(balances, from)])
    else if Balance(balances, to) + amount > I128_MAX then Err(Overflow)
    else Ok(balances[from := Balance(balances, from) - amount][to := Balance(balances, to) + amount])
  }

  /** Using up part of the allowance in force. */
  function Drawn(approvals: map<AllowanceKey, AllowanceValue>, k: AllowanceKey, now: nat, amount: int)
    : Result<map<AllowanceKey, AllowanceValue>>
  {
    var g := InForce(approvals, k, now);
    if g.amount < amount then Err(InsufficientAllowance)
    else Ok(approvals[k := AllowanceValue(g.amount - amount, g.expirationLedger)])
  }

  function Guard(authorised: bool, amount: int): Result<()> {
    if !authorised then Err(Unauthorized) else if amount < 0 then Err(NegativeAmount) else Ok(())
  }

  /** The outcome of a call at ledger `now` that carries the authorisation of `auths`. */
  function Apply(t: TokenState, now: nat, auths: set<Address>, c: Call): Result<(TokenState, Reply)> {
    match c
    case Initialize(admin, decimal, name, symbol) =>
      if t.admin.Some? then Err(AlreadyInitialized)
      else if decimal > 255 then Err(DecimalTooLarge)
      else Ok((t.(admin := Some(admin), metadata := Some(Metadata(decimal, name, symbol))), Done))
    case Mint(to, amount) =>
      if amount < 0 then Err(NegativeAmount)
      else if t.admin.None? then Err(NoAdministrator)
      else if t.admin.value !in auths then Err(Unauthorized)
      else
        var b :- Credited(t.balances, to, amount);
        Ok((t.(balances := b), Done))
    case SetAdmin(newAdmin) =>
      if t.admin.None? then Err(NoAdministrator)
      else if t.admin.value !in auths then Err(Unauthorized)
      else Ok((t.(admin := Some(newAdmin)), Done))
    case Approve(from, spender, amount, expirationLedger) =>
      var _ :- Guard(from in auths, amount);
      if amount > 0 && expirationLedger < now then Err(ExpirationInPast)
      else
        var a := t.approvals[AllowanceKey(from, spender) := AllowanceValue(amount, expirationLedger)];
        Ok((t.(approvals := a), Done))
    case Transfer(from, to, amount) =>
      var _ :- Guard(from in auths, amount);
      var b :- Moved(t.balances, from, to, amount);
      Ok((t.(balances := b), Done))
    case TransferFrom(spender, from, to, amount) =>
      var _ :- Guard(spender in auths, amount);
      var a :- Drawn(t.approvals, AllowanceKey(from, spender), now, amount);
      var b :- Moved(t.balances, from, to, amount);
      Ok((t.(balances := b, approvals := a), Done))
    case Burn(from, amount) =>
      var _ :- Guard(from in auths, amount);
      var b :- Debited(t.balances, from, amount);
      Ok((t.(balances := b), Done))
    case BurnFrom(spender, from, amount) =>
      var _ :- Guard(spender in auths, amount);
      var a :- Drawn(t.approvals, AllowanceKey(from, spender), now, amount);
      var b :- Debited(t.balances, from, amount);
      Ok((t.(balances := b, approvals := a), Done))
    case AllowanceOf(from, spender) =>
      Ok((t, Amount(InForce(t.approvals, AllowanceKey(from, spender), now).amount)))
    case BalanceOf(id) =>
      Ok((t, Amount(Balance(t.balances, id))))
  }

  /******* The token on the ledger *******/

  /** What a ledger says about the token once lifetimes are disregarded. */
  function View(l: Ledger): TokenState {
    TokenState(
      if l.instance.Some? then l.instance.value.value.admin else None,
      if l.instance.Some? then l.instance.value.value.metadata else None,
      Values(l.balances),
      Values(l.allowances))
  }

  function BalanceAt(l: Ledger, id: Address): int {
    Balance(View(l).balances, id)
  }

  function AllowanceAt(l: Ledger, k: AllowanceKey): int {
    InForce(View(l).approvals, k, l.sequence).amount
  }

  /** Every amount on the books is non-negative and fits the token's 128-bit integers. */
  ghost predicate Solvent(t: TokenState) {
    && (forall id :: id in t.balances ==> 0 <= t.balances[id] <= I128_MAX)
    && (forall k :: k in t.approvals ==> 0 <= t.approvals[k].amount <= I128_MAX)
  }

  /**
   Holds of every reachable ledger (`Runs.ReachableIsSound`). The last clause is what makes purging
   harmless: an allowance entry outlives its approval whenever the approval is worth anything.
   */
  ghost predicate Sound(l: Ledger) {
    && Solvent(View(l))
    && (View(l).admin.Some? <==> View(l).metadata.Some?)
    && (l.instance.Some? ==> l.sequence <= l.instance.value.liveUntil)
    && (forall id :: id in l.balances ==> l.sequence <= l.balances[id].liveUntil)
    && AllowancesOutliveApprovals(l.sequence, l.allowances)
  }

  ghost predicate AllowancesOutliveApprovals(now: nat, m: map<AllowanceKey, Entry<AllowanceValue>>) {
    && (forall k :: k in m ==> now <= m[k].liveUntil)
    && (forall k :: k in m && m[k].value.amount > 0 ==> m[k].value.expirationLedger <= m[k].liveUntil)
  }

  /** The accounts whose balance entry a call reads or writes, and so keeps alive. */
  function Touched(c: Call): set<Address> {
    match c
    case Mint(to, _) => {to}
    case Transfer(from, to, _) => {from, to}
    case TransferFrom(_, from, to, _) => {from, to}
    case Burn(from, _) => {from}
    case BurnFrom(_, from, _) => {from}
    case BalanceOf(id) => {id}
    case _ => {}
  }

  /** The pairs whose allowance entry a call writes. */
  function Written(c: Call): set<AllowanceKey> {
    match c
    case Approve(from, spender, _, _) => {AllowanceKey(from, spender)}
    case TransferFrom(spender, from, _, _) => {AllowanceKey(from, spender)}
    case BurnFrom(spender, from, _) => {AllowanceKey(from, spender)}
    case _ => {}
  }

  /** No lifetime shrinks, touched accounts are good for 29 days, and nobody else's entry changes or appears. */
  ghost predicate BalancesKept(now: nat, m: map<Address, Entry<int>>, m': map<Address, Entry<int>>, touched: set<Address>) {
    && (forall id :: id in m ==> id in m' && m[id].liveUntil <= m'[id].liveUntil)
    && (forall id :: id in m' && id in touched ==> now + BALANCE_LIFETIME_THRESHOLD <= m'[id].liveUntil)
    && (forall id :: id in m' && id !in touched ==> id in m && m'[id] == m[id])
  }

  /** The same for allowances, whose entries must outlive the approvals they store. */
  ghost predicate AllowancesKept(
    now: nat, m: map<AllowanceKey, Entry<AllowanceValue>>, m': map<AllowanceKey, Entry<AllowanceValue>>,
    written: set<AllowanceKey>)
  {
    && (forall k :: k in m ==> k in m' && m[k].liveUntil <= m'[k].liveUntil)
    && (forall k :: k in m' && k !in written ==> k in m && m'[k] == m[k])
    && AllowancesOutliveApprovals(now, m')
  }

  /** Lifetimes after a successful call. Every entry point but `initialize` renews the instance. */
  ghost predicate LifetimesKept(l: Ledger, c: Call, l': Ledger) {
    && l'.sequence == l.sequence
    && l'.timestamp == l.timestamp
    && l.instance.Some? && l'.instance.Some?
    && l.instance.value.liveUntil <= l'.instance.value.liveUntil
    && (!c.Initialize? ==> l.sequence + INSTANCE_LIFETIME_THRESHOLD <= l'.instance.value.liveUntil)
    && BalancesKept(l.sequence, l.balances, l'.balances, Touched(c))
    && AllowancesKept(l.sequence, l.allowances, l'.allowances, Written(c))
  }

  /** The host declines to keep the allowance entry `k` alive up to its expiration ledger. */
  ghost predicate ExtensionRefused(
    h: SorobanHost, now: nat, m: map<AllowanceKey, Entry<AllowanceValue>>, k: AllowanceKey, expirationLedger: nat)
  {
    && now <= expirationLedger
    && var liveUntil := if k in m then m[k].liveUntil else h.newLiveUntil(Temporary, now);
       var liveFor := expirationLedger - now;
       h.extendTtl(Temporary, now, liveUntil, liveFor, liveFor).None?
  }

  ghost predicate DrawRefused(
    h: SorobanHost, now: nat, m: map<AllowanceKey, Entry<AllowanceValue>>, k: AllowanceKey, amount: int)
  {
    var g := InForce(Values(m), k, now);
    0 <= amount < g.amount && ExtensionRefused(h, now, m, k, g.expirationLedger)
  }

  /** The call would have to store a positive allowance that the host does not keep alive. */
  ghost predicate AllowanceRefused(h: SorobanHost, l: Ledger, c: Call) {
    match c
    case Approve(from, spender, amount, expirationLedger) =>
      amount > 0 && ExtensionRefused(h, l.sequence, l.allowances, AllowanceKey(from, spender), expirationLedger)
    case TransferFrom(spender, from, _, amount) => DrawRefused(h, l.sequence, l.allowances, AllowanceKey(from, spender), amount)
    case BurnFrom(spender, from, amount) => DrawRefused(h, l.sequence, l.allowances, AllowanceKey(from, spender), amount)
    case _ => false
  }

  /** The contract's code ran from `l` to `l'` and answered `r`; after an error `l'` is unspecified. */
  ghost predicate Performs(h: SorobanHost, l: Ledger, auths: set<Address>, c: Call, r: Result<Reply>, l': Ledger) {
    match r
    case Ok(reply) =>
      && Apply(View(l), l.sequence, auths, c) == Ok((View(l'), reply))
      && LifetimesKept(l, c, l')
      && !AllowanceRefused(h, l, c)
    case Err(e) =>
      if e == TtlRefused then (h.servedUntil < l.sequence && !c.Initialize?) || AllowanceRefused(h, l, c)
      else Apply(View(l), l.sequence, auths, c) == Err(e)
  }

  /** One invocation: an error of any kind leaves the whole ledger, lifetimes included, as it was. */
  ghost predicate CallSpec(h: SorobanHost, l: Ledger, auths: set<Address>, c: Call, r: Result<Reply>, l': Ledger) {
    && (r.Err? ==> l' == l)
    && if l.instance.None? then r == Err(ContractMissing) else Performs(h, l, auths, c, r, l')
  }

  /******* The passing of time *******/

  const SECONDS_PER_LEDGER: nat := 5

  /** A day's ledgers take a day, and the token's thresholds and bumps are whole days. */
  lemma LedgersMakeDays()
    ensures SECONDS_PER_LEDGER * DAY_IN_LEDGERS == 24 * 60 * 60
    ensures INSTANCE_LIFETIME_THRESHOLD == 6 * DAY_IN_LEDGERS && INSTANCE_BUMP_AMOUNT == 7 * DAY_IN_LEDGERS
    ensures BALANCE_LIFETIME_THRESHOLD == 29 * DAY_IN_LEDGERS && BALANCE_BUMP_AMOUNT == 30 * DAY_IN_LEDGERS
  {
  }

  /** Time moves on by `ledgers`, and what has outlived its lifetime is purged. */
  function Elapse(l: Ledger, ledgers: nat): Ledger {
    var now := l.sequence + ledgers;
    Ledger(
      now,
      l.timestamp + SECONDS_PER_LEDGER * ledgers,
      if l.instance.Some? && now <= l.instance.value.liveUntil then l.instance else None,
      Purge(l.balances, now),
      Purge(l.allowances, now))
  }

  /******* Properties of a single step *******/

  lemma ApplyKeepsSolvent(t: TokenState, now: nat, auths: set<Address>, c: Call)
    requires Solvent(t) && Apply(t, now, auths, c).Ok?
    ensures Solvent(Apply(t, now, auths, c).value.0)
  {
  }

  lemma CallKeepsSound(h: SorobanHost, l: Ledger, auths: set<Address>, c: Call, r: Result<Reply>, l': Ledger)
    requires Sound(l) && CallSpec(h, l, auths, c, r, l')
    ensures Sound(l')
  {
    if r.Ok? {
      ApplyKeepsSolvent(View(l), l.sequence, auths, c);
    }
  }

  lemma ElapseKeepsSound(l: Ledger, ledgers: nat)
    requires Sound(l)
    ensures Sound(Elapse(l, ledgers))
  {
    var l' := Elapse(l, ledgers);
    assert forall id :: id in View(l').balances ==> View(l').balances[id] == View(l).balances[id];
    assert forall k :: k in View(l').approvals ==> View(l').approvals[k] == View(l).approvals[k];
  }

  /** Purging on the way changes nothing: two hops are one jump. */
  lemma HopsAreOneJump(l: Ledger, first: nat, second: nat)
    ensures Elapse(Elapse(l, first), second) == Elapse(l, first + second)
  {
    var stepped, jumped := Elapse(Elapse(l, first), second), Elapse(l, first + second);
    assert stepped.balances == jumped.balances;
    assert stepped.allowances == jumped.allowances;
  }

  /**
   Time takes an allowance only to zero, and exactly when it was positive and its expiration ledger
   is now in the past; whether the entry was purged makes no difference.
   */
  lemma ElapsedAllowance(l: Ledger, ledgers: nat, k: AllowanceKey)
    requires Sound(l)
    ensures
      var g := InForce(View(l).approvals, k, l.sequence);
      var l' := Elapse(l, ledgers);
      && AllowanceAt(l', k) == (if g.expirationLedger < l'.sequence then 0 else AllowanceAt(l, k))
      && (AllowanceAt(l', k) != AllowanceAt(l, k) <==> AllowanceAt(l, k) > 0 && g.expirationLedger < l'.sequence)
  {
    var l' := Elapse(l, ledgers);
    if k in l.allowances {
      var e := l.allowances[k];
      assert View(l).approvals[k] == e.value;
      assert k in l'.allowances ==> View(l').approvals[k] == e.value;
    }
  }

  /** Time takes a balance away only if its entry has run out of lifetime. */
  lemma ElapsedBalance(l: Ledger, ledgers: nat, id: Address)
    ensures BalanceAt(Elapse(l, ledgers), id) ==
      if id in l.balances && l.balances[id].liveUntil < l.sequence + ledgers then 0 else BalanceAt(l, id)
  {
  }

  /** A call on a served ledger succeeds exactly when the token allows it and the host keeps the allowance alive. */
  lemma SuccessExactly(h: SorobanHost, l: Ledger, auths: set<Address>, c: Call, r: Result<Reply>, l': Ledger)
    requires CallSpec(h, l, auths, c, r, l')
    requires l.instance.Some? && l.sequence <= h.servedUntil
    ensures r.Ok? <==> Apply(View(l), l.sequence, auths, c).Ok? && !AllowanceRefused(h, l, c)
    ensures r.Err? && r.error != TtlRefused ==> Apply(View(l), l.sequence, auths, c) == Err(r.error)
  {
  }

  /** The conditions of `transfer_from`, spelled out. The recipient's sum is taken after the debit. */
  lemma TransferFromSucceedsExactlyWhen(
    h: SorobanHost, l: Ledger, auths: set<Address>, spender: Address, from: Address, to: Address, amount: i128,
    r: Result<Reply>, l': Ledger)
    requires Sound(l) && l.instance.Some? && l.sequence <= h.servedUntil
    requires CallSpec(h, l, auths, TransferFrom(spender, from, to, amount), r, l')
    requires !AllowanceRefused(h, l, TransferFrom(spender, from, to, amount))
    ensures r.Ok? <==>
      && spender in auths
      && 0 <= amount
      && amount <= AllowanceAt(l, AllowanceKey(from, spender))
      && amount <= BalanceAt(l, from)
      && BalanceAt(l, to) - (if to == from then amount else 0) + amount <= I128_MAX
    ensures r.Err? ==> r.error in {Unauthorized, NegativeAmount, InsufficientAllowance, InsufficientBalance, Overflow}
  {
    SuccessExactly(h, l, auths, TransferFrom(spender, from, to, amount), r, l');
    assert from in l.balances ==> View(l).balances[from] == l.balances[from].value;
  }

  /**
   The two halves of a composite command. Once an approval has been accepted, drawing the same amount
   at the same ledger cannot fail for want of allowance; if it succeeds nothing of the allowance is
   left, and if it fails the approval stands as it was given.
   */
  lemma ApprovedAmountCanBeDrawn(
    h: SorobanHost, l0: Ledger, auths0: set<Address>, approval: Call, r0: Result<Reply>, l1: Ledger,
    auths1: set<Address>, draw: Call, r1: Result<Reply>, l2: Ledger)
    requires Sound(l0)
    requires approval.Approve? && CallSpec(h, l0, auths0, approval, r0, l1) && r0.Ok?
    requires draw.TransferFrom? || draw.BurnFrom?
    requires draw.from == approval.from && draw.spender == approval.spender && draw.amount == approval.amount
    requires CallSpec(h, l1, auths1, draw, r1, l2)
    ensures AllowanceAt(l1, AllowanceKey(approval.from, approval.spender)) == approval.amount
    ensures r1.Ok? ==> AllowanceAt(l2, AllowanceKey(approval.from, approval.spender)) == 0
    ensures r1.Err? ==>
      && r1.error !in {InsufficientAllowance, ExpirationInPast, NegativeAmount}
      && AllowanceAt(l2, AllowanceKey(approval.from, approval.spender)) == approval.amount
  {
    ApprovalIsInForce(View(l0), l0.sequence, auths0, approval);
    if r1 != Err(TtlRefused) {
      DrawOfWholeAllowance(View(l1), l1.sequence, auths1, draw);
    }
  }

  lemma ApprovalIsInForce(t: TokenState, now: nat, auths: set<Address>, c: Call)
    requires c.Approve? && Apply(t, now, auths, c).Ok?
    ensures 0 <= c.amount
    ensures InForce(Apply(t, now, auths, c).value.0.approvals, AllowanceKey(c.from, c.spender), now).amount == c.amount
  {
  }

  lemma DrawOfWholeAllowance(t: TokenState, now: nat, auths: set<Address>, c: Call)
    requires (c.TransferFrom? || c.BurnFrom?) && 0 <= c.amount
    requires InForce(t.approvals, AllowanceKey(c.from, c.spender), now).amount == c.amount
    ensures
      match Apply(t, now, auths, c)
      case Ok(v) => InForce(v.0.approvals, AllowanceKey(c.from, c.spender), now).amount == 0
      case Err(e) => e in {Unauthorized, InsufficientBalance, Overflow}
  {
  }
}
