/**
 What each call of the token comes to, in terms of administrator, balances and allowances before and
 after it. For every call: exactly when it succeeds on a ledger that the host serves, everything that
 success changes, and which condition an error reports. A call that fails changes nothing.
 */
module Laws {
  import opened Prelude
  import opened Host
  import opened Token

  /******* What may change *******/

  ghost predicate InstanceStands(l: Ledger, l': Ledger) {
    View(l').admin == View(l).admin && View(l').metadata == View(l).metadata
  }

  ghost predicate BalancesStand(l: Ledger, l': Ledger) {
    forall id :: BalanceAt(l', id) == BalanceAt(l, id)
  }

  ghost predicate AllowancesStand(l: Ledger, l': Ledger) {
    forall k :: AllowanceAt(l', k) == AllowanceAt(l, k)
  }

  /** `amount` has gone from one account to another; without a sender or a recipient, from or to nowhere. */
  ghost predicate Shifted(l: Ledger, l': Ledger, from: Option<Address>, to: Option<Address>, amount: int) {
    forall id :: BalanceAt(l', id) ==
      BalanceAt(l, id) - (if from == Some(id) then amount else 0) + (if to == Some(id) then amount else 0)
  }

  /** One allowance, and no other, is now `amount`. */
  ghost predicate AllowanceSet(l: Ledger, l': Ledger, k: AllowanceKey, amount: int) {
    forall x :: AllowanceAt(l', x) == if x == k then amount else AllowanceAt(l, x)
  }

  /** What the recipient would have to hold after a transfer; the sender's debit comes first. */
  function SumAfterDebit(l: Ledger, from: Address, to: Address, amount: int): int {
    BalanceAt(l, to) + if from == to then 0 else amount
  }

  /** The host declines to keep the pair's allowance entry alive up to an expiration that lies ahead. */
  ghost predicate Declined(h: SorobanHost, l: Ledger, k: AllowanceKey, expirationLedger: nat) {
    && l.sequence <= expirationLedger
    && var ledgers := expirationLedger - l.sequence;
       var liveUntil := if k in l.allowances then l.allowances[k].liveUntil else h.newLiveUntil(Temporary, l.sequence);
       h.extendTtl(Temporary, l.sequence, liveUntil, ledgers, ledgers) == None
  }

  /** The same for what a draw of `amount` would leave. Nothing left needs no keeping alive. */
  ghost predicate RestDeclined(h: SorobanHost, l: Ledger, k: AllowanceKey, amount: int) {
    k in l.allowances && 0 <= amount < AllowanceAt(l, k) && Declined(h, l, k, l.allowances[k].value.expirationLedger)
  }

  /******* Administration *******/

  lemma InitializeLaw(
    h: SorobanHost, l: Ledger, auths: set<Address>, admin: Address, decimal: nat, name: string, symbol: string,
    r: Result<Reply>, l': Ledger)
    requires l.instance.Some? && CallSpec(h, l, auths, Call.Initialize(admin, decimal, name, symbol), r, l')
    ensures r.Ok? <==> View(l).admin.None? && decimal <= 255
    ensures r.Ok? ==>
      && View(l').admin == Some(admin)
      && View(l').metadata == Some(Metadata(decimal, name, symbol))
      && BalancesStand(l, l') && AllowancesStand(l, l')
    ensures r.Err? ==>
      && l' == l
      && match r.error
         case AlreadyInitialized => View(l).admin.Some?
         case DecimalTooLarge => decimal > 255
         case _ => false
  {
  }

  lemma SetAdminLaw(
    h: SorobanHost, l: Ledger, auths: set<Address>, newAdmin: Address, r: Result<Reply>, l': Ledger)
    requires l.instance.Some? && CallSpec(h, l, auths, Call.SetAdmin(newAdmin), r, l')
    ensures l.sequence <= h.servedUntil ==> (r.Ok? <==> View(l).admin.Some? && View(l).admin.value in auths)
    ensures r.Ok? ==>
      && View(l).admin.Some? && View(l).admin.value in auths
      && View(l').admin == Some(newAdmin)
      && View(l').metadata == View(l).metadata
      && BalancesStand(l, l') && AllowancesStand(l, l')
    ensures r.Err? ==>
      && l' == l
      && match r.error
         case NoAdministrator => View(l).admin.None?
         case Unauthorized => View(l).admin.Some? && View(l).admin.value !in auths
         case TtlRefused => h.servedUntil < l.sequence
         case _ => false
  {
  }

  lemma MintLaw(
    h: SorobanHost, l: Ledger, auths: set<Address>, to: Address, amount: i128, r: Result<Reply>, l': Ledger)
    requires l.instance.Some? && CallSpec(h, l, auths, Call.Mint(to, amount), r, l')
    ensures l.sequence <= h.servedUntil ==>
      (r.Ok? <==>
        && View(l).admin.Some? && View(l).admin.value in auths
        && 0 <= amount && BalanceAt(l, to) + amount <= I128_MAX)
    ensures r.Ok? ==>
      && View(l).admin.Some? && View(l).admin.value in auths && 0 <= amount
      && InstanceStands(l, l') && AllowancesStand(l, l')
      && Shifted(l, l', None, Some(to), amount)
    ensures r.Err? ==>
      && l' == l
      && match r.error
         case NegativeAmount => amount < 0
         case NoAdministrator => View(l).admin.None?
         case Unauthorized => View(l).admin.Some? && View(l).admin.value !in auths
         case Overflow => BalanceAt(l, to) + amount > I128_MAX
         case TtlRefused => h.servedUntil < l.sequence
         case _ => false
  {
  }

  /******* Transfers and burns *******/

  lemma TransferLaw(
    h: SorobanHost, l: Ledger, auths: set<Address>, from: Address, to: Address, amount: i128, r: Result<Reply>, l': Ledger)
    requires Sound(l) && l.instance.Some? && CallSpec(h, l, auths, Call.Transfer(from, to, amount), r, l')
    ensures l.sequence <= h.servedUntil ==>
      (r.Ok? <==>
        from in auths && 0 <= amount <= BalanceAt(l, from) && SumAfterDebit(l, from, to, amount) <= I128_MAX)
    ensures r.Ok? ==>
      && from in auths && 0 <= amount <= BalanceAt(l, from)
      && InstanceStands(l, l') && AllowancesStand(l, l')
      && Shifted(l, l', Some(from), Some(to), amount)
    ensures r.Err? ==>
      && l' == l
      && match r.error
         case Unauthorized => from !in auths
         case NegativeAmount => amount < 0
         case InsufficientBalance => BalanceAt(l, from) < amount
         case Overflow => SumAfterDebit(l, from, to, amount) > I128_MAX
         case TtlRefused => h.servedUntil < l.sequence
         case _ => false
  {
    BalanceFits(l, to);
  }

  lemma BurnLaw(
    h: SorobanHost, l: Ledger, auths: set<Address>, from: Address, amount: i128, r: Result<Reply>, l': Ledger)
    requires l.instance.Some? && CallSpec(h, l, auths, Call.Burn(from, amount), r, l')
    ensures l.sequence <= h.servedUntil ==> (r.Ok? <==> from in auths && 0 <= amount <= BalanceAt(l, from))
    ensures r.Ok? ==>
      && from in auths && 0 <= amount <= BalanceAt(l, from)
      && InstanceStands(l, l') && AllowancesStand(l, l')
      && Shifted(l, l', Some(from), None, amount)
    ensures r.Err? ==>
      && l' == l
      && match r.error
         case Unauthorized => from !in auths
         case NegativeAmount => amount < 0
         case InsufficientBalance => BalanceAt(l, from) < amount
         case TtlRefused => h.servedUntil < l.sequence
         case _ => false
  {
  }

  lemma BalanceFits(l: Ledger, id: Address)
    requires Sound(l)
    ensures 0 <= BalanceAt(l, id) <= I128_MAX
  {
    assert id in l.balances ==> View(l).balances[id] == l.balances[id].value;
  }

  /******* Allowances *******/

  lemma ApproveLaw(
    h: SorobanHost, l: Ledger, auths: set<Address>, from: Address, spender: Address, amount: i128, expirationLedger: nat,
    r: Result<Reply>, l': Ledger)
    requires l.instance.Some? && CallSpec(h, l, auths, Call.Approve(from, spender, amount, expirationLedger), r, l')
    ensures
      var k := AllowanceKey(from, spender);
      && (l.sequence <= h.servedUntil ==>
            (r.Ok? <==>
              && from in auths && 0 <= amount
              && (amount > 0 ==> l.sequence <= expirationLedger && !Declined(h, l, k, expirationLedger))))
      && (r.Ok? ==>
            && from in auths && 0 <= amount && (amount > 0 ==> l.sequence <= expirationLedger)
            && InstanceStands(l, l') && BalancesStand(l, l')
            && AllowanceSet(l, l', k, amount)
            && k in l'.allowances && l'.allowances[k].value == AllowanceValue(amount, expirationLedger))
      && (r.Err? ==>
            && l' == l
            && match r.error
               case Unauthorized => from !in auths
               case NegativeAmount => amount < 0
               case ExpirationInPast => amount > 0 && expirationLedger < l.sequence
               case TtlRefused => h.servedUntil < l.sequence || (amount > 0 && Declined(h, l, k, expirationLedger))
               case _ => false)
  {
    var k := AllowanceKey(from, spender);
    if r.Ok? {
      assert View(l').approvals[k] == AllowanceValue(amount, expirationLedger);
      assert k in l'.allowances;
    }
  }

  lemma TransferFromLaw(
    h: SorobanHost, l: Ledger, auths: set<Address>, spender: Address, from: Address, to: Address, amount: i128,
    r: Result<Reply>, l': Ledger)
    requires Sound(l) && l.instance.Some? && CallSpec(h, l, auths, Call.TransferFrom(spender, from, to, amount), r, l')
    ensures
      var k := AllowanceKey(from, spender);
      && (l.sequence <= h.servedUntil ==>
            (r.Ok? <==>
              && spender in auths && 0 <= amount <= AllowanceAt(l, k) && !RestDeclined(h, l, k, amount)
              && amount <= BalanceAt(l, from) && SumAfterDebit(l, from, to, amount) <= I128_MAX))
      && (r.Ok? ==>
            && spender in auths && 0 <= amount <= AllowanceAt(l, k) && amount <= BalanceAt(l, from)
            && InstanceStands(l, l')
            && Shifted(l, l', Some(from), Some(to), amount)
            && AllowanceSet(l, l', k, AllowanceAt(l, k) - amount))
      && (r.Err? ==>
            && l' == l
            && match r.error
               case Unauthorized => spender !in auths
               case NegativeAmount => amount < 0
               case InsufficientAllowance => AllowanceAt(l, k) < amount
               case InsufficientBalance => BalanceAt(l, from) < amount
               case Overflow => SumAfterDebit(l, from, to, amount) > I128_MAX
               case TtlRefused => h.servedUntil < l.sequence || RestDeclined(h, l, k, amount)
               case _ => false)
  {
    BalanceFits(l, to);
    RefusalIsDeclined(h, l, AllowanceKey(from, spender), amount);
    if r.Ok? {
      DrawEffect(h, l, auths, Call.TransferFrom(spender, from, to, amount), r, l');
    }
  }

  /** What a successful delegated spend takes off the allowance. */
  lemma DrawnLeaves(a: map<AllowanceKey, AllowanceValue>, k: AllowanceKey, now: nat, amount: int, x: AllowanceKey)
    requires 0 <= amount && Drawn(a, k, now, amount).Ok?
    ensures InForce(Drawn(a, k, now, amount).value, x, now).amount ==
      InForce(a, x, now).amount - if x == k then amount else 0
  {
  }

  /** A successful delegated spend shifts the amount, and takes it off the allowance. */
  lemma DrawEffect(h: SorobanHost, l: Ledger, auths: set<Address>, c: Call, r: Result<Reply>, l': Ledger)
    requires c.TransferFrom? || c.BurnFrom?
    requires CallSpec(h, l, auths, c, r, l') && r.Ok?
    ensures Shifted(l, l', Some(c.from), if c.TransferFrom? then Some(c.to) else None, c.amount)
    ensures
      var k := AllowanceKey(c.from, c.spender);
      AllowanceSet(l, l', k, AllowanceAt(l, k) - c.amount)
  {
    var k := AllowanceKey(c.from, c.spender);
    forall x ensures AllowanceAt(l', x) == if x == k then AllowanceAt(l, k) - c.amount else AllowanceAt(l, x) {
      DrawnLeaves(View(l).approvals, k, l.sequence, c.amount, x);
    }
  }

  lemma BurnFromLaw(
    h: SorobanHost, l: Ledger, auths: set<Address>, spender: Address, from: Address, amount: i128,
    r: Result<Reply>, l': Ledger)
    requires Sound(l) && l.instance.Some? && CallSpec(h, l, auths, Call.BurnFrom(spender, from, amount), r, l')
    ensures
      var k := AllowanceKey(from, spender);
      && (l.sequence <= h.servedUntil ==>
            (r.Ok? <==>
              && spender in auths && 0 <= amount <= AllowanceAt(l, k) && !RestDeclined(h, l, k, amount)
              && amount <= BalanceAt(l, from)))
      && (r.Ok? ==>
            && spender in auths && 0 <= amount <= AllowanceAt(l, k) && amount <= BalanceAt(l, from)
            && InstanceStands(l, l')
            && Shifted(l, l', Some(from), None, amount)
            && AllowanceSet(l, l', k, AllowanceAt(l, k) - amount))
      && (r.Err? ==>
            && l' == l
            && match r.error
               case Unauthorized => spender !in auths
               case NegativeAmount => amount < 0
               case InsufficientAllowance => AllowanceAt(l, k) < amount
               case InsufficientBalance => BalanceAt(l, from) < amount
               case TtlRefused => h.servedUntil < l.sequence || RestDeclined(h, l, k, amount)
               case _ => false)
  {
    RefusalIsDeclined(h, l, AllowanceKey(from, spender), amount);
    if r.Ok? {
      DrawEffect(h, l, auths, Call.BurnFrom(spender, from, amount), r, l');
    }
  }

  lemma RefusalIsDeclined(h: SorobanHost, l: Ledger, k: AllowanceKey, amount: int)
    requires Sound(l)
    ensures DrawRefused(h, l.sequence, l.allowances, k, amount) <==> RestDeclined(h, l, k, amount)
  {
    assert k in l.allowances ==> View(l).approvals[k] == l.allowances[k].value;
  }

  /******* Questions *******/

  /** The answer about a balance is what the ledger stores. */
  lemma BalanceOfLaw(h: SorobanHost, l: Ledger, auths: set<Address>, id: Address, r: Result<Reply>, l': Ledger)
    requires l.instance.Some? && CallSpec(h, l, auths, Call.BalanceOf(id), r, l')
    ensures l.sequence <= h.servedUntil ==> r.Ok?
    ensures r.Ok? ==>
      && r.value == Amount(if id in l.balances then l.balances[id].value else 0)
      && InstanceStands(l, l') && BalancesStand(l, l') && AllowancesStand(l, l')
    ensures r.Err? ==> l' == l && r.error == TtlRefused && h.servedUntil < l.sequence
  {
  }

  /** The answer about an allowance is what the ledger stores, up to and including the expiration ledger. */
  lemma AllowanceOfLaw(
    h: SorobanHost, l: Ledger, auths: set<Address>, from: Address, spender: Address, r: Result<Reply>, l': Ledger)
    requires l.instance.Some? && CallSpec(h, l, auths, Call.AllowanceOf(from, spender), r, l')
    ensures l.sequence <= h.servedUntil ==> r.Ok?
    ensures
      var k := AllowanceKey(from, spender);
      r.Ok? ==>
        && r.value == Amount(
             if k in l.allowances && l.sequence <= l.allowances[k].value.expirationLedger then l.allowances[k].value.amount
             else 0)
        && InstanceStands(l, l') && BalancesStand(l, l') && AllowancesStand(l, l')
    ensures r.Err? ==> l' == l && r.error == TtlRefused && h.servedUntil < l.sequence
  {
  }

  /**
   An accepted approval can be read back at any later ledger up to its expiration, and at none after it,
   however often entries have been purged in between.
   */
  lemma ApprovalLastsUntilItExpires(
    h: SorobanHost, l: Ledger, auths: set<Address>, from: Address, spender: Address, amount: i128, expirationLedger: nat,
    r: Result<Reply>, l1: Ledger, ledgers: nat, auths': set<Address>, answer: Result<Reply>, l2: Ledger)
    requires Sound(l) && CallSpec(h, l, auths, Call.Approve(from, spender, amount, expirationLedger), r, l1) && r.Ok?
    requires CallSpec(h, Elapse(l1, ledgers), auths', Call.AllowanceOf(from, spender), answer, l2) && answer.Ok?
    ensures answer.value == Amount(if l.sequence + ledgers <= expirationLedger then amount else 0)
  {
    ApproveLaw(h, l, auths, from, spender, amount, expirationLedger, r, l1);
    CallKeepsSound(h, l, auths, Call.Approve(from, spender, amount, expirationLedger), r, l1);
    AllowanceOfLaw(h, Elapse(l1, ledgers), auths', from, spender, answer, l2);
  }
}
