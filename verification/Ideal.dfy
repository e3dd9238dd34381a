/**
 The token without lifetimes, run through a whole history: `IdealOf` folds `Token.Apply` over the calls
 of a run and lets time do nothing but move the clock. `RunIsIdeal` proves that the token on
 time-limited storage cannot be told from it, and `IdealExactly` that this is so exactly as long as no
 balance has expired.
 */
module Ideal {
  import opened Prelude
  import opened Host
  import opened Token
  import opened Supply
  import opened Runs

  datatype IdealToken = IdealToken(now: nat, state: TokenState)

  function IdealAfter(t: IdealToken, event: Event): IdealToken {
    match event
    case Advance(ledgers) => t.(now := t.now + ledgers)
    case Invoke(auths, call) =>
      match Apply(t.state, t.now, auths, call)
      case Ok(outcome) => t.(state := outcome.0)
      case Err(_) => t
  }

  /** What the ideal token answers to a call. */
  function IdealReply(t: IdealToken, auths: set<Address>, c: Call): Result<Reply> {
    match Apply(t.state, t.now, auths, c)
    case Ok(outcome) => Ok(outcome.1)
    case Err(e) => Err(e)
  }

  /** The ideal token after a history. A call whose lifetimes the host declined to extend was not served and does not count. */
  function IdealOf(sequence: nat, steps: seq<Step>): IdealToken {
    if steps == [] then IdealToken(sequence, TokenState(None, None, map[], map[]))
    else if Last(steps).reply == Err(TtlRefused) then IdealOf(sequence, Prior(steps))
    else IdealAfter(IdealOf(sequence, Prior(steps)), Last(steps).event)
  }

  /******* States that no caller can tell apart *******/

  ghost predicate SameBalances(b: map<Address, int>, b': map<Address, int>) {
    forall id :: Balance(b, id) == Balance(b', id)
  }

  ghost predicate SameAllowances(a: map<AllowanceKey, AllowanceValue>, a': map<AllowanceKey, AllowanceValue>, now: nat) {
    forall k :: Usable(a, k, now) == Usable(a', k, now)
  }

  ghost predicate Alike(t: TokenState, u: TokenState, now: nat) {
    && t.admin == u.admin
    && t.metadata == u.metadata
    && SameBalances(t.balances, u.balances)
    && SameAllowances(t.approvals, u.approvals, now)
  }

  lemma SameAfterPut(b: map<Address, int>, b': map<Address, int>, id: Address, amount: int)
    requires SameBalances(b, b')
    ensures SameBalances(b[id := amount], b'[id := amount])
  {
    var c, c' := b[id := amount], b'[id := amount];
    forall x ensures Balance(c, x) == Balance(c', x) {
      assert Balance(b, x) == Balance(b', x);
    }
  }

  lemma SameAfterWrite(
    a: map<AllowanceKey, AllowanceValue>, a': map<AllowanceKey, AllowanceValue>, now: nat, k: AllowanceKey,
    v: AllowanceValue, v': AllowanceValue)
    requires SameAllowances(a, a', now) && (v == v' || (v.amount == 0 && v'.amount == 0))
    ensures SameAllowances(a[k := v], a'[k := v'], now)
  {
    var c, c' := a[k := v], a'[k := v'];
    forall x ensures Usable(c, x, now) == Usable(c', x, now) {
      assert Usable(a, x, now) == Usable(a', x, now);
    }
  }

  /** Whether and how an update succeeds depends on the balances alone, not on which of them are stored. */
  lemma SameUpdates(b: map<Address, int>, b': map<Address, int>, from: Address, to: Address, amount: int)
    requires SameBalances(b, b')
    ensures BothSame(Credited(b, to, amount), Credited(b', to, amount))
    ensures BothSame(Debited(b, from, amount), Debited(b', from, amount))
    ensures BothSame(Moved(b, from, to, amount), Moved(b', from, to, amount))
  {
    assert Balance(b, from) == Balance(b', from) && Balance(b, to) == Balance(b', to);
    SameAfterPut(b, b', to, Balance(b, to) + amount);
    SameAfterPut(b, b', from, Balance(b, from));
    SameAfterPut(b, b', from, Balance(b, from) - amount);
    SameAfterPut(b[from := Balance(b, from) - amount], b'[from := Balance(b, from) - amount], to, Balance(b, to) + amount);
  }

  ghost predicate BothSame(r: Result<map<Address, int>>, r': Result<map<Address, int>>) {
    match r
    case Err(e) => r' == r
    case Ok(b) => r'.Ok? && SameBalances(b, r'.value)
  }

  ghost predicate NonNegative(a: map<AllowanceKey, AllowanceValue>) {
    forall k :: k in a ==> 0 <= a[k].amount
  }

  lemma SameInForce(a: map<AllowanceKey, AllowanceValue>, a': map<AllowanceKey, AllowanceValue>, now: nat, k: AllowanceKey)
    requires SameAllowances(a, a', now) && NonNegative(a) && NonNegative(a')
    ensures InForce(a, k, now).amount == InForce(a', k, now).amount
  {
    assert Usable(a, k, now) == Usable(a', k, now);
  }

  lemma SameDraws(
    a: map<AllowanceKey, AllowanceValue>, a': map<AllowanceKey, AllowanceValue>, now: nat, k: AllowanceKey, amount: int)
    requires SameAllowances(a, a', now) && NonNegative(a) && NonNegative(a') && 0 <= amount
    ensures
      match Drawn(a, k, now, amount)
      case Err(e) => Drawn(a', k, now, amount) == Err(e)
      case Ok(drawn) => Drawn(a', k, now, amount).Ok? && SameAllowances(drawn, Drawn(a', k, now, amount).value, now)
  {
    SameInForce(a, a', now, k);
    assert Usable(a, k, now) == Usable(a', k, now);
    var g, g' := InForce(a, k, now), InForce(a', k, now);
    if amount <= g.amount {
      SameAfterWrite(
        a, a', now, k, AllowanceValue(g.amount - amount, g.expirationLedger), AllowanceValue(g'.amount - amount, g'.expirationLedger));
    }
  }

  /** The same answer to a call, and states that are still alike. */
  ghost predicate SameOutcome(r: Result<(TokenState, Reply)>, r': Result<(TokenState, Reply)>, now: nat) {
    match r
    case Err(e) => r' == Err(e)
    case Ok(outcome) => r'.Ok? && r'.value.1 == outcome.1 && Alike(outcome.0, r'.value.0, now)
  }

  /** Alike states give the same answer to any call, and stay alike. */
  lemma ApplyAlike(t: TokenState, u: TokenState, now: nat, auths: set<Address>, c: Call)
    requires Alike(t, u, now) && NonNegative(t.approvals) && NonNegative(u.approvals)
    ensures SameOutcome(Apply(t, now, auths, c), Apply(u, now, auths, c), now)
  {
    match c
    case Mint(to, amount) => SameUpdates(t.balances, u.balances, to, to, amount);
    case Transfer(from, to, amount) => SameUpdates(t.balances, u.balances, from, to, amount);
    case Burn(from, amount) => SameUpdates(t.balances, u.balances, from, from, amount);
    case TransferFrom(_, _, _, _) => DrawAlike(t, u, now, auths, c);
    case BurnFrom(_, _, _) => DrawAlike(t, u, now, auths, c);
    case Approve(from, spender, amount, expirationLedger) =>
      var v := AllowanceValue(amount, expirationLedger);
      SameAfterWrite(t.approvals, u.approvals, now, AllowanceKey(from, spender), v, v);
    case AllowanceOf(from, spender) => SameInForce(t.approvals, u.approvals, now, AllowanceKey(from, spender));
    case _ =>
  }

  lemma DrawAlike(t: TokenState, u: TokenState, now: nat, auths: set<Address>, c: Call)
    requires Alike(t, u, now) && NonNegative(t.approvals) && NonNegative(u.approvals)
    requires c.TransferFrom? || c.BurnFrom?
    ensures SameOutcome(Apply(t, now, auths, c), Apply(u, now, auths, c), now)
  {
    SameUpdates(t.balances, u.balances, c.from, if c.TransferFrom? then c.to else c.from, c.amount);
    if 0 <= c.amount {
      SameDraws(t.approvals, u.approvals, now, AllowanceKey(c.from, c.spender), c.amount);
    }
  }

  /** Time does not tell the ledger from the ideal token, which it does not touch, unless a balance expires. */
  lemma ElapseAlike(t: TokenState, l: Ledger, ledgers: nat)
    requires Sound(l) && Alike(t, View(l), l.sequence) && Elapse(l, ledgers).instance.Some?
    requires SameBalances(View(l).balances, View(Elapse(l, ledgers)).balances)
    ensures Alike(t, View(Elapse(l, ledgers)), l.sequence + ledgers)
  {
    var l' := Elapse(l, ledgers);
    forall k ensures Usable(t.approvals, k, l'.sequence) == Usable(View(l').approvals, k, l'.sequence) {
      assert Usable(t.approvals, k, l.sequence) == Usable(View(l).approvals, k, l.sequence);
      LaterUsable(t.approvals, k, l.sequence, ledgers);
      ElapsedUsable(l, ledgers, k);
    }
  }

  /** What is usable later is what is usable now, unless it expires. */
  lemma LaterUsable(a: map<AllowanceKey, AllowanceValue>, k: AllowanceKey, now: nat, ledgers: nat)
    ensures Usable(a, k, now + ledgers) == Unexpired(Usable(a, k, now), now + ledgers)
  {
  }

  function Unexpired(v: Option<AllowanceValue>, now: nat): Option<AllowanceValue> {
    if v.Some? && v.value.expirationLedger < now then None else v
  }

  lemma ElapsedUsable(l: Ledger, ledgers: nat, k: AllowanceKey)
    requires Sound(l)
    ensures Usable(View(Elapse(l, ledgers)).approvals, k, l.sequence + ledgers)
      == Unexpired(Usable(View(l).approvals, k, l.sequence), l.sequence + ledgers)
  {
    if k in l.allowances {
      assert View(l).approvals[k] == l.allowances[k].value;
    }
  }

  /******* Whole runs *******/

  /** A ledger in step with the ideal token. */
  ghost predicate InStep(l: Ledger, t: IdealToken) {
    && t.now == l.sequence
    && l.instance.Some?
    && Solvent(t.state)
    && Alike(t.state, View(l), t.now)
  }

  /** What that means to a caller. */
  ghost predicate Tells(l: Ledger, t: IdealToken) {
    && l.sequence == t.now
    && View(l).admin == t.state.admin
    && View(l).metadata == t.state.metadata
    && (forall id :: BalanceAt(l, id) == Balance(t.state.balances, id))
    && (forall k :: AllowanceAt(l, k) == InForce(t.state.approvals, k, t.now).amount)
  }

  lemma InStepTells(l: Ledger, t: IdealToken)
    requires Sound(l) && InStep(l, t)
    ensures Tells(l, t)
  {
    forall k ensures AllowanceAt(l, k) == InForce(t.state.approvals, k, t.now).amount {
      SameInForce(t.state.approvals, View(l).approvals, t.now, k);
    }
  }

  /** A call keeps the ledger in step and, unless the host declines to serve it, is answered as the ideal token would. */
  lemma CallInStep(h: SorobanHost, l: Ledger, s: Step, t: IdealToken)
    requires Sound(l) && InStep(l, t) && IsStep(h, l, s) && s.event.Invoke?
    ensures s.reply == Err(TtlRefused) ==> InStep(s.after, t)
    ensures s.reply != Err(TtlRefused) ==>
      s.reply == IdealReply(t, s.event.auths, s.event.call) && InStep(s.after, IdealAfter(t, s.event))
  {
    var auths, c := s.event.auths, s.event.call;
    ApplyAlike(t.state, View(l), t.now, auths, c);
    if Apply(t.state, t.now, auths, c).Ok? {
      ApplyKeepsSolvent(t.state, t.now, auths, c);
    }
  }

  lemma TimeInStep(h: SorobanHost, l: Ledger, s: Step, t: IdealToken)
    requires Sound(l) && InStep(l, t) && IsStep(h, l, s) && s.event.Advance?
    requires s.after.instance.Some? && LapsedBy(l, s) == 0
    ensures InStep(s.after, IdealAfter(t, s.event))
  {
    forall id ensures Balance(View(l).balances, id) == Balance(View(s.after).balances, id) {
      StepLoss(l, s, id);
      StepBalance(h, l, s, id);
    }
    ElapseAlike(t.state, l, s.event.ledgers);
  }

  /** An instance that is there has always been there. */
  lemma InstanceWasThere(h: SorobanHost, l: Ledger, s: Step)
    requires IsStep(h, l, s) && s.after.instance.Some?
    ensures l.instance.Some?
  {
  }

  lemma {:induction false} RunInStep(h: SorobanHost, start: Ledger, steps: seq<Step>)
    requires IsRun(h, start, steps) && Lapsed(start, steps) == 0 && LedgerAfter(start, steps).instance.Some?
    ensures InStep(LedgerAfter(start, steps), IdealOf(start.sequence, steps))
  {
    RunBegins(h, start, steps);
    if steps != [] {
      var l, s := LedgerAfter(start, Prior(steps)), Last(steps);
      RunUnfolds(h, start, steps);
      ReachableIsSound(h, start, Prior(steps));
      LossIsNonNegative(h, start, Prior(steps));
      StepLossIsNonNegative(l, s);
      InstanceWasThere(h, l, s);
      RunInStep(h, start, Prior(steps));
      if s.event.Invoke? {
        CallInStep(h, l, s, IdealOf(start.sequence, Prior(steps)));
      } else {
        TimeInStep(h, l, s, IdealOf(start.sequence, Prior(steps)));
      }
    }
  }

  /**
   As long as no balance has expired and the instance is there, the token on time-limited storage says
   what the token without lifetimes says: same administrator and metadata, same balances, and, whatever
   has been purged, same allowances.
   */
  lemma RunIsIdeal(h: SorobanHost, start: Ledger, steps: seq<Step>)
    requires IsRun(h, start, steps) && Lapsed(start, steps) == 0 && LedgerAfter(start, steps).instance.Some?
    ensures Tells(LedgerAfter(start, steps), IdealOf(start.sequence, steps))
  {
    RunInStep(h, start, steps);
    ReachableIsSound(h, start, steps);
    InStepTells(LedgerAfter(start, steps), IdealOf(start.sequence, steps));
  }

  /** And it answers every call that the host serves as the token without lifetimes would. */
  lemma RepliesAreIdeal(h: SorobanHost, start: Ledger, steps: seq<Step>)
    requires IsRun(h, start, steps) && steps != []
    requires Lapsed(start, Prior(steps)) == 0 && LedgerAfter(start, Prior(steps)).instance.Some?
    requires Last(steps).event.Invoke? && Last(steps).reply != Err(TtlRefused)
    ensures Last(steps).reply ==
      IdealReply(IdealOf(start.sequence, Prior(steps)), Last(steps).event.auths, Last(steps).event.call)
  {
    RunUnfolds(h, start, steps);
    RunInStep(h, start, Prior(steps));
    ReachableIsSound(h, start, Prior(steps));
    CallInStep(h, LedgerAfter(start, Prior(steps)), Last(steps), IdealOf(start.sequence, Prior(steps)));
  }

  /** The two agree at the end of the run and at every point before it. */
  ghost predicate AlwaysTells(start: Ledger, steps: seq<Step>) {
    && Tells(LedgerAfter(start, steps), IdealOf(start.sequence, steps))
    && (steps != [] ==> AlwaysTells(start, Prior(steps)))
  }

  /** The condition is exact: the two agree all the way if and only if no balance has expired on the way. */
  lemma {:induction false} IdealExactly(h: SorobanHost, start: Ledger, steps: seq<Step>)
    requires IsRun(h, start, steps) && LedgerAfter(start, steps).instance.Some?
    ensures AlwaysTells(start, steps) <==> Lapsed(start, steps) == 0
  {
    if steps == [] {
      RunIsIdeal(h, start, steps);
    } else {
      var l, s := LedgerAfter(start, Prior(steps)), Last(steps);
      RunUnfolds(h, start, steps);
      ReachableIsSound(h, start, Prior(steps));
      InstanceWasThere(h, l, s);
      IdealExactly(h, start, Prior(steps));
      LossIsNonNegative(h, start, Prior(steps));
      StepLossIsNonNegative(l, s);
      if Lapsed(start, steps) == 0 {
        RunIsIdeal(h, start, steps);
      } else if AlwaysTells(start, steps) {
        AgreementNeedsNoLoss(h, l, s, IdealOf(start.sequence, Prior(steps)));
      }
    }
  }

  /** If the ledger agrees with the ideal token before and after a step, the step has lost nothing. */
  lemma AgreementNeedsNoLoss(h: SorobanHost, l: Ledger, s: Step, t: IdealToken)
    requires Sound(l) && IsStep(h, l, s) && Tells(l, t)
    requires s.event.Advance? ==> Tells(s.after, IdealAfter(t, s.event))
    ensures LapsedBy(l, s) == 0
  {
    if s.event.Advance? {
      var b := View(l).balances;
      var lost := b - (b.Keys - LapsedAccounts(l, l.sequence + s.event.ledgers));
      forall id | id in lost ensures lost[id] == 0 {
        StepBalance(h, l, s, id);
      }
      TotalOfNothing(lost);
    }
  }
}
