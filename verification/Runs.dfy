/**
 Whole runs of the token: any mix of calls, by anyone, with any authorisations, and of time passing
 with expired entries purged. Main results:

 - `AllowanceFollowsHistory`: the readable allowance is the latest approval less what was drawn since,
   until that approval expires; lifetimes and purging never show.
 - `BalanceFollowsHistory`: every balance is what the successful calls made it, less what expired.
 - `SupplyIsConserved`: balances plus lapsed balances equal mints minus burns.
 - `AdminFollowsHistory`: the administrator is that of the latest `set_admin`, or of `initialize`.
 - `BalanceFallsOnlyWithAuthority`, `SupplyRisesOnlyWithAdmin`, `AdminChangesOnlyWithAdmin`.
 */
module Runs {
  import opened Prelude
  import opened Host
  import opened Token
  import opened Supply
  import opened Laws

  datatype Event = Invoke(auths: set<Address>, call: Call) | Advance(ledgers: nat)

  /** One step of a run: what happened, what was answered, and the ledger it left. */
  datatype Step = Step(event: Event, reply: Result<Reply>, after: Ledger)

  function Prior(steps: seq<Step>): seq<Step>
    requires steps != []
  {
    steps[..|steps| - 1]
  }

  function Last(steps: seq<Step>): Step
    requires steps != []
  {
    steps[|steps| - 1]
  }

  function LedgerAfter(start: Ledger, steps: seq<Step>): Ledger {
    if steps == [] then start else Last(steps).after
  }

  ghost predicate IsStep(h: SorobanHost, l: Ledger, s: Step) {
    match s.event
    case Invoke(auths, call) => CallSpec(h, l, auths, call, s.reply, s.after)
    case Advance(ledgers) => s.reply == Ok(Done) && s.after == Elapse(l, ledgers)
  }

  /** A ledger on which the contract has just been registered and has not run yet. */
  ghost predicate Registered(start: Ledger) {
    && start.instance.Some?
    && start.instance.value.value == InstanceData(None, None)
    && start.sequence + MAX_LEDGERS_TO_ADVANCE <= start.instance.value.liveUntil
    && start.balances == map[]
    && start.allowances == map[]
  }

  /** A run starts on a lawful host with the contract just registered; after that, step `i` follows from what is before it. */
  ghost predicate RunHolds(h: SorobanHost, start: Ledger, steps: seq<Step>, i: nat)
    requires i <= |steps|
  {
    if i == 0 then Lawful(h) && Registered(start)
    else IsStep(h, LedgerAfter(start, steps[..i - 1]), steps[i - 1])
  }

  ghost predicate IsRun(h: SorobanHost, start: Ledger, steps: seq<Step>) {
    forall i: nat {:trigger RunHolds(h, start, steps, i)} :: i <= |steps| ==> RunHolds(h, start, steps, i)
  }

  lemma RunBegins(h: SorobanHost, start: Ledger, steps: seq<Step>)
    ensures IsRun(h, start, steps) ==> Lawful(h) && Registered(start)
    ensures Lawful(h) && Registered(start) ==> IsRun(h, start, [])
  {
    assert IsRun(h, start, steps) ==> RunHolds(h, start, steps, 0);
  }

  /** Taking the last step off a run. */
  lemma RunUnfolds(h: SorobanHost, start: Ledger, steps: seq<Step>)
    requires IsRun(h, start, steps) && steps != []
    ensures IsRun(h, start, Prior(steps))
    ensures IsStep(h, LedgerAfter(start, Prior(steps)), Last(steps))
  {
    assert RunHolds(h, start, steps, |steps|);
    forall i: nat | i <= |Prior(steps)| ensures RunHolds(h, start, Prior(steps), i) {
      assert RunHolds(h, start, steps, i);
      if i > 0 {
        assert Prior(steps)[..i - 1] == steps[..i - 1];
      }
    }
  }

  /** Adding a step to a run. */
  lemma RunExtended(h: SorobanHost, start: Ledger, steps: seq<Step>, s: Step)
    requires IsRun(h, start, steps) && IsStep(h, LedgerAfter(start, steps), s)
    ensures IsRun(h, start, steps + [s])
  {
    forall i: nat | i <= |steps + [s]| ensures RunHolds(h, start, steps + [s], i) {
      if i <= |steps| {
        assert RunHolds(h, start, steps, i);
        if i > 0 {
          assert (steps + [s])[..i - 1] == steps[..i - 1];
        }
      } else {
        assert (steps + [s])[..i - 1] == steps;
      }
    }
  }

  lemma {:induction false} ReachableIsSound(h: SorobanHost, start: Ledger, steps: seq<Step>)
    requires IsRun(h, start, steps)
    ensures Sound(LedgerAfter(start, steps))
  {
    RunBegins(h, start, steps);
    if steps != [] {
      RunUnfolds(h, start, steps);
      ReachableIsSound(h, start, Prior(steps));
      StepKeepsSound(h, LedgerAfter(start, Prior(steps)), Last(steps));
    }
  }

  lemma StepKeepsSound(h: SorobanHost, l: Ledger, s: Step)
    requires Sound(l) && IsStep(h, l, s)
    ensures Sound(s.after)
  {
    match s.event
    case Invoke(auths, call) => CallKeepsSound(h, l, auths, call, s.reply, s.after);
    case Advance(ledgers) => ElapseKeepsSound(l, ledgers);
  }

  /******* Allowances *******/

  /** What the call history says about a pair: its latest successful approval and the draws since. */
  datatype Grant =
    | NoGrant
    | Grant(index: nat, amount: int, expirationLedger: nat, drawn: int)

  function DrawnFrom(g: Grant, amount: int): Grant {
    if g.NoGrant? then g else g.(drawn := g.drawn + amount)
  }

  /** How a successful call, the `index`-th step of its run, changes the grant of the pair `k`. */
  function NextGrant(g: Grant, c: Call, index: nat, k: AllowanceKey): Grant {
    match c
    case Approve(from, spender, amount, expirationLedger) =>
      if AllowanceKey(from, spender) == k then Grant(index, amount, expirationLedger, 0) else g
    case TransferFrom(spender, from, _, amount) =>
      if AllowanceKey(from, spender) == k then DrawnFrom(g, amount) else g
    case BurnFrom(spender, from, amount) =>
      if AllowanceKey(from, spender) == k then DrawnFrom(g, amount) else g
    case _ => g
  }

  function GrantOf(steps: seq<Step>, k: AllowanceKey): Grant {
    if steps == [] then NoGrant
    else GrantAfter(GrantOf(Prior(steps), k), Last(steps), |steps| - 1, k)
  }

  function GrantAfter(g: Grant, s: Step, index: nat, k: AllowanceKey): Grant {
    if s.reply.Ok? && s.event.Invoke? then NextGrant(g, s.event.call, index, k) else g
  }

  /** The positive part of a grant at ledger `now`: amount left and expiration. */
  function Remaining(g: Grant, now: nat): Option<AllowanceValue> {
    if g.Grant? && g.amount > g.drawn && now <= g.expirationLedger
    then Some(AllowanceValue(g.amount - g.drawn, g.expirationLedger))
    else None
  }

  /** The positive part of the allowance in force. */
  function Usable(approvals: map<AllowanceKey, AllowanceValue>, k: AllowanceKey, now: nat): Option<AllowanceValue> {
    var g := InForce(approvals, k, now);
    if g.amount > 0 then Some(g) else None
  }

  ghost predicate GrantMatches(approvals: map<AllowanceKey, AllowanceValue>, now: nat, k: AllowanceKey, g: Grant) {
    && Usable(approvals, k, now) == Remaining(g, now)
    && (g.Grant? ==> 0 <= g.drawn <= g.amount)
  }

  lemma GrantMatchesAfterCall(
    t: TokenState, now: nat, auths: set<Address>, c: Call, index: nat, k: AllowanceKey, g: Grant)
    requires Solvent(t) && GrantMatches(t.approvals, now, k, g) && Apply(t, now, auths, c).Ok?
    ensures GrantMatches(Apply(t, now, auths, c).value.0.approvals, now, k, NextGrant(g, c, index, k))
  {
  }

  lemma GrantMatchesAfterTime(l: Ledger, ledgers: nat, k: AllowanceKey, g: Grant)
    requires Sound(l) && GrantMatches(View(l).approvals, l.sequence, k, g)
    ensures GrantMatches(View(Elapse(l, ledgers)).approvals, l.sequence + ledgers, k, g)
  {
    var l' := Elapse(l, ledgers);
    if k in l.allowances {
      assert View(l).approvals[k] == l.allowances[k].value;
      assert k in l'.allowances ==> View(l').approvals[k] == l.allowances[k].value;
    }
  }

  lemma GrantMatchesAfterStep(h: SorobanHost, l: Ledger, s: Step, index: nat, k: AllowanceKey, g: Grant)
    requires Sound(l) && IsStep(h, l, s) && GrantMatches(View(l).approvals, l.sequence, k, g)
    ensures GrantMatches(View(s.after).approvals, s.after.sequence, k, GrantAfter(g, s, index, k))
  {
    match s.event
    case Advance(ledgers) => GrantMatchesAfterTime(l, ledgers, k, g);
    case Invoke(auths, call) =>
      if s.reply.Ok? {
        GrantMatchesAfterCall(View(l), l.sequence, auths, call, index, k, g);
      }
  }

  lemma {:induction false} GrantMatchesLedger(h: SorobanHost, start: Ledger, steps: seq<Step>, k: AllowanceKey)
    requires IsRun(h, start, steps)
    ensures
      var l := LedgerAfter(start, steps);
      GrantMatches(View(l).approvals, l.sequence, k, GrantOf(steps, k))
  {
    RunBegins(h, start, steps);
    if steps != [] {
      RunUnfolds(h, start, steps);
      GrantMatchesLedger(h, start, Prior(steps), k);
      ReachableIsSound(h, start, Prior(steps));
      GrantMatchesAfterStep(
        h, LedgerAfter(start, Prior(steps)), Last(steps), |steps| - 1, k, GrantOf(Prior(steps), k));
    }
  }

  /** What a grant is worth at ledger `now`. */
  function Promised(g: Grant, now: nat): int {
    if g.NoGrant? || g.expirationLedger < now then 0 else g.amount - g.drawn
  }

  /**
   Delegated-spend cap, and the invisibility of purging: in every run the readable allowance of every
   pair is what was last approved less what has been drawn since, as long as the approval has not
   expired, and zero afterwards; no more than the approval is ever drawn.
   */
  lemma AllowanceFollowsHistory(h: SorobanHost, start: Ledger, steps: seq<Step>, k: AllowanceKey)
    requires IsRun(h, start, steps)
    ensures AllowanceAt(LedgerAfter(start, steps), k) == Promised(GrantOf(steps, k), LedgerAfter(start, steps).sequence)
    ensures GrantOf(steps, k).Grant? ==> 0 <= GrantOf(steps, k).drawn <= GrantOf(steps, k).amount
  {
    GrantMatchesLedger(h, start, steps, k);
    ReachableIsSound(h, start, steps);
  }

  /** A step in which the owner authorised, and got, an approval of `amount` for the pair `k`. */
  ghost predicate OwnerApproved(s: Step, k: AllowanceKey, amount: int, expirationLedger: nat) {
    && s.reply.Ok?
    && s.event.Invoke?
    && k.from in s.event.auths
    && s.event.call.Approve?
    && AllowanceKey(s.event.call.from, s.event.call.spender) == k
    && s.event.call.amount == amount
    && s.event.call.expirationLedger == expirationLedger
  }

  lemma ApprovalNeedsOwner(h: SorobanHost, l: Ledger, s: Step)
    requires IsStep(h, l, s) && s.reply.Ok? && s.event.Invoke? && s.event.call.Approve?
    ensures s.event.call.from in s.event.auths
  {
  }

  /** The grant of a pair always goes back to an approval that its owner authorised. */
  lemma {:induction false} GrantWasAuthorised(h: SorobanHost, start: Ledger, steps: seq<Step>, k: AllowanceKey)
    requires IsRun(h, start, steps)
    ensures
      match GrantOf(steps, k)
      case NoGrant => true
      case Grant(index, amount, expirationLedger, _) =>
        index < |steps| && OwnerApproved(steps[index], k, amount, expirationLedger)
  {
    if steps != [] {
      RunUnfolds(h, start, steps);
      GrantWasAuthorised(h, start, Prior(steps), k);
      var s := Last(steps);
      if s.reply.Ok? && s.event.Invoke? && s.event.call.Approve? {
        ApprovalNeedsOwner(h, LedgerAfter(start, Prior(steps)), s);
      }
    }
  }

  /** The pair and amount of a delegated spend. */
  function DrawOf(c: Call): Option<(AllowanceKey, int)> {
    match c
    case TransferFrom(spender, from, _, amount) => Some((AllowanceKey(from, spender), amount))
    case BurnFrom(spender, from, amount) => Some((AllowanceKey(from, spender), amount))
    case _ => None
  }

  /** A positive delegated spend finds an unexpired grant with that much of it still undrawn. */
  lemma DrawsStayWithinTheGrant(h: SorobanHost, start: Ledger, steps: seq<Step>)
    requires IsRun(h, start, steps) && steps != []
    requires Last(steps).event.Invoke? && Last(steps).reply.Ok?
    requires DrawOf(Last(steps).event.call).Some? && DrawOf(Last(steps).event.call).value.1 > 0
    ensures
      var (k, amount) := DrawOf(Last(steps).event.call).value;
      var g := GrantOf(Prior(steps), k);
      && g.Grant?
      && LedgerAfter(start, Prior(steps)).sequence <= g.expirationLedger
      && g.drawn + amount <= g.amount
  {
    RunUnfolds(h, start, steps);
    GrantMatchesLedger(h, start, Prior(steps), DrawOf(Last(steps).event.call).value.0);
  }

  /** The same event, which succeeded in both or in neither, unless it was a mere question. */
  ghost predicate SameCourseAt(s: Step, s': Step) {
    && s.event == s'.event
    && (s.event.Invoke? && !IsAccessor(s.event.call) ==> (s.reply.Ok? <==> s'.reply.Ok?))
  }

  /** Two runs with the same events in which the same state-changing calls succeeded. */
  ghost predicate SameCourse(steps: seq<Step>, steps': seq<Step>) {
    && |steps| == |steps'|
    && forall i :: 0 <= i < |steps| ==> SameCourseAt(steps[i], steps'[i])
  }

  /** On any two lawful hosts, however long either keeps its entries, the same course gives the same allowances. */
  lemma PurgingIsInvisible(
    h: SorobanHost, start: Ledger, steps: seq<Step>, h': SorobanHost, start': Ledger, steps': seq<Step>, k: AllowanceKey)
    requires IsRun(h, start, steps)
    requires IsRun(h', start', steps')
    requires start.sequence == start'.sequence && SameCourse(steps, steps')
    ensures AllowanceAt(LedgerAfter(start, steps), k) == AllowanceAt(LedgerAfter(start', steps'), k)
  {
    AllowanceFollowsHistory(h, start, steps, k);
    AllowanceFollowsHistory(h', start', steps', k);
    SameHistory(h, start, steps, h', start', steps', k);
  }

  lemma {:induction false} SameHistory(
    h: SorobanHost, start: Ledger, steps: seq<Step>, h': SorobanHost, start': Ledger, steps': seq<Step>, k: AllowanceKey)
    requires IsRun(h, start, steps) && IsRun(h', start', steps')
    requires start.sequence == start'.sequence && SameCourse(steps, steps')
    ensures GrantOf(steps, k) == GrantOf(steps', k)
    ensures LedgerAfter(start, steps).sequence == LedgerAfter(start', steps').sequence
  {
    if steps != [] {
      RunUnfolds(h, start, steps);
      RunUnfolds(h', start', steps');
      SameHistory(h, start, Prior(steps), h', start', Prior(steps'), k);
      SameStep(Last(steps), Last(steps'), GrantOf(Prior(steps), k), |steps| - 1, k);
      StepClock(h, LedgerAfter(start, Prior(steps)), Last(steps));
      StepClock(h', LedgerAfter(start', Prior(steps')), Last(steps'));
    }
  }

  lemma SameStep(s: Step, s': Step, g: Grant, index: nat, k: AllowanceKey)
    requires SameCourseAt(s, s')
    ensures GrantAfter(g, s, index, k) == GrantAfter(g, s', index, k)
  {
  }

  lemma StepClock(h: SorobanHost, l: Ledger, s: Step)
    requires IsStep(h, l, s)
    ensures s.after.sequence == l.sequence + if s.event.Advance? then s.event.ledgers else 0
  {
  }

  /******* Supply *******/

  function MintedBy(s: Step): int {
    if s.event.Invoke? && s.reply.Ok? && s.event.call.Mint? then s.event.call.amount else 0
  }

  function BurnedBy(s: Step): int {
    if s.event.Invoke? && s.reply.Ok? && (s.event.call.Burn? || s.event.call.BurnFrom?) then s.event.call.amount else 0
  }

  function Minted(steps: seq<Step>): int {
    if steps == [] then 0 else Minted(Prior(steps)) + MintedBy(Last(steps))
  }

  function Burned(steps: seq<Step>): int {
    if steps == [] then 0 else Burned(Prior(steps)) + BurnedBy(Last(steps))
  }

  /** The accounts whose balance entry runs out of lifetime when time moves on from `l` to `now`. */
  ghost function LapsedAccounts(l: Ledger, now: nat): set<Address> {
    set id | id in l.balances && l.balances[id].liveUntil < now
  }

  ghost function LapsedBy(l: Ledger, s: Step): int {
    if s.event.Invoke? then 0
    else
      var b := View(l).balances;
      Total(b - (b.Keys - LapsedAccounts(l, l.sequence + s.event.ledgers)))
  }

  ghost function Lapsed(start: Ledger, steps: seq<Step>): int {
    if steps == [] then 0
    else Lapsed(start, Prior(steps)) + LapsedBy(LedgerAfter(start, Prior(steps)), Last(steps))
  }

  ghost function SupplyOf(l: Ledger): int {
    Total(View(l).balances)
  }

  lemma AppliedSupply(t: TokenState, now: nat, auths: set<Address>, c: Call)
    requires Apply(t, now, auths, c).Ok?
    ensures Total(Apply(t, now, auths, c).value.0.balances) == Total(t.balances)
      + (if c.Mint? then c.amount else 0)
      - (if c.Burn? || c.BurnFrom? then c.amount else 0)
  {
    match c
    case Mint(to, amount) => TotalUpdated(t.balances, to, Balance(t.balances, to) + amount);
    case Transfer(from, to, amount) => TotalMoved(t.balances, from, to, amount);
    case TransferFrom(_, from, to, amount) => TotalMoved(t.balances, from, to, amount);
    case Burn(from, amount) => TotalUpdated(t.balances, from, Balance(t.balances, from) - amount);
    case BurnFrom(_, from, amount) => TotalUpdated(t.balances, from, Balance(t.balances, from) - amount);
    case _ =>
  }

  lemma StepSupply(h: SorobanHost, l: Ledger, s: Step)
    requires IsStep(h, l, s)
    ensures SupplyOf(s.after) + LapsedBy(l, s) == SupplyOf(l) + MintedBy(s) - BurnedBy(s)
  {
    match s.event
    case Invoke(auths, call) =>
      if s.reply.Ok? {
        AppliedSupply(View(l), l.sequence, auths, call);
      }
    case Advance(ledgers) =>
      var gone := LapsedAccounts(l, l.sequence + ledgers);
      TotalSplit(View(l).balances, gone);
      assert View(s.after).balances == View(l).balances - gone;
  }

  /** Conservation: whoever calls whom with whatever aliasing, tokens are only minted, burned or lapsed. */
  lemma {:induction false} SupplyIsConserved(h: SorobanHost, start: Ledger, steps: seq<Step>)
    requires IsRun(h, start, steps)
    ensures SupplyOf(LedgerAfter(start, steps)) + Lapsed(start, steps) == Minted(steps) - Burned(steps)
  {
    if steps == [] {
      RunBegins(h, start, steps);
      assert View(start).balances == map[];
    } else {
      RunUnfolds(h, start, steps);
      SupplyIsConserved(h, start, Prior(steps));
      StepSupply(h, LedgerAfter(start, Prior(steps)), Last(steps));
    }
  }

  /** A delegated spend of just what has been approved, by and from the same accounts. */
  ghost predicate DrawsOn(draw: Event, approval: Event) {
    && approval.Invoke? && approval.call.Approve?
    && draw.Invoke?
    && DrawOf(draw.call) == Some((AllowanceKey(approval.call.from, approval.call.spender), approval.call.amount))
  }

  /** How a draw of `amount` on an approval of `amount` ends, and what allowance it leaves. */
  ghost predicate DrawOutcome(amount: int, reply: Result<Reply>, allowance: int) {
    match reply
    case Ok(_) => allowance == 0
    case Err(e) => allowance == amount && e !in {InsufficientAllowance, ExpirationInPast, NegativeAmount}
  }

  /** An accepted approval, directly followed by a draw of the same amount. */
  lemma ApproveThenDraw(h: SorobanHost, start: Ledger, steps: seq<Step>)
    requires IsRun(h, start, steps) && |steps| >= 2
    requires Last(Prior(steps)).reply.Ok? && DrawsOn(Last(steps).event, Last(Prior(steps)).event)
    ensures
      var approval := Last(Prior(steps)).event.call;
      DrawOutcome(
        approval.amount, Last(steps).reply,
        AllowanceAt(LedgerAfter(start, steps), AllowanceKey(approval.from, approval.spender)))
  {
    var a, d := Last(Prior(steps)), Last(steps);
    RunUnfolds(h, start, steps);
    RunUnfolds(h, start, Prior(steps));
    ReachableIsSound(h, start, Prior(Prior(steps)));
    ApprovedAmountCanBeDrawn(
      h, LedgerAfter(start, Prior(Prior(steps))), a.event.auths, a.event.call, a.reply, a.after,
      d.event.auths, d.event.call, d.reply, d.after);
  }

  /** Neither the passing of time nor a question changes any grant. */
  lemma OnlyCallsMoveGrants(g: Grant, s: Step, index: nat, k: AllowanceKey)
    requires s.event.Advance? || IsAccessor(s.event.call)
    ensures GrantAfter(g, s, index, k) == g
  {
  }

  /******* Balances *******/

  /** What a successful call does to the balance of `id`. */
  function NetChange(c: Call, id: Address): int {
    match c
    case Mint(to, amount) => if to == id then amount else 0
    case Transfer(from, to, amount) => (if to == id then amount else 0) - (if from == id then amount else 0)
    case TransferFrom(_, from, to, amount) => (if to == id then amount else 0) - (if from == id then amount else 0)
    case Burn(from, amount) => 0 - (if from == id then amount else 0)
    case BurnFrom(_, from, amount) => 0 - (if from == id then amount else 0)
    case _ => 0
  }

  /** What all successful calls of a run have done to it. */
  function NetOf(steps: seq<Step>, id: Address): int {
    if steps == [] then 0
    else
      var s := Last(steps);
      NetOf(Prior(steps), id) + if s.reply.Ok? && s.event.Invoke? then NetChange(s.event.call, id) else 0
  }

  ghost function LapsedFromBy(l: Ledger, s: Step, id: Address): int {
    if s.event.Advance? && id in LapsedAccounts(l, l.sequence + s.event.ledgers) then BalanceAt(l, id) else 0
  }

  /** What the account has lost because its entry expired. */
  ghost function LapsedFrom(start: Ledger, steps: seq<Step>, id: Address): int {
    if steps == [] then 0
    else LapsedFrom(start, Prior(steps), id) + LapsedFromBy(LedgerAfter(start, Prior(steps)), Last(steps), id)
  }

  lemma AppliedBalance(t: TokenState, now: nat, auths: set<Address>, c: Call, id: Address)
    requires Apply(t, now, auths, c).Ok?
    ensures Balance(Apply(t, now, auths, c).value.0.balances, id) == Balance(t.balances, id) + NetChange(c, id)
  {
  }

  lemma StepBalance(h: SorobanHost, l: Ledger, s: Step, id: Address)
    requires IsStep(h, l, s)
    ensures BalanceAt(s.after, id) + LapsedFromBy(l, s, id) ==
      BalanceAt(l, id) + if s.reply.Ok? && s.event.Invoke? then NetChange(s.event.call, id) else 0
  {
    match s.event
    case Invoke(auths, call) =>
      if s.reply.Ok? {
        AppliedBalance(View(l), l.sequence, auths, call, id);
      }
    case Advance(ledgers) => ElapsedBalance(l, ledgers, id);
  }

  /** Every single balance follows from the history of successful calls, save what has expired. */
  lemma {:induction false} BalanceFollowsHistory(h: SorobanHost, start: Ledger, steps: seq<Step>, id: Address)
    requires IsRun(h, start, steps)
    ensures BalanceAt(LedgerAfter(start, steps), id) + LapsedFrom(start, steps, id) == NetOf(steps, id)
  {
    if steps == [] {
      RunBegins(h, start, steps);
    } else {
      RunUnfolds(h, start, steps);
      BalanceFollowsHistory(h, start, Prior(steps), id);
      StepBalance(h, LedgerAfter(start, Prior(steps)), Last(steps), id);
    }
  }

  /** Nobody loses more by expiry than is lost in all; if nothing is lost in all, nobody loses anything. */
  lemma {:induction false} LossIsShared(h: SorobanHost, start: Ledger, steps: seq<Step>, id: Address)
    requires IsRun(h, start, steps)
    ensures 0 <= LapsedFrom(start, steps, id) <= Lapsed(start, steps)
  {
    if steps != [] {
      RunUnfolds(h, start, steps);
      ReachableIsSound(h, start, Prior(steps));
      LossIsShared(h, start, Prior(steps), id);
      StepLoss(LedgerAfter(start, Prior(steps)), Last(steps), id);
    }
  }

  lemma StepLossIsNonNegative(l: Ledger, s: Step)
    requires Sound(l)
    ensures 0 <= LapsedBy(l, s)
  {
    if s.event.Advance? {
      var b := View(l).balances;
      TotalIsNonNegative(b - (b.Keys - LapsedAccounts(l, l.sequence + s.event.ledgers)));
    }
  }

  lemma {:induction false} LossIsNonNegative(h: SorobanHost, start: Ledger, steps: seq<Step>)
    requires IsRun(h, start, steps)
    ensures 0 <= Lapsed(start, steps)
  {
    if steps != [] {
      RunUnfolds(h, start, steps);
      ReachableIsSound(h, start, Prior(steps));
      LossIsNonNegative(h, start, Prior(steps));
      StepLossIsNonNegative(LedgerAfter(start, Prior(steps)), Last(steps));
    }
  }

  lemma StepLoss(l: Ledger, s: Step, id: Address)
    requires Sound(l)
    ensures 0 <= LapsedFromBy(l, s, id) <= LapsedBy(l, s)
  {
    StepLossIsNonNegative(l, s);
    if s.event.Advance? {
      var b, gone := View(l).balances, LapsedAccounts(l, l.sequence + s.event.ledgers);
      if id in gone {
        TotalWithout(b - (b.Keys - gone), id);
        TotalIsNonNegative(b - (b.Keys - gone) - {id});
      }
    }
  }

  /******* Authority *******/

  /**
   A call lowers a balance only with its owner's authorisation, or with that of a spender who draws on
   an unexpired approval which the owner authorised earlier in the run and which covers the loss.
   */
  lemma BalanceFallsOnlyWithAuthority(h: SorobanHost, start: Ledger, steps: seq<Step>, owner: Address)
    requires IsRun(h, start, steps) && steps != []
    requires Last(steps).event.Invoke?
    requires BalanceAt(Last(steps).after, owner) < BalanceAt(LedgerAfter(start, Prior(steps)), owner)
    ensures
      var before, s := LedgerAfter(start, Prior(steps)), Last(steps);
      || owner in s.event.auths
      || (&& DrawOf(s.event.call).Some?
          && s.event.call.spender in s.event.auths
          && s.event.call.from == owner
          && var g := GrantOf(Prior(steps), AllowanceKey(owner, s.event.call.spender));
          && g.Grant?
          && before.sequence <= g.expirationLedger
          && BalanceAt(before, owner) - BalanceAt(s.after, owner) <= g.amount - g.drawn
          && g.index < |steps| - 1
          && OwnerApproved(steps[g.index], AllowanceKey(owner, s.event.call.spender), g.amount, g.expirationLedger))
  {
    var before, s := LedgerAfter(start, Prior(steps)), Last(steps);
    var c := s.event.call;
    RunUnfolds(h, start, steps);
    ReachableIsSound(h, start, Prior(steps));
    FallNeedsAuthority(View(before), before.sequence, s.event.auths, c, owner);
    if owner !in s.event.auths {
      DrawsStayWithinTheGrant(h, start, steps);
      GrantWasAuthorised(h, start, Prior(steps), AllowanceKey(owner, c.spender));
    }
  }

  lemma FallNeedsAuthority(t: TokenState, now: nat, auths: set<Address>, c: Call, owner: Address)
    requires Solvent(t) && Apply(t, now, auths, c).Ok?
    requires Balance(Apply(t, now, auths, c).value.0.balances, owner) < Balance(t.balances, owner)
    ensures
      || ((c.Transfer? || c.Burn?) && c.from == owner && owner in auths)
      || (DrawOf(c).Some? && c.from == owner && c.spender in auths)
    ensures (c.Transfer? || c.Burn? || c.TransferFrom? || c.BurnFrom?) &&
      Balance(t.balances, owner) - Balance(Apply(t, now, auths, c).value.0.balances, owner) <= c.amount
  {
  }

  /** Only a mint authorised by the administrator of that moment raises the supply. */
  lemma SupplyRisesOnlyWithAdmin(h: SorobanHost, start: Ledger, steps: seq<Step>)
    requires IsRun(h, start, steps) && steps != []
    requires SupplyOf(LedgerAfter(start, Prior(steps))) < SupplyOf(Last(steps).after)
    ensures
      var admin := View(LedgerAfter(start, Prior(steps))).admin;
      && admin.Some?
      && Last(steps).event.Invoke?
      && Last(steps).event.call.Mint?
      && admin.value in Last(steps).event.auths
  {
    var before, s := LedgerAfter(start, Prior(steps)), Last(steps);
    RunUnfolds(h, start, steps);
    ReachableIsSound(h, start, Prior(steps));
    StepSupply(h, before, s);
    match s.event
    case Invoke(auths, call) => MintNeedsAdmin(View(before), before.sequence, auths, call);
    case Advance(_) => StepLossIsNonNegative(before, s);
  }

  lemma MintNeedsAdmin(t: TokenState, now: nat, auths: set<Address>, c: Call)
    requires Apply(t, now, auths, c).Ok?
    ensures c.Mint? ==> t.admin.Some? && t.admin.value in auths
    ensures c.Burn? || c.BurnFrom? ==> 0 <= c.amount
  {
  }

  /**
   Once set, the administrator changes only in a call that carries the current administrator's
   authorisation, and the metadata never changes; only losing the whole instance entry ends either.
   */
  lemma AdminChangesOnlyWithAdmin(h: SorobanHost, start: Ledger, steps: seq<Step>)
    requires IsRun(h, start, steps) && steps != []
    requires View(LedgerAfter(start, Prior(steps))).admin.Some?
    ensures
      var before, s := LedgerAfter(start, Prior(steps)), Last(steps);
      var admin := View(before).admin.value;
      && (s.after.instance.Some? ==> View(s.after).metadata == View(before).metadata)
      && (s.after.instance.Some? && View(s.after).admin != Some(admin) ==>
            s.event.Invoke? && s.event.call.SetAdmin? && admin in s.event.auths && s.reply.Ok?)
      && (s.after.instance.None? ==>
            s.event.Advance? && before.instance.value.liveUntil < s.after.sequence)
  {
    var before, s := LedgerAfter(start, Prior(steps)), Last(steps);
    RunUnfolds(h, start, steps);
    if s.event.Invoke? && s.reply.Ok? {
      AppliedAdmin(View(before), before.sequence, s.event.auths, s.event.call);
    }
  }

  lemma AppliedAdmin(t: TokenState, now: nat, auths: set<Address>, c: Call)
    requires t.admin.Some? && Apply(t, now, auths, c).Ok?
    ensures Apply(t, now, auths, c).value.0.metadata == t.metadata
    ensures Apply(t, now, auths, c).value.0.admin != t.admin ==> c.SetAdmin? && t.admin.value in auths
  {
  }

  /** The administrator after one more step: that of a successful `set_admin` or `initialize`, or the one before. */
  function AdminAfter(admin: Option<Address>, s: Step): Option<Address> {
    if s.event.Invoke? && s.reply.Ok? then
      match s.event.call
      case Initialize(first, _, _, _) => Some(first)
      case SetAdmin(newAdmin) => Some(newAdmin)
      case _ => admin
    else admin
  }

  function AdminOf(steps: seq<Step>): Option<Address> {
    if steps == [] then None else AdminAfter(AdminOf(Prior(steps)), Last(steps))
  }

  /** The metadata given to the one successful `initialize`. */
  function MetadataOf(steps: seq<Step>): Option<Metadata> {
    if steps == [] then None
    else
      var s := Last(steps);
      if s.event.Invoke? && s.reply.Ok? && s.event.call.Initialize?
      then Some(Metadata(s.event.call.decimal, s.event.call.name, s.event.call.symbol))
      else MetadataOf(Prior(steps))
  }

  lemma StepAdmin(h: SorobanHost, l: Ledger, s: Step)
    requires Sound(l) && IsStep(h, l, s) && s.after.instance.Some?
    ensures l.instance.Some?
    ensures View(s.after).admin == AdminAfter(View(l).admin, s)
    ensures View(s.after).metadata ==
      if s.event.Invoke? && s.reply.Ok? && s.event.call.Initialize?
      then Some(Metadata(s.event.call.decimal, s.event.call.name, s.event.call.symbol))
      else View(l).metadata
  {
    if s.event.Invoke? {
      var auths, c, r, l' := s.event.auths, s.event.call, s.reply, s.after;
      match c
      case Initialize(admin, decimal, name, symbol) => InitializeLaw(h, l, auths, admin, decimal, name, symbol, r, l');
      case SetAdmin(newAdmin) => SetAdminLaw(h, l, auths, newAdmin, r, l');
      case Mint(to, amount) => MintLaw(h, l, auths, to, amount, r, l');
      case Approve(from, spender, amount, expirationLedger) =>
        ApproveLaw(h, l, auths, from, spender, amount, expirationLedger, r, l');
      case Transfer(from, to, amount) => TransferLaw(h, l, auths, from, to, amount, r, l');
      case TransferFrom(spender, from, to, amount) => TransferFromLaw(h, l, auths, spender, from, to, amount, r, l');
      case Burn(from, amount) => BurnLaw(h, l, auths, from, amount, r, l');
      case BurnFrom(spender, from, amount) => BurnFromLaw(h, l, auths, spender, from, amount, r, l');
      case AllowanceOf(from, spender) => AllowanceOfLaw(h, l, auths, from, spender, r, l');
      case BalanceOf(id) => BalanceOfLaw(h, l, auths, id, r, l');
    }
  }

  /**
   The administrator is that of the latest successful `set_admin`, or of `initialize` if there was none;
   the metadata are those given to `initialize`.
   */
  lemma {:induction false} AdminFollowsHistory(h: SorobanHost, start: Ledger, steps: seq<Step>)
    requires IsRun(h, start, steps) && LedgerAfter(start, steps).instance.Some?
    ensures View(LedgerAfter(start, steps)).admin == AdminOf(steps)
    ensures View(LedgerAfter(start, steps)).metadata == MetadataOf(steps)
  {
    RunBegins(h, start, steps);
    if steps != [] {
      RunUnfolds(h, start, steps);
      ReachableIsSound(h, start, Prior(steps));
      StepAdmin(h, LedgerAfter(start, Prior(steps)), Last(steps));
      AdminFollowsHistory(h, start, Prior(steps));
    }
  }

  /******* What a run adds up to *******/

  predicate IsAccessor(c: Call) {
    c.AllowanceOf? || c.BalanceOf?
  }

  /** The calls of a run that may change the token, in order, each with its authorisations. */
  function Issued(steps: seq<Step>): seq<Event> {
    if steps == [] then []
    else if Last(steps).event.Invoke? && !IsAccessor(Last(steps).event.call) then Issued(Prior(steps)) + [Last(steps).event]
    else Issued(Prior(steps))
  }

  datatype Tally = Tally(minted: int, burned: int, lapsed: int, issued: seq<Event>)

  ghost function TallyOf(start: Ledger, steps: seq<Step>): Tally {
    Tally(Minted(steps), Burned(steps), Lapsed(start, steps), Issued(steps))
  }

  function TallyWith(t: Tally, s: Step): Tally {
    Tally(
      t.minted + MintedBy(s),
      t.burned + BurnedBy(s),
      t.lapsed,
      if s.event.Invoke? && !IsAccessor(s.event.call) then t.issued + [s.event] else t.issued)
  }

  lemma TallyAfterCall(start: Ledger, steps: seq<Step>, s: Step)
    requires s.event.Invoke?
    ensures TallyOf(start, steps + [s]) == TallyWith(TallyOf(start, steps), s)
  {
    assert Prior(steps + [s]) == steps;
  }

  /** Time on its own changes the tally only by the balances that lapse. */
  lemma TallyAfterTime(start: Ledger, steps: seq<Step>, s: Step)
    requires s.event.Advance?
    ensures
      var l := LedgerAfter(start, steps);
      var t := TallyOf(start, steps);
      TallyOf(start, steps + [s]) == t.(lapsed := t.lapsed + LapsedBy(l, s))
    ensures
      var l := LedgerAfter(start, steps);
      (forall id :: id in l.balances ==> l.sequence + s.event.ledgers <= l.balances[id].liveUntil) ==> LapsedBy(l, s) == 0
  {
    assert Prior(steps + [s]) == steps;
    var l := LedgerAfter(start, steps);
    var b := View(l).balances;
    if forall id :: id in l.balances ==> l.sequence + s.event.ledgers <= l.balances[id].liveUntil {
      assert LapsedAccounts(l, l.sequence + s.event.ledgers) == {};
      assert b - b.Keys == map[];
    }
  }
}
