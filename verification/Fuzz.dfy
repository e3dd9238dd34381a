/**
 The fuzzer's main loop (fuzz.rs, `fuzz_token`): transactions of commands, each followed by an advance
 of time, a resynchronisation and the assertions. `FuzzToken` proves that mirror and token agree after
 every transaction of every run, and which transaction, if any, a run stops at and why.
 */
module Fuzz {
  import opened Prelude
  import opened Host
  import opened Token
  import opened Supply
  import opened Runs
  import opened Ideal
  import opened Environment
  import opened TokenContract
  import opened Client
  import opened Clock
  import opened Input
  import opened Authorisation
  import opened Mirror
  import opened Lockstep
  import opened Commands
  import opened Checks

  /******* The end of a transaction *******/

  /** After at most a day every balance is still there, and an allowance is either as it was or expired. */
  lemma DayPassed(
    l0: Ledger, l: Ledger, accounts: seq<Address>, data: InstanceData,
    balances: map<Address, int>, allowances: map<AllowanceKey, int>)
    requires Sound(l0) && Travelled(l0, l) && l.sequence <= l0.sequence + DAY_IN_LEDGERS
    requires Settled(l0, accounts, data, l0.sequence + BALANCE_LIFETIME_THRESHOLD)
    requires BalancesAgree(balances, View(l0).balances, accounts)
    requires AllowancesAgree(allowances, View(l0).approvals, l0.sequence, accounts)
    ensures l.balances == l0.balances && Safe(l0, l.sequence)
    ensures l.instance.Some? && l.instance.value.value == data
    ensures BalancesAgree(balances, View(l).balances, accounts)
    ensures SyncedUpTo(allowances, l, accounts, 0, 0)
  {
    assert l.balances == Purge(l0.balances, l.sequence);
    assert l.balances == l0.balances;
    forall x, y | 0 <= x < |accounts| && 0 <= y < |accounts|
      ensures
        var k := AllowanceKey(accounts[x], accounts[y]);
        Granted(allowances, k) == AllowanceAt(l, k) || AllowanceAt(l, k) == 0
    {
      ArrivedAllowance(l0, l, AllowanceKey(accounts[x], accounts[y]));
    }
  }

  lemma ArrivedAllowance(l0: Ledger, l: Ledger, k: AllowanceKey)
    requires Sound(l0) && Travelled(l0, l)
    ensures AllowanceAt(l, k) ==
      if InForce(View(l0).approvals, k, l0.sequence).expirationLedger < l.sequence then 0 else AllowanceAt(l0, k)
  {
    ElapsedAllowance(l0, l.sequence - l0.sequence, k);
    assert View(l).approvals == View(Elapse(l0, l.sequence - l0.sequence)).approvals;
  }

  /** What resynchronisation has to achieve: the mirror drops exactly the allowances that have expired. */
  ghost predicate ExpiredDropped(
    before: map<AllowanceKey, int>, l0: Ledger, now: nat, after: map<AllowanceKey, int>, accounts: seq<Address>)
  {
    forall x, y :: 0 <= x < |accounts| && 0 <= y < |accounts| ==>
      var k := AllowanceKey(accounts[x], accounts[y]);
      Granted(after, k) ==
        if InForce(View(l0).approvals, k, l0.sequence).expirationLedger < now then 0 else Granted(before, k)
  }

  lemma ResyncDropsExpired(
    before: map<AllowanceKey, int>, l0: Ledger, l: Ledger, after: map<AllowanceKey, int>, accounts: seq<Address>)
    requires Sound(l0) && Travelled(l0, l)
    requires AllowancesAgree(before, View(l0).approvals, l0.sequence, accounts)
    requires AllowancesAgree(after, View(l).approvals, l.sequence, accounts)
    ensures ExpiredDropped(before, l0, l.sequence, after, accounts)
  {
    forall x, y | 0 <= x < |accounts| && 0 <= y < |accounts|
      ensures
        var k := AllowanceKey(accounts[x], accounts[y]);
        Granted(after, k) ==
          if InForce(View(l0).approvals, k, l0.sequence).expirationLedger < l.sequence then 0 else Granted(before, k)
    {
      ArrivedAllowance(l0, l, AllowanceKey(accounts[x], accounts[y]));
    }
  }

  /**
   The mirror says what one that kept its own record of approvals, draws and expiration ledgers would
   say: the record is the grant that follows from the successful calls alone.
   */
  ghost predicate TracksExpiration(mirrored: map<AllowanceKey, int>, steps: seq<Step>, now: nat, accounts: seq<Address>) {
    forall x, y :: 0 <= x < |accounts| && 0 <= y < |accounts| ==>
      var k := AllowanceKey(accounts[x], accounts[y]);
      Granted(mirrored, k) == Promised(GrantOf(steps, k), now)
  }

  /** Asking the contract makes up for not tracking expirations. */
  lemma ResyncTracksExpiration(
    h: SorobanHost, start: Ledger, steps: seq<Step>, mirrored: map<AllowanceKey, int>, accounts: seq<Address>)
    requires IsRun(h, start, steps)
    requires
      var l := LedgerAfter(start, steps);
      AllowancesAgree(mirrored, View(l).approvals, l.sequence, accounts)
    ensures TracksExpiration(mirrored, steps, LedgerAfter(start, steps).sequence, accounts)
  {
    var l := LedgerAfter(start, steps);
    forall x, y | 0 <= x < |accounts| && 0 <= y < |accounts|
      ensures
        var k := AllowanceKey(accounts[x], accounts[y]);
        Granted(mirrored, k) == Promised(GrantOf(steps, k), l.sequence)
    {
      AllowanceFollowsHistory(h, start, steps, AllowanceKey(accounts[x], accounts[y]));
    }
  }

  /** Agreement on the listed accounts, together with conservation, is all that is asserted. */
  lemma AgreementMatches(
    e: Env, m: ContractState, l: Ledger, accounts: seq<Address>)
    requires e.Valid() && Observed(l, e.Snapshot()) && Distinct(accounts)
    requires l.instance.Some? && l.instance.value.value.metadata == Some(Metadata(m.decimals, m.name, m.symbol))
    requires forall id :: id in l.balances ==> id in accounts
    requires Agrees(m, View(l), l.sequence, e.Books(), accounts)
    ensures Matches(m.State(), l, accounts)
  {
    ReachableIsSound(e.host, e.start, e.steps);
    SupplyIsConserved(e.host, e.start, e.steps);
    assert View(l).balances.Keys == l.balances.Keys;
    ListedAccountsCarryTheSupply(accounts, View(l).balances);
  }

  /** What the mirror has on its books follows from the successful calls of the history. */
  ghost predicate Accounted(m: MirrorState, past: seq<Step>, now: nat, accounts: seq<Address>) {
    && m.sumOfMints == Minted(past)
    && m.sumOfBurns == Burned(past)
    && (forall i :: 0 <= i < |accounts| ==> Balance(m.balances, accounts[i]) == NetOf(past, accounts[i]))
    && TracksExpiration(m.allowances, past, now, accounts)
  }

  /**
   After the history `past`, three accounts of the token agree: the mirror, the ledger, and the token
   without lifetimes.
   */
  ghost predicate Confirmed(m: MirrorState, start: Ledger, past: seq<Step>, accounts: seq<Address>) {
    var l := LedgerAfter(start, past);
    && Matches(m, l, accounts)
    && Accounted(m, past, l.sequence, accounts)
    && Tells(l, IdealOf(start.sequence, past))
  }

  lemma LockstepAccounts(e: Env, m: ContractState, accounts: seq<Address>)
    requires InLockstep(e, m, accounts)
    ensures Accounted(m.State(), e.steps, e.sequence, accounts)
  {
    forall i | 0 <= i < |accounts| ensures Balance(m.balances, accounts[i]) == NetOf(e.steps, accounts[i]) {
      BalanceFollowsHistory(e.host, e.start, e.steps, accounts[i]);
      LossIsShared(e.host, e.start, e.steps, accounts[i]);
    }
    ResyncTracksExpiration(e.host, e.start, e.steps, m.allowances, accounts);
  }

  lemma LockstepConfirms(e: Env, m: ContractState, accounts: seq<Address>)
    requires InLockstep(e, m, accounts) && Distinct(accounts)
    ensures Confirmed(m.State(), e.start, e.steps, accounts)
  {
    AgreementMatches(e, m, e.Snapshot(), accounts);
    LockstepAccounts(e, m, accounts);
    RunIsIdeal(e.host, e.start, e.steps);
  }

  /** Having been asked for, every balance is good for another 29 days. */
  lemma StandingAgain(e: Env, l: Ledger, accounts: seq<Address>, data: InstanceData)
    requires e.Valid() && Observed(l, e.Snapshot()) && Refreshed(e.Snapshot(), accounts, |accounts|)
    requires l.sequence + INSTANCE_LIFETIME_THRESHOLD <= e.instance.value.liveUntil
    requires l.instance.value.value == data && forall id :: id in l.balances ==> id in accounts
    ensures Standing(e, accounts, data)
  {
    SameKeys(l, e.Snapshot());
    var l' := e.Snapshot();
    assert l'.instance.value.value == InstanceData(View(l').admin, View(l').metadata);
    assert l.instance.value.value == InstanceData(View(l).admin, View(l).metadata);
    forall id | id in l'.balances ensures l'.sequence + BALANCE_LIFETIME_THRESHOLD <= l'.balances[id].liveUntil {
      var i :| 0 <= i < |accounts| && accounts[i] == id;
    }
  }

  /** Advance, resynchronise, check. The verdict of the check is always favourable. */
  method EndTransaction(
    e: Env, m: ContractState, accounts: seq<Address>, ledgers: nat, strangers: nat -> AllowanceKey)
    returns (status: Status, ok: bool)
    requires InLockstep(e, m, accounts) && Distinct(accounts) && 1 <= ledgers <= DAY_IN_LEDGERS
    modifies e, m
    ensures status != Panicked(NonceOverflow)
    ensures status == Panicked(EndOfTime) ==> !HasRoom(old(e.sequence), old(e.timestamp), ledgers)
    ensures status == Panicked(HostRefusal) ==> e.host.servedUntil < old(e.sequence) + ledgers
    ensures e.Continues(old(e.steps))
    ensures status.Completed? ==>
      && ok && Confirmed(m.State(), e.start, e.steps, accounts)
      && InLockstep(e, m, accounts)
      && HasRoom(old(e.sequence), old(e.timestamp), ledgers)
      && e.Books() == old(e.Books())
      && e.sequence == old(e.sequence) + ledgers
      && e.timestamp == old(e.timestamp) + SECONDS_PER_LEDGER * ledgers
      && ExpiredDropped(old(m.allowances), old(e.Snapshot()), e.sequence, m.allowances, accounts)
  {
    ok := false;
    ghost var past, books, l0, data := e.steps, e.Books(), e.Snapshot(), DataOf(m, accounts[0]);
    ghost var allowances := m.allowances;
    ReachableIsSound(e.host, e.start, e.steps);
    status := AdvanceTime(e, ledgers, strangers);
    if status.Panicked? {
      return;
    }
    ghost var l := e.Snapshot();
    DayPassed(l0, l, accounts, data, m.balances, m.allowances);
    status := Resync(e, m, accounts, past, books, l);
    if status.Panicked? {
      return;
    }
    ResyncDropsExpired(allowances, l0, l, m.allowances, accounts);
    AgreementMatches(e, m, l, accounts);
    status, ok := AssertState(e, m, accounts, past, books, l);
    if status.Panicked? {
      return;
    }
    assert ok;
    StandingAgain(e, l, accounts, data);
    LockstepConfirms(e, m, accounts);
  }

  /******* The commands of a transaction *******/

  /** How signing goes over a list of commands; an empty list signs nothing and cannot stop. */
  ghost predicate SignedAll(
    h: SorobanHost, now: nat, nonce: nat, commands: seq<Command>, status: Status, nonce': nat, entries: seq<AuthEntry>)
  {
    if commands == [] then status == Completed && nonce' == nonce && entries == []
    else Signed(h, now, nonce, CommandFlags(commands), status, nonce', entries)
  }

  /** One more command at the end of those executed so far. */
  lemma SignedMore(
    h: SorobanHost, now: nat, nonce: nat, commands: seq<Command>, j: nat, nonce0: nat, entries0: seq<AuthEntry>,
    status: Status, nonce1: nat, entries1: seq<AuthEntry>)
    requires j < |commands|
    requires SignedAll(h, now, nonce, commands[..j], Completed, nonce0, entries0)
    requires Signed(h, now, nonce0, FlagsOf(commands[j]), status, nonce1, entries1)
    ensures SignedAll(h, now, nonce, commands[..j + 1], status, nonce1, entries0 + entries1)
    ensures status.Panicked? ==> SignedAll(h, now, nonce, commands, status, nonce1, entries0 + entries1)
  {
    CommandsSplit(commands, j, j + 1);
    CommandsSplit(commands, j + 1, |commands|);
    assert commands[..|commands|] == commands;
    if j > 0 {
      SignedTwice(h, now, nonce, CommandFlags(commands[..j]), nonce0, entries0, FlagsOf(commands[j]), status, nonce1, entries1);
    } else {
      assert entries0 + entries1 == entries1;
    }
  }

  /** The flags of a longer prefix are those of a shorter one and of what lies between. */
  lemma {:induction false} CommandsSplit(commands: seq<Command>, i: nat, j: nat)
    requires i <= j <= |commands|
    ensures CommandFlags(commands[..j]) == CommandFlags(commands[..i]) + CommandFlags(commands[i..j])
    decreases i
  {
    if i == 0 {
      assert commands[..j] == commands[0..j];
    } else {
      CommandsSplit(commands[1..], i - 1, j - 1);
      assert commands[..j][1..] == commands[1..][..j - 1];
      assert commands[..i][1..] == commands[1..][..i - 1];
      assert commands[i..j] == commands[1..][i - 1..j - 1];
    }
  }

  lemma NextCommand(commands: seq<Command>, j: nat, accounts: seq<Address>, issued: seq<Event>)
    requires j < |commands| && forall i :: 0 <= i < |commands| ==> CommandOk(commands[i], |accounts|)
    ensures issued + CommandEvents(commands[j..], accounts) ==
      (issued + EventsOf(commands[j], accounts)) + CommandEvents(commands[j + 1..], accounts)
  {
    assert commands[j..][1..] == commands[j + 1..];
    Regroup(issued, EventsOf(commands[j], accounts), CommandEvents(commands[j + 1..], accounts));
  }

  method RunCommands(e: Env, m: ContractState, accounts: seq<Address>, commands: seq<Command>, nonce: nat)
    returns (status: Status, nonce': nat, entries: seq<AuthEntry>)
    requires InLockstep(e, m, accounts) && Distinct(accounts) && nonce <= I64_MAX
    requires forall i :: 0 <= i < |commands| ==> CommandOk(commands[i], |accounts|)
    modifies e, m
    ensures SignedAll(e.host, old(e.sequence), nonce, commands, status, nonce', entries)
    ensures e.Continues(old(e.steps))
    ensures status.Completed? ==>
      && InLockstep(e, m, accounts)
      && e.sequence == old(e.sequence) && e.timestamp == old(e.timestamp)
      && e.Books().issued == old(e.Books().issued) + CommandEvents(commands, accounts)
  {
    status, nonce', entries := Completed, nonce, [];
    ghost var now, issued, all := e.sequence, e.Books().issued, CommandEvents(commands, accounts);
    for j := 0 to |commands|
      invariant status.Completed?
      invariant InLockstep(e, m, accounts) && e.Continues(old(e.steps))
      invariant e.sequence == now && e.timestamp == old(e.timestamp)
      invariant SignedAll(e.host, now, nonce, commands[..j], Completed, nonce', entries) && nonce' <= I64_MAX
      invariant e.Books().issued + CommandEvents(commands[j..], accounts) == issued + all
    {
      ghost var nonce0, before := nonce', e.Books().issued;
      var more;
      status, nonce', more := ExecCommand(e, m, accounts, commands[j], nonce');
      SignedMore(e.host, now, nonce, commands, j, nonce0, entries, status, nonce', more);
      entries := entries + more;
      if status.Panicked? {
        return;
      }
      NextCommand(commands, j, accounts, before);
    }
    assert commands[..|commands|] == commands;
  }

  /******* One transaction *******/

  datatype Outcome = Reject | Keep | Stopped(panic: Panic)

  /** Where a run stands between two transactions: the clock and the next nonce. */
  datatype Position = Position(sequence: nat, timestamp: nat, nonce: nat)

  function Here(e: Env, nonce: nat): Position
    reads e`sequence, e`timestamp
  {
    Position(e.sequence, e.timestamp, nonce)
  }

  /** Where a transaction leads. */
  function Advanced(p: Position, t: Transaction): Position {
    Position(
      p.sequence + t.advanceLedgers,
      p.timestamp + SECONDS_PER_LEDGER * t.advanceLedgers,
      p.nonce + CommandFlags(t.commands))
  }

  /** What stands in a transaction's way: ledger numbers for the signatures, nonces, or room to advance. */
  function Hurdle(h: SorobanHost, p: Position, t: Transaction): Option<Panic>
    requires t.advanceLedgers >= 1
  {
    if t.commands != [] && p.sequence + h.maxEntryTtl > U32_MAX then Some(EndOfTime)
    else if p.nonce + CommandFlags(t.commands) > I64_MAX then Some(NonceOverflow)
    else if !HasRoom(p.sequence, p.timestamp, t.advanceLedgers) then Some(EndOfTime)
    else None
  }

  /** Why a transaction stops: for its hurdle, or because the host serves no ledger that late. */
  ghost predicate Stops(h: SorobanHost, p: Position, t: Transaction, panic: Panic)
    requires t.advanceLedgers >= 1
  {
    Hurdle(h, p, t) == Some(panic) || (panic == HostRefusal && h.servedUntil < p.sequence + t.advanceLedgers)
  }

  /** The first two hurdles are those that signing meets. */
  lemma SigningMeetsHurdles(h: SorobanHost, p: Position, t: Transaction, status: Status, nonce': nat, entries: seq<AuthEntry>)
    requires t.advanceLedgers >= 1 && p.nonce <= I64_MAX
    requires SignedAll(h, p.sequence, p.nonce, t.commands, status, nonce', entries)
    ensures Numbered(entries, p.nonce)
    ensures status.Panicked? ==> Hurdle(h, p, t) == Some(status.panic)
    ensures status.Completed? ==>
      && nonce' == p.nonce + CommandFlags(t.commands) == p.nonce + |entries| <= I64_MAX
      && Hurdle(h, p, t) == if HasRoom(p.sequence, p.timestamp, t.advanceLedgers) then None else Some(EndOfTime)
  {
  }

  method RunTransaction(
    e: Env, m: ContractState, accounts: seq<Address>, t: Transaction, nonce: nat, strangers: nat -> AllowanceKey)
    returns (status: Status, nonce': nat, entries: seq<AuthEntry>, ok: bool)
    requires InLockstep(e, m, accounts) && Distinct(accounts) && nonce <= I64_MAX
    requires TransactionOk(t, |accounts|)
    modifies e, m
    ensures e.Continues(old(e.steps)) && Numbered(entries, nonce)
    ensures status.Panicked? ==> Stops(e.host, old(Here(e, nonce)), t, status.panic)
    ensures status.Completed? ==>
      && ok && Confirmed(m.State(), e.start, e.steps, accounts)
      && InLockstep(e, m, accounts)
      && Hurdle(e.host, old(Here(e, nonce)), t).None?
      && e.sequence == old(e.sequence) + t.advanceLedgers
      && e.timestamp == old(e.timestamp) + SECONDS_PER_LEDGER * t.advanceLedgers
      && nonce' == nonce + CommandFlags(t.commands)
      && Issued(e.steps) == old(Issued(e.steps)) + CommandEvents(t.commands, accounts)
      && nonce' == nonce + |entries| <= I64_MAX
  {
    ok := false;
    status, nonce', entries := RunCommands(e, m, accounts, t.commands, nonce);
    SigningMeetsHurdles(e.host, old(Here(e, nonce)), t, status, nonce', entries);
    if status.Panicked? {
      return;
    }
    status, ok := EndTransaction(e, m, accounts, t.advanceLedgers, strangers);
  }

  /******* The run *******/

  const NAME := "token"
  const SYMBOL := "TKN"
  const DECIMALS: nat := 10

  function Setup(accounts: seq<Address>): Event
    requires |accounts| > 0
  {
    Invoke({}, Call.Initialize(accounts[0], DECIMALS, NAME, SYMBOL))
  }

  /** Registering and initialising the contract, with the first account as administrator. */
  method Begin(host: SorobanHost, sequence: nat, timestamp: nat, accounts: seq<Address>)
    returns (e: Env, m: ContractState)
    requires Lawful(host) && |accounts| > 0
    ensures fresh(e) && fresh(m) && e.host == host && e.start.sequence == sequence
    ensures InLockstep(e, m, accounts)
    ensures m.decimals == DECIMALS && m.name == NAME && m.symbol == SYMBOL
    ensures Here(e, 0) == Position(sequence, timestamp, 0) && e.Books().issued == [Setup(accounts)]
  {
    e := new Env(host, sequence, timestamp);
    RunBegins(e.host, e.start, e.steps);
    var r := TryInvoke(e, Call.Initialize(accounts[0], DECIMALS, NAME, SYMBOL));
    assert r.Ok?;
    TallyAfterCall(e.start, [], Step(Setup(accounts), r, e.Snapshot()));
    assert e.instance.value.value == InstanceData(View(e.Snapshot()).admin, View(e.Snapshot()).metadata);
    assert View(e.Snapshot()).balances == map[] && View(e.Snapshot()).approvals == map[];
    assert e.balances.Keys == View(e.Snapshot()).balances.Keys;
    m := new ContractState(e.instance.value.value.metadata.value);
  }

  /** A run as its input lays it out: where it begins, after which calls, and the transactions ahead of it. */
  datatype Course = Course(
    host: SorobanHost, accounts: seq<Address>, origin: Position, issued: seq<Event>, transactions: seq<Transaction>)
  {
    predicate Valid() {
      TransactionsOk(transactions, |accounts|)
    }

    /** Where it stands after the first `i` transactions. */
    function At(i: nat): Position
      requires Valid() && i <= |transactions|
    {
      if i == 0 then origin else Advanced(At(i - 1), transactions[i - 1])
    }

    /** The calls made by then. */
    function IssuedAt(i: nat): seq<Event>
      requires Valid() && i <= |transactions|
    {
      issued + InputEvents(transactions[..i], accounts)
    }

    function HurdleAt(i: nat): Option<Panic>
      requires Valid() && i < |transactions|
    {
      Hurdle(host, At(i), transactions[i])
    }

    ghost predicate StopsAt(i: nat, panic: Panic)
      requires Valid() && i < |transactions|
    {
      Stops(host, At(i), transactions[i], panic)
    }
  }

  /** Its positions are the sums over the input. */
  lemma {:induction false} CourseAddsUp(course: Course, i: nat)
    requires course.Valid() && i <= |course.transactions|
    ensures
      var done := course.transactions[..i];
      var o := course.origin;
      && course.At(i).sequence == o.sequence + InputLedgers(done)
      && course.At(i).timestamp == o.timestamp + SECONDS_PER_LEDGER * InputLedgers(done)
      && course.At(i).nonce == o.nonce + InputFlags(done)
  {
    if i > 0 {
      CourseAddsUp(course, i - 1);
      assert course.transactions[..i][..i - 1] == course.transactions[..i - 1];
    }
  }

  lemma CallsMoveOn(course: Course, i: nat)
    requires course.Valid() && i < |course.transactions|
    ensures course.IssuedAt(i + 1) ==
      course.IssuedAt(i) + CommandEvents(course.transactions[i].commands, course.accounts)
  {
    assert course.transactions[..i + 1][..i] == course.transactions[..i];
    Regroup(
      course.issued, InputEvents(course.transactions[..i], course.accounts),
      CommandEvents(course.transactions[i].commands, course.accounts));
  }

  lemma {:induction false} CourseMovesOn(course: Course, i: nat, j: nat)
    requires course.Valid() && i <= j <= |course.transactions|
    ensures course.At(i).sequence <= course.At(j).sequence
    decreases j
  {
    if i < j {
      CourseMovesOn(course, i, j - 1);
    }
  }

  /** A run with no hurdle in its way. */
  ghost predicate Clear(course: Course)
    requires course.Valid()
  {
    forall i :: 0 <= i < |course.transactions| ==> course.HurdleAt(i).None?
  }

  /** What the mirror said at the end of a transaction, and how far the history had come by then. */
  datatype Checkpoint = Checkpoint(mirror: MirrorState, length: nat)

  /**
   The `i`-th transaction of the course has been completed: nothing stood in its way, and at its end the
   calls were those of the input so far and mirror, ledger and the token without lifetimes agreed.
   */
  ghost predicate Passed(course: Course, i: nat, c: Checkpoint, start: Ledger, steps: seq<Step>)
    requires course.Valid() && i < |course.transactions|
  {
    && course.HurdleAt(i).None?
    && c.length <= |steps|
    && var past := steps[..c.length];
       && LedgerAfter(start, past).sequence == course.At(i + 1).sequence
       && Issued(past) == course.IssuedAt(i + 1)
       && Confirmed(c.mirror, start, past, course.accounts)
  }

  ghost predicate AllPassed(course: Course, checks: seq<Checkpoint>, start: Ledger, steps: seq<Step>)
    requires course.Valid() && |checks| <= |course.transactions|
  {
    forall i :: 0 <= i < |checks| ==> Passed(course, i, checks[i], start, steps)
  }

  /** What was confirmed of a history stays confirmed as the history goes on. */
  lemma PassedForGood(
    course: Course, checks: seq<Checkpoint>, start: Ledger, steps: seq<Step>, steps': seq<Step>)
    requires course.Valid() && |checks| <= |course.transactions|
    requires AllPassed(course, checks, start, steps) && steps <= steps'
    ensures AllPassed(course, checks, start, steps')
  {
    forall i | 0 <= i < |checks| ensures Passed(course, i, checks[i], start, steps') {
      assert steps'[..checks[i].length] == steps[..checks[i].length];
    }
  }

  lemma JustPassed(course: Course, i: nat, mirror: MirrorState, start: Ledger, steps: seq<Step>)
    requires course.Valid() && i < |course.transactions| && course.HurdleAt(i).None?
    requires LedgerAfter(start, steps).sequence == course.At(i + 1).sequence && Issued(steps) == course.IssuedAt(i + 1)
    requires Confirmed(mirror, start, steps, course.accounts)
    ensures Passed(course, i, Checkpoint(mirror, |steps|), start, steps)
  {
    assert steps[..|steps|] == steps;
  }

  lemma OneMorePassed(course: Course, checks: seq<Checkpoint>, c: Checkpoint, start: Ledger, steps: seq<Step>)
    requires course.Valid() && |checks| < |course.transactions|
    requires AllPassed(course, checks, start, steps) && Passed(course, |checks|, c, start, steps)
    ensures AllPassed(course, checks + [c], start, steps)
  {
    var checks' := checks + [c];
    forall i | 0 <= i < |checks'| ensures Passed(course, i, checks'[i], start, steps) {
      if i < |checks| {
        assert Passed(course, i, checks[i], start, steps);
      }
    }
  }

  ghost predicate AllTrue(verdicts: seq<bool>) {
    forall i :: 0 <= i < |verdicts| ==> verdicts[i]
  }

  /** A run that has `i` transactions of its course behind it. */
  ghost predicate Progress(
    course: Course, i: nat, here: Position, log: seq<AuthEntry>, verdicts: seq<bool>, checks: seq<Checkpoint>,
    start: Ledger, steps: seq<Step>)
    requires course.Valid() && i <= |course.transactions|
  {
    && here == course.At(i) && Issued(steps) == course.IssuedAt(i)
    && |log| == here.nonce <= I64_MAX && Numbered(log, 0)
    && |verdicts| == |checks| == i && AllTrue(verdicts)
    && AllPassed(course, checks, start, steps)
  }

  /** One more. */
  lemma ProgressMade(
    course: Course, i: nat, here: Position, log: seq<AuthEntry>, verdicts: seq<bool>, checks: seq<Checkpoint>,
    start: Ledger, steps: seq<Step>, here': Position, entries: seq<AuthEntry>, ok: bool, mirror: MirrorState, steps': seq<Step>)
    requires course.Valid() && i < |course.transactions|
    requires Progress(course, i, here, log, verdicts, checks, start, steps) && steps <= steps'
    requires Hurdle(course.host, here, course.transactions[i]).None?
    requires here'.sequence == here.sequence + course.transactions[i].advanceLedgers
    requires here'.timestamp == here.timestamp + SECONDS_PER_LEDGER * course.transactions[i].advanceLedgers
    requires here'.nonce == here.nonce + CommandFlags(course.transactions[i].commands)
    requires Issued(steps') == Issued(steps) + CommandEvents(course.transactions[i].commands, course.accounts)
    requires Numbered(entries, here.nonce) && here'.nonce == here.nonce + |entries| <= I64_MAX && ok
    requires here'.sequence == LedgerAfter(start, steps').sequence && Confirmed(mirror, start, steps', course.accounts)
    ensures Progress(
      course, i + 1, here', log + entries, verdicts + [ok], checks + [Checkpoint(mirror, |steps'|)], start, steps')
  {
    CallsMoveOn(course, i);
    JustPassed(course, i, mirror, start, steps');
    PassedForGood(course, checks, start, steps, steps');
    OneMorePassed(course, checks, Checkpoint(mirror, |steps'|), start, steps');
  }

  /** The last check was made just now. */
  ghost predicate UpToDate(checks: seq<Checkpoint>, steps: seq<Step>) {
    checks != [] ==> checks[|checks| - 1].length == |steps|
  }

  /** All transactions, one after the other. */
  method RunAll(e: Env, m: ContractState, accounts: seq<Address>, all: seq<Transaction>, strangers: nat -> AllowanceKey)
    returns (status: Status, log: seq<AuthEntry>, verdicts: seq<bool>, ghost checks: seq<Checkpoint>)
    requires InLockstep(e, m, accounts) && Distinct(accounts) && TransactionsOk(all, |accounts|)
    modifies e, m
    ensures e.Continues(old(e.steps)) && Numbered(log, 0) && AllTrue(verdicts)
    ensures |checks| == |verdicts| <= |all|
    ensures
      var course := Course(e.host, accounts, old(Here(e, 0)), old(Issued(e.steps)), all);
      && AllPassed(course, checks, e.start, e.steps)
      && match status
         case Panicked(panic) => |checks| < |all| && course.StopsAt(|checks|, panic)
         case Completed =>
           && InLockstep(e, m, accounts) && UpToDate(checks, e.steps)
           && Progress(course, |all|, Here(e, |log|), log, verdicts, checks, e.start, e.steps)
  {
    ghost var course := Course(e.host, accounts, Here(e, 0), Issued(e.steps), all);
    var nonce: nat := 0;
    status, log, verdicts, checks := Completed, [], [], [];
    for i := 0 to |all|
      invariant status.Completed? && InLockstep(e, m, accounts) && e.Continues(old(e.steps)) && nonce == |log|
      invariant UpToDate(checks, e.steps)
      invariant Progress(course, i, Here(e, nonce), log, verdicts, checks, e.start, e.steps)
    {
      ghost var steps, here := e.steps, Here(e, nonce);
      var entries, ok;
      status, nonce, entries, ok := RunTransaction(e, m, accounts, all[i], nonce, strangers);
      if status.Panicked? {
        PassedForGood(course, checks, e.start, steps, e.steps);
        log := log + entries;
        return;
      }
      LockstepConfirms(e, m, accounts);
      ProgressMade(
        course, i, here, log, verdicts, checks, e.start, steps, Here(e, nonce), entries, ok, m.State(), e.steps);
      log, verdicts := log + entries, verdicts + [ok];
      checks := checks + [Checkpoint(m.State(), |e.steps|)];
    }
  }

  function CourseOf(
    host: SorobanHost, sequence: nat, timestamp: nat, accounts: seq<Address>, transactions: seq<Transaction>): Course
    requires |accounts| > 0
  {
    Course(host, accounts, Position(sequence, timestamp, 0), [Setup(accounts)], transactions)
  }

  /**
   The whole run. It is rejected exactly when it has no command. Otherwise, after every transaction that
   it completes, the mirror matches the ledger in everything that is asserted, and both are what the
   history and the token without lifetimes make them. It stops only at a transaction that it cannot
   complete, and it is the first such: either its hurdle, which the input determines, or a ledger that
   the host does not serve. On served ledgers it is kept exactly when there is no hurdle. A kept run
   issues exactly the calls of the input, after the set-up, and numbers its authorisations
   consecutively from zero; nothing is lost to expiry.
   */
  method FuzzToken(
    host: SorobanHost, sequence: nat, timestamp: nat, accounts: seq<Address>, transactions: seq<Transaction>,
    strangers: nat -> AllowanceKey)
    returns (
      outcome: Outcome, log: seq<AuthEntry>, verdicts: seq<bool>,
      ghost checks: seq<Checkpoint>, ghost start: Ledger, ghost steps: seq<Step>)
    requires Lawful(host)
    requires |accounts| > 0 && Distinct(accounts) && TransactionsOk(transactions, |accounts|)
    ensures outcome == Reject <==> forall i :: 0 <= i < |transactions| ==> transactions[i].commands == []
    ensures Numbered(log, 0) && AllTrue(verdicts) && |checks| == |verdicts| <= |transactions|
    ensures
      var course := CourseOf(host, sequence, timestamp, accounts, transactions);
      outcome != Reject ==>
        && IsRun(host, start, steps) && start.sequence == sequence
        && AllPassed(course, checks, start, steps)
        && (outcome == Keep <==> |checks| == |transactions|)
        && (outcome.Stopped? ==> course.StopsAt(|checks|, outcome.panic))
        && (sequence + InputLedgers(transactions) <= host.servedUntil ==>
              (outcome == Keep <==> Clear(course)))
    ensures outcome == Keep ==>
      && Kept(CourseOf(host, sequence, timestamp, accounts, transactions), log, checks, start, steps)
      && View(LedgerAfter(start, steps)).admin == Some(accounts[0])
      && View(LedgerAfter(start, steps)).metadata == Some(Metadata(DECIMALS, NAME, SYMBOL))
  {
    log, verdicts, checks := [], [], [];
    start, steps := Ledger(0, 0, None, map[], map[]), [];
    if forall i :: 0 <= i < |transactions| ==> transactions[i].commands == [] {
      return Reject, log, verdicts, checks, start, steps;
    }
    var e, m := Begin(host, sequence, timestamp, accounts);
    var status;
    status, log, verdicts, checks := RunAll(e, m, accounts, transactions, strangers);
    start, steps := e.start, e.steps;
    ghost var course := CourseOf(host, sequence, timestamp, accounts, transactions);
    if status.Panicked? {
      StoppedRun(course, |checks|, status.panic);
      return Stopped(status.panic), log, verdicts, checks, start, steps;
    }
    KeptRun(e, m, accounts, course, log, verdicts, checks);
    return Keep, log, verdicts, checks, start, steps;
  }

  /** A run that stops on served ledgers was not clear. */
  lemma StoppedRun(course: Course, done: nat, panic: Panic)
    requires course.Valid() && done < |course.transactions|
    requires course.StopsAt(done, panic)
    ensures course.origin.sequence + InputLedgers(course.transactions) <= course.host.servedUntil ==> !Clear(course)
  {
    var n := |course.transactions|;
    CourseAddsUp(course, n);
    assert course.transactions[..n] == course.transactions;
    CourseMovesOn(course, done + 1, n);
    if Clear(course) {
      assert course.HurdleAt(done).None?;
    }
  }

  /**
   What a kept run adds up to. Its history ends with the last check; all balances and all allowances, of
   listed accounts or not, follow from the successful calls.
   */
  ghost predicate Kept(course: Course, log: seq<AuthEntry>, checks: seq<Checkpoint>, start: Ledger, steps: seq<Step>)
    requires course.Valid()
  {
    && UpToDate(checks, steps)
    && |log| == course.origin.nonce + InputFlags(course.transactions) <= I64_MAX
    && LedgerAfter(start, steps).sequence == course.origin.sequence + InputLedgers(course.transactions)
    && Issued(steps) == course.issued + InputEvents(course.transactions, course.accounts)
    && (forall id :: BalanceAt(LedgerAfter(start, steps), id) == NetOf(steps, id))
    && (forall k :: AllowanceAt(LedgerAfter(start, steps), k) == Promised(GrantOf(steps, k), LedgerAfter(start, steps).sequence))
    && Tells(LedgerAfter(start, steps), IdealOf(start.sequence, steps))
  }

  lemma KeptRun(
    e: Env, m: ContractState, accounts: seq<Address>, course: Course, log: seq<AuthEntry>, verdicts: seq<bool>,
    checks: seq<Checkpoint>)
    requires InLockstep(e, m, accounts) && Distinct(accounts) && course.Valid() && course.accounts == accounts
    requires UpToDate(checks, e.steps)
    requires Progress(course, |course.transactions|, Here(e, |log|), log, verdicts, checks, e.start, e.steps)
    ensures Clear(course) && Kept(course, log, checks, e.start, e.steps)
  {
    CourseAddsUp(course, |course.transactions|);
    assert course.transactions[..|course.transactions|] == course.transactions;
    forall i | 0 <= i < |course.transactions| ensures course.HurdleAt(i).None? {
      assert Passed(course, i, checks[i], e.start, e.steps);
    }
    RunIsIdeal(e.host, e.start, e.steps);
    forall id ensures BalanceAt(e.Snapshot(), id) == NetOf(e.steps, id) {
      BalanceFollowsHistory(e.host, e.start, e.steps, id);
      LossIsShared(e.host, e.start, e.steps, id);
    }
    forall k ensures AllowanceAt(e.Snapshot(), k) == Promised(GrantOf(e.steps, k), e.sequence) {
      AllowanceFollowsHistory(e.host, e.start, e.steps, k);
    }
  }
}
