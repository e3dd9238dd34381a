/**
 Executing commands (fuzz.rs, `exec_command`). Each arm authorises and makes the call, checks the
 result against what the command should allow, and on success books it in the mirror. The checks and
 the mirror's own assertions are proof obligations: no input makes one of them fail.
 */
module Commands {
  import opened Prelude
  import opened Host
  import opened Token
  import opened Supply
  import opened Runs
  import opened Environment
  import opened BalanceStore
  import opened TokenContract
  import opened Clock
  import opened Input
  import opened Authorisation
  import opened Mirror
  import opened Lockstep
  import opened Outcomes

  /**
   How signing goes at ledger `now`, from nonce `nonce` and with `flags` flags to serve: it stops only
   when the clock or the nonces run out, and otherwise hands out the next nonces in order.
   */
  ghost predicate Signed(h: SorobanHost, now: nat, nonce: nat, flags: nat, status: Status, nonce': nat, entries: seq<AuthEntry>) {
    && Numbered(entries, nonce)
    && match status
       case Completed =>
         && now + h.maxEntryTtl <= U32_MAX
         && nonce' == nonce + flags == nonce + |entries| <= I64_MAX
       case Panicked(panic) =>
         if now + h.maxEntryTtl > U32_MAX then panic == EndOfTime
         else panic == NonceOverflow && nonce + flags > I64_MAX
  }

  lemma SignedTwice(
    h: SorobanHost, now: nat, nonce: nat, flags0: nat, nonce0: nat, entries0: seq<AuthEntry>,
    flags1: nat, status: Status, nonce1: nat, entries1: seq<AuthEntry>)
    requires Signed(h, now, nonce, flags0, Completed, nonce0, entries0)
    requires Signed(h, now, nonce0, flags1, status, nonce1, entries1)
    ensures Signed(h, now, nonce, flags0 + flags1, status, nonce1, entries0 + entries1)
  {
  }

  /** The account whose authorisation a call needs; account 0 is the administrator. */
  predicate SignedBy(c: Call, accounts: seq<Address>, signer: nat)
    requires signer < |accounts|
  {
    match c
    case Mint(_, _) => signer == 0
    case Approve(from, _, _, _) => from == accounts[signer]
    case TransferFrom(spender, _, _, _) => spender == accounts[signer]
    case Transfer(from, _, _) => from == accounts[signer]
    case BurnFrom(spender, _, _) => spender == accounts[signer]
    case Burn(from, _) => from == accounts[signer]
    case _ => false
  }

  /** What the driver may conclude about the token's state from a command call. */
  ghost predicate Consequences(t: TokenState, now: nat, c: Call, r: Result<Reply>, t': TokenState) {
    && (r.Err? ==> t' == t)
    && (r.Ok? ==> Effect(t, now, c, t') && Solvent(t) && Solvent(t'))
  }

  lemma CallConsequences(
    h: SorobanHost, l: Ledger, auths: set<Address>, c: Call, r: Result<Reply>, l': Ledger,
    accounts: seq<Address>, data: InstanceData)
    requires Sound(l) && Settled(l, accounts, data, l.sequence + BALANCE_LIFETIME_THRESHOLD)
    requires data.admin.Some? && Ordinary(c, accounts) && CallSpec(h, l, auths, c, r, l')
    ensures l'.sequence == l.sequence && l'.timestamp == l.timestamp
    ensures Settled(l', accounts, data, l'.sequence + BALANCE_LIFETIME_THRESHOLD)
    ensures l.instance.value.liveUntil <= l'.instance.value.liveUntil
    ensures Consequences(View(l), l.sequence, c, r, View(l'))
  {
    CallKeepsSettled(h, l, auths, c, r, l', accounts, data);
    CallKeepsSound(h, l, auths, c, r, l');
    if r.Ok? {
      CallHasEffect(h, l, auths, c, r, l', accounts);
    }
  }

  /** A negative amount, or a signer that does not sign, and the token says no. */
  lemma UnsoundCallFails(
    h: SorobanHost, l: Ledger, accounts: seq<Address>, auths: seq<bool>, signer: nat, c: Call, r: Result<Reply>, l': Ledger)
    requires |accounts| == |auths| && Distinct(accounts) && signer < |accounts| && SignedBy(c, accounts, signer)
    requires View(l).admin == Some(accounts[0])
    requires CallSpec(h, l, Flagged(accounts, auths), c, r, l')
    ensures c.amount < 0 ==> r.Err?
    ensures !auths[signer] ==> r.Err?
  {
    FlagsSign(accounts, auths, signer);
  }

  /** A history grown by one call. */
  ghost predicate Grown(past: seq<Step>, event: Event, reply: Result<Reply>, steps: seq<Step>) {
    && |steps| == |past| + 1
    && Prior(steps) == past
    && Last(steps).event == event
    && Last(steps).reply == reply
  }

  /** One more command call in the books. */
  lemma CallRecorded(start: Ledger, steps: seq<Step>, auths: set<Address>, c: Call, r: Result<Reply>, l: Ledger, accounts: seq<Address>)
    requires Ordinary(c, accounts)
    ensures Recorded(TallyOf(start, steps), auths, c, r.Ok?, TallyOf(start, steps + [Step(Invoke(auths, c), r, l)]))
  {
    TallyAfterCall(start, steps, Step(Invoke(auths, c), r, l));
  }

  /** Making a signed call. */
  method MakeCall(e: Env, accounts: seq<Address>, c: Call, ghost data: InstanceData) returns (r: Result<Reply>)
    requires Standing(e, accounts, data) && data.admin.Some? && Ordinary(c, accounts)
    modifies e
    ensures Standing(e, accounts, data)
    ensures e.sequence == old(e.sequence) && e.timestamp == old(e.timestamp)
    ensures CallSpec(e.host, old(e.Snapshot()), old(e.auths), c, r, e.Snapshot())
    ensures Consequences(View(old(e.Snapshot())), e.sequence, c, r, View(e.Snapshot()))
    ensures Recorded(old(e.Books()), old(e.auths), c, r.Ok?, e.Books())
    ensures Grown(old(e.steps), Invoke(old(e.auths), c), r, e.steps)
  {
    ReachableIsSound(e.host, e.start, e.steps);
    ghost var before, steps := e.Snapshot(), e.steps;
    r := TryInvoke(e, c);
    CallRecorded(e.start, steps, e.auths, c, r, e.Snapshot(), accounts);
    CallConsequences(e.host, before, e.auths, c, r, e.Snapshot(), accounts, data);
  }

  /** Signing a call and making it. */
  method Issue(
    e: Env, accounts: seq<Address>, auths: seq<bool>, c: Call, nonce: nat, ghost signer: nat, ghost data: InstanceData)
    returns (status: Status, r: Result<Reply>, nonce': nat, entries: seq<AuthEntry>)
    requires Standing(e, accounts, data) && |accounts| == |auths| && nonce <= I64_MAX && Distinct(accounts)
    requires signer < |accounts| && SignedBy(c, accounts, signer)
    requires data.admin == Some(accounts[0]) && Ordinary(c, accounts)
    modifies e
    ensures Signed(e.host, old(e.sequence), nonce, FlagCount(auths), status, nonce', entries)
    ensures e.Continues(old(e.steps))
    ensures status.Completed? ==>
      && Grown(old(e.steps), Invoke(Flagged(accounts, auths), c), r, e.steps)
      && Standing(e, accounts, data)
      && e.sequence == old(e.sequence) && e.timestamp == old(e.timestamp)
      && Consequences(View(old(e.Snapshot())), e.sequence, c, r, View(e.Snapshot()))
      && Recorded(old(e.Books()), Flagged(accounts, auths), c, r.Ok?, e.Books())
      && (c.amount < 0 ==> r.Err?)
      && (!auths[signer] ==> r.Err?)
  {
    r := Err(Unauthorized);
    status, nonce', entries := MockAuths(e, accounts, auths, nonce);
    EntriesAreConsecutive(accounts, auths, nonce);
    if status.Completed? {
      ghost var before := e.Snapshot();
      r := MakeCall(e, accounts, c, data);
      UnsoundCallFails(e.host, before, accounts, auths, signer, c, r, e.Snapshot());
    }
  }

  /** Booking a successful call in the mirror: its effect on balances and totals. */
  method BookBalances(m: ContractState, c: Call, accounts: seq<Address>, ghost t: TokenState, ghost now: nat, ghost t': TokenState)
    requires Ordinary(c, accounts) && Solvent(t') && Effect(t, now, c, t')
    requires BalancesAgree(m.balances, t.balances, accounts) && Solvent(t)
    modifies m`balances, m`sumOfMints, m`sumOfBurns
    ensures BalancesAgree(m.balances, t'.balances, accounts)
    ensures m.sumOfMints == old(m.sumOfMints) + if c.Mint? then c.amount else 0
    ensures m.sumOfBurns == old(m.sumOfBurns) + if c.Burn? || c.BurnFrom? then c.amount else 0
  {
    match c
    case Mint(to, amount) =>
      CreditAgrees(m.balances, t.balances, accounts, to, amount);
      m.AddBalance(to, amount);
      m.sumOfMints := m.sumOfMints + amount;
    case Approve(_, _, _, _) =>
    case TransferFrom(_, from, to, amount) =>
      MirrorMove(m, accounts, from, to, amount, t.balances);
    case Transfer(from, to, amount) =>
      MirrorMove(m, accounts, from, to, amount, t.balances);
    case BurnFrom(_, from, amount) =>
      DebitAgrees(m.balances, t.balances, accounts, from, amount);
      m.SubBalance(from, amount);
      m.sumOfBurns := m.sumOfBurns + amount;
    case Burn(from, amount) =>
      DebitAgrees(m.balances, t.balances, accounts, from, amount);
      m.SubBalance(from, amount);
      m.sumOfBurns := m.sumOfBurns + amount;
  }

  /** The mirror's side of a transfer. */
  method MirrorMove(m: ContractState, accounts: seq<Address>, from: Address, to: Address, amount: int, ghost b: map<Address, int>)
    requires from in accounts && to in accounts && 0 <= amount && Fit(b) && Moved(b, from, to, amount).Ok?
    requires BalancesAgree(m.balances, b, accounts)
    modifies m`balances
    ensures BalancesAgree(m.balances, Moved(b, from, to, amount).value, accounts)
  {
    MoveAgrees(m.balances, b, accounts, from, to, amount);
    m.SubBalance(from, amount);
    m.AddBalance(to, amount);
  }

  /** Booking a successful call in the mirror: its effect on allowances. */
  method BookAllowances(m: ContractState, c: Call, accounts: seq<Address>, ghost t: TokenState, ghost now: nat, ghost t': TokenState)
    requires Ordinary(c, accounts) && Solvent(t) && Effect(t, now, c, t')
    requires AllowancesAgree(m.allowances, t.approvals, now, accounts)
    modifies m`allowances
    ensures AllowancesAgree(m.allowances, t'.approvals, now, accounts)
  {
    match c
    case Approve(from, spender, amount, expirationLedger) =>
      ApprovalAgrees(m.allowances, t.approvals, now, accounts, AllowanceKey(from, spender), amount, expirationLedger);
      m.SetAllowance(from, spender, amount);
    case TransferFrom(spender, from, _, amount) =>
      DrawAgrees(m.allowances, t.approvals, now, accounts, from, spender, amount);
      m.SubAllowance(from, spender, amount);
    case BurnFrom(spender, from, amount) =>
      DrawAgrees(m.allowances, t.approvals, now, accounts, from, spender, amount);
      m.SubAllowance(from, spender, amount);
    case _ =>
  }

  /** Booking the outcome of a call, whatever it was. */
  method Book(
    m: ContractState, c: Call, r: Result<Reply>, accounts: seq<Address>,
    ghost auths: set<Address>, ghost t: TokenState, ghost now: nat, ghost books: Tally, ghost t': TokenState, ghost books': Tally)
    requires Ordinary(c, accounts) && Consequences(t, now, c, r, t') && Recorded(books, auths, c, r.Ok?, books')
    requires Agrees(m, t, now, books, accounts)
    modifies m
    ensures Agrees(m, t', now, books', accounts)
  {
    if r.Ok? {
      BookBalances(m, c, accounts, t, now, t');
      BookAllowances(m, c, accounts, t, now, t');
    }
  }

  /** What each of the six simple arms does: sign, call, check, book. */
  method Perform(
    e: Env, m: ContractState, accounts: seq<Address>, auths: seq<bool>, signer: nat, c: Call, nonce: nat)
    returns (status: Status, nonce': nat, entries: seq<AuthEntry>, r: Result<Reply>)
    requires InLockstep(e, m, accounts) && Distinct(accounts) && nonce <= I64_MAX && |auths| == |accounts|
    requires Ordinary(c, accounts) && signer < |accounts| && SignedBy(c, accounts, signer)
    modifies e, m
    ensures Signed(e.host, old(e.sequence), nonce, FlagCount(auths), status, nonce', entries)
    ensures e.Continues(old(e.steps))
    ensures status.Completed? ==>
      && InLockstep(e, m, accounts)
      && Grown(old(e.steps), Invoke(Flagged(accounts, auths), c), r, e.steps)
      && e.sequence == old(e.sequence) && e.timestamp == old(e.timestamp)
      && e.Books().issued == old(e.Books().issued) + [Invoke(Flagged(accounts, auths), c)]
  {
    ghost var t, books := View(e.Snapshot()), e.Books();
    status, r, nonce', entries := Issue(e, accounts, auths, c, nonce, signer, DataOf(m, accounts[0]));
    if status.Panicked? {
      return;
    }
    if c.amount < 0 {
      assert r.Err?;
    }
    if !auths[signer] {
      assert r.Err?;
    }
    Book(m, c, r, accounts, Flagged(accounts, auths), t, e.sequence, books, View(e.Snapshot()), e.Books());
  }

  /** The call that a simple command makes, and the index of the account that has to sign it. */
  method CallFor(cmd: Command, accounts: seq<Address>) returns (signer: nat, call: Call)
    requires CommandOk(cmd, |accounts|) && !cmd.IsComposite() && |accounts| > 0
    ensures signer < |accounts| && SignedBy(call, accounts, signer) && Ordinary(call, accounts)
    ensures EventsOf(cmd, accounts) == [Invoke(Flagged(accounts, cmd.Auths()), call)]
  {
    match cmd
    case Mint(i) =>
      signer := 0;
      call := Call.Mint(accounts[i.toAccountIndex], i.amount);
    case Approve(i) =>
      signer := i.fromAccountIndex;
      call := Call.Approve(
        accounts[i.fromAccountIndex], accounts[i.spenderAccountIndex], i.amount, i.expirationLedger);
    case TransferFrom(i) =>
      signer := i.spenderAccountIndex;
      call := Call.TransferFrom(
        accounts[i.spenderAccountIndex], accounts[i.fromAccountIndex], accounts[i.toAccountIndex], i.amount);
    case Transfer(i) =>
      signer := i.fromAccountIndex;
      call := Call.Transfer(accounts[i.fromAccountIndex], accounts[i.toAccountIndex], i.amount);
    case BurnFrom(i) =>
      signer := i.spenderAccountIndex;
      call := Call.BurnFrom(accounts[i.spenderAccountIndex], accounts[i.fromAccountIndex], i.amount);
    case Burn(i) =>
      signer := i.fromAccountIndex;
      call := Call.Burn(accounts[i.fromAccountIndex], i.amount);
  }

  /** A command that makes a single call. */
  method ExecSimple(e: Env, m: ContractState, accounts: seq<Address>, cmd: Command, nonce: nat)
    returns (status: Status, nonce': nat, entries: seq<AuthEntry>, r: Result<Reply>)
    requires InLockstep(e, m, accounts) && Distinct(accounts) && nonce <= I64_MAX
    requires CommandOk(cmd, |accounts|) && !cmd.IsComposite()
    modifies e, m
    ensures Signed(e.host, old(e.sequence), nonce, FlagsOf(cmd), status, nonce', entries)
    ensures e.Continues(old(e.steps))
    ensures status.Completed? ==>
      && InLockstep(e, m, accounts)
      && Grown(old(e.steps), EventsOf(cmd, accounts)[0], r, e.steps)
      && e.sequence == old(e.sequence) && e.timestamp == old(e.timestamp)
      && e.Books().issued == old(e.Books().issued) + EventsOf(cmd, accounts)
  {
    var signer, call := CallFor(cmd, accounts);
    status, nonce', entries, r := Perform(e, m, accounts, cmd.Auths(), signer, call, nonce);
  }

  /** The two halves of a composite command. The second is executed whatever became of the first. */
  method ExecPair(e: Env, m: ContractState, accounts: seq<Address>, first: Command, second: Command, nonce: nat)
    returns (status: Status, nonce': nat, entries: seq<AuthEntry>)
    requires InLockstep(e, m, accounts) && Distinct(accounts) && nonce <= I64_MAX
    requires CommandOk(first, |accounts|) && !first.IsComposite()
    requires CommandOk(second, |accounts|) && !second.IsComposite()
    modifies e, m
    ensures Signed(e.host, old(e.sequence), nonce, FlagsOf(first) + FlagsOf(second), status, nonce', entries)
    ensures e.Continues(old(e.steps))
    ensures status.Completed? ==>
      && InLockstep(e, m, accounts)
      && GrownTwice(old(e.steps), EventsOf(first, accounts)[0], EventsOf(second, accounts)[0], e.steps)
      && e.sequence == old(e.sequence) && e.timestamp == old(e.timestamp)
      && e.Books().issued == old(e.Books().issued) + (EventsOf(first, accounts) + EventsOf(second, accounts))
  {
    ghost var now, issued := e.sequence, e.Books().issued;
    var entries0, entries1, r;
    status, nonce', entries0, r := ExecSimple(e, m, accounts, first, nonce);
    entries := entries0;
    if status.Panicked? {
      return;
    }
    ghost var nonce0 := nonce';
    status, nonce', entries1, r := ExecSimple(e, m, accounts, second, nonce');
    entries := entries0 + entries1;
    Regroup(issued, EventsOf(first, accounts), EventsOf(second, accounts));
    SignedTwice(
      e.host, now, nonce, FlagsOf(first), nonce0, entries0, FlagsOf(second), status, nonce', entries1);
  }

  /** A history grown by two calls. */
  ghost predicate GrownTwice(past: seq<Step>, first: Event, second: Event, steps: seq<Step>) {
    && |steps| == |past| + 2
    && Prior(Prior(steps)) == past
    && Last(Prior(steps)).event == first
    && Last(steps).event == second
  }

  /** A composite command stands for the calls of its halves, one after the other. */
  method Halves(cmd: Command, accounts: seq<Address>) returns (first: Command, second: Command)
    requires CommandOk(cmd, |accounts|) && cmd.IsComposite()
    ensures CommandOk(first, |accounts|) && !first.IsComposite()
    ensures CommandOk(second, |accounts|) && !second.IsComposite()
    ensures EventsOf(cmd, accounts) == EventsOf(first, accounts) + EventsOf(second, accounts)
    ensures FlagsOf(cmd) == FlagsOf(first) + FlagsOf(second)
    ensures DrawsOn(EventsOf(second, accounts)[0], EventsOf(first, accounts)[0])
  {
    match cmd
    case ApproveAndTransferFrom(i) =>
      first, second := Command.Approve(i.ToApproveInput()), Command.TransferFrom(i.ToTransferFromInput());
    case ApproveAndBurnFrom(i) =>
      first, second := Command.Approve(i.ToApproveInput()), Command.BurnFrom(i.ToBurnFromInput());
  }

  /**
   How a composite command ends: once its approval has been accepted, the draw cannot fail for want of
   allowance, and the mirrored allowance is zero if the draw succeeded and the approved amount if not.
   */
  ghost predicate CompositeSettled(cmd: Command, accounts: seq<Address>, steps: seq<Step>, mirrored: map<AllowanceKey, int>)
    requires CommandOk(cmd, |accounts|) && cmd.IsComposite()
  {
    var approval := CallsOf(cmd, accounts)[0];
    && |steps| >= 2
    && [Last(Prior(steps)).event, Last(steps).event] == EventsOf(cmd, accounts)
    && (Last(Prior(steps)).reply.Ok? ==>
          DrawOutcome(approval.amount, Last(steps).reply, Granted(mirrored, AllowanceKey(approval.from, approval.spender))))
  }

  lemma CompositeSettles(e: Env, m: ContractState, cmd: Command, accounts: seq<Address>, past: seq<Step>)
    requires CommandOk(cmd, |accounts|) && cmd.IsComposite() && InLockstep(e, m, accounts)
    requires
      var events := EventsOf(cmd, accounts);
      GrownTwice(past, events[0], events[1], e.steps) && DrawsOn(events[1], events[0])
    ensures CompositeSettled(cmd, accounts, e.steps, m.allowances)
  {
    if Last(Prior(e.steps)).reply.Ok? {
      ApproveThenDraw(e.host, e.start, e.steps);
    }
  }

  /** A history grown by the calls of a command. */
  ghost predicate GrownBy(past: seq<Step>, cmd: Command, accounts: seq<Address>, steps: seq<Step>)
    requires CommandOk(cmd, |accounts|)
  {
    var events := EventsOf(cmd, accounts);
    if cmd.IsComposite() then GrownTwice(past, events[0], events[1], steps)
    else |steps| == |past| + 1 && Prior(steps) == past && Last(steps).event == events[0]
  }

  /** Executing a command has the outcome that its fields describe. */
  lemma CommandHasOutcome(
    h: SorobanHost, cmd: Command, accounts: seq<Address>, start: Ledger, past: seq<Step>, steps: seq<Step>)
    requires CommandOk(cmd, |accounts|) && GrownBy(past, cmd, accounts, steps)
    requires IsRun(h, start, steps) && Ready(LedgerAfter(start, past), accounts)
    ensures |steps| == |past| + (if cmd.IsComposite() then 2 else 1)
    ensures CommandOutcome(h, cmd, accounts, start, steps)
  {
    if cmd.IsComposite() {
      RunUnfolds(h, start, steps);
      FirstCallHasOutcome(h, cmd, accounts, start, Prior(steps));
    }
    LastCallHasOutcome(h, cmd, accounts, start, steps);
  }

  /** The calls of a command, one or two. */
  method ExecCalls(e: Env, m: ContractState, accounts: seq<Address>, cmd: Command, nonce: nat)
    returns (status: Status, nonce': nat, entries: seq<AuthEntry>)
    requires InLockstep(e, m, accounts) && Distinct(accounts) && nonce <= I64_MAX
    requires CommandOk(cmd, |accounts|)
    modifies e, m
    ensures Signed(e.host, old(e.sequence), nonce, FlagsOf(cmd), status, nonce', entries)
    ensures e.Continues(old(e.steps))
    ensures status.Completed? ==>
      && InLockstep(e, m, accounts)
      && e.sequence == old(e.sequence) && e.timestamp == old(e.timestamp)
      && e.Books().issued == old(e.Books().issued) + EventsOf(cmd, accounts)
      && GrownBy(old(e.steps), cmd, accounts, e.steps)
      && (cmd.IsComposite() ==> CompositeSettled(cmd, accounts, e.steps, m.allowances))
  {
    if cmd.IsComposite() {
      var first, second := Halves(cmd, accounts);
      status, nonce', entries := ExecPair(e, m, accounts, first, second, nonce);
      if status.Completed? {
        CompositeSettles(e, m, cmd, accounts, old(e.steps));
      }
    } else {
      var r;
      status, nonce', entries, r := ExecSimple(e, m, accounts, cmd, nonce);
    }
  }

  /**
   One command, from lockstep to lockstep. Whether its calls succeed or fail, mirror and token agree
   afterwards; the calls made are those the command stands for, signed by the flagged accounts, and
   they have the outcome that the command's fields describe.
   */
  method ExecCommand(e: Env, m: ContractState, accounts: seq<Address>, cmd: Command, nonce: nat)
    returns (status: Status, nonce': nat, entries: seq<AuthEntry>)
    requires InLockstep(e, m, accounts) && Distinct(accounts) && nonce <= I64_MAX
    requires CommandOk(cmd, |accounts|)
    modifies e, m
    ensures Signed(e.host, old(e.sequence), nonce, FlagsOf(cmd), status, nonce', entries)
    ensures e.Continues(old(e.steps))
    ensures status.Completed? ==>
      && InLockstep(e, m, accounts)
      && e.sequence == old(e.sequence) && e.timestamp == old(e.timestamp)
      && e.Books().issued == old(e.Books().issued) + EventsOf(cmd, accounts)
      && |e.steps| == |old(e.steps)| + (if cmd.IsComposite() then 2 else 1)
      && CommandOutcome(e.host, cmd, accounts, e.start, e.steps)
      && (cmd.IsComposite() ==> CompositeSettled(cmd, accounts, e.steps, m.allowances))
  {
    ReachableIsSound(e.host, e.start, e.steps);
    status, nonce', entries := ExecCalls(e, m, accounts, cmd, nonce);
    if status.Completed? {
      CommandHasOutcome(e.host, cmd, accounts, e.start, old(e.steps), e.steps);
    }
  }
}
