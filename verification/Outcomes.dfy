/**
 What a command comes to (fuzz.rs, `exec_command`), in the command's own terms: the accounts that its
 indices name, its amount and its flags. Each outcome speaks of one contract call, made at ledger `l`,
 answered with `r`, and leaving ledger `l'`.
 */
module Outcomes {
  import opened Prelude
  import opened Host
  import opened Token
  import opened Laws
  import opened Supply
  import opened Runs
  import opened Input

  /** Account 0 is the administrator, so that minting needs its flag, and only its flag. */
  ghost predicate MintOutcome(
    h: SorobanHost, accounts: seq<Address>, to: nat, amount: int, flags: seq<bool>, l: Ledger, r: Result<Reply>, l': Ledger)
    requires to < |accounts| == |flags|
  {
    && (l.sequence <= h.servedUntil ==>
          (r.Ok? <==> flags[0] && 0 <= amount && BalanceAt(l, accounts[to]) + amount <= I128_MAX))
    && (r.Ok? ==>
          && flags[0] && 0 <= amount
          && Shifted(l, l', None, Some(accounts[to]), amount)
          && AllowancesStand(l, l') && InstanceStands(l, l'))
    && (r.Err? ==> l' == l)
  }

  ghost predicate ApproveOutcome(
    h: SorobanHost, accounts: seq<Address>, from: nat, spender: nat, amount: int, expirationLedger: nat, flags: seq<bool>,
    l: Ledger, r: Result<Reply>, l': Ledger)
    requires from < |accounts| == |flags| && spender < |accounts|
  {
    var k := AllowanceKey(accounts[from], accounts[spender]);
    && (l.sequence <= h.servedUntil ==>
          (r.Ok? <==>
            && flags[from] && 0 <= amount
            && (amount > 0 ==> l.sequence <= expirationLedger && !Declined(h, l, k, expirationLedger))))
    && (r.Ok? ==>
          && flags[from] && 0 <= amount
          && AllowanceSet(l, l', k, amount)
          && k in l'.allowances && l'.allowances[k].value == AllowanceValue(amount, expirationLedger)
          && BalancesStand(l, l') && InstanceStands(l, l'))
    && (r.Err? ==> l' == l)
  }

  ghost predicate TransferOutcome(
    h: SorobanHost, accounts: seq<Address>, from: nat, to: nat, amount: int, flags: seq<bool>,
    l: Ledger, r: Result<Reply>, l': Ledger)
    requires from < |accounts| == |flags| && to < |accounts|
  {
    && (l.sequence <= h.servedUntil ==>
          (r.Ok? <==>
            && flags[from] && 0 <= amount <= BalanceAt(l, accounts[from])
            && SumAfterDebit(l, accounts[from], accounts[to], amount) <= I128_MAX))
    && (r.Ok? ==>
          && flags[from] && 0 <= amount
          && Shifted(l, l', Some(accounts[from]), Some(accounts[to]), amount)
          && AllowancesStand(l, l') && InstanceStands(l, l'))
    && (r.Err? ==> l' == l)
  }

  ghost predicate BurnOutcome(
    h: SorobanHost, accounts: seq<Address>, from: nat, amount: int, flags: seq<bool>, l: Ledger, r: Result<Reply>, l': Ledger)
    requires from < |accounts| == |flags|
  {
    && (l.sequence <= h.servedUntil ==> (r.Ok? <==> flags[from] && 0 <= amount <= BalanceAt(l, accounts[from])))
    && (r.Ok? ==>
          && flags[from] && 0 <= amount
          && Shifted(l, l', Some(accounts[from]), None, amount)
          && AllowancesStand(l, l') && InstanceStands(l, l'))
    && (r.Err? ==> l' == l)
  }

  ghost predicate TransferFromOutcome(
    h: SorobanHost, accounts: seq<Address>, spender: nat, from: nat, to: nat, amount: int, flags: seq<bool>,
    l: Ledger, r: Result<Reply>, l': Ledger)
    requires spender < |accounts| == |flags| && from < |accounts| && to < |accounts|
  {
    var k := AllowanceKey(accounts[from], accounts[spender]);
    && (l.sequence <= h.servedUntil ==>
          (r.Ok? <==>
            && flags[spender] && 0 <= amount <= AllowanceAt(l, k) && !RestDeclined(h, l, k, amount)
            && amount <= BalanceAt(l, accounts[from])
            && SumAfterDebit(l, accounts[from], accounts[to], amount) <= I128_MAX))
    && (r.Ok? ==>
          && flags[spender] && 0 <= amount
          && Shifted(l, l', Some(accounts[from]), Some(accounts[to]), amount)
          && AllowanceSet(l, l', k, AllowanceAt(l, k) - amount) && InstanceStands(l, l'))
    && (r.Err? ==> l' == l)
  }

  ghost predicate BurnFromOutcome(
    h: SorobanHost, accounts: seq<Address>, spender: nat, from: nat, amount: int, flags: seq<bool>,
    l: Ledger, r: Result<Reply>, l': Ledger)
    requires spender < |accounts| == |flags| && from < |accounts|
  {
    var k := AllowanceKey(accounts[from], accounts[spender]);
    && (l.sequence <= h.servedUntil ==>
          (r.Ok? <==>
            && flags[spender] && 0 <= amount <= AllowanceAt(l, k) && !RestDeclined(h, l, k, amount)
            && amount <= BalanceAt(l, accounts[from])))
    && (r.Ok? ==>
          && flags[spender] && 0 <= amount
          && Shifted(l, l', Some(accounts[from]), None, amount)
          && AllowanceSet(l, l', k, AllowanceAt(l, k) - amount) && InstanceStands(l, l'))
    && (r.Err? ==> l' == l)
  }

  /** The outcome of a command's only, or second, call. */
  ghost predicate LastOutcome(
    h: SorobanHost, cmd: Command, accounts: seq<Address>, l: Ledger, r: Result<Reply>, l': Ledger)
    requires CommandOk(cmd, |accounts|)
  {
    match cmd
    case Mint(i) => MintOutcome(h, accounts, i.toAccountIndex, i.amount, i.auths, l, r, l')
    case Approve(i) =>
      ApproveOutcome(
        h, accounts, i.fromAccountIndex, i.spenderAccountIndex, i.amount, i.expirationLedger, i.auths, l, r, l')
    case Transfer(i) => TransferOutcome(h, accounts, i.fromAccountIndex, i.toAccountIndex, i.amount, i.auths, l, r, l')
    case Burn(i) => BurnOutcome(h, accounts, i.fromAccountIndex, i.amount, i.auths, l, r, l')
    case TransferFrom(i) =>
      TransferFromOutcome(
        h, accounts, i.spenderAccountIndex, i.fromAccountIndex, i.toAccountIndex, i.amount, i.auths, l, r, l')
    case BurnFrom(i) =>
      BurnFromOutcome(h, accounts, i.spenderAccountIndex, i.fromAccountIndex, i.amount, i.auths, l, r, l')
    case ApproveAndTransferFrom(i) =>
      TransferFromOutcome(
        h, accounts, i.spenderAccountIndex, i.fromAccountIndex, i.toAccountIndex, i.amount, i.auths, l, r, l')
    case ApproveAndBurnFrom(i) =>
      BurnFromOutcome(h, accounts, i.spenderAccountIndex, i.fromAccountIndex, i.amount, i.auths, l, r, l')
  }

  /** The outcome of the approval with which a composite command begins. */
  ghost predicate FirstOutcome(
    h: SorobanHost, cmd: Command, accounts: seq<Address>, l: Ledger, r: Result<Reply>, l': Ledger)
    requires CommandOk(cmd, |accounts|) && cmd.IsComposite()
  {
    match cmd
    case ApproveAndTransferFrom(i) =>
      ApproveOutcome(
        h, accounts, i.fromAccountIndex, i.spenderAccountIndex, i.amount, i.expirationLedger, i.auths, l, r, l')
    case ApproveAndBurnFrom(i) =>
      ApproveOutcome(
        h, accounts, i.fromAccountIndex, i.spenderAccountIndex, i.amount, i.expirationLedger, i.auths, l, r, l')
  }

  /** The outcome of a command that has just been executed: that of its one call, or of both. */
  ghost predicate CommandOutcome(h: SorobanHost, cmd: Command, accounts: seq<Address>, start: Ledger, steps: seq<Step>)
    requires CommandOk(cmd, |accounts|)
  {
    && steps != []
    && LastOutcome(h, cmd, accounts, LedgerAfter(start, Prior(steps)), Last(steps).reply, Last(steps).after)
    && (cmd.IsComposite() ==>
          var prior := Prior(steps);
          && prior != []
          && FirstOutcome(h, cmd, accounts, LedgerAfter(start, Prior(prior)), Last(prior).reply, Last(prior).after))
  }

  /******* Why *******/

  /** Where a command finds the token: account 0 is the administrator, and the accounts are distinct. */
  ghost predicate Ready(l: Ledger, accounts: seq<Address>) {
    && |accounts| > 0 && Distinct(accounts)
    && Sound(l) && l.instance.Some? && View(l).admin == Some(accounts[0])
  }

  /** A call that the flagged accounts sign, made where a command finds the token. */
  ghost predicate SignedCall(
    h: SorobanHost, accounts: seq<Address>, flags: seq<bool>, c: Call, l: Ledger, r: Result<Reply>, l': Ledger)
    requires |flags| == |accounts|
  {
    Ready(l, accounts) && CallSpec(h, l, Flagged(accounts, flags), c, r, l')
  }

  lemma MintHasOutcome(
    h: SorobanHost, accounts: seq<Address>, to: nat, amount: i128, flags: seq<bool>, l: Ledger, r: Result<Reply>, l': Ledger)
    requires to < |accounts| == |flags| && SignedCall(h, accounts, flags, Call.Mint(accounts[to], amount), l, r, l')
    ensures MintOutcome(h, accounts, to, amount, flags, l, r, l')
  {
    FlagsSign(accounts, flags, 0);
    MintLaw(h, l, Flagged(accounts, flags), accounts[to], amount, r, l');
  }

  lemma ApproveHasOutcome(
    h: SorobanHost, accounts: seq<Address>, from: nat, spender: nat, amount: i128, expirationLedger: nat, flags: seq<bool>,
    l: Ledger, r: Result<Reply>, l': Ledger)
    requires from < |accounts| == |flags| && spender < |accounts|
    requires SignedCall(
      h, accounts, flags, Call.Approve(accounts[from], accounts[spender], amount, expirationLedger), l, r, l')
    ensures ApproveOutcome(h, accounts, from, spender, amount, expirationLedger, flags, l, r, l')
    ensures View(l').admin == View(l).admin && l'.instance.Some?
  {
    FlagsSign(accounts, flags, from);
    ApproveLaw(h, l, Flagged(accounts, flags), accounts[from], accounts[spender], amount, expirationLedger, r, l');
  }

  lemma TransferHasOutcome(
    h: SorobanHost, accounts: seq<Address>, from: nat, to: nat, amount: i128, flags: seq<bool>,
    l: Ledger, r: Result<Reply>, l': Ledger)
    requires from < |accounts| == |flags| && to < |accounts|
    requires SignedCall(h, accounts, flags, Call.Transfer(accounts[from], accounts[to], amount), l, r, l')
    ensures TransferOutcome(h, accounts, from, to, amount, flags, l, r, l')
  {
    FlagsSign(accounts, flags, from);
    TransferLaw(h, l, Flagged(accounts, flags), accounts[from], accounts[to], amount, r, l');
  }

  lemma BurnHasOutcome(
    h: SorobanHost, accounts: seq<Address>, from: nat, amount: i128, flags: seq<bool>, l: Ledger, r: Result<Reply>, l': Ledger)
    requires from < |accounts| == |flags| && SignedCall(h, accounts, flags, Call.Burn(accounts[from], amount), l, r, l')
    ensures BurnOutcome(h, accounts, from, amount, flags, l, r, l')
  {
    FlagsSign(accounts, flags, from);
    BurnLaw(h, l, Flagged(accounts, flags), accounts[from], amount, r, l');
  }

  lemma TransferFromHasOutcome(
    h: SorobanHost, accounts: seq<Address>, spender: nat, from: nat, to: nat, amount: i128, flags: seq<bool>,
    l: Ledger, r: Result<Reply>, l': Ledger)
    requires spender < |accounts| == |flags| && from < |accounts| && to < |accounts|
    requires SignedCall(
      h, accounts, flags, Call.TransferFrom(accounts[spender], accounts[from], accounts[to], amount), l, r, l')
    ensures TransferFromOutcome(h, accounts, spender, from, to, amount, flags, l, r, l')
  {
    FlagsSign(accounts, flags, spender);
    TransferFromLaw(h, l, Flagged(accounts, flags), accounts[spender], accounts[from], accounts[to], amount, r, l');
  }

  lemma BurnFromHasOutcome(
    h: SorobanHost, accounts: seq<Address>, spender: nat, from: nat, amount: i128, flags: seq<bool>,
    l: Ledger, r: Result<Reply>, l': Ledger)
    requires spender < |accounts| == |flags| && from < |accounts|
    requires SignedCall(h, accounts, flags, Call.BurnFrom(accounts[spender], accounts[from], amount), l, r, l')
    ensures BurnFromOutcome(h, accounts, spender, from, amount, flags, l, r, l')
  {
    FlagsSign(accounts, flags, spender);
    BurnFromLaw(h, l, Flagged(accounts, flags), accounts[spender], accounts[from], amount, r, l');
  }

  lemma LastCallHasOutcome(h: SorobanHost, cmd: Command, accounts: seq<Address>, start: Ledger, steps: seq<Step>)
    requires CommandOk(cmd, |accounts|) && steps != []
    requires IsRun(h, start, steps) && Ready(LedgerAfter(start, Prior(steps)), accounts)
    requires Last(steps).event == EventsOf(cmd, accounts)[|EventsOf(cmd, accounts)| - 1]
    ensures LastOutcome(h, cmd, accounts, LedgerAfter(start, Prior(steps)), Last(steps).reply, Last(steps).after)
  {
    RunUnfolds(h, start, steps);
    var l, r, l' := LedgerAfter(start, Prior(steps)), Last(steps).reply, Last(steps).after;
    match cmd
    case Mint(i) => MintHasOutcome(h, accounts, i.toAccountIndex, i.amount, i.auths, l, r, l');
    case Approve(i) =>
      ApproveHasOutcome(
        h, accounts, i.fromAccountIndex, i.spenderAccountIndex, i.amount, i.expirationLedger, i.auths, l, r, l');
    case Transfer(i) => TransferHasOutcome(h, accounts, i.fromAccountIndex, i.toAccountIndex, i.amount, i.auths, l, r, l');
    case Burn(i) => BurnHasOutcome(h, accounts, i.fromAccountIndex, i.amount, i.auths, l, r, l');
    case TransferFrom(i) =>
      TransferFromHasOutcome(
        h, accounts, i.spenderAccountIndex, i.fromAccountIndex, i.toAccountIndex, i.amount, i.auths, l, r, l');
    case BurnFrom(i) =>
      BurnFromHasOutcome(h, accounts, i.spenderAccountIndex, i.fromAccountIndex, i.amount, i.auths, l, r, l');
    case ApproveAndTransferFrom(i) =>
      TransferFromHasOutcome(
        h, accounts, i.spenderAccountIndex, i.fromAccountIndex, i.toAccountIndex, i.amount, i.auths, l, r, l');
    case ApproveAndBurnFrom(i) =>
      BurnFromHasOutcome(h, accounts, i.spenderAccountIndex, i.fromAccountIndex, i.amount, i.auths, l, r, l');
  }

  lemma FirstCallHasOutcome(h: SorobanHost, cmd: Command, accounts: seq<Address>, start: Ledger, steps: seq<Step>)
    requires CommandOk(cmd, |accounts|) && cmd.IsComposite() && steps != []
    requires IsRun(h, start, steps) && Ready(LedgerAfter(start, Prior(steps)), accounts)
    requires Last(steps).event == EventsOf(cmd, accounts)[0]
    ensures FirstOutcome(h, cmd, accounts, LedgerAfter(start, Prior(steps)), Last(steps).reply, Last(steps).after)
    ensures Ready(LedgerAfter(start, steps), accounts)
  {
    RunUnfolds(h, start, steps);
    ReachableIsSound(h, start, steps);
    var l, r, l' := LedgerAfter(start, Prior(steps)), Last(steps).reply, Last(steps).after;
    match cmd
    case ApproveAndTransferFrom(i) =>
      ApproveHasOutcome(
        h, accounts, i.fromAccountIndex, i.spenderAccountIndex, i.amount, i.expirationLedger, i.auths, l, r, l');
    case ApproveAndBurnFrom(i) =>
      ApproveHasOutcome(
        h, accounts, i.fromAccountIndex, i.spenderAccountIndex, i.amount, i.expirationLedger, i.auths, l, r, l');
  }
}
