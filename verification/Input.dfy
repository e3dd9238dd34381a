/** What the fuzzer is given to do (input.rs). Accounts are named by their index in the account list. */
module Input {
  import opened Prelude
  import opened Host
  import opened Token
  import opened Supply
  import opened Runs

  datatype MintInput = MintInput(amount: i128, toAccountIndex: nat, auths: seq<bool>)

  datatype ApproveInput = ApproveInput(
    amount: i128, expirationLedger: nat, fromAccountIndex: nat, spenderAccountIndex: nat, auths: seq<bool>)

  datatype TransferFromInput = TransferFromInput(
    amount: i128, spenderAccountIndex: nat, fromAccountIndex: nat, toAccountIndex: nat, auths: seq<bool>)

  datatype TransferInput = TransferInput(amount: i128, fromAccountIndex: nat, toAccountIndex: nat, auths: seq<bool>)

  datatype BurnFromInput = BurnFromInput(amount: i128, spenderAccountIndex: nat, fromAccountIndex: nat, auths: seq<bool>)

  datatype BurnInput = BurnInput(amount: i128, fromAccountIndex: nat, auths: seq<bool>)

  datatype ApproveAndTransferFromInput = ApproveAndTransferFromInput(
    amount: i128, expirationLedger: nat, fromAccountIndex: nat, spenderAccountIndex: nat, toAccountIndex: nat,
    auths: seq<bool>)
  {
    function ToApproveInput(): ApproveInput {
      ApproveInput(amount, expirationLedger, fromAccountIndex, spenderAccountIndex, auths)
    }

    function ToTransferFromInput(): TransferFromInput {
      TransferFromInput(amount, spenderAccountIndex, fromAccountIndex, toAccountIndex, auths)
    }
  }

  datatype ApproveAndBurnFromInput = ApproveAndBurnFromInput(
    amount: i128, expirationLedger: nat, fromAccountIndex: nat, spenderAccountIndex: nat, toAccountIndex: nat,
    auths: seq<bool>)
  {
    function ToApproveInput(): ApproveInput {
      ApproveInput(amount, expirationLedger, fromAccountIndex, spenderAccountIndex, auths)
    }

    function ToBurnFromInput(): BurnFromInput {
      BurnFromInput(amount, spenderAccountIndex, fromAccountIndex, auths)
    }
  }

  datatype Command =
    | Mint(mint: MintInput)
    | Approve(approve: ApproveInput)
    | TransferFrom(transferFrom: TransferFromInput)
    | Transfer(transfer: TransferInput)
    | BurnFrom(burnFrom: BurnFromInput)
    | Burn(burn: BurnInput)
    | ApproveAndTransferFrom(approveAndTransferFrom: ApproveAndTransferFromInput)
    | ApproveAndBurnFrom(approveAndBurnFrom: ApproveAndBurnFromInput)
  {
    predicate IsComposite() {
      ApproveAndTransferFrom? || ApproveAndBurnFrom?
    }

    function Auths(): seq<bool> {
      match this
      case Mint(i) => i.auths
      case Approve(i) => i.auths
      case TransferFrom(i) => i.auths
      case Transfer(i) => i.auths
      case BurnFrom(i) => i.auths
      case Burn(i) => i.auths
      case ApproveAndTransferFrom(i) => i.auths
      case ApproveAndBurnFrom(i) => i.auths
    }

    /** Every account index that the command uses is below `n`. */
    predicate Within(n: nat) {
      match this
      case Mint(i) => i.toAccountIndex < n
      case Approve(i) => i.fromAccountIndex < n && i.spenderAccountIndex < n
      case TransferFrom(i) => i.spenderAccountIndex < n && i.fromAccountIndex < n && i.toAccountIndex < n
      case Transfer(i) => i.fromAccountIndex < n && i.toAccountIndex < n
      case BurnFrom(i) => i.spenderAccountIndex < n && i.fromAccountIndex < n
      case Burn(i) => i.fromAccountIndex < n
      case ApproveAndTransferFrom(i) => i.fromAccountIndex < n && i.spenderAccountIndex < n && i.toAccountIndex < n
      case ApproveAndBurnFrom(i) => i.fromAccountIndex < n && i.spenderAccountIndex < n && i.toAccountIndex < n
    }
  }

  datatype Transaction = Transaction(commands: seq<Command>, advanceLedgers: nat)

  /** The ranges within which commands are drawn for `n` accounts. Any expiration ledger is allowed. */
  predicate CommandOk(c: Command, n: nat) {
    |c.Auths()| == n && c.Within(n)
  }

  predicate TransactionOk(t: Transaction, n: nat) {
    && 1 <= t.advanceLedgers <= DAY_IN_LEDGERS
    && forall i :: 0 <= i < |t.commands| ==> CommandOk(t.commands[i], n)
  }

  /******* What an input asks for *******/

  /** The accounts whose flag is up. */
  function Flagged(accounts: seq<Address>, auths: seq<bool>): set<Address>
    requires |accounts| == |auths|
  {
    set i | 0 <= i < |accounts| && auths[i] :: accounts[i]
  }

  /** Exactly the raised flags sign. */
  lemma FlagsSign(accounts: seq<Address>, flags: seq<bool>, i: nat)
    requires |accounts| == |flags| && Distinct(accounts) && i < |accounts|
    ensures accounts[i] in Flagged(accounts, flags) <==> flags[i]
  {
  }

  function FlagCount(auths: seq<bool>): nat {
    if auths == [] then 0 else FlagCount(auths[..|auths| - 1]) + (if auths[|auths| - 1] then 1 else 0)
  }

  /** The contract calls that a command stands for. */
  function CallsOf(c: Command, accounts: seq<Address>): seq<Call>
    requires CommandOk(c, |accounts|)
  {
    match c
    case Mint(i) => [Call.Mint(accounts[i.toAccountIndex], i.amount)]
    case Approve(i) =>
      [Call.Approve(accounts[i.fromAccountIndex], accounts[i.spenderAccountIndex], i.amount, i.expirationLedger)]
    case TransferFrom(i) =>
      [Call.TransferFrom(
        accounts[i.spenderAccountIndex], accounts[i.fromAccountIndex], accounts[i.toAccountIndex], i.amount)]
    case Transfer(i) => [Call.Transfer(accounts[i.fromAccountIndex], accounts[i.toAccountIndex], i.amount)]
    case BurnFrom(i) => [Call.BurnFrom(accounts[i.spenderAccountIndex], accounts[i.fromAccountIndex], i.amount)]
    case Burn(i) => [Call.Burn(accounts[i.fromAccountIndex], i.amount)]
    case ApproveAndTransferFrom(i) =>
      [Call.Approve(accounts[i.fromAccountIndex], accounts[i.spenderAccountIndex], i.amount, i.expirationLedger),
       Call.TransferFrom(
         accounts[i.spenderAccountIndex], accounts[i.fromAccountIndex], accounts[i.toAccountIndex], i.amount)]
    case ApproveAndBurnFrom(i) =>
      [Call.Approve(accounts[i.fromAccountIndex], accounts[i.spenderAccountIndex], i.amount, i.expirationLedger),
       Call.BurnFrom(accounts[i.spenderAccountIndex], accounts[i.fromAccountIndex], i.amount)]
  }

  function EventsOf(c: Command, accounts: seq<Address>): seq<Event>
    requires CommandOk(c, |accounts|)
  {
    var calls, auths := CallsOf(c, accounts), Flagged(accounts, c.Auths());
    if |calls| == 1 then [Invoke(auths, calls[0])] else [Invoke(auths, calls[0]), Invoke(auths, calls[1])]
  }

  /** The authorisation flags that a command raises; a composite raises its flags twice. */
  function FlagsOf(c: Command): nat {
    var n := FlagCount(c.Auths());
    if c.IsComposite() then n + n else n
  }

  function CommandEvents(commands: seq<Command>, accounts: seq<Address>): seq<Event>
    requires forall i :: 0 <= i < |commands| ==> CommandOk(commands[i], |accounts|)
  {
    if commands == [] then [] else EventsOf(commands[0], accounts) + CommandEvents(commands[1..], accounts)
  }

  function CommandFlags(commands: seq<Command>): nat {
    if commands == [] then 0 else FlagsOf(commands[0]) + CommandFlags(commands[1..])
  }

  predicate TransactionsOk(transactions: seq<Transaction>, n: nat) {
    forall i :: 0 <= i < |transactions| ==> TransactionOk(transactions[i], n)
  }

  lemma Regroup(a: seq<Event>, b: seq<Event>, c: seq<Event>)
    ensures (a + b) + c == a + (b + c)
  {
  }

  predicate CommandsOk(commands: seq<Command>, n: nat) {
    forall i :: 0 <= i < |commands| ==> CommandOk(commands[i], n)
  }

  /** The calls of two stretches of commands are those of the first and then those of the second. */
  lemma {:induction false} CommandsJoin(first: seq<Command>, second: seq<Command>, accounts: seq<Address>)
    requires CommandsOk(first, |accounts|) && CommandsOk(second, |accounts|) && CommandsOk(first + second, |accounts|)
    ensures CommandEvents(first + second, accounts) == CommandEvents(first, accounts) + CommandEvents(second, accounts)
  {
    if first == [] {
      assert first + second == second;
    } else {
      assert (first + second)[1..] == first[1..] + second;
      CommandsJoin(first[1..], second, accounts);
      Regroup(EventsOf(first[0], accounts), CommandEvents(first[1..], accounts), CommandEvents(second, accounts));
    }
  }

  /** A command on its own contributes its calls. */
  lemma SingleCommand(c: Command, accounts: seq<Address>)
    requires CommandOk(c, |accounts|)
    ensures CommandEvents([c], accounts) == EventsOf(c, accounts)
  {
    assert CommandEvents([c][1..], accounts) == [];
    NothingAdded(EventsOf(c, accounts));
  }

  lemma NothingAdded(a: seq<Event>)
    ensures a + [] == a
  {
  }

  function InputEvents(transactions: seq<Transaction>, accounts: seq<Address>): seq<Event>
    requires TransactionsOk(transactions, |accounts|)
  {
    if transactions == [] then []
    else
      var n := |transactions| - 1;
      InputEvents(transactions[..n], accounts) + CommandEvents(transactions[n].commands, accounts)
  }

  function InputFlags(transactions: seq<Transaction>): nat {
    if transactions == [] then 0
    else
      var n := |transactions| - 1;
      InputFlags(transactions[..n]) + CommandFlags(transactions[n].commands)
  }

  function InputLedgers(transactions: seq<Transaction>): nat {
    if transactions == [] then 0
    else
      var n := |transactions| - 1;
      InputLedgers(transactions[..n]) + transactions[n].advanceLedgers
  }

  /** Every transaction adds its commands' calls and flags, and its ledgers, to those before it. */
  lemma TransactionAdded(before: seq<Transaction>, t: Transaction, accounts: seq<Address>)
    requires TransactionsOk(before, |accounts|) && TransactionOk(t, |accounts|)
    ensures InputEvents(before + [t], accounts) == InputEvents(before, accounts) + CommandEvents(t.commands, accounts)
    ensures InputFlags(before + [t]) == InputFlags(before) + CommandFlags(t.commands)
    ensures InputLedgers(before + [t]) == InputLedgers(before) + t.advanceLedgers
  {
    assert (before + [t])[..|before|] == before;
  }
}
