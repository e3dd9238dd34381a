# The Soroban example token and its fuzzer, verified

This project models the token fuzzer of `soroban-token-fuzzer` together with the example token it
drives, and proves that the two agree on every input.

Three things are modelled, each in the form its source has.

- **The token** (`tokens/example-token/src`). Its code is imperative Dafny over an `Env` with three
  storage classes: instance (administrator, metadata), persistent (balances) and temporary
  (allowances). Every entry carries a live-until ledger; calls can fail part way and are rolled back.
  Each entry point is proved against `Token.CallSpec`: success and effect are those of `Token.Apply`, a
  closed-form token without lifetimes, and lifetimes keep certain promises. From there on, runs are
  sequences of such steps (`Runs.IsRun`), with any callers, any authorisations, any aliasing, and time
  passing anywhere.
- **The mirror** (`ContractState` in `src/fuzz.rs`): plain maps and unbounded totals.
- **The driver** (`src/fuzz.rs`): commands, signatures and their nonces, advancing time in hops with
  keep-alive pings, purging, resynchronising, asserting.

The central result is `Fuzz.FuzzToken`: for every list of transactions, every list of distinct accounts
and every lawful host, mirror and token agree after every completed transaction, so that no assertion
that compares them can fail. As long as the host serves the ledgers, the input alone determines whether a
run is rejected, kept, or stopped by the end of the clock or of the nonces, and at which transaction.
Beyond them a run may also stop because the host declines to extend a lifetime; one assertion of the
source, that the keep-alive ping succeeds, can then fail.

`Ideal` states what lifetimes amount to: a run on time-limited storage with purging cannot be told from
one of a token without either, exactly as long as no balance expires, and in a fuzzing run none does.

## How to read it

| module | subject |
|---|---|
| `Prelude`, `Host` | integer ranges, results; ledger entries, lifetimes, the assumptions about the host |
| `Token`, `Supply`, `Runs` | specification: the token without lifetimes, one call, time, whole runs, sums |
| `Laws` | call by call: exactly when it succeeds and what it changes, in balances, allowances and administrator |
| `Ideal` | whole runs compared with those of the token without lifetimes |
| `Environment`, `BalanceStore`, `AllowanceStore`, `TokenContract`, `Client` | the contract's code and the host's transactional invocation |
| `Clock`, `Input`, `Authorisation` | advancing time, commands, signatures |
| `Outcomes` | what each command comes to, in the command's own fields |
| `Mirror`, `Lockstep`, `Commands`, `Checks`, `Fuzz` | the mirror, agreement with the token, the driver |
| `AddrGen` | the bytes from which signers are made |

## Main results

- Whole runs of the fuzzer: `Fuzz.FuzzToken`, on top of `Fuzz.RunTransaction` and `Commands.ExecCommand`.
- Lifetimes and purging: `Ideal.RunIsIdeal`, `Ideal.RepliesAreIdeal`, `Ideal.IdealExactly`.
- Allowances: `Runs.AllowanceFollowsHistory`, `Runs.DrawsStayWithinTheGrant`, `Runs.ApproveThenDraw`,
  `Fuzz.ResyncTracksExpiration`.
- Balances and supply: `Runs.BalanceFollowsHistory`, `Runs.SupplyIsConserved`,
  `Supply.ListedAccountsCarryTheSupply`.
- Authority: `Runs.BalanceFallsOnlyWithAuthority`, `Runs.SupplyRisesOnlyWithAdmin`,
  `Runs.AdminChangesOnlyWithAdmin`, `Runs.AdminFollowsHistory`.
- The code keeps to its specification: `TokenContract.TryInvoke`. What the specification amounts to, call
  by call: `Laws.MintLaw`, `Laws.TransferLaw`, `Laws.TransferFromLaw`, `Laws.ApproveLaw` and the others of
  that module; command by command: `Commands.ExecCommand` with `Outcomes.CommandOutcome`.
- Time: `Clock.AdvanceTime`. The check: `Checks.AssertState`. Signers: `AddrGen.GenerateSignerBytes`.

## What is assumed of the host

The Soroban host is not part of the repository. It is a parameter, `Host.SorobanHost`, and every result
holds for all hosts that satisfy `Host.Lawful`:

- a new entry lives at least through the current ledger, and a newly registered instance at least 4095
  ledgers longer; writing an existing entry keeps its live-until ledger;
- extending never shortens a lifetime, and a granted extension leaves at least the threshold when the
  threshold is not above the target; whether the threshold test is `<` or `<=` is left open;
- up to the ledger `servedUntil` the token's two fixed bumps (7 days for the instance, 30 for a balance)
  are granted; the extension of an allowance entry may be refused at any time.

`Host.TestHostIsLawful` shows that a host of the usual shape satisfies these laws. Built into the model
are: a failed call, including a refused extension, leaves storage and lifetimes as they were;
`require_auth` succeeds exactly for the addresses that signed the call; registering the contract again
leaves its storage alone; distinct addresses have distinct byte strings. A read sees every entry that
has not been purged, which at a fixed ledger is every entry that is alive.

## Assertions and panics

Each `assert!`, `expect` and checked operation of the source that cannot fail is an `assert` or a
`requires` here, so it is a proof obligation at every use. Those that can fail are outcomes: a contract
panic is an `Err` with rollback, and the driver stops with `Panicked(EndOfTime)` (u32 ledger numbers,
u64 seconds, or the sum of ledger and maximal lifetime in `mock_auths_for_command`, as compiled with
overflow checks), `Panicked(NonceOverflow)` (i64) or `Panicked(HostRefusal)`.

## Where code and documentation differ

The model follows the code.

- The documentation says that all balances are asserted to be greater than zero; the code asserts that
  they are not negative.
- It says that invariants are asserted after every step, and lists advancing time among the commands; in
  the code every transaction ends with one advance, and the assertions follow that advance.
- It leaves `mint` out of the operations that must fail on a negative amount; the code includes it.

## Model

| member | source | states |
|---|---|---|
| `Fuzz.FuzzToken` | src/fuzz.rs:33-139 | Whole-run refinement: for every input, after every transaction that a run completes the mirror matches the ledger in metadata, every listed balance, every pair's allowance and the supply sum, and ledger and mirror are what the history and the token without lifetimes make them; rejected iff no transaction has a command; stopped only at the first transaction that has a hurdle (ledger numbers, nonces, room to advance) or lies beyond the served ledgers, and kept, on served ledgers, iff there is no hurdle; a kept run issues exactly the input's calls after the set-up, loses no balance to expiry, numbers its authorisations consecutively from 0, and ends with the first account as administrator and the initial metadata |
| `Fuzz.RunAll` | src/fuzz.rs:76-136 | Over all transactions the lockstep invariant is kept; one checkpoint per completed transaction, each confirmed on a prefix of the one history, also when the run stops; the transaction it stops at, and why |
| `Fuzz.RunTransaction` | src/fuzz.rs:81-135 | One transaction from lockstep to lockstep: everything `assert_state` checks holds at its end, with its exact advance, nonces and calls; it stops at its hurdle or beyond the served ledgers, and completes only if it has no hurdle |
| `Fuzz.RunCommands` | src/fuzz.rs:81-91 | The command loop keeps lockstep at a fixed ledger and time; nonces continue without gap from one command to the next |
| `Fuzz.EndTransaction` | src/fuzz.rs:94-135 | Advance, resync and check: always favourable, clock moved exactly, no mint, burn or loss; the mirror drops exactly the expired allowances, and afterwards mirror, ledger, history and the token without lifetimes agree |
| `Fuzz.Begin` | fuzz/fuzz_targets/fuzz_example_token.rs:37-51 | Initialisation succeeds and establishes the lockstep invariant with the given metadata |
| `Fuzz.DayPassed` | src/fuzz.rs:691-706 | No balance is lost to expiry: with 29 days of lifetime at the start, a day's advance purges no balance entry and keeps administrator and metadata; an allowance is as before or zero |
| `Fuzz.ArrivedAllowance` | tokens/example-token/src/allowance.rs:6-14 | After stepped time an allowance is zero if its expiration ledger has passed and otherwise what it was |
| `Fuzz.ResyncTracksExpiration` | src/fuzz.rs:110-132 | After asking the contract, every mirrored allowance is what a mirror with its own record of approvals, draws and expiration ledgers, kept from the successful calls alone, would say |
| `Fuzz.ResyncDropsExpired` | src/fuzz.rs:110-132 | Between before and after, the loop sets to zero exactly the allowances whose expiration ledger has passed |
| `Runs.OnlyCallsMoveGrants` | src/fuzz.rs:110-132 | The record that such a mirror would keep changes with neither time nor questions |
| `Fuzz.LockstepConfirms` | src/fuzz.rs:553-588 | Lockstep implies that mirror, ledger, history and the token without lifetimes agree |
| `Fuzz.CourseAddsUp` | src/fuzz.rs:76-100 | Ledger, timestamp and nonce after any number of transactions are the sums over the input |
| `Fuzz.StoppedRun` | src/fuzz.rs:76-136 | A run that stops although all its ledgers are served had a hurdle in its way |
| `Fuzz.AgreementMatches` | src/fuzz.rs:553-588 | Agreement on the listed accounts together with conservation over the run implies everything `assert_state` checks, the supply sum included |
| `Fuzz.StandingAgain` | src/fuzz.rs:560-566 | After the check every balance entry has 29 more days, so the next advance is safe |
| `Checks.AssertState` | src/fuzz.rs:553-588 | A decision procedure: for any mirror, the verdict is true iff metadata, balances, allowances and supply sum match the token; asking changes no value and renews every listed balance and the instance |
| `Checks.MatchesMeans` | src/fuzz.rs:553-588 | What the check decides, written out: metadata, every listed balance and its sign, every pair's allowance, and mints less burns against the sum of the listed balances |
| `Checks.CheckBalances` | src/fuzz.rs:560-566 | The verdict is true iff every listed balance is equal and not negative |
| `Checks.CheckAllowances` | src/fuzz.rs:568-578 | The verdict is true iff all pairs' allowances are equal |
| `Checks.SumBalances` | src/fuzz.rs:581-585 | The computed sum is the sum of the listed balances |
| `Checks.Resync` | src/fuzz.rs:112-132 | If every mirrored allowance is right or has become zero in the token, the loop makes all of them right |
| `Commands.ExecCommand` | src/fuzz.rs:141-438 | Command lockstep: every command, composites included, keeps mirror and token in agreement whether its calls succeed or roll back; nonces consecutive, as many as raised flags; and in the command's own fields, which call succeeds, by whose flag, and which accounts gain, lose or grant how much (`Outcomes.CommandOutcome`); a composite whose approval succeeded leaves the mirrored allowance at zero or at the approved amount according to whether its draw succeeded, which cannot fail for want of allowance |
| `Outcomes.LastCallHasOutcome` | src/fuzz.rs:153-398 | The call that a command's meaning names has the outcome its fields describe: on served ledgers it succeeds iff the right account's flag is up and the named balances and allowances allow it, and then shifts the amount between the accounts at the named indices, or leaves their allowance, and changes nothing else; a failed call changes nothing |
| `Outcomes.FirstCallHasOutcome` | src/fuzz.rs:399-436 | The same for the approval with which a composite begins: pair, amount and expiration are those of the composite's fields |
| `Outcomes.TransferHasOutcome` | src/fuzz.rs:277-316 | A Transfer command takes the amount from the account at its from index, by that account's flag, and gives it to the account at its to index |
| `Input.CommandsJoin` | src/fuzz.rs:81-91 | The calls of a list of commands are those of any first part followed by those of the rest; no command is left out |
| `Input.SingleCommand` | src/fuzz.rs:81-91 | A list of one command stands for the calls of that command |
| `Input.TransactionAdded` | src/fuzz.rs:76-100 | Every transaction adds the calls and flags of its commands, and its ledgers, to those of the transactions before it; none is left out |
| `Commands.Perform` | src/fuzz.rs:153-398 | The shape of all simple arms: sign, call, check that negative amounts and missing signatures failed, book; lockstep is kept |
| `Commands.Book` | src/fuzz.rs:153-398 | Booking a successful call, or nothing after a failure, restores agreement of balances, allowances and totals |
| `Commands.BookBalances` | src/fuzz.rs:153-398 | The mirror's checked balance arithmetic cannot fail after a successful call, and balances agree afterwards, for any aliasing |
| `Commands.BookAllowances` | src/fuzz.rs:499-520 | The mirror's checked allowance arithmetic cannot fail after a successful call, and allowances agree afterwards |
| `Commands.UnsoundCallFails` | src/fuzz.rs:169-175 | A call with a negative amount, or not signed by the account that has to sign it, fails |
| `Commands.CallConsequences` | src/fuzz.rs:141-438 | Any call of a command leaves administrator, metadata, the set of account holders and the 29-day lifetimes standing |
| `Commands.CallFor` | src/fuzz.rs:153-398 | The call of a simple command is the one its meaning in `Input.EventsOf` names, whose outcome `Outcomes.LastCallHasOutcome` gives in the command's fields; the signer is the account whose missing signature must make it fail |
| `Commands.ExecPair` | src/fuzz.rs:399-436 | Two commands in sequence keep lockstep and add exactly their two calls to the history; the second is executed whatever became of the first |
| `Commands.CompositeSettles` | src/fuzz.rs:399-436 | In lockstep, the end of a composite command is visible in the mirror: zero after a successful draw, the approved amount after a failed one |
| `Commands.Halves` | src/input.rs:197-238 | The converted halves of a composite carry its accounts, amount and flags, so that their calls are the composite's calls |
| `Lockstep.MoveAgrees` | src/fuzz.rs:483-497 | Debit then credit in the mirror follows the token's transfer, also to oneself |
| `Lockstep.DrawAgrees` | src/fuzz.rs:515-520 | The mirror's allowance after a draw is not negative and is what the token reports |
| `Lockstep.ApprovalAgrees` | src/fuzz.rs:499-504 | Setting the mirrored allowance follows an accepted approval |
| `Lockstep.CallKeepsSettled` | src/fuzz.rs:153-180 | Only listed accounts ever get balance entries; administrator and metadata stay |
| `Authorisation.MockAuths` | src/fuzz.rs:738-823 | An account signs if and only if its flag is up, and nobody else does; one entry per raised flag, bearing that account's address, in account order, with consecutive nonces; stops exactly for want of ledger numbers or nonces |
| `Authorisation.EntriesAreExact` | src/fuzz.rs:757-823 | With distinct accounts, signers and entries are exactly those of the raised flags, address by address |
| `Input.FlagsSign` | src/fuzz.rs:757-823 | A listed account authorises the call iff its flag is up |
| `Authorisation.EntriesAreConsecutive` | src/fuzz.rs:757-820 | The entries of a call have consecutive nonces, as many as raised flags |
| `Commands.SignedTwice` | src/fuzz.rs:399-436 | Nonces stay consecutive across nested commands |
| `Clock.AdvanceTime` | src/fuzz.rs:592-634 | Terminates; it runs out of time only where `HasRoom` fails and completes only where it holds; then sequence, timestamp, balances and allowances are those of one advance-and-purge, and the instance survives every hop with its contents |
| `Clock.AdvanceEnv` | src/fuzz.rs:637-689 | One hop is one `Elapse`; it fails exactly on u32 or u64 overflow; nothing lapses if every balance lives long enough |
| `Clock.PurgeExpiredEntries` | src/fuzz.rs:691-706 | Keeps exactly the entries whose live-until ledger has not passed |
| `Clock.PurgingSparesTheLiving` | src/fuzz.rs:691-706 | An entry is still there, as it was, iff its live-until ledger is not below the sequence |
| `Clock.Ping` | src/fuzz.rs:624-629 | The ping leaves every value and lifetime but the instance's, which is then good for the next hop; it fails only beyond the served ledgers |
| `Clock.RoomToSpare` | src/fuzz.rs:598-611 | A target ledger with 4094 ledgers to spare within u32 always has room |
| `Clock.RoomExactly` | src/fuzz.rs:598-611 | There is room iff every look-ahead of a full hop before the target fits u32 and the timestamp fits u64 |
| `Clock.TravelContinues` | src/fuzz.rs:604-631 | Hops with renewals of the instance in between still add up to one jump |
| `Token.HopsAreOneJump` | src/fuzz.rs:604-631 | Purging after each of two hops equals purging once after both |
| `Token.LedgersMakeDays` | src/fuzz.rs:640-644 | Seconds per ledger times ledgers per day make a day of 86400 seconds; thresholds and bumps are 6, 7, 29 and 30 days |
| `Token.ElapsedAllowance` | tokens/example-token/src/allowance.rs:6-14 | Time changes an allowance only to zero, and exactly if it was positive and its expiration ledger is below the new sequence |
| `Token.ElapsedBalance` | src/fuzz.rs:691-706 | Time takes away exactly the balances whose entries ran out of lifetime |
| `Token.TransferFromSucceedsExactlyWhen` | tokens/example-token/src/contract.rs:114-127 | Success iff the spender authorised, the amount is not negative, live allowance and balance cover it and the recipient's sum after the debit fits i128; the expiry panic is unreachable |
| `Laws.InitializeLaw` | tokens/example-token/src/contract.rs:24-41 | Succeeds iff there is no administrator yet and decimals are at most 255; then administrator and metadata are those given and nothing else has changed |
| `Laws.MintLaw` | tokens/example-token/src/contract.rs:43-54 | On served ledgers succeeds iff there is an administrator who signed, the amount is not negative and the recipient's sum fits i128; the recipient's balance rises by the amount and nothing else changes |
| `Laws.SetAdminLaw` | tokens/example-token/src/contract.rs:56-66 | On served ledgers succeeds iff there is an administrator who signed; the new administrator is then the one named, and nothing else has changed |
| `Laws.ApproveLaw` | tokens/example-token/src/contract.rs:78-91 | On served ledgers succeeds iff the owner signed, the amount is not negative and, if positive, neither expired nor declined by the host; that one allowance becomes the amount, with its expiration ledger, and nothing else changes |
| `Laws.TransferLaw` | tokens/example-token/src/contract.rs:100-112 | On served ledgers succeeds iff the sender signed, the amount is between zero and the whole balance, and the recipient's sum after the debit fits i128; the sender's balance falls and the recipient's rises by the amount, to oneself neither |
| `Laws.TransferFromLaw` | tokens/example-token/src/contract.rs:114-127 | On served ledgers succeeds iff the spender signed, allowance and balance cover the amount, the sum fits, and the host keeps what is left of the allowance alive; amount shifted, allowance less the amount, nothing else changed |
| `Laws.BurnLaw` | tokens/example-token/src/contract.rs:129-140 | On served ledgers succeeds iff the owner signed and the amount is between zero and the whole balance, which falls by it |
| `Laws.BurnFromLaw` | tokens/example-token/src/contract.rs:142-154 | On served ledgers succeeds iff the spender signed, allowance and balance cover the amount, and the host keeps what is left of the allowance alive; balance and allowance fall by the amount |
| `Laws.BalanceOfLaw` | tokens/example-token/src/balance.rs:4-14 | The answer is the stored balance, or zero |
| `Laws.AllowanceOfLaw` | tokens/example-token/src/allowance.rs:4-21 | The answer is the stored amount up to and including its expiration ledger, and zero after it or if nothing is stored |
| `Laws.ApprovalLastsUntilItExpires` | tokens/example-token/src/allowance.rs:4-49 | An accepted approval can be read back at every later ledger up to its expiration and at none after it, purging or not |
| `Token.ApprovedAmountCanBeDrawn` | tokens/example-token/src/allowance.rs:35-63 | After an accepted approval a draw of the same amount at the same ledger never fails for want of allowance or expiry; success leaves an allowance of zero, failure the approved amount |
| `Runs.ApproveThenDraw` | src/fuzz.rs:399-436 | The same in any run whose last two steps are such an approval and draw |
| `Token.CallKeepsSound` | tokens/example-token/src/contract.rs:24-154 | Every call keeps amounts within 0 and i128::MAX, and positive allowances in entries that outlive them |
| `Token.ElapseKeepsSound` | src/fuzz.rs:691-706 | So does the passing of time with purging |
| `Runs.ReachableIsSound` | tokens/example-token/src/contract.rs:24-154 | In every reachable state balances and allowances are non-negative and fit i128, and a positive allowance never outlives its entry |
| `Runs.AllowanceFollowsHistory` | tokens/example-token/src/allowance.rs:4-63 | Over every run the readable allowance is the latest approval less what was drawn since, until it expires and zero afterwards; draws never exceed the approval |
| `Runs.DrawsStayWithinTheGrant` | tokens/example-token/src/allowance.rs:51-63 | A positive delegated spend happens only at or before expiration and within what is left of the approval |
| `Runs.PurgingIsInvisible` | src/fuzz.rs:691-706 | Two lawful hosts, however long they keep entries, give equal allowances after the same events if the same state-changing calls succeeded; answers to questions are not assumed equal |
| `Ideal.RunIsIdeal` | tokens/example-token/src/allowance.rs:4-63 | As long as no balance has expired and the instance is there, administrator, metadata, every balance and every allowance on time-limited storage with purging are those of a token without lifetimes that has been through the same calls |
| `Ideal.RepliesAreIdeal` | tokens/example-token/src/contract.rs:24-154 | Under the same condition every call that the host serves is answered as that token would answer it |
| `Ideal.IdealExactly` | src/fuzz.rs:691-706 | The condition is exact: while the instance is there, the two agree at every point of a run if and only if no balance has expired on the way |
| `Ideal.ApplyAlike` | tokens/example-token/src/contract.rs:24-154 | States that differ only in which zero balances and worthless approvals they store give the same answer to any call and stay that way |
| `Ideal.ElapseAlike` | src/fuzz.rs:691-706 | Time with purging cannot tell the ledger from a token that forgets nothing, unless a balance expires |
| `Runs.GrantWasAuthorised` | tokens/example-token/src/contract.rs:78-91 | Every grant goes back to an approve step that its owner authorised |
| `Runs.SupplyIsConserved` | tokens/example-token/src/contract.rs:43-154 | Over every run the sum of all balances plus lapsed balances is successful mints minus successful burns, for any aliasing |
| `Runs.BalanceFollowsHistory` | tokens/example-token/src/balance.rs:4-35 | Over every run each account's balance plus what it lost by expiry is the net of the successful calls that name it, for any aliasing |
| `Runs.LossIsShared` | src/fuzz.rs:691-706 | No account loses more by expiry than is lost in all, so a run that loses nothing in all loses no account's balance |
| `Runs.AppliedSupply` | tokens/example-token/src/balance.rs:24-35 | A call changes the sum of all balances by what it mints or burns and by nothing else |
| `Runs.BalanceFallsOnlyWithAuthority` | tokens/example-token/src/contract.rs:100-154 | A call lowers a balance only with its owner's authorisation or, within the remaining amount, with that of a spender whose unexpired approval the owner authorised |
| `Runs.SupplyRisesOnlyWithAdmin` | tokens/example-token/src/contract.rs:43-54 | Supply rises only in a mint authorised by the administrator of that moment |
| `Runs.AdminChangesOnlyWithAdmin` | tokens/example-token/src/contract.rs:24-66 | After initialisation the administrator changes only with the current one's authorisation and metadata never changes, unless the whole instance expires |
| `Runs.AdminFollowsHistory` | tokens/example-token/src/contract.rs:24-66 | In every run whose instance is there, the administrator is that of the latest successful set_admin, or of initialize if there was none, and the metadata are those given to initialize |
| `Supply.ListedAccountsCarryTheSupply` | src/fuzz.rs:580-587 | Distinct accounts that cover all balance entries sum to the total over the whole map |
| `Supply.TotalMoved` | tokens/example-token/src/contract.rs:109-110 | A transfer keeps the total, self-transfers included |
| `TokenContract.TryInvoke` | tokens/example-token/src/contract.rs:22-154 | Every invocation meets `CallSpec`: either the whole effect of the lifetime-free token, or an error and a ledger restored in full |
| `TokenContract.Initialize` | tokens/example-token/src/contract.rs:24-41 | Succeeds once, for decimals up to 255; then administrator and metadata are set together |
| `TokenContract.Mint` | tokens/example-token/src/contract.rs:43-54 | Credits the recipient iff the amount is not negative, the administrator signed and the sum fits |
| `TokenContract.SetAdmin` | tokens/example-token/src/contract.rs:56-66 | Replaces the administrator iff the current one signed |
| `TokenContract.Allowance` | tokens/example-token/src/contract.rs:71-76 | Answers the allowance in force; changes only the instance's lifetime |
| `TokenContract.Approve` | tokens/example-token/src/contract.rs:78-91 | Records the approval iff its owner signed, the amount is not negative and not already expired, and the host keeps the entry alive until expiration |
| `TokenContract.BalanceOfAccount` | tokens/example-token/src/contract.rs:93-98 | Answers the balance; changes lifetimes only, leaving 29 days |
| `TokenContract.Transfer` | tokens/example-token/src/contract.rs:100-112 | Moves the amount as one step, for any aliasing of sender and recipient |
| `TokenContract.TransferFrom` | tokens/example-token/src/contract.rs:114-127 | Draws on the allowance and moves the amount, or reports the first condition that fails |
| `TokenContract.Burn` | tokens/example-token/src/contract.rs:129-140 | Takes the amount off the balance iff its owner signed and the balance covers it |
| `TokenContract.BurnFrom` | tokens/example-token/src/contract.rs:142-154 | Draws on the allowance and burns the amount, or reports the first condition that fails |
| `AllowanceStore.ReadAllowance` | tokens/example-token/src/allowance.rs:4-21 | The allowance in force at the current ledger, as the lifetime-free token defines it |
| `AllowanceStore.WriteAllowance` | tokens/example-token/src/allowance.rs:23-49 | On success the entry outlives a positive approval; fails exactly for a positive amount that has expired or that the host will not keep alive |
| `AllowanceStore.SpendAllowance` | tokens/example-token/src/allowance.rs:51-63 | Draws on the allowance in force; neither the expiry panic nor the checked subtraction of the write can be reached from here |
| `BalanceStore.ReadBalance` | tokens/example-token/src/balance.rs:4-14 | The stored balance or zero; no value changes, and the entry is good for 29 days |
| `BalanceStore.WriteBalance` | tokens/example-token/src/balance.rs:16-22 | Only this balance changes, no lifetime shrinks, and the entry is good for 29 days |
| `BalanceStore.ReceiveBalance` | tokens/example-token/src/balance.rs:24-27 | Credits the account, or fails exactly on i128 overflow (or a refusal beyond the served ledgers) |
| `BalanceStore.SpendBalance` | tokens/example-token/src/balance.rs:29-35 | Debits the account, or fails exactly when it does not cover the amount; the subtraction cannot overflow |
| `BalanceStore.DebitThenCreditMoves` | tokens/example-token/src/contract.rs:124-125 | The two writes of a transfer amount to one move, with the same error if either fails, also when sender and recipient coincide |
| `Client.QueryAllowance` | tokens/example-token/src/contract.rs:71-76 | As the driver calls it: answers the allowance and leaves everything but the instance's lifetime; counts as neither mint, burn nor command |
| `Client.QueryBalance` | tokens/example-token/src/contract.rs:93-98 | As the driver calls it: answers the balance and only lengthens lifetimes |
| `AddrGen.GenerateSignerBytes` | src/addrgen.rs:41-54 | Overflows iff the last seed exceeds u64::MAX; otherwise all byte strings are 32 long, decode to consecutive seeds and are pairwise distinct |
| `AddrGen.SignerBytesRoundTrip` | src/addrgen.rs:46-54 | Zero-padding and big-endian encoding can be decoded: the bytes determine the seed |
| `AddrGen.BigEndianRoundTrip` | src/addrgen.rs:50 | Decoding a big-endian encoding of n bytes gives back every number below 256^n |
| `AddrGen.RangesInBytes` | src/addrgen.rs:17-18 | The maxima of u32, u64, i64 and i128 are those of 4, 8, 8 and 16 bytes |

## Left out

- `verify_token_contract_result` and the diagnostics: they depend on how the host classifies panics. Every failed call is an error with rollback here, and nothing is claimed about that check.
- Ed25519 keys, SHA-256, XDR, signature construction and `MockAuthContract`: only the set of signers and the nonces remain. A signature is taken to cover the call that follows it.
- `setup_account_storage`, trustlines and the native Stellar asset.
- `Config`, its trait objects and clients, and the fuzz targets, except for the initialisation that the example token's target performs.
- Events published through `TokenUtils`, and the conversions of `src/util.rs`.
- Generation of inputs and its biases: only the ranges remain, as preconditions. The range of expiration ledgers is not needed and any value is allowed; the number of accounts is any positive number instead of 3.
- The `use_snapshot == false` branch of `advance_env`, which is never taken.
- The lifetime of the contract's code entry, and the unused storage keys `Nonce` and `State`.
- `name`, `symbol` and `decimals` as calls: they only read the instance, so the driver reads it directly, and the mirror's metadata is passed to its constructor instead of being assigned right after it.
- Recursion of `exec_command`: a composite runs its two halves through the simple arms, which is where the recursive calls go. The six simple arms share one body, `Commands.Perform`, because they differ only in call, signer and booking.
- The initial ledger number and timestamp of the environment are arbitrary instead of the host's defaults.
- `Ideal.RunIsIdeal`: a call whose lifetimes the host declined to extend is not put to the token without lifetimes, which has none to extend; and a token whose instance has expired, which answers nothing at all, is not compared.
- `Runs.PurgingIsInvisible`: takes the same state-changing calls to have succeeded on both hosts, because a host may refuse to extend an allowance entry where another does not.
