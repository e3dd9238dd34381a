/**
 The contract's entry points (contract.rs, admin.rs, metadata.rs), statement by statement, and the
 host's transactional invocation of them.
 */
module TokenContract {
  import opened Prelude
  import opened Host
  import opened Token
  import opened Runs
  import opened Environment
  import opened BalanceStore
  import opened AllowanceStore

  /** What every entry point may rely on when the host dispatches a call to it. */
  ghost predicate Callable(e: Env)
    reads e
  {
    Lawful(e.host) && Sound(e.Snapshot()) && e.instance.Some?
  }

  predicate HasAdministrator(e: Env)
    requires e.instance.Some?
    reads e
  {
    e.instance.value.value.admin.Some?
  }

  function ReadAdministrator(e: Env): Result<Address>
    requires e.instance.Some?
    reads e
  {
    match e.instance.value.value.admin
    case Some(admin) => Ok(admin)
    case None => Err(NoAdministrator)
  }

  method WriteAdministrator(e: Env, id: Address)
    requires e.instance.Some?
    modifies e`instance
    ensures e.instance == Some(old(e.instance.value).(value := old(e.instance.value.value).(admin := Some(id))))
  {
    e.instance := Some(e.instance.value.(value := e.instance.value.value.(admin := Some(id))));
  }

  method Initialize(e: Env, admin: Address, decimal: nat, name: string, symbol: string) returns (r: Result<Reply>)
    requires Callable(e)
    modifies e`instance, e`balances, e`allowances
    ensures Performs(e.host, old(e.Snapshot()), e.auths, Call.Initialize(admin, decimal, name, symbol), r, e.Snapshot())
  {
    if HasAdministrator(e) {
      return Err(AlreadyInitialized);
    }
    WriteAdministrator(e, admin);
    if decimal > 255 {
      return Err(DecimalTooLarge);
    }
    var data := e.instance.value.value.(metadata := Some(Metadata(decimal, name, symbol)));
    e.instance := Some(e.instance.value.(value := data));
    return Ok(Done);
  }

  method Mint(e: Env, to: Address, amount: i128) returns (r: Result<Reply>)
    requires Callable(e)
    modifies e`instance, e`balances, e`allowances
    ensures Performs(e.host, old(e.Snapshot()), e.auths, Call.Mint(to, amount), r, e.Snapshot())
  {
    if amount < 0 {
      return Err(NegativeAmount);
    }
    var admin := ReadAdministrator(e);
    if admin.Err? {
      return Err(admin.error);
    }
    if admin.value !in e.auths {
      return Err(Unauthorized);
    }
    var extended := e.ExtendInstanceTtl();
    if extended.Err? {
      return Err(extended.error);
    }
    var received := ReceiveBalance(e, to, amount);
    if received.Err? {
      return Err(received.error);
    }
    return Ok(Done);
  }

  method SetAdmin(e: Env, newAdmin: Address) returns (r: Result<Reply>)
    requires Callable(e)
    modifies e`instance, e`balances, e`allowances
    ensures Performs(e.host, old(e.Snapshot()), e.auths, Call.SetAdmin(newAdmin), r, e.Snapshot())
  {
    var admin := ReadAdministrator(e);
    if admin.Err? {
      return Err(admin.error);
    }
    if admin.value !in e.auths {
      return Err(Unauthorized);
    }
    var extended := e.ExtendInstanceTtl();
    if extended.Err? {
      return Err(extended.error);
    }
    WriteAdministrator(e, newAdmin);
    return Ok(Done);
  }

  ghost predicate Renewed(now: nat, instance: Option<Entry<InstanceData>>, instance': Option<Entry<InstanceData>>) {
    && instance.Some? && instance'.Some?
    && instance'.value.value == instance.value.value
    && instance.value.liveUntil <= instance'.value.liveUntil
    && now + INSTANCE_LIFETIME_THRESHOLD <= instance'.value.liveUntil
  }

  /** How every entry point that needs an account's consent begins: authorisation, sign check, renewal. */
  method Admit(e: Env, who: Address, amount: int) returns (r: Result<()>)
    requires Lawful(e.host) && e.instance.Some?
    modifies e`instance
    ensures r.Ok? ==> Guard(who in e.auths, amount).Ok? && Renewed(e.sequence, old(e.instance), e.instance)
    ensures r.Err? ==>
      || (r.error == TtlRefused && e.host.servedUntil < e.sequence)
      || Guard(who in e.auths, amount) == r
  {
    if who !in e.auths {
      return Err(Unauthorized);
    }
    if amount < 0 {
      return Err(NegativeAmount);
    }
    r := e.ExtendInstanceTtl();
  }

  /** How the two delegated entry points begin: as above, and then the allowance is spent. */
  method AdmitDraw(e: Env, spender: Address, from: Address, amount: int) returns (r: Result<()>)
    requires Lawful(e.host) && e.instance.Some? && AllowancesOutliveApprovals(e.sequence, e.allowances)
    modifies e`instance, e`allowances
    ensures
      var k := AllowanceKey(from, spender);
      match r
      case Ok(_) =>
        && Guard(spender in e.auths, amount).Ok?
        && Renewed(e.sequence, old(e.instance), e.instance)
        && Drawn(Values(old(e.allowances)), k, e.sequence, amount) == Ok(Values(e.allowances))
        && AllowancesKept(e.sequence, old(e.allowances), e.allowances, {k})
        && !DrawRefused(e.host, e.sequence, old(e.allowances), k, amount)
      case Err(error) =>
        if error == TtlRefused then
          e.host.servedUntil < e.sequence || DrawRefused(e.host, e.sequence, old(e.allowances), k, amount)
        else
          || Guard(spender in e.auths, amount) == r
          || (Guard(spender in e.auths, amount).Ok? && Drawn(Values(old(e.allowances)), k, e.sequence, amount) == Err(error))
  {
    r := Admit(e, spender, amount);
    if r.Ok? {
      r := SpendAllowance(e, from, spender, amount);
    }
  }

  method Allowance(e: Env, from: Address, spender: Address) returns (r: Result<Reply>)
    requires Callable(e)
    modifies e`instance, e`balances, e`allowances
    ensures Performs(e.host, old(e.Snapshot()), e.auths, AllowanceOf(from, spender), r, e.Snapshot())
  {
    var extended := e.ExtendInstanceTtl();
    if extended.Err? {
      return Err(extended.error);
    }
    return Ok(Amount(ReadAllowance(e, from, spender).amount));
  }

  method Approve(e: Env, from: Address, spender: Address, amount: i128, expirationLedger: nat) returns (r: Result<Reply>)
    requires Callable(e)
    modifies e`instance, e`balances, e`allowances
    ensures Performs(e.host, old(e.Snapshot()), e.auths, Call.Approve(from, spender, amount, expirationLedger), r, e.Snapshot())
  {
    var admitted := Admit(e, from, amount);
    if admitted.Err? {
      return Err(admitted.error);
    }
    var written := WriteAllowance(e, from, spender, amount, expirationLedger);
    if written.Err? {
      return Err(written.error);
    }
    return Ok(Done);
  }

  method BalanceOfAccount(e: Env, id: Address) returns (r: Result<Reply>)
    requires Callable(e)
    modifies e`instance, e`balances, e`allowances
    ensures Performs(e.host, old(e.Snapshot()), e.auths, BalanceOf(id), r, e.Snapshot())
  {
    var extended := e.ExtendInstanceTtl();
    if extended.Err? {
      return Err(extended.error);
    }
    var balance := ReadBalance(e, id);
    if balance.Err? {
      return Err(balance.error);
    }
    return Ok(Amount(balance.value));
  }

  method Transfer(e: Env, from: Address, to: Address, amount: i128) returns (r: Result<Reply>)
    requires Callable(e)
    modifies e`instance, e`balances, e`allowances
    ensures Performs(e.host, old(e.Snapshot()), e.auths, Call.Transfer(from, to, amount), r, e.Snapshot())
  {
    var admitted := Admit(e, from, amount);
    if admitted.Err? {
      return Err(admitted.error);
    }
    r := MoveBalance(e, from, to, amount);
  }

  /** The two balance updates that `transfer` and `transfer_from` end with. */
  method MoveBalance(e: Env, from: Address, to: Address, amount: int) returns (r: Result<Reply>)
    requires Lawful(e.host) && Fit(Values(e.balances)) && 0 <= amount
    modifies e`balances
    ensures
      match r
      case Ok(reply) =>
        && reply == Done
        && Moved(Values(old(e.balances)), from, to, amount) == Ok(Values(e.balances))
        && BalancesKept(e.sequence, old(e.balances), e.balances, {from, to})
      case Err(error) =>
        || (error == TtlRefused && e.host.servedUntil < e.sequence)
        || Moved(Values(old(e.balances)), from, to, amount) == Err(error)
  {
    DebitThenCreditMoves(Values(e.balances), from, to, amount);
    var spent := SpendBalance(e, from, amount);
    if spent.Err? {
      return Err(spent.error);
    }
    ghost var between := e.balances;
    var received := ReceiveBalance(e, to, amount);
    if received.Err? {
      return Err(received.error);
    }
    KeptTwice(e.sequence, old(e.balances), between, e.balances, {from}, {to});
    return Ok(Done);
  }

  method TransferFrom(e: Env, spender: Address, from: Address, to: Address, amount: i128) returns (r: Result<Reply>)
    requires Callable(e)
    modifies e`instance, e`balances, e`allowances
    ensures Performs(e.host, old(e.Snapshot()), e.auths, Call.TransferFrom(spender, from, to, amount), r, e.Snapshot())
  {
    ghost var before := e.Snapshot();
    var drawn := AdmitDraw(e, spender, from, amount);
    if drawn.Err? {
      return Err(drawn.error);
    }
    r := MoveBalance(e, from, to, amount);
    DrawThenMovePerforms(e.host, before, e.auths, spender, from, to, amount, r, e.Snapshot());
  }

  /** What `AdmitDraw` leaves behind when it succeeds: everything the two delegated entry points still owe is the balance. */
  ghost predicate DrawAdmitted(h: SorobanHost, l: Ledger, auths: set<Address>, k: AllowanceKey, amount: int, l': Ledger) {
    && l'.sequence == l.sequence && l'.timestamp == l.timestamp
    && Guard(k.spender in auths, amount).Ok?
    && Renewed(l.sequence, l.instance, l'.instance)
    && Drawn(Values(l.allowances), k, l.sequence, amount) == Ok(Values(l'.allowances))
    && AllowancesKept(l.sequence, l.allowances, l'.allowances, {k})
    && !DrawRefused(h, l.sequence, l.allowances, k, amount)
  }

  /** Spending the allowance and then moving the balance is what `transfer_from` promises. */
  lemma DrawThenMovePerforms(
    h: SorobanHost, l: Ledger, auths: set<Address>, spender: Address, from: Address, to: Address, amount: i128,
    r: Result<Reply>, l': Ledger)
    requires DrawAdmitted(h, l, auths, AllowanceKey(from, spender), amount, l')
    requires r.Ok? ==>
      && r.value == Done
      && Moved(Values(l.balances), from, to, amount) == Ok(Values(l'.balances))
      && BalancesKept(l.sequence, l.balances, l'.balances, {from, to})
    requires r.Err? ==>
      || (r.error == TtlRefused && h.servedUntil < l.sequence)
      || Moved(Values(l.balances), from, to, amount) == Err(r.error)
    ensures Performs(h, l, auths, Call.TransferFrom(spender, from, to, amount), r, l')
  {
  }

  /** And spending the allowance and then the balance is what `burn_from` promises. */
  lemma DrawThenBurnPerforms(
    h: SorobanHost, l: Ledger, auths: set<Address>, spender: Address, from: Address, amount: i128, r: Result<Reply>, l': Ledger)
    requires DrawAdmitted(h, l, auths, AllowanceKey(from, spender), amount, l')
    requires r.Ok? ==>
      && r.value == Done
      && Debited(Values(l.balances), from, amount) == Ok(Values(l'.balances))
      && BalancesKept(l.sequence, l.balances, l'.balances, {from})
    requires r.Err? ==>
      || (r.error == TtlRefused && h.servedUntil < l.sequence)
      || Debited(Values(l.balances), from, amount) == Err(r.error)
    ensures Performs(h, l, auths, Call.BurnFrom(spender, from, amount), r, l')
  {
  }

  method Burn(e: Env, from: Address, amount: i128) returns (r: Result<Reply>)
    requires Callable(e)
    modifies e`instance, e`balances, e`allowances
    ensures Performs(e.host, old(e.Snapshot()), e.auths, Call.Burn(from, amount), r, e.Snapshot())
  {
    var admitted := Admit(e, from, amount);
    if admitted.Err? {
      return Err(admitted.error);
    }
    var spent := SpendBalance(e, from, amount);
    if spent.Err? {
      return Err(spent.error);
    }
    return Ok(Done);
  }

  method BurnFrom(e: Env, spender: Address, from: Address, amount: i128) returns (r: Result<Reply>)
    requires Callable(e)
    modifies e`instance, e`balances, e`allowances
    ensures Performs(e.host, old(e.Snapshot()), e.auths, Call.BurnFrom(spender, from, amount), r, e.Snapshot())
  {
    ghost var before := e.Snapshot();
    var drawn := AdmitDraw(e, spender, from, amount);
    if drawn.Err? {
      return Err(drawn.error);
    }
    var spent := SpendBalance(e, from, amount);
    r := if spent.Ok? then Ok(Done) else Err(spent.error);
    DrawThenBurnPerforms(e.host, before, e.auths, spender, from, amount, r, e.Snapshot());
  }

  /** Runs the entry point a call names. */
  method Dispatch(e: Env, c: Call) returns (r: Result<Reply>)
    requires Callable(e)
    modifies e`instance, e`balances, e`allowances
    ensures Performs(e.host, old(e.Snapshot()), e.auths, c, r, e.Snapshot())
  {
    match c
    case Initialize(admin, decimal, name, symbol) => r := Initialize(e, admin, decimal, name, symbol);
    case Mint(to, amount) => r := Mint(e, to, amount);
    case SetAdmin(newAdmin) => r := SetAdmin(e, newAdmin);
    case Approve(from, spender, amount, expirationLedger) => r := Approve(e, from, spender, amount, expirationLedger);
    case Transfer(from, to, amount) => r := Transfer(e, from, to, amount);
    case TransferFrom(spender, from, to, amount) => r := TransferFrom(e, spender, from, to, amount);
    case Burn(from, amount) => r := Burn(e, from, amount);
    case BurnFrom(spender, from, amount) => r := BurnFrom(e, spender, from, amount);
    case AllowanceOf(from, spender) => r := Allowance(e, from, spender);
    case BalanceOf(id) => r := BalanceOfAccount(e, id);
  }

  /** The clients' `try_` calls: dispatch, and put everything back if the contract failed. */
  method TryInvoke(e: Env, c: Call) returns (r: Result<Reply>)
    requires e.Valid()
    modifies e
    ensures e.Valid()
    ensures CallSpec(e.host, old(e.Snapshot()), old(e.auths), c, r, e.Snapshot())
    ensures e.steps == old(e.steps) + [Step(Invoke(old(e.auths), c), r, e.Snapshot())]
    ensures unchanged(e`sequence, e`timestamp, e`auths)
  {
    RunBegins(e.host, e.start, e.steps);
    ReachableIsSound(e.host, e.start, e.steps);
    if e.instance.None? {
      r := Err(ContractMissing);
    } else {
      var saved := e.Snapshot();
      r := Dispatch(e, c);
      if r.Err? {
        e.Restore(saved);
      }
    }
    ghost var s := Step(Invoke(e.auths, c), r, e.Snapshot());
    RunExtended(e.host, e.start, e.steps, s);
    e.steps := e.steps + [s];
  }
}
