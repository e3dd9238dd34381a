/**
 The environment a contract runs in: the clock, the three storage classes with their lifetimes, and
 the addresses whose authorisation the current call carries.
 */
module Environment {
  import opened Prelude
  import opened Host
  import opened Token
  import opened Runs

  class Env {
    const host: SorobanHost

    var sequence: nat
    var timestamp: nat
    var instance: Option<Entry<InstanceData>>
    var balances: map<Address, Entry<int>>
    var allowances: map<AllowanceKey, Entry<AllowanceValue>>
    var auths: set<Address>

    // The ledger on which the contract was registered, and everything that has happened since.
    ghost const start: Ledger
    ghost var steps: seq<Step>

    function Snapshot(): Ledger
      reads `sequence, `timestamp, `instance, `balances, `allowances
    {
      Ledger(sequence, timestamp, instance, balances, allowances)
    }

    /** The environment is where its history says it is. */
    ghost predicate Valid()
      reads `sequence, `timestamp, `instance, `balances, `allowances, `steps
    {
      && IsRun(host, start, steps)
      && Snapshot() == LedgerAfter(start, steps)
    }

    /** And that history continues an earlier one. */
    ghost predicate Continues(past: seq<Step>)
      reads `sequence, `timestamp, `instance, `balances, `allowances, `steps
    {
      Valid() && past <= steps
    }

    ghost function Books(): Tally
      reads `steps
    {
      TallyOf(start, steps)
    }

    /** A new environment in which the contract has just been registered. */
    constructor (host: SorobanHost, sequence: nat, timestamp: nat)
      requires Lawful(host)
      ensures Valid() && this.host == host && steps == [] && auths == {}
      ensures this.sequence == sequence && this.timestamp == timestamp && start.sequence == sequence
    {
      this.host := host;
      this.sequence, this.timestamp := sequence, timestamp;
      this.instance := Some(Entry(InstanceData(None, None), host.newLiveUntil(Instance, sequence)));
      this.balances, this.allowances, this.auths := map[], map[], {};
      this.start := Ledger(
        sequence, timestamp, Some(Entry(InstanceData(None, None), host.newLiveUntil(Instance, sequence))), map[], map[]);
      this.steps := [];
      new;
      RunBegins(host, start, steps);
    }

    /** Puts storage back to an earlier snapshot of the same ledger. */
    method Restore(saved: Ledger)
      requires saved.sequence == sequence && saved.timestamp == timestamp
      modifies this`instance, this`balances, this`allowances
      ensures Snapshot() == saved
    {
      instance, balances, allowances := saved.instance, saved.balances, saved.allowances;
    }

    method ExtendInstanceTtl() returns (r: Result<()>)
      requires Lawful(host) && instance.Some?
      modifies this`instance
      ensures r.Ok? ==>
        && instance.Some?
        && instance.value.value == old(instance.value.value)
        && old(instance.value.liveUntil) <= instance.value.liveUntil
        && sequence + INSTANCE_LIFETIME_THRESHOLD <= instance.value.liveUntil
      ensures r.Err? ==> r.error == TtlRefused && host.servedUntil < sequence
    {
      var extended := host.extendTtl(
        Instance, sequence, instance.value.liveUntil, INSTANCE_LIFETIME_THRESHOLD, INSTANCE_BUMP_AMOUNT);
      if extended.None? {
        return Err(TtlRefused);
      }
      instance := Some(instance.value.(liveUntil := extended.value));
      return Ok(());
    }

    method ExtendBalanceTtl(addr: Address) returns (r: Result<()>)
      requires Lawful(host) && addr in balances
      modifies this`balances
      ensures r.Ok? ==>
        && Values(balances) == Values(old(balances))
        && BalancesKept(sequence, old(balances), balances, {addr})
      ensures r.Err? ==> r.error == TtlRefused && host.servedUntil < sequence
    {
      var entry := balances[addr];
      var extended := host.extendTtl(
        Persistent, sequence, entry.liveUntil, BALANCE_LIFETIME_THRESHOLD, BALANCE_BUMP_AMOUNT);
      if extended.None? {
        return Err(TtlRefused);
      }
      balances := balances[addr := entry.(liveUntil := extended.value)];
      return Ok(());
    }

    /** Asks for an allowance entry to live for `liveFor` more ledgers. */
    method ExtendAllowanceTtl(k: AllowanceKey, liveFor: nat) returns (r: Result<()>)
      requires Lawful(host) && k in allowances
      modifies this`allowances
      ensures
        var extended := host.extendTtl(Temporary, sequence, old(allowances)[k].liveUntil, liveFor, liveFor);
        match r
        case Ok(_) =>
          && extended.Some?
          && allowances == old(allowances)[k := Entry(old(allowances)[k].value, extended.value)]
        case Err(e) => e == TtlRefused && extended.None?
    {
      var entry := allowances[k];
      var extended := host.extendTtl(Temporary, sequence, entry.liveUntil, liveFor, liveFor);
      if extended.None? {
        return Err(TtlRefused);
      }
      allowances := allowances[k := entry.(liveUntil := extended.value)];
      return Ok(());
    }
  }
}
