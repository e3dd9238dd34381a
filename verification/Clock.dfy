/**
 Moving time forward (fuzz.rs, `advance_time` and what it calls): in hops short enough for the
 contract instance to survive each of them, with a ping after every hop but the last.
 */
module Clock {
  import opened Prelude
  import opened Host
  import opened Token
  import opened Runs
  import opened Environment
  import opened Client

  /** What can stop the driver: the end of the u32/u64 clock or of the nonces, or a refusal by the host. */
  datatype Panic = EndOfTime | NonceOverflow | HostRefusal
  datatype Status = Completed | Panicked(panic: Panic)

  /** Purging leaves exactly the entries whose lifetime has not run out, as they were. */
  lemma PurgingSparesTheLiving<K(!new), V>(m: map<K, Entry<V>>, now: nat)
    ensures forall k :: k in Purge(m, now) <==> k in m && m[k].liveUntil >= now
    ensures forall k :: k in Purge(m, now) ==> Purge(m, now)[k] == m[k]
  {
  }

  method PurgeExpiredEntries(e: Env)
    modifies e`instance, e`balances, e`allowances
    ensures e.instance ==
      if old(e.instance).Some? && e.sequence <= old(e.instance).value.liveUntil then old(e.instance) else None
    ensures e.balances == Purge(old(e.balances), e.sequence)
    ensures e.allowances == Purge(old(e.allowances), e.sequence)
  {
    if e.instance.Some? && e.instance.value.liveUntil < e.sequence {
      e.instance := None;
    }
    e.balances := Purge(e.balances, e.sequence);
    e.allowances := Purge(e.allowances, e.sequence);
  }

  /** Every balance entry lives at least until ledger `until`. */
  ghost predicate Safe(l: Ledger, until: nat) {
    forall id :: id in l.balances ==> until <= l.balances[id].liveUntil
  }

  /** One hop. The new environment carries no authorisations. */
  method AdvanceEnv(e: Env, ledgers: nat) returns (status: Status)
    requires e.Valid()
    modifies e
    ensures status == (
      if old(e.sequence) + ledgers <= U32_MAX && old(e.timestamp) + SECONDS_PER_LEDGER * ledgers <= U64_MAX
      then Completed else Panicked(EndOfTime))
    ensures e.Continues(old(e.steps))
    ensures status.Completed? ==>
      && e.auths == {}
      && e.Snapshot() == Elapse(old(e.Snapshot()), ledgers)
      && (Safe(old(e.Snapshot()), old(e.sequence) + ledgers) ==> e.Books() == old(e.Books()))
  {
    if e.sequence + ledgers > U32_MAX || e.timestamp + SECONDS_PER_LEDGER * ledgers > U64_MAX {
      return Panicked(EndOfTime);
    }
    e.sequence := e.sequence + ledgers;
    e.timestamp := e.timestamp + SECONDS_PER_LEDGER * ledgers;
    PurgeExpiredEntries(e);
    e.auths := {};
    ghost var s := Step(Advance(ledgers), Ok(Done), e.Snapshot());
    RunExtended(e.host, e.start, e.steps, s);
    TallyAfterTime(e.start, e.steps, s);
    e.steps := e.steps + [s];
    return Completed;
  }

  /** The number of hops before the last one. */
  function FullHops(ledgers: nat): nat
    requires ledgers >= 1
  {
    (ledgers - 1) / MAX_LEDGERS_TO_ADVANCE
  }

  /**
   The clock has room for the advance. The driver looks a full hop ahead even when the last hop is
   shorter, so it can run out of ledger numbers slightly before the target itself does.
   */
  predicate HasRoom(sequence: nat, timestamp: nat, ledgers: nat)
    requires ledgers >= 1
  {
    && sequence + MAX_LEDGERS_TO_ADVANCE * (FullHops(ledgers) + 1) <= U32_MAX
    && timestamp + SECONDS_PER_LEDGER * ledgers <= U64_MAX
  }

  /** The ledger that the driver looks ahead to before its hop number `hop` exists. */
  predicate LookAheadFits(sequence: nat, hop: nat) {
    sequence + MAX_LEDGERS_TO_ADVANCE * (hop + 1) <= U32_MAX
  }

  /** There is room exactly if every look-ahead before the target fits, and the timestamp does. */
  lemma RoomExactly(sequence: nat, timestamp: nat, ledgers: nat)
    requires ledgers >= 1
    ensures HasRoom(sequence, timestamp, ledgers) <==>
      && (forall hop: nat {:trigger LookAheadFits(sequence, hop)} ::
            MAX_LEDGERS_TO_ADVANCE * hop < ledgers ==> LookAheadFits(sequence, hop))
      && timestamp + SECONDS_PER_LEDGER * ledgers <= U64_MAX
    ensures HasRoom(sequence, timestamp, ledgers) ==> sequence + ledgers <= U32_MAX
  {
    var last := FullHops(ledgers);
    assert MAX_LEDGERS_TO_ADVANCE * last < ledgers <= MAX_LEDGERS_TO_ADVANCE * (last + 1);
    assert LookAheadFits(sequence, last) <==> sequence + MAX_LEDGERS_TO_ADVANCE * (last + 1) <= U32_MAX;
    forall hop: nat | MAX_LEDGERS_TO_ADVANCE * hop < ledgers && LookAheadFits(sequence, last)
      ensures LookAheadFits(sequence, hop)
    {
      HopsSoFar(hop, ledgers);
    }
  }

  /** The hop that reaches the target is the one after `FullHops`. */
  lemma HopsSoFar(hops: nat, ledgers: nat)
    requires MAX_LEDGERS_TO_ADVANCE * hops < ledgers
    ensures hops <= FullHops(ledgers)
    ensures ledgers <= MAX_LEDGERS_TO_ADVANCE * (hops + 1) ==> hops == FullHops(ledgers)
  {
  }

  /** A target with a full hop to spare always has room. */
  lemma RoomToSpare(sequence: nat, timestamp: nat, ledgers: nat)
    requires ledgers >= 1
    requires sequence + ledgers + (MAX_LEDGERS_TO_ADVANCE - 1) <= U32_MAX
    requires timestamp + SECONDS_PER_LEDGER * ledgers <= U64_MAX
    ensures HasRoom(sequence, timestamp, ledgers)
  {
  }

  /** From `l0` to `l` time has passed as in one jump, except that the instance may have been renewed. */
  ghost predicate Travelled(l0: Ledger, l: Ledger) {
    && l0.sequence <= l.sequence
    && SameExceptInstance(l, Elapse(l0, l.sequence - l0.sequence))
    && l0.instance.Some? && l.instance.Some?
    && l.instance.value.value == l0.instance.value.value
  }

  lemma TravelStarts(l: Ledger)
    requires Sound(l) && l.instance.Some?
    ensures Travelled(l, l)
  {
    assert Purge(l.balances, l.sequence) == l.balances;
    assert Purge(l.allowances, l.sequence) == l.allowances;
  }

  lemma ElapseIgnoresInstance(l: Ledger, l': Ledger, ledgers: nat)
    requires SameExceptInstance(l, l')
    ensures SameExceptInstance(Elapse(l, ledgers), Elapse(l', ledgers))
  {
  }

  lemma TravelContinues(l0: Ledger, l: Ledger, hop: nat)
    requires Travelled(l0, l) && l.sequence + hop <= l.instance.value.liveUntil
    ensures Travelled(l0, Elapse(l, hop))
  {
    HopsAreOneJump(l0, l.sequence - l0.sequence, hop);
    ElapseIgnoresInstance(l, Elapse(l0, l.sequence - l0.sequence), hop);
  }

  /** One hop of a journey that began at `l0`. */
  method Hop(e: Env, ledgers: nat, ghost l0: Ledger, ghost until: nat) returns (status: Status)
    requires e.Valid() && Travelled(l0, e.Snapshot())
    requires e.sequence + ledgers <= e.instance.value.liveUntil && e.sequence + ledgers <= until
    modifies e
    ensures status == (
      if old(e.sequence) + ledgers <= U32_MAX && old(e.timestamp) + SECONDS_PER_LEDGER * ledgers <= U64_MAX
      then Completed else Panicked(EndOfTime))
    ensures e.Continues(old(e.steps))
    ensures status.Completed? ==>
      && e.sequence == old(e.sequence) + ledgers
      && Travelled(l0, e.Snapshot())
      && (Safe(old(e.Snapshot()), until) ==> Safe(e.Snapshot(), until) && e.Books() == old(e.Books()))
  {
    TravelContinues(l0, e.Snapshot(), ledgers);
    status := AdvanceEnv(e, ledgers);
  }

  /** The ping that keeps the contract alive between two hops. */
  method Ping(e: Env, stranger: AllowanceKey, ghost l0: Ledger, ghost until: nat) returns (status: Status)
    requires e.Valid() && Travelled(l0, e.Snapshot())
    modifies e
    ensures e.Continues(old(e.steps)) && e.sequence == old(e.sequence) && e.timestamp == old(e.timestamp)
    ensures Travelled(l0, e.Snapshot())
    ensures e.Books() == old(e.Books())
    ensures Safe(old(e.Snapshot()), until) ==> Safe(e.Snapshot(), until)
    ensures status.Completed? ==> e.sequence + MAX_LEDGERS_TO_ADVANCE <= e.instance.value.liveUntil
    ensures status.Panicked? ==> status == Panicked(HostRefusal) && e.host.servedUntil < e.sequence
  {
    var r := QueryAllowance(e, stranger.from, stranger.spender);
    return if r.Ok? then Completed else Panicked(HostRefusal);
  }

  /**
   The whole advance. It stops only for want of room or because the host refuses a ping; otherwise it
   ends where a single jump would, except that the instance has been kept alive.
   */
  method AdvanceTime(e: Env, ledgers: nat, strangers: nat -> AllowanceKey) returns (status: Status)
    requires e.Valid() && ledgers >= 1
    requires e.instance.Some? && e.sequence + MAX_LEDGERS_TO_ADVANCE <= e.instance.value.liveUntil
    modifies e
    ensures status != Panicked(NonceOverflow)
    ensures status == Panicked(EndOfTime) ==> !HasRoom(old(e.sequence), old(e.timestamp), ledgers)
    ensures status == Panicked(HostRefusal) ==> e.host.servedUntil < old(e.sequence) + ledgers
    ensures e.Continues(old(e.steps))
    ensures status.Completed? ==>
      && HasRoom(old(e.sequence), old(e.timestamp), ledgers)
      && e.sequence == old(e.sequence) + ledgers
      && Travelled(old(e.Snapshot()), e.Snapshot())
      && (Safe(old(e.Snapshot()), e.sequence) ==> e.Books() == old(e.Books()))
  {
    ghost var l0, hops := e.Snapshot(), 0;
    if e.sequence + ledgers > U32_MAX {
      return Panicked(EndOfTime);
    }
    var toLedger := e.sequence + ledgers;
    ReachableIsSound(e.host, e.start, e.steps);
    TravelStarts(l0);

    while true
      invariant e.Continues(old(e.steps))
      invariant e.sequence == l0.sequence + MAX_LEDGERS_TO_ADVANCE * hops < toLedger
      invariant e.timestamp == l0.timestamp + SECONDS_PER_LEDGER * (e.sequence - l0.sequence)
      invariant Travelled(l0, e.Snapshot())
      invariant e.sequence + MAX_LEDGERS_TO_ADVANCE <= e.instance.value.liveUntil
      invariant Safe(l0, toLedger) ==> Safe(e.Snapshot(), toLedger) && e.Books() == old(e.Books())
      decreases toLedger - e.sequence
    {
      HopsSoFar(hops, ledgers);
      var currLedger := e.sequence;
      assert currLedger < toLedger;
      if currLedger + MAX_LEDGERS_TO_ADVANCE > U32_MAX {
        return Panicked(EndOfTime);
      }
      var nextLedger := if currLedger + MAX_LEDGERS_TO_ADVANCE < toLedger then currLedger + MAX_LEDGERS_TO_ADVANCE else toLedger;
      status := Hop(e, nextLedger - currLedger, l0, toLedger);
      if status.Panicked? || nextLedger == toLedger {
        return;
      }
      hops := hops + 1;
      status := Ping(e, strangers(nextLedger), l0, toLedger);
      if status.Panicked? {
        return;
      }
    }
  }
}
