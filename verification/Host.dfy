/**
 The part of the Soroban host that the token and its driver rely on: ledger entries that carry a
 live-until ledger, and the rules for creating entries and extending their lifetimes.

 The host is not part of the repository, so it is a parameter: any host that keeps the laws of
 `Lawful` will do. Every result of this project holds for all of them.
 */
module Host {
  import opened Prelude

  const DAY_IN_LEDGERS: nat := 17280

  /** The longest single jump the driver makes between two pings of the contract. */
  const MAX_LEDGERS_TO_ADVANCE: nat := 4095

  const INSTANCE_BUMP_AMOUNT: nat := 7 * DAY_IN_LEDGERS
  const INSTANCE_LIFETIME_THRESHOLD: nat := INSTANCE_BUMP_AMOUNT - DAY_IN_LEDGERS
  const BALANCE_BUMP_AMOUNT: nat := 30 * DAY_IN_LEDGERS
  const BALANCE_LIFETIME_THRESHOLD: nat := BALANCE_BUMP_AMOUNT - DAY_IN_LEDGERS

  datatype Durability = Instance | Persistent | Temporary

  /**
   `newLiveUntil(class, sequence)` is the live-until ledger of an entry created at `sequence`.
   `extendTtl(class, sequence, liveUntil, threshold, extendTo)` is the live-until ledger after a
   request to extend, or `None` when the host refuses.
   `servedUntil` is the last ledger at which the host still grants the token's fixed bumps.
   */
  datatype SorobanHost = SorobanHost(
    newLiveUntil: (Durability, nat) -> nat,
    extendTtl: (Durability, nat, nat, nat, nat) -> Option<nat>,
    maxEntryTtl: nat,
    servedUntil: nat)

  /** What is assumed of a host. Nothing here says whether the threshold test is `<` or `<=`. */
  ghost predicate Lawful(h: SorobanHost) {
    && h.maxEntryTtl >= 1
    && (forall d, now: nat :: h.newLiveUntil(d, now) >= now)
    && (forall now: nat :: h.newLiveUntil(Instance, now) >= now + MAX_LEDGERS_TO_ADVANCE)
    && (forall d, now: nat, live: nat, threshold: nat, extendTo: nat ::
          h.extendTtl(d, now, live, threshold, extendTo).Some? ==>
            && h.extendTtl(d, now, live, threshold, extendTo).value >= live
            && (threshold <= extendTo ==> h.extendTtl(d, now, live, threshold, extendTo).value >= now + threshold))
    && (forall now: nat, live: nat :: now <= h.servedUntil ==>
          h.extendTtl(Instance, now, live, INSTANCE_LIFETIME_THRESHOLD, INSTANCE_BUMP_AMOUNT).Some?)
    && (forall now: nat, live: nat :: now <= h.servedUntil ==>
          h.extendTtl(Persistent, now, live, BALANCE_LIFETIME_THRESHOLD, BALANCE_BUMP_AMOUNT).Some?)
  }

  /**
   A host as the test environment configures it: entries are born with a minimum lifetime, a request
   is refused when it would pass the maximum lifetime or the last ledger, and otherwise extends an
   entry whose remaining lifetime is at (`inclusive`) or strictly below the threshold.
   */
  function TestHost(minPersistentTtl: nat, minTempTtl: nat, maxEntryTtl: nat, inclusive: bool): SorobanHost
    requires minPersistentTtl > MAX_LEDGERS_TO_ADVANCE && minTempTtl >= 1
    requires BALANCE_BUMP_AMOUNT < maxEntryTtl <= U32_MAX
  {
    SorobanHost(
      (d: Durability, now: nat) => now + (if d.Temporary? then minTempTtl else minPersistentTtl) - 1,
      (d: Durability, now: nat, live: nat, threshold: nat, extendTo: nat) =>
        if extendTo >= maxEntryTtl || now + maxEntryTtl > U32_MAX then None
        else if live < now + extendTo && (live < now + threshold || (inclusive && live == now + threshold))
        then Some(now + extendTo)
        else Some(live),
      maxEntryTtl,
      U32_MAX - maxEntryTtl)
  }

  /** The laws can be met, and by both readings of the threshold. */
  lemma TestHostIsLawful(minPersistentTtl: nat, minTempTtl: nat, maxEntryTtl: nat, inclusive: bool)
    requires minPersistentTtl > MAX_LEDGERS_TO_ADVANCE && minTempTtl >= 1
    requires BALANCE_BUMP_AMOUNT < maxEntryTtl <= U32_MAX
    ensures Lawful(TestHost(minPersistentTtl, minTempTtl, maxEntryTtl, inclusive))
  {
  }

  datatype Entry<+V> = Entry(value: V, liveUntil: nat)

  /** The contents of a storage class with the lifetimes stripped. */
  function Values<K, V>(m: map<K, Entry<V>>): map<K, V> {
    map k | k in m :: m[k].value
  }

  /** Writing a key: a new entry gets the host's minimum lifetime, an existing one keeps its own. */
  function Put<K, V>(h: SorobanHost, d: Durability, now: nat, m: map<K, Entry<V>>, k: K, v: V): (r: map<K, Entry<V>>)
    ensures Values(r) == Values(m)[k := v]
    ensures k in r && r[k].liveUntil == if k in m then m[k].liveUntil else h.newLiveUntil(d, now)
  {
    m[k := Entry(v, if k in m then m[k].liveUntil else h.newLiveUntil(d, now))]
  }

  /** Dropping the entries whose live-until ledger has passed. */
  function Purge<K, V>(m: map<K, Entry<V>>, now: nat): map<K, Entry<V>> {
    map k | k in m && now <= m[k].liveUntil :: m[k]
  }
}
