/** The authorisation entries made for a command (fuzz.rs, `mock_auths_for_command`), and their nonces. */
module Authorisation {
  import opened Prelude
  import opened Token
  import opened Supply
  import opened Environment
  import opened Input
  import opened Clock

  datatype AuthEntry = AuthEntry(address: Address, nonce: int)

  /** Entries numbered consecutively from `nonce`. */
  ghost predicate Numbered(entries: seq<AuthEntry>, nonce: int) {
    forall i :: 0 <= i < |entries| ==> entries[i].nonce == nonce + i
  }

  /** One entry per flagged account, in account order, numbered from `nonce`. */
  function Entries(accounts: seq<Address>, auths: seq<bool>, nonce: int): seq<AuthEntry>
    requires |accounts| == |auths|
  {
    if auths == [] then []
    else
      var n := |auths| - 1;
      Entries(accounts[..n], auths[..n], nonce)
        + if auths[n] then [AuthEntry(accounts[n], nonce + FlagCount(auths[..n]))] else []
  }

  /** The nonces of one command are consecutive, and there are as many as raised flags. */
  lemma {:induction false} EntriesAreConsecutive(accounts: seq<Address>, auths: seq<bool>, nonce: int)
    requires |accounts| == |auths|
    ensures |Entries(accounts, auths, nonce)| == FlagCount(auths)
    ensures Numbered(Entries(accounts, auths, nonce), nonce)
  {
    if auths != [] {
      EntriesAreConsecutive(accounts[..|auths| - 1], auths[..|auths| - 1], nonce);
    }
  }

  /** The flags that are up among the first `n`. */
  function Raised(flags: seq<bool>, n: nat): set<nat>
    requires n <= |flags|
  {
    set i: nat | i < n && flags[i]
  }

  lemma {:induction false} FlagsCounted(flags: seq<bool>, n: nat)
    requires n <= |flags|
    ensures FlagCount(flags[..n]) == |Raised(flags, n)|
  {
    if n > 0 {
      FlagsCounted(flags, n - 1);
      assert flags[..n][..n - 1] == flags[..n - 1];
      assert Raised(flags, n) == Raised(flags, n - 1) + if flags[n - 1] then {n - 1} else {};
    } else {
      assert Raised(flags, n) == {};
    }
  }

  /** The entry of a flagged account comes after those of the flagged accounts before it. */
  lemma {:induction false} EntryOfFlagged(accounts: seq<Address>, flags: seq<bool>, nonce: int, i: nat)
    requires i < |accounts| == |flags| && flags[i]
    ensures
      var n := FlagCount(flags[..i]);
      n < |Entries(accounts, flags, nonce)| && Entries(accounts, flags, nonce)[n] == AuthEntry(accounts[i], nonce + n)
  {
    var last := |flags| - 1;
    EntriesAreConsecutive(accounts[..last], flags[..last], nonce);
    if i < last {
      EntryOfFlagged(accounts[..last], flags[..last], nonce, i);
      assert flags[..last][..i] == flags[..i];
    }
  }

  lemma {:induction false} FlaggedOfEntry(accounts: seq<Address>, flags: seq<bool>, nonce: int, j: nat) returns (i: nat)
    requires |accounts| == |flags| && j < |Entries(accounts, flags, nonce)|
    ensures i < |flags| && flags[i] && Entries(accounts, flags, nonce)[j].address == accounts[i]
  {
    var last := |flags| - 1;
    if j < |Entries(accounts[..last], flags[..last], nonce)| {
      i := FlaggedOfEntry(accounts[..last], flags[..last], nonce, j);
    } else {
      i := last;
    }
  }

  /**
   Exactly the accounts whose flag is up sign, and nobody else does: there is one entry per raised flag,
   that of the account itself, in account order.
   */
  ghost predicate SignedExactly(accounts: seq<Address>, flags: seq<bool>, nonce: int, signers: set<Address>, entries: seq<AuthEntry>)
    requires |accounts| == |flags|
  {
    && (forall i :: 0 <= i < |accounts| ==> (accounts[i] in signers <==> flags[i]))
    && (forall a :: a in signers ==> a in accounts)
    && |entries| == |Raised(flags, |flags|)|
    && (forall i :: 0 <= i < |accounts| ==> EntryExact(accounts[i], flags[i], |Raised(flags, i)|, nonce, entries))
  }

  /** An account has an entry, and that is entry `n`, if and only if its flag is up. */
  ghost predicate EntryExact(a: Address, flag: bool, n: nat, nonce: int, entries: seq<AuthEntry>) {
    && (flag ==> n < |entries| && entries[n] == AuthEntry(a, nonce + n))
    && (flag <==> exists j :: 0 <= j < |entries| && entries[j].address == a)
  }

  /** A flagged account has its entry, and an account whose flag is down has none. */
  lemma EntryIsExact(accounts: seq<Address>, flags: seq<bool>, nonce: int, i: nat)
    requires i < |accounts| == |flags| && Distinct(accounts)
    ensures
      var entries, n := Entries(accounts, flags, nonce), |Raised(flags, i)|;
      && (flags[i] ==> n < |entries| && entries[n] == AuthEntry(accounts[i], nonce + n))
      && (!flags[i] ==> forall j :: 0 <= j < |entries| ==> entries[j].address != accounts[i])
  {
    FlagsCounted(flags, i);
    if flags[i] {
      EntryOfFlagged(accounts, flags, nonce, i);
    } else {
      forall j | 0 <= j < |Entries(accounts, flags, nonce)| ensures Entries(accounts, flags, nonce)[j].address != accounts[i] {
        var x := FlaggedOfEntry(accounts, flags, nonce, j);
      }
    }
  }

  lemma EntriesAreExact(accounts: seq<Address>, flags: seq<bool>, nonce: int)
    requires |accounts| == |flags| && Distinct(accounts)
    ensures SignedExactly(accounts, flags, nonce, Flagged(accounts, flags), Entries(accounts, flags, nonce))
  {
    var entries := Entries(accounts, flags, nonce);
    assert flags[..|flags|] == flags;
    FlagsCounted(flags, |flags|);
    EntriesAreConsecutive(accounts, flags, nonce);
    forall i | 0 <= i < |accounts|
      ensures accounts[i] in Flagged(accounts, flags) <==> flags[i]
      ensures EntryExact(accounts[i], flags[i], |Raised(flags, i)|, nonce, entries)
    {
      FlagsSign(accounts, flags, i);
      EntryIsExact(accounts, flags, nonce, i);
    }
  }

  lemma {:induction false} FlagCountMonotone(auths: seq<bool>, i: nat)
    requires i <= |auths|
    ensures FlagCount(auths[..i]) <= FlagCount(auths)
    decreases |auths| - i
  {
    if i < |auths| {
      assert auths[..i + 1][..i] == auths[..i];
      FlagCountMonotone(auths, i + 1);
    } else {
      assert auths[..i] == auths;
    }
  }

  /** Signs the next call for every flagged account. The signature's own expiration must fit the clock. */
  method MockAuths(e: Env, accounts: seq<Address>, auths: seq<bool>, nonce: nat)
    returns (status: Status, nonce': nat, entries: seq<AuthEntry>)
    requires |accounts| == |auths| && nonce <= I64_MAX
    modifies e`auths
    ensures Numbered(entries, nonce)
    ensures status != Panicked(HostRefusal)
    ensures status == Panicked(EndOfTime) ==> e.sequence + e.host.maxEntryTtl > U32_MAX
    ensures status == Panicked(NonceOverflow) ==>
      e.sequence + e.host.maxEntryTtl <= U32_MAX && nonce + FlagCount(auths) > I64_MAX
    ensures status.Completed? ==>
      && e.sequence + e.host.maxEntryTtl <= U32_MAX
      && nonce' == nonce + FlagCount(auths) <= I64_MAX
      && entries == Entries(accounts, auths, nonce)
      && e.auths == Flagged(accounts, auths)
      && (Distinct(accounts) ==> SignedExactly(accounts, auths, nonce, e.auths, entries))
  {
    nonce', entries := nonce, [];
    if e.sequence + e.host.maxEntryTtl > U32_MAX {
      return Panicked(EndOfTime), nonce', entries;
    }
    var signers: set<Address> := {};
    for i := 0 to |accounts|
      invariant nonce' == nonce + FlagCount(auths[..i]) <= I64_MAX
      invariant entries == Entries(accounts[..i], auths[..i], nonce)
      invariant signers == set j | 0 <= j < i && auths[j] :: accounts[j]
    {
      assert auths[..i + 1][..i] == auths[..i] && accounts[..i + 1][..i] == accounts[..i];
      FlagCountMonotone(auths, i + 1);
      if auths[i] {
        if nonce' == I64_MAX {
          EntriesAreConsecutive(accounts[..i], auths[..i], nonce);
          return Panicked(NonceOverflow), nonce', entries;
        }
        entries := entries + [AuthEntry(accounts[i], nonce')];
        nonce' := nonce' + 1;
        signers := signers + {accounts[i]};
      }
    }
    assert auths[..|auths|] == auths && accounts[..|auths|] == accounts;
    EntriesAreConsecutive(accounts, auths, nonce);
    e.auths := signers;
    if Distinct(accounts) {
      EntriesAreExact(accounts, auths, nonce);
    }
    status := Completed;
  }
}
