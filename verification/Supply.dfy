/** Sums of balances: over the whole balance map, and over a list of accounts. */
module Supply {
  import opened Token

  ghost function Total(m: map<Address, int>): int {
    if m == map[] then 0
    else
      var id :| id in m;
      m[id] + Total(m - {id})
  }

  /** The sum does not depend on the order in which it is taken. */
  lemma {:induction false} TotalWithout(m: map<Address, int>, id: Address)
    requires id in m
    ensures Total(m) == m[id] + Total(m - {id})
    decreases |m|
  {
    var first :| first in m && Total(m) == m[first] + Total(m - {first});
    if first != id {
      TotalWithout(m - {first}, id);
      TotalWithout(m - {id}, first);
      assert m - {first} - {id} == m - {id} - {first};
    }
  }

  lemma TotalUpdated(m: map<Address, int>, id: Address, v: int)
    ensures Total(m[id := v]) == Total(m) - Balance(m, id) + v
  {
    TotalWithout(m[id := v], id);
    if id in m {
      TotalWithout(m, id);
      assert m[id := v] - {id} == m - {id};
    } else {
      assert m[id := v] - {id} == m;
    }
  }

  lemma TotalMoved(m: map<Address, int>, from: Address, to: Address, amount: int)
    requires Moved(m, from, to, amount).Ok?
    ensures Total(Moved(m, from, to, amount).value) == Total(m)
  {
    if from == to {
      TotalUpdated(m, from, Balance(m, from));
    } else {
      TotalUpdated(m, from, Balance(m, from) - amount);
      TotalUpdated(m[from := Balance(m, from) - amount], to, Balance(m, to) + amount);
    }
  }

  /** Taking some accounts out of a map takes their balances out of its sum. */
  lemma {:induction false} TotalSplit(m: map<Address, int>, gone: set<Address>)
    requires gone <= m.Keys
    ensures Total(m) == Total(m - gone) + Total(m - (m.Keys - gone))
    decreases gone
  {
    if gone == {} {
      assert m - gone == m && m - (m.Keys - gone) == map[];
    } else {
      var id :| id in gone;
      var m', gone' := m - {id}, gone - {id};
      TotalSplit(m', gone');
      TotalWithout(m, id);
      TotalWithout(m - (m.Keys - gone), id);
      assert m' - gone' == m - gone;
      assert m' - (m'.Keys - gone') == m - (m.Keys - gone) - {id};
    }
  }

  lemma {:induction false} TotalIsNonNegative(m: map<Address, int>)
    requires forall id :: id in m ==> 0 <= m[id]
    ensures 0 <= Total(m)
    decreases |m|
  {
    if m != map[] {
      var id :| id in m;
      TotalWithout(m, id);
      TotalIsNonNegative(m - {id});
    }
  }

  lemma {:induction false} TotalOfNothing(m: map<Address, int>)
    requires forall id :: id in m ==> m[id] == 0
    ensures Total(m) == 0
    decreases |m|
  {
    if m != map[] {
      var id :| id in m;
      TotalWithout(m, id);
      TotalOfNothing(m - {id});
    }
  }

  ghost predicate Distinct(accounts: seq<Address>) {
    forall i, j :: 0 <= i < j < |accounts| ==> accounts[i] != accounts[j]
  }

  function ListedTotal(accounts: seq<Address>, m: map<Address, int>): int {
    if accounts == [] then 0
    else ListedTotal(accounts[..|accounts| - 1], m) + Balance(m, accounts[|accounts| - 1])
  }

  lemma {:induction false} ListedTotalIgnores(accounts: seq<Address>, m: map<Address, int>, id: Address)
    requires id !in accounts
    ensures ListedTotal(accounts, m - {id}) == ListedTotal(accounts, m)
  {
    if accounts != [] {
      ListedTotalIgnores(accounts[..|accounts| - 1], m, id);
    }
  }

  /** Distinct accounts that cover every balance entry carry the whole supply. */
  lemma {:induction false} ListedAccountsCarryTheSupply(accounts: seq<Address>, m: map<Address, int>)
    requires Distinct(accounts)
    requires forall id :: id in m ==> id in accounts
    ensures ListedTotal(accounts, m) == Total(m)
  {
    if accounts == [] {
      assert m == map[];
    } else {
      var last, rest := accounts[|accounts| - 1], accounts[..|accounts| - 1];
      assert accounts == rest + [last];
      ListedTotalIgnores(rest, m, last);
      ListedAccountsCarryTheSupply(rest, m - {last});
      if last in m {
        TotalWithout(m, last);
      } else {
        assert m - {last} == m;
      }
    }
  }
}
