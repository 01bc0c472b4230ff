/** The sum of all balances held in the `users` table, used to state
    which operations create or destroy money. */
module LedgerTotals {
  import opened LedgerTypes

  /** Some key of a non-empty table. */
  ghost function PickKey(m: map<Id, Account>): (k: Id)
    requires m != map[]
    ensures k in m
  {
    assert m.Keys != {} by {
      var j :| j in m;
      assert j in m.Keys;
    }
    var k :| k in m.Keys; k
  }

  /** Sum of the balances of all accounts. */
  ghost function Total(m: map<Id, Account>): int
    decreases |m|
  {
    if m == map[] then 0
    else
      var k := PickKey(m);
      assert |m - {k}| < |m| by { assert (m - {k}).Keys == m.Keys - {k}; }
      m[k].balance + Total(m - {k})
  }

  lemma RemoveShrinks(m: map<Id, Account>, k: Id)
    requires k in m
    ensures (m - {k}).Keys == m.Keys - {k}
    ensures |m - {k}| == |m| - 1
  {
  }

  /** The total does not depend on which key the sum starts from. */
  lemma {:induction false} TotalRemove(m: map<Id, Account>, k: Id)
    requires k in m
    ensures Total(m) == m[k].balance + Total(m - {k})
    decreases |m|
  {
    var j := PickKey(m);
    RemoveShrinks(m, j);
    if j != k {
      RemoveShrinks(m, k);
      var mj, mk := m - {j}, m - {k};
      assert k in mj && j in mk;
      TotalRemove(mj, k);
      TotalRemove(mk, j);
      assert mj - {k} == mk - {j};
    }
  }

  /** Replacing one account changes the total by the change of its balance. */
  lemma TotalUpdate(m: map<Id, Account>, k: Id, a: Account)
    requires k in m
    ensures Total(m[k := a]) == Total(m) - m[k].balance + a.balance
  {
    TotalRemove(m, k);
    TotalRemove(m[k := a], k);
    assert m[k := a] - {k} == m - {k};
  }

  /** Adding a new account adds its balance to the total. */
  lemma TotalInsert(m: map<Id, Account>, k: Id, a: Account)
    requires k !in m
    ensures Total(m[k := a]) == Total(m) + a.balance
  {
    TotalRemove(m[k := a], k);
    assert m[k := a] - {k} == m;
  }
}
