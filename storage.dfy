/** The contract's instance-storage cells that several of its modules share: token
    balances (the `Balance` key of balance.rs) and frozen flags (the `Frozen` key). */
module Storage {
  import opened Common

  type Balances = map<Address, int>

  /** read_balance: an address without an entry holds 0. */
  function Balance(m: Balances, a: Address): int {
    if a in m then m[a] else 0
  }

  /** receive_balance: add `amount` to the balance of `a`. */
  function Credit(m: Balances, a: Address, amount: int): (r: Balances)
    ensures Balance(r, a) == Balance(m, a) + amount
    ensures forall b :: b != a ==> Balance(r, b) == Balance(m, b)
    ensures r.Keys == m.Keys + {a}
  {
    m[a := Balance(m, a) + amount]
  }

  /** spend_balance, once the caller has checked that the balance covers `amount`. */
  function Debit(m: Balances, a: Address, amount: int): (r: Balances)
    ensures Balance(r, a) == Balance(m, a) - amount
    ensures forall b :: b != a ==> Balance(r, b) == Balance(m, b)
    ensures r.Keys == m.Keys + {a}
  {
    m[a := Balance(m, a) - amount]
  }

  /** The supply held in `m`: the sum of all balances. */
  ghost function Total(m: Balances): int
    decreases |m|
  {
    if m == map[] then 0
    else
      var a :| a in m;
      assert |m - {a}| < |m| by { assert (m - {a}).Keys == m.Keys - {a}; }
      m[a] + Total(m - {a})
  }

  /** Whatever entry `Total` happens to pick first, it may be taken out first. */
  lemma {:induction false} TotalRemove(m: Balances, a: Address)
    requires a in m
    ensures Total(m) == m[a] + Total(m - {a})
    decreases |m|
  {
    var b :| b in m && Total(m) == m[b] + Total(m - {b});
    if b != a {
      assert (m - {b}).Keys == m.Keys - {b};
      assert (m - {a}).Keys == m.Keys - {a};
      TotalRemove(m - {b}, a);
      TotalRemove(m - {a}, b);
      assert m - {b} - {a} == m - {a} - {b};
    }
  }

  /** Writing `v` into the cell of `a` changes the total by `v` minus what `a` held. */
  lemma TotalUpdate(m: Balances, a: Address, v: int)
    ensures Total(m[a := v]) == Total(m) - Balance(m, a) + v
  {
    TotalRemove(m[a := v], a);
    if a in m {
      TotalRemove(m, a);
      assert m[a := v] - {a} == m - {a};
    } else {
      assert m[a := v] - {a} == m;
    }
  }

  /** Receiving `amount` increases the supply by exactly `amount`. */
  lemma TotalCredit(m: Balances, a: Address, amount: int)
    ensures Total(Credit(m, a, amount)) == Total(m) + amount
  {
    TotalUpdate(m, a, Balance(m, a) + amount);
  }

  /** Spending `amount` decreases the supply by exactly `amount`. */
  lemma TotalDebit(m: Balances, a: Address, amount: int)
    ensures Total(Debit(m, a, amount)) == Total(m) - amount
  {
    TotalUpdate(m, a, Balance(m, a) - amount);
  }

  /** is_account_frozen (contract.rs): an address without a `Frozen` entry is not frozen. */
  function IsAccountFrozen(frozen: map<Address, bool>, a: Address): (r: bool)
    ensures a !in frozen ==> !r
    ensures r <==> a in frozen && frozen[a]
  {
    if a in frozen then frozen[a] else false
  }
}
