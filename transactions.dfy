/**
 * The Transaction row of the expense tracker and the sums over the
 * transaction table that the wallet balance must agree with.
 *
 * Amounts are exact integers counting hundredths of a rupee (paise).
 * The table is a map from primary key to row; every key is below the
 * next key to be handed out, so "the table in key order" is Rows(txns, n).
 */
module Transactions {

  type UserId = nat
  type TxnId = nat

  /** One ledger entry: the columns of the Transaction model. */
  datatype Txn = Txn(
    id: TxnId,
    owner: UserId,
    kind: string,        // the `type` column: a free string, "income" or anything else
    amount: int,         // paise; zero and negative amounts are accepted as entered
    category: string,
    description: string,
    timestamp: int)

  const Income := "income"
  const Expense := "expense"

  /** What recording `t` does to its owner's balance: income adds, every other type subtracts. */
  function Effect(t: Txn): int
  {
    if t.kind == Income then t.amount else -t.amount
  }

  /** Signed total of the rows with key below n that belong to u. */
  function Net(txns: map<TxnId, Txn>, u: UserId, n: nat): int
  {
    if n == 0 then 0
    else Net(txns, u, n - 1) + (if n - 1 in txns && txns[n - 1].owner == u then Effect(txns[n - 1]) else 0)
  }

  /** Total of u's income rows with key below n. */
  function IncomeTotal(txns: map<TxnId, Txn>, u: UserId, n: nat): int
  {
    if n == 0 then 0
    else
      IncomeTotal(txns, u, n - 1)
        + (if n - 1 in txns && txns[n - 1].owner == u && txns[n - 1].kind == Income then txns[n - 1].amount else 0)
  }

  /** Total of u's rows of any other type with key below n. */
  function SpendingTotal(txns: map<TxnId, Txn>, u: UserId, n: nat): int
  {
    if n == 0 then 0
    else
      SpendingTotal(txns, u, n - 1)
        + (if n - 1 in txns && txns[n - 1].owner == u && txns[n - 1].kind != Income then txns[n - 1].amount else 0)
  }

  /** The rows with key below n, in key order. */
  function Rows(txns: map<TxnId, Txn>, n: nat): (r: seq<Txn>)
    ensures |r| <= n
  {
    if n == 0 then []
    else Rows(txns, n - 1) + (if n - 1 in txns then [txns[n - 1]] else [])
  }

  /** The rows of `ts` that belong to u, in order (`filter_by(user_id=u)`). */
  function OwnedBy(ts: seq<Txn>, u: UserId): seq<Txn>
  {
    if ts == [] then []
    else OwnedBy(ts[..|ts| - 1], u) + (if ts[|ts| - 1].owner == u then [ts[|ts| - 1]] else [])
  }

  /** Sum of the balance effects of a sequence of rows. */
  function SignedSum(ts: seq<Txn>): int
  {
    if ts == [] then 0 else SignedSum(ts[..|ts| - 1]) + Effect(ts[|ts| - 1])
  }

  /** The balance is income minus spending, as the wallet invariant is worded. */
  lemma {:induction false} NetIsIncomeMinusSpending(txns: map<TxnId, Txn>, u: UserId, n: nat)
    ensures Net(txns, u, n) == IncomeTotal(txns, u, n) - SpendingTotal(txns, u, n)
  {
    if n > 0 {
      NetIsIncomeMinusSpending(txns, u, n - 1);
    }
  }

  /** Net only looks at keys below n. */
  lemma {:induction false} NetFrame(a: map<TxnId, Txn>, b: map<TxnId, Txn>, u: UserId, n: nat)
    requires forall k :: k < n ==> (k in a <==> k in b)
    requires forall k :: k < n && k in a ==> a[k] == b[k]
    ensures Net(a, u, n) == Net(b, u, n)
  {
    if n > 0 {
      NetFrame(a, b, u, n - 1);
    }
  }

  /** Recording a new row under a fresh key n changes only its owner's total, by its effect. */
  lemma NetInsert(txns: map<TxnId, Txn>, u: UserId, n: nat, t: Txn)
    requires forall k :: k in txns ==> k < n
    ensures Net(txns[n := t], u, n + 1) == Net(txns, u, n) + (if t.owner == u then Effect(t) else 0)
  {
    NetFrame(txns[n := t], txns, u, n);
  }

  /** Removing the row under key k (below n) takes back exactly its effect from its owner's total. */
  lemma {:induction false} NetRemove(txns: map<TxnId, Txn>, u: UserId, n: nat, k: TxnId)
    requires k < n && k in txns
    ensures Net(txns - {k}, u, n) == Net(txns, u, n) - (if txns[k].owner == u then Effect(txns[k]) else 0)
  {
    if k < n - 1 {
      NetRemove(txns, u, n - 1, k);
    } else {
      NetFrame(txns - {k}, txns, u, n - 1);
    }
  }

  /** A user that owns no row has a zero total. */
  lemma {:induction false} NetOfNoRows(txns: map<TxnId, Txn>, u: UserId, n: nat)
    requires forall k :: k in txns ==> txns[k].owner != u
    ensures Net(txns, u, n) == 0
  {
    if n > 0 {
      NetOfNoRows(txns, u, n - 1);
    }
  }

  /** A row is listed by Rows exactly when it is stored under its own key below n. */
  lemma {:induction false} RowsMembership(txns: map<TxnId, Txn>, n: nat, t: Txn)
    requires forall k :: k in txns ==> txns[k].id == k
    ensures t in Rows(txns, n) <==> t.id < n && t.id in txns && txns[t.id] == t
  {
    if n > 0 {
      RowsMembership(txns, n - 1, t);
    }
  }

  /** The balance equals the signed sum of the user's rows as the table lists them. */
  lemma {:induction false} NetIsSignedSumOfOwnedRows(txns: map<TxnId, Txn>, u: UserId, n: nat)
    ensures Net(txns, u, n) == SignedSum(OwnedBy(Rows(txns, n), u))
  {
    if n > 0 {
      NetIsSignedSumOfOwnedRows(txns, u, n - 1);
      var prev := Rows(txns, n - 1);
      if n - 1 in txns {
        var t := txns[n - 1];
        var rows := prev + [t];
        assert Rows(txns, n) == rows;
        assert rows[..|rows| - 1] == prev;
        if t.owner == u {
          var owned := OwnedBy(prev, u) + [t];
          assert OwnedBy(rows, u) == owned;
          assert owned[..|owned| - 1] == OwnedBy(prev, u);
        } else {
          assert OwnedBy(rows, u) == OwnedBy(prev, u);
        }
      } else {
        assert Rows(txns, n) == prev;
      }
    }
  }

  /** A row is kept by OwnedBy exactly when it is in the input and belongs to u. */
  lemma {:induction false} OwnedByMembership(ts: seq<Txn>, u: UserId)
    ensures forall t :: t in OwnedBy(ts, u) <==> t in ts && t.owner == u
  {
    if ts != [] {
      OwnedByMembership(ts[..|ts| - 1], u);
      assert ts == ts[..|ts| - 1] + [ts[|ts| - 1]];
    }
  }

  /** No two rows of the list share an id: each stored row is listed once. */
  predicate DistinctIds(ts: seq<Txn>)
  {
    forall i, j :: 0 <= i < j < |ts| ==> ts[i].id != ts[j].id
  }

  lemma DistinctIdsPrepend(h: Txn, s: seq<Txn>)
    requires DistinctIds(s)
    requires forall y :: y in s ==> y.id != h.id
    ensures DistinctIds([h] + s)
  {
  }

  /** A table whose rows sit under their own keys lists each row once, ids below n. */
  lemma {:induction false} RowsDistinct(txns: map<TxnId, Txn>, n: nat)
    requires forall k :: k in txns ==> txns[k].id == k
    ensures forall i :: 0 <= i < |Rows(txns, n)| ==> Rows(txns, n)[i].id < n
    ensures DistinctIds(Rows(txns, n))
  {
    if n > 0 {
      RowsDistinct(txns, n - 1);
      var prev := Rows(txns, n - 1);
      if n - 1 in txns {
        assert Rows(txns, n) == prev + [txns[n - 1]];
      } else {
        assert Rows(txns, n) == prev;
      }
    }
  }

  /** Keeping one user's rows of a list with distinct ids keeps them distinct. */
  lemma {:induction false} OwnedByDistinct(ts: seq<Txn>, u: UserId)
    requires DistinctIds(ts)
    ensures DistinctIds(OwnedBy(ts, u))
  {
    if ts != [] {
      var front, last := ts[..|ts| - 1], ts[|ts| - 1];
      assert DistinctIds(front);
      OwnedByDistinct(front, u);
      OwnedByMembership(front, u);
      var kept := OwnedBy(front, u);
      if last.owner == u {
        forall i | 0 <= i < |kept| ensures kept[i].id != last.id {
          assert kept[i] in front;
          var j :| 0 <= j < |front| && front[j] == kept[i];
          assert ts[j] == kept[i];
        }
        assert OwnedBy(ts, u) == kept + [last];
      } else {
        assert OwnedBy(ts, u) == kept;
      }
    }
  }

  /** Every row sits under its own key, below n, and belongs to a known user. */
  predicate TableWellFormed(txns: map<TxnId, Txn>, users: set<UserId>, n: nat)
  {
    forall k :: k in txns ==> k < n && txns[k].id == k && txns[k].owner in users
  }

  /** Every wallet balance is the signed total of its owner's rows. */
  predicate BalancesAgree(balances: map<UserId, int>, txns: map<TxnId, Txn>, n: nat)
  {
    forall u {:trigger Net(txns, u, n)} :: u in balances ==> balances[u] == Net(txns, u, n)
  }

  /** A new user with a zero wallet keeps the balances in agreement. */
  lemma NewWalletKeepsAgreement(balances: map<UserId, int>, txns: map<TxnId, Txn>, n: nat, u: UserId)
    requires TableWellFormed(txns, balances.Keys, n) && BalancesAgree(balances, txns, n)
    requires u !in balances
    ensures TableWellFormed(txns, balances.Keys + {u}, n)
    ensures BalancesAgree(balances[u := 0], txns, n)
  {
    NetOfNoRows(txns, u, n);
  }

  /** Storing a row under the fresh key n and moving its owner's balance by its effect keeps the agreement. */
  lemma InsertKeepsAgreement(balances: map<UserId, int>, txns: map<TxnId, Txn>, n: nat, t: Txn)
    requires TableWellFormed(txns, balances.Keys, n) && BalancesAgree(balances, txns, n)
    requires t.id == n && t.owner in balances
    ensures TableWellFormed(txns[n := t], balances.Keys, n + 1)
    ensures BalancesAgree(balances[t.owner := balances[t.owner] + Effect(t)], txns[n := t], n + 1)
  {
    forall u | u in balances
      ensures Net(txns[n := t], u, n + 1) == Net(txns, u, n) + (if t.owner == u then Effect(t) else 0)
    {
      NetInsert(txns, u, n, t);
    }
  }

  /** Removing row k and taking its effect back from its owner's balance keeps the agreement. */
  lemma RemoveKeepsAgreement(balances: map<UserId, int>, txns: map<TxnId, Txn>, n: nat, k: TxnId)
    requires TableWellFormed(txns, balances.Keys, n) && BalancesAgree(balances, txns, n)
    requires k in txns
    ensures TableWellFormed(txns - {k}, balances.Keys, n)
    ensures BalancesAgree(balances[txns[k].owner := balances[txns[k].owner] - Effect(txns[k])], txns - {k}, n)
  {
    forall u | u in balances
      ensures Net(txns - {k}, u, n) == Net(txns, u, n) - (if txns[k].owner == u then Effect(txns[k]) else 0)
    {
      NetRemove(txns, u, n, k);
    }
  }
}
