/**
 * The data behind the two expense charts: expense rows grouped by
 * category with their amounts summed. No chart is drawn when there is no
 * expense row; drawing and image encoding are not modelled.
 */
module Charts {
  import opened Wrappers
  import opened Transactions

  /** Sum of the amounts of the expense rows of category c. */
  function CategoryTotal(ts: seq<Txn>, c: string): int
  {
    if ts == [] then 0
    else
      var t := ts[|ts| - 1];
      CategoryTotal(ts[..|ts| - 1], c) + (if t.kind == Expense && t.category == c then t.amount else 0)
  }

  /** The categories that have at least one expense row. */
  function ExpenseCategories(ts: seq<Txn>): set<string>
  {
    if ts == [] then {}
    else
      var t := ts[|ts| - 1];
      ExpenseCategories(ts[..|ts| - 1]) + (if t.kind == Expense then {t.category} else {})
  }

  lemma {:induction false} ExpenseCategoriesMembership(ts: seq<Txn>)
    ensures forall c :: c in ExpenseCategories(ts) <==> exists t :: t in ts && t.kind == Expense && t.category == c
  {
    if ts != [] {
      ExpenseCategoriesMembership(ts[..|ts| - 1]);
      assert ts == ts[..|ts| - 1] + [ts[|ts| - 1]];
    }
  }

  /** No expense category exactly when there is no expense row. */
  lemma {:induction false} NoCategoriesIffNoExpense(ts: seq<Txn>)
    ensures ExpenseCategories(ts) == {} <==> forall t :: t in ts ==> t.kind != Expense
  {
    ExpenseCategoriesMembership(ts);
    forall t | t in ts && t.kind == Expense ensures t.category in ExpenseCategories(ts) {
    }
    if ExpenseCategories(ts) != {} {
      var c :| c in ExpenseCategories(ts);
    }
  }

  /** A category without expense rows totals zero. */
  lemma {:induction false} NoExpenseNoTotal(ts: seq<Txn>, c: string)
    requires c !in ExpenseCategories(ts)
    ensures CategoryTotal(ts, c) == 0
  {
    if ts != [] {
      NoExpenseNoTotal(ts[..|ts| - 1], c);
    }
  }

  /**
   * `data = defaultdict(float)`; for each expense row `data[category] += amount`;
   * None when `data` stayed empty.
   */
  method ExpenseByCategory(ts: seq<Txn>) returns (r: Option<map<string, int>>)
    ensures r.None? <==> forall t :: t in ts ==> t.kind != Expense
    ensures r.Some? ==> forall c :: c in r.value <==> exists t :: t in ts && t.kind == Expense && t.category == c
    ensures r.Some? ==> forall c :: c in r.value ==> r.value[c] == CategoryTotal(ts, c)
  {
    var data: map<string, int> := map[];
    for i := 0 to |ts|
      invariant data.Keys == ExpenseCategories(ts[..i])
      invariant forall c :: c in data ==> data[c] == CategoryTotal(ts[..i], c)
    {
      var t := ts[i];
      assert ts[..i + 1] == ts[..i] + [t];
      assert ts[..i + 1][..i] == ts[..i];
      if t.kind == Expense {
        if t.category !in data {
          NoExpenseNoTotal(ts[..i], t.category);
        }
        var sofar := if t.category in data then data[t.category] else 0;
        data := data[t.category := sofar + t.amount];
      }
    }
    assert ts[..|ts|] == ts;
    ExpenseCategoriesMembership(ts);
    NoCategoriesIffNoExpense(ts);
    assert data == map[] <==> data.Keys == {};
    if data == map[] {
      return None;
    }
    assert exists c :: c in data.Keys;
    return Some(data);
  }

  /** Totals add up over concatenation. */
  lemma {:induction false} CategoryTotalAppend(a: seq<Txn>, b: seq<Txn>, c: string)
    ensures CategoryTotal(a + b, c) == CategoryTotal(a, c) + CategoryTotal(b, c)
  {
    if b != [] {
      CategoryTotalAppend(a, b[..|b| - 1], c);
      assert (a + b)[..|a + b| - 1] == a + b[..|b| - 1];
    } else {
      assert a + b == a;
    }
  }

  /**
   * The totals do not depend on the order of the rows, so the category totals
   * behind the dashboard's charts are the same whichever column and direction
   * the list is sorted by; the order of wedges and bars is not.
   */
  lemma {:induction false} CategoryTotalPermutation(a: seq<Txn>, b: seq<Txn>, c: string)
    requires multiset(a) == multiset(b)
    ensures CategoryTotal(a, c) == CategoryTotal(b, c)
    decreases |a|
  {
    if a != [] {
      var x := a[|a| - 1];
      var a' := a[..|a| - 1];
      assert a == a' + [x];
      assert x in multiset(b);
      var j :| 0 <= j < |b| && b[j] == x;
      var b' := b[..j] + b[j + 1..];
      assert b == b[..j] + [x] + b[j + 1..];
      assert multiset(a) == multiset(a') + multiset{x};
      assert multiset(b) == multiset(b[..j]) + multiset{x} + multiset(b[j + 1..]);
      assert multiset(b') == multiset(b[..j]) + multiset(b[j + 1..]);
      assert multiset(b) == multiset(b') + multiset{x};
      assert multiset(a') == multiset(a) - multiset{x};
      assert multiset(b') == multiset(b) - multiset{x};
      CategoryTotalPermutation(a', b', c);
      CategoryTotalAppend(b[..j] + [x], b[j + 1..], c);
      CategoryTotalAppend(b[..j], [x], c);
      CategoryTotalAppend(b[..j], b[j + 1..], c);
      CategoryTotalAppend(a', [x], c);
    } else {
      assert b == [];
    }
  }
}
