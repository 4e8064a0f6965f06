/**
 * The dashboard's transaction list: the logged-in user's rows, narrowed by
 * three optional filters combined with AND, then ordered by one column,
 * ascending unless the order argument is exactly "desc".
 */
module Query {
  import opened Wrappers
  import opened Transactions

  /** The columns a list can be ordered by (`getattr(Transaction, sort_by)`). */
  datatype SortKey = Id | UserIdColumn | Type | Amount | Category | Description | Timestamp

  /**
   * The query-string arguments. A missing `search`, `type`, `category` or
   * `order` argument behaves like the empty string; a missing `sort_by` is None.
   */
  datatype Params = Params(search: string, kind: string, category: string, sortBy: Option<SortKey>, order: string)

  const NoFilter := "all"
  const DescendingOrder := "desc"

  /** The column used for ordering: `timestamp` unless one is given. */
  function SortKeyOf(p: Params): SortKey
  {
    match p.sortBy
    case None => Timestamp
    case Some(k) => k
  }

  predicate IsPrefix(prefix: string, s: string)
  {
    |prefix| <= |s| && s[..|prefix|] == prefix
  }

  /** Substring test, scanning start positions left to right. */
  function Contains(s: string, sub: string): bool
  {
    IsPrefix(sub, s) || (s != [] && Contains(s[1..], sub))
  }

  /** `sub` occurs in `s` starting at position i. */
  predicate OccursAt(s: string, sub: string, i: int)
  {
    0 <= i && i + |sub| <= |s| && s[i..i + |sub|] == sub
  }

  /** Contains holds exactly when `sub` occurs at some position of `s`. */
  lemma {:induction false} ContainsIffOccurs(s: string, sub: string)
    ensures Contains(s, sub) <==> exists i :: OccursAt(s, sub, i)
  {
    if IsPrefix(sub, s) {
      assert OccursAt(s, sub, 0);
    } else if s != [] {
      ContainsIffOccurs(s[1..], sub);
      forall i | OccursAt(s[1..], sub, i) ensures OccursAt(s, sub, i + 1) {
        assert s[1..][i..i + |sub|] == s[i + 1..i + 1 + |sub|];
      }
      forall i | OccursAt(s, sub, i) ensures OccursAt(s[1..], sub, i - 1) {
        assert s[i..i + |sub|] == s[1..][i - 1..i - 1 + |sub|];
      }
    }
  }

  /** An equality filter that is off when its argument is empty or "all". */
  predicate FilterAccepts(arg: string, value: string)
  {
    arg == "" || arg == NoFilter || value == arg
  }

  /** The three filters of the dashboard, combined with AND. */
  predicate Matches(p: Params, t: Txn)
  {
    && (p.search == "" || Contains(t.description, p.search))
    && FilterAccepts(p.kind, t.kind)
    && FilterAccepts(p.category, t.category)
  }

  /** The user's rows that pass the filters, in their original order. */
  function Select(ts: seq<Txn>, u: UserId, p: Params): (r: seq<Txn>)
    ensures forall t :: t in r <==> t in ts && t.owner == u && Matches(p, t)
    ensures forall t :: multiset(r)[t] == if t.owner == u && Matches(p, t) then multiset(ts)[t] else 0
  {
    if ts == [] then []
    else
      var rest := Select(ts[1..], u, p);
      assert ts == [ts[0]] + ts[1..];
      if ts[0].owner == u && Matches(p, ts[0]) then [ts[0]] + rest else rest
  }

  /** Lexicographic order on strings by code point (SQL BINARY collation). */
  predicate StrLeq(a: string, b: string)
  {
    if a == [] then true
    else if b == [] then false
    else if a[0] != b[0] then a[0] < b[0]
    else StrLeq(a[1..], b[1..])
  }

  lemma {:induction false} StrLeqTotal(a: string, b: string)
    ensures StrLeq(a, b) || StrLeq(b, a)
  {
    if a != [] && b != [] && a[0] == b[0] {
      StrLeqTotal(a[1..], b[1..]);
    }
  }

  lemma {:induction false} StrLeqTransitive(a: string, b: string, c: string)
    requires StrLeq(a, b) && StrLeq(b, c)
    ensures StrLeq(a, c)
  {
    if a != [] && b != [] && c != [] && a[0] == b[0] && b[0] == c[0] {
      StrLeqTransitive(a[1..], b[1..], c[1..]);
    }
  }

  /** `a` sorts no later than `b` on column `k`, ascending. */
  predicate KeyLeq(k: SortKey, a: Txn, b: Txn)
  {
    match k
    case Id => a.id <= b.id
    case UserIdColumn => a.owner <= b.owner
    case Type => StrLeq(a.kind, b.kind)
    case Amount => a.amount <= b.amount
    case Category => StrLeq(a.category, b.category)
    case Description => StrLeq(a.description, b.description)
    case Timestamp => a.timestamp <= b.timestamp
  }

  /** `a` may be listed before `b`: ascending order, or descending when `desc`. */
  predicate Before(k: SortKey, desc: bool, a: Txn, b: Txn)
  {
    if desc then KeyLeq(k, b, a) else KeyLeq(k, a, b)
  }

  lemma BeforeTotal(k: SortKey, desc: bool, a: Txn, b: Txn)
    ensures Before(k, desc, a, b) || Before(k, desc, b, a)
  {
    match k
    case Type => StrLeqTotal(a.kind, b.kind);
    case Category => StrLeqTotal(a.category, b.category);
    case Description => StrLeqTotal(a.description, b.description);
    case _ =>
  }

  lemma BeforeTransitive(k: SortKey, desc: bool, a: Txn, b: Txn, c: Txn)
    requires Before(k, desc, a, b) && Before(k, desc, b, c)
    ensures Before(k, desc, a, c)
  {
    match k
    case Type =>
      if desc { StrLeqTransitive(c.kind, b.kind, a.kind); } else { StrLeqTransitive(a.kind, b.kind, c.kind); }
    case Category =>
      if desc { StrLeqTransitive(c.category, b.category, a.category); } else { StrLeqTransitive(a.category, b.category, c.category); }
    case Description =>
      if desc { StrLeqTransitive(c.description, b.description, a.description); } else { StrLeqTransitive(a.description, b.description, c.description); }
    case _ =>
  }

  /** Every earlier row may be listed before every later one. */
  predicate Ordered(ts: seq<Txn>, k: SortKey, desc: bool)
  {
    forall i, j :: 0 <= i < j < |ts| ==> Before(k, desc, ts[i], ts[j])
  }

  /** Insert `x` before the first row it may precede. */
  function Insert(x: Txn, s: seq<Txn>, k: SortKey, desc: bool): (r: seq<Txn>)
    ensures multiset(r) == multiset(s) + multiset{x}
  {
    if s == [] then [x]
    else
      assert s == [s[0]] + s[1..];
      if Before(k, desc, x, s[0]) then [x] + s else [s[0]] + Insert(x, s[1..], k, desc)
  }

  /** Inserting into an ordered list keeps it ordered. */
  lemma {:induction false} InsertOrdered(x: Txn, s: seq<Txn>, k: SortKey, desc: bool)
    requires Ordered(s, k, desc)
    ensures Ordered(Insert(x, s, k, desc), k, desc)
  {
    if s == [] {
    } else if Before(k, desc, x, s[0]) {
      assert s == [s[0]] + s[1..];
      forall y | y in s ensures Before(k, desc, x, y) {
        if y != s[0] { BeforeTransitive(k, desc, x, s[0], y); }
      }
      OrderedPrepend(x, s, k, desc);
    } else {
      assert s == [s[0]] + s[1..];
      BeforeTotal(k, desc, x, s[0]);
      var rest := Insert(x, s[1..], k, desc);
      InsertOrdered(x, s[1..], k, desc);
      forall y | y in rest ensures Before(k, desc, s[0], y) {
        assert y in multiset(rest);
      }
      OrderedPrepend(s[0], rest, k, desc);
    }
  }

  lemma OrderedPrepend(h: Txn, s: seq<Txn>, k: SortKey, desc: bool)
    requires Ordered(s, k, desc)
    requires forall y :: y in s ==> Before(k, desc, h, y)
    ensures Ordered([h] + s, k, desc)
  {
  }

  /** Insertion sort on column `k`. */
  function Sort(ts: seq<Txn>, k: SortKey, desc: bool): (r: seq<Txn>)
    ensures Ordered(r, k, desc)
    ensures multiset(r) == multiset(ts)
  {
    if ts == [] then []
    else
      assert ts == [ts[0]] + ts[1..];
      var rest := Sort(ts[1..], k, desc);
      InsertOrdered(ts[0], rest, k, desc);
      Insert(ts[0], rest, k, desc)
  }

  /** Keeping some rows of a list whose ids are distinct keeps them distinct. */
  lemma {:induction false} SelectKeepsDistinctIds(ts: seq<Txn>, u: UserId, p: Params)
    requires DistinctIds(ts)
    ensures DistinctIds(Select(ts, u, p))
  {
    if ts != [] {
      SelectKeepsDistinctIds(ts[1..], u, p);
      var rest := Select(ts[1..], u, p);
      forall y | y in rest ensures y.id != ts[0].id {
        var j :| 0 <= j < |ts[1..]| && ts[1..][j] == y;
        assert ts[j + 1] == y;
      }
      DistinctIdsPrepend(ts[0], rest);
    }
  }

  /** Inserting a row whose id is new into a list of distinct ids keeps them distinct. */
  lemma {:induction false} InsertKeepsDistinctIds(x: Txn, s: seq<Txn>, k: SortKey, desc: bool)
    requires DistinctIds(s)
    requires forall y :: y in s ==> y.id != x.id
    ensures DistinctIds(Insert(x, s, k, desc))
  {
    if s != [] {
      if Before(k, desc, x, s[0]) {
        DistinctIdsPrepend(x, s);
      } else {
        assert DistinctIds(s[1..]);
        InsertKeepsDistinctIds(x, s[1..], k, desc);
        var rest := Insert(x, s[1..], k, desc);
        forall y | y in rest ensures y.id != s[0].id {
          assert y in multiset(rest);
          if y != x {
            var j :| 0 <= j < |s[1..]| && s[1..][j] == y;
            assert s[j + 1] == y;
          }
        }
        DistinctIdsPrepend(s[0], rest);
      }
    }
  }

  /** Sorting a list of distinct ids leaves them distinct. */
  lemma {:induction false} SortKeepsDistinctIds(ts: seq<Txn>, k: SortKey, desc: bool)
    requires DistinctIds(ts)
    ensures DistinctIds(Sort(ts, k, desc))
  {
    if ts != [] {
      assert DistinctIds(ts[1..]);
      SortKeepsDistinctIds(ts[1..], k, desc);
      var rest := Sort(ts[1..], k, desc);
      forall y | y in rest ensures y.id != ts[0].id {
        assert y in multiset(rest);
        var j :| 0 <= j < |ts[1..]| && ts[1..][j] == y;
        assert ts[j + 1] == y;
      }
      InsertKeepsDistinctIds(ts[0], rest, k, desc);
    }
  }

  /**
   * The dashboard list: exactly the user's rows that pass every filter, each
   * as often as in the table, ordered by the chosen column and direction.
   */
  function DashboardList(ts: seq<Txn>, u: UserId, p: Params): (r: seq<Txn>)
    ensures forall t :: t in r <==> t in ts && t.owner == u && Matches(p, t)
    ensures multiset(r) == multiset(Select(ts, u, p))
    ensures Ordered(r, SortKeyOf(p), p.order == DescendingOrder)
  {
    var r := Sort(Select(ts, u, p), SortKeyOf(p), p.order == DescendingOrder);
    assert forall t :: t in r <==> t in multiset(r);
    r
  }

  /** Two rows sorted by amount, descending: the larger comes first. */
  lemma SortTwoByAmountDescending(b: Txn, c: Txn)
    requires b.amount < c.amount
    ensures Sort([b, c], Amount, true) == [c, b]
  {
    assert [b, c][1..] == [c] && [c][1..] == [];
    assert Sort([c], Amount, true) == [c];
  }

  /** Three rows sorted by amount, descending: 300, 100, 50 rupees. */
  lemma SortByAmountDescending(a: Txn, b: Txn, c: Txn)
    requires a.amount == 10000 && b.amount == 5000 && c.amount == 30000
    ensures Sort([a, b, c], Amount, true) == [c, a, b]
  {
    assert [a, b, c][1..] == [b, c];
    SortTwoByAmountDescending(b, c);
    assert Insert(a, [b], Amount, true) == [a, b];
    assert Insert(a, [c, b], Amount, true) == [c] + Insert(a, [b], Amount, true);
  }
}
