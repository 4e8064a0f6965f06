/**
 * The wallet ledger of the expense tracker: users keyed by e-mail, one
 * wallet balance per user, and the transaction table. The request
 * handlers `signup`, `add_transaction` and `delete_transaction` change
 * this state in place; the logged-in user is an explicit parameter.
 */
module LedgerState {
  import opened Wrappers
  import opened Transactions
  import opened Query

  datatype SignupError = EmailAlreadyExists
  datatype AddError = AmountNotANumber
  datatype DeleteError = NotFound | Unauthorized

  /**
   * Each e-mail names its own user, and the users with a stored password are
   * exactly the users with a wallet, all with keys below `nextUser`.
   */
  predicate UsersWellFormed(emails: map<string, UserId>, passwords: map<UserId, string>,
                            wallets: set<UserId>, nextUser: nat)
  {
    && emails.Values == wallets
    && passwords.Keys == wallets
    && (forall e, e' :: e in emails && e' in emails && e != e' ==> emails[e] != emails[e'])
    && (forall u :: u in wallets ==> u < nextUser)
  }

  /** Registering a new e-mail under the next key keeps one wallet per user. */
  lemma NewUserKeepsUsersWellFormed(emails: map<string, UserId>, passwords: map<UserId, string>,
                                    wallets: set<UserId>, nextUser: nat, email: string, hash: string)
    requires UsersWellFormed(emails, passwords, wallets, nextUser) && email !in emails
    ensures nextUser !in wallets
    ensures UsersWellFormed(emails[email := nextUser], passwords[nextUser := hash], wallets + {nextUser}, nextUser + 1)
  {
    FreshEntryValues(emails, email, nextUser);
  }

  class Ledger {
    var emails: map<string, UserId>       // users, by their unique e-mail
    var passwords: map<UserId, string>    // stored password hashes, opaque
    var balances: map<UserId, int>        // each user's wallet balance, in paise
    var txns: map<TxnId, Txn>             // the transaction table, by primary key
    var nextUser: UserId                  // next user primary key
    var nextTxn: TxnId                    // next transaction primary key

    /** Every user has exactly one wallet, and every wallet balance is the signed sum of its owner's live rows. */
    ghost predicate Valid()
      reads this
    {
      && UsersWellFormed(emails, passwords, balances.Keys, nextUser)
      && TableWellFormed(txns, balances.Keys, nextTxn)
      && BalancesAgree(balances, txns, nextTxn)
    }

    /** The empty database. */
    constructor ()
      ensures Valid()
      ensures emails == map[] && balances == map[] && txns == map[]
    {
      emails, passwords, balances, txns := map[], map[], map[], map[];
      nextUser, nextTxn := 0, 0;
    }

    /**
     * A user's live transactions (`Transaction.query.filter_by(user_id=...)`),
     * each listed once. The query has no ORDER BY; the model lists them by key.
     */
    function TransactionsOf(u: UserId): (r: seq<Txn>)
      reads this
      requires Valid()
      ensures forall t :: t in r <==> t.id in txns && txns[t.id] == t && t.owner == u
      ensures DistinctIds(r)
      ensures u in balances ==> balances[u] == SignedSum(r)
    {
      OwnedByMembership(Rows(txns, nextTxn), u);
      RowsDistinct(txns, nextTxn);
      OwnedByDistinct(Rows(txns, nextTxn), u);
      forall t ensures t in Rows(txns, nextTxn) <==> t.id < nextTxn && t.id in txns && txns[t.id] == t {
        RowsMembership(txns, nextTxn, t);
      }
      NetIsSignedSumOfOwnedRows(txns, u, nextTxn);
      OwnedBy(Rows(txns, nextTxn), u)
    }

    /**
     * The dashboard list for `user`: exactly the user's live rows that pass
     * the filters, each listed once, ordered by the chosen column and direction.
     */
    function Dashboard(user: UserId, p: Params): (r: seq<Txn>)
      reads this
      requires Valid()
      ensures forall t :: t in r <==> t.id in txns && txns[t.id] == t && t.owner == user && Matches(p, t)
      ensures DistinctIds(r)
      ensures Ordered(r, SortKeyOf(p), p.order == DescendingOrder)
    {
      RowsDistinct(txns, nextTxn);
      SelectKeepsDistinctIds(Rows(txns, nextTxn), user, p);
      SortKeepsDistinctIds(Select(Rows(txns, nextTxn), user, p), SortKeyOf(p), p.order == DescendingOrder);
      forall t ensures t in Rows(txns, nextTxn) <==> t.id < nextTxn && t.id in txns && txns[t.id] == t {
        RowsMembership(txns, nextTxn, t);
      }
      DashboardList(Rows(txns, nextTxn), user, p)
    }

    /**
     * Sign-up: a known e-mail is refused and nothing changes; otherwise one
     * user and one wallet with balance 0 are created.
     */
    method Signup(email: string, passwordHash: string) returns (r: Result<UserId, SignupError>)
      requires Valid()
      modifies this
      ensures Valid()
      ensures email in old(emails) ==> r == Failure(EmailAlreadyExists) && unchanged(this)
      ensures email !in old(emails) ==> r.Success? && r.value !in old(balances)
      ensures email !in old(emails) ==>
        && emails == old(emails)[email := r.value]
        && passwords == old(passwords)[r.value := passwordHash]
        && balances == old(balances)[r.value := 0]
        && txns == old(txns)
    {
      if email in emails {
        return Failure(EmailAlreadyExists);
      }
      var id := nextUser;
      NewWalletKeepsAgreement(balances, txns, nextTxn, id);
      NewUserKeepsUsersWellFormed(emails, passwords, balances.Keys, nextUser, email, passwordHash);
      emails := emails[email := id];
      passwords := passwords[id := passwordHash];
      balances := balances[id := 0];
      nextUser := nextUser + 1;
      r := Success(id);
    }

    /**
     * Add a transaction for the logged-in user. `amount` is the parsed form
     * field, None when it does not parse; then nothing changes. Otherwise the
     * row is stored under a fresh key and the balance moves by its effect:
     * up by the amount for "income", down by it for any other type.
     */
    method AddTransaction(user: UserId, kind: string, amount: Option<int>, category: string,
                          description: string, now: int)
      returns (r: Result<TxnId, AddError>)
      requires Valid() && user in balances
      modifies this
      ensures Valid()
      ensures amount.None? ==> r == Failure(AmountNotANumber) && unchanged(this)
      ensures amount.Some? ==> r.Success? && r.value !in old(txns)
      ensures amount.Some? ==>
        && txns == old(txns)[r.value := Txn(r.value, user, kind, amount.value, category, description, now)]
        && balances == old(balances)[user := old(balances)[user] + Effect(txns[r.value])]
        && emails == old(emails) && passwords == old(passwords)
    {
      if amount.None? {
        return Failure(AmountNotANumber);
      }
      var id := nextTxn;
      var t := Txn(id, user, kind, amount.value, category, description, now);
      InsertKeepsAgreement(balances, txns, id, t);
      balances := balances[user := balances[user] + Effect(t)];
      txns := txns[id := t];
      nextTxn := nextTxn + 1;
      r := Success(id);
    }

    /**
     * Delete a transaction on behalf of `user`. An unknown key is NotFound, a
     * row of another user is Unauthorized; both leave everything unchanged.
     * Otherwise the row's effect is reversed on the balance and the row removed.
     */
    method DeleteTransaction(user: UserId, id: TxnId) returns (r: Result<Txn, DeleteError>)
      requires Valid()
      modifies this
      ensures Valid()
      ensures id !in old(txns) ==> r == Failure(NotFound) && unchanged(this)
      ensures id in old(txns) && old(txns)[id].owner != user ==> r == Failure(Unauthorized) && unchanged(this)
      ensures id in old(txns) && old(txns)[id].owner == user ==>
        && r == Success(old(txns)[id])
        && txns == old(txns) - {id}
        && balances == old(balances)[user := old(balances)[user] - Effect(r.value)]
        && emails == old(emails) && passwords == old(passwords)
    {
      if id !in txns {
        return Failure(NotFound);
      }
      var t := txns[id];
      if t.owner != user {
        return Failure(Unauthorized);
      }
      RemoveKeepsAgreement(balances, txns, nextTxn, id);
      balances := balances[user := balances[user] - Effect(t)];
      txns := txns - {id};
      r := Success(t);
    }
  }

  /**
   * A client of the handlers: sign up, record an income of 1000 rupees and an
   * expense of 200, delete the expense. The balances follow from the
   * handlers' contracts alone.
   */
  method SignupAddDeleteScenario()
  {
    var ledger := new Ledger();
    var signed := ledger.Signup("a@x.com", "pbkdf2-hash");
    assert signed.Success?;
    var u := signed.value;
    assert u in ledger.balances && ledger.balances[u] == 0;
    var again := ledger.Signup("a@x.com", "another-hash");
    assert again == Failure(EmailAlreadyExists);
    var salary := ledger.AddTransaction(u, Income, Some(100000), "salary", "monthly pay", 1);
    assert ledger.balances[u] == 100000;
    var food := ledger.AddTransaction(u, Expense, Some(20000), "food", "groceries", 2);
    assert ledger.balances[u] == 80000;
    var bad := ledger.AddTransaction(u, Expense, None, "food", "typo", 3);
    assert ledger.balances[u] == 80000;
    assert food.value in ledger.txns && ledger.txns[food.value].owner == u && ledger.txns[food.value].kind == Expense;
    var deleted := ledger.DeleteTransaction(u, food.value);
    assert deleted.Success? && ledger.balances[u] == 100000;
  }

  /** Adding a fresh key with a fresh value adds exactly that value. */
  lemma FreshEntryValues<K, V>(m: map<K, V>, k: K, v: V)
    requires k !in m
    ensures m[k := v].Values == m.Values + {v}
  {
    var m' := m[k := v];
    forall x | x in m.Values ensures x in m'.Values {
      var j :| j in m && m[j] == x;
      assert m'[j] == x;
    }
    assert m'[k] == v;
  }

  /** Removing a key that was just added to a map gives back the map. */
  lemma RemoveUndoesInsert<K, V>(m: map<K, V>, m': map<K, V>, k: K, v: V)
    requires k !in m && m' == m[k := v]
    ensures m' - {k} == m
  {
  }

  /** Subtracting from an entry what was just added to it gives back the map. */
  lemma SubtractUndoesAdd<K>(m: map<K, int>, m': map<K, int>, k: K, d: int)
    requires k in m && m' == m[k := m[k] + d]
    ensures m'[k := m'[k] - d] == m
  {
  }

  /**
   * Recording a transaction and then deleting it, as the same user, gives
   * back the ledger it started from: the deletion reverses the addition.
   */
  method AddThenDelete(ledger: Ledger, user: UserId, kind: string, amount: int, category: string,
                       description: string, now: int)
    requires ledger.Valid() && user in ledger.balances
    modifies ledger
    ensures ledger.balances == old(ledger.balances) && ledger.txns == old(ledger.txns)
    ensures ledger.emails == old(ledger.emails) && ledger.passwords == old(ledger.passwords)
  {
    ghost var txns0, balances0 := ledger.txns, ledger.balances;
    var added := ledger.AddTransaction(user, kind, Some(amount), category, description, now);
    var id := added.value;
    ghost var t := Txn(id, user, kind, amount, category, description, now);
    ghost var txns1, balances1 := ledger.txns, ledger.balances;
    assert txns1 == txns0[id := t];
    assert balances1 == balances0[user := balances0[user] + Effect(t)];
    assert id in txns1 && txns1[id] == t;
    var deleted := ledger.DeleteTransaction(user, id);
    assert deleted == Success(t);
    RemoveUndoesInsert(txns0, txns1, id, t);
    SubtractUndoesAdd(balances0, balances1, user, Effect(t));
  }
}
