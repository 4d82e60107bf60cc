/** The transactions library: adding a transaction with an atomic balance increment,
    and querying a wallet's transactions newest first. */
module TransactionsLib {
  import opened Documents
  import opened Ledger

  /** `addTransaction(userId, walletId, type, amount, note)`, with the date that
      `new Date()` would give passed in. The transaction is stored first; `ok` is false
      when the balance update then fails because the wallet does not exist. */
  method AddTransaction(db: Store, userId: string, walletId: string, kind: string, amount: int,
                        note: string, date: int) returns (ok: bool)
    requires db.Valid()
    modifies db
    ensures db.Valid() && db.opening == old(db.opening)
    ensures db.transactions == old(db.transactions) + [Transaction(walletId, userId, kind, amount, date, Note(note))]
    ensures ok == (walletId in old(db.wallets))
    ensures db.wallets == if ok then Credit(old(db.wallets), walletId, if kind == Pemasukan then amount else -amount)
                          else old(db.wallets)
    ensures old(db.Consistent(Lib)) ==> db.Consistent(Lib)
  {
    var t := Transaction(walletId, userId, kind, amount, date, Note(note));
    ghost var before := db.transactions;
    var _ := db.AddTransactionDoc(t);
    ok := db.IncrementBalance(walletId, if kind == Pemasukan then amount else -amount);
    if old(db.Consistent(Lib)) {
      if ok {
        CreditPreservesBalanced(Lib, old(db.wallets), db.opening, before, t);
      } else {
        OrphanPreservesBalanced(Lib, old(db.wallets), db.opening, before, t);
      }
    }
  }

  /** A query result row: `{id: doc.id, ...doc.data()}`. */
  datatype TxDoc = TxDoc(id: nat, tx: Transaction)

  predicate Matches(t: Transaction, userId: string, walletId: string)
  {
    t.userId == userId && t.walletId == walletId
  }

  /** The rows of `txs` from position `from` on that match both filters, in log order. */
  function Matching(txs: seq<Transaction>, userId: string, walletId: string, from: nat): (r: seq<TxDoc>)
    requires from <= |txs|
    ensures forall k | 0 <= k < |r| :: from <= r[k].id < |txs| && r[k].tx == txs[r[k].id] && Matches(r[k].tx, userId, walletId)
    ensures forall i | from <= i < |txs| && Matches(txs[i], userId, walletId) :: TxDoc(i, txs[i]) in r
    ensures forall j, k | 0 <= j < k < |r| :: r[j].id < r[k].id
    decreases |txs| - from
  {
    if from == |txs| then []
    else
      var rest := Matching(txs, userId, walletId, from + 1);
      if Matches(txs[from], userId, walletId) then [TxDoc(from, txs[from])] + rest else rest
  }

  predicate NewestFirst(s: seq<TxDoc>)
  {
    forall j, k | 0 <= j < k < |s| :: s[j].tx.date >= s[k].tx.date
  }

  predicate DistinctIds(s: seq<TxDoc>)
  {
    forall j, k | 0 <= j < k < |s| :: s[j].id != s[k].id
  }

  /** Inserts `d` before the first row that is not newer than it. */
  function InsertByDate(d: TxDoc, s: seq<TxDoc>): (r: seq<TxDoc>)
    ensures multiset(r) == multiset(s) + multiset{d}
  {
    if s == [] || d.tx.date >= s[0].tx.date then [d] + s
    else
      assert s == [s[0]] + s[1..];
      [s[0]] + InsertByDate(d, s[1..])
  }

  lemma {:induction false} InsertKeepsNewestFirst(d: TxDoc, s: seq<TxDoc>)
    requires NewestFirst(s)
    ensures NewestFirst(InsertByDate(d, s))
  {
    if s == [] || d.tx.date >= s[0].tx.date {
      var r := [d] + s;
      forall j, k | 0 <= j < k < |r| ensures r[j].tx.date >= r[k].tx.date {
        if j > 0 {
          assert r[j] == s[j - 1] && r[k] == s[k - 1];
        } else {
          assert r[k] == s[k - 1];
          assert s[0].tx.date >= s[k - 1].tx.date;
        }
      }
    } else {
      var rest := InsertByDate(d, s[1..]);
      assert NewestFirst(s[1..]);
      InsertKeepsNewestFirst(d, s[1..]);
      var r := [s[0]] + rest;
      forall k | 0 <= k < |rest| ensures s[0].tx.date >= rest[k].tx.date {
        assert rest[k] in multiset(s[1..]) + multiset{d};
        if rest[k] != d {
          assert rest[k] in s[1..];
          var i :| 0 <= i < |s[1..]| && s[1..][i] == rest[k];
          assert s[i + 1] == rest[k];
        }
      }
      forall j, k | 0 <= j < k < |r| ensures r[j].tx.date >= r[k].tx.date {
        if j > 0 {
          assert r[j] == rest[j - 1] && r[k] == rest[k - 1];
        } else {
          assert r[k] == rest[k - 1];
        }
      }
    }
  }

  /** `orderBy("date", "desc")`; rows with equal dates keep their log order. */
  function SortByDate(s: seq<TxDoc>): (r: seq<TxDoc>)
    ensures multiset(r) == multiset(s)
    ensures NewestFirst(r)
  {
    if s == [] then []
    else
      assert s == [s[0]] + s[1..];
      InsertKeepsNewestFirst(s[0], SortByDate(s[1..]));
      InsertByDate(s[0], SortByDate(s[1..]))
  }

  /** A reordering keeps ids distinct when every id carries one document. */
  lemma {:induction false} PermutationKeepsDistinct(s: seq<TxDoc>, r: seq<TxDoc>, txs: seq<Transaction>)
    requires multiset(r) == multiset(s)
    requires DistinctIds(s)
    requires forall k | 0 <= k < |s| :: s[k].id < |txs| && s[k].tx == txs[s[k].id]
    ensures DistinctIds(r)
  {
    forall j, k | 0 <= j < k < |r| ensures r[j].id != r[k].id {
      if r[j].id == r[k].id {
        assert r[j] in multiset(s) && r[k] in multiset(s);
        assert r[j] in s && r[k] in s;
        assert r[j] == r[k];
        assert multiset(r)[r[j]] >= 2 by {
          MultiplicityOfTwo(r, j, k);
        }
        OneCopyEach(s, r[j]);
        assert false;
      }
    }
  }

  lemma {:induction false} MultiplicityOfTwo(r: seq<TxDoc>, j: nat, k: nat)
    requires j < k < |r| && r[j] == r[k]
    ensures multiset(r)[r[j]] >= 2
  {
    assert r == r[..j] + [r[j]] + r[j+1..k] + [r[k]] + r[k+1..];
  }

  /** With distinct ids, a row occurs at most once. */
  lemma {:induction false} OneCopyEach(s: seq<TxDoc>, x: TxDoc)
    requires DistinctIds(s)
    ensures multiset(s)[x] <= 1
  {
    if s != [] {
      assert s == [s[0]] + s[1..];
      assert DistinctIds(s[1..]);
      OneCopyEach(s[1..], x);
      if s[0] == x {
        assert x !in s[1..];
      }
    }
  }

  /** `getTransactions(userId, walletId)`: exactly the stored transactions of that user
      and wallet, each once and with its id, newest first. */
  function GetTransactions(txs: seq<Transaction>, userId: string, walletId: string): (r: seq<TxDoc>)
    ensures forall k | 0 <= k < |r| :: r[k].id < |txs| && r[k].tx == txs[r[k].id] && Matches(r[k].tx, userId, walletId)
    ensures forall i | 0 <= i < |txs| && Matches(txs[i], userId, walletId) :: TxDoc(i, txs[i]) in r
    ensures DistinctIds(r)
    ensures NewestFirst(r)
  {
    var q := Matching(txs, userId, walletId, 0);
    var r := SortByDate(q);
    assert forall k | 0 <= k < |r| :: r[k] in q by {
      forall k | 0 <= k < |r| ensures r[k] in q {
        assert r[k] in multiset(q);
      }
    }
    assert forall i | 0 <= i < |txs| && Matches(txs[i], userId, walletId) :: TxDoc(i, txs[i]) in r by {
      forall i | 0 <= i < |txs| && Matches(txs[i], userId, walletId) ensures TxDoc(i, txs[i]) in r {
        assert TxDoc(i, txs[i]) in multiset(r);
      }
    }
    PermutationKeepsDistinct(q, r, txs);
    r
  }
}
