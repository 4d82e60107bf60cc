/** The two Firestore collections as in-memory state, the document operations the
    application uses on them, and the balance-consistency invariant. */
module Ledger {
  import opened Documents

  /** Every wallet's stored balance is its opening balance plus the signed sum
      (under convention `c`) of the transactions that reference it. */
  predicate Balanced(c: Convention, wallets: map<string, Wallet>, opening: map<string, int>, txs: seq<Transaction>)
  {
    && wallets.Keys == opening.Keys
    && forall id | id in wallets :: BalanceOf(wallets[id]) == opening[id] + SignedSum(c, txs, id)
  }

  /** Wallet `id` with `delta` added to its balance (an absent balance counts as 0);
      this is both `increment(delta)` and the add page's read-modify-write. */
  function Credit(wallets: map<string, Wallet>, id: string, delta: int): (r: map<string, Wallet>)
    requires id in wallets
    ensures r.Keys == wallets.Keys
    ensures BalanceOf(r[id]) == BalanceOf(wallets[id]) + delta
    ensures r[id].name == wallets[id].name && r[id].userId == wallets[id].userId
    ensures forall k | k in wallets && k != id :: r[k] == wallets[k]
  {
    wallets[id := wallets[id].(balance := Some(BalanceOf(wallets[id]) + delta))]
  }

  /** Two balance increments commute, as Firestore's `increment` is additive. */
  lemma CreditCommutes(wallets: map<string, Wallet>, a: string, d1: int, b: string, d2: int)
    requires a in wallets && b in wallets
    ensures Credit(Credit(wallets, a, d1), b, d2) == Credit(Credit(wallets, b, d2), a, d1)
    ensures a == b ==> BalanceOf(Credit(Credit(wallets, a, d1), b, d2)[a]) == BalanceOf(wallets[a]) + d1 + d2
  {
  }

  /** Appending a transaction and crediting its wallet with its signed amount keeps
      the ledger balanced. */
  lemma CreditPreservesBalanced(c: Convention, wallets: map<string, Wallet>, opening: map<string, int>,
                                txs: seq<Transaction>, t: Transaction)
    requires Balanced(c, wallets, opening, txs)
    requires t.walletId in wallets
    ensures Balanced(c, Credit(wallets, t.walletId, Signed(c, t)), opening, txs + [t])
  {
    var after := Credit(wallets, t.walletId, Signed(c, t));
    forall id | id in after
      ensures BalanceOf(after[id]) == opening[id] + SignedSum(c, txs + [t], id)
    {
      SignedSumAppend(c, txs, t, id);
    }
  }

  /** A transaction that references no existing wallet leaves every existing wallet balanced. */
  lemma OrphanPreservesBalanced(c: Convention, wallets: map<string, Wallet>, opening: map<string, int>,
                                txs: seq<Transaction>, t: Transaction)
    requires Balanced(c, wallets, opening, txs)
    requires t.walletId !in wallets
    ensures Balanced(c, wallets, opening, txs + [t])
  {
    forall id | id in wallets
      ensures BalanceOf(wallets[id]) == opening[id] + SignedSum(c, txs + [t], id)
    {
      SignedSumAppend(c, txs, t, id);
    }
  }

  /** A new wallet under an id no transaction references is balanced with its own
      balance as opening balance. */
  lemma CreatePreservesBalanced(c: Convention, wallets: map<string, Wallet>, opening: map<string, int>,
                                txs: seq<Transaction>, id: string, w: Wallet)
    requires Balanced(c, wallets, opening, txs)
    requires forall i | 0 <= i < |txs| :: txs[i].walletId != id
    ensures Balanced(c, wallets[id := w], opening[id := BalanceOf(w)], txs)
  {
    SignedSumUnreferenced(c, txs, id);
  }

  /** From any state balanced under the library's reading, the add page's write of
      a non-zero "income" transaction to an existing wallet leaves it unbalanced under
      that reading. */
  lemma AddPageIncomeBreaksLib(wallets: map<string, Wallet>, opening: map<string, int>,
                               txs: seq<Transaction>, t: Transaction)
    requires Balanced(Lib, wallets, opening, txs)
    requires t.walletId in wallets && t.kind == Income && t.amount != 0
    ensures !Balanced(Lib, Credit(wallets, t.walletId, Signed(AddPage, t)), opening, txs + [t])
  {
    SignedSumAppend(Lib, txs, t, t.walletId);
  }

  /** Under the add page's literals, one "income" transaction of 100 keeps a fresh
      wallet balanced for the add page and unbalanced for the library. */
  lemma WritersDisagree(u: string)
    ensures var w := map["w" := Wallet("cash", Some(100), u)];
            var t := Transaction("w", u, Income, 100, 0, Description(""));
            Balanced(AddPage, w, map["w" := 0], [t]) && !Balanced(Lib, w, map["w" := 0], [t])
  {
    var t := Transaction("w", u, Income, 100, 0, Description(""));
    assert SignedSum(AddPage, [t], "w") == 100;
    assert SignedSum(Lib, [t], "w") == -100;
  }

  /** The database: the "wallets" table, the "transactions" log (a transaction's id
      is its position), and, as specification only, each wallet's opening balance. */
  class Store {
    var wallets: map<string, Wallet>
    var transactions: seq<Transaction>
    ghost var opening: map<string, int>

    ghost predicate Valid()
      reads this
    {
      wallets.Keys == opening.Keys && "" !in wallets
    }

    ghost predicate Consistent(c: Convention)
      reads this
    {
      Balanced(c, wallets, opening, transactions)
    }

    /** An id as Firestore's `addDoc` issues it: non-empty and never used before. */
    predicate IsFreshWalletId(id: string)
      reads this
    {
      id != "" && id !in wallets && forall i | 0 <= i < |transactions| :: transactions[i].walletId != id
    }

    constructor ()
      ensures Valid() && wallets == map[] && transactions == []
      ensures forall c :: Consistent(c)
    {
      wallets, transactions, opening := map[], [], map[];
    }

    /** `addDoc(collection(db, "transactions"), t)` */
    method AddTransactionDoc(t: Transaction) returns (id: nat)
      modifies this
      ensures transactions == old(transactions) + [t] && id == |old(transactions)|
      ensures wallets == old(wallets) && opening == old(opening)
    {
      id := |transactions|;
      transactions := transactions + [t];
    }

    /** `addDoc(collection(db, "wallets"), w)` under the id the database issues. */
    method AddWalletDoc(id: string, w: Wallet)
      requires IsFreshWalletId(id)
      modifies this
      ensures wallets == old(wallets)[id := w] && opening == old(opening)[id := BalanceOf(w)]
      ensures transactions == old(transactions)
    {
      wallets := wallets[id := w];
      opening := opening[id := BalanceOf(w)];
    }

    /** `getDoc(doc(db, "wallets", id))`: the snapshot exists exactly when the wallet does. */
    method GetWalletDoc(id: string) returns (snap: Option<Wallet>)
      ensures snap.Some? <==> id in wallets
      ensures snap.Some? ==> snap.value == wallets[id]
    {
      snap := if id in wallets then Some(wallets[id]) else None;
    }

    /** `updateDoc(ref, {balance: b})`: overwrites the field; fails, changing nothing,
        when the document does not exist. */
    method UpdateBalance(id: string, b: int) returns (found: bool)
      modifies this
      ensures found == (id in old(wallets))
      ensures wallets == if found then old(wallets)[id := old(wallets)[id].(balance := Some(b))] else old(wallets)
      ensures transactions == old(transactions) && opening == old(opening)
    {
      found := id in wallets;
      if found {
        wallets := wallets[id := wallets[id].(balance := Some(b))];
      }
    }

    /** `updateDoc(ref, {balance: increment(d)})`: adds `d` to the stored value (an absent
        field counts as 0); fails, changing nothing, when the document does not exist. */
    method IncrementBalance(id: string, d: int) returns (found: bool)
      modifies this
      ensures found == (id in old(wallets))
      ensures wallets == if found then Credit(old(wallets), id, d) else old(wallets)
      ensures transactions == old(transactions) && opening == old(opening)
    {
      found := id in wallets;
      if found {
        wallets := Credit(wallets, id, d);
      }
    }
  }
}
