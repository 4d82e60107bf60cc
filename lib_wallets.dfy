/** The wallets library: creating a wallet at balance 0 and listing a user's wallets. */
module WalletsLib {
  import opened Documents
  import opened Ledger

  /** The document `addWallet` stores. */
  function NewWallet(userId: string, name: string): Wallet
  {
    Wallet(name, Some(0), userId)
  }

  /** `addWallet(userId, name)` under the id `id` the database issues for it. */
  method AddWallet(db: Store, id: string, userId: string, name: string)
    requires db.Valid() && db.IsFreshWalletId(id)
    modifies db
    ensures db.Valid()
    ensures db.wallets == old(db.wallets)[id := Wallet(name, Some(0), userId)]
    ensures db.opening == old(db.opening)[id := 0]
    ensures db.transactions == old(db.transactions)
    ensures forall c :: old(db.Consistent(c)) ==> db.Consistent(c)
  {
    ghost var txs := db.transactions;
    db.AddWalletDoc(id, NewWallet(userId, name));
    forall c | old(db.Consistent(c)) ensures db.Consistent(c) {
      CreatePreservesBalanced(c, old(db.wallets), old(db.opening), txs, id, NewWallet(userId, name));
    }
  }

  /** `getWallets(userId)`: the wallets whose userId is `userId`, keyed by id. */
  function GetWallets(wallets: map<string, Wallet>, userId: string): (r: map<string, Wallet>)
    ensures forall id :: id in r <==> id in wallets && wallets[id].userId == userId
    ensures forall id | id in r :: r[id] == wallets[id]
  {
    map id | id in wallets && wallets[id].userId == userId :: wallets[id]
  }

  /** After a wallet is created for `userId`, that user's list holds it, with its
      name and stored balance, besides the wallets listed before. */
  lemma CreatedWalletListed(wallets: map<string, Wallet>, id: string, w: Wallet)
    requires id !in wallets
    ensures GetWallets(wallets[id := w], w.userId) == GetWallets(wallets, w.userId)[id := w]
  {
  }

  /** Round trip: after `addWallet(u, n)`, `getWallets(u)` holds a wallet named `n` at balance 0. */
  lemma AddWalletRoundTrip(wallets: map<string, Wallet>, id: string, userId: string, name: string)
    requires id !in wallets
    ensures var listed := GetWallets(wallets[id := NewWallet(userId, name)], userId);
            id in listed && listed[id].name == name && BalanceOf(listed[id]) == 0
  {
  }

  /** Creating a wallet for one user leaves every other user's list as it was. */
  lemma CreatedWalletHiddenFromOthers(wallets: map<string, Wallet>, id: string, w: Wallet, other: string)
    requires id !in wallets && other != w.userId
    ensures GetWallets(wallets[id := w], other) == GetWallets(wallets, other)
  {
  }
}
