/** The "Wallets" page: lists the user's wallets and creates a wallet with a
    user-supplied starting balance. */
module WalletsPage {
  import opened Documents
  import opened Ledger
  import WalletsLib

  /** `Number(balance)` of the balance input; the empty field (None) is `Number("")`, which is 0. */
  function NumberOf(field: Option<int>): int
  {
    match field
    case Some(v) => v
    case None => 0
  }

  /** The page's state: the loaded list and the two form fields. */
  class Wallets {
    const db: Store
    const uid: string
    var wallets: map<string, Wallet>
    var walletName: string
    var balance: Option<int>

    constructor (db: Store, uid: string)
      ensures this.db == db && this.uid == uid
      ensures wallets == map[] && walletName == "" && balance == None
    {
      this.db := db;
      this.uid := uid;
      wallets := map[];
      walletName := "";
      balance := None;
    }

    /** `loadWallets`: the list is exactly the current user's wallets. */
    method LoadWallets()
      modifies this`wallets
      ensures wallets == WalletsLib.GetWallets(db.wallets, uid)
      ensures forall id :: id in wallets <==> id in db.wallets && db.wallets[id].userId == uid
    {
      wallets := WalletsLib.GetWallets(db.wallets, uid);
    }

    /** `addWallet` under the id `newId` the database issues; returns whether it wrote. */
    method AddWallet(newId: string) returns (written: bool)
      requires db.Valid() && db.IsFreshWalletId(newId)
      modifies this`walletName, this`balance, db
      ensures db.Valid() && db.transactions == old(db.transactions)
      ensures written == (old(walletName) != "")
      ensures !written ==> db.wallets == old(db.wallets) && db.opening == old(db.opening)
                           && walletName == old(walletName) && balance == old(balance)
      ensures written ==> db.wallets == old(db.wallets)[newId := Wallet(old(walletName), Some(NumberOf(old(balance))), uid)]
      ensures written ==> db.opening == old(db.opening)[newId := NumberOf(old(balance))]
      ensures written ==> walletName == "" && balance == None
      ensures forall c :: old(db.Consistent(c)) ==> db.Consistent(c)
    {
      if walletName == "" {
        return false;
      }
      ghost var txs := db.transactions;
      var w := Wallet(walletName, Some(NumberOf(balance)), uid);
      db.AddWalletDoc(newId, w);
      walletName := "";
      balance := None;
      written := true;
      forall c | old(db.Consistent(c)) ensures db.Consistent(c) {
        CreatePreservesBalanced(c, old(db.wallets), old(db.opening), txs, newId, w);
      }
    }
  }
}
