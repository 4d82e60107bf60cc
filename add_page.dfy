/** The "Tambah Transaksi" page: its submit handler stores a transaction and then,
    if the selected wallet exists, rewrites that wallet's balance. */
module AddPage {
  import opened Documents
  import opened Ledger

  /** The form state {date, description, amount, type}; `type` starts as "income". */
  datatype Form = Form(date: int, description: string, amount: int, kind: string)

  /** The transaction document the handler stores for `form`. */
  function Record(form: Form, selectedWallet: string, uid: string): Transaction
  {
    Transaction(selectedWallet, uid, form.kind, form.amount, form.date, Description(form.description))
  }

  /** `handleSubmit`. Returns whether it stopped at the "choose a wallet" alert. */
  method HandleSubmit(db: Store, selectedWallet: string, form: Form, uid: string) returns (alerted: bool)
    requires db.Valid()
    modifies db
    ensures db.Valid() && db.opening == old(db.opening)
    ensures alerted <==> selectedWallet == ""
    ensures alerted ==> db.wallets == old(db.wallets) && db.transactions == old(db.transactions)
    ensures !alerted ==> db.transactions == old(db.transactions) + [Record(form, selectedWallet, uid)]
    ensures !alerted && selectedWallet in old(db.wallets) ==>
              db.wallets == Credit(old(db.wallets), selectedWallet, if form.kind == Income then form.amount else -form.amount)
    ensures selectedWallet !in old(db.wallets) ==> db.wallets == old(db.wallets)
    ensures old(db.Consistent(AddPage)) ==> db.Consistent(AddPage)
  {
    if selectedWallet == "" {
      return true;
    }
    alerted := false;
    ghost var before := db.transactions;
    var t := Record(form, selectedWallet, uid);
    var _ := db.AddTransactionDoc(t);

    var snap := db.GetWalletDoc(selectedWallet);
    if snap.Some? {
      var newBalance := BalanceOf(snap.value);
      if form.kind == Income {
        newBalance := newBalance + form.amount;
      } else {
        newBalance := newBalance - form.amount;
      }
      var _ := db.UpdateBalance(selectedWallet, newBalance);
      if old(db.Consistent(AddPage)) {
        CreditPreservesBalanced(AddPage, old(db.wallets), db.opening, before, t);
      }
    } else {
      if old(db.Consistent(AddPage)) {
        OrphanPreservesBalanced(AddPage, old(db.wallets), db.opening, before, t);
      }
    }
  }
}
