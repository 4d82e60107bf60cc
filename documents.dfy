/** The documents of the two collections, "wallets" and "transactions", and the
    three different ways the application turns a transaction's type into a sign. */
module Documents {

  datatype Option<T> = None | Some(value: T)

  /** A wallet document: {name, balance, userId}. The balance field may be absent. */
  datatype Wallet = Wallet(name: string, balance: Option<int>, userId: string)

  /** `balance || 0`: an absent balance reads as 0. */
  function BalanceOf(w: Wallet): int
  {
    if w.balance.Some? then w.balance.value else 0
  }

  /** The add page stores free text under "description", the library under "note". */
  datatype Memo = Description(text: string) | Note(text: string)

  /** A transaction document. Its date is modelled as an integer sort key. */
  datatype Transaction = Transaction(
    walletId: string,
    userId: string,
    kind: string,
    amount: int,
    date: int,
    memo: Memo)

  // The type literals as they appear in the different files.
  const Income: string := "income"          // the add page's form
  const Expense: string := "expense"        // the add page's form
  const Pemasukan: string := "pemasukan"    // the library and the dashboard
  const Keluar: string := "keluar"          // the dashboard

  /** Who reads the type: the add page, the transactions library, the dashboard row. */
  datatype Convention = AddPage | Lib | Display

  /** Whether convention `c` treats a transaction of type `kind` as a credit. */
  predicate Credits(c: Convention, kind: string)
  {
    match c
    case AddPage => kind == Income
    case Lib => kind == Pemasukan
    case Display => kind != Keluar
  }

  /** The amount a transaction contributes to its wallet under convention `c`. */
  function Signed(c: Convention, t: Transaction): int
  {
    if Credits(c, t.kind) then t.amount else -t.amount
  }

  /** Sum of the signed amounts of the transactions of `txs` that reference wallet `id`. */
  function SignedSum(c: Convention, txs: seq<Transaction>, id: string): int
  {
    if txs == [] then 0
    else (if txs[0].walletId == id then Signed(c, txs[0]) else 0) + SignedSum(c, txs[1..], id)
  }

  /** Appending one transaction adds its signed amount to its own wallet's sum only. */
  lemma {:induction false} SignedSumAppend(c: Convention, txs: seq<Transaction>, t: Transaction, id: string)
    ensures SignedSum(c, txs + [t], id)
         == SignedSum(c, txs, id) + (if t.walletId == id then Signed(c, t) else 0)
  {
    if txs == [] {
      assert [] + [t] == [t];
    } else {
      assert (txs + [t])[1..] == txs[1..] + [t];
      SignedSumAppend(c, txs[1..], t, id);
    }
  }

  /** A wallet that no transaction references has signed sum 0. */
  lemma {:induction false} SignedSumUnreferenced(c: Convention, txs: seq<Transaction>, id: string)
    requires forall i | 0 <= i < |txs| :: txs[i].walletId != id
    ensures SignedSum(c, txs, id) == 0
  {
    if txs != [] {
      assert txs[0].walletId != id;
      SignedSumUnreferenced(c, txs[1..], id);
    }
  }

  /** The order in which two transactions were appended does not matter to any sum. */
  lemma SignedSumSwap(c: Convention, txs: seq<Transaction>, t1: Transaction, t2: Transaction, id: string)
    ensures SignedSum(c, txs + [t1, t2], id) == SignedSum(c, txs + [t2, t1], id)
  {
    assert txs + [t1, t2] == (txs + [t1]) + [t2];
    assert txs + [t2, t1] == (txs + [t2]) + [t1];
    SignedSumAppend(c, txs, t1, id);
    SignedSumAppend(c, txs + [t1], t2, id);
    SignedSumAppend(c, txs, t2, id);
    SignedSumAppend(c, txs + [t2], t1, id);
  }

  /** The literals disagree: the add page's "income" is a debit for the library, the
      library's "pemasukan" is a debit for the add page, and the add page's "expense"
      is shown as a positive amount on the dashboard. */
  lemma ConventionsDisagree(t: Transaction)
    ensures t.kind == Income ==> Signed(AddPage, t) == t.amount && Signed(Lib, t) == -t.amount
    ensures t.kind == Pemasukan ==> Signed(AddPage, t) == -t.amount && Signed(Lib, t) == t.amount
    ensures t.kind == Expense ==> Signed(AddPage, t) == -t.amount && Signed(Display, t) == t.amount
  {
  }
}
