/** The dashboard's read-side computations: the three totals, the five-per-page
    pagination, and each row's wallet name and signed amount. */
module Dashboard {
  import opened Documents

  const ItemsPerPage: nat := 5
  const NotFoundLabel: string := "Wallet tidak ditemukan"

  /** A row of the wallets snapshot: `{id: doc.id, ...doc.data()}`. */
  datatype WalletDoc = WalletDoc(id: string, wallet: Wallet)

  function Min(a: int, b: int): int { if a <= b then a else b }

  // ---- Pagination ----

  /** `items.slice(start, end)` for non-negative bounds: both are clamped to the length. */
  function Slice<T>(items: seq<T>, start: nat, end: nat): seq<T>
  {
    var lo := Min(start, |items|);
    var hi := Min(end, |items|);
    if hi <= lo then [] else items[lo..hi]
  }

  /** The transactions shown on page `currentPage` (pages are numbered from 1). */
  function Page<T>(items: seq<T>, currentPage: int): (r: seq<T>)
    requires currentPage >= 1
    ensures |r| <= ItemsPerPage
    ensures var start := (currentPage - 1) * ItemsPerPage;
            && (start < |items| ==> |r| == Min(ItemsPerPage, |items| - start))
            && (start >= |items| ==> r == [])
            && forall k | 0 <= k < |r| :: r[k] == items[start + k]
  {
    var start := (currentPage - 1) * ItemsPerPage;
    Slice(items, start, start + ItemsPerPage)
  }

  /** `Math.ceil(n / itemsPerPage)` */
  function TotalPages(n: nat): (pages: nat)
    ensures n == 0 ==> pages == 0
    ensures n > 0 ==> (pages - 1) * ItemsPerPage < n <= pages * ItemsPerPage
  {
    (n + ItemsPerPage - 1) / ItemsPerPage
  }

  /** Pages `p` to `last`, concatenated in order. */
  function PagesFrom<T>(items: seq<T>, p: int, last: int): seq<T>
    requires p >= 1
    decreases last - p + 1
  {
    if p > last then [] else Page(items, p) + PagesFrom(items, p + 1, last)
  }

  lemma {:induction false} PagesFromSuffix<T>(items: seq<T>, p: int)
    requires 1 <= p <= TotalPages(|items|) + 1
    ensures PagesFrom(items, p, TotalPages(|items|)) == items[Min((p - 1) * ItemsPerPage, |items|)..]
    decreases TotalPages(|items|) - p + 1
  {
    var last := TotalPages(|items|);
    var n := |items|;
    if p > last {
      assert (p - 1) * ItemsPerPage == last * ItemsPerPage >= n;
    } else {
      var start := (p - 1) * ItemsPerPage;
      assert start <= (last - 1) * ItemsPerPage < n;
      PagesFromSuffix(items, p + 1);
      var page := Page(items, p);
      assert page == items[start..Min(start + ItemsPerPage, n)];
      assert p * ItemsPerPage == start + ItemsPerPage;
      assert items[start..] == items[start..Min(start + ItemsPerPage, n)] + items[Min(start + ItemsPerPage, n)..];
    }
  }

  /** Pages 1 to `TotalPages` together are the whole list, in order. */
  lemma PagesCoverList<T>(items: seq<T>)
    ensures PagesFrom(items, 1, TotalPages(|items|)) == items
  {
    PagesFromSuffix(items, 1);
  }

  // ---- Totals ----

  /** `wallets.reduce((sum, w) => sum + (w.balance || 0), 0)` */
  function TotalBalance(ws: seq<WalletDoc>): int
  {
    if ws == [] then 0 else BalanceOf(ws[0].wallet) + TotalBalance(ws[1..])
  }

  /** The sum of the amounts of the transactions whose type is exactly `kind`. */
  function SumOfKind(txs: seq<Transaction>, kind: string): int
  {
    if txs == [] then 0 else (if txs[0].kind == kind then txs[0].amount else 0) + SumOfKind(txs[1..], kind)
  }

  function TotalIncome(txs: seq<Transaction>): int { SumOfKind(txs, Pemasukan) }

  function TotalExpense(txs: seq<Transaction>): int { SumOfKind(txs, Keluar) }

  /** The sum of the amounts of the transactions whose type is neither "pemasukan" nor "keluar". */
  function SumOfOtherKinds(txs: seq<Transaction>): int
  {
    if txs == [] then 0
    else (if txs[0].kind != Pemasukan && txs[0].kind != Keluar then txs[0].amount else 0) + SumOfOtherKinds(txs[1..])
  }

  /** The sum of each row's displayed `signedAmount`. */
  function DisplayedSum(txs: seq<Transaction>): int
  {
    if txs == [] then 0 else Signed(Display, txs[0]) + DisplayedSum(txs[1..])
  }

  /** The total balance is additive over the list, and a wallet without a balance adds 0. */
  lemma {:induction false} TotalBalanceAppend(ws: seq<WalletDoc>, w: WalletDoc)
    ensures TotalBalance(ws + [w]) == TotalBalance(ws) + BalanceOf(w.wallet)
    ensures w.wallet.balance.None? ==> TotalBalance(ws + [w]) == TotalBalance(ws)
  {
    if ws == [] {
      assert [] + [w] == [w];
    } else {
      assert (ws + [w])[1..] == ws[1..] + [w];
      TotalBalanceAppend(ws[1..], w);
    }
  }

  /** Appending a transaction adds its amount to the total of its own type only. */
  lemma {:induction false} SumOfKindAppend(txs: seq<Transaction>, t: Transaction, kind: string)
    ensures SumOfKind(txs + [t], kind) == SumOfKind(txs, kind) + (if t.kind == kind then t.amount else 0)
  {
    if txs == [] {
      assert [] + [t] == [t];
    } else {
      assert (txs + [t])[1..] == txs[1..] + [t];
      SumOfKindAppend(txs[1..], t, kind);
    }
  }

  /** A transaction of any type other than "pemasukan" and "keluar" is in neither total. */
  lemma OtherKindInNeitherTotal(txs: seq<Transaction>, t: Transaction)
    requires t.kind != Pemasukan && t.kind != Keluar
    ensures TotalIncome(txs + [t]) == TotalIncome(txs)
    ensures TotalExpense(txs + [t]) == TotalExpense(txs)
  {
    SumOfKindAppend(txs, t, Pemasukan);
    SumOfKindAppend(txs, t, Keluar);
  }

  /** The transactions the add page writes ("income"/"expense") show in neither total. */
  lemma {:induction false} AddPageKindsInvisible(txs: seq<Transaction>)
    requires forall i | 0 <= i < |txs| :: txs[i].kind == Income || txs[i].kind == Expense
    ensures TotalIncome(txs) == 0 && TotalExpense(txs) == 0
  {
    if txs != [] {
      assert txs[0].kind == Income || txs[0].kind == Expense;
      AddPageKindsInvisible(txs[1..]);
    }
  }

  /** The displayed amounts add up to income minus expense plus every other type's
      amounts, which the rows show as credits. */
  lemma {:induction false} DisplayedSumSplits(txs: seq<Transaction>)
    ensures DisplayedSum(txs) == TotalIncome(txs) - TotalExpense(txs) + SumOfOtherKinds(txs)
  {
    if txs != [] {
      DisplayedSumSplits(txs[1..]);
    }
  }

  // ---- Rows ----

  /** `signedAmount`: negative exactly for "keluar" rows (a zero amount aside). */
  lemma SignedAmountSign(t: Transaction)
    ensures t.kind == Keluar ==> Signed(Display, t) == -t.amount
    ensures t.kind != Keluar ==> Signed(Display, t) == t.amount
  {
  }

  /** `wallets.find((w) => w.id === walletId)`, as the index of the first match. */
  function FindWallet(ws: seq<WalletDoc>, walletId: string): (r: Option<nat>)
    ensures r.Some? ==> r.value < |ws| && ws[r.value].id == walletId
                        && forall j | 0 <= j < r.value :: ws[j].id != walletId
    ensures r.None? ==> forall j | 0 <= j < |ws| :: ws[j].id != walletId
  {
    if ws == [] then None
    else if ws[0].id == walletId then Some(0)
    else match FindWallet(ws[1..], walletId)
      case None => None
      case Some(k) => Some(k + 1)
  }

  /** `find(...)?.name || "Wallet tidak ditemukan"`: the first matching wallet's name,
      unless there is none or its name is empty. */
  function WalletName(ws: seq<WalletDoc>, walletId: string): (r: string)
    ensures (forall j | 0 <= j < |ws| :: ws[j].id != walletId) ==> r == NotFoundLabel
    ensures forall i | 0 <= i < |ws| && ws[i].id == walletId && (forall j | 0 <= j < i :: ws[j].id != walletId) ::
              r == (if ws[i].wallet.name != "" then ws[i].wallet.name else NotFoundLabel)
  {
    match FindWallet(ws, walletId)
    case None => NotFoundLabel
    case Some(i) => if ws[i].wallet.name != "" then ws[i].wallet.name else NotFoundLabel
  }
}
