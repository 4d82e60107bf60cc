# Duwitku wallet ledger, modelled in Dafny

Duwitku is a personal finance tracker. A user keeps named wallets, each with a
stored balance. The user records income and expense transactions against them.
Data lives in two Firestore collections, `wallets` and `transactions`. This project
models those collections as in-memory state and models the code that writes and
reads them:

- `Documents` (documents.dfy): the wallet and transaction documents. A wallet's
  `balance` field may be absent, and `BalanceOf` reads an absent balance as 0.
  Type names appear as the code spells them. The add page writes `"income"` and
  `"expense"`. `"pemasukan"` is used by the library and the dashboard. `"keluar"` is
  used by the dashboard only. The library's own comment names `"pengeluaran"` as
  the other type, which the dashboard does not count as an expense. The three ways the code turns a
  type into a sign are the `Convention` values `AddPage`, `Lib` and `Display`.
  `SignedSum` adds up one wallet's signed amounts under one convention.
- `Ledger` (ledger.dfy): the balance invariant `Balanced`. It says a wallet's
  stored balance equals its opening balance plus the signed sum of its
  transactions. `Credit` is a balance update. `Store` is the database: a `wallets`
  map, an append-only `transactions` sequence, and the Firestore calls the code
  makes (`addDoc`, `getDoc`, `updateDoc`, `increment`).
- `AddPage` (add_page.dfy): the add-transaction page's `handleSubmit`.
- `TransactionsLib` (lib_transactions.dfy): `addTransaction` and `getTransactions`.
- `WalletsLib` (lib_wallets.dfy): `addWallet` and `getWallets`.
- `WalletsPage` (wallets_page.dfy): the wallets page as a class. It holds the
  loaded list and the two form fields, and has its own `addWallet`.
- `Dashboard` (dashboard.dfy): the dashboard's totals, pagination, wallet-name
  lookup and signed display amount.

Each writer is proved to keep the invariant for its own sign convention. The add
page preserves `Balanced(AddPage, …)`. The library preserves `Balanced(Lib, …)`.
Both wallet creators preserve every convention. The conventions do not agree
with each other. `AddPageIncomeBreaksLib` proves that the add page's write of a
non-zero "income" transaction breaks the library's invariant in every state where
it held, and `WritersDisagree` gives a concrete instance. The dashboard
totals count only `"pemasukan"` and `"keluar"`. So they never see a transaction
the add page writes (`AddPageKindsInvisible`).

Three facts about the writers shape the model:

- The add page stores the transaction even when the selected wallet is missing.
- The library stores the transaction first; its `updateDoc` then fails when the
  wallet is missing.
- The library's `addWallet` starts every wallet at balance 0, while the wallets
  page uses the balance the user entered.

## Model

| member | source | states |
|---|---|---|
| Documents.ConventionsDisagree | lib/transactions.js:31 | the three readings disagree: "income" credits the add page but debits the library; "pemasukan" credits the library but debits the add page; "expense" debits the add page but shows as positive on the dashboard |
| Documents.SignedSumSwap | lib/transactions.js:29-32 | the order in which two transactions were appended does not change any wallet's signed sum |
| Ledger.Credit | lib/transactions.js:29-32 | the target wallet's balance becomes its old balance (absent counts as 0) plus the delta; its name and owner and every other wallet are unchanged |
| Ledger.CreditCommutes | lib/transactions.js:31 | two increments give the same table in either order, and two increments of one wallet add up |
| Ledger.CreditPreservesBalanced | pages/transactions/add.js:60-79 | appending a transaction and crediting its existing wallet with its signed amount keeps the ledger balanced |
| Ledger.OrphanPreservesBalanced | pages/transactions/add.js:60-71 | a transaction stored for a wallet that does not exist leaves every existing wallet balanced |
| Ledger.CreatePreservesBalanced | lib/wallets.js:5-10 | a new wallet under an unused id is balanced, with its stored balance as opening balance |
| Ledger.AddPageIncomeBreaksLib | pages/transactions/add.js:71-78 | from any state balanced under the library's reading, the add page's write of a non-zero "income" transaction to an existing wallet leaves the state unbalanced under that reading |
| Ledger.WritersDisagree | pages/transactions/add.js:73-77 | one add-page "income" transaction of 100 leaves a wallet balanced under the add page's reading and unbalanced under the library's |
| Ledger.Store.AddTransactionDoc | lib/transactions.js:26 | `addDoc` appends exactly the given transaction; its id is its position; wallets are unchanged |
| Ledger.Store.AddWalletDoc | lib/wallets.js:6-10 | `addDoc` adds exactly one wallet under a fresh id and records its opening balance; nothing else changes |
| Ledger.Store.GetWalletDoc | pages/transactions/add.js:68-71 | the snapshot exists exactly when the wallet does and then holds its document |
| Ledger.Store.UpdateBalance | pages/transactions/add.js:78 | `updateDoc` overwrites the balance field of an existing wallet; for a missing wallet it fails and changes nothing |
| Ledger.Store.IncrementBalance | lib/transactions.js:29-32 | `increment(d)` adds `d` to an existing wallet's balance; for a missing wallet it fails and changes nothing |
| AddPage.HandleSubmit | pages/transactions/add.js:54-82 | with no wallet selected, nothing is written. Otherwise exactly one transaction with the form's fields, the selected wallet and the user's id is appended. An existing wallet gains the amount for "income" and loses it for any other type, counting an absent balance as 0. A missing wallet leaves the table unchanged, so the write is partial. No other wallet or stored transaction changes, and the add-page invariant is preserved |
| TransactionsLib.AddTransaction | lib/transactions.js:15-33 | exactly one transaction is appended with the given fields. The wallet gains the amount exactly for "pemasukan" and loses it otherwise, "income" included. No other wallet changes. The call fails, after storing the transaction, when the wallet does not exist. The library invariant is preserved |
| TransactionsLib.Matching | lib/transactions.js:37-40 | the rows are exactly the stored transactions with that user and wallet, each with its own id, in increasing id order |
| TransactionsLib.SortByDate | lib/transactions.js:41 | the result is a permutation of its input with dates non-increasing |
| TransactionsLib.InsertKeepsNewestFirst | lib/transactions.js:41 | inserting one row into a newest-first list keeps it newest-first |
| TransactionsLib.PermutationKeepsDistinct | lib/transactions.js:44-45 | reordering query rows keeps every document id at most once |
| TransactionsLib.GetTransactions | lib/transactions.js:36-45 | exactly the stored transactions with `userId == u` and `walletId == w`, each once and paired with its id, ordered by date non-increasing |
| WalletsLib.AddWallet | lib/wallets.js:5-11 | exactly one new wallet with the given name, owner and balance 0, which is also its recorded opening balance; existing wallets and transactions are unchanged; every invariant is preserved |
| WalletsLib.GetWallets | lib/wallets.js:14-17 | exactly the wallets whose `userId` is `u`, with their documents |
| WalletsLib.CreatedWalletListed | lib/wallets.js:5-17 | after a wallet is created for `u`, `u`'s list is the old list plus that wallet |
| WalletsLib.AddWalletRoundTrip | lib/wallets.js:5-17 | after `addWallet(u, n)`, `getWallets(u)` holds a wallet named `n` at balance 0 |
| WalletsLib.CreatedWalletHiddenFromOthers | lib/wallets.js:5-17 | creating a wallet for `u` leaves `getWallets(v)` unchanged for every `v` other than `u` |
| WalletsPage.Wallets.constructor | pages/wallets/index.js:10-12 | the page starts with an empty list and empty name and balance fields |
| WalletsPage.Wallets.LoadWallets | pages/wallets/index.js:20-32 | the loaded list is exactly the current user's wallets |
| WalletsPage.Wallets.AddWallet | pages/wallets/index.js:35-46 | an empty name writes nothing. Otherwise exactly one wallet is created with the entered name, `Number(balance)` as balance and recorded opening balance (not forced to 0) and the user's id, and both form fields are reset to empty. Existing wallets and transactions are unchanged, and every invariant is preserved |
| Dashboard.Page | pages/index.js:63-67 | a page holds at most 5 rows. It is the contiguous run of the list starting at `(currentPage - 1) * 5`, as long as what remains allows, and empty past the end |
| Dashboard.TotalPages | pages/index.js:68 | `ceil(n / 5)`: 0 for an empty list, otherwise `(pages - 1) * 5 < n <= pages * 5` |
| Dashboard.PagesCoverList | pages/index.js:63-68 | pages 1 to `totalPages`, concatenated, are the whole list in order |
| Dashboard.TotalBalanceAppend | pages/index.js:70 | the total balance is the sum of the wallets' balances; a wallet without a balance adds 0 |
| Dashboard.SumOfKindAppend | pages/index.js:71-76 | a transaction adds its amount to the total of its own type only |
| Dashboard.OtherKindInNeitherTotal | pages/index.js:71-76 | a transaction of any type other than "pemasukan" and "keluar" counts in neither total income nor total expense |
| Dashboard.AddPageKindsInvisible | pages/index.js:71-76 | transactions the add page writes ("income" / "expense") leave total income and total expense at 0 |
| Dashboard.DisplayedSumSplits | pages/index.js:71-76 | the displayed signed amounts add up to total income minus total expense plus the amounts of all other types |
| Dashboard.SignedAmountSign | pages/index.js:306-307 | the signed amount is minus the amount for "keluar" and the amount itself for every other type |
| Dashboard.FindWallet | pages/index.js:303-304 | the index of the first wallet whose id matches, or none when no wallet matches |
| Dashboard.WalletName | pages/index.js:303-305 | the name of the first wallet whose id matches; "Wallet tidak ditemukan" when none matches or that name is empty |

## Left out

- Login and registration pages: they only forward credentials to Firebase Authentication.
- The Firestore and Auth clients (`lib/firebase`, `hooks/useAuth`) are not part of this model. Their documents are the `Store` state; `user.uid` is a parameter.
- `onSnapshot` subscriptions, `useEffect` loading, network round-trips, routing and redirects, `router.reload`, `alert`, rendering, `toLocaleString` formatting and the pagination buttons.
- The dashboard's own wallet and transaction queries (pages/index.js:18-40) are not modelled. The totals and the lookup take whatever list they are given.
- JavaScript `Number()` parsing and floating point: amounts and balances are integers, since the currency (Rupiah) has no minor units. The library stores `Number(amount)` but increments by the raw `amount`. With integer amounts the two are the same.
- `new Date()` in the library, and the add page's date string, are an integer date parameter. Firestore orders values of different types by type before value, so `orderBy("date", "desc")` lists every add-page row (a string date) before every library row (a timestamp). The model sorts both by one integer and does not capture that split.
- Firestore's generated ids. A new wallet's id is a parameter that `IsFreshWalletId` requires to be non-empty and unused, including by any transaction. A transaction's id is its position in the log.
- Concurrent clients, and the lost update the add page's read-then-write allows under them: the model is sequential.
- Failed network writes. A rejected `updateDoc` is modelled only for a missing wallet: it is the `false` result of `UpdateBalance`, `IncrementBalance` and `AddTransaction`.
- Editing and deleting transactions and deleting wallets. pages/transactions/edit/[id].js and pages/wallets/[id].js are not part of this model.
- TransactionsLib.SortByDate: equal dates keep their log order. Firestore's tie-break by document id is not modelled.
- WalletsLib.GetWallets: returns a map keyed by id. The order of the query's documents is not modelled.
- Dashboard.Page: requires `currentPage >= 1`. The page starts at 1 and the buttons set `i + 1`, so JavaScript's negative slice indices are not modelled.
