# Easy Khata ledger — a Dafny model

Easy Khata is a small bookkeeping app. A user keeps a list of contacts
(customers and suppliers) and, for each, a history of transactions. A
transaction is either credit the user gave (CREDIT_GIVEN) or a payment the
user received (PAYMENT_RECEIVED). This project models the app's logic and
proves what it promises:

- **Types** (`types.dfy`): the records and enumerations of `types.ts`.
- **Storage** (`storage.dfy`): the persistence gateway of
  `services/storage.ts`.
  - `Store` is a class whose fields are the four locally stored lists:
    users, session, contacts and transactions.
  - Every operation is scoped by the current user's id.
  - The remote backend appears only as per-call outcomes (a value, or a
    failure). A failure falls back to the same local logic.
  - The local transaction sort is an in-place insertion sort on an array.
- **Ledger** (`ledger.dfy`): the projection of `App.tsx`.
  - It turns contacts and transactions into contacts with a balance and a
    date of last activity, ranked by recency.
  - It also plans the settlement that brings a balance to zero.
- **App** (`app.dfy`): the controller state of `App.tsx` and its handlers.
  Each handler calls the store, then reloads the app's copies of the lists.
- **AddEntry**, **Dashboard**, **ContactDetails**, **History** and **Auth**:
  the rules embedded in the components of the same names.
  - AddEntry: item list, generated description, submit.
  - Dashboard: search and type filter, totals.
  - ContactDetails: transaction filter, balance card, settle button, delete
    confirmation.
  - History: grouping by date key.
  - Auth: validation order and outcome states.
- **Seqs** and **Text** (`seqs.dfy`, `text.dfy`): the JavaScript primitives
  these rely on. Seqs has `filter`, `findIndex` and the order-preserving
  sublist relation. Text has ASCII `toLowerCase`, `includes`, `trim`
  emptiness, base-10 `parseInt` and integer `toString`.

The main results are listed below.
- A contact's balance is its credit given minus its payments received, and
  it does not depend on the order of the list.
- Recording the planned settlement and reloading gives a balance of 0. The
  proof follows the amount as it is written into the entry form's text
  field and read back from it.
- The local transaction list comes back as a sorted permutation of the
  user's transactions.
- A locally saved transaction shows up in the next listing.
- History grouping puts every transaction into exactly one group: the group
  of its date key. Groups keep input order and appear in order of first
  appearance.

Three behaviours of the storage gateway are worth knowing, and the model
keeps them as the code has them:

- `signOut` skips the local clear when the remote sign-out rejects
  (services/storage.ts:126-131): the local session stays.
- The local delete cascade drops every transaction with the deleted
  contact id, whoever owns it (services/storage.ts:306). Only the removal of
  the contact itself checks the owner. So a delete by another user leaves
  the owner's contact but removes its transactions
  (`Storage.CascadeIgnoresOwner`).
- A successful remote delete removes only the contact row
  (services/storage.ts:287-291). No remote cascade is made.

## Model

| member | source | states |
|---|---|---|
| Storage.Merge | services/storage.ts:275 | merging updates keeps id, owner and creation time; an update that sets nothing is the identity |
| Storage.OwnedContacts | services/storage.ts:181-183 | the user's contacts: exactly the stored ones with that owner, in stored order, every copy kept |
| Storage.OwnedTransactions | services/storage.ts:351-353 | the user's transactions: exactly the stored ones with that owner, in stored order, every copy kept |
| Storage.OwnedAfterPrepend | services/storage.ts:420-423 | a transaction put first in storage is first among its owner's transactions |
| Storage.SavedTransactionIsListed | services/storage.ts:411-424 | a transaction saved locally is in any listing of its owner's transactions that follows |
| Storage.CascadeIgnoresOwner | services/storage.ts:302-315 | a delete by a non-owner keeps the contact but drops the owner's transactions of that contact id |
| Storage.UpdateFirstOwned | services/storage.ts:271-277 | only the first contact with that id and owner changes, to the merge; every other entry is untouched; no match means no change |
| Storage.WithoutContactTransactions | services/storage.ts:304-307 | keeps exactly the transactions of other contact ids, in order and with every copy, regardless of owner |
| Storage.WithoutOwnedContact | services/storage.ts:310-314 | removes every copy of the contacts with that id and owner, keeping the rest in order and with every copy |
| Storage.PrecedesIsTotalPreorder | services/storage.ts:357-366 | the comparator's order (date descending, then createdAt descending, missing as 0) is total and transitive |
| Storage.SortByRecency | services/storage.ts:357-366 | after the in-place sort the array is ordered by the comparator and is a permutation of its old contents |
| Storage.Store.SignUpResult | services/storage.ts:74-93 | local sign-up refuses a taken email with the exact message, else returns the new user with a session |
| Storage.Store.SignInResult | services/storage.ts:111-122 | local sign-in succeeds iff some user has that email and password, returning the first such user; else the exact refusal |
| Storage.Store.GetCurrentUser | services/storage.ts:133-147 | the remote session's user when a client exists and has one, else the local session |
| Storage.Store.SignUp | services/storage.ts:54-95 | with a client the remote answer; locally a taken email changes nothing, else the user is appended and becomes the session |
| Storage.Store.SignIn | services/storage.ts:97-124 | with a client the remote answer; locally the session is set iff credentials match, and nothing else changes |
| Storage.Store.SignOut | services/storage.ts:126-131 | the local session is cleared unless a client's remote sign-out rejects; no list changes |
| Storage.Store.GetContacts | services/storage.ts:151-185 | no user: empty; remote success: the remote rows; else exactly the user's stored contacts in order |
| Storage.Store.SaveContact | services/storage.ts:187-238 | no user: refused with "User not authenticated"; else the new record, appended locally on fallback, nothing else changed |
| Storage.Store.UpdateContact | services/storage.ts:240-279 | no user, an empty update with a client, or a remote success: no local change; else the first owned match gets the merge |
| Storage.Store.DeleteContact | services/storage.ts:281-300 | no user or a remote success: no local change; else the local fallback delete |
| Storage.Store.FallbackDelete | services/storage.ts:302-315 | all transactions of the contact id go, and the contact goes only if owned by the user |
| Storage.Store.GetTransactions | services/storage.ts:317-367 | no user: empty; else a sorted permutation of the remote rows, or of the user's stored transactions |
| Storage.Store.SaveTransaction | services/storage.ts:369-426 | no user: refused; else the new record with owner and createdAt, put first locally on fallback |
| Ledger.Signed | App.tsx:75 | credit adds the amount and payment subtracts it, whatever the amount's sign; a positive amount raises the balance iff it is credit |
| Ledger.ReduceAddsUp | App.tsx:72-76 | the fold over a contact's transactions equals the sum of their signed amounts |
| Ledger.NetOfFilter | App.tsx:71 | filtering by contact id does not change the contact's net |
| Ledger.NetIsCreditsMinusPayments | App.tsx:72-76 | a contact's net is its credit total minus its payment total |
| Ledger.BalanceIsNet | App.tsx:71-76 | the computed balance equals the contact's net over the whole list |
| Ledger.NetConcat | App.tsx:72-76 | the net of two lists joined is the sum of their nets |
| Ledger.NetPermutation | App.tsx:72-76 | two lists with the same elements have the same net |
| Ledger.BalanceIgnoresOrder | App.tsx:71-76 | the balance does not depend on the order of the transaction list |
| Ledger.BalanceAfterAdding | App.tsx:71-76 | adding one transaction, first or last, changes a balance by exactly that transaction's contribution |
| Ledger.LastTransactionDateIsFirstMatch | App.tsx:77 | last activity is absent iff the contact has no transaction, else the date of its first one in the list |
| Ledger.LastTransactionDateIsMostRecent | App.tsx:77 | on a list sorted as the store returns it, last activity is the latest date of the contact |
| Ledger.InsertRanked | App.tsx:79-84 | inserting into a ranked list keeps it ranked and adds exactly that entry |
| Ledger.RankByRecency | App.tsx:79-84 | the result is ranked by recency and a permutation of the input |
| Ledger.DeriveEntries | App.tsx:70-78 | one entry per contact, in order, each the contact with its balance and last activity |
| Ledger.Balance | App.tsx:71-76 | balance = sum of CREDIT_GIVEN amounts minus sum of PAYMENT_RECEIVED amounts for that contact id |
| Ledger.LastTransactionDate | App.tsx:77 | absent iff the contact has no transaction; else the date of one of its transactions |
| Ledger.ContactsWithBalances | App.tsx:70-84 | ranked by recency, and as a multiset exactly one entry per contact (the contact with its balance and last activity) |
| Ledger.ContactsWithBalancesSpec | App.tsx:70-84 | one entry per contact, as a multiset, with fields unchanged; no undated entry before a dated one; dates non-increasing |
| Ledger.Settlement | App.tsx:160-170 | payment iff balance > 0, amount = |balance|, and applying it brings the balance to 0 |
| Ledger.SettleThenRecomputeIsZero | App.tsx:160-170 | recording the settlement and recomputing, in any list order, gives balance 0 |
| App.AppController.constructor | App.tsx:22-36 | the initial screen, selection and modal state |
| App.AppController.SelectedTransactions | App.tsx:87 | exactly the loaded transactions of the selected contact, in loaded order, every copy kept |
| App.AppController.RefreshData | App.tsx:52-61 | the loaded copies become what the store lists; nothing else changes |
| App.AppController.HandleLogin | App.tsx:90-96 | the user becomes authenticated |
| App.AppController.HandleLogout | App.tsx:98-104 | after a completed sign-out: unauthenticated, dashboard, no selection, welcome shown |
| App.AppController.HandleSelectContact | App.tsx:106-109 | selects the contact and shows its details |
| App.AppController.ChangeView | App.tsx:188-191 | switches view; leaving the details view drops the selection |
| App.AppController.OpenAddTransaction | App.tsx:221-225 | opens a plain entry of the chosen type with no prefilled amount |
| App.AppController.HandleSettle | App.tsx:160-171 | the modal opens with the settlement's type and amount |
| App.AppController.HandleSaveTransaction | App.tsx:140-158 | no selection: nothing; else the selected contact and modal type are saved, the modal closes, lists reload |
| App.AppController.HandleSaveContact | App.tsx:111-125 | edit modal open with a selection: update that contact; otherwise create and go to the dashboard |
| App.AppController.HandleDeleteContact | App.tsx:127-138 | no selection: nothing; else delete, clear selection, dashboard, reload |
| App.SettleFlowZeroesBalance | App.tsx:160-171 | settle, save through the form and reload: the contact's balance is 0 |
| Text.ParseInt | components/AddEntry.tsx:46 | NaN exactly when no digit follows the leading whitespace and optional sign |
| Text.ParseIntToString | components/AddEntry.tsx:32 | reading back a written integer, followed by any non-digit text, gives that integer |
| AddEntry.InitialAmountText | components/AddEntry.tsx:32 | empty iff the initial amount is not truthy; otherwise text that reads back as that amount |
| AddEntry.InitialDescription | components/AddEntry.tsx:33 | "Full Settlement" iff the initial amount is truthy, else empty |
| AddEntry.ShowItemsBuilder | components/AddEntry.tsx:85 | shown iff transaction mode, credit type and no truthy initial amount |
| AddEntry.ItemQuantity | components/AddEntry.tsx:46 | the typed quantity, or 1 when it is not a number or zero; never 0 |
| AddEntry.DropIndex | components/AddEntry.tsx:53 | removes exactly the element at the index, keeps the others in order; out of range removes nothing |
| AddEntry.FinalDescription | components/AddEntry.tsx:71-77 | "<n> Items" iff credit, empty description and items present, and it reads back n; else the description unchanged |
| AddEntry.EntryForm.constructor | components/AddEntry.tsx:26-39 | prefilled contact fields, settlement amount and description, empty items, quantity "1" |
| AddEntry.EntryForm.HandleAddItem | components/AddEntry.tsx:42-50 | blank name: no change; else one item appended and the item fields reset |
| AddEntry.EntryForm.HandleRemoveItem | components/AddEntry.tsx:52-54 | the item list loses exactly the element at that index |
| AddEntry.EntryForm.Submit | components/AddEntry.tsx:63-81 | empty name or empty amount saves nothing; else the fields, items included for every type |
| Dashboard.FilteredContacts | components/Dashboard.tsx:15-23 | an order-preserving sublist holding exactly the contacts that match the search and the type filter, every copy kept |
| Dashboard.EmptySearchKeepsAll | components/Dashboard.tsx:17-19 | an empty search with filter ALL keeps every contact |
| Dashboard.TotalReceivable | components/Dashboard.tsx:25 | the sum of positive balances: non-negative, and 0 iff no contact owes the user |
| Dashboard.TotalPayable | components/Dashboard.tsx:26 | the sum of the sizes of negative balances: non-negative, and 0 iff the user owes no contact |
| Dashboard.NetPosition | components/Dashboard.tsx:25-26 | receivable minus payable is the sum of all balances |
| Dashboard.FilterLabel | components/Dashboard.tsx:28-34 | the label of each filter, distinct per filter |
| ContactDetails.FilteredTransactions | components/ContactDetails.tsx:27 | ALL gives the list unchanged; otherwise exactly the transactions of that type, in order, every copy kept |
| ContactDetails.SettleAction | components/ContactDetails.tsx:164-167 | offered iff balance is not 0, handing on the balance |
| ContactDetails.BalanceLabel | components/ContactDetails.tsx:77 | "You will receive" iff balance >= 0, "You need to pay" iff negative |
| ContactDetails.DisplayAmount | components/ContactDetails.tsx:74 | the balance without its sign |
| ContactDetails.DetailsScreen.constructor | components/ContactDetails.tsx:24-25 | the screen opens with filter ALL and no confirmation |
| ContactDetails.DetailsScreen.SetFilter | components/ContactDetails.tsx:106-118 | the filter becomes the chosen one; the confirmation is untouched |
| ContactDetails.DetailsScreen.RequestDelete | components/ContactDetails.tsx:39 | the trash button opens the confirmation |
| ContactDetails.DetailsScreen.CancelDelete | components/ContactDetails.tsx:192 | cancel closes the confirmation without deleting |
| ContactDetails.DetailsScreen.PressDelete | components/ContactDetails.tsx:176-201 | the delete callback is reached iff the confirmation is open |
| History.ContactName | components/History.tsx:13-15 | "Unknown" when no contact has the id; else the first match's name, or "Unknown" when it is empty |
| History.RowSubtitle | components/History.tsx:59 | the description if non-empty, else "Credit Given" or "Payment Received" by type |
| History.GroupKeys | components/History.tsx:30 | exactly the date keys present, each once; empty iff no transactions |
| History.GroupKeysInFirstAppearanceOrder | components/History.tsx:22-32 | a key listed before another occurs in the input before every occurrence of the later one: the keys come in order of first appearance |
| History.GroupStep | components/History.tsx:23-32 | filing one transaction keeps keys and groups equal to those of the longer prefix |
| History.GroupByDate | components/History.tsx:22-32 | the keys are the distinct date keys in order of first appearance; each group is exactly the transactions with that key, in input order |
| History.GroupsPartition | components/History.tsx:23-32 | every copy of a transaction is in the group of its key and in no other |
| Auth.Validate | components/Auth.tsx:34-46 | login needs email and password; sign-up checks all fields, then length >= 6, then confirmation, and reports exactly the first that fails |
| Auth.AuthForm.constructor | components/Auth.tsx:10-21 | the form opens in login mode, not loading, with no error, no success screen and every field empty |
| Auth.AuthForm.HandleChange | components/Auth.tsx:23-26 | the edited field takes the value and the error is cleared |
| Auth.AuthForm.ToggleMode | components/Auth.tsx:225-229 | the other mode, with every field and the error cleared |
| Auth.AuthForm.BackToLogin | components/Auth.tsx:81-85 | leaves the success screen for login mode with no error |
| Auth.AuthForm.HandleSubmit | components/Auth.tsx:28-64 | a failing check is shown and leaves the store as it was; a store error is shown; otherwise authenticated, or the sign-up success screen without a session; locally a successful sign-in sets the session to the matched user, a successful sign-up appends the user and sets the session, a refusal changes neither; with a client the local users and session stay; loading ends false |

## Left out

- The remote backend's client calls are not modelled. Each call is a parameter of the operation that makes it: the value it returned, or its failure. Row mapping, server-side filtering and ordering are not modelled. Nor is the start-up decision that a client exists; it is the constant `hasClient`.
- Environment probing for the backend's address and key is not modelled; it is platform plumbing.
- Random id generation is not modelled. The fresh id is a parameter, and collisions are not modelled.
- Local storage and JSON reading and writing are not modelled. The stored lists are fields of `Store`, read and written whole.
- Dates and timestamps are integers (the `getTime()` value), not ISO strings.
  - The history date key is a function of the date, passed as a parameter. Locale date formatting is not modelled.
  - An empty date string, which the ranking comparator treats as "no activity", is not representable.
- Amounts and quantities are integers.
  - `parseFloat` of the amount field is modelled by the integer reading of `parseInt`; fractions and floating-point rounding are not modelled.
  - `Text.ParseInt` reads base 10 only. JavaScript's `parseInt` also reads a `0x` prefix as hexadecimal; that is not modelled.
- `toLowerCase`, `trim` and whitespace cover ASCII only.
- `seedInitialData` is not modelled; it changes nothing.
- The presentation components and the ads are not modelled: Welcome, Layout, the banner and the pop-under with its clock-based cooldown.
- React scheduling is not modelled: the async interleaving of handlers, effects and memoisation. Each handler runs to completion. The effect that reloads data on login is not modelled.
- The start-up effect of App.tsx:38-49 is not modelled: it sets `isAuthenticated` when `getCurrentUser()` finds a user, then clears the `loading` flag. The `loading` flag and its splash screen are not part of `AppController`.
- Storage.Merge: the update is narrowed to name, phone and type, each optional, as the only caller passes (App.tsx:114). The source's `updateContact` takes any part of a contact, and its local branches spread every given field, including `id`, `userId`, `createdAt` and an explicit `phone: undefined`. So "keeps id, owner and creation time" holds by construction here, not for every call the signature allows.
- Auth.Validate: the password length is counted in characters (Unicode scalar values). JavaScript's `length` counts UTF-16 code units, so a password with characters outside the Basic Multilingual Plane, such as emoji, can pass the 6-character check in the source and fail it in the model.
- Ledger.RankByRecency: the ranking is stated only by its properties: dated before undated, then dates non-increasing. The source comparator answers 1 whenever its first argument is undated, so it is not a consistent order, and the order it gives among undated contacts is not modelled.
- Storage.Store.GetTransactions: the sort is stated as sorted and a permutation. The source's sort is also stable, and that is not stated.
- History.GroupByDate: the keys are listed in order of first appearance, as `Object.keys` gives for keys that do not look like integers. For keys that look like integers, `Object.keys` puts them first in numeric order; that ordering is not modelled.
- Auth.AuthForm.HandleSubmit: an error message that is absent rather than a string is not representable. The remote branch returns one when an exception carries no message. The form then takes the success path (`if (error)` is false), as it does for the model's `Err("")`. The "An unexpected error occurred" fallback (components/Auth.tsx:60) is reached in neither: every thrown error carries a non-empty message.
- The optional-callback guards of the entry form's submit are not modelled; the app always passes the matching callback.
- The transaction's owner invariant (the contact belongs to the same user) is not modelled. The source does not enforce it.
