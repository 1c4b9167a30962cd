# Synplix core, modelled in Dafny

Synplix is an offline-first bookkeeping app for small businesses. It tracks
employees and their attendance, invoices, income and expense transactions,
inventory and a business profile. This project models the logic at its core
as pure functions over immutable data, and proves what that logic promises.

- **Local store** (`LocalDb`). One `map<Id, Row>` per table. Every row
  carries its owner's uid and a sync status (`synced | pending | deleted`).
  Profile rows can only be `synced` or `pending`.
- **Sync engine** (`SyncEngine`, `SyncPush`, `Remote`). It has four
  operations:
  - loading the owner's view;
  - refreshing the cache from the remote snapshot;
  - pushing pending rows, stopping at the first failed write;
  - purging the owner's rows at logout.

  Remote write outcomes are an explicit input: `failAt` is the position of
  the first write that fails, if any.
- **App store** (`AppStore`, `StoreDashboard`):
  - the defaults applied when the user's documents are loaded;
  - the dashboard totals and expense pie;
  - invoice numbering and the status toggle with its payment transaction;
  - the remote-write diffs of employee and inventory edits;
  - profile updates and the business-data reset.
- **Pages**: dashboard, invoices, attendance, inventory, transactions,
  expenses, onboarding, signup, login and support (one module each). Also
  the sidebar's active-link test and logout order.
- **Service worker** (`ServiceWorker`): request routing, the cache
  strategies, install, activate cleanup and the background-sync message.
- **Smaller parsers and serialisers**:
  - the `.env.local` line parser (`EnvFile`);
  - the translation lookup and language selection (`I18n`);
  - the spreadsheet rows of the data export (`ExportExcel`).

Shared helpers live in `Common` (options, JavaScript's `trim` with its
full white-space set, `toUpperCase` for the ASCII, Latin-1, Greek and
Cyrillic letters, the UTF-16 `length`, padding, decimal digits, sums,
filters), `LexOrder` (string order, sorted key sets), `Sorting` (a
stable insertion sort), `Words` (split, join, initials) and `Domain`
(the shared records).

Money and quantities are integers. Ids, timestamps and "today" are
parameters.

## Model

| member | source | states |
|---|---|---|
| LocalDb.Put | lib/localDb.ts:56-62 | a put replaces the whole row with that id, whatever its owner, and leaves every other id alone |
| LocalDb.SetStatus | lib/syncEngine.ts:212 | an update of the status changes only that row's status; the keys and all other rows stay |
| LocalDb.BulkPut | lib/localDb.ts:56-62 | a bulk put adds exactly the batch's ids to the table's keys |
| LocalDb.BulkPutKeepsOthers | lib/localDb.ts:56-62 | rows whose id is not in the batch are untouched by a bulk put |
| LocalDb.BulkPutLastWins | lib/localDb.ts:56-62 | for an id that occurs several times in a batch, the last occurrence is what the table holds |
| SyncEngine.VisibleIdsSpec | lib/syncEngine.ts:34-51 | the owner index yields exactly the owner's rows that are not deleted, each once |
| SyncEngine.OwnerViewSpec | lib/syncEngine.ts:34-51 | a loaded list holds exactly the owner's non-deleted rows, ascending by key, or descending when asked |
| SyncEngine.LoadFromLocal | lib/syncEngine.ts:52-71 | the view carries a profile exactly when the store holds one under the owner's id, and it is that profile |
| SyncEngine.DropSynced | lib/syncEngine.ts:93-98 | the delete step removes exactly the owner's synced rows; pending rows, tombstones and other owners' rows stay unchanged |
| SyncEngine.OwnedRecords | lib/syncEngine.ts:90 | the merge snapshot holds exactly the owner's records, keyed by id |
| SyncEngine.PutFetchedSpec | lib/syncEngine.ts:122 | after the bulk put, ids outside the batch keep their row; each fetched id holds its last document, owned by the user and synced |
| SyncEngine.RefreshTableSpec | lib/syncEngine.ts:93-168 | after a table's refresh, its keys are the snapshot's ids plus the rows that were not the owner's synced ones; the latter are unchanged and every fetched row is the owner's and synced |
| SyncEngine.FetchAndCacheRefreshes | lib/syncEngine.ts:78-168 | all four tables are refreshed in that sense by one fetch |
| SyncEngine.FetchedEmployeeRecord | lib/syncEngine.ts:89-122 | a fetched employee is the merge of its document with the local record read before the delete |
| SyncEngine.PutFetchedProfile | lib/syncEngine.ts:170-184 | with a remote profile, the owner's row becomes the fetched profile marked synced; without one, the profile table is unchanged; other owners' profiles stay |
| SyncEngine.FetchOverwritesPending | lib/syncEngine.ts:122 | a pending local employee whose id is in the snapshot ends up synced, so its local edit is lost |
| SyncEngine.FetchOverwritesPendingProfile | lib/syncEngine.ts:170-184 | a pending profile is replaced by the remote one, marked synced |
| SyncEngine.FetchLosesSyncedInvoiceItems | lib/syncEngine.ts:124-142 | a synced invoice whose document lacks items gets no items, because the merge snapshot is read after the delete |
| SyncEngine.NotPending | lib/syncEngine.ts:122 | the corrected batch leaves out exactly the documents whose id is a pending row of the owner |
| SyncEngine.RefreshKeepsPending | lib/syncEngine.ts:93-168 | with those documents left out, a refresh keeps every pending row of the owner unchanged |
| SyncEngine.FetchKeepingPendingKeepsEdits | lib/syncEngine.ts:78-184 | the corrected refresh keeps every pending row of all four tables, and a pending profile, unchanged |
| SyncEngine.FetchKeepingPendingMergesInvoices | lib/syncEngine.ts:124-142 | in the corrected refresh, a synced invoice is merged with its local record read before the delete |
| SyncEngine.DropOwned | lib/syncEngine.ts:297-305 | the purge removes exactly the owner's rows and keeps every other row unchanged |
| SyncEngine.ClearThenLoadIsEmpty | lib/syncEngine.ts:297-305 | after the purge the owner's view is empty, pending rows and the profile included |
| SyncEngine.ClearKeepsOthers | lib/syncEngine.ts:297-305 | other owners' rows and profiles survive the purge unchanged, and a second purge changes nothing |
| SyncPush.PendingIdsSpec | lib/syncEngine.ts:193-196 | a phase visits exactly the owner's pending rows of the table, each once, in id order |
| SyncPush.MarkSyncedSpec | lib/syncEngine.ts:212 | flipping a list of rows marks exactly those rows synced and changes nothing else |
| SyncPush.Clip | lib/syncEngine.ts:197-214 | the number of a phase's writes among the first w of the pass is 0 before the phase, its length after it, and w minus the phase's start in between |
| SyncPush.Done | lib/syncEngine.ts:197-214 | a phase completes r writes, all of which succeed; when r falls short, write r fails |
| SyncPush.PushRowsIs | lib/syncEngine.ts:197-214 | one loop writes the first c pending rows in order and flips exactly them to synced; c is the number before the first failure |
| SyncPush.TableAfterKeepsOthers | lib/syncEngine.ts:197-264 | a phase changes no row that is not a pending row of the owner, and no row's record |
| SyncPush.ProfileAfterSpec | lib/syncEngine.ts:278-290 | only the owner's profile row can change, and only from pending to synced once its write succeeded |
| SyncPush.FinishPassIs | lib/syncEngine.ts:266-292 | after the invoice loop the status pass writes nothing, and only the profile write remains |
| SyncPush.SyncPendingIs | lib/syncEngine.ts:189-292 | the pass makes the first w planned writes (employees, invoices, transactions, inventory, profile) and marks exactly those rows synced; it succeeds iff all planned writes succeed and then returns that count |
| SyncPush.SyncFailsInEmployees | lib/syncEngine.ts:197-214 | a failure among the employee writes ends the pass there, with the earlier writes done and no count |
| SyncPush.SyncFailsInInvoices | lib/syncEngine.ts:221-233 | a failure among the invoice writes ends the pass there |
| SyncPush.SyncFailsInTransactions | lib/syncEngine.ts:240-247 | a failure among the transaction writes ends the pass there |
| SyncPush.SyncFailsInInventory | lib/syncEngine.ts:254-264 | a failure among the inventory writes ends the pass there |
| SyncPush.SyncReachesProfile | lib/syncEngine.ts:266-292 | when the table writes all succeed, the pass ends with the profile write |
| SyncPush.SyncOkIff | lib/syncEngine.ts:189-292 | the pass completes exactly when every planned write succeeds |
| SyncPush.SyncOkClears | lib/syncEngine.ts:189-292 | a completed pass returns the number of rows that were pending and sends them in table order; none of the owner's rows is left pending |
| SyncPush.SyncNothingPending | lib/syncEngine.ts:189-292 | with nothing pending, the pass returns 0, writes nothing and changes nothing |
| SyncPush.SyncIdempotent | lib/syncEngine.ts:189-292 | right after a completed pass, a second pass returns 0 and changes nothing |
| SyncPush.SyncFailedStops | lib/syncEngine.ts:197-213 | a failed pass sent a prefix of the planned writes, all of which succeeded, and stopped at the first failure |
| SyncPush.SyncKeepsOthers | lib/syncEngine.ts:189-292 | the pass only flips the owner's pending rows to synced; no record, no other owner's row and no other profile changes |
| Remote.EmployeeRoundTrip | lib/syncEngine.ts:198-211 | reading back a pushed employee document gives the local record |
| Remote.InvoiceRoundTrip | lib/syncEngine.ts:222-230 | reading back a pushed invoice document gives the local record |
| Remote.TransactionRoundTrip | lib/syncEngine.ts:241-244 | reading back a pushed transaction document gives the transaction |
| Remote.InventoryRoundTrip | lib/syncEngine.ts:255-261 | a pushed inventory item reads back as itself exactly when its category and unit are non-empty |
| Remote.MergeEmployee | lib/syncEngine.ts:103-121 | a fetched employee keeps its id; with neither a remote nor a local value it gets `''`, `'Team Member'` or the current time |
| Remote.EmployeeMergeKeepsLocal | lib/syncEngine.ts:103-121 | an empty document keeps every field of the local record |
| Remote.MergeInvoice | lib/syncEngine.ts:128-142 | status and number come from the document; without items or a local record the invoice has no items |
| Remote.InvoiceMergeKeepsLocal | lib/syncEngine.ts:128-142 | missing items, client fields and creation time come from the local record |
| Remote.FetchedTransaction | lib/syncEngine.ts:145-153 | a fetched transaction keeps id, amount and type; a missing note reads as `''` |
| Remote.InventoryItemOf | lib/syncEngine.ts:156-167 | category and unit are never empty and take the document's value when it has one |
| Remote.FetchedInventoryItem | lib/syncEngine.ts:156-167 | a missing creation time reads as the current time |
| Remote.FetchedProfile | lib/syncEngine.ts:170-184 | the fetched profile has the owner's id and the defaults `'INR'`, notifications and dark mode on, two-factor off, onboarding not complete |
| Remote.PatchOf | lib/syncEngine.ts:282-287 | the profile patch carries the business name and currency |
| Remote.ApplyPatch | lib/syncEngine.ts:282-287 | the profile patch leaves name, email and the onboarding flag of the document alone |
| Remote.ProfilePatchRoundTrip | lib/syncEngine.ts:282-287 | after the patch, the eight pushed fields read back as the local profile's; name, email and onboarding flag are the remote ones |
| AppStore.FindSpec | lib/appStore.tsx:399-400 | the search finds an id iff some element has it, and with unique ids it finds that element |
| AppStore.LoadUserData | lib/appStore.tsx:109-182 | one record per document, in query order and with the document's id; a profile iff the profile document exists |
| AppStore.LoadUserDataDefaults | lib/appStore.tsx:118-179 | the loading defaults: attendance `{}`, items `[]`, note `''`, sku `''`, category `'General'`, unit `'Units'`, and the profile defaults |
| AppStore.SignIn | lib/appStore.tsx:264-274 | signing in loads the owner's data and sets the invoice counter to the number of invoices |
| AppStore.SignOut | lib/appStore.tsx:250-257 | signing out clears the uid, profile and every list |
| AppStore.SignupProfileRoundTrip | lib/appStore.tsx:314-326 | the signup document reads back as the default profile with the given name and email |
| AppStore.AddTransaction | lib/appStore.tsx:359-369 | without a uid nothing happens; otherwise the transaction `{ id, ...input }` (the input's kind, category, amount, date and note under the fresh id) goes to the front, the single write holds exactly that transaction, and nothing else changes |
| AppStore.AddTransactionRoundTrip | lib/appStore.tsx:363-368 | the written document reads back as the new transaction |
| AppStore.AddTransactionDashboard | lib/appStore.tsx:359-369 | total expenses grow by the amount exactly for an expense; invoice totals are unchanged |
| AppStore.InvoiceNoSpec | lib/appStore.tsx:377 | the number is `INV-` and at least three digits whose value is count + 1 |
| AppStore.InvoiceNoInjective | lib/appStore.tsx:377 | different counts give different numbers |
| AppStore.FirstInvoiceNo | lib/appStore.tsx:377 | the first invoice is `INV-001` |
| AppStore.AddInvoice | lib/appStore.tsx:373-391 | without a uid nothing happens; otherwise a Pending invoice is prepended with the next number, the input's client, date and items and the due date defaulted to the date, its document is the single write, and the counter grows by one; transactions, employees, inventory and profile stay |
| AppStore.AddInvoiceRoundTrip | lib/appStore.tsx:385-390 | the written document reads back as the new invoice |
| AppStore.AddInvoiceFreshNumber | lib/appStore.tsx:377-378 | the new number differs from every number given out before |
| AppStore.AddInvoiceDashboard | lib/appStore.tsx:373-391 | pending payments grow by the invoice total and revenue stays |
| AppStore.ToggleInvoiceStatus | lib/appStore.tsx:395-421 | without a uid or with an unknown id nothing happens; the list keeps its length and nothing but invoices and transactions changes |
| AppStore.ToggleInvoiceStatusSpec | lib/appStore.tsx:398-419 | only the target's status flips; Pending to Paid prepends one Income 'Client Payment' of the invoice total and writes both; Paid to Pending only patches the status |
| AppStore.ToggleTwice | lib/appStore.tsx:395-421 | toggling twice restores the invoices and leaves exactly one extra transaction for a known id |
| AppStore.SwitchStatusTotals | lib/appStore.tsx:186-194 | flipping one invoice moves its total between revenue and pending payments |
| AppStore.ToggleDashboard | lib/appStore.tsx:395-421 | a toggle moves the invoice total between revenue and pending payments and leaves expenses alone |
| AppStore.UpdateEmployees | lib/appStore.tsx:425-449 | the list is replaced either way; remote writes happen only with a uid |
| AppStore.EmployeeWritesCount | lib/appStore.tsx:432-448 | one write per new employee or changed attendance, none otherwise |
| AppStore.UnchangedEmployeesWriteNothing | lib/appStore.tsx:443 | an unchanged list causes no write |
| AppStore.EmployeeWritesSync | lib/appStore.tsx:432-448 | after the writes, the remote side holds every listed employee's attendance and keeps the other fields of existing ones; removed employees are not deleted |
| AppStore.EmployeeWritesKeepAgreement | lib/appStore.tsx:432-448 | when the remote attendance agreed with the old list, it agrees with the new one afterwards |
| AppStore.NewEmployeeRoundTrip | lib/appStore.tsx:436-439 | a new employee's document reads back as the employee |
| AppStore.UpdateInventory | lib/appStore.tsx:453-477 | the list is replaced either way; with a uid there is one write per item of the new list |
| AppStore.InventoryWritesSync | lib/appStore.tsx:460-476 | new items are written in full; existing ones get only quantity, selling price and reorder level; removed items are not deleted |
| AppStore.NewItemRoundTrip | lib/appStore.tsx:463-469 | a new item's document reads back as the item exactly when its category and unit are non-empty |
| AppStore.UpdateBusinessProfile | lib/appStore.tsx:481-487 | with a uid, the five business fields change and are patched; nothing else changes |
| AppStore.UpdatePreferences | lib/appStore.tsx:489-500 | with a uid, the four preference fields change and are patched; nothing else changes |
| AppStore.CompleteOnboarding | lib/appStore.tsx:342-355 | with a uid the patch is sent; on success the profile takes the business name, phone, GST and address and is marked onboarded, every other field kept; on failure nothing changes |
| AppStore.ProfileWritesAgree | lib/appStore.tsx:481-500 | the local profile after an update equals the remote document after the patch, read back (for preferences: iff the currency is non-empty) |
| AppStore.ResetBusinessData | lib/appStore.tsx:502-522 | with a uid the four collections are deleted; on success the four lists are empty and uid and profile are kept |
| AppStore.ResetStartsOver | lib/appStore.tsx:502-522 | after a reset the dashboard is all zeros and the next invoice is `INV-001` |
| StoreDashboard.ComputeDashboard | lib/appStore.tsx:186-219 | net profit is revenue minus expenses; revenue plus pending is the sum of all invoice totals; the pie sums to the expenses |
| StoreDashboard.RevenuePlusPending | app/invoices/page.tsx:45-46 | paid and pending totals add up to the sum of all invoice totals |
| StoreDashboard.TotalsAsSums | lib/appStore.tsx:187-194 | revenue, pending payments and expenses are the sums over paid invoices, pending invoices and expense transactions |
| StoreDashboard.ExpensePieSpec | lib/appStore.tsx:212-219 | one slice per distinct expense category, in first-seen order, valued at that category's spend, summing to total expenses |
| StoreDashboard.PieHasCategory | lib/appStore.tsx:212-219 | a name has a slice iff some expense carries that category |
| StoreDashboard.TallySpec | lib/appStore.tsx:212-215 | the running map's names are the distinct keys in first-seen order and each value is that key's sum |
| StoreDashboard.DedupSpec | lib/appStore.tsx:217 | the map's entries are distinct, the same set as the keys, in first-seen order |
| DashboardPage.FormatCurrencySpec | app/dashboard/page.tsx:23-26 | the text starts with `-` iff the amount is negative, then `₹`, then digits that read back as the magnitude |
| DashboardPage.FormatCurrencyInjective | app/dashboard/page.tsx:23-26 | different amounts are shown as different texts |
| DashboardPage.Last5 | app/dashboard/page.tsx:275 | the list has five entries, or all of them when there are fewer |
| DashboardPage.Last5Spec | app/dashboard/page.tsx:275 | the list is drawn from the transactions, newest first, and nothing left out is newer than anything shown |
| DashboardPage.TopClients | app/dashboard/page.tsx:342-351 | the ranking shows min(5, n) of the n clients with a paid invoice |
| DashboardPage.TopClientsLargest | app/dashboard/page.tsx:342-351 | the clients shown are drawn from the client map, and no client left out paid more than any client shown |
| DashboardPage.TopClientsOrdered | app/dashboard/page.tsx:342-351 | the ranking is largest first and each entry is what that client paid |
| DashboardPage.TopClientsDistinct | app/dashboard/page.tsx:342-351 | no client appears twice |
| DashboardPage.TopClientsFirstIsMax | app/dashboard/page.tsx:347-351 | the first client paid at least as much as any client with a paid invoice |
| DashboardPage.TopClientsEmpty | app/dashboard/page.tsx:342-351 | the ranking is empty iff no invoice is paid |
| DashboardPage.BarWidthSpec | app/dashboard/page.tsx:383 | a bar is at most 100 wide, and the largest is exactly 100 |
| Words.SplitJoin | app/dashboard/page.tsx:104-109 | the split pieces hold no separator and join back to the text |
| Words.InitialsSpec | app/dashboard/page.tsx:104-109 | the initials are the upper-cased first letters of the first two non-empty words |
| Words.SingleWordInitial | app/dashboard/page.tsx:104-109 | a name without spaces has its upper-cased first letter as its initial |
| InvoicesPage.AddItemSpec | app/invoices/page.tsx:27 | adding a row appends a blank row, keeps the total, and removing it again restores the list |
| InvoicesPage.RemoveItemSpec | app/invoices/page.tsx:28 | removing index i drops exactly that row and keeps the others in order; an index out of range removes nothing |
| InvoicesPage.RemoveItemTotal | app/invoices/page.tsx:11-13 | removing a row lowers the total by its line total |
| InvoicesPage.UpdateItemSpec | app/invoices/page.tsx:29-30 | only the named field of row i changes; the total moves by that row's change |
| InvoicesPage.UpdateItemOutside | app/invoices/page.tsx:29-30 | an index out of range changes nothing |
| InvoicesPage.CreateInvoiceNoOp | app/invoices/page.tsx:32-33 | the store changes iff the client is not white space only |
| InvoicesPage.CreateInvoiceSpec | app/invoices/page.tsx:32-43 | the new invoice goes in front with the trimmed, non-blank client and the defaulted due date; the form is back to one blank row and closed |
| InvoicesPage.CreateInvoiceItems | app/invoices/page.tsx:35-39 | the new invoice holds exactly the described rows, in order and each as often as in the form |
| Domain.InvoiceTotalConcat | app/invoices/page.tsx:11-13 | the total of two lists of rows joined is the sum of their totals |
| Domain.InvoiceTotalPermutation | app/invoices/page.tsx:11-13 | reordering the rows does not change the total |
| Domain.InvoiceTotalNonNegative | app/invoices/page.tsx:11-13 | with non-negative quantities and prices the total is non-negative |
| AttendancePage.MonthDaysSpec | app/attendance/page.tsx:12-21 | one key `YYYY-MM-DD` per day 1..n, strictly ascending |
| AttendancePage.DaysInMonth | app/attendance/page.tsx:14 | a month has 28 to 31 days |
| AttendancePage.ToggleSpec | app/attendance/page.tsx:39-48 | only that employee's entry for the date changes: present becomes absent, anything else present |
| AttendancePage.ToggleTwice | app/attendance/page.tsx:39-48 | toggling twice restores a marked entry, and turns an unmarked one absent |
| AttendancePage.ButtonsFlip | app/attendance/page.tsx:218-235 | pressing Absent for someone absent marks them present, and Present for someone present marks them absent |
| AttendancePage.MarkOneSpec | app/attendance/page.tsx:218-235 | the corrected buttons set the pressed mark for that employee only, and pressing again changes nothing |
| AttendancePage.MarkAllSpec | app/attendance/page.tsx:50-57 | every employee gets the mark for today, other dates and fields stay, and repeating changes nothing |
| AttendancePage.AddEmployeeSpec | app/attendance/page.tsx:59-75 | a blank name is a no-op; otherwise one employee is appended with the trimmed name, the defaulted role, no attendance and at most two initials |
| AttendancePage.GetStatsSpec | app/attendance/page.tsx:77-82 | present + absent is at most the working days; the share lies in 0..100, is 0 without working days and 100 when all are present |
| AttendancePage.RatingMonotone | app/attendance/page.tsx:321-322 | a higher share never rates lower, and full attendance rates Good |
| InventoryPage.Stats | app/inventory/page.tsx:31-37 | the low-stock count is at most the number of items |
| InventoryPage.StatsAppend | app/inventory/page.tsx:31-37 | one more item adds its quantity, its value and one to the low count exactly when it is low |
| InventoryPage.LowStockCountSpec | app/inventory/page.tsx:36-340 | the count is 0 iff no row shows Low, and the length iff every row does |
| InventoryPage.CoerceSpec | app/inventory/page.tsx:221-286 | a whole number's text coerces to itself; blank or invalid text coerces to 0 |
| InventoryPage.SaveItemBlank | app/inventory/page.tsx:63-65 | without a name or SKU nothing changes |
| InventoryPage.SaveItemEdit | app/inventory/page.tsx:66-69 | an edit replaces the fields of the item with that id from the form, trimmed, the form's own id winning; length and order are kept, and so are the ids for a form opened on that item |
| InventoryPage.SaveItemAdd | app/inventory/page.tsx:70-81 | an add appends one item with the trimmed form and the fresh id, unless the form carries an id of its own, which the spread keeps |
| InventoryPage.EditOfEmptyIdAppends | app/inventory/page.tsx:56-81 | an item whose id is empty is not edited: saving appends a copy that keeps the empty id |
| InventoryPage.EditWithoutChange | app/inventory/page.tsx:56-69 | saving an opened item without changes gives the list back |
| TransactionsPage.AmountRejectedSpec | app/transactions/page.tsx:30 | an amount is accepted iff it is a number above 0 |
| TransactionsPage.OpenFormSpec | app/transactions/page.tsx:111-117 | switching type sets the type's first category and keeps the other fields |
| TransactionsPage.SubmitTransactionSpec | app/transactions/page.tsx:29-40 | a rejected amount is a no-op; otherwise one transaction with the form's type, category, date and trimmed note is prepended and the form resets |
| TransactionsPage.MonthFilterSpec | app/transactions/page.tsx:42-48 | `All` gives the list itself; a month gives the subsequence of that month's transactions, each as often as in the list |
| TransactionsPage.FiguresSpec | app/transactions/page.tsx:50-52 | income and expense split the filtered amounts and net is their difference; over all months the expense figure is the dashboard's |
| TransactionsPage.NetLabelSpec | app/transactions/page.tsx:79 | the label starts with `+` iff net is at least 0, `-` otherwise, and its digits read back as the magnitude |
| ExpensesPage.ExpensesSpec | app/expenses/page.tsx:27 | the list holds exactly the expense transactions, in order and as often as they occur |
| ExpensesPage.ExpenseTotalSpec | app/expenses/page.tsx:29-35 | over all months the total is the dashboard's expenses; a month never totals more |
| ExpensesPage.SaveExpenseSpec | app/expenses/page.tsx:37-50 | a rejected amount is a no-op; otherwise an Expense of that amount is added and total expenses grow by it |
| OnboardingPage.RunKeepsReachable | app/onboarding/page.tsx:31-194 | along any run of events the step stays in 0..2, and a finish carries a non-blank name and an upper-cased GST |
| OnboardingPage.ApplyKeepsReachable | app/onboarding/page.tsx:31-194 | one event keeps the wizard reachable; a finish happens only after step 0 and carries the wizard's fields |
| OnboardingPage.StartReachable | app/onboarding/page.tsx:43 | the first step cannot proceed with an empty name |
| OnboardingPage.NextMoves | app/onboarding/page.tsx:31-34 | Next moves one step forward, and finishes on the last step |
| OnboardingPage.BackMoves | app/onboarding/page.tsx:169-194 | Back moves one step back; on step 0 neither Back nor Skip does anything |
| OnboardingPage.RedirectSpec | app/onboarding/page.tsx:25-29 | the page stays open iff not ready, or signed in without completed onboarding; signed out goes to `/` |
| OnboardingPage.FinishCompletesOnboarding | app/onboarding/page.tsx:36-41 | finishing completes the profile with the business name, after which the page redirects to the dashboard |
| SignupPage.CheckSignupSpec | app/signup/page.tsx:28-30 | signup is called iff all fields are non-blank, the passwords match and are at least 6 UTF-16 code units long; blank fields win over the other errors |
| SignupPage.PaddedPasswordPasses | app/signup/page.tsx:30 | the length rule counts the untrimmed password |
| SignupPage.AstralPasswordPasses | app/signup/page.tsx:30 | three emoji make a six-unit password, which passes the length rule |
| SignupPage.HandleSignupSpec | app/signup/page.tsx:25-39 | the spinner stays only after a successful call; a failed call shows its error or `Sign up failed.` |
| LoginPage.HandleLoginSpec | app/page.tsx:23-32 | login is called iff neither field is empty (untrimmed); only success navigates to the dashboard; a failure shows its error or `Login failed.` |
| LoginPage.AuthRedirectSpec | app/page.tsx:18-21 | once ready, a signed-in user is sent to the dashboard |
| SupportPage.HandleSubmitSpec | app/support/page.tsx:18-41 | a request is written iff all three fields are non-blank, trimmed, with the user id; name and email stay, and the message clears only on success |
| Sidebar.ActiveIffSegment | components/layout/Sidebar.tsx:63 | a one-segment href is active iff it is the path's first segment |
| Sidebar.InvoicesExamples | components/layout/Sidebar.tsx:63 | `/invoices` and `/invoices/42` activate `/invoices`, `/invoicesX` does not |
| Sidebar.NavItemsShape | components/layout/Sidebar.tsx:19-27 | every nav href is one segment and they are distinct |
| Sidebar.AtMostOneActive | components/layout/Sidebar.tsx:19-63 | at most one nav item is active for any path |
| Sidebar.LogoutEffects | components/layout/Sidebar.tsx:83-87 | logout first requests the sign-out, then navigates to `/`, then closes the menu |
| Sidebar.LogoutClickKeepsSession | lib/appStore.tsx:336-338 | the un-awaited sign-out leaves the store's user in place through every effect of the click, so a signed-in user reaches `/` still signed in and the sign-in page sends them to the dashboard |
| Sidebar.LogoutSettlesSignedOut | lib/appStore.tsx:264-273 | once the auth listener reports no user, logout has ended signed out on `/` with the menu closed, and the sign-in page no longer redirects |
| ServiceWorker.RouteSpec | public/sw.js:55-122 | each route holds exactly under its conditions: cross-origin is never handled, the static prefix is checked before extensions, navigations come next, the rest passes through |
| ServiceWorker.RouteExamples | public/sw.js:63-99 | a static `.png` is routed as static; the manifest and `.woff2` count as assets and `.pngx` does not |
| ServiceWorker.PutSpec | public/sw.js:69-72 | a put changes only that URL's entry in the current cache |
| ServiceWorker.PutThenMatch | public/sw.js:69-72 | an uncached URL matches the stored response after a put |
| ServiceWorker.HandleFetchSpec | public/sw.js:55-122 | only foreign and pass-through requests go unanswered; storage changes only by putting an ok response; cache-first answers from the cache when it can |
| ServiceWorker.NavigationSpec | public/sw.js:102-118 | a navigation answers with the network response, storing it exactly when ok so that a later offline visit gets it; on a network error the cached request, else the cached `/` |
| ServiceWorker.AddAllSpec | public/sw.js:32 | each ok shell response is cached and failed ones are skipped without failing the rest |
| ServiceWorker.InstallSpec | public/sw.js:27-36 | after install the current cache exists even if every fetch failed, and every shell URL whose fetch was ok is in it |
| ServiceWorker.InstallKeepsOthers | public/sw.js:27-36 | install changes no entry but the shell pages that loaded |
| ServiceWorker.ActivateSpec | public/sw.js:39-52 | only the current cache survives, its entries unchanged, and activating again changes nothing |
| ServiceWorker.SyncRequestReachesEveryWindow | public/sw.js:127-137 | the tag the page registers makes every open window receive, once, the message the page answers with a sync; any other tag reaches no window |
| EnvFile.ParseLineNone | test-supabase.mjs:16-20 | a line sets nothing iff it is blank, starts with `#`, has no `=` or starts with `=` |
| EnvFile.ParseLineDefines | test-supabase.mjs:19-21 | `k=v` defines the trimmed key with the trimmed rest, `=` signs in the value included |
| EnvFile.ParseLineKey | test-supabase.mjs:19-20 | a defined key is non-empty and holds no `=` |
| EnvFile.EmptyValue | test-supabase.mjs:19-21 | `KEY=` sets KEY to the empty string |
| EnvFile.ApplyUntouched | test-supabase.mjs:21 | a key no line defines keeps its value or its absence |
| EnvFile.ApplyLastWins | test-supabase.mjs:21 | the last definition of a key wins |
| I18n.TranslateFromTables | lib/i18n.tsx:207-211 | when English holds every key, a key some table holds is never shown raw, and a language with every English key never falls back |
| I18n.MissingKeyShowsEnglish | lib/i18n.tsx:207-211 | a key missing in the language shows as in English |
| I18n.InitialLangSpec | lib/i18n.tsx:181-187 | the stored language if it names a table, else `en` |
| I18n.SetLangPersists | lib/i18n.tsx:189-194 | the new language is the state and is stored under `synplix-language`, where the next start reads it back; other keys stay |
| I18n.OnStorageSpec | lib/i18n.tsx:198-202 | the language changes only for the language key with a value naming a table |
| I18n.ToStringAccepted | lib/i18n.tsx:184-199 | the code as written accepts `toString`, which names no table |
| I18n.CorrectedAgrees | lib/i18n.tsx:181-202 | the corrected start-up choice and storage handler agree with the written ones on every value that is not an object prototype name |
| ExportExcel.ExportSheetNames | lib/exportExcel.ts:20-105 | the four data sheets appear, in order, only when their lists are non-empty; Settings always comes last |
| ExportExcel.ExportSheetRows | lib/exportExcel.ts:92-105 | Settings has exactly one row and no sheet is empty |
| ExportExcel.FlatRowsCount | lib/exportExcel.ts:33-52 | the invoice sheet has the sum of max(1, items) rows |
| ExportExcel.InvoiceRowsSpec | lib/exportExcel.ts:33-52 | every row carries the invoice's base fields; one row per item with LineTotal = qty × price, or one placeholder; the line totals sum to the invoice total |
| ExportExcel.FlatRowsTotal | lib/exportExcel.ts:50 | the LineTotal column sums to the sum of invoice totals |
| ExportExcel.TxRowRoundTrip | lib/exportExcel.ts:58-69 | a transaction row reads back as the transaction |
| ExportExcel.EmployeeRowDropsAttendance | lib/exportExcel.ts:20-29 | an employee row has four columns and does not depend on attendance |
| ExportExcel.SettingsRowSpec | lib/exportExcel.ts:92-105 | booleans show as On/Off; two-factor, the name and the onboarding flag are not exported |

## Left out

- Firestore, Dexie/IndexedDB and Firebase Auth are abstract maps and operations. There are no SDK semantics, retries or batching. Remote outcomes are the `failAt` input for the push, an `ok` flag for the store's writes, and a snapshot for fetches.
- Concurrency is not modelled: each operation is one atomic step. This covers `Promise.all`, overlapping passes, React batching, refs and stale closures.
- The clock and calendar are parameters: timestamps, today's date, the working-day set and the month name of a date. The six-month chart buckets of `computeDashboard` (lib/appStore.tsx:196-210) are not modelled.
- Floating point: amounts, prices and quantities are integers. `Math.round` of a ratio is integer half-up rounding.
- `Number(text)` is modelled for an optional sign and decimal digits only; fractions and exponents are left out.
- `toLocaleString('en-IN')` digit grouping and `localeCompare` are library behaviour. Amounts print as plain digits, and dates compare as ASCII strings.
- Id generation (`crypto.randomUUID`, `Date.now`) becomes fresh-id parameters.
- The Firebase error-message cleanup in login and signup (lib/appStore.tsx:305,330) is left out: the store's message is a parameter.
- `deleteCurrentAccount` and the Firebase side of logout are left out. Logout is the effect order in `Sidebar.LogoutEffects`, then the auth listener's `AppStore.SignOut` as a separate later event (`Sidebar.AuthSignedOut`). The bounce back from `/dashboard` by the app layout is not modelled.
- The theme written to `localStorage` by `updatePreferences` (lib/appStore.tsx:495-499) is left out. It is a UI side effect.
- In the service worker, the push and notification handlers are left out, as are the asynchronous ordering of cache puts and query strings in cache keys.
- The XLSX workbook writing and the download are left out. So are the PDF export, the Supabase client and the service-worker registration.
- The network probing in test-supabase.mjs is left out; only the line parser is modelled.
- The translation tables are a parameter rather than their literal contents.
- The saving flags and spinners are modelled only where the page logic depends on them (signup, support).
- SyncEngine.LoadFromLocal: the owner index's order is by id, and the sort is stable, so rows with equal keys keep id order. Dexie's `sortBy` tie order is assumed to be the same.
- TransactionsPage.SubmitTransaction: requires the amount text to be empty or a number, which the browser's number input guarantees. The same holds for `ExpensesPage.SaveExpense`.
- InventoryPage.SaveItem: an editing id of `''` counts as "no editing id", as the app's `if (editingId)` does, and the form's copied id then survives the add (`EditOfEmptyIdAppends`). The page's default unit is `'Unit'` while the store's load default is `'Units'`; both are modelled as written.
- Words.InitialsSpec: `toUpperCase` is modelled for the ASCII, Latin-1, basic Greek and basic Cyrillic letters only, and `ß` stays one character where JavaScript gives `SS`. `w[0]` and `.slice(0, 2)` count UTF-16 code units, so a word starting outside the Basic Multilingual Plane gives half a surrogate pair in the app and the whole character in the model.
- Words.SingleWordInitial: the same upper-case coverage as `Words.InitialsSpec`.
- AttendancePage.AddEmployeeSpec: the avatar initials share the upper-case and UTF-16 limits of `Words.InitialsSpec`.
- OnboardingPage.RunKeepsReachable: "upper-cased GST" means upper case as `Common.UpperChar` covers it; letters outside its scripts are kept as typed.
- OnboardingPage.ApplyKeepsReachable: the same upper-case coverage as `OnboardingPage.RunKeepsReachable`.
- AppStore.LoadUserDataDefaults: a missing employee name, role or avatar reads as `''`; the store leaves it `undefined`, which a model string cannot hold.
- AppStore.UnchangedEmployeesWriteNothing: attendance maps are compared by value. The store compares `JSON.stringify` texts, which also differ for equal maps built in another key order, so the store can write where the model does not.
- AppStore.EmployeeWritesCount: counts one write per new employee or attendance map that differs by value. The store compares `JSON.stringify` texts, so an equal map whose keys were inserted in another order also gets a write, and the store can make more writes than this count.
- AppStore.ToggleInvoiceStatus: the payment's date is the `today` parameter, standing for the ISO date cut at `T`.

## Findings

| source | as written | input that shows it | evidently intended | confidence | as-written member | corrected member |
|---|---|---|---|---|---|---|
| lib/syncEngine.ts:122,143,154,168 | the bulk put of the snapshot replaces local rows by id, including rows still pending | a pending employee edit whose id is also in the remote snapshot | pending local edits survive a refresh until they are pushed | medium, not executed | SyncEngine.FetchOverwritesPending | SyncEngine.FetchKeepingPendingKeepsEdits |
| lib/syncEngine.ts:124-125 | the invoice merge snapshot is read after the synced rows are deleted, although the comment says before | a synced invoice whose remote document has no `items` field | the merge falls back to the local invoice's items | high, not executed | SyncEngine.FetchLosesSyncedInvoiceItems | SyncEngine.FetchKeepingPendingMergesInvoices |
| lib/syncEngine.ts:170-184 | the remote profile overwrites the local one even while it is pending | a pending profile and an existing remote profile document | a pending profile is kept until it is pushed | medium, not executed | SyncEngine.FetchOverwritesPendingProfile | SyncEngine.FetchKeepingPendingKeepsEdits |
| lib/i18n.tsx:184,199 | `stored in translations` also accepts the names of Object.prototype | a stored language `toString` | only the codes of the translation tables are accepted | high, not executed | I18n.ToStringAccepted | I18n.InitialLangSpec |
| app/attendance/page.tsx:218,235 | the Absent button calls the same toggle as Present | pressing Absent for an employee already absent today | the Absent button marks absent | medium, not executed | AttendancePage.ButtonsFlip | AttendancePage.MarkOneSpec |
