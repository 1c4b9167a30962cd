/** The application store: the signed-in owner's lists held in memory, the
    mutations the pages call, and the remote writes each mutation issues.
    Every mutation is a pure step from the state to the next state plus the
    writes, in the order they are issued. The remote store is written
    directly (not through the sync engine); the outcome of a write that is
    fired and forgotten does not affect the state, and the few awaited writes
    take their outcome as a parameter. */
module AppStore {
  import opened Common
  import opened Domain
  import opened LocalDb
  import opened Remote
  import opened StoreDashboard

  // ---------------------------------------------------------------------------
  // State and writes
  // ---------------------------------------------------------------------------

  datatype BusinessInfo = BusinessInfo(businessName: string, email: string, phone: string, gst: string, address: string)

  datatype Preferences = Preferences(emailNotifications: bool, darkMode: bool, currency: string, twoFactorAuth: bool)

  datatype OnboardingInfo = OnboardingInfo(businessName: string, phone: string, gst: string, address: string)

  /** One remote write of the store: a document write of the same shape the
      sync engine issues, the creation of the owner's profile document, one of
      the partial updates only the store makes, or the deletion of a whole
      collection. */
  datatype AppWrite =
    | Shared(w: Write)
    | CreateProfile(uid: Uid, doc: ProfileDoc)
    | PatchAttendance(id: Id, attendance: Attendance)
    | PatchStock(id: Id, currentQty: int, sellingPrice: int, reorderLevel: int)
    | PatchBusiness(info: BusinessInfo)
    | PatchPreferences(prefs: Preferences)
    | PatchOnboarding(onboarding: OnboardingInfo)
    | DeleteCollection(name: string)

  /** The signed-in owner (if any), the profile and the four lists, and the
      counter the next invoice number is taken from. */
  datatype AppState = AppState(
    uid: Option<Uid>,
    profile: Option<Profile>,
    employees: seq<Employee>,
    invoices: seq<Invoice>,
    transactions: seq<Transaction>,
    inventory: seq<InventoryItem>,
    invoiceCount: nat)

  /** The counter tracks the length of the invoice list. */
  predicate Valid(s: AppState) {
    s.invoiceCount == |s.invoices|
  }

  datatype Step = Step(state: AppState, writes: seq<AppWrite>)

  // ---------------------------------------------------------------------------
  // Lookup by id
  // ---------------------------------------------------------------------------

  function EmployeeId(e: Employee): Id { e.id }
  function InvoiceId(inv: Invoice): Id { inv.id }
  function ItemId(it: InventoryItem): Id { it.id }

  /** `xs.find(x => key(x) === id)`, as the position of the first match. */
  function Find<T>(xs: seq<T>, key: T -> Id, id: Id): (r: Option<nat>)
    ensures r.Some? ==> r.value < |xs| && key(xs[r.value]) == id
    ensures r.Some? ==> forall j :: 0 <= j < r.value ==> key(xs[j]) != id
    ensures r.None? ==> forall j :: 0 <= j < |xs| ==> key(xs[j]) != id
  {
    if xs == [] then None
    else if key(xs[0]) == id then Some(0)
    else match Find(xs[1..], key, id)
      case None => None
      case Some(k) => Some(k + 1)
  }

  /** `new Set(xs.map(key))`. */
  function KeySet<T>(xs: seq<T>, key: T -> Id): set<Id> {
    set i | 0 <= i < |xs| :: key(xs[i])
  }

  predicate UniqueKeys<T>(xs: seq<T>, key: T -> Id) {
    forall i, j :: 0 <= i < j < |xs| ==> key(xs[i]) != key(xs[j])
  }

  /** An id is in the key set exactly when the search finds it; with unique
      keys the search finds the element itself. */
  lemma FindSpec<T>(xs: seq<T>, key: T -> Id, id: Id)
    ensures Find(xs, key, id).Some? <==> id in KeySet(xs, key)
    ensures UniqueKeys(xs, key) ==> forall i :: 0 <= i < |xs| && key(xs[i]) == id ==> Find(xs, key, id) == Some(i)
  {
    if Find(xs, key, id).Some? {
      var k := Find(xs, key, id).value;
      assert key(xs[k]) in KeySet(xs, key);
    }
  }

  // ---------------------------------------------------------------------------
  // Loading the owner's data
  // ---------------------------------------------------------------------------

  datatype UserData = UserData(
    employees: seq<Employee>,
    invoices: seq<Invoice>,
    transactions: seq<Transaction>,
    inventory: seq<InventoryItem>,
    profile: Option<Profile>)

  /** An employee document as the store reads it: a missing attendance map
      reads as empty, and a missing name, role or avatar as the empty
      string. */
  function LoadedEmployee(d: Doc<EmployeeDoc>): Employee {
    Employee(d.id, Coalesce(d.data.name, ""), Coalesce(d.data.role, ""),
             Coalesce(d.data.avatar, ""), Coalesce(d.data.attendance, map[]))
  }

  /** An invoice document as the store reads it: missing items read as none. */
  function LoadedInvoice(d: Doc<InvoiceDoc>): Invoice {
    Invoice(d.id, d.data.invoiceNo, d.data.client, d.data.date, d.data.dueDate,
            Coalesce(d.data.items, []), d.data.status)
  }

  /** The owner's data read from the five queries, each list in the order its
      query returns it, one entry per document. */
  function LoadUserData(uid: Uid, snap: Snapshot): (d: UserData)
    ensures |d.employees| == |snap.employees| && |d.invoices| == |snap.invoices|
    ensures |d.transactions| == |snap.transactions| && |d.inventory| == |snap.inventory|
    ensures forall i :: 0 <= i < |snap.employees| ==> d.employees[i].id == snap.employees[i].id
    ensures forall i :: 0 <= i < |snap.invoices| ==> d.invoices[i].id == snap.invoices[i].id
    ensures forall i :: 0 <= i < |snap.transactions| ==> d.transactions[i].id == snap.transactions[i].id
    ensures forall i :: 0 <= i < |snap.inventory| ==> d.inventory[i].id == snap.inventory[i].id
    ensures d.profile.Some? <==> snap.profile.Some?
  {
    UserData(
      seq(|snap.employees|, i requires 0 <= i < |snap.employees| => LoadedEmployee(snap.employees[i])),
      seq(|snap.invoices|, i requires 0 <= i < |snap.invoices| => LoadedInvoice(snap.invoices[i])),
      seq(|snap.transactions|, i requires 0 <= i < |snap.transactions| =>
        FetchedTransaction(snap.transactions[i].id, snap.transactions[i].data)),
      seq(|snap.inventory|, i requires 0 <= i < |snap.inventory| =>
        InventoryItemOf(snap.inventory[i].id, snap.inventory[i].data)),
      match snap.profile
      case Some(p) => Some(FetchedProfile(uid, p))
      case None => None)
  }

  /** The defaults the loader fills in: missing attendance reads as empty,
      missing items as none, a missing or empty note as '', an empty SKU as
      '', category as 'General', unit as 'Units', and a profile's missing
      currency as 'INR' with notifications and dark mode on and two-factor
      and onboarding off. */
  lemma LoadUserDataDefaults(uid: Uid, snap: Snapshot)
    ensures var d := LoadUserData(uid, snap);
            && (forall i :: 0 <= i < |snap.employees| && snap.employees[i].data.attendance.None? ==>
                  d.employees[i].attendance == map[])
            && (forall i :: 0 <= i < |snap.invoices| && snap.invoices[i].data.items.None? ==>
                  d.invoices[i].items == [])
            && (forall i :: 0 <= i < |snap.transactions| && (snap.transactions[i].data.note.None? || snap.transactions[i].data.note.value == "") ==>
                  d.transactions[i].note == "")
            && (forall i :: 0 <= i < |snap.inventory| && (snap.inventory[i].data.sku.None? || snap.inventory[i].data.sku.value == "") ==>
                  d.inventory[i].sku == "")
            && (forall i :: 0 <= i < |snap.inventory| && (snap.inventory[i].data.category.None? || snap.inventory[i].data.category.value == "") ==>
                  d.inventory[i].category == "General")
            && (forall i :: 0 <= i < |snap.inventory| && (snap.inventory[i].data.unit.None? || snap.inventory[i].data.unit.value == "") ==>
                  d.inventory[i].unit == "Units")
            && (snap.profile.Some? ==>
                  var p := d.profile.value;
                  var doc := snap.profile.value;
                  && p.id == uid
                  && (doc.currency.None? || doc.currency.value == "" ==> p.currency == "INR")
                  && (doc.emailNotifications.None? ==> p.emailNotifications)
                  && (doc.darkMode.None? ==> p.darkMode)
                  && (doc.twoFactorAuth.None? ==> !p.twoFactorAuth)
                  && (doc.onboardingComplete.None? ==> !p.onboardingComplete))
  {
  }

  /** The signed-out state: no owner, no profile, empty lists. */
  const SignedOut: AppState := AppState(None, None, [], [], [], [], 0)

  /** The auth listener reporting an owner: the owner is recorded and the
      lists are replaced by the loaded ones, the counter set to the number of
      invoices. */
  function SignIn(uid: Uid, snap: Snapshot): (s: AppState)
    ensures Valid(s) && s.uid == Some(uid)
    ensures |s.invoices| == |snap.invoices| && |s.employees| == |snap.employees|
    ensures s.profile.Some? <==> snap.profile.Some?
  {
    var d := LoadUserData(uid, snap);
    AppState(Some(uid), d.profile, d.employees, d.invoices, d.transactions, d.inventory, |d.invoices|)
  }

  /** The auth listener reporting no owner: everything is cleared. */
  function SignOut(s: AppState): (r: AppState)
    ensures Valid(r) && r.uid.None? && r.profile.None?
    ensures r.employees == [] && r.invoices == [] && r.transactions == [] && r.inventory == []
  {
    SignedOut
  }

  /** The profile document signup creates for a new owner. */
  function SignupProfileDoc(name: string, email: string): ProfileDoc {
    ProfileDoc(Some(name), Some(""), Some(email), Some(""), Some(""), Some(""), Some("INR"),
               Some(true), Some(true), Some(false), Some(false))
  }

  /** Read back, the signup document is the new owner's default profile. */
  lemma SignupProfileRoundTrip(uid: Uid, name: string, email: string)
    ensures FetchedProfile(uid, SignupProfileDoc(name, email))
            == Profile(uid, name, "", email, "", "", "", "INR", true, true, false, false)
  {
  }

  // ---------------------------------------------------------------------------
  // addTransaction
  // ---------------------------------------------------------------------------

  datatype TxInput = TxInput(kind: TxType, category: string, amount: int, date: string, note: string)

  function NewTransaction(id: Id, input: TxInput): Transaction {
    Transaction(id, input.kind, input.category, input.amount, input.date, input.note)
  }

  /** Without an owner nothing happens; otherwise the transaction gets the
      fresh id, goes to the front of the list and is written under that id. */
  function AddTransaction(s: AppState, input: TxInput, id: Id): (r: Step)
    ensures s.uid.None? ==> r == Step(s, [])
    ensures s.uid.Some? ==> |r.state.transactions| == |s.transactions| + 1
                            && r.state.transactions[1..] == s.transactions
                            && r.state.transactions[0] == Transaction(id, input.kind, input.category, input.amount, input.date, input.note)
                            && r.writes == [Shared(SetTransaction(id, TransactionPayload(r.state.transactions[0])))]
    ensures r.state.invoices == s.invoices && r.state.employees == s.employees
    ensures r.state.inventory == s.inventory && r.state.profile == s.profile
    ensures Valid(s) ==> Valid(r.state)
  {
    if s.uid.None? then Step(s, [])
    else
      var tx := NewTransaction(id, input);
      Step(s.(transactions := [tx] + s.transactions), [Shared(SetTransaction(id, TransactionPayload(tx)))])
  }

  /** The written document, read back by the loader, is the transaction the
      list gained. */
  lemma AddTransactionRoundTrip(s: AppState, input: TxInput, id: Id)
    requires s.uid.Some?
    ensures var r := AddTransaction(s, input, id);
            r.writes[0].Shared? && r.writes[0].w.SetTransaction?
            && FetchedTransaction(r.writes[0].w.id, r.writes[0].w.transaction) == r.state.transactions[0]
  {
  }

  /** An added expense raises the total expenses by its amount; an added
      income leaves them as they were. Revenue and pending payments do not
      move. */
  lemma AddTransactionDashboard(s: AppState, input: TxInput, id: Id)
    requires s.uid.Some?
    ensures var r := AddTransaction(s, input, id).state;
            && TotalExpenses(r.transactions) == TotalExpenses(s.transactions) + (if input.kind == Expense then input.amount else 0)
            && TotalRevenue(r.invoices) == TotalRevenue(s.invoices)
            && PendingPayments(r.invoices) == PendingPayments(s.invoices)
  {
    var r := AddTransaction(s, input, id).state;
    TotalsAsSums(s.invoices, s.transactions);
    TotalsAsSums(r.invoices, r.transactions);
    SumCons(r.transactions[0], s.transactions, ExpenseAmount);
  }

  // ---------------------------------------------------------------------------
  // addInvoice
  // ---------------------------------------------------------------------------

  datatype InvoiceInput = InvoiceInput(client: string, date: string, dueDate: string, items: seq<InvoiceItem>)

  /** "INV-" followed by count + 1, left-padded with zeros to three digits. */
  function InvoiceNo(count: nat): string {
    "INV-" + PadStart(NatToString(count + 1), 3, '0')
  }

  /** The number's suffix is at least three decimal digits whose value is
      count + 1. */
  lemma InvoiceNoSpec(count: nat)
    ensures var no := InvoiceNo(count);
            var suffix := no[4..];
            && no[..4] == "INV-" && |suffix| >= 3 && AllDigits(suffix)
            && DigitsValue(suffix) == count + 1
  {
    var d := NatToString(count + 1);
    var suffix := InvoiceNo(count)[4..];
    assert suffix == PadStart(d, 3, '0');
    DigitsValueOfNatToString(count + 1);
    if |d| < 3 {
      DigitsValueLeadingZeros(3 - |d|, d);
    }
  }

  /** Different counts give different numbers. */
  lemma InvoiceNoInjective(a: nat, b: nat)
    requires a != b
    ensures InvoiceNo(a) != InvoiceNo(b)
  {
    InvoiceNoSpec(a);
    InvoiceNoSpec(b);
  }

  lemma FirstInvoiceNo()
    ensures InvoiceNo(0) == "INV-001"
  {
  }

  function DueOrDate(input: InvoiceInput): string {
    if input.dueDate == "" then input.date else input.dueDate
  }

  /** The remote document of a new invoice. */
  function NewInvoiceDoc(no: string, input: InvoiceInput, now: string): InvoiceDoc {
    InvoiceDoc(no, input.client, input.date, DueOrDate(input), InvoiceStatus.Pending,
               Some(input.items), None, None, None, Some(now))
  }

  /** Without an owner nothing happens; otherwise a pending invoice numbered
      from the counter goes to the front of the list, the counter grows by
      one and the invoice document is written. */
  function AddInvoice(s: AppState, input: InvoiceInput, id: Id, now: string): (r: Step)
    ensures s.uid.None? ==> r == Step(s, [])
    ensures s.uid.Some? ==>
              && |r.state.invoices| == |s.invoices| + 1 && r.state.invoices[1..] == s.invoices
              && r.state.invoiceCount == s.invoiceCount + 1
              && var inv := r.state.invoices[0];
                 && inv.id == id && inv.invoiceNo == InvoiceNo(s.invoiceCount)
                 && inv.client == input.client && inv.date == input.date
                 && inv.status == InvoiceStatus.Pending && inv.items == input.items
                 && inv.dueDate == (if input.dueDate == "" then input.date else input.dueDate)
                 && r.writes == [Shared(SetInvoice(id, NewInvoiceDoc(inv.invoiceNo, input, now)))]
    ensures r.state.transactions == s.transactions && r.state.employees == s.employees
    ensures r.state.inventory == s.inventory && r.state.profile == s.profile
    ensures Valid(s) ==> Valid(r.state)
  {
    if s.uid.None? then Step(s, [])
    else
      var no := InvoiceNo(s.invoiceCount);
      var inv := Invoice(id, no, input.client, input.date, DueOrDate(input), input.items, InvoiceStatus.Pending);
      Step(s.(invoices := [inv] + s.invoices, invoiceCount := s.invoiceCount + 1),
           [Shared(SetInvoice(id, NewInvoiceDoc(no, input, now)))])
  }

  /** The written document, read back by the loader, is the invoice the list
      gained. */
  lemma AddInvoiceRoundTrip(s: AppState, input: InvoiceInput, id: Id, now: string)
    requires s.uid.Some?
    ensures var r := AddInvoice(s, input, id, now);
            r.writes[0].Shared? && r.writes[0].w.SetInvoice?
            && LoadedInvoice(Doc(r.writes[0].w.id, r.writes[0].w.invoice)) == r.state.invoices[0]
  {
  }

  /** In a valid state, successive invoices get distinct numbers: the new
      number differs from every number the counter has handed out before. */
  lemma AddInvoiceFreshNumber(s: AppState, input: InvoiceInput, id: Id, now: string, earlier: nat)
    requires s.uid.Some? && earlier < s.invoiceCount
    ensures AddInvoice(s, input, id, now).state.invoices[0].invoiceNo != InvoiceNo(earlier)
  {
    InvoiceNoInjective(s.invoiceCount, earlier);
  }

  /** A new invoice is pending: pending payments grow by its total and
      revenue does not move. */
  lemma AddInvoiceDashboard(s: AppState, input: InvoiceInput, id: Id, now: string)
    requires s.uid.Some?
    ensures var r := AddInvoice(s, input, id, now).state;
            && PendingPayments(r.invoices) == PendingPayments(s.invoices) + InvoiceTotal(input.items)
            && TotalRevenue(r.invoices) == TotalRevenue(s.invoices)
  {
    var r := AddInvoice(s, input, id, now).state;
    TotalsAsSums(s.invoices, s.transactions);
    TotalsAsSums(r.invoices, r.transactions);
    SumCons(r.invoices[0], s.invoices, UnpaidAmount);
    SumCons(r.invoices[0], s.invoices, PaidAmount);
  }

  // ---------------------------------------------------------------------------
  // toggleInvoiceStatus
  // ---------------------------------------------------------------------------

  function Flip(st: InvoiceStatus): (r: InvoiceStatus)
    ensures r != st
  {
    if st == Paid then InvoiceStatus.Pending else Paid
  }

  /** Every invoice with the id takes the status. */
  function WithStatus(invs: seq<Invoice>, id: Id, st: InvoiceStatus): (r: seq<Invoice>)
    ensures |r| == |invs|
  {
    seq(|invs|, i requires 0 <= i < |invs| => if invs[i].id == id then invs[i].(status := st) else invs[i])
  }

  /** The income recorded when an invoice is marked paid. */
  function PaymentTransaction(inv: Invoice, txId: Id, today: string): Transaction {
    Transaction(txId, Income, "Client Payment", InvoiceTotal(inv.items), today,
                inv.invoiceNo + " \U{2014} " + inv.client)
  }

  /** Without an owner, or for an id no invoice has, nothing happens.
      Otherwise the first invoice with the id decides the new status (the
      other one of Paid and Pending), every invoice with the id takes it, the
      status patch is written, and a Pending -> Paid switch also records the
      payment as an income at the front of the transactions and writes it. */
  function ToggleInvoiceStatus(s: AppState, id: Id, txId: Id, today: string): (r: Step)
    ensures s.uid.None? || Find(s.invoices, InvoiceId, id).None? ==> r == Step(s, [])
    ensures r.state.uid == s.uid && r.state.profile == s.profile && r.state.employees == s.employees
    ensures r.state.inventory == s.inventory && r.state.invoiceCount == s.invoiceCount
    ensures |r.state.invoices| == |s.invoices|
    ensures Valid(s) ==> Valid(r.state)
  {
    if s.uid.None? then Step(s, [])
    else match Find(s.invoices, InvoiceId, id)
      case None => Step(s, [])
      case Some(k) =>
        var target := s.invoices[k];
        var next := Flip(target.status);
        var invs := WithStatus(s.invoices, id, next);
        var patch := Shared(PatchInvoiceStatus(id, next));
        if target.status == Paid then
          Step(s.(invoices := invs), [patch])
        else
          var tx := PaymentTransaction(target, txId, today);
          Step(s.(invoices := invs, transactions := [tx] + s.transactions),
               [patch, Shared(SetTransaction(txId, TransactionPayload(tx)))])
  }

  /** For a known id: the invoices with that id switch to the other status,
      all others stay; marking paid adds exactly the payment income (the
      invoice total, noted with number and client) and writes the patch then
      the income; marking pending adds nothing and writes only the patch. */
  lemma ToggleInvoiceStatusSpec(s: AppState, id: Id, txId: Id, today: string, k: nat)
    requires s.uid.Some? && Find(s.invoices, InvoiceId, id) == Some(k)
    ensures var r := ToggleInvoiceStatus(s, id, txId, today);
            var target := s.invoices[k];
            && (forall i :: 0 <= i < |s.invoices| && s.invoices[i].id != id ==> r.state.invoices[i] == s.invoices[i])
            && (forall i :: 0 <= i < |s.invoices| && s.invoices[i].id == id ==>
                  r.state.invoices[i] == s.invoices[i].(status := Flip(target.status)))
            && r.state.invoices[k].status != target.status
            && (target.status == InvoiceStatus.Pending ==>
                  && r.state.transactions == [PaymentTransaction(target, txId, today)] + s.transactions
                  && r.state.transactions[0].kind == Income
                  && r.state.transactions[0].amount == InvoiceTotal(target.items)
                  && r.writes == [Shared(PatchInvoiceStatus(id, Paid)),
                                  Shared(SetTransaction(txId, TransactionPayload(r.state.transactions[0])))])
            && (target.status == Paid ==>
                  r.state.transactions == s.transactions
                  && r.writes == [Shared(PatchInvoiceStatus(id, InvoiceStatus.Pending))])
  {
  }

  /** With unique ids, the toggled list is the old one with the target's
      status replaced. */
  lemma WithStatusUnique(invs: seq<Invoice>, id: Id, st: InvoiceStatus, k: nat)
    requires UniqueKeys(invs, InvoiceId) && k < |invs| && invs[k].id == id
    ensures WithStatus(invs, id, st) == invs[k := invs[k].(status := st)]
  {
    var a := WithStatus(invs, id, st);
    forall i | 0 <= i < |invs|
      ensures a[i] == invs[k := invs[k].(status := st)][i]
    {
      if i != k {
        assert InvoiceId(invs[i]) != InvoiceId(invs[k]) by {
          if i < k {} else {}
        }
      }
    }
  }

  /** Toggling twice restores the invoice list when ids are unique; a payment
      income recorded by the first toggle stays. */
  lemma ToggleTwice(s: AppState, id: Id, tx1: Id, tx2: Id, today: string)
    requires s.uid.Some? && UniqueKeys(s.invoices, InvoiceId)
    ensures var r1 := ToggleInvoiceStatus(s, id, tx1, today).state;
            var r2 := ToggleInvoiceStatus(r1, id, tx2, today).state;
            && r2.invoices == s.invoices
            && |r2.transactions| == |s.transactions| + (if Find(s.invoices, InvoiceId, id).Some? then 1 else 0)
  {
    var r1 := ToggleInvoiceStatus(s, id, tx1, today).state;
    match Find(s.invoices, InvoiceId, id)
    case None =>
    case Some(k) =>
      var target := s.invoices[k];
      var next := Flip(target.status);
      WithStatusUnique(s.invoices, id, next, k);
      assert r1.invoices == s.invoices[k := target.(status := next)];
      assert UniqueKeys(r1.invoices, InvoiceId) by {
        forall i, j | 0 <= i < j < |r1.invoices|
          ensures InvoiceId(r1.invoices[i]) != InvoiceId(r1.invoices[j])
        {
          assert r1.invoices[i].id == s.invoices[i].id && r1.invoices[j].id == s.invoices[j].id;
        }
      }
      FindSpec(r1.invoices, InvoiceId, id);
      assert Find(r1.invoices, InvoiceId, id) == Some(k);
      WithStatusUnique(r1.invoices, id, Flip(next), k);
      assert Flip(next) == target.status;
  }

  /** Switching one invoice's status moves its total between revenue and
      pending payments. */
  lemma SwitchStatusTotals(invs: seq<Invoice>, k: nat)
    requires k < |invs|
    ensures var after := invs[k := invs[k].(status := Flip(invs[k].status))];
            var total := InvoiceTotal(invs[k].items);
            var sign := if invs[k].status == InvoiceStatus.Pending then 1 else -1;
            && TotalRevenue(after) == TotalRevenue(invs) + sign * total
            && PendingPayments(after) == PendingPayments(invs) - sign * total
  {
    var after := invs[k := invs[k].(status := Flip(invs[k].status))];
    TotalsAsSums(invs, []);
    TotalsAsSums(after, []);
    SumUpdate(invs, k, after[k], PaidAmount);
    SumUpdate(invs, k, after[k], UnpaidAmount);
  }

  /** Marking a pending invoice paid (unique ids) moves its total from
      pending payments to revenue and leaves expenses alone, so the net
      profit grows by the total; marking it pending moves the total back. */
  lemma ToggleDashboard(s: AppState, id: Id, txId: Id, today: string, k: nat)
    requires s.uid.Some? && UniqueKeys(s.invoices, InvoiceId) && Find(s.invoices, InvoiceId, id) == Some(k)
    ensures var r := ToggleInvoiceStatus(s, id, txId, today).state;
            var total := InvoiceTotal(s.invoices[k].items);
            var sign := if s.invoices[k].status == InvoiceStatus.Pending then 1 else -1;
            && TotalRevenue(r.invoices) == TotalRevenue(s.invoices) + sign * total
            && PendingPayments(r.invoices) == PendingPayments(s.invoices) - sign * total
            && TotalExpenses(r.transactions) == TotalExpenses(s.transactions)
  {
    var r := ToggleInvoiceStatus(s, id, txId, today).state;
    var target := s.invoices[k];
    WithStatusUnique(s.invoices, id, Flip(target.status), k);
    SwitchStatusTotals(s.invoices, k);
    if target.status == InvoiceStatus.Pending {
      TotalsAsSums(s.invoices, s.transactions);
      TotalsAsSums(r.invoices, r.transactions);
      SumCons(r.transactions[0], s.transactions, ExpenseAmount);
    }
  }

  // ---------------------------------------------------------------------------
  // updateEmployees: the remote diff
  // ---------------------------------------------------------------------------

  /** The document of an employee the remote store has not seen yet. */
  function NewEmployeeDoc(e: Employee, now: string): EmployeeDoc {
    EmployeeDoc(Some(e.name), Some(e.role), Some(e.avatar), Some(e.attendance),
                None, None, None, None, None, None, None, Some(now))
  }

  /** The write one employee of the new list causes: a full document for an
      id the old list lacks, an attendance patch when the attendance differs
      from the first old employee with that id, else none. */
  function EmployeeWrite(prev: seq<Employee>, e: Employee, now: string): seq<AppWrite> {
    match Find(prev, EmployeeId, e.id)
    case None => [Shared(SetEmployee(e.id, NewEmployeeDoc(e, now)))]
    case Some(k) => if prev[k].attendance != e.attendance then [PatchAttendance(e.id, e.attendance)] else []
  }

  function EmployeeWrites(prev: seq<Employee>, next: seq<Employee>, now: string): (ws: seq<AppWrite>)
    ensures |ws| <= |next|
  {
    if next == [] then [] else EmployeeWrite(prev, next[0], now) + EmployeeWrites(prev, next[1..], now)
  }

  /** The in-memory list always becomes the new one; with an owner the diff
      is written. */
  function UpdateEmployees(s: AppState, next: seq<Employee>, now: string): (r: Step)
    ensures r.state == s.(employees := next)
    ensures s.uid.None? ==> r.writes == []
    ensures s.uid.Some? ==> r.writes == EmployeeWrites(s.employees, next, now)
    ensures Valid(s) ==> Valid(r.state)
  {
    Step(s.(employees := next), if s.uid.None? then [] else EmployeeWrites(s.employees, next, now))
  }

  predicate NeedsWrite(prev: seq<Employee>, e: Employee) {
    match Find(prev, EmployeeId, e.id)
    case None => true
    case Some(k) => prev[k].attendance != e.attendance
  }

  /** One write per employee that is new or whose attendance changed. */
  lemma {:induction false} EmployeeWritesCount(prev: seq<Employee>, next: seq<Employee>, now: string)
    ensures |EmployeeWrites(prev, next, now)| == Count(next, (e: Employee) => NeedsWrite(prev, e))
  {
    if next != [] {
      EmployeeWritesCount(prev, next[1..], now);
    }
  }

  /** Passing the list back unchanged (unique ids) writes nothing. */
  lemma UnchangedEmployeesWriteNothing(prev: seq<Employee>, now: string)
    requires UniqueKeys(prev, EmployeeId)
    ensures EmployeeWrites(prev, prev, now) == []
  {
    EmployeeWritesCount(prev, prev, now);
    forall i | 0 <= i < |prev|
      ensures !NeedsWrite(prev, prev[i])
    {
      FindSpec(prev, EmployeeId, prev[i].id);
    }
    NoneCounted(prev, (e: Employee) => NeedsWrite(prev, e));
  }

  lemma {:induction false} NoneCounted<T>(xs: seq<T>, p: T -> bool)
    requires forall i :: 0 <= i < |xs| ==> !p(xs[i])
    ensures Count(xs, p) == 0
  {
    if xs != [] {
      NoneCounted(xs[1..], p);
    }
  }

  /** The remote employee collection after a write: a document write
      replaces the document, an attendance patch changes only the attendance
      of an existing document (a patch of a missing document fails and
      changes nothing), other writes do not touch the collection. */
  function ApplyEmployeeWrite(r: map<Id, EmployeeDoc>, w: AppWrite): map<Id, EmployeeDoc> {
    match w
    case Shared(SetEmployee(id, d)) => r[id := d]
    case PatchAttendance(id, a) => if id in r then r[id := r[id].(attendance := Some(a))] else r
    case _ => r
  }

  function ApplyEmployeeWrites(r: map<Id, EmployeeDoc>, ws: seq<AppWrite>): map<Id, EmployeeDoc>
    decreases |ws|
  {
    if ws == [] then r else ApplyEmployeeWrites(ApplyEmployeeWrite(r, ws[0]), ws[1..])
  }

  lemma {:induction false} ApplyEmployeeWritesAppend(r: map<Id, EmployeeDoc>, a: seq<AppWrite>, b: seq<AppWrite>)
    ensures ApplyEmployeeWrites(r, a + b) == ApplyEmployeeWrites(ApplyEmployeeWrites(r, a), b)
    decreases |a|
  {
    if a == [] {
      assert a + b == b;
    } else {
      assert (a + b)[1..] == a[1..] + b;
      ApplyEmployeeWritesAppend(ApplyEmployeeWrite(r, a[0]), a[1..], b);
    }
  }

  /** The attendance the loader reads from a document. */
  function RemoteAttendance(d: EmployeeDoc): Attendance {
    Coalesce(d.attendance, map[])
  }

  /** The remote copy agrees with the old list: every old employee's document
      exists and carries its attendance. */
  predicate AttendanceAgrees(remote: map<Id, EmployeeDoc>, emps: seq<Employee>) {
    forall i :: 0 <= i < |emps| ==> emps[i].id in remote && RemoteAttendance(remote[emps[i].id]) == emps[i].attendance
  }

  /** The old employees the remote copy agrees with, as needed for the new
      list: each new-list id the old list has is stored remotely with the
      attendance of its first old match. */
  predicate AgreesFor(remote: map<Id, EmployeeDoc>, prev: seq<Employee>, next: seq<Employee>) {
    forall i :: 0 <= i < |next| ==>
      match Find(prev, EmployeeId, next[i].id)
      case None => true
      case Some(k) => next[i].id in remote && RemoteAttendance(remote[next[i].id]) == prev[k].attendance
  }

  lemma KeySetCons<T>(xs: seq<T>, key: T -> Id)
    requires xs != []
    ensures KeySet(xs, key) == {key(xs[0])} + KeySet(xs[1..], key)
  {
    var a := KeySet(xs, key);
    var b := {key(xs[0])} + KeySet(xs[1..], key);
    forall x | x in b
      ensures x in a
    {
      if x != key(xs[0]) {
        var j :| 0 <= j < |xs| - 1 && key(xs[1..][j]) == x;
        assert key(xs[j + 1]) == x;
      }
    }
    forall x | x in a
      ensures x in b
    {
      var j :| 0 <= j < |xs| && key(xs[j]) == x;
      if j > 0 {
        assert key(xs[1..][j - 1]) == x;
      }
    }
  }

  /** The write of one employee leaves every other document alone and leaves
      that employee's document carrying its attendance. */
  lemma FirstEmployeeWrite(prev: seq<Employee>, e: Employee, now: string, remote: map<Id, EmployeeDoc>)
    requires match Find(prev, EmployeeId, e.id)
             case None => true
             case Some(k) => e.id in remote && RemoteAttendance(remote[e.id]) == prev[k].attendance
    ensures var r1 := ApplyEmployeeWrites(remote, EmployeeWrite(prev, e, now));
            && r1.Keys == remote.Keys + {e.id}
            && (forall id :: id in remote && id != e.id ==> r1[id] == remote[id])
            && RemoteAttendance(r1[e.id]) == e.attendance
            && (Find(prev, EmployeeId, e.id).Some? ==> r1[e.id] == remote[e.id].(attendance := r1[e.id].attendance))
  {
    var w1 := EmployeeWrite(prev, e, now);
    if w1 != [] {
      assert w1[1..] == [];
    }
  }

  /** Once the first employee's write is applied, the rest of the new list
      still finds the remote copy as the old list left it. */
  lemma RestAgrees(prev: seq<Employee>, next: seq<Employee>, remote: map<Id, EmployeeDoc>, r1: map<Id, EmployeeDoc>)
    requires next != [] && UniqueKeys(next, EmployeeId) && AgreesFor(remote, prev, next)
    requires remote.Keys <= r1.Keys
    requires forall id :: id in remote && id != next[0].id ==> r1[id] == remote[id]
    ensures UniqueKeys(next[1..], EmployeeId) && AgreesFor(r1, prev, next[1..])
    ensures next[0].id !in KeySet(next[1..], EmployeeId)
  {
    var rest := next[1..];
    forall i | 0 <= i < |rest|
      ensures rest[i].id != next[0].id
      ensures match Find(prev, EmployeeId, rest[i].id)
              case None => true
              case Some(k) => rest[i].id in r1 && RemoteAttendance(r1[rest[i].id]) == prev[k].attendance
    {
      assert rest[i] == next[i + 1];
      assert EmployeeId(next[0]) != EmployeeId(next[i + 1]);
    }
  }

  /** After the diff (new list with unique ids), the remote collection holds
      a document for every employee of the new list carrying its attendance;
      an old employee's document keeps every field but attendance, so edits
      to name, role or avatar are not written; documents of employees
      dropped from the list stay. */
  lemma {:induction false} EmployeeWritesSync(prev: seq<Employee>, next: seq<Employee>, now: string, remote: map<Id, EmployeeDoc>)
    requires UniqueKeys(next, EmployeeId) && AgreesFor(remote, prev, next)
    ensures var r := ApplyEmployeeWrites(remote, EmployeeWrites(prev, next, now));
            && r.Keys == remote.Keys + KeySet(next, EmployeeId)
            && (forall id :: id in remote && id !in KeySet(next, EmployeeId) ==> r[id] == remote[id])
            && (forall i :: 0 <= i < |next| ==> RemoteAttendance(r[next[i].id]) == next[i].attendance)
            && (forall i :: 0 <= i < |next| && next[i].id in KeySet(prev, EmployeeId) ==>
                  r[next[i].id] == remote[next[i].id].(attendance := r[next[i].id].attendance))
  {
    var r := ApplyEmployeeWrites(remote, EmployeeWrites(prev, next, now));
    if next == [] {
      assert KeySet(next, EmployeeId) == {};
    } else {
      var e := next[0];
      var rest := next[1..];
      var w1 := EmployeeWrite(prev, e, now);
      var r1 := ApplyEmployeeWrites(remote, w1);
      ApplyEmployeeWritesAppend(remote, w1, EmployeeWrites(prev, rest, now));
      KeySetCons(next, EmployeeId);
      FindSpec(prev, EmployeeId, e.id);
      FirstEmployeeWrite(prev, e, now, remote);
      RestAgrees(prev, next, remote, r1);
      EmployeeWritesSync(prev, rest, now, r1);
      forall i | 0 <= i < |next|
        ensures RemoteAttendance(r[next[i].id]) == next[i].attendance
        ensures next[i].id in KeySet(prev, EmployeeId) ==> r[next[i].id] == remote[next[i].id].(attendance := r[next[i].id].attendance)
      {
        if i > 0 {
          assert next[i] == rest[i - 1];
          assert next[i].id != e.id;
        }
      }
    }
  }

  /** Corollary: when the remote copy agrees with the old list and the new
      list has unique ids, the remote copy agrees with the new list after
      the diff. */
  lemma EmployeeWritesKeepAgreement(prev: seq<Employee>, next: seq<Employee>, now: string, remote: map<Id, EmployeeDoc>)
    requires UniqueKeys(next, EmployeeId) && AttendanceAgrees(remote, prev)
    ensures AttendanceAgrees(ApplyEmployeeWrites(remote, EmployeeWrites(prev, next, now)), next)
  {
    assert AgreesFor(remote, prev, next) by {
      forall i | 0 <= i < |next|
        ensures match Find(prev, EmployeeId, next[i].id)
                case None => true
                case Some(k) => next[i].id in remote && RemoteAttendance(remote[next[i].id]) == prev[k].attendance
      {
      }
    }
    EmployeeWritesSync(prev, next, now, remote);
    var r := ApplyEmployeeWrites(remote, EmployeeWrites(prev, next, now));
    forall i | 0 <= i < |next|
      ensures next[i].id in r
    {
      assert next[i].id in KeySet(next, EmployeeId);
    }
  }

  /** A new employee's document, read back by the loader, is that employee. */
  lemma NewEmployeeRoundTrip(e: Employee, now: string)
    ensures LoadedEmployee(Doc(e.id, NewEmployeeDoc(e, now))) == e
  {
  }

  // ---------------------------------------------------------------------------
  // updateInventory: the remote diff
  // ---------------------------------------------------------------------------

  /** The write one item of the new list causes: the full document for an id
      the old list lacks, otherwise a patch of the quantity on hand, the
      selling price and the reorder level only. */
  function InventoryWrite(prev: seq<InventoryItem>, it: InventoryItem, now: string): AppWrite {
    if it.id !in KeySet(prev, ItemId) then Shared(SetInventory(it.id, InventoryPayload(LocalInventoryItem(it, now))))
    else PatchStock(it.id, it.currentQty, it.sellingPrice, it.reorderLevel)
  }

  function InventoryWrites(prev: seq<InventoryItem>, next: seq<InventoryItem>, now: string): (ws: seq<AppWrite>)
    ensures |ws| == |next|
  {
    if next == [] then [] else [InventoryWrite(prev, next[0], now)] + InventoryWrites(prev, next[1..], now)
  }

  /** The in-memory list always becomes the new one; with an owner every
      item of the new list is written. */
  function UpdateInventory(s: AppState, next: seq<InventoryItem>, now: string): (r: Step)
    ensures r.state == s.(inventory := next)
    ensures s.uid.None? ==> r.writes == []
    ensures s.uid.Some? ==> |r.writes| == |next|
    ensures Valid(s) ==> Valid(r.state)
  {
    Step(s.(inventory := next), if s.uid.None? then [] else InventoryWrites(s.inventory, next, now))
  }

  /** The remote inventory collection after a write: a document write
      replaces the document, a stock patch changes the three stock fields of
      an existing document (a patch of a missing document fails and changes
      nothing), other writes do not touch the collection. */
  function ApplyInventoryWrite(r: map<Id, InventoryDoc>, w: AppWrite): map<Id, InventoryDoc> {
    match w
    case Shared(SetInventory(id, d)) => r[id := d]
    case PatchStock(id, q, p, l) =>
      if id in r then r[id := r[id].(currentQty := q, sellingPrice := p, reorderLevel := l)] else r
    case _ => r
  }

  function ApplyInventoryWrites(r: map<Id, InventoryDoc>, ws: seq<AppWrite>): map<Id, InventoryDoc>
    decreases |ws|
  {
    if ws == [] then r else ApplyInventoryWrites(ApplyInventoryWrite(r, ws[0]), ws[1..])
  }

  /** The remote document of an item after its stock patch. */
  function Restocked(d: InventoryDoc, it: InventoryItem): InventoryDoc {
    d.(currentQty := it.currentQty, sellingPrice := it.sellingPrice, reorderLevel := it.reorderLevel)
  }

  /** After the diff (new list with unique ids, old items stored remotely), a
      new item's document is its full payload; an old item's document keeps
      everything but the three stock fields, so edits to its name, SKU,
      category, unit, opening quantity, purchase price or GST rate never reach
      the remote store; documents of items dropped from the list stay. */
  lemma {:induction false} InventoryWritesSync(prev: seq<InventoryItem>, next: seq<InventoryItem>, now: string, remote: map<Id, InventoryDoc>)
    requires UniqueKeys(next, ItemId)
    requires forall i :: 0 <= i < |next| && next[i].id in KeySet(prev, ItemId) ==> next[i].id in remote
    ensures var r := ApplyInventoryWrites(remote, InventoryWrites(prev, next, now));
            && r.Keys == remote.Keys + KeySet(next, ItemId)
            && (forall id :: id in remote && id !in KeySet(next, ItemId) ==> r[id] == remote[id])
            && (forall i :: 0 <= i < |next| && next[i].id in KeySet(prev, ItemId) ==>
                  r[next[i].id] == Restocked(remote[next[i].id], next[i]))
            && (forall i :: 0 <= i < |next| && next[i].id !in KeySet(prev, ItemId) ==>
                  r[next[i].id] == InventoryPayload(LocalInventoryItem(next[i], now)))
  {
    if next == [] {
      assert KeySet(next, ItemId) == {};
    } else {
      var it := next[0];
      var rest := next[1..];
      var r1 := ApplyInventoryWrite(remote, InventoryWrite(prev, it, now));
      KeySetCons(next, ItemId);
      RestItemsFresh(prev, next, now, remote, r1);
      InventoryWritesSync(prev, rest, now, r1);
      var r := ApplyInventoryWrites(remote, InventoryWrites(prev, next, now));
      forall i | 0 <= i < |next|
        ensures next[i].id in KeySet(prev, ItemId) ==> r[next[i].id] == Restocked(remote[next[i].id], next[i])
        ensures next[i].id !in KeySet(prev, ItemId) ==> r[next[i].id] == InventoryPayload(LocalInventoryItem(next[i], now))
      {
        if i > 0 {
          assert next[i] == rest[i - 1];
        }
      }
    }
  }

  /** Once the first item's write is applied, the rest of the new list still
      finds the remote copy as the old list left it. */
  lemma RestItemsFresh(prev: seq<InventoryItem>, next: seq<InventoryItem>, now: string, remote: map<Id, InventoryDoc>, r1: map<Id, InventoryDoc>)
    requires next != [] && UniqueKeys(next, ItemId)
    requires forall i :: 0 <= i < |next| && next[i].id in KeySet(prev, ItemId) ==> next[i].id in remote
    requires r1 == ApplyInventoryWrite(remote, InventoryWrite(prev, next[0], now))
    ensures UniqueKeys(next[1..], ItemId)
    ensures forall i :: 0 <= i < |next| - 1 && next[1..][i].id in KeySet(prev, ItemId) ==> next[1..][i].id in r1
    ensures next[0].id !in KeySet(next[1..], ItemId)
    ensures r1.Keys == remote.Keys + {next[0].id}
    ensures forall id :: id in remote && id != next[0].id ==> r1[id] == remote[id]
  {
    var rest := next[1..];
    forall i | 0 <= i < |rest|
      ensures rest[i].id != next[0].id
    {
      assert rest[i] == next[i + 1];
      assert ItemId(next[0]) != ItemId(next[i + 1]);
    }
  }

  /** A new item's document, read back by the loader, is that item exactly
      when its category and unit are not empty (empty ones read back as
      'General' and 'Units'). */
  lemma NewItemRoundTrip(it: InventoryItem, now: string)
    ensures InventoryItemOf(it.id, InventoryPayload(LocalInventoryItem(it, now))) == it
            <==> it.category != "" && it.unit != ""
  {
    InventoryRoundTrip(LocalInventoryItem(it, now), now);
  }

  // ---------------------------------------------------------------------------
  // Profile and preferences
  // ---------------------------------------------------------------------------

  /** The owner's remote profile document after a write. */
  function ApplyProfileWrite(d: ProfileDoc, w: AppWrite): ProfileDoc {
    match w
    case CreateProfile(_, doc) => doc
    case PatchBusiness(i) =>
      d.(businessName := Some(i.businessName), email := Some(i.email), phone := Some(i.phone),
         gst := Some(i.gst), address := Some(i.address))
    case PatchPreferences(p) =>
      d.(emailNotifications := Some(p.emailNotifications), darkMode := Some(p.darkMode),
         currency := Some(p.currency), twoFactorAuth := Some(p.twoFactorAuth))
    case PatchOnboarding(o) =>
      d.(businessName := Some(o.businessName), phone := Some(o.phone), gst := Some(o.gst),
         address := Some(o.address), onboardingComplete := Some(true))
    case _ => d
  }

  /** Without an owner nothing happens; otherwise the five business fields of
      the profile (if one is loaded) take the new values and are patched
      remotely. */
  function UpdateBusinessProfile(s: AppState, info: BusinessInfo): (r: Step)
    ensures s.uid.None? ==> r == Step(s, [])
    ensures s.uid.Some? ==> r.writes == [PatchBusiness(info)]
    ensures r.state.profile.Some? <==> s.profile.Some?
    ensures r.state == s.(profile := r.state.profile)
    ensures s.uid.Some? && s.profile.Some? ==>
              var p := r.state.profile.value;
              && p.businessName == info.businessName && p.email == info.email && p.phone == info.phone
              && p.gst == info.gst && p.address == info.address
              && p == s.profile.value.(businessName := p.businessName, email := p.email, phone := p.phone,
                                       gst := p.gst, address := p.address)
  {
    if s.uid.None? then Step(s, [])
    else
      var profile := match s.profile
        case Some(p) => Some(p.(businessName := info.businessName, email := info.email, phone := info.phone,
                                gst := info.gst, address := info.address))
        case None => None;
      Step(s.(profile := profile), [PatchBusiness(info)])
  }

  /** Without an owner nothing happens; otherwise the four preferences of the
      profile (if one is loaded) take the new values and are patched
      remotely. */
  function UpdatePreferences(s: AppState, prefs: Preferences): (r: Step)
    ensures s.uid.None? ==> r == Step(s, [])
    ensures s.uid.Some? ==> r.writes == [PatchPreferences(prefs)]
    ensures r.state.profile.Some? <==> s.profile.Some?
    ensures r.state == s.(profile := r.state.profile)
    ensures s.uid.Some? && s.profile.Some? ==>
              var p := r.state.profile.value;
              && p.emailNotifications == prefs.emailNotifications && p.darkMode == prefs.darkMode
              && p.currency == prefs.currency && p.twoFactorAuth == prefs.twoFactorAuth
              && p == s.profile.value.(emailNotifications := p.emailNotifications, darkMode := p.darkMode,
                                       currency := p.currency, twoFactorAuth := p.twoFactorAuth)
  {
    if s.uid.None? then Step(s, [])
    else
      var profile := match s.profile
        case Some(p) => Some(p.(emailNotifications := prefs.emailNotifications, darkMode := prefs.darkMode,
                                currency := prefs.currency, twoFactorAuth := prefs.twoFactorAuth))
        case None => None;
      Step(s.(profile := profile), [PatchPreferences(prefs)])
  }

  /** Without an owner nothing happens. Otherwise the patch is written first
      and awaited: only when it succeeds (`ok`) does the loaded profile take
      the four business fields and become onboarded. */
  function CompleteOnboarding(s: AppState, info: OnboardingInfo, ok: bool): (r: Step)
    ensures s.uid.None? ==> r == Step(s, [])
    ensures s.uid.Some? ==> r.writes == [PatchOnboarding(info)]
    ensures !ok ==> r.state == s
    ensures r.state == s.(profile := r.state.profile)
    ensures r.state.profile.Some? <==> s.profile.Some?
    ensures s.uid.Some? && s.profile.Some? && ok ==>
              var p := r.state.profile.value;
              && p.onboardingComplete
              && p.businessName == info.businessName && p.phone == info.phone
              && p.gst == info.gst && p.address == info.address
              && p == s.profile.value.(businessName := p.businessName, phone := p.phone, gst := p.gst,
                                       address := p.address, onboardingComplete := true)
  {
    if s.uid.None? then Step(s, [])
    else if !ok then Step(s, [PatchOnboarding(info)])
    else
      var profile := match s.profile
        case Some(p) => Some(p.(businessName := info.businessName, phone := info.phone, gst := info.gst,
                                address := info.address, onboardingComplete := true))
        case None => None;
      Step(s.(profile := profile), [PatchOnboarding(info)])
  }

  /** When the loaded profile is what the remote document reads as, it still
      is after a business-profile update or a completed onboarding has been
      written; after a preferences update it is exactly when the currency is
      not empty (an empty currency reads back as 'INR'). */
  lemma ProfileWritesAgree(s: AppState, uid: Uid, d: ProfileDoc, info: BusinessInfo, prefs: Preferences, onboarding: OnboardingInfo)
    requires s.uid == Some(uid) && s.profile == Some(FetchedProfile(uid, d))
    ensures UpdateBusinessProfile(s, info).state.profile == Some(FetchedProfile(uid, ApplyProfileWrite(d, PatchBusiness(info))))
    ensures CompleteOnboarding(s, onboarding, true).state.profile
            == Some(FetchedProfile(uid, ApplyProfileWrite(d, PatchOnboarding(onboarding))))
    ensures UpdatePreferences(s, prefs).state.profile == Some(FetchedProfile(uid, ApplyProfileWrite(d, PatchPreferences(prefs))))
            <==> prefs.currency != ""
  {
    if prefs.currency == "" {
      assert FetchedProfile(uid, ApplyProfileWrite(d, PatchPreferences(prefs))).currency == "INR";
    }
  }

  // ---------------------------------------------------------------------------
  // resetBusinessData
  // ---------------------------------------------------------------------------

  const BusinessCollections: seq<string> := ["employees", "invoices", "transactions", "inventory"]

  /** Without an owner nothing happens. Otherwise the four business
      collections are deleted; only when all four deletions succeed (`ok`)
      are the lists emptied and the counter reset. The profile stays. */
  function ResetBusinessData(s: AppState, ok: bool): (r: Step)
    ensures s.uid.None? ==> r == Step(s, [])
    ensures s.uid.Some? ==> |r.writes| == 4
    ensures s.uid.Some? ==> forall i :: 0 <= i < 4 ==> r.writes[i] == DeleteCollection(BusinessCollections[i])
    ensures r.state.uid == s.uid && r.state.profile == s.profile
    ensures !ok ==> r.state == s
    ensures s.uid.Some? && ok ==> r.state.employees == [] && r.state.invoices == []
                                  && r.state.transactions == [] && r.state.inventory == []
    ensures Valid(s) ==> Valid(r.state)
  {
    if s.uid.None? then Step(s, [])
    else
      var ws := [DeleteCollection("employees"), DeleteCollection("invoices"),
                 DeleteCollection("transactions"), DeleteCollection("inventory")];
      if ok then Step(s.(employees := [], invoices := [], transactions := [], inventory := [], invoiceCount := 0), ws)
      else Step(s, ws)
  }

  /** After a successful reset the dashboard shows zeros and no pie slices,
      and numbering starts again from INV-001. */
  lemma ResetStartsOver(s: AppState, input: InvoiceInput, id: Id, now: string)
    requires s.uid.Some?
    ensures var r := ResetBusinessData(s, true).state;
            && ComputeDashboard(r.invoices, r.transactions) == Dashboard(0, 0, 0, 0, [])
            && AddInvoice(r, input, id, now).state.invoices[0].invoiceNo == "INV-001"
  {
    var r := ResetBusinessData(s, true).state;
    assert Filter(r.transactions, IsExpense) == [];
    assert CategoryTotals([]) == [];
  }
}
