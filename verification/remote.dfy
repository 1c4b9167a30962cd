/** The shapes of the remote documents the sync engine reads and writes.
    A field a document may lack is an `Option`; the engine fills a missing
    field from the local copy or a default. The writes a sync pass issues are
    recorded in order as `Write`s; the remote store itself is not modelled. */
module Remote {
  import opened Common
  import opened Domain
  import opened LocalDb

  datatype EmployeeDoc = EmployeeDoc(
    name: Option<string>,
    role: Option<string>,
    avatar: Option<string>,
    attendance: Option<Attendance>,
    overtime: Option<map<string, bool>>,
    salary: Option<int>,
    dateOfJoining: Option<string>,
    salaryDeductionRules: Option<string>,
    email: Option<string>,
    phone: Option<string>,
    aadhaar: Option<string>,
    createdAt: Option<string>)

  datatype InvoiceDoc = InvoiceDoc(
    invoiceNo: string,
    client: string,
    date: string,
    dueDate: string,
    status: InvoiceStatus,
    items: Option<seq<InvoiceItem>>,
    clientEmail: Option<string>,
    clientPhone: Option<string>,
    clientAddress: Option<string>,
    createdAt: Option<string>)

  datatype TransactionDoc = TransactionDoc(
    kind: TxType,
    category: string,
    amount: int,
    date: string,
    note: Option<string>)

  datatype InventoryDoc = InventoryDoc(
    name: string,
    sku: Option<string>,
    category: Option<string>,
    unit: Option<string>,
    openingQty: int,
    currentQty: int,
    purchasePrice: int,
    sellingPrice: int,
    reorderLevel: int,
    gstRate: int,
    createdAt: Option<string>)

  datatype ProfileDoc = ProfileDoc(
    name: Option<string>,
    businessName: Option<string>,
    email: Option<string>,
    phone: Option<string>,
    gst: Option<string>,
    address: Option<string>,
    currency: Option<string>,
    emailNotifications: Option<bool>,
    darkMode: Option<bool>,
    twoFactorAuth: Option<bool>,
    onboardingComplete: Option<bool>)

  /** The settings a pending profile pushes: the owner's name, email and
      onboarding flag are not part of it. */
  datatype ProfilePatch = ProfilePatch(
    businessName: string,
    phone: string,
    gst: string,
    address: string,
    currency: string,
    emailNotifications: bool,
    darkMode: bool,
    twoFactorAuth: bool)

  datatype Doc<D> = Doc(id: Id, data: D)

  /** What one fetch reads: the owner's profile document, if any, and the four
      collections as the queries return them. */
  datatype Snapshot = Snapshot(
    profile: Option<ProfileDoc>,
    employees: seq<Doc<EmployeeDoc>>,
    invoices: seq<Doc<InvoiceDoc>>,
    transactions: seq<Doc<TransactionDoc>>,
    inventory: seq<Doc<InventoryDoc>>)

  /** One remote write of a sync pass: a whole-document set, a status-only
      patch of an invoice, or a settings patch of the owner's profile. */
  datatype Write =
    | SetEmployee(id: Id, employee: EmployeeDoc)
    | SetInvoice(id: Id, invoice: InvoiceDoc)
    | SetTransaction(id: Id, transaction: TransactionDoc)
    | SetInventory(id: Id, item: InventoryDoc)
    | PatchInvoiceStatus(id: Id, status: InvoiceStatus)
    | PatchProfile(uid: Uid, patch: ProfilePatch)

  // ---------------------------------------------------------------------------
  // Documents written for local rows
  // ---------------------------------------------------------------------------

  function EmployeePayload(l: LocalEmployee): (d: EmployeeDoc)
    ensures d.name.Some? && d.attendance.Some? && d.createdAt.Some?
  {
    EmployeeDoc(Some(l.emp.name), Some(l.emp.role), Some(l.emp.avatar), Some(l.emp.attendance),
                Some(l.overtime), Some(l.salary), Some(l.dateOfJoining),
                Some(l.salaryDeductionRules), Some(l.email), Some(l.phone), Some(l.aadhaar),
                Some(l.createdAt))
  }

  function InvoicePayload(l: LocalInvoice): (d: InvoiceDoc)
    ensures d.items.Some? && d.createdAt.Some?
  {
    InvoiceDoc(l.inv.invoiceNo, l.inv.client, l.inv.date, l.inv.dueDate, l.inv.status,
               Some(l.inv.items), Some(l.clientEmail), Some(l.clientPhone),
               Some(l.clientAddress), Some(l.createdAt))
  }

  function TransactionPayload(t: Transaction): (d: TransactionDoc)
    ensures d.note.Some?
  {
    TransactionDoc(t.kind, t.category, t.amount, t.date, Some(t.note))
  }

  function InventoryPayload(l: LocalInventoryItem): (d: InventoryDoc)
    ensures d.sku.Some? && d.category.Some? && d.unit.Some? && d.createdAt.Some?
  {
    var it := l.item;
    InventoryDoc(it.name, Some(it.sku), Some(it.category), Some(it.unit), it.openingQty,
                 it.currentQty, it.purchasePrice, it.sellingPrice, it.reorderLevel,
                 it.gstRate, Some(l.createdAt))
  }

  function PatchOf(p: Profile): (patch: ProfilePatch)
    ensures patch.currency == p.currency && patch.businessName == p.businessName
  {
    ProfilePatch(p.businessName, p.phone, p.gst, p.address, p.currency,
                 p.emailNotifications, p.darkMode, p.twoFactorAuth)
  }

  /** The remote profile after the patch is applied: the patched settings are
      present, everything else is as it was. */
  function ApplyPatch(d: ProfileDoc, patch: ProfilePatch): (r: ProfileDoc)
    ensures r.name == d.name && r.email == d.email
    ensures r.onboardingComplete == d.onboardingComplete
    ensures r.currency == Some(patch.currency)
  {
    d.(businessName := Some(patch.businessName), phone := Some(patch.phone),
       gst := Some(patch.gst), address := Some(patch.address),
       currency := Some(patch.currency), emailNotifications := Some(patch.emailNotifications),
       darkMode := Some(patch.darkMode), twoFactorAuth := Some(patch.twoFactorAuth))
  }

  // ---------------------------------------------------------------------------
  // Rows built from fetched documents
  // ---------------------------------------------------------------------------

  /** The local field a missing remote field falls back to, if there is a local row. */
  function Local<L, F>(local: Option<L>, field: L -> F): (r: Option<F>)
    ensures local.None? <==> r.None?
    ensures local.Some? ==> r == Some(field(local.value))
  {
    match local
    case Some(l) => Some(field(l))
    case None => None
  }

  /** A fetched employee: each field is the document's, else the local row's,
      else a default ("Team Member" for the role, `now` for the creation time). */
  function MergeEmployee(id: Id, e: EmployeeDoc, local: Option<LocalEmployee>, now: string): (r: LocalEmployee)
    ensures r.emp.id == id
    ensures e.name.None? && local.None? ==> r.emp.name == ""
    ensures e.role.None? && local.None? ==> r.emp.role == "Team Member"
    ensures e.createdAt.None? && local.None? ==> r.createdAt == now
  {
    LocalEmployee(
      Employee(id,
               Coalesce(e.name, Coalesce(Local(local, (l: LocalEmployee) => l.emp.name), "")),
               Coalesce(e.role, Coalesce(Local(local, (l: LocalEmployee) => l.emp.role), "Team Member")),
               Coalesce(e.avatar, Coalesce(Local(local, (l: LocalEmployee) => l.emp.avatar), "")),
               Coalesce(e.attendance, Coalesce(Local(local, (l: LocalEmployee) => l.emp.attendance), map[]))),
      Coalesce(e.overtime, Coalesce(Local(local, (l: LocalEmployee) => l.overtime), map[])),
      Coalesce(e.salary, Coalesce(Local(local, (l: LocalEmployee) => l.salary), 0)),
      Coalesce(e.dateOfJoining, Coalesce(Local(local, (l: LocalEmployee) => l.dateOfJoining), "")),
      Coalesce(e.salaryDeductionRules, Coalesce(Local(local, (l: LocalEmployee) => l.salaryDeductionRules), "")),
      Coalesce(e.email, Coalesce(Local(local, (l: LocalEmployee) => l.email), "")),
      Coalesce(e.phone, Coalesce(Local(local, (l: LocalEmployee) => l.phone), "")),
      Coalesce(e.aadhaar, Coalesce(Local(local, (l: LocalEmployee) => l.aadhaar), "")),
      Coalesce(e.createdAt, Coalesce(Local(local, (l: LocalEmployee) => l.createdAt), now)))
  }

  function MergeInvoice(id: Id, d: InvoiceDoc, local: Option<LocalInvoice>, now: string): (r: LocalInvoice)
    ensures r.inv.id == id && r.inv.status == d.status && r.inv.invoiceNo == d.invoiceNo
    ensures d.items.None? && local.None? ==> r.inv.items == []
    ensures d.createdAt.None? && local.None? ==> r.createdAt == now
  {
    LocalInvoice(
      Invoice(id, d.invoiceNo, d.client, d.date, d.dueDate,
              Coalesce(d.items, Coalesce(Local(local, (l: LocalInvoice) => l.inv.items), [])),
              d.status),
      Coalesce(d.clientEmail, Coalesce(Local(local, (l: LocalInvoice) => l.clientEmail), "")),
      Coalesce(d.clientPhone, Coalesce(Local(local, (l: LocalInvoice) => l.clientPhone), "")),
      Coalesce(d.clientAddress, Coalesce(Local(local, (l: LocalInvoice) => l.clientAddress), "")),
      Coalesce(d.createdAt, Coalesce(Local(local, (l: LocalInvoice) => l.createdAt), now)))
  }

  function FetchedTransaction(id: Id, d: TransactionDoc): (r: Transaction)
    ensures r.id == id && r.amount == d.amount && r.kind == d.kind
    ensures d.note.None? ==> r.note == ""
  {
    Transaction(id, d.kind, d.category, d.amount, d.date, OrIfEmpty(d.note, ""))
  }

  /** An inventory item read from its document: an empty or missing SKU
      reads as "", category as "General", unit as "Units". */
  function InventoryItemOf(id: Id, d: InventoryDoc): (it: InventoryItem)
    ensures it.id == id && it.name == d.name
    ensures it.category != "" && it.unit != ""
    ensures d.category.Some? && d.category.value != "" ==> it.category == d.category.value
    ensures d.unit.Some? && d.unit.value != "" ==> it.unit == d.unit.value
  {
    InventoryItem(id, d.name, OrIfEmpty(d.sku, ""), OrIfEmpty(d.category, "General"),
                  OrIfEmpty(d.unit, "Units"), d.openingQty, d.currentQty, d.purchasePrice,
                  d.sellingPrice, d.reorderLevel, d.gstRate)
  }

  function FetchedInventoryItem(id: Id, d: InventoryDoc, now: string): (r: LocalInventoryItem)
    ensures r.item == InventoryItemOf(id, d)
    ensures d.createdAt.None? ==> r.createdAt == now
    ensures d.createdAt.Some? ==> r.createdAt == d.createdAt.value
  {
    LocalInventoryItem(InventoryItemOf(id, d), Coalesce(d.createdAt, now))
  }

  /** The owner's profile built from the remote document: empty or missing
      texts become '' (the currency "INR"), missing switches take their
      defaults (notifications and dark mode on, two-factor off, onboarding not
      complete). */
  function FetchedProfile(uid: Uid, d: ProfileDoc): (p: Profile)
    ensures p.id == uid
    ensures p.currency != ""
    ensures d.currency.None? ==> p.currency == "INR"
    ensures d.emailNotifications.None? ==> p.emailNotifications
    ensures d.darkMode.None? ==> p.darkMode
    ensures d.twoFactorAuth.None? ==> !p.twoFactorAuth
    ensures d.onboardingComplete.None? ==> !p.onboardingComplete
  {
    Profile(uid, OrIfEmpty(d.name, ""), OrIfEmpty(d.businessName, ""), OrIfEmpty(d.email, ""),
            OrIfEmpty(d.phone, ""), OrIfEmpty(d.gst, ""), OrIfEmpty(d.address, ""),
            OrIfEmpty(d.currency, "INR"), Coalesce(d.emailNotifications, true),
            Coalesce(d.darkMode, true), Coalesce(d.twoFactorAuth, false),
            Coalesce(d.onboardingComplete, false))
  }

  // ---------------------------------------------------------------------------
  // Push-then-fetch round trips
  // ---------------------------------------------------------------------------

  /** An employee pushed and fetched back is the row that was pushed, whatever
      local copy the fetch merges with. */
  lemma EmployeeRoundTrip(l: LocalEmployee, local: Option<LocalEmployee>, now: string)
    ensures MergeEmployee(l.emp.id, EmployeePayload(l), local, now) == l
  {
  }

  lemma InvoiceRoundTrip(l: LocalInvoice, local: Option<LocalInvoice>, now: string)
    ensures MergeInvoice(l.inv.id, InvoicePayload(l), local, now) == l
  {
  }

  lemma TransactionRoundTrip(t: Transaction)
    ensures FetchedTransaction(t.id, TransactionPayload(t)) == t
  {
  }

  /** An inventory item comes back unchanged unless its category or unit is
      empty, which the fetch replaces with "General" / "Units". */
  lemma InventoryRoundTrip(l: LocalInventoryItem, now: string)
    ensures FetchedInventoryItem(l.item.id, InventoryPayload(l), now) == l
            <==> l.item.category != "" && l.item.unit != ""
  {
  }

  /** A settings patch fetched back shows the patched settings (an empty
      currency reads as "INR") and keeps the remote name, email and onboarding
      flag. */
  lemma ProfilePatchRoundTrip(uid: Uid, d: ProfileDoc, p: Profile)
    ensures var q := FetchedProfile(uid, ApplyPatch(d, PatchOf(p)));
            && q.businessName == p.businessName && q.phone == p.phone && q.gst == p.gst
            && q.address == p.address
            && q.currency == (if p.currency == "" then "INR" else p.currency)
            && q.emailNotifications == p.emailNotifications && q.darkMode == p.darkMode
            && q.twoFactorAuth == p.twoFactorAuth
            && q.name == FetchedProfile(uid, d).name && q.email == FetchedProfile(uid, d).email
            && q.onboardingComplete == FetchedProfile(uid, d).onboardingComplete
  {
  }

  /** Missing document fields keep what the local row had: merging a document
      with no optional fields into a local row returns that row (with the
      document's id). */
  lemma EmployeeMergeKeepsLocal(id: Id, l: LocalEmployee, now: string)
    ensures var empty := EmployeeDoc(None, None, None, None, None, None, None, None, None, None, None, None);
            MergeEmployee(id, empty, Some(l), now) == l.(emp := l.emp.(id := id))
  {
  }

  lemma InvoiceMergeKeepsLocal(id: Id, d: InvoiceDoc, l: LocalInvoice, now: string)
    requires d.items.None? && d.clientEmail.None? && d.clientPhone.None?
    requires d.clientAddress.None? && d.createdAt.None?
    ensures var r := MergeInvoice(id, d, Some(l), now);
            r.inv.items == l.inv.items && r.clientEmail == l.clientEmail
            && r.clientPhone == l.clientPhone && r.clientAddress == l.clientAddress
            && r.createdAt == l.createdAt
  {
  }
}
