/** The business records the whole application shares (employees, invoices,
    transactions, inventory items, the owner's profile) and the one derived
    figure every page uses: an invoice's total. Money and quantities are whole
    numbers. */
module Domain {
  import opened Common

  type Id = string

  datatype Mark = Present | Absent

  /** "YYYY-MM-DD" -> present / absent. */
  type Attendance = map<string, Mark>

  datatype Employee = Employee(
    id: Id,
    name: string,
    role: string,
    avatar: string,
    attendance: Attendance)

  datatype InvoiceItem = InvoiceItem(description: string, qty: int, price: int)

  datatype InvoiceStatus = Paid | Pending

  datatype Invoice = Invoice(
    id: Id,
    invoiceNo: string,
    client: string,
    date: string,
    dueDate: string,
    items: seq<InvoiceItem>,
    status: InvoiceStatus)

  datatype TxType = Income | Expense

  datatype Transaction = Transaction(
    id: Id,
    kind: TxType,
    category: string,
    amount: int,
    date: string,
    note: string)

  datatype InventoryItem = InventoryItem(
    id: Id,
    name: string,
    sku: string,
    category: string,
    unit: string,
    openingQty: int,
    currentQty: int,
    purchasePrice: int,
    sellingPrice: int,
    reorderLevel: int,
    gstRate: int)

  datatype Profile = Profile(
    id: Id,
    name: string,
    businessName: string,
    email: string,
    phone: string,
    gst: string,
    address: string,
    currency: string,
    emailNotifications: bool,
    darkMode: bool,
    twoFactorAuth: bool,
    onboardingComplete: bool)

  function LineTotal(it: InvoiceItem): int {
    it.qty * it.price
  }

  /** The sum of qty * price over the items (0 for no items). */
  function InvoiceTotal(items: seq<InvoiceItem>): int {
    Sum(items, LineTotal)
  }

  /** Appending an item adds exactly its line total; the empty list totals 0. */
  lemma InvoiceTotalAppend(items: seq<InvoiceItem>, it: InvoiceItem)
    ensures InvoiceTotal([]) == 0
    ensures InvoiceTotal(items + [it]) == InvoiceTotal(items) + it.qty * it.price
  {
    SumAppend(items, [it], LineTotal);
    assert [it][..0] == [];
  }

  /** The total of two lists of rows joined is the sum of their totals. */
  lemma InvoiceTotalConcat(a: seq<InvoiceItem>, b: seq<InvoiceItem>)
    ensures InvoiceTotal(a + b) == InvoiceTotal(a) + InvoiceTotal(b)
  {
    SumAppend(a, b, LineTotal);
  }

  /** The total depends only on which rows there are, not on their order. */
  lemma InvoiceTotalPermutation(a: seq<InvoiceItem>, b: seq<InvoiceItem>)
    requires multiset(a) == multiset(b)
    ensures InvoiceTotal(a) == InvoiceTotal(b)
  {
    SumPermutation(a, b, LineTotal);
  }

  /** Items with non-negative quantity and price total a non-negative amount. */
  lemma InvoiceTotalNonNegative(items: seq<InvoiceItem>)
    requires forall i :: 0 <= i < |items| ==> items[i].qty >= 0 && items[i].price >= 0
    ensures InvoiceTotal(items) >= 0
  {
    forall i | 0 <= i < |items|
      ensures LineTotal(items[i]) >= 0
    {
    }
    SumNonNegative(items, LineTotal);
  }
}
