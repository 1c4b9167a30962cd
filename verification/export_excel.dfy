/** The spreadsheet export: the sheets of the workbook in order and the rows
    of each, as column-name/value pairs. Writing the file and starting the
    download are left out. */
module ExportExcel {
  import opened Common
  import opened Domain

  datatype Cell = Text(text: string) | Num(n: int)

  /** One row: `(column, value)` pairs in column order. */
  type Row = seq<(string, Cell)>

  datatype Sheet = Sheet(name: string, rows: seq<Row>)

  datatype ExportData = ExportData(
    employees: seq<Employee>,
    invoices: seq<Invoice>,
    transactions: seq<Transaction>,
    inventory: seq<InventoryItem>,
    profile: Profile)

  function EmployeeRow(e: Employee): Row {
    [("ID", Text(e.id)), ("Name", Text(e.name)), ("Role", Text(e.role)), ("Avatar", Text(e.avatar))]
  }

  function StatusText(s: InvoiceStatus): string {
    match s
    case Paid => "Paid"
    case Pending => "Pending"
  }

  function TypeText(k: TxType): string {
    match k
    case Income => "Income"
    case Expense => "Expense"
  }

  /** The invoice columns every row of an invoice repeats. */
  function InvoiceBase(inv: Invoice): Row {
    [("InvoiceID", Text(inv.id)), ("InvoiceNo", Text(inv.invoiceNo)), ("Client", Text(inv.client)),
     ("Date", Text(inv.date)), ("DueDate", Text(inv.dueDate)), ("Status", Text(StatusText(inv.status)))]
  }

  function ItemColumns(description: string, qty: int, price: int, lineTotal: int): Row {
    [("Item", Text(description)), ("Qty", Num(qty)), ("Price", Num(price)), ("LineTotal", Num(lineTotal))]
  }

  /** One row per item; an invoice without items gets one placeholder row. */
  function InvoiceRows(inv: Invoice): (r: seq<Row>)
    ensures |r| == RowsOf(inv)
  {
    if inv.items == [] then [InvoiceBase(inv) + ItemColumns("", 0, 0, 0)]
    else seq(|inv.items|, k requires 0 <= k < |inv.items| =>
               InvoiceBase(inv) + ItemColumns(inv.items[k].description, inv.items[k].qty, inv.items[k].price,
                                              inv.items[k].qty * inv.items[k].price))
  }

  /** `invoices.flatMap(...)`. */
  function FlatRows(invs: seq<Invoice>): seq<Row> {
    if invs == [] then [] else InvoiceRows(invs[0]) + FlatRows(invs[1..])
  }

  function RowsOf(inv: Invoice): int {
    if |inv.items| == 0 then 1 else |inv.items|
  }

  function TxRow(t: Transaction): Row {
    [("ID", Text(t.id)), ("Type", Text(TypeText(t.kind))), ("Category", Text(t.category)),
     ("Amount", Num(t.amount)), ("Date", Text(t.date)), ("Note", Text(t.note))]
  }

  function InventoryRow(i: InventoryItem): Row {
    [("ID", Text(i.id)), ("Name", Text(i.name)), ("SKU", Text(i.sku)), ("Category", Text(i.category)),
     ("Unit", Text(i.unit)), ("OpeningQty", Num(i.openingQty)), ("CurrentQty", Num(i.currentQty)),
     ("PurchasePrice", Num(i.purchasePrice)), ("SellingPrice", Num(i.sellingPrice)),
     ("ReorderLevel", Num(i.reorderLevel)), ("GSTRate", Num(i.gstRate))]
  }

  function OnOff(b: bool): string { if b then "On" else "Off" }

  function SettingsRow(p: Profile): Row {
    [("BusinessName", Text(p.businessName)), ("BusinessEmail", Text(p.email)), ("BusinessPhone", Text(p.phone)),
     ("GST", Text(p.gst)), ("Address", Text(p.address)), ("Currency", Text(p.currency)),
     ("EmailNotifications", Text(OnOff(p.emailNotifications))), ("DarkMode", Text(OnOff(p.darkMode)))]
  }

  /** A sheet for a list only when the list is not empty. */
  function SheetIf(name: string, rows: seq<Row>, nonEmpty: bool): seq<Sheet> {
    if nonEmpty then [Sheet(name, rows)] else []
  }

  function Export(d: ExportData): seq<Sheet> {
    SheetIf("Employees", MapSeq(d.employees, EmployeeRow), d.employees != [])
    + SheetIf("Invoices", FlatRows(d.invoices), d.invoices != [])
    + SheetIf("Transactions", MapSeq(d.transactions, TxRow), d.transactions != [])
    + SheetIf("Inventory", MapSeq(d.inventory, InventoryRow), d.inventory != [])
    + [Sheet("Settings", [SettingsRow(d.profile)])]
  }

  function SheetName(s: Sheet): string { s.name }

  function Names(sheets: seq<Sheet>): seq<string> {
    MapSeq(sheets, SheetName)
  }

  function Present(name: string, nonEmpty: bool): seq<string> {
    if nonEmpty then [name] else []
  }

  /** The sheets are, in order, those of the non-empty lists, then
      Settings. */
  lemma ExportSheetNames(d: ExportData)
    ensures Names(Export(d)) == Present("Employees", d.employees != []) + Present("Invoices", d.invoices != [])
                                + Present("Transactions", d.transactions != []) + Present("Inventory", d.inventory != [])
                                + ["Settings"]
  {
    var a := SheetIf("Employees", MapSeq(d.employees, EmployeeRow), d.employees != []);
    var b := SheetIf("Invoices", FlatRows(d.invoices), d.invoices != []);
    var c := SheetIf("Transactions", MapSeq(d.transactions, TxRow), d.transactions != []);
    var e := SheetIf("Inventory", MapSeq(d.inventory, InventoryRow), d.inventory != []);
    var s := [Sheet("Settings", [SettingsRow(d.profile)])];
    assert Export(d) == a + b + c + e + s;
    NamesOfFive(a, b, c, e, s);
    NamesSheetIf("Employees", MapSeq(d.employees, EmployeeRow), d.employees != []);
    NamesSheetIf("Invoices", FlatRows(d.invoices), d.invoices != []);
    NamesSheetIf("Transactions", MapSeq(d.transactions, TxRow), d.transactions != []);
    NamesSheetIf("Inventory", MapSeq(d.inventory, InventoryRow), d.inventory != []);
    assert Names(s) == ["Settings"];
  }

  lemma NamesSheetIf(name: string, rows: seq<Row>, nonEmpty: bool)
    ensures Names(SheetIf(name, rows, nonEmpty)) == Present(name, nonEmpty)
  {
  }

  lemma NamesOfFive(a: seq<Sheet>, b: seq<Sheet>, c: seq<Sheet>, e: seq<Sheet>, s: seq<Sheet>)
    ensures Names(a + b + c + e + s) == Names(a) + Names(b) + Names(c) + Names(e) + Names(s)
  {
    MapSeqAppend(a, b, SheetName);
    MapSeqAppend(a + b, c, SheetName);
    MapSeqAppend(a + b + c, e, SheetName);
    MapSeqAppend(a + b + c + e, s, SheetName);
  }

  /** The settings sheet is always last, with exactly one row, and no sheet
      is empty. */
  lemma ExportSheetRows(d: ExportData)
    ensures var w := Export(d);
            && w[|w| - 1] == Sheet("Settings", [SettingsRow(d.profile)])
            && forall i :: 0 <= i < |w| ==> w[i].rows != []
  {
    if d.invoices != [] {
      assert |InvoiceRows(d.invoices[0])| >= 1;
    }
  }

  /** The invoice sheet has one row per item, and one for each invoice
      without items: Σ max(1, |items|) rows. */
  lemma {:induction false} FlatRowsCount(invs: seq<Invoice>)
    ensures |FlatRows(invs)| == Sum(invs, RowsOf)
  {
    if invs != [] {
      FlatRowsCount(invs[1..]);
      SumCons(invs[0], invs[1..], RowsOf);
      assert invs == [invs[0]] + invs[1..];
    }
  }

  /** The value of a row's LineTotal column (0 when the row has none). */
  function RowLineTotal(r: Row): int {
    if |r| == 10 && r[9].0 == "LineTotal" && r[9].1.Num? then r[9].1.n else 0
  }

  /** Every row of an invoice starts with the invoice's own columns; an item
      row carries the item and qty * price, the placeholder carries zeros;
      and the LineTotal column adds up to the invoice total. */
  lemma InvoiceRowsSpec(inv: Invoice)
    ensures var r := InvoiceRows(inv);
            && (forall k :: 0 <= k < |r| ==> |r[k]| == 10 && r[k][..6] == InvoiceBase(inv))
            && (forall k :: 0 <= k < |inv.items| ==>
                  r[k][6..] == ItemColumns(inv.items[k].description, inv.items[k].qty, inv.items[k].price,
                                           LineTotal(inv.items[k])))
            && (inv.items == [] ==> r[0][6..] == ItemColumns("", 0, 0, 0))
            && Sum(r, RowLineTotal) == InvoiceTotal(inv.items)
  {
    var r := InvoiceRows(inv);
    forall k | 0 <= k < |r|
      ensures |r[k]| == 10 && r[k][..6] == InvoiceBase(inv)
    {
    }
    if inv.items != [] {
      LineTotalsAgree(inv, |inv.items|);
      assert r[..|inv.items|] == r && inv.items[..|inv.items|] == inv.items;
    }
  }

  lemma {:induction false} LineTotalsAgree(inv: Invoice, n: nat)
    requires inv.items != [] && n <= |inv.items|
    ensures Sum(InvoiceRows(inv)[..n], RowLineTotal) == Sum(inv.items[..n], LineTotal)
  {
    if n > 0 {
      var r := InvoiceRows(inv);
      LineTotalsAgree(inv, n - 1);
      assert r[..n][..n - 1] == r[..n - 1];
      assert inv.items[..n][..n - 1] == inv.items[..n - 1];
      assert RowLineTotal(r[n - 1]) == LineTotal(inv.items[n - 1]);
    } else {
      assert InvoiceRows(inv)[..0] == [];
    }
  }

  /** The LineTotal column of the whole invoice sheet adds up to the sum of
      the invoice totals. */
  lemma {:induction false} FlatRowsTotal(invs: seq<Invoice>)
    ensures Sum(FlatRows(invs), RowLineTotal) == Sum(invs, Total)
  {
    if invs != [] {
      FlatRowsTotal(invs[1..]);
      InvoiceRowsSpec(invs[0]);
      SumAppend(InvoiceRows(invs[0]), FlatRows(invs[1..]), RowLineTotal);
      SumCons(invs[0], invs[1..], Total);
      assert invs == [invs[0]] + invs[1..];
    }
  }

  function Total(inv: Invoice): int { InvoiceTotal(inv.items) }

  /** A transaction row read back column by column. */
  function ReadTx(r: Row): Option<Transaction> {
    if |r| == 6 && r[0].1.Text? && r[1].1.Text? && r[1].1.text in {"Income", "Expense"} && r[2].1.Text?
       && r[3].1.Num? && r[4].1.Text? && r[5].1.Text?
    then Some(Transaction(r[0].1.text, if r[1].1.text == "Income" then Income else Expense, r[2].1.text,
                          r[3].1.n, r[4].1.text, r[5].1.text))
    else None
  }

  /** A transaction row loses nothing: it reads back as the transaction, and
      the sheet has one row per transaction in order. */
  lemma TxRowRoundTrip(t: Transaction)
    ensures ReadTx(TxRow(t)) == Some(t)
  {
  }

  /** An employee row keeps the id, name, role and avatar, not the
      attendance. */
  lemma EmployeeRowDropsAttendance(e: Employee, att: Attendance)
    ensures EmployeeRow(e.(attendance := att)) == EmployeeRow(e)
    ensures |EmployeeRow(e)| == 4 && EmployeeRow(e)[0].1 == Text(e.id) && EmployeeRow(e)[1].1 == Text(e.name)
  {
  }

  /** The settings row shows the two switches as On/Off and leaves out the
      two-factor switch, the owner's name and the onboarding flag. */
  lemma SettingsRowSpec(p: Profile)
    ensures var r := SettingsRow(p);
            && |r| == 8
            && r[6].1 == Text(if p.emailNotifications then "On" else "Off")
            && r[7].1 == Text(if p.darkMode then "On" else "Off")
            && SettingsRow(p.(twoFactorAuth := !p.twoFactorAuth, name := "", onboardingComplete := !p.onboardingComplete)) == r
  {
  }
}
