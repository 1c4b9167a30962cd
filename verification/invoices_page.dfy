/** The invoices page: the line-item editor of the new-invoice form, the
    create action that hands a cleaned-up invoice to the store, and the
    reset of the form afterwards. */
module InvoicesPage {
  import opened Common
  import opened Domain
  import opened AppStore

  /** The row the form starts with and `addItem` appends. */
  const BlankItem := InvoiceItem("", 1, 0)

  /** `addItem`: one blank row at the end. */
  function AddItem(items: seq<InvoiceItem>): seq<InvoiceItem> {
    items + [BlankItem]
  }

  /** `prev.filter((_, idx) => idx !== i)`: every row except the one at
      position i. */
  function RemoveItem(items: seq<InvoiceItem>, i: int): (r: seq<InvoiceItem>)
    ensures |r| <= |items|
  {
    if items == [] then []
    else (if i == 0 then [] else [items[0]]) + RemoveItem(items[1..], i - 1)
  }

  /** A blank row adds nothing to the total, and removing it again gives the
      rows back. */
  lemma AddItemSpec(items: seq<InvoiceItem>)
    ensures |AddItem(items)| == |items| + 1 && AddItem(items)[..|items|] == items
    ensures InvoiceTotal(AddItem(items)) == InvoiceTotal(items)
    ensures RemoveItem(AddItem(items), |items|) == items
  {
    InvoiceTotalAppend(items, BlankItem);
    RemoveAppended(items, BlankItem);
  }

  lemma {:induction false} RemoveAppended(items: seq<InvoiceItem>, it: InvoiceItem)
    ensures RemoveItem(items + [it], |items|) == items
  {
    if items == [] {
      assert RemoveItem([it], 0) == [] + RemoveItem([], -1);
    } else {
      assert (items + [it])[1..] == items[1..] + [it];
      RemoveAppended(items[1..], it);
    }
  }

  /** Removing position i drops exactly that row and keeps the others in
      order; a position outside the list removes nothing. */
  lemma {:induction false} RemoveItemSpec(items: seq<InvoiceItem>, i: int)
    ensures 0 <= i < |items| ==> RemoveItem(items, i) == items[..i] + items[i + 1..]
    ensures !(0 <= i < |items|) ==> RemoveItem(items, i) == items
  {
    if items != [] {
      RemoveItemSpec(items[1..], i - 1);
      if i == 0 {
        assert items[1..] == items[..0] + items[1..];
      } else if 0 < i < |items| {
        assert items[..i] == [items[0]] + items[1..][..i - 1];
        assert items[i + 1..] == items[1..][i..];
      } else {
        assert items == [items[0]] + items[1..];
      }
    }
  }

  /** Removing a row lowers the total by exactly that row's line total. */
  lemma {:induction false} RemoveItemTotal(items: seq<InvoiceItem>, i: nat)
    requires i < |items|
    ensures InvoiceTotal(RemoveItem(items, i)) == InvoiceTotal(items) - LineTotal(items[i])
  {
    assert items == [items[0]] + items[1..];
    SumCons(items[0], items[1..], LineTotal);
    assert InvoiceTotal(items) == LineTotal(items[0]) + InvoiceTotal(items[1..]);
    if i == 0 {
      RemoveItemSpec(items[1..], -1);
      assert RemoveItem(items, 0) == items[1..];
    } else {
      RemoveItemTotal(items[1..], i - 1);
      SumCons(items[0], RemoveItem(items[1..], i - 1), LineTotal);
    }
  }

  /** One field of a row and its new value; the number inputs hand over
      `Number(value)`, which a number input keeps a whole number here. */
  datatype Field = Description(text: string) | Qty(qty: int) | Price(price: int)

  /** `{ ...item, [field]: val }`. */
  function SetField(it: InvoiceItem, f: Field): InvoiceItem {
    match f
    case Description(t) => it.(description := t)
    case Qty(q) => it.(qty := q)
    case Price(p) => it.(price := p)
  }

  /** `prev.map((item, idx) => idx === i ? { ...item, [field]: val } : item)`. */
  function UpdateItem(items: seq<InvoiceItem>, i: int, f: Field): (r: seq<InvoiceItem>)
    ensures |r| == |items|
  {
    seq(|items|, k requires 0 <= k < |items| => if k == i then SetField(items[k], f) else items[k])
  }

  /** Only the named field of row i changes: the other rows, and the other
      fields of row i, stay as they were; the total moves by the change of
      that row's line total, and a description edit leaves it alone. */
  lemma UpdateItemSpec(items: seq<InvoiceItem>, i: nat, f: Field)
    requires i < |items|
    ensures var r := UpdateItem(items, i, f);
            && (forall k :: 0 <= k < |items| && k != i ==> r[k] == items[k])
            && r[i].description == (if f.Description? then f.text else items[i].description)
            && r[i].qty == (if f.Qty? then f.qty else items[i].qty)
            && r[i].price == (if f.Price? then f.price else items[i].price)
            && InvoiceTotal(r) == InvoiceTotal(items) - LineTotal(items[i]) + LineTotal(r[i])
            && (f.Description? ==> InvoiceTotal(r) == InvoiceTotal(items))
  {
    var r := UpdateItem(items, i, f);
    assert r == items[i := SetField(items[i], f)];
    SumUpdate(items, i, SetField(items[i], f), LineTotal);
  }

  /** An index outside the list changes nothing. */
  lemma UpdateItemOutside(items: seq<InvoiceItem>, i: int, f: Field)
    requires !(0 <= i < |items|)
    ensures UpdateItem(items, i, f) == items
  {
  }

  // ---------------------------------------------------------------------------
  // Creating an invoice
  // ---------------------------------------------------------------------------

  /** The form's state; `today` stands for `new Date()` cut to its date. */
  datatype InvoiceForm = InvoiceForm(
    client: string,
    date: string,
    dueDate: string,
    items: seq<InvoiceItem>,
    open: bool)

  function BlankForm(today: string): InvoiceForm {
    InvoiceForm("", today, "", [BlankItem], false)
  }

  /** `it => it.description.trim()` as a filter test. */
  predicate HasDescription(it: InvoiceItem) {
    Trim(it.description) != ""
  }

  /** What `createInvoice` hands to the store. */
  function FormInput(form: InvoiceForm): InvoiceInput {
    InvoiceInput(Trim(form.client), form.date,
                 if form.dueDate == "" then form.date else form.dueDate,
                 Filter(form.items, HasDescription))
  }

  /** `createInvoice`: nothing happens for a blank client; otherwise the store
      adds the invoice and the form goes back to a single blank row, closed. */
  function CreateInvoice(form: InvoiceForm, s: AppState, id: Id, now: string, today: string): (r: (InvoiceForm, Step))
    ensures Trim(form.client) == "" ==> r == (form, Step(s, []))
    ensures Trim(form.client) != "" ==> r.0 == BlankForm(today) && r.1 == AddInvoice(s, FormInput(form), id, now)
  {
    if Trim(form.client) == "" then (form, Step(s, []))
    else (BlankForm(today), AddInvoice(s, FormInput(form), id, now))
  }

  /** For a signed-in owner the call changes the store exactly when the
      client is not white space only. */
  lemma CreateInvoiceNoOp(form: InvoiceForm, s: AppState, id: Id, now: string, today: string)
    requires s.uid.Some?
    ensures AllSpace(form.client) <==> CreateInvoice(form, s, id, now, today).1.state == s
  {
    TrimEmptyIffAllSpace(form.client);
    var r := CreateInvoice(form, s, id, now, today);
    if !AllSpace(form.client) {
      assert |r.1.state.invoices| == |s.invoices| + 1;
    }
  }

  /** Otherwise the new invoice at the front carries the trimmed client and
      the due date (the date when none was given); the form is back to one
      blank row and closed. */
  lemma CreateInvoiceSpec(form: InvoiceForm, s: AppState, id: Id, now: string, today: string)
    requires s.uid.Some? && !AllSpace(form.client)
    ensures var r := CreateInvoice(form, s, id, now, today);
            var inv := r.1.state.invoices[0];
            && r.1.state.invoices[1..] == s.invoices
            && inv.client == Trim(form.client) && inv.client != ""
            && Unpadded(inv.client)
            && inv.date == form.date
            && inv.dueDate == (if form.dueDate == "" then form.date else form.dueDate)
            && r.0.items == [BlankItem] && !r.0.open && r.0.client == ""
  {
    TrimmedClient(form.client);
    CreatedInvoice(form, s, id, now, today);
  }

  lemma TrimmedClient(client: string)
    requires !AllSpace(client)
    ensures Trim(client) != "" && Unpadded(Trim(client))
  {
    TrimEmptyIffAllSpace(client);
  }

  /** Its rows are the rows of the form with a description, in their order
      and as often as they occur, dropping exactly the blank ones. */
  lemma CreateInvoiceItems(form: InvoiceForm, s: AppState, id: Id, now: string, today: string)
    requires s.uid.Some? && !AllSpace(form.client)
    ensures var items := CreateInvoice(form, s, id, now, today).1.state.invoices[0].items;
            && IsSubsequence(items, form.items)
            && (forall k :: 0 <= k < |items| ==> HasDescription(items[k]))
            && (forall k :: 0 <= k < |form.items| && HasDescription(form.items[k]) ==> form.items[k] in items)
            && (forall it :: multiset(items)[it] == if HasDescription(it) then multiset(form.items)[it] else 0)
  {
    TrimEmptyIffAllSpace(form.client);
    CreatedInvoice(form, s, id, now, today);
    DescribedRows(form.items);
  }

  /** The invoice the store gains, field by field. */
  lemma CreatedInvoice(form: InvoiceForm, s: AppState, id: Id, now: string, today: string)
    requires s.uid.Some? && Trim(form.client) != ""
    ensures var r := CreateInvoice(form, s, id, now, today);
            && r.0 == BlankForm(today)
            && |r.1.state.invoices| == |s.invoices| + 1 && r.1.state.invoices[1..] == s.invoices
            && r.1.state.invoices[0].client == Trim(form.client)
            && r.1.state.invoices[0].date == form.date
            && r.1.state.invoices[0].dueDate == (if form.dueDate == "" then form.date else form.dueDate)
            && r.1.state.invoices[0].items == Filter(form.items, HasDescription)
  {
    var r := CreateInvoice(form, s, id, now, today);
    assert r.1 == AddInvoice(s, FormInput(form), id, now);
  }

  /** The rows with a description, in order and as often as they occur. */
  lemma DescribedRows(items: seq<InvoiceItem>)
    ensures var f := Filter(items, HasDescription);
            && IsSubsequence(f, items)
            && (forall k :: 0 <= k < |f| ==> HasDescription(f[k]))
            && (forall k :: 0 <= k < |items| && HasDescription(items[k]) ==> items[k] in f)
            && (forall it :: multiset(f)[it] == if HasDescription(it) then multiset(items)[it] else 0)
  {
    FilterIsSubsequence(items, HasDescription);
    FilterMultiset(items, HasDescription);
  }
}
