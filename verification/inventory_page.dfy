/** The inventory page: the stock figures over the item list, the low-stock
    test, the `Number(x) || 0` coercion of the number inputs, and saving the
    form as a new item or over the item being edited. */
module InventoryPage {
  import opened Common
  import opened Domain

  // ---------------------------------------------------------------------------
  // Stock figures
  // ---------------------------------------------------------------------------

  /** The low-stock test, inclusive: at or below the reorder level. Both the
      count in the overview and the "Low" badge of a row use it. */
  predicate IsLow(it: InventoryItem) {
    it.currentQty <= it.reorderLevel
  }

  function StockQty(it: InventoryItem): int { it.currentQty }
  function StockValue(it: InventoryItem): int { it.currentQty * it.purchasePrice }

  datatype InventoryStats = InventoryStats(
    totalItems: nat,
    totalStockQty: int,
    totalStockValue: int,
    lowStockCount: nat)

  function Stats(inv: seq<InventoryItem>): (r: InventoryStats)
    ensures r.lowStockCount <= r.totalItems == |inv|
  {
    InventoryStats(|inv|, Sum(inv, StockQty), Sum(inv, StockValue), Count(inv, IsLow))
  }

  /** The figures grow item by item: one more item adds its quantity, its
      quantity times its purchase price, and one low-stock count when it is
      low. */
  lemma StatsAppend(inv: seq<InventoryItem>, it: InventoryItem)
    ensures var a, b := Stats(inv), Stats(inv + [it]);
            && b.totalItems == a.totalItems + 1
            && b.totalStockQty == a.totalStockQty + it.currentQty
            && b.totalStockValue == a.totalStockValue + it.currentQty * it.purchasePrice
            && b.lowStockCount == a.lowStockCount + (if IsLow(it) then 1 else 0)
  {
    SumAppend(inv, [it], StockQty);
    SumAppend(inv, [it], StockValue);
    assert [it][..0] == [];
    CountAppend(inv, it);
  }

  lemma {:induction false} CountAppend(inv: seq<InventoryItem>, it: InventoryItem)
    ensures Count(inv + [it], IsLow) == Count(inv, IsLow) + (if IsLow(it) then 1 else 0)
  {
    if inv != [] {
      assert (inv + [it])[1..] == inv[1..] + [it];
      CountAppend(inv[1..], it);
    }
  }

  /** No item is flagged low exactly when the low-stock count is 0, and every
      item is flagged exactly when the count is the number of items. */
  lemma LowStockCountSpec(inv: seq<InventoryItem>)
    ensures Stats(inv).lowStockCount == 0 <==> forall k :: 0 <= k < |inv| ==> !IsLow(inv[k])
    ensures Stats(inv).lowStockCount == |inv| <==> forall k :: 0 <= k < |inv| ==> IsLow(inv[k])
  {
    CountExtremes(inv, IsLow);
  }

  // ---------------------------------------------------------------------------
  // Number inputs
  // ---------------------------------------------------------------------------

  /** `Number(x) || 0`: text that is not a number (NaN) and the empty text
      both become 0. */
  function Coerce(x: string): int {
    match ParseNumber(x)
    case Some(v) => v
    case None => 0
  }

  /** The text of a whole number coerces back to that number; white space
      only and text that is not a number coerce to 0. */
  lemma CoerceSpec(x: string, i: int)
    ensures Coerce(IntToString(i)) == i
    ensures AllSpace(x) || ParseNumber(x).None? ==> Coerce(x) == 0
  {
    ParseNumberRoundTrip(i);
  }

  // ---------------------------------------------------------------------------
  // Saving the form
  // ---------------------------------------------------------------------------

  /** The form's fields. `startEdit` copies the whole item, its id included,
      while `startAdd` sets no id. */
  datatype Draft = Draft(
    id: Option<Id>,
    name: string,
    sku: string,
    category: string,
    unit: string,
    openingQty: int,
    currentQty: int,
    purchasePrice: int,
    sellingPrice: int,
    reorderLevel: int,
    gstRate: int)

  /** The form as `startAdd` sets it. */
  const BlankDraft := Draft(None, "", "", "General", "Unit", 0, 0, 0, 0, 0, 18)

  /** `startEdit(item)`: the form takes the item's fields. */
  function DraftOf(it: InventoryItem): Draft {
    Draft(Some(it.id), it.name, it.sku, it.category, it.unit, it.openingQty, it.currentQty,
          it.purchasePrice, it.sellingPrice, it.reorderLevel, it.gstRate)
  }

  /** `{ id, ...draft, name: draft.name.trim(), sku: draft.sku.trim() }`: the
      spread draft's own id, when it has one, overrides the given one. */
  function FromDraft(id: Id, d: Draft): InventoryItem {
    InventoryItem(Coalesce(d.id, id), Trim(d.name), Trim(d.sku), d.category, d.unit, d.openingQty,
                  d.currentQty, d.purchasePrice, d.sellingPrice, d.reorderLevel, d.gstRate)
  }

  /** `saveItem`: nothing without a name and an SKU; with a (non-empty)
      editing id every item with that id takes the form's fields; otherwise
      a new item with the fresh id joins the end. */
  function SaveItem(inv: seq<InventoryItem>, d: Draft, editingId: Option<Id>, freshId: Id): (r: seq<InventoryItem>)
  {
    if Trim(d.name) == "" || Trim(d.sku) == "" then inv
    else if editingId.Some? && editingId.value != "" then
      seq(|inv|, k requires 0 <= k < |inv| => if inv[k].id == editingId.value then FromDraft(inv[k].id, d) else inv[k])
    else inv + [FromDraft(freshId, d)]
  }

  /** A blank name or SKU changes nothing. */
  lemma SaveItemBlank(inv: seq<InventoryItem>, d: Draft, editingId: Option<Id>, freshId: Id)
    requires AllSpace(d.name) || AllSpace(d.sku)
    ensures SaveItem(inv, d, editingId, freshId) == inv
  {
    TrimEmptyIffAllSpace(d.name);
    TrimEmptyIffAllSpace(d.sku);
  }

  /** Editing keeps the list's length and order; the edited item takes
      every field of the form, with name and SKU trimmed, and its id is the
      form's id when the form carries one; every other item stays as it
      was. A form opened on that item keeps every id. */
  lemma SaveItemEdit(inv: seq<InventoryItem>, d: Draft, id: Id, freshId: Id, k: nat)
    requires !AllSpace(d.name) && !AllSpace(d.sku) && id != "" && k < |inv|
    ensures var r := SaveItem(inv, d, Some(id), freshId);
            && |r| == |inv|
            && (inv[k].id == id ==> r[k].id == Coalesce(d.id, id)
                                    && DraftOf(r[k]) == d.(id := Some(r[k].id), name := Trim(d.name), sku := Trim(d.sku)))
            && (inv[k].id != id ==> r[k] == inv[k])
            && (d.id.None? || d.id == Some(id) ==> r[k].id == inv[k].id)
  {
    TrimEmptyIffAllSpace(d.name);
    TrimEmptyIffAllSpace(d.sku);
  }

  /** Adding (no editing id, or an empty one) appends exactly one item with
      the form's fields, name and SKU trimmed and non-empty; its id is the
      fresh one for a form opened by `startAdd`, and the form's own id
      otherwise. */
  lemma SaveItemAdd(inv: seq<InventoryItem>, d: Draft, editingId: Option<Id>, freshId: Id)
    requires !AllSpace(d.name) && !AllSpace(d.sku)
    requires editingId.None? || editingId.value == ""
    ensures var r := SaveItem(inv, d, editingId, freshId);
            && |r| == |inv| + 1 && r[..|inv|] == inv
            && r[|inv|].id == Coalesce(d.id, freshId)
            && (d.id.None? ==> r[|inv|].id == freshId)
            && DraftOf(r[|inv|]) == d.(id := Some(r[|inv|].id), name := Trim(d.name), sku := Trim(d.sku))
            && r[|inv|].name != "" && r[|inv|].sku != ""
  {
    TrimEmptyIffAllSpace(d.name);
    TrimEmptyIffAllSpace(d.sku);
    var r := SaveItem(inv, d, editingId, freshId);
    assert r == inv + [FromDraft(freshId, d)];
    assert r[|inv|] == FromDraft(freshId, d);
  }

  /** Opening an item for editing and saving without a change gives the list
      back, when its name and SKU carry no surrounding white space and no
      other item shares its id. */
  lemma EditWithoutChange(inv: seq<InventoryItem>, k: nat, freshId: Id)
    requires k < |inv| && inv[k].id != ""
    requires inv[k].name != "" && !IsSpace(inv[k].name[0]) && !IsSpace(inv[k].name[|inv[k].name| - 1])
    requires inv[k].sku != "" && !IsSpace(inv[k].sku[0]) && !IsSpace(inv[k].sku[|inv[k].sku| - 1])
    requires forall j :: 0 <= j < |inv| && inv[j].id == inv[k].id ==> j == k
    ensures SaveItem(inv, DraftOf(inv[k]), Some(inv[k].id), freshId) == inv
  {
    TrimOfTrimmed(inv[k].name);
    TrimOfTrimmed(inv[k].sku);
    var r := SaveItem(inv, DraftOf(inv[k]), Some(inv[k].id), freshId);
    assert r[k] == inv[k];
  }

  /** An item whose id is empty cannot be edited: `if (editingId)` fails, so
      saving the unchanged form appends a second copy with the same empty
      id instead of replacing the item. */
  lemma EditOfEmptyIdAppends(inv: seq<InventoryItem>, k: nat, freshId: Id)
    requires k < |inv| && inv[k].id == ""
    requires !AllSpace(inv[k].name) && !AllSpace(inv[k].sku)
    ensures var r := SaveItem(inv, DraftOf(inv[k]), Some(inv[k].id), freshId);
            && |r| == |inv| + 1 && r[..|inv|] == inv && r[|inv|].id == ""
  {
    SaveItemAdd(inv, DraftOf(inv[k]), Some(inv[k].id), freshId);
  }
}
