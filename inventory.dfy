/** The admin inventory page: an item table with an add history and a
    disbursement history, the handlers that validate a form and then replace
    those lists, the stock-status rule, the search and the pagination.
    Numeric form inputs are taken as the numbers they parse to; `None` stands
    for an empty input. Dates are the caller's `today`. */
module Inventory {
  import opened Optional
  import Text
  import Seqs

  datatype Item = Item(
    id: int,
    name: string,
    category: string,
    quantity: int,
    status: string,
    lastUpdated: string,
    dateAdded: string,
    unitPrice: real,
    vendor: string,
    description: string)

  datatype AddRecord = AddRecord(
    id: int, date: string, itemName: string, quantity: int, vendor: string, addedBy: string)

  datatype DisbursementRecord = DisbursementRecord(
    id: int, date: string, itemName: string, quantity: int, receiver: string, purpose: string,
    disbursedBy: string)

  datatype AddForm = AddForm(
    name: string, category: string, quantity: Option<int>, unitPrice: Option<real>,
    vendor: string, description: string)

  datatype DisburseForm = DisburseForm(
    itemId: Option<int>, quantity: Option<int>, receiver: string, purpose: string)

  datatype EditForm = EditForm(
    name: string, category: string, vendor: string, description: string, unitPrice: Option<real>)

  datatype StockForm = StockForm(adjustment: Option<int>, reason: string)

  const EmptyAddForm := AddForm("", "", None, None, "", "")
  const EmptyDisburseForm := DisburseForm(None, None, "", "")
  const EmptyEditForm := EditForm("", "", "", "", None)
  const EmptyStockForm := StockForm(None, "")

  /** Who the handlers record as the actor. */
  const Actor := "Admin User"

  const ItemsPerPage: nat := 5

  const InitialItems: seq<Item> := [
    Item(1, "Classroom Desks", "Furniture", 150, "In Stock", "2024-01-15", "2023-08-15", 120.0,
         "Office Furniture Co.",
         "High-quality wooden desks suitable for classroom use. Includes storage compartment and adjustable height feature."),
    Item(2, "Whiteboard Markers", "Stationery", 8, "Low", "2024-01-14", "2023-09-10", 2.5,
         "Stationery Plus", "Dry erase markers in assorted colors. Non-toxic and easy to erase."),
    Item(3, "Projectors", "Electronics", 25, "In Stock", "2024-01-13", "2023-07-20", 450.0,
         "Tech Solutions", "HD multimedia projectors with wireless connectivity and long lamp life."),
    Item(4, "Laboratory Equipment", "Science", 0, "Out", "2024-01-12", "2023-06-05", 200.0,
         "Science Supply Co.",
         "Complete laboratory equipment set including microscopes, beakers, and measurement tools."),
    Item(5, "Sports Equipment", "Physical Education", 45, "In Stock", "2024-01-11", "2023-08-30", 35.0,
         "Sports World", "Assorted sports equipment including balls, cones, and training accessories."),
    Item(6, "Art Supplies", "Creative", 12, "Low", "2024-01-10", "2023-09-15", 15.0,
         "Creative Arts", "Complete art supply kit with paints, brushes, canvas, and drawing materials.")
  ]

  const InitialAddHistory: seq<AddRecord> := [
    AddRecord(1, "2024-01-15", "Classroom Desks", 50, "Office Furniture Co.", "Admin User"),
    AddRecord(2, "2024-01-14", "Whiteboard Markers", 100, "Stationery Plus", "Admin User")
  ]

  const InitialDisbursementHistory: seq<DisbursementRecord> := [
    DisbursementRecord(1, "2024-01-16", "Whiteboard Markers", 20, "Grade 5 Teachers",
                       "Monthly classroom supplies", "Admin User"),
    DisbursementRecord(2, "2024-01-15", "Sports Equipment", 5, "PE Department",
                       "Physical education classes", "Admin User")
  ]

  // ---------------------------------------------------------------------
  // Stock status and the table invariants

  /** `getItemStatus`: "Out" at exactly zero, "Low" for every other quantity
      up to 15 (negative ones included), "In Stock" above. */
  function GetItemStatus(quantity: int): (s: string)
    ensures s == "Out" <==> quantity == 0
    ensures s == "Low" <==> quantity != 0 && quantity <= 15
    ensures s == "In Stock" <==> quantity > 15
  {
    if quantity == 0 then "Out" else if quantity <= 15 then "Low" else "In Stock"
  }

  predicate StatusConsistent(item: Item)
  {
    item.status == GetItemStatus(item.quantity)
  }

  /** Every row's status is the one its quantity calls for. */
  ghost predicate AllConsistent(items: seq<Item>)
  {
    forall i :: 0 <= i < |items| ==> StatusConsistent(items[i])
  }

  /** Consistent status and no negative stock. */
  ghost predicate AllStocked(items: seq<Item>)
  {
    forall i :: 0 <= i < |items| ==> items[i].quantity >= 0 && StatusConsistent(items[i])
  }

  /** Row i carries id i + 1, as every id the page hands out is the list's
      length plus one and no row is ever removed. */
  ghost predicate SequentialIds(items: seq<Item>)
  {
    forall i :: 0 <= i < |items| ==> items[i].id == i + 1
  }

  /** History ids run over 1..n without repetition. */
  ghost predicate RecordIdsUnique<T>(h: seq<T>, id: T -> int)
  {
    && (forall i :: 0 <= i < |h| ==> 1 <= id(h[i]) <= |h|)
    && (forall i, j :: 0 <= i < j < |h| ==> id(h[i]) != id(h[j]))
  }

  function AddRecordId(r: AddRecord): int { r.id }

  function DisbursementId(r: DisbursementRecord): int { r.id }

  /** Prepending a record numbered length + 1 keeps the ids unique. */
  lemma {:induction false} PrependFreshId<T>(h: seq<T>, id: T -> int, r: T)
    requires RecordIdsUnique(h, id) && id(r) == |h| + 1
    ensures RecordIdsUnique([r] + h, id)
  {
    var h' := [r] + h;
    forall i | 1 <= i < |h'|
      ensures h'[i] == h[i - 1]
    {
    }
  }

  /** The six initial rows satisfy the table invariants. */
  lemma InitialItemsValid()
    ensures AllStocked(InitialItems) && AllConsistent(InitialItems) && SequentialIds(InitialItems)
  {
    var s := InitialItems;
    forall i | 0 <= i < |s|
      ensures s[i].id == i + 1 && s[i].quantity >= 0 && StatusConsistent(s[i])
    {
      if i == 0 {} else if i == 1 {} else if i == 2 {} else if i == 3 {} else if i == 4 {} else {}
    }
  }

  lemma InitialHistoriesValid()
    ensures RecordIdsUnique(InitialAddHistory, AddRecordId)
    ensures RecordIdsUnique(InitialDisbursementHistory, DisbursementId)
  {
  }

  // ---------------------------------------------------------------------
  // Lookup and row updates

  /** `inventoryItems.find(item => item.id === id)`. */
  function FindItem(items: seq<Item>, id: int): (r: Option<Item>)
    ensures r == None <==> forall i :: 0 <= i < |items| ==> items[i].id != id
    ensures r.Some? ==> r.value in items && r.value.id == id
  {
    var i := Seqs.FirstIndex(items, (it: Item) => it.id == id);
    if i < 0 then None else Some(items[i])
  }

  /** With sequential ids the lookup of id k is row k - 1. */
  lemma {:induction false} FindBySequentialId(items: seq<Item>, id: int)
    requires SequentialIds(items)
    ensures FindItem(items, id) == if 1 <= id <= |items| then Some(items[id - 1]) else None
  {
    var i := Seqs.FirstIndex(items, (it: Item) => it.id == id);
    if 1 <= id <= |items| {
      assert items[id - 1].id == id;
      assert i == id - 1;
    }
  }

  /** `items.map(item => item.id === id ? f(item) : item)`. */
  function UpdateWhere(items: seq<Item>, id: int, f: Item -> Item): (r: seq<Item>)
    ensures |r| == |items|
    ensures forall i :: 0 <= i < |items| ==> r[i] == if items[i].id == id then f(items[i]) else items[i]
  {
    if items == [] then []
    else [if items[0].id == id then f(items[0]) else items[0]] + UpdateWhere(items[1..], id, f)
  }

  /** With sequential ids the map changes one row, or none when the id is
      out of range. */
  lemma {:induction false} UpdateSequential(items: seq<Item>, id: int, f: Item -> Item)
    requires SequentialIds(items)
    ensures UpdateWhere(items, id, f)
            == if 1 <= id <= |items| then items[id - 1 := f(items[id - 1])] else items
  {
  }

  /** The quantity, its status and the update date set together. */
  function Restocked(item: Item, quantity: int, today: string): (r: Item)
    ensures StatusConsistent(r) && r.quantity == quantity
  {
    item.(quantity := quantity, status := GetItemStatus(quantity), lastUpdated := today)
  }

  // ---------------------------------------------------------------------
  // Adding an item

  /** The required fields of the add form: all but the description. */
  predicate AddFormComplete(f: AddForm)
  {
    f.name != "" && f.category != "" && f.quantity.Some? && f.unitPrice.Some? && f.vendor != ""
  }

  /** The row `handleAddItem` appends. */
  function NewItem(f: AddForm, id: int, today: string): (r: Item)
    requires AddFormComplete(f)
    ensures StatusConsistent(r) && r.id == id && r.quantity == f.quantity.value
  {
    var q := f.quantity.value;
    Item(id, f.name, f.category, q, GetItemStatus(q), today, today, f.unitPrice.value, f.vendor, f.description)
  }

  /** The record `handleAddItem` prepends to the add history. */
  function NewAddRecord(f: AddForm, id: int, today: string): AddRecord
    requires AddFormComplete(f)
  {
    AddRecord(id, today, f.name, f.quantity.value, f.vendor, Actor)
  }

  /** Adding keeps status consistency and sequential ids, and keeps stock
      non-negative exactly when the entered quantity is non-negative: the
      handler does not check its sign. */
  lemma {:induction false} AddKeepsInvariant(items: seq<Item>, f: AddForm, today: string)
    requires AddFormComplete(f) && AllConsistent(items) && SequentialIds(items)
    ensures var r := items + [NewItem(f, |items| + 1, today)];
            AllConsistent(r) && SequentialIds(r)
    ensures AllStocked(items) ==>
            (AllStocked(items + [NewItem(f, |items| + 1, today)]) <==> f.quantity.value >= 0)
  {
    var r := items + [NewItem(f, |items| + 1, today)];
    assert r[|items|] == NewItem(f, |items| + 1, today);
    assert forall i :: 0 <= i < |items| ==> r[i] == items[i];
  }

  /** An add form with quantity -5 passes the guard and stores a negative
      stock level with status "Low". */
  lemma NegativeQuantityAccepted(items: seq<Item>, today: string)
    ensures var f := AddForm("Chairs", "Furniture", Some(-5), Some(10.0), "Office Furniture Co.", "");
            && AddFormComplete(f)
            && NewItem(f, |items| + 1, today).quantity == -5
            && NewItem(f, |items| + 1, today).status == "Low"
  {
  }

  // ---------------------------------------------------------------------
  // Disbursing

  datatype DisburseOutcome = DisburseMissingFields | ItemNotFound | InsufficientStock | Disbursed

  predicate DisburseFormComplete(f: DisburseForm)
  {
    f.itemId.Some? && f.quantity.Some? && f.receiver != "" && f.purpose != ""
  }

  /** The guards of `handleDisburseItem`, in their order. */
  function CheckDisbursement(items: seq<Item>, f: DisburseForm): DisburseOutcome
  {
    if !DisburseFormComplete(f) then DisburseMissingFields
    else match FindItem(items, f.itemId.value)
      case None => ItemNotFound
      case Some(item) => if f.quantity.value > item.quantity then InsufficientStock else Disbursed
  }

  /** Every row with the id loses the quantity. */
  function DisbursedItems(items: seq<Item>, id: int, quantity: int, today: string): seq<Item>
  {
    UpdateWhere(items, id, (it: Item) => Restocked(it, it.quantity - quantity, today))
  }

  /** The record `handleDisburseItem` prepends, naming the found item. */
  function NewDisbursement(item: Item, f: DisburseForm, id: int, today: string): DisbursementRecord
    requires DisburseFormComplete(f)
  {
    DisbursementRecord(id, today, item.name, f.quantity.value, f.receiver, f.purpose, Actor)
  }

  /** Under sequential ids the guards read: a complete form whose id names a
      row is refused only when it asks for more than that row holds. */
  lemma {:induction false} DisbursementGuards(items: seq<Item>, f: DisburseForm)
    requires SequentialIds(items) && DisburseFormComplete(f)
    ensures var id := f.itemId.value;
            && (CheckDisbursement(items, f) == ItemNotFound <==> !(1 <= id <= |items|))
            && (CheckDisbursement(items, f) == Disbursed
                <==> 1 <= id <= |items| && f.quantity.value <= items[id - 1].quantity)
  {
    FindBySequentialId(items, f.itemId.value);
  }

  /** A successful disbursement changes only the named row: its quantity
      drops by the amount asked for, its status follows, and the stock stays
      non-negative. */
  lemma {:induction false} DisbursementKeepsInvariant(items: seq<Item>, f: DisburseForm, today: string)
    requires AllStocked(items) && SequentialIds(items)
    requires CheckDisbursement(items, f) == Disbursed
    ensures var id, q := f.itemId.value, f.quantity.value;
            var r := DisbursedItems(items, id, q, today);
            && 1 <= id <= |items|
            && r == items[id - 1 := Restocked(items[id - 1], items[id - 1].quantity - q, today)]
            && AllStocked(r) && SequentialIds(r)
  {
    var id, q := f.itemId.value, f.quantity.value;
    DisbursementGuards(items, f);
    UpdateSequential(items, id, (it: Item) => Restocked(it, it.quantity - q, today));
  }

  /** Status consistency survives any disbursement that gets through, even
      without the other invariants. */
  lemma {:induction false} DisbursementKeepsConsistency(items: seq<Item>, id: int, q: int, today: string)
    requires AllConsistent(items)
    ensures AllConsistent(DisbursedItems(items, id, q, today))
    ensures SequentialIds(items) ==> SequentialIds(DisbursedItems(items, id, q, today))
    ensures forall i :: 0 <= i < |items| && items[i].id != id ==> DisbursedItems(items, id, q, today)[i] == items[i]
  {
    var r := DisbursedItems(items, id, q, today);
    assert forall i :: 0 <= i < |items| ==> r[i].id == items[i].id;
    forall i | 0 <= i < |items|
      ensures StatusConsistent(r[i])
    {
      assert StatusConsistent(items[i]);
    }
  }

  // ---------------------------------------------------------------------
  // Editing

  datatype EditOutcome = EditMissingFields | EditNoItemSelected | EditSaved

  /** `handleEditItem`'s pre-filled form. */
  function PrefillEditForm(item: Item): EditForm
  {
    EditForm(item.name, item.category, item.vendor, item.description, Some(item.unitPrice))
  }

  predicate EditFormComplete(f: EditForm)
  {
    f.name != "" && f.category != "" && f.vendor != "" && f.unitPrice.Some?
  }

  /** `handleSaveEdit`'s outcome. Without a selected item the row update
      dereferences null, which raises as soon as there is a row to visit;
      with no rows the map visits nothing and the handler reports success. */
  function CheckEdit(f: EditForm, selected: Option<Item>, items: seq<Item>): EditOutcome
  {
    if !EditFormComplete(f) then EditMissingFields
    else if selected.None? && items != [] then EditNoItemSelected
    else EditSaved
  }

  /** The edited fields; quantity, status, id and date added are kept. */
  function Edited(item: Item, f: EditForm, today: string): Item
    requires EditFormComplete(f)
  {
    item.(name := f.name, category := f.category, vendor := f.vendor, description := f.description,
          unitPrice := f.unitPrice.value, lastUpdated := today)
  }

  function EditedItems(items: seq<Item>, id: int, f: EditForm, today: string): seq<Item>
    requires EditFormComplete(f)
  {
    UpdateWhere(items, id, (it: Item) => Edited(it, f, today))
  }

  /** An edit leaves every row's id, quantity, status and date added alone,
      so it keeps all table invariants. */
  lemma {:induction false} EditKeepsStock(items: seq<Item>, id: int, f: EditForm, today: string)
    requires EditFormComplete(f)
    ensures var r := EditedItems(items, id, f, today);
            && |r| == |items|
            && (forall i :: 0 <= i < |items| ==>
                  && r[i].id == items[i].id && r[i].quantity == items[i].quantity
                  && r[i].status == items[i].status && r[i].dateAdded == items[i].dateAdded)
            && (AllStocked(items) ==> AllStocked(r))
            && (AllConsistent(items) ==> AllConsistent(r))
            && (SequentialIds(items) ==> SequentialIds(r))
  {
    var r := EditedItems(items, id, f, today);
    assert forall i :: 0 <= i < |items| ==> r[i].quantity == items[i].quantity && r[i].status == items[i].status;
  }

  /** Saving the pre-filled form unchanged touches only the update date, and
      it is accepted exactly when the item's text fields are non-empty. */
  lemma PrefillRoundTrip(item: Item, today: string)
    ensures EditFormComplete(PrefillEditForm(item)) <==> item.name != "" && item.category != "" && item.vendor != ""
    ensures EditFormComplete(PrefillEditForm(item)) ==>
            Edited(item, PrefillEditForm(item), today) == item.(lastUpdated := today)
  {
  }

  // ---------------------------------------------------------------------
  // Stock adjustment

  datatype StockOutcome = MissingAdjustment | StockNoItemSelected | NegativeStock | StockUpdated

  /** `handleSaveStockUpdate`'s guards. The new quantity is computed from the
      item as it was when the dialog opened. */
  function CheckStockUpdate(selected: Option<Item>, f: StockForm): StockOutcome
  {
    if f.adjustment.None? then MissingAdjustment
    else if selected.None? then StockNoItemSelected
    else if selected.value.quantity + f.adjustment.value < 0 then NegativeStock
    else StockUpdated
  }

  /** Every row with the id gets the quantity. */
  function SetQuantity(items: seq<Item>, id: int, quantity: int, today: string): seq<Item>
  {
    UpdateWhere(items, id, (it: Item) => Restocked(it, quantity, today))
  }

  function StockUpdatedItems(items: seq<Item>, selected: Item, adjustment: int, today: string): seq<Item>
  {
    SetQuantity(items, selected.id, selected.quantity + adjustment, today)
  }

  /** Setting a row's quantity keeps status consistency and the ids, keeps
      the stock non-negative when the new quantity is, and leaves the other
      rows alone. */
  lemma {:induction false} SetQuantityKeepsInvariant(items: seq<Item>, id: int, q: int, today: string)
    ensures var r := SetQuantity(items, id, q, today);
            && (AllConsistent(items) ==> AllConsistent(r))
            && (SequentialIds(items) ==> SequentialIds(r))
            && (q >= 0 && AllStocked(items) ==> AllStocked(r))
            && (forall i :: 0 <= i < |items| && items[i].id != id ==> r[i] == items[i])
  {
    var r := SetQuantity(items, id, q, today);
    assert forall i :: 0 <= i < |items| ==>
      r[i].id == items[i].id && (items[i].id == id ==> r[i].quantity == q && StatusConsistent(r[i]));
  }

  /** An accepted adjustment keeps the table invariants and leaves the rows
      with other ids alone. */
  lemma {:induction false} StockUpdateKeepsInvariant(items: seq<Item>, selected: Item, f: StockForm, today: string)
    requires CheckStockUpdate(Some(selected), f) == StockUpdated
    ensures var r := StockUpdatedItems(items, selected, f.adjustment.value, today);
            && (AllStocked(items) ==> AllStocked(r))
            && (AllConsistent(items) ==> AllConsistent(r))
            && (SequentialIds(items) ==> SequentialIds(r))
            && (forall i :: 0 <= i < |items| && items[i].id != selected.id ==> r[i] == items[i])
  {
    SetQuantityKeepsInvariant(items, selected.id, selected.quantity + f.adjustment.value, today);
  }

  /** With sequential ids an accepted adjustment rewrites exactly the
      selected row, to the dialog's quantity plus the adjustment; that is the
      row's current quantity plus the adjustment when the row has not changed
      since the dialog opened. */
  lemma {:induction false} StockUpdateRewritesRow(items: seq<Item>, selected: Item, adjustment: int, today: string)
    requires SequentialIds(items) && 1 <= selected.id <= |items| && items[selected.id - 1] == selected
    ensures StockUpdatedItems(items, selected, adjustment, today)
            == items[selected.id - 1 := Restocked(selected, items[selected.id - 1].quantity + adjustment, today)]
  {
    var q := selected.quantity + adjustment;
    UpdateSequential(items, selected.id, (it: Item) => Restocked(it, q, today));
  }

  // ---------------------------------------------------------------------
  // Search and pagination

  /** The search: the lowercased term occurs in the lowercased name or the
      lowercased category. */
  predicate MatchesSearch(item: Item, term: string)
  {
    var t := Text.Lower(term);
    Text.Contains(Text.Lower(item.name), t) || Text.Contains(Text.Lower(item.category), t)
  }

  function FilteredItems(items: seq<Item>, term: string): seq<Item>
  {
    Seqs.Filter(items, (it: Item) => MatchesSearch(it, term))
  }

  /** The search keeps exactly the matching rows, each as often as the table
      holds it, in their order; the empty term keeps every row. */
  lemma {:induction false} SearchKeepsMatches(items: seq<Item>, term: string)
    ensures forall x :: x in FilteredItems(items, term) <==> x in items && MatchesSearch(x, term)
    ensures Seqs.IsSubsequence(FilteredItems(items, term), items)
    ensures FilteredItems(items, "") == items
    ensures forall x :: multiset(FilteredItems(items, term))[x] ==
                        if MatchesSearch(x, term) then multiset(items)[x] else 0
  {
    Seqs.FilterIsSubsequence(items, (it: Item) => MatchesSearch(it, term));
    Seqs.FilterCounts(items, (it: Item) => MatchesSearch(it, term));
    forall i | 0 <= i < |items|
      ensures MatchesSearch(items[i], "")
    {
      Text.ContainsEmpty(Text.Lower(items[i].name));
    }
    Seqs.FilterKeepsAll(items, (it: Item) => MatchesSearch(it, ""));
  }

  /** `Math.ceil(n / itemsPerPage)`. */
  function TotalPages(n: nat): (t: nat)
    ensures t * ItemsPerPage >= n
    ensures t == 0 || (t - 1) * ItemsPerPage < n
  {
    (n + ItemsPerPage - 1) / ItemsPerPage
  }

  /** `filtered.slice(startIndex, startIndex + itemsPerPage)` for the page. */
  function PageItems(filtered: seq<Item>, page: int): (r: seq<Item>)
    ensures |r| <= ItemsPerPage
    ensures page >= 1 ==>
              var lo := if (page - 1) * ItemsPerPage < |filtered| then (page - 1) * ItemsPerPage else |filtered|;
              var hi := if page * ItemsPerPage < |filtered| then page * ItemsPerPage else |filtered|;
              r == filtered[lo..hi]
    ensures page == 0 ==> r == []
  {
    var start := (page - 1) * ItemsPerPage;
    Seqs.Slice(filtered, start, start + ItemsPerPage)
  }

  /** Every filtered row shows on exactly one page in range, at its place. */
  lemma {:induction false} RowOnItsPage(filtered: seq<Item>, i: nat)
    requires i < |filtered|
    ensures var page := i / ItemsPerPage + 1;
            && 1 <= page <= TotalPages(|filtered|)
            && i % ItemsPerPage < |PageItems(filtered, page)|
            && PageItems(filtered, page)[i % ItemsPerPage] == filtered[i]
  {
    var page := i / ItemsPerPage + 1;
    var start := (page - 1) * ItemsPerPage;
    assert start == i - i % ItemsPerPage;
    var end := if start + ItemsPerPage <= |filtered| then start + ItemsPerPage else |filtered|;
    assert PageItems(filtered, page) == filtered[start..end];
  }

  /** The Previous button: `Math.max(prev - 1, 1)`, disabled on page 1. */
  function PageBefore(page: int): (p: int)
    ensures p >= 1
    ensures page > 1 ==> p == page - 1
  {
    if page == 1 then page else if page - 1 > 1 then page - 1 else 1
  }

  /** The Next button as written: `Math.min(prev + 1, totalPages)`, disabled
      when the page equals the page count. */
  function PageAfterAsWritten(page: int, totalPages: nat): int
  {
    if page == totalPages then page else if page + 1 < totalPages then page + 1 else totalPages
  }

  /** With no matching rows the page count is 0, Next is enabled on page 1,
      and it moves to page 0, where the slice starts at -5 and shows nothing
      even after the search is cleared and rows match again. */
  lemma NextPageLeavesRange(items: seq<Item>)
    requires items != []
    ensures PageAfterAsWritten(1, TotalPages(0)) == 0
    ensures PageItems(items, 0) == []
  {
  }

  /** Next, with the page count clamped to at least one: from any page in
      range the result is again in 1..max(totalPages, 1). */
  function PageAfter(page: int, totalPages: nat): (p: int)
    ensures page >= 1 ==> 1 <= p <= (if totalPages == 0 then 1 else totalPages)
  {
    var last := if totalPages == 0 then 1 else totalPages;
    if page == totalPages then page else if page + 1 < last then page + 1 else last
  }

  /** The corrected Next agrees with the written one whenever there is at
      least one page, and moves forward by one from any page before the
      last. */
  lemma PageAfterAgrees(page: int, totalPages: nat)
    ensures totalPages >= 1 ==> PageAfter(page, totalPages) == PageAfterAsWritten(page, totalPages)
    ensures 1 <= page < totalPages ==> PageAfter(page, totalPages) == page + 1
  {
  }

  // ---------------------------------------------------------------------
  // The page state

  class InventoryPage {
    var items: seq<Item>
    var addHistory: seq<AddRecord>
    var disbursementHistory: seq<DisbursementRecord>
    var selectedItem: Option<Item>
    var addForm: AddForm
    var disburseForm: DisburseForm
    var editForm: EditForm
    var stockForm: StockForm
    var searchTerm: string
    var currentPage: int

    ghost predicate Valid()
      reads this
    {
      && AllConsistent(items)
      && SequentialIds(items)
      && RecordIdsUnique(addHistory, AddRecordId)
      && RecordIdsUnique(disbursementHistory, DisbursementId)
      && currentPage >= 1
    }

    /** The rows the table shows. */
    function VisibleItems(): (r: seq<Item>)
      reads this
      ensures |r| <= ItemsPerPage
    {
      PageItems(FilteredItems(items, searchTerm), currentPage)
    }

    function PageCount(): nat
      reads this
    {
      TotalPages(|FilteredItems(items, searchTerm)|)
    }

    constructor()
      ensures Valid() && AllStocked(items)
      ensures items == InitialItems && addHistory == InitialAddHistory
      ensures disbursementHistory == InitialDisbursementHistory
      ensures selectedItem == None && searchTerm == "" && currentPage == 1
      ensures addForm == EmptyAddForm && disburseForm == EmptyDisburseForm
      ensures editForm == EmptyEditForm && stockForm == EmptyStockForm
    {
      items := InitialItems;
      addHistory := InitialAddHistory;
      disbursementHistory := InitialDisbursementHistory;
      selectedItem := None;
      addForm := EmptyAddForm;
      disburseForm := EmptyDisburseForm;
      editForm := EmptyEditForm;
      stockForm := EmptyStockForm;
      searchTerm := "";
      currentPage := 1;
      InitialItemsValid();
      InitialHistoriesValid();
    }

    /** `handleAddItem`. */
    method AddItem(today: string) returns (added: bool)
      requires Valid()
      modifies this`items, this`addHistory, this`addForm
      ensures Valid()
      ensures added == AddFormComplete(old(addForm))
      ensures !added ==> items == old(items) && addHistory == old(addHistory) && addForm == old(addForm)
      ensures added ==>
                && items == old(items) + [NewItem(old(addForm), |old(items)| + 1, today)]
                && addHistory == [NewAddRecord(old(addForm), |old(addHistory)| + 1, today)] + old(addHistory)
                && addForm == EmptyAddForm
      ensures added && AllStocked(old(items)) ==> (AllStocked(items) <==> old(addForm).quantity.value >= 0)
    {
      if !AddFormComplete(addForm) {
        return false;
      }
      AddKeepsInvariant(items, addForm, today);
      var record := NewAddRecord(addForm, |addHistory| + 1, today);
      PrependFreshId(addHistory, AddRecordId, record);
      items := items + [NewItem(addForm, |items| + 1, today)];
      addHistory := [record] + addHistory;
      addForm := EmptyAddForm;
      added := true;
    }

    /** `handleDisburseItem`. */
    method DisburseItem(today: string) returns (outcome: DisburseOutcome)
      requires Valid()
      modifies this`items, this`disbursementHistory, this`disburseForm
      ensures Valid()
      ensures outcome == CheckDisbursement(old(items), old(disburseForm))
      ensures outcome != Disbursed ==>
                && items == old(items) && disbursementHistory == old(disbursementHistory)
                && disburseForm == old(disburseForm)
      ensures outcome == Disbursed ==>
                var f := old(disburseForm);
                && items == DisbursedItems(old(items), f.itemId.value, f.quantity.value, today)
                && disbursementHistory
                   == [NewDisbursement(FindItem(old(items), f.itemId.value).value, f,
                                       |old(disbursementHistory)| + 1, today)]
                      + old(disbursementHistory)
                && disburseForm == EmptyDisburseForm
      ensures AllStocked(old(items)) ==> AllStocked(items)
    {
      outcome := CheckDisbursement(items, disburseForm);
      if outcome != Disbursed {
        return;
      }
      var f := disburseForm;
      var record := NewDisbursement(FindItem(items, f.itemId.value).value, f, |disbursementHistory| + 1, today);
      var newItems := DisbursedItems(items, f.itemId.value, f.quantity.value, today);
      DisbursementKeepsConsistency(items, f.itemId.value, f.quantity.value, today);
      if AllStocked(items) {
        DisbursementKeepsInvariant(items, f, today);
      }
      PrependFreshId(disbursementHistory, DisbursementId, record);
      items := newItems;
      disbursementHistory := [record] + disbursementHistory;
      disburseForm := EmptyDisburseForm;
    }

    /** `handleViewDetails`. */
    method ViewDetails(item: Item)
      modifies this`selectedItem
      ensures selectedItem == Some(item)
    {
      selectedItem := Some(item);
    }

    /** `handleEditItem`. */
    method EditItem(item: Item)
      modifies this`selectedItem, this`editForm
      ensures selectedItem == Some(item) && editForm == PrefillEditForm(item)
    {
      selectedItem := Some(item);
      editForm := PrefillEditForm(item);
    }

    /** `handleUpdateStock`. */
    method UpdateStock(item: Item)
      modifies this`selectedItem, this`stockForm
      ensures selectedItem == Some(item) && stockForm == EmptyStockForm
    {
      selectedItem := Some(item);
      stockForm := EmptyStockForm;
    }

    /** `handleSaveEdit`. */
    method SaveEdit(today: string) returns (outcome: EditOutcome)
      requires Valid()
      modifies this`items
      ensures Valid()
      ensures outcome == CheckEdit(old(editForm), selectedItem, old(items))
      ensures items == if outcome == EditSaved && selectedItem.Some?
                       then EditedItems(old(items), selectedItem.value.id, editForm, today)
                       else old(items)
      ensures AllStocked(old(items)) ==> AllStocked(items)
    {
      outcome := CheckEdit(editForm, selectedItem, items);
      if outcome != EditSaved || selectedItem.None? {
        return;
      }
      EditKeepsStock(items, selectedItem.value.id, editForm, today);
      items := EditedItems(items, selectedItem.value.id, editForm, today);
    }

    /** `handleSaveStockUpdate`. */
    method SaveStockUpdate(today: string) returns (outcome: StockOutcome)
      requires Valid()
      modifies this`items
      ensures Valid()
      ensures outcome == CheckStockUpdate(selectedItem, stockForm)
      ensures items == if outcome == StockUpdated
                       then StockUpdatedItems(old(items), selectedItem.value, stockForm.adjustment.value, today)
                       else old(items)
      ensures AllStocked(old(items)) ==> AllStocked(items)
    {
      outcome := CheckStockUpdate(selectedItem, stockForm);
      if outcome != StockUpdated {
        return;
      }
      StockUpdateKeepsInvariant(items, selectedItem.value, stockForm, today);
      items := StockUpdatedItems(items, selectedItem.value, stockForm.adjustment.value, today);
    }

    /** The search box. The current page is kept. */
    method SetSearchTerm(term: string)
      modifies this`searchTerm
      ensures searchTerm == term
    {
      searchTerm := term;
    }

    /** The Previous button. */
    method PreviousPage()
      requires Valid()
      modifies this`currentPage
      ensures Valid() && currentPage == PageBefore(old(currentPage))
    {
      currentPage := PageBefore(currentPage);
    }

    /** The Next button, with the corrected clamp. */
    method NextPage()
      requires Valid()
      modifies this`currentPage
      ensures Valid() && currentPage == PageAfter(old(currentPage), PageCount())
      ensures old(currentPage) <= PageCount() ==> currentPage <= PageCount()
    {
      currentPage := PageAfter(currentPage, PageCount());
    }

    /** A numbered page button; one exists for each page 1..totalPages. */
    method GoToPage(page: int)
      requires Valid() && 1 <= page <= PageCount()
      modifies this`currentPage
      ensures Valid() && currentPage == page && |VisibleItems()| >= 1
    {
      currentPage := page;
      RowOnItsPage(FilteredItems(items, searchTerm), (page - 1) * ItemsPerPage);
    }
  }
}
