/** The stock entries page: the checks that run before a stock entry or a stock
    item is sent to the server, the body sent for each item, and the updates the
    page makes to its lists once the server has answered. */
module StocksPage {
  import opened Wrappers
  import opened Text
  import opened Seqs

  datatype QuantityType = PACKET | KG | LITER
  datatype Status = ACTIVE | CONSUMED

  /** One row of the add or edit form. Weights and amounts are numbers that may
      have fractions; the form starts them at 0. */
  datatype ItemForm = ItemForm(
    name: string,
    image: string,
    stockTypeId: int,
    quantityType: QuantityType,
    totalQuantity: int,
    totalWeight: real,
    finalAmount: real,
    status: Status)

  datatype EntryForm = EntryForm(partyName: string, dateReceived: string, items: seq<ItemForm>)

  /** A stock item as the server returns it: image and weight may be absent. */
  datatype StockItemDetails = StockItemDetails(
    id: int,
    name: string,
    image: Option<string>,
    stockTypeId: int,
    quantityType: QuantityType,
    totalQuantity: int,
    totalWeight: Option<real>,
    finalAmount: real,
    status: Status,
    createdAt: string,
    updatedAt: string)

  /** The link between an entry and one of its items. */
  datatype StockEntryItem = StockEntryItem(id: int, stockEntryId: int, stockItemId: int, stockItem: StockItemDetails)

  datatype StockEntry = StockEntry(
    id: int,
    partyName: string,
    dateReceived: string,
    createdAt: string,
    updatedAt: string,
    stockItems: seq<StockEntryItem>)

  // ---------------------------------------------------------------------------
  // Validation

  /** The domains images may come from: none. */
  const AllowedDomains: seq<string> := []

  /** `isValidURL`: the host name of the parsed URL must be an allowed domain.
      `hostOf` is `new URL(s).hostname`, nothing where the constructor throws.
      With no allowed domain, no string is valid. */
  function IsValidURL(s: string, hostOf: string -> Option<string>): (valid: bool)
    ensures !valid
  {
    match hostOf(s)
    case None => false
    case Some(host) => host in AllowedDomains
  }

  datatype Problem = NameRequired | StockTypeRequired | WeightNotPositive | AmountNegative | InvalidImage

  /** Why a submission stops before anything is sent. */
  datatype Rejection = NoEntrySelected | MissingFields | ItemRejected(index: nat, problem: Problem)

  /** `!form.partyName.trim() || !form.dateReceived` */
  predicate MissingHeader(form: EntryForm)
    ensures MissingHeader(form) <==> AllWhitespace(form.partyName) || form.dateReceived == ""
  {
    TrimEmpty(form.partyName);
    Trim(form.partyName) == "" || form.dateReceived == ""
  }

  /** What the field checks accept: a non-blank name, a stock type, a positive weight
      unless the item is counted in packets, and an amount that is not negative. */
  predicate FieldsPass(item: ItemForm) {
    Trim(item.name) != "" && item.stockTypeId != 0
    && (item.quantityType.PACKET? || item.totalWeight > 0.0) && item.finalAmount >= 0.0
  }

  /** The checks every flow makes on an item, in their order: a non-blank name, a
      stock type (0 is falsy), for KG and LITER a weight that is truthy and
      positive, an amount that is not negative. */
  function FieldProblem(item: ItemForm): (r: Option<Problem>)
    ensures r.None? <==> FieldsPass(item)
    ensures r == Some(NameRequired) <==> Trim(item.name) == ""
    ensures r == Some(StockTypeRequired) <==> Trim(item.name) != "" && item.stockTypeId == 0
    ensures r == Some(WeightNotPositive) <==>
              Trim(item.name) != "" && item.stockTypeId != 0 && !item.quantityType.PACKET? && item.totalWeight <= 0.0
    ensures r == Some(AmountNegative) <==>
              Trim(item.name) != "" && item.stockTypeId != 0 && (item.quantityType.PACKET? || item.totalWeight > 0.0)
              && item.finalAmount < 0.0
    ensures r != Some(InvalidImage)
    ensures item.quantityType == PACKET ==> r != Some(WeightNotPositive)
  {
    if Trim(item.name) == "" then Some(NameRequired)
    else if item.stockTypeId == 0 then Some(StockTypeRequired)
    else if (item.quantityType == KG || item.quantityType == LITER) && (item.totalWeight == 0.0 || item.totalWeight <= 0.0)
    then Some(WeightNotPositive)
    else if item.finalAmount < 0.0 then Some(AmountNegative)
    else None
  }

  /** `item.image && !isValidURL(item.image)`: every non-empty image. */
  function ImageRejected(image: string, hostOf: string -> Option<string>): (rejected: bool)
    ensures rejected <==> image != ""
  {
    image != "" && !IsValidURL(image, hostOf)
  }

  /** A name is refused exactly when it is empty or all whitespace. */
  lemma BlankNameRejected(item: ItemForm)
    ensures FieldProblem(item) == Some(NameRequired) <==> AllWhitespace(item.name)
  {
    TrimEmpty(item.name);
  }

  /** The checks of the add flow: the field checks, then the image. An item passes
      only when its fields pass and it has no image at all. */
  function ItemProblem(item: ItemForm, hostOf: string -> Option<string>): (r: Option<Problem>)
    ensures r.None? <==> FieldProblem(item).None? && item.image == ""
    ensures FieldProblem(item).Some? ==> r == FieldProblem(item)
  {
    if FieldProblem(item).Some? then FieldProblem(item)
    else if ImageRejected(item.image, hostOf) then Some(InvalidImage)
    else None
  }

  /** The imperative form of FieldProblem: the field checks of one item, in the order
      the submit handlers make them, returning at the first that fails. */
  method CheckFields(item: ItemForm) returns (problem: Option<Problem>)
    ensures problem == FieldProblem(item)
  {
    if Trim(item.name) == "" {
      return Some(NameRequired);
    }
    if item.stockTypeId == 0 {
      return Some(StockTypeRequired);
    }
    if item.quantityType == KG || item.quantityType == LITER {
      if item.totalWeight == 0.0 || item.totalWeight <= 0.0 {
        return Some(WeightNotPositive);
      }
    }
    if item.finalAmount < 0.0 {
      return Some(AmountNegative);
    }
    return None;
  }

  /** The checks of `submitAddStockEntry` before anything is sent: the header, then
      the items in order, stopping at the first that fails. */
  method ValidateNewEntry(form: EntryForm, hostOf: string -> Option<string>) returns (r: Option<Rejection>)
    ensures r == Some(MissingFields) <==> MissingHeader(form)
    ensures r.Some? ==> r.value.MissingFields? || r.value.ItemRejected?
    ensures r.None? <==> !MissingHeader(form) && forall k :: 0 <= k < |form.items| ==> ItemProblem(form.items[k], hostOf).None?
    ensures r.Some? && r.value.ItemRejected? ==>
              !MissingHeader(form) && r.value.index < |form.items|
              && ItemProblem(form.items[r.value.index], hostOf) == Some(r.value.problem)
              && forall k :: 0 <= k < r.value.index ==> ItemProblem(form.items[k], hostOf).None?
  {
    if Trim(form.partyName) == "" || form.dateReceived == "" {
      return Some(MissingFields);
    }
    var i := 0;
    while i < |form.items|
      invariant 0 <= i <= |form.items|
      invariant forall k :: 0 <= k < i ==> ItemProblem(form.items[k], hostOf).None?
    {
      var item := form.items[i];
      var problem := CheckFields(item);
      if problem.Some? {
        return Some(ItemRejected(i, problem.value));
      }
      if item.image != "" && !IsValidURL(item.image, hostOf) {
        return Some(ItemRejected(i, InvalidImage));
      }
      i := i + 1;
    }
    return None;
  }

  /** The positions below `n` whose image draws the invalid-URL message. */
  function WarnedIndices(items: seq<ItemForm>, hostOf: string -> Option<string>, n: nat): (warned: seq<nat>)
    requires n <= |items|
    ensures |warned| <= n
  {
    if n == 0 then []
    else WarnedIndices(items, hostOf, n - 1) + (if ImageRejected(items[n - 1].image, hostOf) then [n - 1] else [])
  }

  /** The warned positions are exactly those below `n` with a non-empty image, in
      increasing order. */
  lemma {:induction false} WarnedIndicesMeaning(items: seq<ItemForm>, hostOf: string -> Option<string>, n: nat)
    requires n <= |items|
    ensures forall j :: 0 <= j < |WarnedIndices(items, hostOf, n)| ==> WarnedIndices(items, hostOf, n)[j] < n
    ensures forall k :: 0 <= k < n ==> (k in WarnedIndices(items, hostOf, n) <==> items[k].image != "")
    ensures forall a, b :: 0 <= a < b < |WarnedIndices(items, hostOf, n)| ==>
              WarnedIndices(items, hostOf, n)[a] < WarnedIndices(items, hostOf, n)[b]
  {
    if n > 0 {
      WarnedIndicesMeaning(items, hostOf, n - 1);
    }
  }

  /** Every item below `n` passes the field checks, stated one item at a time. */
  predicate AllFieldsPass(items: seq<ItemForm>, n: nat)
    requires n <= |items|
  {
    n == 0 || (AllFieldsPass(items, n - 1) && FieldsPass(items[n - 1]))
  }

  lemma {:induction false} AllFieldsPassMeaning(items: seq<ItemForm>, n: nat)
    requires n <= |items|
    ensures AllFieldsPass(items, n) <==> forall k :: 0 <= k < n ==> FieldsPass(items[k])
  {
    if n > 0 {
      AllFieldsPassMeaning(items, n - 1);
    }
  }

  /** The item loop of `submitEditStockEntry`: the field checks of each item in order,
      stopping at the first that fails; a bad image only adds the item's position to
      `imageWarnings` and the loop goes on. */
  method CheckEditItems(items: seq<ItemForm>, hostOf: string -> Option<string>)
    returns (failure: Option<Rejection>, imageWarnings: seq<nat>)
    ensures failure.None? ==>
              (forall k :: 0 <= k < |items| ==> FieldsPass(items[k]))
              && imageWarnings == WarnedIndices(items, hostOf, |items|)
    ensures failure.Some? ==>
              failure.value.ItemRejected? && failure.value.index < |items|
              && FieldProblem(items[failure.value.index]) == Some(failure.value.problem)
              && (forall k :: 0 <= k < failure.value.index ==> FieldsPass(items[k]))
              && imageWarnings == WarnedIndices(items, hostOf, failure.value.index)
  {
    imageWarnings := [];
    var i := 0;
    while i < |items|
      invariant 0 <= i <= |items|
      invariant AllFieldsPass(items, i)
      invariant imageWarnings == WarnedIndices(items, hostOf, i)
    {
      var item := items[i];
      var problem := CheckFields(item);
      if problem.Some? {
        AllFieldsPassMeaning(items, i);
        return Some(ItemRejected(i, problem.value)), imageWarnings;
      }
      if item.image != "" && !IsValidURL(item.image, hostOf) {
        imageWarnings := imageWarnings + [i];
      }
      i := i + 1;
    }
    AllFieldsPassMeaning(items, |items|);
    return None, imageWarnings;
  }

  /** The checks of `submitEditStockEntry`: an entry must be selected, then the
      header, then the items in order. A bad image only draws a message
      (`imageWarnings` lists the items it was drawn for) and the check goes on. */
  method ValidateEditEntry(selected: bool, form: EntryForm, hostOf: string -> Option<string>)
    returns (r: Option<Rejection>, imageWarnings: seq<nat>)
    ensures r == Some(NoEntrySelected) <==> !selected
    ensures r == Some(MissingFields) <==> selected && MissingHeader(form)
    ensures r.None? <==> selected && !MissingHeader(form) && forall k :: 0 <= k < |form.items| ==> FieldsPass(form.items[k])
    ensures r.Some? && r.value.ItemRejected? ==>
              selected && !MissingHeader(form) && r.value.index < |form.items|
              && FieldProblem(form.items[r.value.index]) == Some(r.value.problem)
              && forall k :: 0 <= k < r.value.index ==> FieldsPass(form.items[k])
    ensures r.None? ==> imageWarnings == WarnedIndices(form.items, hostOf, |form.items|)
    ensures r.Some? && r.value.ItemRejected? ==> imageWarnings == WarnedIndices(form.items, hostOf, r.value.index)
    ensures r.Some? && !r.value.ItemRejected? ==> imageWarnings == []
  {
    if !selected {
      return Some(NoEntrySelected), [];
    }
    if Trim(form.partyName) == "" || form.dateReceived == "" {
      return Some(MissingFields), [];
    }
    r, imageWarnings := CheckEditItems(form.items, hostOf);
  }

  /** A stock item seen through the checks: an absent image or weight is falsy like
      an empty image or a zero weight. */
  function AsForm(d: StockItemDetails): ItemForm {
    ItemForm(
      d.name,
      match d.image case Some(s) => s case None => "",
      d.stockTypeId,
      d.quantityType,
      d.totalQuantity,
      match d.totalWeight case Some(w) => w case None => 0.0,
      d.finalAmount,
      d.status)
  }

  datatype ItemEditOutcome = NothingToEdit | ItemRefused(problem: Problem) | ItemAccepted(imageWarned: bool)

  /** The checks of `submitEditStockItem`: nothing happens without an item; the
      field checks stop the save; a bad image only draws a message. */
  function ValidateEditItem(item: Option<StockItemDetails>, hostOf: string -> Option<string>): (r: ItemEditOutcome)
    ensures r.NothingToEdit? <==> item.None?
    ensures r.ItemAccepted? <==> item.Some? && FieldProblem(AsForm(item.value)).None?
    ensures r.ItemRefused? ==> FieldProblem(AsForm(item.value)) == Some(r.problem)
    ensures r.ItemAccepted? ==> (r.imageWarned <==> item.value.image.Some? && item.value.image.value != "")
  {
    match item
    case None => NothingToEdit
    case Some(d) =>
      match FieldProblem(AsForm(d))
      case Some(p) => ItemRefused(p)
      case None => ItemAccepted(ImageRejected(AsForm(d).image, hostOf))
  }

  // ---------------------------------------------------------------------------
  // The body sent for an item

  datatype ItemPayload = ItemPayload(
    name: string,
    image: string,
    stockTypeId: int,
    quantityType: QuantityType,
    totalQuantity: int,
    totalWeight: Option<real>,
    finalAmount: real,
    status: Status)

  /** The body of the create and update requests: a PACKET item sends a null
      weight, every other item its weight; everything else is copied. */
  function ToPayload(item: ItemForm): (p: ItemPayload)
    ensures p.totalWeight.None? <==> item.quantityType == PACKET
    ensures p.totalWeight.Some? ==> p.totalWeight.value == item.totalWeight
    ensures p.name == item.name && p.image == item.image && p.stockTypeId == item.stockTypeId
    ensures p.quantityType == item.quantityType && p.totalQuantity == item.totalQuantity
    ensures p.finalAmount == item.finalAmount && p.status == item.status
  {
    ItemPayload(
      item.name,
      item.image,
      item.stockTypeId,
      item.quantityType,
      item.totalQuantity,
      if item.quantityType == PACKET then None else Some(item.totalWeight),
      item.finalAmount,
      item.status)
  }

  /** What the add flow sends once its checks pass: an item without image, with a
      stock type, a non-negative amount, and a positive weight unless it is a PACKET. */
  lemma AcceptedPayload(item: ItemForm, hostOf: string -> Option<string>)
    requires ItemProblem(item, hostOf).None?
    ensures var p := ToPayload(item);
            p.image == "" && p.stockTypeId != 0 && p.finalAmount >= 0.0
            && (p.totalWeight.Some? ==> p.totalWeight.value > 0.0)
  {
  }

  /** The same item, fields valid and with an image, is refused by the add flow and
      saved by the edit flows. */
  lemma ImageOnlyStopsTheAddFlow(item: ItemForm, hostOf: string -> Option<string>)
    requires FieldProblem(item).None? && item.image != ""
    ensures ItemProblem(item, hostOf) == Some(InvalidImage)
    ensures ValidateEditItem(Some(StockItemDetails(0, item.name, Some(item.image), item.stockTypeId, item.quantityType,
              item.totalQuantity, Some(item.totalWeight), item.finalAmount, item.status, "", "")), hostOf) == ItemAccepted(true)
  {
    var d := StockItemDetails(0, item.name, Some(item.image), item.stockTypeId, item.quantityType,
              item.totalQuantity, Some(item.totalWeight), item.finalAmount, item.status, "", "");
    assert AsForm(d) == item;
  }

  // ---------------------------------------------------------------------------
  // Editing the add form

  datatype Field = NameField | ImageField | StockTypeField | QuantityTypeField
                 | TotalQuantityField | TotalWeightField | FinalAmountField | StatusField

  /** A change made in one input of a form row: `[field]: value`. */
  datatype FieldUpdate =
    | SetName(name: string)
    | SetImage(image: string)
    | SetStockTypeId(stockTypeId: int)
    | SetQuantityType(quantityType: QuantityType)
    | SetTotalQuantity(totalQuantity: int)
    | SetTotalWeight(totalWeight: real)
    | SetFinalAmount(finalAmount: real)
    | SetStatus(status: Status)

  function FieldOf(u: FieldUpdate): Field {
    match u
    case SetName(_) => NameField
    case SetImage(_) => ImageField
    case SetStockTypeId(_) => StockTypeField
    case SetQuantityType(_) => QuantityTypeField
    case SetTotalQuantity(_) => TotalQuantityField
    case SetTotalWeight(_) => TotalWeightField
    case SetFinalAmount(_) => FinalAmountField
    case SetStatus(_) => StatusField
  }

  /** `a` and `b` agree on every field but `f`. */
  predicate SameExcept(a: ItemForm, b: ItemForm, f: Field) {
    (f == NameField || a.name == b.name)
    && (f == ImageField || a.image == b.image)
    && (f == StockTypeField || a.stockTypeId == b.stockTypeId)
    && (f == QuantityTypeField || a.quantityType == b.quantityType)
    && (f == TotalQuantityField || a.totalQuantity == b.totalQuantity)
    && (f == TotalWeightField || a.totalWeight == b.totalWeight)
    && (f == FinalAmountField || a.finalAmount == b.finalAmount)
    && (f == StatusField || a.status == b.status)
  }

  /** The field `u` names holds the value `u` carries. */
  predicate Holds(item: ItemForm, u: FieldUpdate) {
    match u
    case SetName(v) => item.name == v
    case SetImage(v) => item.image == v
    case SetStockTypeId(v) => item.stockTypeId == v
    case SetQuantityType(v) => item.quantityType == v
    case SetTotalQuantity(v) => item.totalQuantity == v
    case SetTotalWeight(v) => item.totalWeight == v
    case SetFinalAmount(v) => item.finalAmount == v
    case SetStatus(v) => item.status == v
  }

  /** `{ ...item, [field]: value }` */
  function Apply(item: ItemForm, u: FieldUpdate): (r: ItemForm)
    ensures Holds(r, u) && SameExcept(item, r, FieldOf(u))
  {
    match u
    case SetName(v) => item.(name := v)
    case SetImage(v) => item.(image := v)
    case SetStockTypeId(v) => item.(stockTypeId := v)
    case SetQuantityType(v) => item.(quantityType := v)
    case SetTotalQuantity(v) => item.(totalQuantity := v)
    case SetTotalWeight(v) => item.(totalWeight := v)
    case SetFinalAmount(v) => item.(finalAmount := v)
    case SetStatus(v) => item.(status := v)
  }

  /** `handleNewStockItemChange(index, field, value)`: copies the rows, assigns the
      changed row in place in the copy, and stores the copy. Only that field of that
      row changes. */
  method HandleNewStockItemChange(form: EntryForm, index: int, u: FieldUpdate) returns (r: EntryForm)
    requires 0 <= index < |form.items|
    ensures r.partyName == form.partyName && r.dateReceived == form.dateReceived
    ensures |r.items| == |form.items|
    ensures forall k :: 0 <= k < |r.items| && k != index ==> r.items[k] == form.items[k]
    ensures Holds(r.items[index], u) && SameExcept(form.items[index], r.items[index], FieldOf(u))
  {
    var updated := new ItemForm[|form.items|](k requires 0 <= k < |form.items| => form.items[k]);
    updated[index] := Apply(updated[index], u);
    r := form.(items := updated[..]);
  }

  /** `removeStockItemField(index)`: the rows without the one at `index`, the others
      in their order; an index out of range removes nothing. */
  function RemoveStockItemField(form: EntryForm, index: int): (r: EntryForm)
    ensures r.partyName == form.partyName && r.dateReceived == form.dateReceived
    ensures |r.items| == if 0 <= index < |form.items| then |form.items| - 1 else |form.items|
    ensures 0 <= index < |form.items| ==> r.items == form.items[..index] + form.items[index + 1..]
    ensures !(0 <= index < |form.items|) ==> r.items == form.items
  {
    form.(items := RemoveAt(form.items, index))
  }

  // ---------------------------------------------------------------------------
  // The lists after a stock item is deleted or edited

  function OtherItem(itemId: int): StockItemDetails -> bool {
    (item: StockItemDetails) => item.id != itemId
  }

  function OtherLink(itemId: int): StockEntryItem -> bool {
    (link: StockEntryItem) => link.stockItemId != itemId
  }

  predicate HasLink(entry: StockEntry, itemId: int) {
    exists link | link in entry.stockItems :: link.stockItemId == itemId
  }

  /** The open item list after deleting `itemId`. */
  function RemoveSelectedItem(items: seq<StockItemDetails>, itemId: int): (r: seq<StockItemDetails>)
    ensures forall item | item in r :: item in items && item.id != itemId
    ensures forall item | item in items && item.id != itemId :: item in r
  {
    FilterMembers(items, OtherItem(itemId));
    Filter(items, OtherItem(itemId))
  }

  /** Deleting from two lists one after the other deletes from each and keeps
      their order. */
  lemma RemoveSelectedItemConcat(a: seq<StockItemDetails>, b: seq<StockItemDetails>, itemId: int)
    ensures RemoveSelectedItem(a + b, itemId) == RemoveSelectedItem(a, itemId) + RemoveSelectedItem(b, itemId)
  {
    FilterConcat(a, b, OtherItem(itemId));
  }

  /** One entry after deleting `itemId`: filtered only when it links the item. */
  function DropLinks(entry: StockEntry, itemId: int): (r: StockEntry)
    ensures forall link | link in r.stockItems :: link in entry.stockItems && link.stockItemId != itemId
    ensures forall link | link in entry.stockItems && link.stockItemId != itemId :: link in r.stockItems
  {
    FilterMembers(entry.stockItems, OtherLink(itemId));
    if HasLink(entry, itemId) then entry.(stockItems := Filter(entry.stockItems, OtherLink(itemId))) else entry
  }

  /** The entries after deleting `itemId`: every link to it is gone, every other
      link stays, the entries keep their order and their other fields, and an entry
      that did not link it is untouched. */
  function RemoveItemLinks(entries: seq<StockEntry>, itemId: int): (r: seq<StockEntry>)
    ensures |r| == |entries|
    ensures forall k :: 0 <= k < |r| ==> r[k] == entries[k].(stockItems := r[k].stockItems)
    ensures forall k, link :: 0 <= k < |r| && link in r[k].stockItems ==> link in entries[k].stockItems && link.stockItemId != itemId
    ensures forall k, link :: 0 <= k < |r| && link in entries[k].stockItems && link.stockItemId != itemId ==> link in r[k].stockItems
    ensures forall k :: 0 <= k < |r| && !HasLink(entries[k], itemId) ==> r[k] == entries[k]
  {
    seq(|entries|, k requires 0 <= k < |entries| => DropLinks(entries[k], itemId))
  }

  /** The `some` guard changes nothing: filtering every entry gives the same lists. */
  lemma RemoveItemLinksUnguarded(entries: seq<StockEntry>, itemId: int)
    ensures forall k :: 0 <= k < |entries| ==>
              RemoveItemLinks(entries, itemId)[k].stockItems == Filter(entries[k].stockItems, OtherLink(itemId))
  {
    forall k | 0 <= k < |entries|
      ensures RemoveItemLinks(entries, itemId)[k].stockItems == Filter(entries[k].stockItems, OtherLink(itemId))
    {
      if !HasLink(entries[k], itemId) {
        FilterKeepsAll(entries[k].stockItems, OtherLink(itemId));
      }
    }
  }

  /** The open item list after `updated` was saved. */
  function ReplaceSelectedItem(items: seq<StockItemDetails>, updated: StockItemDetails): (r: seq<StockItemDetails>)
    ensures |r| == |items|
    ensures forall j :: 0 <= j < |r| ==> r[j] == if items[j].id == updated.id then updated else items[j]
  {
    seq(|items|, j requires 0 <= j < |items| => if items[j].id == updated.id then updated else items[j])
  }

  function ReplaceLink(link: StockEntryItem, updated: StockItemDetails): StockEntryItem {
    if link.stockItemId == updated.id then link.(stockItem := updated) else link
  }

  /** The entries after `updated` was saved: every link to it carries the new item,
      and nothing else changes. */
  function ReplaceItemLinks(entries: seq<StockEntry>, updated: StockItemDetails): (r: seq<StockEntry>)
    ensures |r| == |entries|
    ensures forall k :: 0 <= k < |r| ==> r[k] == entries[k].(stockItems := r[k].stockItems)
    ensures forall k :: 0 <= k < |r| ==> |r[k].stockItems| == |entries[k].stockItems|
    ensures forall k, j :: 0 <= k < |r| && 0 <= j < |r[k].stockItems| ==>
              var link := entries[k].stockItems[j];
              r[k].stockItems[j] == if link.stockItemId == updated.id then link.(stockItem := updated) else link
  {
    seq(|entries|, k requires 0 <= k < |entries| =>
      entries[k].(stockItems := seq(|entries[k].stockItems|, j requires 0 <= j < |entries[k].stockItems| =>
                                    ReplaceLink(entries[k].stockItems[j], updated))))
  }

  /** Saving the same item twice leaves the lists as saving it once. */
  lemma ReplaceIdempotent(items: seq<StockItemDetails>, entries: seq<StockEntry>, updated: StockItemDetails)
    ensures ReplaceSelectedItem(ReplaceSelectedItem(items, updated), updated) == ReplaceSelectedItem(items, updated)
    ensures ReplaceItemLinks(ReplaceItemLinks(entries, updated), updated) == ReplaceItemLinks(entries, updated)
  {
    var once := ReplaceItemLinks(entries, updated);
    var twice := ReplaceItemLinks(once, updated);
    forall k | 0 <= k < |entries| ensures twice[k] == once[k] {
      assert twice[k].stockItems == once[k].stockItems;
    }
  }

  /** Deleting an item after editing it leaves the same lists as deleting it
      straight away: the edit touches only what the delete removes. */
  lemma RemoveAfterReplace(items: seq<StockItemDetails>, entries: seq<StockEntry>, updated: StockItemDetails)
    ensures RemoveSelectedItem(ReplaceSelectedItem(items, updated), updated.id) == RemoveSelectedItem(items, updated.id)
    ensures RemoveItemLinks(ReplaceItemLinks(entries, updated), updated.id) == RemoveItemLinks(entries, updated.id)
  {
    FilterAgree(ReplaceSelectedItem(items, updated), items, OtherItem(updated.id));
    var edited := ReplaceItemLinks(entries, updated);
    var a, b := RemoveItemLinks(edited, updated.id), RemoveItemLinks(entries, updated.id);
    forall k | 0 <= k < |entries| ensures a[k] == b[k] {
      var before, after := entries[k].stockItems, edited[k].stockItems;
      FilterAgree(after, before, OtherLink(updated.id));
      assert HasLink(edited[k], updated.id) == HasLink(entries[k], updated.id) by {
        if HasLink(entries[k], updated.id) {
          var j :| 0 <= j < |before| && before[j].stockItemId == updated.id;
          assert after[j].stockItemId == updated.id;
        }
        if HasLink(edited[k], updated.id) {
          var j :| 0 <= j < |after| && after[j].stockItemId == updated.id;
          assert before[j].stockItemId == updated.id;
        }
      }
      if !HasLink(entries[k], updated.id) {
        assert after == before;
      }
    }
  }

  // ---------------------------------------------------------------------------
  // The entry list after an entry is deleted or edited

  function OtherEntry(entryId: int): StockEntry -> bool {
    (e: StockEntry) => e.id != entryId
  }

  /** The entries after deleting entry `entryId`. */
  function RemoveEntry(entries: seq<StockEntry>, entryId: int): (r: seq<StockEntry>)
    ensures forall e | e in r :: e in entries && e.id != entryId
    ensures forall e | e in entries && e.id != entryId :: e in r
  {
    FilterMembers(entries, OtherEntry(entryId));
    Filter(entries, OtherEntry(entryId))
  }

  /** Deleting from two lists one after the other deletes from each and keeps
      their order. */
  lemma RemoveEntryConcat(a: seq<StockEntry>, b: seq<StockEntry>, entryId: int)
    ensures RemoveEntry(a + b, entryId) == RemoveEntry(a, entryId) + RemoveEntry(b, entryId)
  {
    FilterConcat(a, b, OtherEntry(entryId));
  }

  /** The entries after the server returned `updated`: it takes the place of every
      entry with its id. */
  function ReplaceEntry(entries: seq<StockEntry>, updated: StockEntry): (r: seq<StockEntry>)
    ensures |r| == |entries|
    ensures forall k :: 0 <= k < |r| ==> r[k] == if entries[k].id == updated.id then updated else entries[k]
  {
    seq(|entries|, k requires 0 <= k < |entries| => if entries[k].id == updated.id then updated else entries[k])
  }

  /** Saving an entry keeps every entry's id, saving it twice is saving it once,
      and deleting it afterwards leaves what deleting it straight away leaves. */
  lemma ReplaceEntryProperties(entries: seq<StockEntry>, updated: StockEntry)
    ensures forall k | 0 <= k < |entries| :: ReplaceEntry(entries, updated)[k].id == entries[k].id
    ensures ReplaceEntry(ReplaceEntry(entries, updated), updated) == ReplaceEntry(entries, updated)
    ensures RemoveEntry(ReplaceEntry(entries, updated), updated.id) == RemoveEntry(entries, updated.id)
  {
    FilterAgree(ReplaceEntry(entries, updated), entries, OtherEntry(updated.id));
  }
}
