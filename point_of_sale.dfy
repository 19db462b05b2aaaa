/** The butterfly point of sale: a catalogue, a cart that merges entries by
    item id, quantity edits and removals, cart totals, and checkout, which
    appends one transaction line and one line per cart entry to the sales
    tables. Prices are whole pesos. */
module PointOfSale {
  import opened Util
  import opened CsvStore
  import Database

  datatype Product = Product(name: string, price: int, cost: int, species: string)

  /** `BUTTERFLY_ITEMS`. */
  const Catalog: map<int, Product> := map[
    1 := Product("Clipper", 23, 10, "Butterfly-Clippers"),
    2 := Product("Common Jay", 35, 15, "Butterfly-Common Jay"),
    3 := Product("Common Lime", 43, 20, "Butterfly-Common Lime"),
    4 := Product("Common Mime", 65, 30, "Butterfly-Common Mime"),
    5 := Product("Common Mormon", 48, 22, "Butterfly-Common Mormon"),
    6 := Product("Emerald Swallowtail", 65, 32, "Butterfly-Emerald Swallowtail"),
    7 := Product("Gray Glassy Tiger", 78, 38, "Butterfly-Gray Glassy Tiger"),
    8 := Product("Great Eggfly", 89, 45, "Butterfly-Great Eggfly"),
    9 := Product("Great Yellow Mormon", 71, 35, "Butterfly-Great Yellow Mormon"),
    10 := Product("Golden Birdwing", 73, 36, "Butterfly-Golden Birdwing"),
    11 := Product("Paper Kite", 81, 40, "Butterfly-Paper Kite"),
    12 := Product("Pink Rose", 34, 16, "Butterfly-Pink Rose"),
    13 := Product("Plain Tiger", 39, 18, "Butterfly-Plain Tiger"),
    14 := Product("Red Lacewing", 100, 50, "Butterfly-Red Lacewing"),
    15 := Product("Scarlet Mormon", 85, 42, "Butterfly-Scarlet Mormon"),
    16 := Product("Tailed Jay", 45, 21, "Butterfly-Tailed Jay"),
    17 := Product("Atlas Moth", 75, 37, "Moth-Atlas"),
    18 := Product("Giant Silk Moth", 80, 39, "Moth-Giant Silk")
  ]

  /** One cart entry. */
  datatype CartItem = CartItem(
    itemId: int, name: string, species: string, price: int, cost: int,
    quantity: int, subtotal: int, profit: int)

  /** The entry `add_to_cart` creates for an item not yet in the cart. */
  function NewItem(itemId: int, quantity: int): (it: CartItem)
    requires itemId in Catalog
    ensures Priced(it) && Consistent(it) && it.itemId == itemId && it.quantity == quantity
  {
    var p := Catalog[itemId];
    CartItem(itemId, p.name, p.species, p.price, p.cost, quantity, p.price * quantity, (p.price - p.cost) * quantity)
  }

  /** The entry's subtotal and profit follow from its price, cost and quantity. */
  predicate Consistent(it: CartItem)
  {
    it.subtotal == it.price * it.quantity && it.profit == (it.price - it.cost) * it.quantity
  }

  /** The entry carries its catalogue product's name, species, price and cost. */
  predicate Priced(it: CartItem)
  {
    it.itemId in Catalog &&
    var p := Catalog[it.itemId];
    it.name == p.name && it.species == p.species && it.price == p.price && it.cost == p.cost
  }

  /** The cart invariant: every entry is priced and consistent, and no item id appears twice. */
  predicate ValidCart(cart: seq<CartItem>)
  {
    (forall i :: 0 <= i < |cart| ==> Priced(cart[i]) && Consistent(cart[i])) &&
    forall i, j :: 0 <= i < j < |cart| ==> cart[i].itemId != cart[j].itemId
  }

  /** The position of the first entry for `itemId`. */
  function FindItem(cart: seq<CartItem>, itemId: int): (k: Option<nat>)
    ensures k.None? ==> forall j :: 0 <= j < |cart| ==> cart[j].itemId != itemId
    ensures k.Some? ==> k.value < |cart| && cart[k.value].itemId == itemId &&
                        forall j :: 0 <= j < k.value ==> cart[j].itemId != itemId
  {
    if cart == [] then None
    else if cart[0].itemId == itemId then Some(0)
    else match FindItem(cart[1..], itemId)
      case None => None
      case Some(k) => Some(k + 1)
  }

  /** `add_to_cart` as written: an existing entry gets the extra quantity
      and a new subtotal, but its profit is left as it was. */
  function AddedToCartAsWritten(cart: seq<CartItem>, itemId: int, quantity: int): seq<CartItem>
    requires itemId in Catalog
  {
    match FindItem(cart, itemId)
    case None => cart + [NewItem(itemId, quantity)]
    case Some(k) =>
      var q := cart[k].quantity + quantity;
      cart[k := cart[k].(quantity := q, subtotal := q * cart[k].price)]
  }

  /** `add_to_cart` with the merge recomputing the profit as the quantity
      edit does. */
  function AddedToCart(cart: seq<CartItem>, itemId: int, quantity: int): seq<CartItem>
    requires itemId in Catalog
  {
    match FindItem(cart, itemId)
    case None => cart + [NewItem(itemId, quantity)]
    case Some(k) =>
      var q := cart[k].quantity + quantity;
      cart[k := cart[k].(quantity := q, subtotal := q * cart[k].price, profit := (cart[k].price - cart[k].cost) * q)]
  }

  /** The quantity edit: a changed quantity resets subtotal and profit. */
  function EditedQuantity(cart: seq<CartItem>, idx: nat, newQty: int): seq<CartItem>
    requires idx < |cart|
  {
    var it := cart[idx];
    if newQty == it.quantity then cart
    else cart[idx := it.(quantity := newQty, subtotal := it.price * newQty, profit := (it.price - it.cost) * newQty)]
  }

  /** `cart.pop(idx)`. */
  function RemovedAt(cart: seq<CartItem>, idx: nat): seq<CartItem>
    requires idx < |cart|
  {
    cart[..idx] + cart[idx + 1..]
  }

  // ------------------------------------------------------------ totals

  function Quantity(it: CartItem): int { it.quantity }
  function Subtotal(it: CartItem): int { it.subtotal }
  function Profit(it: CartItem): int { it.profit }
  function LineCost(it: CartItem): int { it.cost * it.quantity }

  function TotalItems(cart: seq<CartItem>): int { SumOf(cart, Quantity) }
  function TotalRevenue(cart: seq<CartItem>): int { SumOf(cart, Subtotal) }
  /** The profit the cart shows: the sum of the entries' profits. */
  function TotalProfit(cart: seq<CartItem>): int { SumOf(cart, Profit) }
  /** The cost checkout charges: Σ cost × quantity. */
  function TotalCost(cart: seq<CartItem>): int { SumOf(cart, LineCost) }

  // ------------------------------------------------------------ lemmas

  /** What the cart keeps under `add_to_cart` as written: every entry carries
      its catalogue product and a subtotal matching its quantity, and no item
      id appears twice. An entry's profit may lag behind its quantity. */
  predicate SessionCart(cart: seq<CartItem>)
  {
    (forall i :: 0 <= i < |cart| ==> Priced(cart[i]) && cart[i].subtotal == cart[i].price * cart[i].quantity) &&
    forall i, j :: 0 <= i < j < |cart| ==> cart[i].itemId != cart[j].itemId
  }

  /** How far revenue minus cost runs ahead of the profit the cart shows. */
  function ProfitGap(cart: seq<CartItem>): int
  {
    TotalRevenue(cart) - TotalCost(cart) - TotalProfit(cart)
  }

  /** `add_to_cart` as written. Adding an item already in the cart raises
      that entry's quantity by the amount added and resets its subtotal, but
      keeps its profit; the cart's length and the other entries are kept.
      Adding a new item appends its entry. Either way the session invariant
      holds. */
  lemma AddToCartEffect(cart: seq<CartItem>, itemId: int, quantity: int)
    requires itemId in Catalog && SessionCart(cart)
    ensures var r := AddedToCartAsWritten(cart, itemId, quantity);
      SessionCart(r) &&
      (FindItem(cart, itemId).None? ==> r == cart + [NewItem(itemId, quantity)]) &&
      (FindItem(cart, itemId).Some? ==>
         var k := FindItem(cart, itemId).value;
         |r| == |cart| && r[k].itemId == itemId && r[k].quantity == cart[k].quantity + quantity &&
         r[k].subtotal == r[k].price * r[k].quantity && r[k].profit == cart[k].profit &&
         forall j :: 0 <= j < |cart| && j != k ==> r[j] == cart[j])
  {
    match FindItem(cart, itemId)
    case None =>
      var it := NewItem(itemId, quantity);
      AppendKeepsSession(cart, it);
    case Some(k) =>
      var q := cart[k].quantity + quantity;
      ReplaceKeepsSession(cart, k, cart[k].(quantity := q, subtotal := q * cart[k].price));
  }

  /** Appending a priced entry with a matching subtotal, for an item not in the cart, keeps the session invariant. */
  lemma AppendKeepsSession(cart: seq<CartItem>, it: CartItem)
    requires SessionCart(cart) && Priced(it) && it.subtotal == it.price * it.quantity
    requires forall j :: 0 <= j < |cart| ==> cart[j].itemId != it.itemId
    ensures SessionCart(cart + [it])
  {
    var r := cart + [it];
    assert forall i :: 0 <= i < |cart| ==> r[i] == cart[i];
  }

  /** Replacing an entry by a priced one with a matching subtotal, for the same item, keeps the session invariant. */
  lemma ReplaceKeepsSession(cart: seq<CartItem>, k: nat, it: CartItem)
    requires SessionCart(cart) && k < |cart| && Priced(it) && it.subtotal == it.price * it.quantity
    requires it.itemId == cart[k].itemId
    ensures SessionCart(cart[k := it])
  {
    var r := cart[k := it];
    assert forall i :: 0 <= i < |cart| && i != k ==> r[i] == cart[i];
  }

  /** A valid cart meets the session invariant. */
  lemma ValidIsSession(cart: seq<CartItem>)
    requires ValidCart(cart)
    ensures SessionCart(cart)
  {
  }

  /** `add_to_cart` as written, on the cart totals: the item count, revenue
      and cost grow by q, price × q and cost × q. The profit shown grows by
      (price − cost) × q for a new entry but not at all for a merge. */
  lemma AddTotals(cart: seq<CartItem>, itemId: int, quantity: int)
    requires itemId in Catalog && SessionCart(cart)
    ensures var r := AddedToCartAsWritten(cart, itemId, quantity);
      var p := Catalog[itemId];
      TotalItems(r) == TotalItems(cart) + quantity &&
      TotalRevenue(r) == TotalRevenue(cart) + p.price * quantity &&
      TotalCost(r) == TotalCost(cart) + p.cost * quantity &&
      TotalProfit(r) == TotalProfit(cart) + (if FindItem(cart, itemId).Some? then 0 else (p.price - p.cost) * quantity)
  {
    match FindItem(cart, itemId)
    case None =>
      AppendTotals(cart, NewItem(itemId, quantity));
    case Some(k) =>
      assert Priced(cart[k]);
      MergeTotals(cart, k, quantity);
  }

  /** The totals after appending one entry. */
  lemma AppendTotals(cart: seq<CartItem>, it: CartItem)
    ensures var r := cart + [it];
      TotalItems(r) == TotalItems(cart) + it.quantity &&
      TotalRevenue(r) == TotalRevenue(cart) + it.subtotal &&
      TotalCost(r) == TotalCost(cart) + it.cost * it.quantity &&
      TotalProfit(r) == TotalProfit(cart) + it.profit
  {
    SumOfSnoc(cart, it, Quantity);
    SumOfSnoc(cart, it, Subtotal);
    SumOfSnoc(cart, it, LineCost);
    SumOfSnoc(cart, it, Profit);
  }

  /** The totals after the merge as written raises entry k's quantity by q. */
  lemma MergeTotals(cart: seq<CartItem>, k: nat, quantity: int)
    requires k < |cart| && cart[k].subtotal == cart[k].price * cart[k].quantity
    ensures var q := cart[k].quantity + quantity;
      var r := cart[k := cart[k].(quantity := q, subtotal := q * cart[k].price)];
      TotalItems(r) == TotalItems(cart) + quantity &&
      TotalRevenue(r) == TotalRevenue(cart) + cart[k].price * quantity &&
      TotalCost(r) == TotalCost(cart) + cart[k].cost * quantity &&
      TotalProfit(r) == TotalProfit(cart)
  {
    var it := cart[k];
    var m := it.(quantity := it.quantity + quantity, subtotal := (it.quantity + quantity) * it.price);
    SumOfUpdate(cart, k, m, Quantity);
    SumOfUpdate(cart, k, m, Subtotal);
    SumOfUpdate(cart, k, m, LineCost);
    SumOfUpdate(cart, k, m, Profit);
    assert m.subtotal - it.subtotal == it.price * quantity;
    assert LineCost(m) - LineCost(it) == it.cost * quantity;
  }

  /** As written, a merge widens the profit gap by (price − cost) × q, and
      appending a new entry leaves the gap as it was. */
  lemma AddProfitGap(cart: seq<CartItem>, itemId: int, quantity: int)
    requires itemId in Catalog && SessionCart(cart)
    ensures var p := Catalog[itemId];
      ProfitGap(AddedToCartAsWritten(cart, itemId, quantity)) ==
        ProfitGap(cart) + (if FindItem(cart, itemId).Some? then (p.price - p.cost) * quantity else 0)
  {
    AddTotals(cart, itemId, quantity);
  }

  /** Starting from a valid cart, a merge as written leaves the profit shown
      equal to revenue minus cost exactly when (price − cost) × q is zero. */
  lemma MergeBreaksProfit(cart: seq<CartItem>, itemId: int, quantity: int)
    requires itemId in Catalog && ValidCart(cart) && FindItem(cart, itemId).Some?
    ensures var r := AddedToCartAsWritten(cart, itemId, quantity);
      var p := Catalog[itemId];
      TotalProfit(r) == TotalRevenue(r) - TotalCost(r) <==> (p.price - p.cost) * quantity == 0
  {
    ProfitIsRevenueMinusCost(cart);
    ValidIsSession(cart);
    AddProfitGap(cart, itemId, quantity);
  }

  /** The corrected merge keeps the cart valid: subtotals and profits both
      follow the quantities. */
  lemma AddKeepsValid(cart: seq<CartItem>, itemId: int, quantity: int)
    requires itemId in Catalog && ValidCart(cart)
    ensures ValidCart(AddedToCart(cart, itemId, quantity))
  {
    match FindItem(cart, itemId)
    case None =>
      AppendKeepsValid(cart, NewItem(itemId, quantity));
    case Some(k) =>
      var q := cart[k].quantity + quantity;
      var it := cart[k].(quantity := q, subtotal := q * cart[k].price, profit := (cart[k].price - cart[k].cost) * q);
      assert Priced(cart[k]) && Consistent(it);
      ReplaceKeepsValid(cart, k, it);
  }

  /** Appending a priced, consistent entry for an item not in the cart keeps the invariant. */
  lemma AppendKeepsValid(cart: seq<CartItem>, it: CartItem)
    requires ValidCart(cart) && Priced(it) && Consistent(it)
    requires forall j :: 0 <= j < |cart| ==> cart[j].itemId != it.itemId
    ensures ValidCart(cart + [it])
  {
    var r := cart + [it];
    assert forall i :: 0 <= i < |cart| ==> r[i] == cart[i];
  }

  /** Replacing an entry by a priced, consistent one for the same item keeps the invariant. */
  lemma ReplaceKeepsValid(cart: seq<CartItem>, k: nat, it: CartItem)
    requires ValidCart(cart) && k < |cart| && Priced(it) && Consistent(it) && it.itemId == cart[k].itemId
    ensures ValidCart(cart[k := it])
  {
    var r := cart[k := it];
    assert forall i :: 0 <= i < |cart| && i != k ==> r[i] == cart[i];
  }

  /** An edit sets that entry's quantity, keeps every other entry and keeps the invariant. */
  lemma EditQuantityEffect(cart: seq<CartItem>, idx: nat, newQty: int)
    requires idx < |cart| && ValidCart(cart)
    ensures var r := EditedQuantity(cart, idx, newQty);
      ValidCart(r) && |r| == |cart| && r[idx].quantity == newQty &&
      r[idx].itemId == cart[idx].itemId &&
      (forall j :: 0 <= j < |cart| && j != idx ==> r[j] == cart[j]) &&
      TotalItems(r) == TotalItems(cart) - cart[idx].quantity + newQty
  {
    var r := EditedQuantity(cart, idx, newQty);
    SumOfUpdate(cart, idx, r[idx], Quantity);
    assert cart[idx := r[idx]] == r;
  }

  /** Removing an entry keeps the others in order, keeps the invariant and
      takes exactly that entry out of each total. */
  lemma RemoveEffect(cart: seq<CartItem>, idx: nat)
    requires idx < |cart| && ValidCart(cart)
    ensures var r := RemovedAt(cart, idx);
      ValidCart(r) && |r| == |cart| - 1 &&
      (forall j :: 0 <= j < idx ==> r[j] == cart[j]) &&
      (forall j :: idx <= j < |r| ==> r[j] == cart[j + 1]) &&
      TotalItems(r) == TotalItems(cart) - cart[idx].quantity &&
      TotalRevenue(r) == TotalRevenue(cart) - cart[idx].subtotal &&
      TotalProfit(r) == TotalProfit(cart) - cart[idx].profit
  {
    SumOfRemove(cart, idx, Quantity);
    SumOfRemove(cart, idx, Subtotal);
    SumOfRemove(cart, idx, Profit);
    RemoveKeepsValid(cart, idx);
  }

  lemma RemoveKeepsValid(cart: seq<CartItem>, idx: nat)
    requires idx < |cart| && ValidCart(cart)
    ensures var r := RemovedAt(cart, idx);
      ValidCart(r) && |r| == |cart| - 1 &&
      (forall j :: 0 <= j < idx ==> r[j] == cart[j]) &&
      (forall j :: idx <= j < |r| ==> r[j] == cart[j + 1])
  {
    var r := RemovedAt(cart, idx);
    assert forall j :: 0 <= j < idx ==> r[j] == cart[j];
    assert forall j :: idx <= j < |r| ==> r[j] == cart[j + 1];
    forall i, j | 0 <= i < j < |r|
      ensures r[i].itemId != r[j].itemId
    {
      var i' := if i < idx then i else i + 1;
      var j' := if j < idx then j else j + 1;
      assert r[i] == cart[i'] && r[j] == cart[j'];
    }
  }

  /** As written, the quantity edit and the removal keep the session
      invariant, and an edited entry's profit again follows its quantity. */
  lemma EditKeepsSession(cart: seq<CartItem>, idx: nat, newQty: int)
    requires idx < |cart| && SessionCart(cart)
    ensures var r := EditedQuantity(cart, idx, newQty);
      SessionCart(r) && (newQty != cart[idx].quantity ==> Consistent(r[idx]))
  {
    var it := cart[idx];
    if newQty != it.quantity {
      ReplaceKeepsSession(cart, idx, it.(quantity := newQty, subtotal := it.price * newQty,
                                          profit := (it.price - it.cost) * newQty));
    }
  }

  lemma RemoveKeepsSession(cart: seq<CartItem>, idx: nat)
    requires idx < |cart| && SessionCart(cart)
    ensures SessionCart(RemovedAt(cart, idx))
  {
    var r := RemovedAt(cart, idx);
    forall i | 0 <= i < |r|
      ensures r[i] == cart[if i < idx then i else i + 1]
    {
    }
    forall i, j | 0 <= i < j < |r|
      ensures r[i].itemId != r[j].itemId
    {
      var i' := if i < idx then i else i + 1;
      var j' := if j < idx then j else j + 1;
      assert r[i] == cart[i'] && r[j] == cart[j'];
    }
  }

  /** In a cart of consistent entries the profit shown is the revenue
      minus the cost checkout charges. */
  lemma ProfitIsRevenueMinusCost(cart: seq<CartItem>)
    requires forall i :: 0 <= i < |cart| ==> Consistent(cart[i])
    ensures TotalProfit(cart) == TotalRevenue(cart) - TotalCost(cart)
  {
    forall it | it in cart
      ensures Profit(it) == Subtotal(it) - LineCost(it)
    {
      var i :| 0 <= i < |cart| && cart[i] == it;
      assert Consistent(cart[i]);
    }
    var h := (it: CartItem) => if it in cart then Profit(it) else Subtotal(it) - LineCost(it);
    SumOfCongruent(cart, Profit, h);
    SumOfDifference(cart, Subtotal, LineCost, h);
  }

  /** The merge as written: adding item 1 twice, one at a time, leaves the
      entry's profit at 13 while revenue minus cost is 26. */
  lemma StaleProfitAfterMerge()
    ensures var cart := AddedToCartAsWritten(AddedToCartAsWritten([], 1, 1), 1, 1);
      |cart| == 1 && cart[0].quantity == 2 && cart[0].profit == 13 &&
      TotalProfit(cart) == 13 && TotalRevenue(cart) - TotalCost(cart) == 26 && !ValidCart(cart)
  {
    var once := AddedToCartAsWritten([], 1, 1);
    assert once == [NewItem(1, 1)];
    var cart := AddedToCartAsWritten(once, 1, 1);
    assert FindItem(once, 1) == Some(0);
    assert cart[0].profit == 13;
    assert cart[1..] == [];
    assert TotalProfit(cart) == cart[0].profit + TotalProfit([]);
    assert TotalRevenue(cart) == cart[0].subtotal + TotalRevenue([]);
    assert TotalCost(cart) == LineCost(cart[0]) + TotalCost([]);
  }

  // --------------------------------------------------------- checkout

  /** The checkout form and the session's clock and cashier. */
  datatype Checkout = Checkout(
    customerName: string, customerEmail: string, paymentMethod: string, notes: string,
    date: string, time: string, cashier: string)

  const TransactionsFile: string := "pos_transactions.csv"
  const ItemsFile: string := "pos_items.csv"

  const TransactionColumns: seq<string> := [
    "order_number", "date", "time", "cashier", "customer_name", "customer_email",
    "payment_method", "total_items", "total_revenue", "total_cost", "total_profit", "notes"]

  const ItemColumns: seq<string> := [
    "order_number", "date", "time", "item_id", "item_name", "species", "quantity",
    "unit_price", "unit_cost", "subtotal_revenue", "subtotal_profit", "cashier"]

  /** The transaction record `process_payment` saves: a blank name becomes
      "Walk-in Customer" and the profit is revenue minus Σ cost × quantity. */
  function TransactionFields(cart: seq<CartItem>, orderNumber: string, c: Checkout): (d: Fields)
    ensures Keys(d) == TransactionColumns
  {
    [("order_number", Str(orderNumber)), ("date", Str(c.date)), ("time", Str(c.time)),
     ("cashier", Str(c.cashier)),
     ("customer_name", Str(if c.customerName == "" then "Walk-in Customer" else c.customerName)),
     ("customer_email", Str(c.customerEmail)), ("payment_method", Str(c.paymentMethod)),
     ("total_items", Num(TotalItems(cart))), ("total_revenue", Num(TotalRevenue(cart))),
     ("total_cost", Num(TotalCost(cart))), ("total_profit", Num(TotalRevenue(cart) - TotalCost(cart))),
     ("notes", Str(c.notes))]
  }

  /** The record saved for one cart entry. */
  function ItemFields(it: CartItem, orderNumber: string, c: Checkout): (d: Fields)
    ensures Keys(d) == ItemColumns
  {
    [("order_number", Str(orderNumber)), ("date", Str(c.date)), ("time", Str(c.time)),
     ("item_id", Num(it.itemId)), ("item_name", Str(it.name)), ("species", Str(it.species)),
     ("quantity", Num(it.quantity)), ("unit_price", Num(it.price)), ("unit_cost", Num(it.cost)),
     ("subtotal_revenue", Num(it.subtotal)), ("subtotal_profit", Num(it.profit)),
     ("cashier", Str(c.cashier))]
  }

  /** The files after appending one item record per entry, in cart order. */
  function SaveItems(fs: FileSystem, items: seq<CartItem>, orderNumber: string, c: Checkout): FileSystem
    decreases |items|
  {
    if items == [] then fs
    else
      var n := |items| - 1;
      SaveToCsv(SaveItems(fs, items[..n], orderNumber, c), ItemsFile, ItemFields(items[n], orderNumber, c), true)
  }

  /** The files after `process_payment`: the transaction line, then the item lines. */
  function PaymentFiles(fs: FileSystem, cart: seq<CartItem>, orderNumber: string, c: Checkout): FileSystem
  {
    SaveItems(SaveToCsv(fs, TransactionsFile, TransactionFields(cart, orderNumber, c), true), cart, orderNumber, c)
  }

  /** The rows the item records read back as. */
  function ItemRows(items: seq<CartItem>, orderNumber: string, c: Checkout): (rs: seq<Record>)
    ensures |rs| == |items|
  {
    seq(|items|, i requires 0 <= i < |items| => NormalizeRecord(AsRecord(ItemFields(items[i], orderNumber, c))))
  }

  lemma ColumnsDistinct()
    ensures Distinct(TransactionColumns) && Distinct(ItemColumns)
  {
  }

  /** Saving item records touches only the item table. */
  lemma {:induction false} SaveItemsFrame(fs: FileSystem, items: seq<CartItem>, orderNumber: string, c: Checkout)
    ensures var g := SaveItems(fs, items, orderNumber, c);
      forall n :: n in fs && n != ItemsFile ==> n in g && g[n] == fs[n]
    decreases |items|
  {
    if items != [] {
      SaveItemsFrame(fs, items[..|items| - 1], orderNumber, c);
    }
  }

  /** Each item record reads back, after the table's earlier rows and in cart order. */
  lemma {:induction false} ItemsReadBack(fs: FileSystem, items: seq<CartItem>, orderNumber: string, c: Checkout)
    requires Ready(fs, ItemsFile, ItemColumns)
    ensures var g := SaveItems(fs, items, orderNumber, c);
      Ready(g, ItemsFile, ItemColumns) &&
      Load(g, ItemsFile) == Frame(Load(fs, ItemsFile).columns, Load(fs, ItemsFile).rows + ItemRows(items, orderNumber, c))
    decreases |items|
  {
    var before := Load(fs, ItemsFile);
    if items == [] {
      assert before.rows + ItemRows(items, orderNumber, c) == before.rows;
    } else {
      var n := |items| - 1;
      var g0 := SaveItems(fs, items[..n], orderNumber, c);
      ItemsReadBack(fs, items[..n], orderNumber, c);
      var rs := ItemRows(items[..n], orderNumber, c);
      var d := ItemFields(items[n], orderNumber, c);
      SaveItemRow(g0, d);
      ItemRowsSnoc(items, orderNumber, c);
      assert (before.rows + rs) + [NormalizeRecord(AsRecord(d))] == before.rows + ItemRows(items, orderNumber, c);
    }
  }

  lemma SaveItemRow(fs: FileSystem, d: Fields)
    requires Ready(fs, ItemsFile, ItemColumns) && Keys(d) == ItemColumns
    ensures Ready(SaveToCsv(fs, ItemsFile, d, true), ItemsFile, ItemColumns)
    ensures Load(SaveToCsv(fs, ItemsFile, d, true), ItemsFile) ==
      Frame(Load(fs, ItemsFile).columns, Load(fs, ItemsFile).rows + [NormalizeRecord(AsRecord(d))])
  {
    ColumnsDistinct();
    AppendReadsBack(fs, ItemsFile, d);
    AppendKeepsReady(fs, ItemsFile, ItemColumns, d);
  }

  lemma ItemRowsSnoc(items: seq<CartItem>, orderNumber: string, c: Checkout)
    requires items != []
    ensures var n := |items| - 1;
      ItemRows(items, orderNumber, c) ==
        ItemRows(items[..n], orderNumber, c) + [NormalizeRecord(AsRecord(ItemFields(items[n], orderNumber, c)))]
  {
  }

  /** After a payment the transaction table has gained exactly the
      transaction record and the item table exactly one record per cart
      entry, in cart order. */
  lemma PaymentReadsBack(fs: FileSystem, cart: seq<CartItem>, orderNumber: string, c: Checkout)
    requires Ready(fs, TransactionsFile, TransactionColumns) && Ready(fs, ItemsFile, ItemColumns)
    ensures var g := PaymentFiles(fs, cart, orderNumber, c);
      Load(g, TransactionsFile).rows ==
        Load(fs, TransactionsFile).rows + [NormalizeRecord(AsRecord(TransactionFields(cart, orderNumber, c)))] &&
      Load(g, ItemsFile).rows == Load(fs, ItemsFile).rows + ItemRows(cart, orderNumber, c)
  {
    ColumnsDistinct();
    var t := TransactionFields(cart, orderNumber, c);
    var fs1 := SaveToCsv(fs, TransactionsFile, t, true);
    AppendReadsBack(fs, TransactionsFile, t);
    assert Ready(fs1, ItemsFile, ItemColumns);
    ItemsReadBack(fs1, cart, orderNumber, c);
    SaveItemsFrame(fs1, cart, orderNumber, c);
  }

  /** Freshly initialised tables accept payments. */
  lemma InitializedTablesAreReady(fs: FileSystem)
    requires TransactionsFile !in fs && ItemsFile !in fs
    ensures var g := Database.InitializeFrom(fs, Database.Registry);
      Ready(g, TransactionsFile, TransactionColumns) && Ready(g, ItemsFile, ItemColumns)
  {
    Database.RegistryNamesDistinct();
    assert Database.Registry[4] == (TransactionsFile, TransactionColumns);
    assert Database.Registry[5] == (ItemsFile, ItemColumns);
    Database.CreatedTable(fs, Database.Registry, 4);
    Database.CreatedTable(fs, Database.Registry, 5);
  }

  /** With the merge corrected, the item records' profits add up to the
      transaction's profit. */
  lemma ItemProfitsMatchTransaction(cart: seq<CartItem>)
    requires ValidCart(cart)
    ensures TotalProfit(cart) == TotalRevenue(cart) - TotalCost(cart)
  {
    ProfitIsRevenueMinusCost(cart);
  }

  /** `generate_order_number`: "ORD", the date, then a four-digit number. */
  function GenerateOrderNumber(date: string, r: int): (s: string)
    requires 1000 <= r <= 9999
    ensures |s| == 3 + |date| + 4
    ensures s[..3] == "ORD" && s[3..3 + |date|] == date
    ensures forall i :: 3 + |date| <= i < |s| ==> '0' <= s[i] <= '9'
  {
    NatToStringLength(r, 4);
    "ORD" + date + IntToString(r)
  }

  // ------------------------------------------------------ the session

  /** The session's cart and current order number. */
  class PosSession {
    var cart: seq<CartItem>
    var orderNumber: string

    constructor (orderNumber0: string)
      ensures cart == [] && orderNumber == orderNumber0
    {
      cart := [];
      orderNumber := orderNumber0;
    }

    /** `add_to_cart`: a merge updates the quantity and subtotal and keeps the profit. */
    method AddToCart(itemId: int, quantity: int)
      requires itemId in Catalog
      modifies this
      ensures cart == AddedToCartAsWritten(old(cart), itemId, quantity)
      ensures orderNumber == old(orderNumber)
    {
      var i := 0;
      while i < |cart|
        invariant 0 <= i <= |cart|
        invariant cart == old(cart)
        invariant forall j :: 0 <= j < i ==> cart[j].itemId != itemId
      {
        if cart[i].itemId == itemId {
          var it := cart[i];
          var q := it.quantity + quantity;
          cart := cart[i := it.(quantity := q, subtotal := q * it.price)];
          return;
        }
        i := i + 1;
      }
      cart := cart + [NewItem(itemId, quantity)];
    }

    method EditQuantity(idx: nat, newQty: int)
      requires idx < |cart|
      modifies this
      ensures cart == EditedQuantity(old(cart), idx, newQty)
      ensures orderNumber == old(orderNumber)
    {
      var it := cart[idx];
      if newQty != it.quantity {
        cart := cart[idx := it.(quantity := newQty, subtotal := it.price * newQty,
                                profit := (it.price - it.cost) * newQty)];
      }
    }

    method RemoveItem(idx: nat)
      requires idx < |cart|
      modifies this
      ensures cart == RemovedAt(old(cart), idx)
      ensures orderNumber == old(orderNumber)
    {
      cart := cart[..idx] + cart[idx + 1..];
    }

    method ClearCart()
      modifies this
      ensures cart == [] && orderNumber == old(orderNumber)
    {
      cart := [];
    }

    /** `process_payment`: saves the transaction, then one record per entry,
        then empties the cart and starts the next order number. */
    method ProcessPayment(fs: FileSystem, c: Checkout, nextOrderNumber: string) returns (fs': FileSystem)
      modifies this
      ensures fs' == PaymentFiles(fs, old(cart), old(orderNumber), c)
      ensures cart == [] && orderNumber == nextOrderNumber
    {
      fs' := SaveToCsv(fs, TransactionsFile, TransactionFields(cart, orderNumber, c), true);
      ghost var start := fs';
      var i := 0;
      while i < |cart|
        invariant 0 <= i <= |cart|
        invariant fs' == SaveItems(start, cart[..i], orderNumber, c)
      {
        assert cart[..i + 1][..i] == cart[..i];
        fs' := SaveToCsv(fs', ItemsFile, ItemFields(cart[i], orderNumber, c), true);
        i := i + 1;
      }
      assert cart[..i] == cart;
      cart := [];
      orderNumber := nextOrderNumber;
    }
  }
}
