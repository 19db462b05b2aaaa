/** The purchaser pages: the quick-order form and the order rows it saves,
    the order history filters and status glyphs, and the saved profile. */
module PurchaserProfile {
  import opened Util
  import opened CsvStore

  const HistoryFile: string := "purchase_history.csv"
  const ProfilesFile: string := "purchaser_profiles.csv"

  const OrderColumns: seq<string> := [
    "order_id", "username", "species", "quantity", "unit_price", "total_amount",
    "delivery_option", "payment_method", "delivery_address", "special_instructions",
    "status", "purchase_date"]

  const ProfileColumns: seq<string> := [
    "username", "full_name", "email", "phone", "preferred_species", "default_address",
    "preferred_delivery", "email_notifications", "sms_notifications", "updated_date"]

  lemma ColumnsDistinct()
    ensures Distinct(OrderColumns) && Distinct(ProfileColumns)
  {
  }

  // ------------------------------------------------------- quick order

  /** A species of the quick-order inventory (pesos per unit). */
  datatype Species = Species(name: string, price: int, stock: int)

  /** The inventory, in the order the form lists it. */
  const Inventory: seq<Species> := [
    Species("Butterfly-Common Lime", 150, 25),
    Species("Butterfly-Common Mormon", 200, 15),
    Species("Butterfly-Paper Kite", 180, 20),
    Species("Butterfly-Emerald Swallowtail", 300, 8),
    Species("Butterfly-Golden Birdwing", 500, 3),
    Species("Butterfly-Plain Tiger", 120, 30),
    Species("Moth-Atlas", 250, 12),
    Species("Butterfly-Red Lacewing", 220, 10)
  ]

  /** One line of the order summary. */
  datatype OrderItem = OrderItem(species: string, quantity: int, unitPrice: int, total: int)

  function ItemFor(s: Species, q: int): (it: OrderItem)
    ensures it.species == s.name && it.quantity == q && it.unitPrice == s.price
    ensures it.total == it.quantity * it.unitPrice
  {
    OrderItem(s.name, q, s.price, q * s.price)
  }

  function ItemTotal(it: OrderItem): int { it.total }

  /** The quantity inputs: one per species, each between 0 and its stock. */
  predicate WithinStock(inv: seq<Species>, qs: seq<int>)
  {
    |qs| == |inv| && forall i :: 0 <= i < |inv| ==> 0 <= qs[i] <= inv[i].stock
  }

  /** The summary lines: one per species with a positive quantity, in inventory order. */
  function OrderItems(inv: seq<Species>, qs: seq<int>): seq<OrderItem>
    requires |qs| == |inv|
    decreases |inv|
  {
    if inv == [] then []
    else
      var n := |inv| - 1;
      OrderItems(inv[..n], qs[..n]) + (if qs[n] > 0 then [ItemFor(inv[n], qs[n])] else [])
  }

  /** Quantity times price over every species of the form. */
  function CatalogTotal(inv: seq<Species>, qs: seq<int>): int
    requires |qs| == |inv|
    decreases |inv|
  {
    if inv == [] then 0
    else
      var n := |inv| - 1;
      CatalogTotal(inv[..n], qs[..n]) + qs[n] * inv[n].price
  }

  /** The summary has at most one line per species, and its line totals
      add up to quantity × price over the whole form. */
  lemma {:induction false} OrderItemsTotal(inv: seq<Species>, qs: seq<int>)
    requires WithinStock(inv, qs)
    ensures |OrderItems(inv, qs)| <= |inv|
    ensures SumOf(OrderItems(inv, qs), ItemTotal) == CatalogTotal(inv, qs)
    decreases |inv|
  {
    if inv != [] {
      var n := |inv| - 1;
      assert WithinStock(inv[..n], qs[..n]) by {
        assert forall i :: 0 <= i < n ==> inv[..n][i] == inv[i] && qs[..n][i] == qs[i];
      }
      OrderItemsTotal(inv[..n], qs[..n]);
      var rest := OrderItems(inv[..n], qs[..n]);
      var last := if qs[n] > 0 then [ItemFor(inv[n], qs[n])] else [];
      assert OrderItems(inv, qs) == rest + last;
      SumOfAppend(rest, last, ItemTotal);
      if qs[n] > 0 {
        assert SumOf(last, ItemTotal) == qs[n] * inv[n].price + SumOf(last[1..], ItemTotal);
      }
    }
  }

  /** Every summary line is a species of the form, ordered in a positive
      quantity within its stock, at its list price. */
  lemma {:induction false} OrderItemsFromInventory(inv: seq<Species>, qs: seq<int>)
    requires WithinStock(inv, qs)
    ensures forall it: OrderItem :: it in OrderItems(inv, qs) ==>
      it.quantity > 0 && it.total == it.quantity * it.unitPrice &&
      exists i :: 0 <= i < |inv| && it == ItemFor(inv[i], qs[i]) && it.quantity <= inv[i].stock
    decreases |inv|
  {
    if inv != [] {
      var n := |inv| - 1;
      var inv0, qs0 := inv[..n], qs[..n];
      assert WithinStock(inv0, qs0) by {
        assert forall i :: 0 <= i < n ==> inv0[i] == inv[i] && qs0[i] == qs[i];
      }
      OrderItemsFromInventory(inv0, qs0);
      var rest := OrderItems(inv0, qs0);
      var last := if qs[n] > 0 then [ItemFor(inv[n], qs[n])] else [];
      assert OrderItems(inv, qs) == rest + last;
      forall it: OrderItem | it in rest + last
        ensures it.quantity > 0 && it.total == it.quantity * it.unitPrice &&
          exists i :: 0 <= i < |inv| && it == ItemFor(inv[i], qs[i]) && it.quantity <= inv[i].stock
      {
        if it in rest {
          var i :| 0 <= i < |inv0| && it == ItemFor(inv0[i], qs0[i]) && it.quantity <= inv0[i].stock;
          assert inv0[i] == inv[i] && qs0[i] == qs[i];
        } else {
          assert it == ItemFor(inv[n], qs[n]);
        }
      }
    }
  }

  /** Every species ordered in a positive quantity has its line. */
  lemma {:induction false} OrderItemsComplete(inv: seq<Species>, qs: seq<int>)
    requires |qs| == |inv|
    ensures forall i :: 0 <= i < |inv| && qs[i] > 0 ==> ItemFor(inv[i], qs[i]) in OrderItems(inv, qs)
    decreases |inv|
  {
    if inv != [] {
      var n := |inv| - 1;
      var inv0, qs0 := inv[..n], qs[..n];
      OrderItemsComplete(inv0, qs0);
      var rest := OrderItems(inv0, qs0);
      var last := if qs[n] > 0 then [ItemFor(inv[n], qs[n])] else [];
      assert OrderItems(inv, qs) == rest + last;
      forall i | 0 <= i < |inv| && qs[i] > 0
        ensures ItemFor(inv[i], qs[i]) in rest + last
      {
        if i < n {
          assert inv0[i] == inv[i] && qs0[i] == qs[i];
        }
      }
    }
  }

  /** The summary holds exactly the species ordered, each at its list price
      and within its stock; the order total is quantity × price summed
      over the whole form. */
  lemma QuickOrderItems(inv: seq<Species>, qs: seq<int>)
    requires WithinStock(inv, qs)
    ensures var items := OrderItems(inv, qs);
      |items| <= |inv| &&
      SumOf(items, ItemTotal) == CatalogTotal(inv, qs) &&
      (forall it :: it in items ==>
         (it.quantity > 0 && it.total == it.quantity * it.unitPrice &&
          exists i :: 0 <= i < |inv| && it == ItemFor(inv[i], qs[i]) && it.quantity <= inv[i].stock)) &&
      (forall i :: 0 <= i < |inv| && qs[i] > 0 ==> ItemFor(inv[i], qs[i]) in items)
  {
    OrderItemsTotal(inv, qs);
    OrderItemsFromInventory(inv, qs);
    OrderItemsComplete(inv, qs);
  }

  /** The quick-order form over the shop's inventory: the summary lines and
      the running total, which is quantity × price over the whole form. */
  method BuildQuickOrder(qs: seq<int>) returns (items: seq<OrderItem>, totalAmount: int)
    requires WithinStock(Inventory, qs)
    ensures items == OrderItems(Inventory, qs)
    ensures totalAmount == SumOf(items, ItemTotal) == CatalogTotal(Inventory, qs)
  {
    items, totalAmount := SummarizeOrder(Inventory, qs);
    OrderItemsTotal(Inventory, qs);
  }

  /** The loop of the quick-order form over the inventory it is given: one
      summary line per species with a positive quantity, and their total. */
  method SummarizeOrder(inv: seq<Species>, qs: seq<int>) returns (items: seq<OrderItem>, totalAmount: int)
    requires |qs| == |inv|
    ensures items == OrderItems(inv, qs)
    ensures totalAmount == SumOf(items, ItemTotal)
  {
    items := [];
    totalAmount := 0;
    var i := 0;
    while i < |inv|
      invariant 0 <= i <= |inv|
      invariant items == OrderItems(inv[..i], qs[..i])
      invariant totalAmount == SumOf(items, ItemTotal)
    {
      OrderItemsStep(inv, qs, i);
      var quantity := qs[i];
      if quantity > 0 {
        var item := ItemFor(inv[i], quantity);
        SumOfSnoc(items, item, ItemTotal);
        items := items + [item];
        totalAmount := totalAmount + item.total;
      }
      i := i + 1;
    }
    assert inv[..i] == inv && qs[..i] == qs;
  }

  lemma OrderItemsStep(inv: seq<Species>, qs: seq<int>, i: nat)
    requires |qs| == |inv| && i < |inv|
    ensures OrderItems(inv[..i + 1], qs[..i + 1]) ==
      OrderItems(inv[..i], qs[..i]) + (if qs[i] > 0 then [ItemFor(inv[i], qs[i])] else [])
  {
    assert inv[..i + 1][..i] == inv[..i] && qs[..i + 1][..i] == qs[..i];
  }

  /** The delivery and payment choices of the form. */
  datatype Delivery = Delivery(option: string, paymentMethod: string, address: string, instructions: string)

  function OrderFields(it: OrderItem, orderId: string, user: string, dv: Delivery, now: string): (d: Fields)
    ensures Keys(d) == OrderColumns
  {
    [("order_id", Str(orderId)), ("username", Str(user)), ("species", Str(it.species)),
     ("quantity", Num(it.quantity)), ("unit_price", Num(it.unitPrice)), ("total_amount", Num(it.total)),
     ("delivery_option", Str(dv.option)), ("payment_method", Str(dv.paymentMethod)),
     ("delivery_address", Str(dv.address)), ("special_instructions", Str(dv.instructions)),
     ("status", Str("Pending")), ("purchase_date", Str(now))]
  }

  /** The files after saving one order row per item, in item order. */
  function SaveOrders(fs: FileSystem, items: seq<OrderItem>, orderId: string, user: string, dv: Delivery, now: string): FileSystem
    decreases |items|
  {
    if items == [] then fs
    else
      var n := |items| - 1;
      SaveToCsv(SaveOrders(fs, items[..n], orderId, user, dv, now), HistoryFile, OrderFields(items[n], orderId, user, dv, now), true)
  }

  /** What the order rows read back as. */
  function OrderRows(items: seq<OrderItem>, orderId: string, user: string, dv: Delivery, now: string): (rs: seq<Record>)
    ensures |rs| == |items|
  {
    seq(|items|, i requires 0 <= i < |items| => NormalizeRecord(AsRecord(OrderFields(items[i], orderId, user, dv, now))))
  }

  /** `process_quick_order`: one saved row per item, all under one order id. */
  method ProcessQuickOrder(fs: FileSystem, items: seq<OrderItem>, orderId: string, user: string, dv: Delivery, now: string)
    returns (fs': FileSystem)
    ensures fs' == SaveOrders(fs, items, orderId, user, dv, now)
  {
    fs' := fs;
    var i := 0;
    while i < |items|
      invariant 0 <= i <= |items|
      invariant fs' == SaveOrders(fs, items[..i], orderId, user, dv, now)
    {
      assert items[..i + 1][..i] == items[..i];
      fs' := SaveToCsv(fs', HistoryFile, OrderFields(items[i], orderId, user, dv, now), true);
      i := i + 1;
    }
    assert items[..i] == items;
  }

  /** Placing an order from the form: only with at least one item and a
      delivery address. */
  method SubmitQuickOrder(fs: FileSystem, qs: seq<int>, dv: Delivery, orderId: string, user: string, now: string)
    returns (fs': FileSystem, placed: bool, totalAmount: int)
    requires WithinStock(Inventory, qs)
    ensures placed <==> OrderItems(Inventory, qs) != [] && dv.address != ""
    ensures fs' == if placed then SaveOrders(fs, OrderItems(Inventory, qs), orderId, user, dv, now) else fs
    ensures totalAmount == CatalogTotal(Inventory, qs)
  {
    var items;
    items, totalAmount := BuildQuickOrder(qs);
    placed := items != [] && dv.address != "";
    if placed {
      fs' := ProcessQuickOrder(fs, items, orderId, user, dv, now);
    } else {
      fs' := fs;
    }
  }

  lemma OrderRowsSnoc(items: seq<OrderItem>, orderId: string, user: string, dv: Delivery, now: string)
    requires items != []
    ensures var n := |items| - 1;
      OrderRows(items, orderId, user, dv, now) ==
        OrderRows(items[..n], orderId, user, dv, now) + [NormalizeRecord(AsRecord(OrderFields(items[n], orderId, user, dv, now)))]
  {
  }

  lemma SaveOrderRow(fs: FileSystem, d: Fields)
    requires Ready(fs, HistoryFile, OrderColumns) || HistoryFile !in fs
    requires Keys(d) == OrderColumns
    ensures Ready(SaveToCsv(fs, HistoryFile, d, true), HistoryFile, OrderColumns)
    ensures Load(SaveToCsv(fs, HistoryFile, d, true), HistoryFile).rows == Load(fs, HistoryFile).rows + [NormalizeRecord(AsRecord(d))]
  {
    ColumnsDistinct();
    SaveReadsBack(fs, HistoryFile, OrderColumns, d);
  }

  /** The order rows read back after the history's earlier rows, in item
      order; a history that did not exist is created by the first row. */
  lemma {:induction false} OrdersReadBack(fs: FileSystem, items: seq<OrderItem>, orderId: string, user: string, dv: Delivery, now: string)
    requires Ready(fs, HistoryFile, OrderColumns) || HistoryFile !in fs
    ensures var g := SaveOrders(fs, items, orderId, user, dv, now);
      (Ready(g, HistoryFile, OrderColumns) || HistoryFile !in g) &&
      Load(g, HistoryFile).rows == Load(fs, HistoryFile).rows + OrderRows(items, orderId, user, dv, now)
    decreases |items|
  {
    var before := Load(fs, HistoryFile).rows;
    if items == [] {
      assert before + OrderRows(items, orderId, user, dv, now) == before;
    } else {
      var n := |items| - 1;
      var g0 := SaveOrders(fs, items[..n], orderId, user, dv, now);
      OrdersReadBack(fs, items[..n], orderId, user, dv, now);
      var mid := Load(g0, HistoryFile).rows;
      assert mid == before + OrderRows(items[..n], orderId, user, dv, now);
      var d := OrderFields(items[n], orderId, user, dv, now);
      SaveOrderRow(g0, d);
      var g := SaveOrders(fs, items, orderId, user, dv, now);
      assert g == SaveToCsv(g0, HistoryFile, d, true);
      assert Load(g, HistoryFile).rows == mid + [NormalizeRecord(AsRecord(d))];
      OrderRowsSnoc(items, orderId, user, dv, now);
    }
  }

  /** What an order row holds: the shared order id, the item's species,
      quantity and total, and status "Pending". */
  predicate RecordsItem(r: Record, it: OrderItem, orderId: string, user: string)
  {
    Get(r, "order_id") == Normalize(Str(orderId)) && Get(r, "username") == Normalize(Str(user)) &&
    Get(r, "species") == Normalize(Str(it.species)) && Get(r, "quantity") == Num(it.quantity) &&
    Get(r, "total_amount") == Num(it.total) && Get(r, "status") == Str("Pending")
  }

  lemma OrderRowOf(d: Fields, it: OrderItem, orderId: string, user: string)
    requires Distinct(Keys(d)) && |d| == 12
    requires d[0] == ("order_id", Str(orderId)) && d[1] == ("username", Str(user))
    requires d[2] == ("species", Str(it.species)) && d[3] == ("quantity", Num(it.quantity))
    requires d[5] == ("total_amount", Num(it.total)) && d[10] == ("status", Str("Pending"))
    ensures RecordsItem(NormalizeRecord(AsRecord(d)), it, orderId, user)
  {
    FieldReadsBack(d, 0, "order_id", Str(orderId));
    FieldReadsBack(d, 1, "username", Str(user));
    FieldReadsBack(d, 2, "species", Str(it.species));
    FieldReadsBack(d, 3, "quantity", Num(it.quantity));
    FieldReadsBack(d, 5, "total_amount", Num(it.total));
    FieldReadsBack(d, 10, "status", Str("Pending"));
  }

  /** Each saved order row holds its item under the one order id, pending. */
  lemma OrderRowsShareId(items: seq<OrderItem>, orderId: string, user: string, dv: Delivery, now: string)
    ensures var rs := OrderRows(items, orderId, user, dv, now);
      forall k :: 0 <= k < |items| ==> RecordsItem(rs[k], items[k], orderId, user)
  {
    ColumnsDistinct();
    forall k | 0 <= k < |items|
      ensures RecordsItem(OrderRows(items, orderId, user, dv, now)[k], items[k], orderId, user)
    {
      OrderRowOf(OrderFields(items[k], orderId, user, dv, now), items[k], orderId, user);
    }
  }

  /** A placed quick order adds one pending row per summary line to the
      history, after the rows it had, all with the same order id. */
  lemma PlacedOrderEffect(fs: FileSystem, qs: seq<int>, dv: Delivery, orderId: string, user: string, now: string)
    requires WithinStock(Inventory, qs)
    requires Ready(fs, HistoryFile, OrderColumns) || HistoryFile !in fs
    ensures var items := OrderItems(Inventory, qs);
      var rows := Load(fs, HistoryFile).rows;
      var rows' := Load(SaveOrders(fs, items, orderId, user, dv, now), HistoryFile).rows;
      |rows'| == |rows| + |items| && rows'[..|rows|] == rows &&
      forall k :: 0 <= k < |items| ==> RecordsItem(rows'[|rows| + k], items[k], orderId, user)
  {
    PlacedRows(fs, OrderItems(Inventory, qs), dv, orderId, user, now);
  }

  lemma PlacedRows(fs: FileSystem, items: seq<OrderItem>, dv: Delivery, orderId: string, user: string, now: string)
    requires Ready(fs, HistoryFile, OrderColumns) || HistoryFile !in fs
    ensures var rows := Load(fs, HistoryFile).rows;
      var rows' := Load(SaveOrders(fs, items, orderId, user, dv, now), HistoryFile).rows;
      |rows'| == |rows| + |items| && rows'[..|rows|] == rows &&
      forall k :: 0 <= k < |items| ==> RecordsItem(rows'[|rows| + k], items[k], orderId, user)
  {
    var rs := OrderRows(items, orderId, user, dv, now);
    OrdersReadBack(fs, items, orderId, user, dv, now);
    OrderRowsShareId(items, orderId, user, dv, now);
    AppendedRows(Load(fs, HistoryFile).rows, rs, items, orderId, user);
  }

  lemma AppendedRows(rows: seq<Record>, rs: seq<Record>, items: seq<OrderItem>, orderId: string, user: string)
    requires |rs| == |items| && forall k :: 0 <= k < |items| ==> RecordsItem(rs[k], items[k], orderId, user)
    ensures var all := rows + rs;
      |all| == |rows| + |items| && all[..|rows|] == rows &&
      forall k :: 0 <= k < |items| ==> RecordsItem(all[|rows| + k], items[k], orderId, user)
  {
    var all := rows + rs;
    assert all[..|rows|] == rows;
    forall k | 0 <= k < |items|
      ensures RecordsItem(all[|rows| + k], items[k], orderId, user)
    {
      assert all[|rows| + k] == rs[k];
    }
  }

  // ------------------------------------------------------ order history

  function StatusIs(status: string): Record -> bool
  {
    ColumnIs("status", status)
  }

  function SpeciesIs(species: string): Record -> bool
  {
    ColumnIs("species", species)
  }

  /** `apply_order_filters`. The time-period filter has no effect. */
  function ApplyOrderFilters(f: Frame, dateFilter: string, statusFilter: string, speciesFilter: string): (g: Frame)
    ensures g.columns == f.columns
  {
    var s := if statusFilter != "All" && "status" in f.columns
             then Frame(f.columns, Where(f.rows, StatusIs(statusFilter))) else f;
    if speciesFilter != "All Species" && "species" in s.columns
    then Frame(s.columns, Where(s.rows, SpeciesIs(speciesFilter))) else s
  }

  /** The row passes the filters that apply to the table. */
  predicate PassesFilters(r: Record, cols: seq<string>, statusFilter: string, speciesFilter: string)
  {
    (statusFilter == "All" || "status" !in cols || Get(r, "status") == Str(statusFilter)) &&
    (speciesFilter == "All Species" || "species" !in cols || Get(r, "species") == Str(speciesFilter))
  }

  function Passes(cols: seq<string>, statusFilter: string, speciesFilter: string): Record -> bool
  {
    r => PassesFilters(r, cols, statusFilter, speciesFilter)
  }

  /** The filtered history keeps, in order, exactly the rows that pass the
      filters that apply; the time period does not matter; and "All" with
      "All Species" returns the history unchanged. */
  lemma OrderFiltersExactly(f: Frame, dateFilter: string, statusFilter: string, speciesFilter: string)
    ensures ApplyOrderFilters(f, dateFilter, statusFilter, speciesFilter).rows ==
            Where(f.rows, Passes(f.columns, statusFilter, speciesFilter))
    ensures IsSubsequence(ApplyOrderFilters(f, dateFilter, statusFilter, speciesFilter).rows, f.rows)
    ensures forall r :: r in ApplyOrderFilters(f, dateFilter, statusFilter, speciesFilter).rows <==>
      r in f.rows && PassesFilters(r, f.columns, statusFilter, speciesFilter)
    ensures forall other :: ApplyOrderFilters(f, other, statusFilter, speciesFilter) ==
                            ApplyOrderFilters(f, dateFilter, statusFilter, speciesFilter)
    ensures ApplyOrderFilters(f, dateFilter, "All", "All Species") == f
  {
    var p := Passes(f.columns, statusFilter, speciesFilter);
    var st := statusFilter != "All" && "status" in f.columns;
    var sp := speciesFilter != "All Species" && "species" in f.columns;
    if st && sp {
      WhereWhere(f.rows, StatusIs(statusFilter), SpeciesIs(speciesFilter), p);
    } else if st {
      WhereCongruent(f.rows, StatusIs(statusFilter), p);
    } else if sp {
      WhereCongruent(f.rows, SpeciesIs(speciesFilter), p);
    } else {
      WhereAll(f.rows, p);
    }
    WhereIsSubsequence(f.rows, p);
    WhereExactly(f.rows, p);
  }

  const OrderStatuses: seq<string> := ["Pending", "Processing", "Shipped", "Delivered", "Cancelled"]

  /** `get_status_color`. */
  function StatusColor(status: string): (glyph: string)
    ensures glyph == "⚪" <==> status !in OrderStatuses
  {
    if status == "Pending" then "🟡"
    else if status == "Processing" then "🔵"
    else if status == "Shipped" then "🟠"
    else if status == "Delivered" then "🟢"
    else if status == "Cancelled" then "🔴"
    else "⚪"
  }

  /** Known statuses have glyphs of their own: the glyph tells the status. */
  lemma StatusColorsDistinct(a: string, b: string)
    requires a in OrderStatuses && b in OrderStatuses && a != b
    ensures StatusColor(a) != StatusColor(b)
  {
  }

  // ----------------------------------------------------------- profile

  /** The profile form. Lists and check boxes are saved as their text. */
  datatype ProfileForm = ProfileForm(
    fullName: string, email: string, phone: string, preferredSpecies: string,
    defaultAddress: string, preferredDelivery: string, emailNotifications: string,
    smsNotifications: string)

  function ProfileFields(p: ProfileForm, user: string, now: string): (d: Fields)
    ensures Keys(d) == ProfileColumns
  {
    [("username", Str(user)), ("full_name", Str(p.fullName)), ("email", Str(p.email)),
     ("phone", Str(p.phone)), ("preferred_species", Str(p.preferredSpecies)),
     ("default_address", Str(p.defaultAddress)), ("preferred_delivery", Str(p.preferredDelivery)),
     ("email_notifications", Str(p.emailNotifications)), ("sms_notifications", Str(p.smsNotifications)),
     ("updated_date", Str(now))]
  }

  /** "Save Profile": the profile is appended as a new row. */
  function SaveProfile(fs: FileSystem, user: string, p: ProfileForm, now: string): FileSystem
  {
    SaveToCsv(fs, ProfilesFile, ProfileFields(p, user, now), true)
  }

  function UserIs(user: string): Record -> bool
  {
    ColumnIs("username", user)
  }

  /** The position of the first row of `user`, `|rows|` when there is none. */
  function FirstRowOf(rows: seq<Record>, user: string): (k: nat)
    ensures k <= |rows|
    ensures k < |rows| ==> UserIs(user)(rows[k])
    ensures forall j :: 0 <= j < k ==> !UserIs(user)(rows[j])
  {
    if rows == [] then 0
    else if UserIs(user)(rows[0]) then 0
    else 1 + FirstRowOf(rows[1..], user)
  }

  /** The position of the last row of `user`, -1 when there is none. */
  function LastRowOf(rows: seq<Record>, user: string): (k: int)
    ensures -1 <= k < |rows|
    ensures k >= 0 ==> UserIs(user)(rows[k])
    ensures forall j :: k < j < |rows| ==> !UserIs(user)(rows[j])
  {
    if rows == [] then -1
    else if UserIs(user)(rows[|rows| - 1]) then |rows| - 1
    else LastRowOf(rows[..|rows| - 1], user)
  }

  /** `load_purchaser_profile` as written: the first saved row of the user. */
  function LoadProfileAsWritten(fs: FileSystem, user: string): Record
  {
    FirstProfile(Load(fs, ProfilesFile), user)
  }

  function FirstProfile(profiles: Frame, user: string): Record
  {
    if !IsEmpty(profiles) && "username" in profiles.columns then
      var k := FirstRowOf(profiles.rows, user);
      if k < |profiles.rows| then profiles.rows[k] else map[]
    else map[]
  }

  /** The profile the user saved last, which the settings form should show. */
  function LoadProfile(fs: FileSystem, user: string): Record
  {
    LatestProfile(Load(fs, ProfilesFile), user)
  }

  function LatestProfile(profiles: Frame, user: string): Record
  {
    if !IsEmpty(profiles) && "username" in profiles.columns then
      var k := LastRowOf(profiles.rows, user);
      if k >= 0 then profiles.rows[k] else map[]
    else map[]
  }

  /** As written, the load gives the first row whose username matches, and
      the empty map when no row matches. */
  lemma ProfileAsWrittenFirstMatch(fs: FileSystem, user: string)
    ensures var rows := Load(fs, ProfilesFile).rows;
      ((exists i :: 0 <= i < |rows| && UserIs(user)(rows[i])) ==>
        exists k :: 0 <= k < |rows| && LoadProfileAsWritten(fs, user) == rows[k] &&
          UserIs(user)(rows[k]) && forall j :: 0 <= j < k ==> !UserIs(user)(rows[j])) &&
      ((forall i :: 0 <= i < |rows| ==> !UserIs(user)(rows[i])) ==> LoadProfileAsWritten(fs, user) == map[])
  {
    FirstProfileMatch(Load(fs, ProfilesFile), user);
  }

  lemma FirstProfileMatch(f: Frame, user: string)
    requires WellFormed(f)
    ensures ((exists i :: 0 <= i < |f.rows| && UserIs(user)(f.rows[i])) ==>
        exists k :: 0 <= k < |f.rows| && FirstProfile(f, user) == f.rows[k] &&
          UserIs(user)(f.rows[k]) && forall j :: 0 <= j < k ==> !UserIs(user)(f.rows[j])) &&
      ((forall i :: 0 <= i < |f.rows| ==> !UserIs(user)(f.rows[i])) ==> FirstProfile(f, user) == map[])
  {
    var k := FirstRowOf(f.rows, user);
    if k < |f.rows| {
      assert "username" in f.rows[k];
      assert "username" in ColumnSet(f.columns);
    }
  }

  /** The corrected load gives the last row whose username matches, and
      the empty map when no row matches. */
  lemma ProfileLastMatch(fs: FileSystem, user: string)
    ensures var rows := Load(fs, ProfilesFile).rows;
      ((exists i :: 0 <= i < |rows| && UserIs(user)(rows[i])) ==>
        exists k :: 0 <= k < |rows| && LoadProfile(fs, user) == rows[k] &&
          UserIs(user)(rows[k]) && forall j :: k < j < |rows| ==> !UserIs(user)(rows[j])) &&
      ((forall i :: 0 <= i < |rows| ==> !UserIs(user)(rows[i])) ==> LoadProfile(fs, user) == map[])
  {
    LatestProfileMatch(Load(fs, ProfilesFile), user);
  }

  lemma LatestProfileMatch(f: Frame, user: string)
    requires WellFormed(f)
    ensures ((exists i :: 0 <= i < |f.rows| && UserIs(user)(f.rows[i])) ==>
        exists k :: 0 <= k < |f.rows| && LatestProfile(f, user) == f.rows[k] &&
          UserIs(user)(f.rows[k]) && forall j :: k < j < |f.rows| ==> !UserIs(user)(f.rows[j])) &&
      ((forall i :: 0 <= i < |f.rows| ==> !UserIs(user)(f.rows[i])) ==> LatestProfile(f, user) == map[])
  {
    var k := LastRowOf(f.rows, user);
    if k >= 0 {
      assert "username" in f.rows[k];
      assert "username" in ColumnSet(f.columns);
    }
  }

  lemma ProfileRowOf(d: Fields, p: ProfileForm, user: string)
    requires Distinct(Keys(d)) && |d| == 10
    requires d[0] == ("username", Str(user)) && d[1] == ("full_name", Str(p.fullName))
    ensures var r := NormalizeRecord(AsRecord(d));
      Get(r, "username") == Normalize(Str(user)) && Get(r, "full_name") == Normalize(Str(p.fullName))
  {
    FieldReadsBack(d, 0, "username", Str(user));
    FieldReadsBack(d, 1, "full_name", Str(p.fullName));
  }

  /** Saving a profile makes it the last row of the profiles table. */
  lemma SaveProfileReadsBack(fs: FileSystem, user: string, p: ProfileForm, now: string)
    requires Ready(fs, ProfilesFile, ProfileColumns) || ProfilesFile !in fs
    ensures var g := SaveProfile(fs, user, p, now);
      var r := NormalizeRecord(AsRecord(ProfileFields(p, user, now)));
      Ready(g, ProfilesFile, ProfileColumns) &&
      Load(g, ProfilesFile).rows == Load(fs, ProfilesFile).rows + [r] &&
      Get(r, "username") == Normalize(Str(user)) && Get(r, "full_name") == Normalize(Str(p.fullName))
  {
    var d := ProfileFields(p, user, now);
    ColumnsDistinct();
    SaveReadsBack(fs, ProfilesFile, ProfileColumns, d);
    ProfileRowOf(d, p, user);
  }

  /** With the corrected load, the settings form shows the profile just saved. */
  lemma SavedProfileLoads(fs: FileSystem, user: string, p: ProfileForm, now: string)
    requires Ready(fs, ProfilesFile, ProfileColumns) || ProfilesFile !in fs
    requires user != ""
    ensures Get(LoadProfile(SaveProfile(fs, user, p, now), user), "full_name") == Normalize(Str(p.fullName))
  {
    SaveProfileReadsBack(fs, user, p, now);
    var r := NormalizeRecord(AsRecord(ProfileFields(p, user, now)));
    LatestIsLast(Load(SaveProfile(fs, user, p, now), ProfilesFile), Load(fs, ProfilesFile).rows, r, user);
  }

  lemma LatestIsLast(f: Frame, rows: seq<Record>, r: Record, user: string)
    requires WellFormed(f) && f.rows == rows + [r]
    requires Get(r, "username") == Normalize(Str(user)) && user != ""
    ensures LatestProfile(f, user) == r
  {
    var n := |f.rows| - 1;
    assert f.rows[n] == r;
    assert UserIs(user)(f.rows[n]);
    assert LastRowOf(f.rows, user) == n;
    assert "username" in ColumnSet(f.columns);
  }

  /** As written, a second save for a user who had no profile is never
      shown: the form keeps loading the first one, where the corrected
      load shows the second. */
  lemma SecondProfileHiddenAsWritten(fs: FileSystem, user: string, p1: ProfileForm, p2: ProfileForm, t1: string, t2: string)
    requires Ready(fs, ProfilesFile, ProfileColumns) || ProfilesFile !in fs
    requires user != "" && p1.fullName != "" && p2.fullName != "" && p1.fullName != p2.fullName
    requires forall i :: 0 <= i < |Load(fs, ProfilesFile).rows| ==> !UserIs(user)(Load(fs, ProfilesFile).rows[i])
    ensures var g := SaveProfile(SaveProfile(fs, user, p1, t1), user, p2, t2);
      Get(LoadProfileAsWritten(g, user), "full_name") == Str(p1.fullName) &&
      Get(LoadProfile(g, user), "full_name") == Str(p2.fullName)
  {
    var g1 := SaveProfile(fs, user, p1, t1);
    SaveProfileReadsBack(fs, user, p1, t1);
    SavedProfileLoads(g1, user, p2, t2);
    FirstProfileKept(fs, user, p1, p2, t1, t2);
  }

  lemma FirstProfileKept(fs: FileSystem, user: string, p1: ProfileForm, p2: ProfileForm, t1: string, t2: string)
    requires Ready(fs, ProfilesFile, ProfileColumns) || ProfilesFile !in fs
    requires user != ""
    requires forall i :: 0 <= i < |Load(fs, ProfilesFile).rows| ==> !UserIs(user)(Load(fs, ProfilesFile).rows[i])
    ensures var g := SaveProfile(SaveProfile(fs, user, p1, t1), user, p2, t2);
      Get(LoadProfileAsWritten(g, user), "full_name") == Normalize(Str(p1.fullName))
  {
    var g1 := SaveProfile(fs, user, p1, t1);
    var g := SaveProfile(g1, user, p2, t2);
    SaveProfileReadsBack(fs, user, p1, t1);
    SaveProfileReadsBack(g1, user, p2, t2);
    var r1 := NormalizeRecord(AsRecord(ProfileFields(p1, user, t1)));
    var r2 := NormalizeRecord(AsRecord(ProfileFields(p2, user, t2)));
    FirstOfTwo(Load(g, ProfilesFile), Load(fs, ProfilesFile).rows, r1, r2, user);
  }

  lemma FirstOfTwo(f: Frame, rows: seq<Record>, r1: Record, r2: Record, user: string)
    requires WellFormed(f) && f.rows == rows + [r1] + [r2]
    requires forall i :: 0 <= i < |rows| ==> !UserIs(user)(rows[i])
    requires Get(r1, "username") == Normalize(Str(user)) && user != ""
    ensures FirstProfile(f, user) == r1
  {
    var all := f.rows;
    assert all[|rows|] == r1;
    assert UserIs(user)(r1);
    assert forall j :: 0 <= j < |rows| ==> all[j] == rows[j];
    FirstRowIs(all, |rows|, user);
    assert "username" in ColumnSet(f.columns);
  }

  lemma {:induction false} FirstRowIs(rows: seq<Record>, n: nat, user: string)
    requires n < |rows| && UserIs(user)(rows[n])
    requires forall j :: 0 <= j < n ==> !UserIs(user)(rows[j])
    ensures FirstRowOf(rows, user) == n
  {
    if n > 0 {
      assert forall j :: 0 <= j < n - 1 ==> rows[1..][j] == rows[j + 1];
      FirstRowIs(rows[1..], n - 1, user);
    }
  }
}
