/** The stand-alone purchase terminal with its breeding log: an order of
    lines that only ever grows until checkout, per-line revenue, cost and
    profit, a purchase log written one row per line, and feeding alerts over
    the breeding log. Prices are whole pesos, dates day numbers and clock
    times seconds. */
module PosOrder {
  import opened Util

  datatype Item = Item(name: string, price: int, cost: int)

  /** `ITEMS`. */
  const Items: map<int, Item> := map[
    1 := Item("Clipper", 23, 10),
    2 := Item("Common Jay", 35, 15),
    3 := Item("Common Lime", 43, 20),
    4 := Item("Common Mime", 65, 30),
    5 := Item("Common Mormon", 48, 22),
    6 := Item("Emerald Swallowtail", 65, 32),
    7 := Item("Gray Glassy Tiger", 78, 38),
    8 := Item("Great Eggfly", 89, 45),
    9 := Item("Great Yellow Mormon", 71, 35),
    10 := Item("Golden Birdwing", 73, 36),
    11 := Item("Paper Kite", 81, 40),
    12 := Item("Pink Rose", 34, 16),
    13 := Item("Plain Tiger", 39, 18),
    14 := Item("Red Lacewing", 100, 50),
    15 := Item("Scarlet Mormon", 85, 42),
    16 := Item("Tailed Jay", 45, 21),
    17 := Item("Atlas Moth", 75, 37),
    18 := Item("Giant Silk Moth", 80, 39)
  ]

  const MinOrderNumber: int := 100000
  const MaxOrderNumber: int := 999999

  /** One line of the current order. */
  datatype OrderLine = OrderLine(
    itemId: int, name: string, price: int, cost: int, quantity: int,
    subtotalRevenue: int, subtotalCost: int, subtotalProfit: int)

  /** The line `add_item_to_session_order` appends. */
  function LineFor(itemId: int, quantity: int): (l: OrderLine)
    requires itemId in Items
    ensures Balanced(l) && l.itemId == itemId && l.quantity == quantity
    ensures l.subtotalRevenue == Items[itemId].price * quantity && l.subtotalCost == Items[itemId].cost * quantity
  {
    var it := Items[itemId];
    OrderLine(itemId, it.name, it.price, it.cost, quantity,
              it.price * quantity, it.cost * quantity, (it.price - it.cost) * quantity)
  }

  /** A line's profit is its revenue minus its cost. */
  predicate Balanced(l: OrderLine)
  {
    l.subtotalProfit == l.subtotalRevenue - l.subtotalCost
  }

  /** `add_item_to_session_order`: an unknown id is refused and the order
      stays as it was; a known id always appends a fresh line, even when
      the item is already in the order. */
  function AddedItem(order: seq<OrderLine>, itemId: int, quantity: int): seq<OrderLine>
  {
    if itemId !in Items then order else order + [LineFor(itemId, quantity)]
  }

  function Revenue(l: OrderLine): int { l.subtotalRevenue }
  function Cost(l: OrderLine): int { l.subtotalCost }
  function LineProfit(l: OrderLine): int { l.subtotalProfit }

  /** `calculate_order_total`. */
  function OrderTotal(order: seq<OrderLine>): int { SumOf(order, Revenue) }
  function OrderCost(order: seq<OrderLine>): int { SumOf(order, Cost) }
  /** The net profit shown for the order. */
  function NetProfit(order: seq<OrderLine>): int { OrderTotal(order) - OrderCost(order) }

  /** Adding a known item grows the order by exactly its new line and the
      total by price × quantity; an unknown item changes nothing. */
  lemma AddItemEffect(order: seq<OrderLine>, itemId: int, quantity: int)
    ensures var r := AddedItem(order, itemId, quantity);
      (itemId !in Items ==> r == order) &&
      (itemId in Items ==>
         |r| == |order| + 1 && r[..|order|] == order && r[|order|] == LineFor(itemId, quantity) &&
         OrderTotal(r) == OrderTotal(order) + Items[itemId].price * quantity &&
         OrderCost(r) == OrderCost(order) + Items[itemId].cost * quantity)
  {
    if itemId in Items {
      var l := LineFor(itemId, quantity);
      SumOfAppend(order, [l], Revenue);
      SumOfAppend(order, [l], Cost);
      assert (order + [l])[..|order|] == order;
    }
  }

  /** The net profit of an order of balanced lines is the sum of the lines' profits. */
  lemma NetProfitIsSumOfProfits(order: seq<OrderLine>)
    requires forall i :: 0 <= i < |order| ==> Balanced(order[i])
    ensures NetProfit(order) == SumOf(order, LineProfit)
  {
    var h := (l: OrderLine) => if l in order then LineProfit(l) else Revenue(l) - Cost(l);
    forall l | l in order
      ensures LineProfit(l) == h(l)
    {
    }
    SumOfCongruent(order, LineProfit, h);
    forall l
      ensures h(l) == Revenue(l) - Cost(l)
    {
      if l in order {
        var i :| 0 <= i < |order| && order[i] == l;
        assert Balanced(order[i]);
      }
    }
    SumOfDifference(order, Revenue, Cost, h);
  }

  // ------------------------------------------------------ purchase log

  /** A row of butterfly_purchases.csv. */
  datatype PurchaseRow = PurchaseRow(
    date: string, orderNumber: int, imageFilename: string, quantity: int,
    classificationCode: int, pricePerItem: int, costPerItem: int,
    subtotalRevenue: int, subtotalCost: int, subtotalProfit: int)

  /** The image column: the uploaded file's name, or "N/A" without one. */
  function ImageColumn(imageFilename: Option<string>): string
  {
    if imageFilename.Some? && imageFilename.value != "" then imageFilename.value else "N/A"
  }

  function RowFor(l: OrderLine, date: string, orderNumber: int, imageFilename: Option<string>): PurchaseRow
  {
    PurchaseRow(date, orderNumber, ImageColumn(imageFilename), l.quantity, l.itemId, l.price, l.cost,
                l.subtotalRevenue, l.subtotalCost, l.subtotalProfit)
  }

  /** The rows the checkout loop writes, one per line in order. */
  function RowsFor(order: seq<OrderLine>, date: string, orderNumber: int, imageFilename: Option<string>): (rs: seq<PurchaseRow>)
    ensures |rs| == |order|
    ensures forall i :: 0 <= i < |order| ==> rs[i] == RowFor(order[i], date, orderNumber, imageFilename)
    decreases |order|
  {
    if order == [] then []
    else
      var n := |order| - 1;
      RowsFor(order[..n], date, orderNumber, imageFilename) + [RowFor(order[n], date, orderNumber, imageFilename)]
  }

  function RowRevenue(r: PurchaseRow): int { r.subtotalRevenue }
  function RowCost(r: PurchaseRow): int { r.subtotalCost }

  /** The profit analytics' total revenue over the purchase log. */
  function LogRevenue(log: seq<PurchaseRow>): int { SumOf(log, RowRevenue) }
  function LogCost(log: seq<PurchaseRow>): int { SumOf(log, RowCost) }

  lemma {:induction false} RowsForTotals(order: seq<OrderLine>, date: string, orderNumber: int, imageFilename: Option<string>)
    ensures var rs := RowsFor(order, date, orderNumber, imageFilename);
      LogRevenue(rs) == OrderTotal(order) && LogCost(rs) == OrderCost(order)
    decreases |order|
  {
    if order != [] {
      var n := |order| - 1;
      var rs0 := RowsFor(order[..n], date, orderNumber, imageFilename);
      var row := RowFor(order[n], date, orderNumber, imageFilename);
      RowsForTotals(order[..n], date, orderNumber, imageFilename);
      SumOfAppend(rs0, [row], RowRevenue);
      SumOfAppend(rs0, [row], RowCost);
      assert order == order[..n] + [order[n]];
      SumOfAppend(order[..n], [order[n]], Revenue);
      SumOfAppend(order[..n], [order[n]], Cost);
    }
  }

  /** Checking out an order adds its total to the log's revenue and its
      cost to the log's cost, so the analytics' net profit grows by the
      order's net profit. */
  lemma CheckoutAddsToAnalytics(log: seq<PurchaseRow>, order: seq<OrderLine>, date: string, orderNumber: int,
                                imageFilename: Option<string>)
    ensures var log' := log + RowsFor(order, date, orderNumber, imageFilename);
      LogRevenue(log') == LogRevenue(log) + OrderTotal(order) &&
      LogRevenue(log') - LogCost(log') == LogRevenue(log) - LogCost(log) + NetProfit(order)
  {
    var rs := RowsFor(order, date, orderNumber, imageFilename);
    RowsForTotals(order, date, orderNumber, imageFilename);
    SumOfAppend(log, rs, RowRevenue);
    SumOfAppend(log, rs, RowCost);
  }

  // ------------------------------------------------------ breeding log

  const SecondsPerDay: int := 86400
  const FeedingIntervalDays: int := 7

  /** A row of butterfly_breeding_log.csv, without the simulated quality and projected profit. */
  datatype BreedingRow = BreedingRow(
    breedingDay: int, parent1: int, parent2: int, offspringCount: int, nextFeedingDay: int, notes: string)

  /** The recorded event: the next feeding is seven days after breeding.
      Both parent codes must be set (non-zero). */
  function BreedingEvent(breedingDay: int, parent1: int, parent2: int, offspringCount: int, notes: string): (r: Option<BreedingRow>)
    ensures r.Some? <==> parent1 != 0 && parent2 != 0
    ensures r.Some? ==> r.value.nextFeedingDay == breedingDay + 7 && r.value.breedingDay == breedingDay &&
                        r.value.offspringCount == offspringCount
  {
    if parent1 != 0 && parent2 != 0 then
      Some(BreedingRow(breedingDay, parent1, parent2, offspringCount, breedingDay + FeedingIntervalDays, notes))
    else None
  }

  /** The next feeding as a clock time: midnight of its day. */
  function FeedingTime(r: BreedingRow): int { r.nextFeedingDay * SecondsPerDay }

  predicate IsOverdue(now: int, r: BreedingRow) { FeedingTime(r) < now }
  predicate IsUpcoming(now: int, r: BreedingRow) { now <= FeedingTime(r) <= now + FeedingIntervalDays * SecondsPerDay }

  function OverdueAt(now: int): BreedingRow -> bool { r => IsOverdue(now, r) }
  function UpcomingAt(now: int): BreedingRow -> bool { r => IsUpcoming(now, r) }

  function Overdue(log: seq<BreedingRow>, now: int): seq<BreedingRow> { Where(log, OverdueAt(now)) }
  function Upcoming(log: seq<BreedingRow>, now: int): seq<BreedingRow> { Where(log, UpcomingAt(now)) }

  /** No batch is both overdue and upcoming, so the two alerts together
      never list more batches than the log holds. */
  lemma FeedingWindowsDisjoint(log: seq<BreedingRow>, now: int)
    ensures forall r :: r in Overdue(log, now) ==> r !in Upcoming(log, now)
    ensures |Overdue(log, now)| + |Upcoming(log, now)| <= |log|
  {
    WhereDisjointCount(log, OverdueAt(now), UpcomingAt(now));
  }

  /** A batch bred today is in the upcoming window at any time of the day. */
  lemma FreshBatchIsUpcoming(today: int, secondOfDay: int, parent1: int, parent2: int, offspringCount: int, notes: string)
    requires 0 <= secondOfDay < SecondsPerDay && parent1 != 0 && parent2 != 0
    ensures var r := BreedingEvent(today, parent1, parent2, offspringCount, notes).value;
      IsUpcoming(today * SecondsPerDay + secondOfDay, r) && !IsOverdue(today * SecondsPerDay + secondOfDay, r)
  {
  }

  /** A batch bred more than seven days before today is overdue. */
  lemma OldBatchIsOverdue(today: int, secondOfDay: int, r: BreedingRow)
    requires 0 <= secondOfDay < SecondsPerDay && r.nextFeedingDay == r.breedingDay + 7
    requires r.breedingDay + 7 < today
    ensures IsOverdue(today * SecondsPerDay + secondOfDay, r)
  {
  }

  // -------------------------------------------------------- the terminal

  /** The session's current order and order number and the two logs. */
  class PurchaseTerminal {
    var currentOrder: seq<OrderLine>
    var orderNumber: int
    var purchaseLog: seq<PurchaseRow>
    var breedingLog: seq<BreedingRow>

    /** Every order line is balanced and the order number is in range. */
    predicate Valid()
      reads this
    {
      MinOrderNumber <= orderNumber <= MaxOrderNumber &&
      forall i :: 0 <= i < |currentOrder| ==> Balanced(currentOrder[i])
    }

    constructor (firstOrderNumber: int, purchaseLog0: seq<PurchaseRow>, breedingLog0: seq<BreedingRow>)
      requires MinOrderNumber <= firstOrderNumber <= MaxOrderNumber
      ensures Valid()
      ensures currentOrder == [] && orderNumber == firstOrderNumber
      ensures purchaseLog == purchaseLog0 && breedingLog == breedingLog0
    {
      currentOrder := [];
      orderNumber := firstOrderNumber;
      purchaseLog := purchaseLog0;
      breedingLog := breedingLog0;
    }

    method AddItemToSessionOrder(itemId: int, quantity: int) returns (added: bool)
      requires Valid()
      modifies this
      ensures Valid()
      ensures added <==> itemId in Items
      ensures currentOrder == AddedItem(old(currentOrder), itemId, quantity)
      ensures orderNumber == old(orderNumber) && purchaseLog == old(purchaseLog) && breedingLog == old(breedingLog)
    {
      if itemId !in Items {
        return false;
      }
      currentOrder := currentOrder + [LineFor(itemId, quantity)];
      return true;
    }

    /** "Complete Purchase": an empty order writes nothing; otherwise one row
        per line is appended to the purchase log, the order is cleared and
        the next order number is taken. */
    method CompletePurchase(date: string, imageFilename: Option<string>, nextOrderNumber: int) returns (completed: bool)
      requires Valid() && MinOrderNumber <= nextOrderNumber <= MaxOrderNumber
      modifies this
      ensures Valid()
      ensures completed <==> old(currentOrder) != []
      ensures !completed ==> currentOrder == old(currentOrder) && orderNumber == old(orderNumber) &&
                             purchaseLog == old(purchaseLog)
      ensures completed ==> currentOrder == [] && orderNumber == nextOrderNumber &&
                            purchaseLog == old(purchaseLog) + RowsFor(old(currentOrder), date, old(orderNumber), imageFilename)
      ensures breedingLog == old(breedingLog)
    {
      if currentOrder == [] {
        return false;
      }
      var i := 0;
      while i < |currentOrder|
        invariant 0 <= i <= |currentOrder|
        invariant currentOrder == old(currentOrder) && orderNumber == old(orderNumber) && breedingLog == old(breedingLog)
        invariant purchaseLog == old(purchaseLog) + RowsFor(currentOrder[..i], date, orderNumber, imageFilename)
      {
        assert currentOrder[..i + 1][..i] == currentOrder[..i];
        purchaseLog := purchaseLog + [RowFor(currentOrder[i], date, orderNumber, imageFilename)];
        i := i + 1;
      }
      assert currentOrder[..i] == currentOrder;
      currentOrder := [];
      orderNumber := nextOrderNumber;
      return true;
    }

    /** "Add Breeding Event": recorded only when both parents are chosen. */
    method AddBreedingEvent(breedingDay: int, parent1: int, parent2: int, offspringCount: int, notes: string)
      returns (recorded: bool)
      modifies this
      ensures recorded <==> parent1 != 0 && parent2 != 0
      ensures recorded ==> breedingLog == old(breedingLog) + [BreedingEvent(breedingDay, parent1, parent2, offspringCount, notes).value]
      ensures !recorded ==> breedingLog == old(breedingLog)
      ensures currentOrder == old(currentOrder) && orderNumber == old(orderNumber) && purchaseLog == old(purchaseLog)
    {
      var event := BreedingEvent(breedingDay, parent1, parent2, offspringCount, notes);
      if event.None? {
        return false;
      }
      breedingLog := breedingLog + [event.value];
      return true;
    }
  }
}
