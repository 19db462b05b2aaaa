/** Pupae sales and purchases: the records the two forms save, the
    per-user and date-range filters over the loaded tables, the market
    totals, per-buyer statistics and the customer contact list. Prices are
    whole cents and dates day numbers. */
module SalesTracking {
  import opened Util
  import opened CsvStore

  const SalesFile: string := "pupae_sales.csv"
  const PurchasesFile: string := "pupae_purchases.csv"

  const SalesColumns: seq<string> := [
    "sale_id", "sale_date", "seller_username", "buyer_name", "buyer_contact",
    "species", "stage", "quantity", "price_per_unit", "total_amount",
    "quality_grade", "payment_method", "notes", "recorded_at"]

  const PurchaseColumns: seq<string> := [
    "purchase_id", "purchase_date", "buyer_username", "seller_name",
    "seller_contact", "species", "stage", "quantity", "price_per_unit",
    "total_cost", "quality_received", "payment_method", "delivery_method",
    "notes", "recorded_at"]

  /** The "Record Sale" form. */
  datatype SaleForm = SaleForm(
    buyerName: string, buyerContact: string, saleDate: int, species: string, stage: string,
    quantity: int, pricePerUnit: int, qualityGrade: string, paymentMethod: string, notes: string)

  /** The "Record Purchase" form. */
  datatype PurchaseForm = PurchaseForm(
    sellerName: string, sellerContact: string, purchaseDate: int, species: string, stage: string,
    quantity: int, pricePerUnit: int, qualityReceived: string, paymentMethod: string,
    deliveryMethod: string, notes: string)

  function SaleFields(f: SaleForm, user: string, saleId: string, recordedAt: string): (d: Fields)
    ensures Keys(d) == SalesColumns
  {
    [("sale_id", Str(saleId)), ("sale_date", Num(f.saleDate)), ("seller_username", Str(user)),
     ("buyer_name", Str(f.buyerName)), ("buyer_contact", Str(f.buyerContact)),
     ("species", Str(f.species)), ("stage", Str(f.stage)), ("quantity", Num(f.quantity)),
     ("price_per_unit", Num(f.pricePerUnit)), ("total_amount", Num(f.quantity * f.pricePerUnit)),
     ("quality_grade", Str(f.qualityGrade)), ("payment_method", Str(f.paymentMethod)),
     ("notes", Str(f.notes)), ("recorded_at", Str(recordedAt))]
  }

  function PurchaseFields(f: PurchaseForm, user: string, purchaseId: string, recordedAt: string): (d: Fields)
    ensures Keys(d) == PurchaseColumns
  {
    [("purchase_id", Str(purchaseId)), ("purchase_date", Num(f.purchaseDate)), ("buyer_username", Str(user)),
     ("seller_name", Str(f.sellerName)), ("seller_contact", Str(f.sellerContact)),
     ("species", Str(f.species)), ("stage", Str(f.stage)), ("quantity", Num(f.quantity)),
     ("price_per_unit", Num(f.pricePerUnit)), ("total_cost", Num(f.quantity * f.pricePerUnit)),
     ("quality_received", Str(f.qualityReceived)), ("payment_method", Str(f.paymentMethod)),
     ("delivery_method", Str(f.deliveryMethod)), ("notes", Str(f.notes)), ("recorded_at", Str(recordedAt))]
  }

  /** Submitting the sale form: nothing is saved without a buyer name. */
  function RecordSale(fs: FileSystem, f: SaleForm, user: string, saleId: string, recordedAt: string): FileSystem
  {
    if f.buyerName == "" then fs else SaveToCsv(fs, SalesFile, SaleFields(f, user, saleId, recordedAt), true)
  }

  /** Submitting the purchase form: nothing is saved without a seller name. */
  function RecordPurchase(fs: FileSystem, f: PurchaseForm, user: string, purchaseId: string, recordedAt: string): FileSystem
  {
    if f.sellerName == "" then fs else SaveToCsv(fs, PurchasesFile, PurchaseFields(f, user, purchaseId, recordedAt), true)
  }

  // ----------------------------------------------------------- filters

  /** The inclusive date filter `start <= df[col] <= end`; a missing date is never in range. */
  function InRange(col: string, start: int, end: int): Record -> bool
  {
    r => Get(r, col).Num? && start <= Get(r, col).n <= end
  }

  /** A numeric column as summed by `.sum()`: missing values count as 0. */
  function Column(col: string): Record -> int
  {
    r => if Get(r, col).Num? then Get(r, col).n else 0
  }

  /** `.count()`'s term: 1 for a present value. */
  function NonNull(col: string): Record -> int
  {
    r => if Get(r, col).Null? then 0 else 1
  }

  /** "My sales": the rows the current user sold. */
  function UserSales(rows: seq<Record>, user: string): seq<Record>
  {
    Where(rows, ColumnIs("seller_username", user))
  }

  /** "My purchases": the rows the current user bought. */
  function UserPurchases(rows: seq<Record>, user: string): seq<Record>
  {
    Where(rows, ColumnIs("buyer_username", user))
  }

  function SalesInRange(rows: seq<Record>, start: int, end: int): seq<Record>
  {
    Where(rows, InRange("sale_date", start, end))
  }

  function PurchasesInRange(rows: seq<Record>, start: int, end: int): seq<Record>
  {
    Where(rows, InRange("purchase_date", start, end))
  }

  /** The user's sales hold exactly the user's rows, in table order. */
  lemma UserSalesExactly(rows: seq<Record>, user: string)
    ensures forall r :: r in UserSales(rows, user) <==> r in rows && Get(r, "seller_username") == Str(user)
    ensures IsSubsequence(UserSales(rows, user), rows)
  {
    WhereExactly(rows, ColumnIs("seller_username", user));
    WhereIsSubsequence(rows, ColumnIs("seller_username", user));
  }

  /** The date filter keeps exactly the rows dated from `start` to `end`, both included. */
  lemma DateFilterInclusive(rows: seq<Record>, start: int, end: int)
    ensures forall r :: r in SalesInRange(rows, start, end) <==>
      r in rows && Get(r, "sale_date").Num? && start <= Get(r, "sale_date").n <= end
    ensures forall r :: r in rows && Get(r, "sale_date") == Num(start) && start <= end ==> r in SalesInRange(rows, start, end)
    ensures forall r :: r in rows && Get(r, "sale_date") == Num(end) && start <= end ==> r in SalesInRange(rows, start, end)
  {
    WhereExactly(rows, InRange("sale_date", start, end));
  }

  function SellerInRange(user: string, start: int, end: int): Record -> bool
  {
    r => ColumnIs("seller_username", user)(r) && InRange("sale_date", start, end)(r)
  }

  /** "My sales" filters by user and then by date; the analytics filter by
      date and then by user. Both give the same rows. */
  lemma FilterOrderAgrees(rows: seq<Record>, user: string, start: int, end: int)
    ensures Where(UserSales(rows, user), InRange("sale_date", start, end)) ==
            Where(SalesInRange(rows, start, end), ColumnIs("seller_username", user))
  {
    var both := SellerInRange(user, start, end);
    WhereWhere(rows, ColumnIs("seller_username", user), InRange("sale_date", start, end), both);
    WhereWhere(rows, InRange("sale_date", start, end), ColumnIs("seller_username", user), both);
  }

  // ---------------------------------------------------------- recording

  lemma ColumnsDistinct()
    ensures Distinct(SalesColumns) && Distinct(PurchaseColumns)
  {
  }

  /** What a saved sale row holds: the form's date, seller, buyer and
      contact, and total_amount = quantity × price per unit. */
  predicate RecordsSale(r: Record, f: SaleForm, user: string)
  {
    Get(r, "total_amount") == Num(f.quantity * f.pricePerUnit) &&
    Get(r, "sale_date") == Num(f.saleDate) &&
    Get(r, "seller_username") == Normalize(Str(user)) &&
    Get(r, "buyer_name") == Normalize(Str(f.buyerName)) &&
    Get(r, "buyer_contact") == Normalize(Str(f.buyerContact))
  }

  /** What a saved purchase row holds: the form's date and buyer, and
      total_cost = quantity × price per unit. */
  predicate RecordsPurchase(r: Record, f: PurchaseForm, user: string)
  {
    Get(r, "total_cost") == Num(f.quantity * f.pricePerUnit) &&
    Get(r, "purchase_date") == Num(f.purchaseDate) &&
    Get(r, "buyer_username") == Normalize(Str(user)) &&
    Get(r, "seller_name") == Normalize(Str(f.sellerName))
  }

  lemma SaleRowOf(d: Fields, f: SaleForm, user: string)
    requires Distinct(Keys(d)) && |d| == 14
    requires d[1] == ("sale_date", Num(f.saleDate)) && d[2] == ("seller_username", Str(user))
    requires d[3] == ("buyer_name", Str(f.buyerName)) && d[4] == ("buyer_contact", Str(f.buyerContact))
    requires d[9] == ("total_amount", Num(f.quantity * f.pricePerUnit))
    ensures RecordsSale(NormalizeRecord(AsRecord(d)), f, user)
  {
    FieldReadsBack(d, 1, "sale_date", Num(f.saleDate));
    FieldReadsBack(d, 2, "seller_username", Str(user));
    FieldReadsBack(d, 3, "buyer_name", Str(f.buyerName));
    FieldReadsBack(d, 4, "buyer_contact", Str(f.buyerContact));
    FieldReadsBack(d, 9, "total_amount", Num(f.quantity * f.pricePerUnit));
  }

  lemma SaleRow(f: SaleForm, user: string, saleId: string, recordedAt: string)
    ensures RecordsSale(NormalizeRecord(AsRecord(SaleFields(f, user, saleId, recordedAt))), f, user)
  {
    ColumnsDistinct();
    SaleRowOf(SaleFields(f, user, saleId, recordedAt), f, user);
  }

  lemma PurchaseRowOf(d: Fields, f: PurchaseForm, user: string)
    requires Distinct(Keys(d)) && |d| == 15
    requires d[1] == ("purchase_date", Num(f.purchaseDate)) && d[2] == ("buyer_username", Str(user))
    requires d[3] == ("seller_name", Str(f.sellerName))
    requires d[9] == ("total_cost", Num(f.quantity * f.pricePerUnit))
    ensures RecordsPurchase(NormalizeRecord(AsRecord(d)), f, user)
  {
    FieldReadsBack(d, 1, "purchase_date", Num(f.purchaseDate));
    FieldReadsBack(d, 2, "buyer_username", Str(user));
    FieldReadsBack(d, 3, "seller_name", Str(f.sellerName));
    FieldReadsBack(d, 9, "total_cost", Num(f.quantity * f.pricePerUnit));
  }

  lemma PurchaseRow(f: PurchaseForm, user: string, purchaseId: string, recordedAt: string)
    ensures RecordsPurchase(NormalizeRecord(AsRecord(PurchaseFields(f, user, purchaseId, recordedAt))), f, user)
  {
    ColumnsDistinct();
    PurchaseRowOf(PurchaseFields(f, user, purchaseId, recordedAt), f, user);
  }

  /** A sale without a buyer name saves nothing. A sale with one becomes
      the table's new last row, holding what the form says, and it is the
      newest of the seller's sales. */
  lemma RecordSaleEffect(fs: FileSystem, f: SaleForm, user: string, saleId: string, recordedAt: string)
    requires Ready(fs, SalesFile, SalesColumns)
    ensures f.buyerName == "" ==> RecordSale(fs, f, user, saleId, recordedAt) == fs
    ensures f.buyerName != "" ==>
      var rows := Load(fs, SalesFile).rows;
      var rows' := Load(RecordSale(fs, f, user, saleId, recordedAt), SalesFile).rows;
      var r := NormalizeRecord(AsRecord(SaleFields(f, user, saleId, recordedAt)));
      rows' == rows + [r] && RecordsSale(r, f, user) &&
      (user != "" ==> UserSales(rows', user) == UserSales(rows, user) + [r])
  {
    if f.buyerName != "" {
      var d := SaleFields(f, user, saleId, recordedAt);
      ColumnsDistinct();
      AppendReadsBack(fs, SalesFile, d);
      SaleRow(f, user, saleId, recordedAt);
      WhereSnoc(Load(fs, SalesFile).rows, NormalizeRecord(AsRecord(d)), ColumnIs("seller_username", user));
    }
  }

  /** A purchase without a seller name saves nothing. A purchase with one
      becomes the table's new last row, holding what the form says, and it
      is the newest of the buyer's purchases. */
  lemma RecordPurchaseEffect(fs: FileSystem, f: PurchaseForm, user: string, purchaseId: string, recordedAt: string)
    requires Ready(fs, PurchasesFile, PurchaseColumns)
    ensures f.sellerName == "" ==> RecordPurchase(fs, f, user, purchaseId, recordedAt) == fs
    ensures f.sellerName != "" ==>
      var rows := Load(fs, PurchasesFile).rows;
      var rows' := Load(RecordPurchase(fs, f, user, purchaseId, recordedAt), PurchasesFile).rows;
      var r := NormalizeRecord(AsRecord(PurchaseFields(f, user, purchaseId, recordedAt)));
      rows' == rows + [r] && RecordsPurchase(r, f, user) &&
      (user != "" ==> UserPurchases(rows', user) == UserPurchases(rows, user) + [r])
  {
    if f.sellerName != "" {
      var d := PurchaseFields(f, user, purchaseId, recordedAt);
      ColumnsDistinct();
      AppendReadsBack(fs, PurchasesFile, d);
      PurchaseRow(f, user, purchaseId, recordedAt);
      WhereSnoc(Load(fs, PurchasesFile).rows, NormalizeRecord(AsRecord(d)), ColumnIs("buyer_username", user));
    }
  }

  /** Recording keeps both tables ready for the next record. */
  lemma RecordKeepsReady(fs: FileSystem, f: SaleForm, g: PurchaseForm, user: string, id: string, at: string)
    requires Ready(fs, SalesFile, SalesColumns) && Ready(fs, PurchasesFile, PurchaseColumns)
    ensures var fs' := RecordSale(fs, f, user, id, at);
      Ready(fs', SalesFile, SalesColumns) && Ready(fs', PurchasesFile, PurchaseColumns)
    ensures var fs' := RecordPurchase(fs, g, user, id, at);
      Ready(fs', SalesFile, SalesColumns) && Ready(fs', PurchasesFile, PurchaseColumns)
  {
    if f.buyerName != "" {
      AppendKeepsReady(fs, SalesFile, SalesColumns, SaleFields(f, user, id, at));
    }
    if g.sellerName != "" {
      AppendKeepsReady(fs, PurchasesFile, PurchaseColumns, PurchaseFields(g, user, id, at));
    }
  }

  // ------------------------------------------------------ market totals

  datatype MarketTotals = MarketTotals(totalTransactions: int, totalVolume: int, totalValue: int)

  /** The analytics' market metrics, shown only when both tables have data. */
  function Market(sales: Frame, purchases: Frame, start: int, end: int): (m: Option<MarketTotals>)
    ensures m.None? <==> IsEmpty(sales) || IsEmpty(purchases)
  {
    if IsEmpty(sales) || IsEmpty(purchases) then None
    else
      var s := SalesInRange(sales.rows, start, end);
      var p := PurchasesInRange(purchases.rows, start, end);
      Some(MarketTotals(|s| + |p|,
                        SumOf(s, Column("quantity")) + SumOf(p, Column("quantity")),
                        SumOf(s, Column("total_amount")) + SumOf(p, Column("total_cost"))))
  }

  function OnOrBefore(col: string, day: int): Record -> bool
  {
    r => Get(r, col).Num? && Get(r, col).n <= day
  }

  function After(col: string, day: int): Record -> bool
  {
    r => !OnOrBefore(col, day)(r)
  }

  /** Splitting a date range at a day splits the filtered rows, their count and their sums. */
  lemma RangeSplit(rows: seq<Record>, col: string, start: int, mid: int, end: int, f: Record -> int)
    requires start <= mid < end
    ensures var whole := Where(rows, InRange(col, start, end));
      var first := Where(rows, InRange(col, start, mid));
      var second := Where(rows, InRange(col, mid + 1, end));
      |whole| == |first| + |second| && SumOf(whole, f) == SumOf(first, f) + SumOf(second, f)
  {
    var whole := Where(rows, InRange(col, start, end));
    WhereWhere(rows, InRange(col, start, end), OnOrBefore(col, mid), InRange(col, start, mid));
    WhereWhere(rows, InRange(col, start, end), After(col, mid), InRange(col, mid + 1, end));
    WhereComplementCount(whole, OnOrBefore(col, mid), After(col, mid));
    SumOfSplit(whole, OnOrBefore(col, mid), After(col, mid), f);
  }

  /** The market totals of a date range are the totals of its two halves added up. */
  lemma MarketSplit(sales: Frame, purchases: Frame, start: int, mid: int, end: int)
    requires start <= mid < end
    requires !IsEmpty(sales) && !IsEmpty(purchases)
    ensures var whole := Market(sales, purchases, start, end).value;
      var a := Market(sales, purchases, start, mid).value;
      var b := Market(sales, purchases, mid + 1, end).value;
      whole.totalTransactions == a.totalTransactions + b.totalTransactions &&
      whole.totalVolume == a.totalVolume + b.totalVolume &&
      whole.totalValue == a.totalValue + b.totalValue
  {
    RangeSplit(sales.rows, "sale_date", start, mid, end, Column("quantity"));
    RangeSplit(sales.rows, "sale_date", start, mid, end, Column("total_amount"));
    RangeSplit(purchases.rows, "purchase_date", start, mid, end, Column("quantity"));
    RangeSplit(purchases.rows, "purchase_date", start, mid, end, Column("total_cost"));
  }

  // ---------------------------------------------------- customer stats

  /** The row has a buyer name, so `groupby('buyer_name')` places it in a group. */
  predicate Named(r: Record)
  {
    Get(r, "buyer_name").Str?
  }

  /** The buyer names of the rows, in row order, with repetitions. */
  function BuyerStrings(rows: seq<Record>): (ns: seq<string>)
    ensures forall i :: 0 <= i < |rows| && Named(rows[i]) ==> Get(rows[i], "buyer_name").s in ns
  {
    if rows == [] then []
    else
      var rest := BuyerStrings(rows[1..]);
      assert forall i :: 1 <= i < |rows| ==> rows[i] == rows[1..][i - 1];
      (if Named(rows[0]) then [Get(rows[0], "buyer_name").s] else []) + rest
  }

  /** The groups: each buyer name once. */
  function CustomerNames(rows: seq<Record>): (ns: seq<string>)
    ensures Distinct(ns)
    ensures forall i :: 0 <= i < |rows| && Named(rows[i]) ==> Get(rows[i], "buyer_name").s in ns
  {
    Dedupe(BuyerStrings(rows))
  }

  datatype CustomerStat = CustomerStat(buyer: string, totalBought: int, totalSpent: int, orders: int)

  /** One group of `groupby('buyer_name').agg(...)`: summed quantity and
      amount, and the count of the group's sale dates. */
  function StatFor(rows: seq<Record>, name: string): CustomerStat
  {
    var g := Where(rows, ColumnIs("buyer_name", name));
    CustomerStat(name, SumOf(g, Column("quantity")), SumOf(g, Column("total_amount")), SumOf(g, NonNull("sale_date")))
  }

  function StatsOver(rows: seq<Record>, names: seq<string>): seq<CustomerStat>
  {
    if names == [] then [] else [StatFor(rows, names[0])] + StatsOver(rows, names[1..])
  }

  /** The customer statistics of a user's sales, one entry per buyer. */
  function CustomerStats(userSales: seq<Record>): seq<CustomerStat>
  {
    StatsOver(userSales, CustomerNames(userSales))
  }

  function Orders(c: CustomerStat): int { c.orders }
  function Spent(c: CustomerStat): int { c.totalSpent }

  /** A group's total of `f`. */
  function BuyerTotal(rows: seq<Record>, f: Record -> int): string -> int
  {
    n => SumOf(Where(rows, ColumnIs("buyer_name", n)), f)
  }

  /** `f(r)` for the group of `r`'s buyer, 0 for every other group. */
  function Indicator(r: Record, f: Record -> int): string -> int
  {
    n => if ColumnIs("buyer_name", n)(r) then f(r) else 0
  }

  lemma {:induction false} IndicatorSum(names: seq<string>, r: Record, f: Record -> int)
    requires Distinct(names)
    ensures SumOf(names, Indicator(r, f)) == if Named(r) && Get(r, "buyer_name").s in names then f(r) else 0
  {
    if names != [] {
      var rest := names[1..];
      assert Distinct(rest) by {
        forall i, j | 0 <= i < j < |rest|
          ensures rest[i] != rest[j]
        {
          assert rest[i] == names[i + 1] && rest[j] == names[j + 1];
        }
      }
      IndicatorSum(rest, r, f);
      assert SumOf(names, Indicator(r, f)) == Indicator(r, f)(names[0]) + SumOf(rest, Indicator(r, f));
      assert forall x :: x in names <==> x == names[0] || x in rest;
      if Named(r) && Get(r, "buyer_name").s == names[0] {
        assert Get(r, "buyer_name") == Str(names[0]);
        assert ColumnIs("buyer_name", names[0])(r);
        assert Indicator(r, f)(names[0]) == f(r);
        assert names[0] !in rest by {
          forall k | 0 <= k < |rest|
            ensures rest[k] != names[0]
          {
            assert rest[k] == names[k + 1];
          }
        }
      } else {
        assert !ColumnIs("buyer_name", names[0])(r);
        assert Indicator(r, f)(names[0]) == 0;
        if Named(r) {
          var b := Get(r, "buyer_name").s;
          assert b in names <==> b in rest;
        }
      }
    }
  }

  /** One more row adds its value to its own buyer's group total only. */
  lemma BuyerTotalSnoc(init: seq<Record>, r: Record, f: Record -> int, x: string)
    ensures BuyerTotal(init + [r], f)(x) == BuyerTotal(init, f)(x) + Indicator(r, f)(x)
  {
    var p := ColumnIs("buyer_name", x);
    WhereSnoc(init, r, p);
    SumOfAppend(Where(init, p), if p(r) then [r] else [], f);
    assert SumOf([r], f) == f(r) + SumOf([r][1..], f);
  }

  /** One more row adds its value to the total over named rows when it is named. */
  lemma NamedSumSnoc(init: seq<Record>, r: Record, f: Record -> int)
    ensures SumOf(Where(init + [r], Named), f) == SumOf(Where(init, Named), f) + (if Named(r) then f(r) else 0)
  {
    WhereSnoc(init, r, Named);
    SumOfAppend(Where(init, Named), if Named(r) then [r] else [], f);
    assert SumOf([r], f) == f(r) + SumOf([r][1..], f);
  }

  /** Summed over all groups, a per-group total is the total over every
      row that has a buyer name. */
  lemma {:induction false} BuyerTotalsAddUp(rows: seq<Record>, names: seq<string>, f: Record -> int)
    requires Distinct(names)
    requires forall i :: 0 <= i < |rows| && Named(rows[i]) ==> Get(rows[i], "buyer_name").s in names
    ensures SumOf(names, BuyerTotal(rows, f)) == SumOf(Where(rows, Named), f)
    decreases |rows|
  {
    if rows == [] {
      SumOfConstant(names, BuyerTotal(rows, f), 0);
    } else {
      var n := |rows| - 1;
      var init, r := rows[..n], rows[n];
      assert rows == init + [r];
      assert forall i :: 0 <= i < n ==> init[i] == rows[i];
      BuyerTotalsAddUp(init, names, f);
      forall x
        ensures BuyerTotal(init, f)(x) == BuyerTotal(rows, f)(x) - Indicator(r, f)(x)
      {
        BuyerTotalSnoc(init, r, f, x);
      }
      SumOfDifference(names, BuyerTotal(rows, f), Indicator(r, f), BuyerTotal(init, f));
      IndicatorSum(names, r, f);
      NamedSumSnoc(init, r, f);
    }
  }

  lemma {:induction false} StatsOverSums(rows: seq<Record>, names: seq<string>)
    ensures SumOf(StatsOver(rows, names), Orders) == SumOf(names, BuyerTotal(rows, NonNull("sale_date")))
    ensures SumOf(StatsOver(rows, names), Spent) == SumOf(names, BuyerTotal(rows, Column("total_amount")))
  {
    if names != [] {
      StatsOverSums(rows, names[1..]);
      var s := StatsOver(rows, names);
      assert s[0] == StatFor(rows, names[0]) && s[1..] == StatsOver(rows, names[1..]);
    }
  }

  /** The order counts over all buyers add up to the user's sales that have
      a buyer name and a date, which is all of them when every row has both;
      the amounts spent add up to the user's revenue from named buyers. */
  lemma CustomerOrdersAddUp(userSales: seq<Record>)
    ensures SumOf(CustomerStats(userSales), Orders) == SumOf(Where(userSales, Named), NonNull("sale_date"))
    ensures SumOf(CustomerStats(userSales), Spent) == SumOf(Where(userSales, Named), Column("total_amount"))
    ensures (forall i :: 0 <= i < |userSales| ==> Named(userSales[i]) && !Get(userSales[i], "sale_date").Null?) ==>
              SumOf(CustomerStats(userSales), Orders) == |userSales|
  {
    var names := CustomerNames(userSales);
    StatsOverSums(userSales, names);
    BuyerTotalsAddUp(userSales, names, NonNull("sale_date"));
    BuyerTotalsAddUp(userSales, names, Column("total_amount"));
    if forall i :: 0 <= i < |userSales| ==> Named(userSales[i]) && !Get(userSales[i], "sale_date").Null? {
      WhereAll(userSales, Named);
      SumOfCongruent(userSales, NonNull("sale_date"), r => 1);
      SumOfConstant(userSales, r => 1, 1);
    }
  }

  // ----------------------------------------------------------- contacts

  type Contact = (Value, Value)

  /** `user_sales[['buyer_name', 'buyer_contact']]`. */
  function ContactPairs(rows: seq<Record>): (ps: seq<Contact>)
    ensures |ps| == |rows|
    ensures forall i :: 0 <= i < |rows| ==> ps[i] == (Get(rows[i], "buyer_name"), Get(rows[i], "buyer_contact"))
  {
    seq(|rows|, i requires 0 <= i < |rows| => (Get(rows[i], "buyer_name"), Get(rows[i], "buyer_contact")))
  }

  /** The test as written, `buyer_contact != ''`: a missing contact passes it. */
  predicate NotBlankAsWritten(p: Contact)
  {
    p.1 != Str("")
  }

  /** A contact that is present and not blank. */
  predicate HasContact(p: Contact)
  {
    p.1.Str? && p.1.s != ""
  }

  /** The customer contacts as written: distinct pairs, then `!= ''`. */
  function ContactsAsWritten(rows: seq<Record>): seq<Contact>
  {
    Where(Dedupe(ContactPairs(rows)), NotBlankAsWritten)
  }

  /** The customer contacts with missing contacts dropped as well. */
  function Contacts(rows: seq<Record>): seq<Contact>
  {
    Where(Dedupe(ContactPairs(rows)), HasContact)
  }

  /** The contact list holds each (buyer, contact) pair once, only pairs with
      a non-blank contact, and every such pair that occurs in the rows. */
  lemma ContactsExactly(rows: seq<Record>)
    ensures Distinct(Contacts(rows))
    ensures forall p :: p in Contacts(rows) <==>
      HasContact(p) && exists i :: 0 <= i < |rows| && p == (Get(rows[i], "buyer_name"), Get(rows[i], "buyer_contact"))
  {
    var ps := ContactPairs(rows);
    WhereDistinct(Dedupe(ps), HasContact);
    WhereExactly(Dedupe(ps), HasContact);
    forall p | HasContact(p) && exists i :: 0 <= i < |rows| && p == (Get(rows[i], "buyer_name"), Get(rows[i], "buyer_contact"))
      ensures p in ps
    {
      var i :| 0 <= i < |rows| && p == (Get(rows[i], "buyer_name"), Get(rows[i], "buyer_contact"));
      assert ps[i] == p;
    }
    forall p | p in ps
      ensures exists i :: 0 <= i < |rows| && p == (Get(rows[i], "buyer_name"), Get(rows[i], "buyer_contact"))
    {
      var i :| 0 <= i < |ps| && ps[i] == p;
      assert p == (Get(rows[i], "buyer_name"), Get(rows[i], "buyer_contact"));
    }
  }

  /** A sale recorded with a blank contact is read back with the contact
      missing; the list as written still shows the buyer with no contact,
      while the corrected list leaves it out. */
  lemma BlankContactListed(fs: FileSystem, f: SaleForm, user: string, saleId: string, recordedAt: string)
    requires Ready(fs, SalesFile, SalesColumns) && user != ""
    requires f.buyerName != "" && f.buyerContact == ""
    ensures var mine := UserSales(Load(RecordSale(fs, f, user, saleId, recordedAt), SalesFile).rows, user);
      (Str(f.buyerName), Null) in ContactsAsWritten(mine) &&
      (Str(f.buyerName), Null) !in Contacts(mine)
  {
    RecordSaleEffect(fs, f, user, saleId, recordedAt);
    var r := NormalizeRecord(AsRecord(SaleFields(f, user, saleId, recordedAt)));
    var mine := UserSales(Load(fs, SalesFile).rows, user) + [r];
    BlankContactIn(mine, |mine| - 1, f.buyerName);
  }

  lemma BlankContactIn(rows: seq<Record>, k: nat, buyer: string)
    requires k < |rows| && Get(rows[k], "buyer_name") == Str(buyer) && Get(rows[k], "buyer_contact") == Null
    ensures (Str(buyer), Null) in ContactsAsWritten(rows) && (Str(buyer), Null) !in Contacts(rows)
  {
    var p: Contact := (Str(buyer), Null);
    var ps := ContactPairs(rows);
    assert ps[k] == p;
    assert p in Dedupe(ps);
    WhereMember(Dedupe(ps), NotBlankAsWritten, p);
  }
}
