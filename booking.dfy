/** Farm visit booking: the booking form and the record it saves, the
    per-user booking statistics, cancelling a pending booking, and reviews
    of farms the user has visited. Dates and times are text the caller
    supplies. */
module Booking {
  import opened Util
  import opened CsvStore

  const BookingsFile: string := "farm_bookings.csv"
  const ReviewsFile: string := "farm_reviews.csv"

  const BookingColumns: seq<string> := [
    "booking_id", "farm_name", "farm_location", "visitor_name",
    "visitor_phone", "visitor_email", "visit_date", "visit_time",
    "num_visitors", "visit_purpose", "total_cost", "special_requests",
    "booking_status", "booked_by", "booking_date"]

  const ReviewColumns: seq<string> := [
    "review_id", "farm_name", "reviewer", "rating", "review_title",
    "review_text", "facilities_rating", "staff_rating", "value_rating",
    "experience_rating", "review_date"]

  const Pending: string := "Pending"
  const Confirmed: string := "Confirmed"
  const Cancelled: string := "Cancelled"

  lemma ColumnsDistinct()
    ensures Distinct(BookingColumns) && Distinct(ReviewColumns)
  {
  }

  /** What the booking page knows of a farm (pesos per person). */
  datatype Farm = Farm(location: string, pricePerPerson: int, maxCapacity: int)

  /** The farms the booking form offers. */
  const Farms: map<string, Farm> := map[
    "Lorica's Butterfly Breeding Farm" := Farm("Bunganay, Boac, Marinduque, Philippines", 150, 20),
    "JCM Butterfly Breeding Farm" := Farm("Cawit, Boac, Marinduque, Philippines", 150, 20),
    "Marl Insects Farm" := Farm("Caganhao, Boac, Marinduque, Philippines", 150, 20),
    "Lyra-Ysabelle Butterfly" := Farm("Cawit, Boac, Marinduque, Philippines", 150, 20),
    "Saluciana Integrated and Butterfly Farm" := Farm("Sta. Cruz, Marinduque, Philippines", 150, 20),
    "Butterfly Paradise Farm" := Farm("Baguio City, Philippines", 150, 20),
    "Rainbow Wings Sanctuary" := Farm("Tagaytay, Philippines", 120, 15),
    "Monarch Breeding Center" := Farm("Los Baños, Laguna", 200, 12)
  ]

  /** The booking form; the visitor count comes from a number input
      bounded by 1 and the farm's capacity. */
  datatype BookingForm = BookingForm(
    farm: string, visitDate: string, visitTime: string, numVisitors: int,
    contactName: string, contactPhone: string, contactEmail: string,
    purpose: string, specialRequests: string, agreeTerms: bool)

  /** The total shown on the form and saved with the booking. */
  function TotalCost(f: Farm, visitors: int): (c: int)
    requires 1 <= visitors <= f.maxCapacity && 0 <= f.pricePerPerson
    ensures f.pricePerPerson <= c <= f.maxCapacity * f.pricePerPerson
    ensures c == visitors * f.pricePerPerson
  {
    MulMonotone(visitors, f.maxCapacity, f.pricePerPerson);
    visitors * f.pricePerPerson
  }

  lemma MulMonotone(a: int, b: int, c: int)
    requires 1 <= a <= b && 0 <= c
    ensures c <= a * c <= b * c
  {
  }

  /** Every farm's price is positive and its capacity at least one, so
      each offers at least one affordable visitor count. */
  lemma FarmsBookable()
    ensures forall n :: n in Farms ==> Farms[n].pricePerPerson > 0 && Farms[n].maxCapacity >= 1 && n != ""
  {
  }

  /** A form the page can submit: a listed farm and an in-range visitor count. */
  predicate Submittable(form: BookingForm)
  {
    form.farm in Farms && 1 <= form.numVisitors <= Farms[form.farm].maxCapacity
  }

  function BookingFields(form: BookingForm, user: string, bookingId: string, now: string): (d: Fields)
    requires Submittable(form)
    ensures Keys(d) == BookingColumns
  {
    var farm := Farms[form.farm];
    assert farm.pricePerPerson >= 0 by { FarmsBookable(); }
    [("booking_id", Str(bookingId)), ("farm_name", Str(form.farm)), ("farm_location", Str(farm.location)),
     ("visitor_name", Str(form.contactName)), ("visitor_phone", Str(form.contactPhone)),
     ("visitor_email", Str(form.contactEmail)), ("visit_date", Str(form.visitDate)),
     ("visit_time", Str(form.visitTime)), ("num_visitors", Num(form.numVisitors)),
     ("visit_purpose", Str(form.purpose)), ("total_cost", Num(TotalCost(farm, form.numVisitors))),
     ("special_requests", Str(form.specialRequests)), ("booking_status", Str(Pending)),
     ("booked_by", Str(user)), ("booking_date", Str(now))]
  }

  /** The form's required fields: a contact name, a phone number and the terms accepted. */
  predicate Complete(form: BookingForm)
  {
    form.contactName != "" && form.contactPhone != "" && form.agreeTerms
  }

  /** Submitting the booking form: saved only when complete. */
  function SubmitBooking(fs: FileSystem, form: BookingForm, user: string, bookingId: string, now: string): FileSystem
    requires Submittable(form)
  {
    if Complete(form) then SaveToCsv(fs, BookingsFile, BookingFields(form, user, bookingId, now), true) else fs
  }

  // ------------------------------------------------------- my bookings

  function BookedBy(user: string): Record -> bool
  {
    ColumnIs("booked_by", user)
  }

  function HasStatus(status: string): Record -> bool
  {
    ColumnIs("booking_status", status)
  }

  function BookedWithStatus(user: string, status: string): Record -> bool
  {
    r => BookedBy(user)(r) && HasStatus(status)(r)
  }

  /** A numeric column as summed by `.sum()`: missing values count as 0. */
  function Cost(r: Record): int
  {
    if Get(r, "total_cost").Num? then Get(r, "total_cost").n else 0
  }

  function UserBookings(rows: seq<Record>, user: string): seq<Record>
  {
    Where(rows, BookedBy(user))
  }

  datatype BookingStats = BookingStats(total: int, confirmed: int, pending: int, totalSpent: int)

  /** The four metrics of "My Bookings". */
  function StatsFor(rows: seq<Record>, user: string): BookingStats
  {
    var mine := UserBookings(rows, user);
    BookingStats(|mine|, |Where(mine, HasStatus(Confirmed))|, |Where(mine, HasStatus(Pending))|, SumOf(mine, Cost))
  }

  /** A booking is confirmed or pending, never both, so the two counts
      together never exceed the user's bookings; each status count is the
      number of the user's rows with that status. */
  lemma StatsBounded(rows: seq<Record>, user: string)
    ensures var st := StatsFor(rows, user);
      0 <= st.confirmed && 0 <= st.pending && st.confirmed + st.pending <= st.total <= |rows|
    ensures StatsFor(rows, user).pending == |Where(rows, BookedWithStatus(user, Pending))|
    ensures StatsFor(rows, user).confirmed == |Where(rows, BookedWithStatus(user, Confirmed))|
  {
    var mine := UserBookings(rows, user);
    WhereDisjointCount(mine, HasStatus(Confirmed), HasStatus(Pending));
    WhereWhere(rows, BookedBy(user), HasStatus(Pending), BookedWithStatus(user, Pending));
    WhereWhere(rows, BookedBy(user), HasStatus(Confirmed), BookedWithStatus(user, Confirmed));
  }

  /** The status filter of the history keeps exactly the user's rows with that status. */
  lemma StatusFilterExactly(rows: seq<Record>, user: string, status: string)
    ensures forall r :: r in Where(UserBookings(rows, user), HasStatus(status)) <==>
      r in rows && Get(r, "booked_by") == Str(user) && Get(r, "booking_status") == Str(status)
  {
    WhereWhere(rows, BookedBy(user), HasStatus(status), BookedWithStatus(user, status));
    WhereExactly(rows, BookedWithStatus(user, status));
  }

  /** What the saved row of a submitted booking holds. */
  predicate RecordsBooking(r: Record, form: BookingForm, user: string)
    requires Submittable(form)
  {
    Get(r, "farm_name") == Str(form.farm) &&
    Get(r, "visitor_name") == Normalize(Str(form.contactName)) &&
    Get(r, "total_cost") == Num(form.numVisitors * Farms[form.farm].pricePerPerson) &&
    Get(r, "booking_status") == Str(Pending) &&
    Get(r, "booked_by") == Normalize(Str(user))
  }

  lemma BookingRowOf(d: Fields, form: BookingForm, user: string)
    requires Submittable(form) && Distinct(Keys(d)) && |d| == 15
    requires d[1] == ("farm_name", Str(form.farm)) && d[3] == ("visitor_name", Str(form.contactName))
    requires d[10] == ("total_cost", Num(form.numVisitors * Farms[form.farm].pricePerPerson))
    requires d[12] == ("booking_status", Str(Pending)) && d[13] == ("booked_by", Str(user))
    ensures RecordsBooking(NormalizeRecord(AsRecord(d)), form, user)
  {
    FarmsBookable();
    FieldReadsBack(d, 1, "farm_name", Str(form.farm));
    FieldReadsBack(d, 3, "visitor_name", Str(form.contactName));
    FieldReadsBack(d, 10, "total_cost", Num(form.numVisitors * Farms[form.farm].pricePerPerson));
    FieldReadsBack(d, 12, "booking_status", Str(Pending));
    FieldReadsBack(d, 13, "booked_by", Str(user));
  }

  lemma BookingRow(form: BookingForm, user: string, bookingId: string, now: string)
    requires Submittable(form)
    ensures RecordsBooking(NormalizeRecord(AsRecord(BookingFields(form, user, bookingId, now))), form, user)
  {
    ColumnsDistinct();
    BookingRowOf(BookingFields(form, user, bookingId, now), form, user);
  }

  /** An incomplete form saves nothing. A complete one adds one row, the
      user's newest booking, pending, at the farm's price times the number
      of visitors. */
  lemma SubmitBookingEffect(fs: FileSystem, form: BookingForm, user: string, bookingId: string, now: string)
    requires Submittable(form) && Ready(fs, BookingsFile, BookingColumns)
    ensures !Complete(form) ==> SubmitBooking(fs, form, user, bookingId, now) == fs
    ensures Complete(form) ==>
      var rows := Load(fs, BookingsFile).rows;
      var rows' := Load(SubmitBooking(fs, form, user, bookingId, now), BookingsFile).rows;
      var r := NormalizeRecord(AsRecord(BookingFields(form, user, bookingId, now)));
      rows' == rows + [r] && RecordsBooking(r, form, user) &&
      (user != "" ==> UserBookings(rows', user) == UserBookings(rows, user) + [r])
  {
    if Complete(form) {
      var d := BookingFields(form, user, bookingId, now);
      ColumnsDistinct();
      AppendReadsBack(fs, BookingsFile, d);
      BookingRow(form, user, bookingId, now);
      WhereSnoc(Load(fs, BookingsFile).rows, NormalizeRecord(AsRecord(d)), BookedBy(user));
    }
  }

  // ------------------------------------------------------------ cancel

  /** The cancel button is shown for the user's own pending bookings only. */
  predicate CancelOffered(f: Frame, idx: nat, user: string)
  {
    idx < |f.rows| && BookedWithStatus(user, Pending)(f.rows[idx])
  }

  /** `bookings_df.loc[idx, 'booking_status'] = 'Cancelled'`. */
  function WithStatus(f: Frame, idx: nat, status: string): (g: Frame)
    requires idx < |f.rows|
    ensures g.columns == f.columns && |g.rows| == |f.rows|
  {
    Frame(f.columns, f.rows[idx := f.rows[idx]["booking_status" := Str(status)]])
  }

  /** The loaded bookings table, changed in place and written back whole. */
  class BookingsTable {
    var columns: seq<string>
    var rows: seq<Record>

    function Contents(): Frame
      reads this
    {
      Frame(columns, rows)
    }

    constructor FromFile(fs: FileSystem)
      ensures Contents() == Load(fs, BookingsFile)
    {
      var f := Load(fs, BookingsFile);
      columns := f.columns;
      rows := f.rows;
    }

    method SetStatus(idx: nat, status: string)
      requires idx < |rows|
      modifies this
      ensures Contents() == WithStatus(old(Contents()), idx, status)
    {
      rows := rows[idx := rows[idx]["booking_status" := Str(status)]];
    }
  }

  /** The file after pressing "Cancel Booking" on row `idx` of the table. */
  function CancelResult(fs: FileSystem, idx: nat, user: string): FileSystem
  {
    var f := Load(fs, BookingsFile);
    if CancelOffered(f, idx, user) then fs[BookingsFile := Write(WithStatus(f, idx, Cancelled))] else fs
  }

  /** Pressing "Cancel Booking" on row `idx`: nothing happens unless the
      button is offered for that row. */
  method CancelBooking(fs: FileSystem, idx: nat, user: string) returns (fs': FileSystem, cancelled: bool)
    ensures cancelled == CancelOffered(Load(fs, BookingsFile), idx, user)
    ensures fs' == CancelResult(fs, idx, user)
  {
    var table := new BookingsTable.FromFile(fs);
    cancelled := idx < |table.rows| && BookedWithStatus(user, Pending)(table.rows[idx]);
    if cancelled {
      table.SetStatus(idx, Cancelled);
      fs' := fs[BookingsFile := Write(table.Contents())];
    } else {
      fs' := fs;
    }
  }

  /** After a cancellation the table reads back with that one booking
      cancelled and every other row as it was. */
  lemma CancelEffect(fs: FileSystem, idx: nat, user: string)
    requires CancelOffered(Load(fs, BookingsFile), idx, user)
    ensures var rows := Load(fs, BookingsFile).rows;
      var rows' := Load(CancelResult(fs, idx, user), BookingsFile).rows;
      |rows'| == |rows| &&
      rows'[idx] == rows[idx]["booking_status" := Str(Cancelled)] &&
      forall j :: 0 <= j < |rows| && j != idx ==> rows'[j] == rows[j]
  {
    var f := Load(fs, BookingsFile);
    assert HasStatus(Pending)(f.rows[idx]);
    assert "booking_status" in f.rows[idx];
    LoadedRowsNormalized(fs, BookingsFile);
    StatusReadsBack(fs, f, idx, Cancelled);
  }

  /** A loaded table with one row's status set, written back whole, reads
      back as that table. */
  lemma StatusReadsBack(fs: FileSystem, f: Frame, idx: nat, status: string)
    requires WellFormed(f) && idx < |f.rows| && "booking_status" in f.rows[idx] && status != ""
    requires forall i :: 0 <= i < |f.rows| ==> Normalized(f.rows[i])
    ensures Load(fs[BookingsFile := Write(WithStatus(f, idx, status))], BookingsFile) == WithStatus(f, idx, status)
  {
    var g := WithStatus(f, idx, status);
    WithStatusWellFormed(f, idx, status);
    assert f.columns != [] by {
      assert "booking_status" in ColumnSet(f.columns);
    }
    LoadAfterWrite(fs, BookingsFile, g);
    forall j | 0 <= j < |g.rows|
      ensures NormalizeRecord(g.rows[j]) == g.rows[j]
    {
      if j != idx {
        NormalizedFixed(f.rows[j]);
      } else {
        assert Normalized(g.rows[j]);
        NormalizedFixed(g.rows[j]);
      }
    }
    assert NormalizeFrame(g).rows == g.rows;
  }

  lemma WithStatusWellFormed(f: Frame, idx: nat, status: string)
    requires WellFormed(f) && idx < |f.rows| && "booking_status" in f.rows[idx]
    ensures WellFormed(WithStatus(f, idx, status))
  {
    var g := WithStatus(f, idx, status);
    forall i | 0 <= i < |g.rows|
      ensures g.rows[i].Keys == ColumnSet(g.columns)
    {
      assert i != idx ==> g.rows[i] == f.rows[i];
    }
  }

  /** Cancelling moves one of the user's bookings from pending to
      cancelled: the user's total and confirmed counts stay, the pending
      count drops by one. */
  lemma CancelCounts(fs: FileSystem, idx: nat, user: string)
    requires CancelOffered(Load(fs, BookingsFile), idx, user)
    ensures var before := StatsFor(Load(fs, BookingsFile).rows, user);
      var after := StatsFor(Load(CancelResult(fs, idx, user), BookingsFile).rows, user);
      after.total == before.total && after.confirmed == before.confirmed &&
      after.pending == before.pending - 1
  {
    var rows := Load(fs, BookingsFile).rows;
    var rows' := Load(CancelResult(fs, idx, user), BookingsFile).rows;
    CancelEffect(fs, idx, user);
    assert rows' == rows[idx := rows[idx]["booking_status" := Str(Cancelled)]];
    CancelRowCounts(rows, idx, user);
  }

  lemma CancelRowCounts(rows: seq<Record>, idx: nat, user: string)
    requires idx < |rows| && BookedWithStatus(user, Pending)(rows[idx])
    ensures var before := StatsFor(rows, user);
      var after := StatsFor(rows[idx := rows[idx]["booking_status" := Str(Cancelled)]], user);
      after.total == before.total && after.confirmed == before.confirmed &&
      after.pending == before.pending - 1
  {
    var x := rows[idx]["booking_status" := Str(Cancelled)];
    var rows' := rows[idx := x];
    assert Get(x, "booked_by") == Get(rows[idx], "booked_by");
    WhereUpdateCount(rows, idx, x, BookedBy(user));
    WhereUpdateCount(rows, idx, x, BookedWithStatus(user, Pending));
    WhereUpdateCount(rows, idx, x, BookedWithStatus(user, Confirmed));
    StatsBounded(rows, user);
    StatsBounded(rows', user);
  }

  /** A booking just submitted can be cancelled by the user who made it. */
  lemma NewBookingCancellable(fs: FileSystem, form: BookingForm, user: string, bookingId: string, now: string)
    requires Submittable(form) && Ready(fs, BookingsFile, BookingColumns)
    requires Complete(form) && user != ""
    ensures CancelOffered(Load(SubmitBooking(fs, form, user, bookingId, now), BookingsFile),
                          |Load(fs, BookingsFile).rows|, user)
  {
    SubmitBookingEffect(fs, form, user, bookingId, now);
    var rows := Load(fs, BookingsFile).rows;
    var r := NormalizeRecord(AsRecord(BookingFields(form, user, bookingId, now)));
    PendingRowOffered(Load(SubmitBooking(fs, form, user, bookingId, now), BookingsFile), rows, r, user);
  }

  lemma PendingRowOffered(f: Frame, rows: seq<Record>, r: Record, user: string)
    requires f.rows == rows + [r] && user != ""
    requires Get(r, "booked_by") == Normalize(Str(user)) && Get(r, "booking_status") == Str(Pending)
    ensures CancelOffered(f, |rows|, user)
  {
    assert f.rows[|rows|] == r;
    assert Normalize(Str(user)) == Str(user);
    assert BookedBy(user)(r) && HasStatus(Pending)(r);
  }

  // ----------------------------------------------------------- reviews

  function ConfirmedBy(user: string): Record -> bool
  {
    BookedWithStatus(user, Confirmed)
  }

  /** The farm column of the rows, in order. */
  function FarmNames(rows: seq<Record>): (vs: seq<Value>)
    ensures |vs| == |rows| && forall i :: 0 <= i < |rows| ==> vs[i] == Get(rows[i], "farm_name")
  {
    seq(|rows|, i requires 0 <= i < |rows| => Get(rows[i], "farm_name"))
  }

  /** The farms the review form offers: the distinct farms of the user's
      confirmed bookings, none when there are no bookings at all. */
  function ReviewableFarms(f: Frame, user: string): seq<Value>
  {
    if IsEmpty(f) then [] else Dedupe(FarmNames(Where(f.rows, ConfirmedBy(user))))
  }

  /** Each farm is offered once, and a farm is offered exactly when the
      user has a confirmed booking there. */
  lemma ReviewableExactly(f: Frame, user: string)
    requires f.columns != []
    ensures Distinct(ReviewableFarms(f, user))
    ensures forall v :: v in ReviewableFarms(f, user) <==>
      exists i :: 0 <= i < |f.rows| && ConfirmedBy(user)(f.rows[i]) && Get(f.rows[i], "farm_name") == v
  {
    var c := Where(f.rows, ConfirmedBy(user));
    WhereExactly(f.rows, ConfirmedBy(user));
    var names := FarmNames(c);
    forall v | v in ReviewableFarms(f, user)
      ensures exists i :: 0 <= i < |f.rows| && ConfirmedBy(user)(f.rows[i]) && Get(f.rows[i], "farm_name") == v
    {
      var k :| 0 <= k < |names| && names[k] == v;
      assert c[k] in f.rows;
      var i :| 0 <= i < |f.rows| && f.rows[i] == c[k];
    }
    forall v | exists i :: 0 <= i < |f.rows| && ConfirmedBy(user)(f.rows[i]) && Get(f.rows[i], "farm_name") == v
      ensures v in ReviewableFarms(f, user)
    {
      var i :| 0 <= i < |f.rows| && ConfirmedBy(user)(f.rows[i]) && Get(f.rows[i], "farm_name") == v;
      assert f.rows[i] in c;
      var k :| 0 <= k < |c| && c[k] == f.rows[i];
      assert names[k] == v;
    }
  }

  /** The review form; the farm is picked from the offered farms. */
  datatype ReviewForm = ReviewForm(
    farm: Value, rating: int, title: string, text: string,
    facilities: int, staff: int, value: int, experience: int)

  function ReviewFields(form: ReviewForm, user: string, reviewId: string, now: string): (d: Fields)
    ensures Keys(d) == ReviewColumns
  {
    [("review_id", Str(reviewId)), ("farm_name", form.farm), ("reviewer", Str(user)),
     ("rating", Num(form.rating)), ("review_title", Str(form.title)), ("review_text", Str(form.text)),
     ("facilities_rating", Num(form.facilities)), ("staff_rating", Num(form.staff)),
     ("value_rating", Num(form.value)), ("experience_rating", Num(form.experience)),
     ("review_date", Str(now))]
  }

  /** Submitting the review form: saved only with a title and a text.
      The form exists only for a user with a confirmed booking, and its
      farm is one of ReviewableFarms; saving does not depend on which. */
  function SubmitReview(fs: FileSystem, form: ReviewForm, user: string, reviewId: string, now: string): FileSystem
  {
    if form.title != "" && form.text != "" then SaveToCsv(fs, ReviewsFile, ReviewFields(form, user, reviewId, now), true)
    else fs
  }

  lemma ReviewRowOf(d: Fields, form: ReviewForm, user: string)
    requires Distinct(Keys(d)) && |d| == 11
    requires d[1] == ("farm_name", form.farm) && d[2] == ("reviewer", Str(user))
    ensures var r := NormalizeRecord(AsRecord(d));
      Get(r, "farm_name") == Normalize(form.farm) && Get(r, "reviewer") == Normalize(Str(user))
  {
    FieldReadsBack(d, 1, "farm_name", form.farm);
    FieldReadsBack(d, 2, "reviewer", Str(user));
  }

  /** An offered farm is one the user has a confirmed booking at. */
  lemma OfferedFarmVisited(f: Frame, user: string, farm: Value)
    requires farm in ReviewableFarms(f, user)
    ensures exists i :: 0 <= i < |f.rows| && ConfirmedBy(user)(f.rows[i]) && Get(f.rows[i], "farm_name") == farm
  {
    ReviewableExactly(f, user);
  }

  /** A review without a title or a text saves nothing. Otherwise the
      reviews table gains one row, by this user, about the chosen farm;
      for an offered farm, OfferedFarmVisited shows the user has a
      confirmed booking there. */
  lemma SubmitReviewEffect(fs: FileSystem, form: ReviewForm, user: string, reviewId: string, now: string)
    requires Ready(fs, ReviewsFile, ReviewColumns)
    ensures form.title == "" || form.text == "" ==> SubmitReview(fs, form, user, reviewId, now) == fs
    ensures form.title != "" && form.text != "" ==>
      var reviews := Load(fs, ReviewsFile).rows;
      var reviews' := Load(SubmitReview(fs, form, user, reviewId, now), ReviewsFile).rows;
      var r := NormalizeRecord(AsRecord(ReviewFields(form, user, reviewId, now)));
      reviews' == reviews + [r] &&
      Get(r, "reviewer") == Normalize(Str(user)) && Get(r, "farm_name") == Normalize(form.farm)
  {
    if form.title != "" && form.text != "" {
      var d := ReviewFields(form, user, reviewId, now);
      assert SubmitReview(fs, form, user, reviewId, now) == SaveToCsv(fs, ReviewsFile, d, true);
      ReviewSaved(fs, d, form, user);
    }
  }

  lemma ReviewSaved(fs: FileSystem, d: Fields, form: ReviewForm, user: string)
    requires Ready(fs, ReviewsFile, ReviewColumns) && Keys(d) == ReviewColumns
    requires d[1] == ("farm_name", form.farm) && d[2] == ("reviewer", Str(user))
    ensures var r := NormalizeRecord(AsRecord(d));
      Load(SaveToCsv(fs, ReviewsFile, d, true), ReviewsFile).rows == Load(fs, ReviewsFile).rows + [r] &&
      Get(r, "reviewer") == Normalize(Str(user)) && Get(r, "farm_name") == Normalize(form.farm)
  {
    ColumnsDistinct();
    AppendReadsBack(fs, ReviewsFile, d);
    ReviewRowOf(d, form, user);
  }
}
