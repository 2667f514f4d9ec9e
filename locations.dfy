/** The read-side logic and validation of server/src/routes/locations.ts:
    the dimension checks of a location update, the availability query and the
    month schedule. The update itself is Store.Gallery.UpdateLocation. */
module Locations {
  import opened Common
  import opened Text
  import opened Interval
  import opened Schema
  import opened Exhibitions

  /** The checks of PUT /api/locations/:id on `width` and `height`
      (locations.ts:57-67): both present and positive, then both at most 1000. */
  function ValidateDimensions(width: Option<int>, height: Option<int>): (r: Result<(int, int)>)
    ensures r.Ok? <==>
              width.Some? && height.Some?
              && 1 <= width.value <= 1000 && 1 <= height.value <= 1000
    ensures r.Ok? ==> r.value == (width.value, height.value)
    ensures width.None? || height.None? || width.value <= 0 || height.value <= 0
            ==> r == Err(Validation(DimensionsNotPositive))
    ensures width.Some? && height.Some? && width.value > 0 && height.value > 0
            && (width.value > 1000 || height.value > 1000)
            ==> r == Err(Validation(DimensionsTooLarge))
  {
    if width.None? || height.None? || width.value <= 0 || height.value <= 0 then
      Err(Validation(DimensionsNotPositive))
    else if width.value > 1000 || height.value > 1000 then
      Err(Validation(DimensionsTooLarge))
    else
      Ok((width.value, height.value))
  }

  /** The JSON answer of the availability query. */
  datatype Availability = Availability(available: bool, conflicting: nat)

  /** GET /api/locations/:id/availability (locations.ts:85-123): both dates are
      required, their order is not checked, and the answer is the same count
      that create (`exclude` absent) and update (`exclude` the booking's own
      id) compute. The location id is not looked up. */
  function CheckAvailability(t: map<nat, Exhibition>, locationId: nat, start: Option<int>, end: Option<int>,
                             exclude: Option<nat>)
    : (r: Result<Availability>)
    ensures r.Err? <==> start.None? || end.None?
    ensures r.Err? ==> r.error == Validation(MissingDates)
    ensures r.Ok? ==>
              && r.value.conflicting == ConflictCount(t, locationId, start.value, end.value, exclude)
              && (r.value.available <==>
                    forall k :: k in t && exclude != Some(k) ==> !Blocks(t[k], locationId, start.value, end.value))
  {
    if start.None? || end.None? then Err(Validation(MissingDates))
    else
      var n := ConflictCount(t, locationId, start.value, end.value, exclude);
      Ok(Availability(n == 0, n))
  }

  /** For a well-formed table and period, a location is reported available
      exactly when none of its live bookings (other than `exclude`) shares a
      day with the period. */
  lemma {:induction false} AvailableIffNoSharedDay(t: map<nat, Exhibition>, locationId: nat, from: int, to: int,
                                                   exclude: Option<nat>)
    requires WellFormed(t) && from <= to
    ensures CheckAvailability(t, locationId, Some(from), Some(to), exclude).value.available <==>
              forall k :: k in t && exclude != Some(k) && t[k].locationId == locationId && Blocking(t[k].status)
                          ==> !(t[k].start <= to && t[k].end >= from)
  {
    forall k | k in t {
      ConflictsIffIntersects(t[k].start, t[k].end, from, to);
    }
  }

  /** The availability answer for the location and dates of a create request
      that passes validation is "not available" exactly when create refuses it
      with Conflict, i.e. when its conflict count is positive. */
  lemma AvailabilityAgreesWithCreate(t: map<nat, Exhibition>, req: Request, artworks: map<nat, Artwork>,
                                     locations: map<nat, Location>)
    requires ValidateCreate(req, artworks, locations).Ok?
    ensures var f := ValidateCreate(req, artworks, locations).value;
            var a := CheckAvailability(t, f.locationId, req.start, req.end, None);
            a.Ok? && (!a.value.available <==> ConflictCount(t, f.locationId, f.start, f.end, None) > 0)
  {
  }

  /** The same for update: passing the booking's own id as `exclude` gives the
      count update checks for that booking. */
  lemma AvailabilityAgreesWithUpdate(t: map<nat, Exhibition>, id: nat, req: Request)
    requires ValidateUpdate(req).Ok?
    ensures var f := ValidateUpdate(req).value;
            var a := CheckAvailability(t, f.locationId, req.start, req.end, Some(id));
            a.Ok? && (!a.value.available <==> ConflictCount(t, f.locationId, f.start, f.end, Some(id)) > 0)
  {
  }

  /** `String(month).padStart(2, '0')` (locations.ts:154) for a month below
      100: two digits, the tens and then the units of the month. */
  lemma PaddedMonthDigits(month: nat)
    requires month < 100
    ensures |PadStart(DecimalText(month), 2, '0')| == 2
    ensures IsDigit(PadStart(DecimalText(month), 2, '0')[0])
    ensures IsDigit(PadStart(DecimalText(month), 2, '0')[1])
    ensures DigitValue(PadStart(DecimalText(month), 2, '0')[0]) * 10
            + DigitValue(PadStart(DecimalText(month), 2, '0')[1]) == month
  {
    var m := PadStart(DecimalText(month), 2, '0');
    if month >= 10 {
      assert DecimalText(month / 10) == [DigitChar(month / 10)];
    }
    assert m == [DigitChar(month / 10), DigitChar(month % 10)];
    DigitRoundTrip(month / 10);
    DigitRoundTrip(month % 10);
  }

  /** The `year-month` text of locations.ts:154: the year, a dash, and the
      month zero-padded to at least two digits. Schedule does not build this
      text: it compares the integer key `year * 100 + month` instead.
      MonthTextYear and MonthTextMonth justify that. For a month below 100 the
      text is the year's digits, a dash and two digits, and it reads back as
      exactly that year and month. So it names the same month as the key,
      which is what `strftime('%Y-%m', d)` yields as text for the integer
      `MonthOf(d)`. */
  function MonthText(year: nat, month: nat): string {
    DecimalText(year) + "-" + PadStart(DecimalText(month), 2, '0')
  }

  /** The parts of `y + "-" + m`, by position. */
  lemma DashJoin(y: string, m: string)
    ensures |y + "-" + m| == |y| + 1 + |m|
    ensures (y + "-" + m)[..|y|] == y && (y + "-" + m)[|y|] == '-'
    ensures forall i :: 0 <= i < |m| ==> (y + "-" + m)[|y| + 1 + i] == m[i]
  {
    assert (y + "-" + m)[..|y|] == y;
  }

  /** The text starts with the year's digits followed by the dash, and the
      part before the dash reads back as the year. */
  lemma {:induction false} MonthTextYear(year: nat, month: nat)
    ensures |MonthText(year, month)| >= |DecimalText(year)| + 3
    ensures MonthText(year, month)[|DecimalText(year)|] == '-'
    ensures forall i :: 0 <= i < |DecimalText(year)| ==> IsDigit(MonthText(year, month)[i])
    ensures DecimalValue(MonthText(year, month)[..|DecimalText(year)|]) == year
  {
    var y := DecimalText(year);
    var m := PadStart(DecimalText(month), 2, '0');
    DashJoin(y, m);
    DecimalRoundTrip(year);
  }

  /** For a month below 100 the text ends in exactly two digits after the
      dash, and they denote the month. */
  lemma {:induction false} MonthTextMonth(year: nat, month: nat)
    requires month < 100
    ensures |MonthText(year, month)| == |DecimalText(year)| + 3
    ensures IsDigit(MonthText(year, month)[|DecimalText(year)| + 1])
    ensures IsDigit(MonthText(year, month)[|DecimalText(year)| + 2])
    ensures DigitValue(MonthText(year, month)[|DecimalText(year)| + 1]) * 10
            + DigitValue(MonthText(year, month)[|DecimalText(year)| + 2]) == month
  {
    var y := DecimalText(year);
    var m := PadStart(DecimalText(month), 2, '0');
    PaddedMonthDigits(month);
    var r := y + "-" + m;
    assert r[|y| + 1] == m[0] by { DashJoin(y, m); }
    assert r[|y| + 2] == m[1] by { DashJoin(y, m); }
    assert |r| == |y| + 3;
  }

  /** The year-month key of a YYYYMMDD date: what `strftime('%Y-%m', d)`
      extracts. */
  function MonthOf(d: int): int {
    d / 100
  }

  /** The month clause of the schedule query (locations.ts:147-151) for the
      month `ym` (the integer YYYYMM): the booking starts in it, or ends in
      it, or `start <= 'YYYY-MM-31' AND end >= 'YYYY-MM-01'`. */
  predicate InMonth(x: Exhibition, ym: int) {
    || MonthOf(x.start) == ym
    || MonthOf(x.end) == ym
    || (x.start <= ym * 100 + 31 && x.end >= ym * 100 + 1)
  }

  /** A YYYYMMDD key whose day part is a day of a month. */
  predicate DayInRange(d: int) {
    1 <= d % 100 <= 31
  }

  /** For a booking with `start <= end` and real day numbers, the first two
      clauses of the month test add nothing to the third: a booking is shown
      exactly when its period shares a day with days 01..31 of the month. */
  lemma MonthClausesRedundant(x: Exhibition, ym: int)
    requires x.start <= x.end && DayInRange(x.start) && DayInRange(x.end)
    ensures InMonth(x, ym) <==> Intersects(x.start, x.end, ym * 100 + 1, ym * 100 + 31)
  {
    assert x.start == MonthOf(x.start) * 100 + x.start % 100;
    assert x.end == MonthOf(x.end) * 100 + x.end % 100;
  }

  /** GET /api/locations/:id/schedule (locations.ts:126-167): the location's
      stored bookings whose artwork exists (the inner join), restricted to the
      month when both `year` and `month` are given, each once, earliest start
      first. The table is read by scanning the ids below `n`. */
  function Schedule(t: map<nat, Exhibition>, artworks: map<nat, Artwork>, n: nat, locationId: nat,
                    year: Option<nat>, month: Option<nat>)
    : (r: seq<Exhibition>)
    requires Bounds(t, n)
    ensures Sorted(EarliestFirst, r)
    ensures Keyed(t) ==>
              forall x :: multiset(r)[x] ==
                if && Stored(t, x) && x.locationId == locationId && x.artworkId in artworks
                   && (year.Some? && month.Some? ==> InMonth(x, year.value * 100 + month.value))
                then 1 else 0
  {
    SortRows(EarliestFirst, Select(RowsBelow(t, n), x => ScheduleFilter(x, artworks, locationId, year, month)))
  }

  predicate ScheduleFilter(x: Exhibition, artworks: map<nat, Artwork>, locationId: nat,
                           year: Option<nat>, month: Option<nat>)
  {
    && x.locationId == locationId && x.artworkId in artworks
    && (year.Some? && month.Some? ==> InMonth(x, year.value * 100 + month.value))
  }
}
