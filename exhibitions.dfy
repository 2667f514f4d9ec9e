/** The read-side logic and request validation of
    server/src/routes/exhibitions.ts: field checks of create and update, the
    conflict count, the store invariant it protects, and the list, current and
    single-row queries. The writes themselves are methods of Store.Gallery. */
module Exhibitions {
  import opened Common
  import opened Text
  import opened Interval
  import opened Schema

  /** The JSON body of POST /api/exhibitions and PUT /api/exhibitions/:id
      (exhibitions.ts:180, :296). `None` is a field that is absent; an id of
      0 is falsy in JavaScript and is treated as absent as well. */
  datatype Request = Request(
    artworkId: Option<nat>,
    locationId: Option<nat>,
    start: Option<int>,
    end: Option<int>,
    status: Option<string>,
    notes: Option<string>)

  /** The values a request writes once it has passed validation. `status`
      is `None` when an update keeps the stored status; `notes` is already
      trimmed. */
  datatype Fields = Fields(
    artworkId: nat,
    locationId: nat,
    start: int,
    end: int,
    status: Option<Status>,
    notes: Option<string>)

  predicate Given(id: Option<nat>) {
    id.Some? && id.value != 0
  }

  /** `!artwork_id || !location_id || !start_date || !end_date` is false. */
  predicate HasRequiredFields(req: Request) {
    Given(req.artworkId) && Given(req.locationId) && req.start.Some? && req.end.Some?
  }

  /** The status check of create: an absent status defaults to `scheduled`
      (a JavaScript default parameter), any supplied text must name one of the
      three states. */
  predicate CreateStatusAccepted(status: Option<string>) {
    status.None? || ParseStatus(status.value).Some?
  }

  /** The status check of update: an absent or empty status is skipped. */
  predicate UpdateStatusAccepted(status: Option<string>) {
    status.None? || status.value == "" || ParseStatus(status.value).Some?
  }

  /** The checks of POST /api/exhibitions before its transaction
      (exhibitions.ts:183-211), in the order the handler runs them. */
  function ValidateCreate(req: Request, artworks: map<nat, Artwork>, locations: map<nat, Location>)
    : (r: Result<Fields>)
    ensures r.Ok? <==>
              && HasRequiredFields(req) && req.start.value < req.end.value
              && CreateStatusAccepted(req.status)
              && req.artworkId.value in artworks && req.locationId.value in locations
    ensures !HasRequiredFields(req) ==> r == Err(Validation(MissingField))
    ensures HasRequiredFields(req) && req.start.value >= req.end.value
            ==> r == Err(Validation(StartNotBeforeEnd))
    ensures HasRequiredFields(req) && req.start.value < req.end.value
            && !CreateStatusAccepted(req.status)
            ==> r == Err(Validation(UnknownStatus))
    ensures HasRequiredFields(req) && req.start.value < req.end.value
            && CreateStatusAccepted(req.status) && req.artworkId.value !in artworks
            ==> r == Err(Validation(NoSuchArtwork))
    ensures HasRequiredFields(req) && req.start.value < req.end.value
            && CreateStatusAccepted(req.status) && req.artworkId.value in artworks
            && req.locationId.value !in locations
            ==> r == Err(Validation(NoSuchLocation))
    ensures r.Ok? ==>
              && r.value.artworkId == req.artworkId.value && r.value.locationId == req.locationId.value
              && r.value.start == req.start.value && r.value.end == req.end.value
              && r.value.notes == OptionalText(req.notes)
              && r.value.status.Some?
              && (req.status.None? ==> r.value.status.value == Scheduled)
              && (req.status.Some? ==> StatusText(r.value.status.value) == req.status.value)
  {
    if !HasRequiredFields(req) then Err(Validation(MissingField))
    else if req.start.value >= req.end.value then Err(Validation(StartNotBeforeEnd))
    else
      var status := if req.status.None? then Some(Scheduled) else ParseStatus(req.status.value);
      if status.None? then Err(Validation(UnknownStatus))
      else if req.artworkId.value !in artworks then Err(Validation(NoSuchArtwork))
      else if req.locationId.value !in locations then Err(Validation(NoSuchLocation))
      else Ok(Fields(req.artworkId.value, req.locationId.value, req.start.value, req.end.value,
                     status, OptionalText(req.notes)))
  }

  /** The field checks of PUT /api/exhibitions/:id (exhibitions.ts:312-328),
      which run after the existence and lock checks. Unlike create, update
      does not look the artwork and location up. */
  function ValidateUpdate(req: Request): (r: Result<Fields>)
    ensures r.Ok? <==>
              HasRequiredFields(req) && req.start.value < req.end.value
              && UpdateStatusAccepted(req.status)
    ensures !HasRequiredFields(req) ==> r == Err(Validation(MissingField))
    ensures HasRequiredFields(req) && req.start.value >= req.end.value
            ==> r == Err(Validation(StartNotBeforeEnd))
    ensures HasRequiredFields(req) && req.start.value < req.end.value
            && !UpdateStatusAccepted(req.status)
            ==> r == Err(Validation(UnknownStatus))
    ensures r.Ok? ==>
              && r.value.artworkId == req.artworkId.value && r.value.locationId == req.locationId.value
              && r.value.start == req.start.value && r.value.end == req.end.value
              && r.value.notes == OptionalText(req.notes)
              && (r.value.status.None? <==> req.status.None? || req.status.value == "")
              && (r.value.status.Some? ==> StatusText(r.value.status.value) == req.status.value)
  {
    if !HasRequiredFields(req) then Err(Validation(MissingField))
    else if req.start.value >= req.end.value then Err(Validation(StartNotBeforeEnd))
    else if !UpdateStatusAccepted(req.status) then Err(Validation(UnknownStatus))
    else
      var status := if req.status.None? || req.status.value == "" then None
                    else ParseStatus(req.status.value);
      Ok(Fields(req.artworkId.value, req.locationId.value, req.start.value, req.end.value,
                status, OptionalText(req.notes)))
  }

  /** Row `x` is counted by the conflict query for a booking of `locationId`
      over `[from, to]`: same location, scheduled or active, and the
      three-clause test holds. The candidate's own status plays no part. */
  predicate Blocks(x: Exhibition, locationId: nat, from: int, to: int) {
    x.locationId == locationId && Blocking(x.status) && Conflicts(x.start, x.end, from, to)
  }

  /** The row ids the conflict query counts; `exclude` is the `id != ?`
      clause of update (exhibitions.ts:338) and of the availability query. */
  function ConflictIds(t: map<nat, Exhibition>, locationId: nat, from: int, to: int, exclude: Option<nat>)
    : set<nat>
  {
    set k | k in t && exclude != Some(k) && Blocks(t[k], locationId, from, to)
  }

  /** `SELECT COUNT(*) ...` of exhibitions.ts:217-226 and :334-344: zero
      exactly when no other live booking of the location overlaps. */
  function ConflictCount(t: map<nat, Exhibition>, locationId: nat, from: int, to: int, exclude: Option<nat>)
    : (n: nat)
    ensures n == 0 <==>
              forall k :: k in t && exclude != Some(k) ==> !Blocks(t[k], locationId, from, to)
  {
    var ids := ConflictIds(t, locationId, from, to, exclude);
    assert forall k :: k in t && exclude != Some(k) && Blocks(t[k], locationId, from, to) ==> k in ids;
    |ids|
  }

  /** Another row (other than `exclude`) has exactly this location and period:
      the write would break UNIQUE(location_id, start_date, end_date) of
      server/src/database.ts:78. */
  predicate PeriodTaken(t: map<nat, Exhibition>, locationId: nat, from: int, to: int, exclude: Option<nat>) {
    exists k :: k in t && exclude != Some(k)
                && t[k].locationId == locationId && t[k].start == from && t[k].end == to
  }

  /** When the conflict count is zero, the UNIQUE constraint can only be hit
      by a `completed` row: every live row with the same period conflicts. */
  lemma PeriodTakenOnlyByCompleted(t: map<nat, Exhibition>, locationId: nat, from: int, to: int,
                                   exclude: Option<nat>, k: nat)
    requires ConflictCount(t, locationId, from, to, exclude) == 0
    requires k in t && exclude != Some(k)
    requires t[k].locationId == locationId && t[k].start == from && t[k].end == to
    ensures t[k].status == Completed
  {
    ConflictsReflexive(from, to);
  }

  /** Every row is stored under its own id. */
  ghost predicate Keyed(t: map<nat, Exhibition>) {
    forall k :: k in t ==> t[k].id == k
  }

  /** Every row is stored under its own id and has `start < end`, as create
      and update require. */
  ghost predicate WellFormed(t: map<nat, Exhibition>) {
    forall k :: k in t ==> t[k].id == k && t[k].start < t[k].end
  }

  /** `n` lies above every row id, so a scan of the ids below `n` reads the
      whole table. */
  predicate Bounds(t: map<nat, Exhibition>, n: nat) {
    forall k :: k in t ==> k < n
  }

  /** The booking invariant: two different scheduled or active bookings of the
      same location never conflict. */
  ghost predicate NoOverlap(t: map<nat, Exhibition>) {
    forall i, j ::
      i in t && j in t && i != j
      && Blocking(t[i].status) && Blocking(t[j].status) && t[i].locationId == t[j].locationId
      ==> !Conflicts(t[i].start, t[i].end, t[j].start, t[j].end)
  }

  /** Writing a well-formed row under `k` (a new id, or the id being updated)
      keeps the invariant when the conflict count excluding `k` is zero. */
  lemma {:induction false} WriteKeepsNoOverlap(t: map<nat, Exhibition>, k: nat, x: Exhibition)
    requires WellFormed(t) && NoOverlap(t)
    requires x.start <= x.end
    requires ConflictCount(t, x.locationId, x.start, x.end, Some(k)) == 0
    ensures NoOverlap(t[k := x])
  {
    var u := t[k := x];
    forall i, j | i in u && j in u && i != j
                  && Blocking(u[i].status) && Blocking(u[j].status) && u[i].locationId == u[j].locationId
      ensures !Conflicts(u[i].start, u[i].end, u[j].start, u[j].end)
    {
      if i == k {
        assert !Blocks(t[j], x.locationId, x.start, x.end);
        ConflictsSymmetric(t[j].start, t[j].end, x.start, x.end);
      } else if j == k {
        assert !Blocks(t[i], x.locationId, x.start, x.end);
      }
    }
  }

  /** The check is exactly what the invariant needs for a live booking: if
      the row written is scheduled or active and the count is positive, the
      write would break the invariant. */
  lemma WriteBreaksNoOverlap(t: map<nat, Exhibition>, k: nat, x: Exhibition)
    requires Blocking(x.status)
    requires ConflictCount(t, x.locationId, x.start, x.end, Some(k)) > 0
    ensures !NoOverlap(t[k := x])
  {
    var j :| j in ConflictIds(t, x.locationId, x.start, x.end, Some(k));
    var u := t[k := x];
    assert j in u && k in u && j != k && u[j] == t[j] && u[k] == x;
    assert Blocking(u[j].status) && Blocking(u[k].status) && u[j].locationId == u[k].locationId;
    assert Conflicts(u[j].start, u[j].end, u[k].start, u[k].end);
  }

  /** A completed booking never breaks the invariant, although create and
      update still refuse it when it overlaps a live booking. */
  lemma CompletedWriteKeepsNoOverlap(t: map<nat, Exhibition>, k: nat, x: Exhibition)
    requires NoOverlap(t)
    requires x.status == Completed
    ensures NoOverlap(t[k := x])
  {
  }

  /** Deleting a row keeps the invariant. */
  lemma RemoveKeepsNoOverlap(t: map<nat, Exhibition>, k: nat)
    requires NoOverlap(t)
    ensures NoOverlap(t - {k})
  {
  }

  /** Under the invariant a location holds at most one live booking on any
      given day. */
  lemma OneLiveBookingPerDay(t: map<nat, Exhibition>, i: nat, j: nat, day: int)
    requires NoOverlap(t)
    requires i in t && j in t && Blocking(t[i].status) && Blocking(t[j].status)
    requires t[i].locationId == t[j].locationId
    requires t[i].start <= day <= t[i].end && t[j].start <= day <= t[j].end
    ensures i == j
  {
    IntersectsImpliesConflicts(t[i].start, t[i].end, t[j].start, t[j].end);
  }

  /** The booking of a location over 2024-06-01..2024-06-10 blocks a second
      booking over 2024-06-05..2024-06-15 while it is scheduled, and no longer
      once it is completed. */
  lemma SecondBookingScenario()
    ensures var first := Exhibition(1, 1, 7, 20240601, 20240610, Scheduled, None, 0, 0);
            && ConflictCount(map[1 := first], 7, 20240605, 20240615, None) == 1
            && ConflictCount(map[1 := first.(status := Completed)], 7, 20240605, 20240615, None) == 0
  {
    var first := Exhibition(1, 1, 7, 20240601, 20240610, Scheduled, None, 0, 0);
    assert ConflictIds(map[1 := first], 7, 20240605, 20240615, None) == {1};
  }

  /** Row `x` is the row stored under its id. */
  predicate Stored(t: map<nat, Exhibition>, x: Exhibition) {
    x.id in t && t[x.id] == x
  }

  /** The rows with id below `n`, in id order: the table as SQLite scans it. */
  function RowsBelow(t: map<nat, Exhibition>, n: nat): (r: seq<Exhibition>)
    ensures Keyed(t) ==>
              forall x :: multiset(r)[x] == if x.id < n && Stored(t, x) then 1 else 0
  {
    if n == 0 then []
    else
      var front := RowsBelow(t, n - 1);
      var last := if n - 1 in t then [t[n - 1]] else [];
      assert Keyed(t) ==>
               forall x :: multiset(front + last)[x] == if x.id < n && Stored(t, x) then 1 else 0 by {
        if Keyed(t) {
          forall x ensures multiset(front + last)[x] == if x.id < n && Stored(t, x) then 1 else 0 {
            assert multiset(front + last)[x] == multiset(front)[x] + multiset(last)[x];
            if n - 1 in t && x == t[n - 1] {
              assert x.id == n - 1;
            }
          }
        }
      }
      front + last
  }

  /** The rows of `s` that `keep` accepts, each as often as in `s`: a SQL
      `WHERE` clause. */
  function Select(s: seq<Exhibition>, keep: Exhibition -> bool): (r: seq<Exhibition>)
    ensures forall x :: multiset(r)[x] == if keep(x) then multiset(s)[x] else 0
  {
    if s == [] then []
    else
      assert s == [s[0]] + s[1..];
      (if keep(s[0]) then [s[0]] else []) + Select(s[1..], keep)
  }

  /** The `ORDER BY` clauses of the row queries. */
  datatype Order =
    | NewestFirst    // start_date DESC, created_at DESC (exhibitions.ts:37)
    | ByLocation     // location_id ASC (exhibitions.ts:89)
    | EarliestFirst  // start_date ASC (locations.ts:136, :152)

  predicate Before(order: Order, a: Exhibition, b: Exhibition) {
    match order
    case NewestFirst => a.start > b.start || (a.start == b.start && a.createdAt >= b.createdAt)
    case ByLocation => a.locationId <= b.locationId
    case EarliestFirst => a.start <= b.start
  }

  predicate Sorted(order: Order, s: seq<Exhibition>) {
    forall i, j :: 0 <= i < j < |s| ==> Before(order, s[i], s[j])
  }

  /** Each order is a total preorder. */
  lemma BeforeTotal(order: Order, a: Exhibition, b: Exhibition)
    ensures Before(order, a, b) || Before(order, b, a)
  {
  }

  lemma BeforeTransitive(order: Order, a: Exhibition, b: Exhibition, c: Exhibition)
    requires Before(order, a, b) && Before(order, b, c)
    ensures Before(order, a, c)
  {
  }

  /** A row that comes before every row of a sorted sequence can be put in
      front of it. */
  lemma SortedCons(order: Order, x: Exhibition, s: seq<Exhibition>)
    requires Sorted(order, s)
    requires forall y :: y in s ==> Before(order, x, y)
    ensures Sorted(order, [x] + s)
  {
    var r := [x] + s;
    forall i, j | 0 <= i < j < |r| ensures Before(order, r[i], r[j]) {
      if i == 0 {
        assert r[j] == s[j - 1];
      } else {
        assert r[i] == s[i - 1] && r[j] == s[j - 1];
      }
    }
  }

  function InsertSorted(order: Order, x: Exhibition, s: seq<Exhibition>): (r: seq<Exhibition>)
    requires Sorted(order, s)
    ensures Sorted(order, r) && multiset(r) == multiset(s) + multiset{x}
  {
    if s == [] || Before(order, x, s[0]) then
      assert forall y :: y in s ==> Before(order, x, y) by {
        forall y | y in s ensures Before(order, x, y) {
          if y != s[0] { BeforeTransitive(order, x, s[0], y); }
        }
      }
      SortedCons(order, x, s);
      [x] + s
    else
      var rest := InsertSorted(order, x, s[1..]);
      assert s == [s[0]] + s[1..];
      BeforeTotal(order, x, s[0]);
      assert forall y :: y in rest ==> Before(order, s[0], y) by {
        forall y | y in rest ensures Before(order, s[0], y) {
          assert y in multiset(rest);
          if y != x {
            assert y in multiset(s[1..]);
            var j :| 0 <= j < |s[1..]| && s[1..][j] == y;
            assert s[j + 1] == y;
          }
        }
      }
      SortedCons(order, s[0], rest);
      [s[0]] + rest
  }

  /** The rows of `s` rearranged into `order`. */
  function SortRows(order: Order, s: seq<Exhibition>): (r: seq<Exhibition>)
    ensures Sorted(order, r) && multiset(r) == multiset(s)
  {
    if s == [] then []
    else
      assert s == [s[0]] + s[1..];
      InsertSorted(order, s[0], SortRows(order, s[1..]))
  }

  /** The `WHERE` clauses of GET /api/exhibitions (exhibitions.ts:21-35): the
      inner joins drop rows whose artwork or location is missing; a non-empty
      `status` keeps the rows whose stored status text equals it; `current`
      keeps the rows whose period contains `today`. */
  predicate ListFilter(x: Exhibition, artworks: map<nat, Artwork>, locations: map<nat, Location>,
                       status: Option<string>, current: bool, today: int)
  {
    && x.artworkId in artworks && x.locationId in locations
    && (status.None? || status.value == "" || StatusText(x.status) == status.value)
    && (!current || (x.start <= today && today <= x.end))
  }

  /** GET /api/exhibitions: every stored row that passes the filters, each
      once, newest start date first, ties by newest creation. The table is
      read by scanning the ids below `n`. */
  function ListExhibitions(t: map<nat, Exhibition>, artworks: map<nat, Artwork>, locations: map<nat, Location>,
                           n: nat, status: Option<string>, current: bool, today: int)
    : (r: seq<Exhibition>)
    requires Bounds(t, n)
    ensures Sorted(NewestFirst, r)
    ensures Keyed(t) ==>
              forall x :: multiset(r)[x] ==
                if Stored(t, x) && ListFilter(x, artworks, locations, status, current, today) then 1 else 0
  {
    SortRows(NewestFirst,
             Select(RowsBelow(t, n), x => ListFilter(x, artworks, locations, status, current, today)))
  }

  /** GET /api/exhibitions/current: the stored rows whose period contains
      `today`, each once, by ascending location id. */
  function CurrentExhibitions(t: map<nat, Exhibition>, artworks: map<nat, Artwork>,
                              locations: map<nat, Location>, n: nat, today: int)
    : (r: seq<Exhibition>)
    requires Bounds(t, n)
    ensures Sorted(ByLocation, r)
    ensures Keyed(t) ==>
              forall x :: multiset(r)[x] ==
                if && Stored(t, x) && x.artworkId in artworks && x.locationId in locations
                   && x.start <= today <= x.end
                then 1 else 0
  {
    SortRows(ByLocation, Select(RowsBelow(t, n), x => ListFilter(x, artworks, locations, None, true, today)))
  }

  /** GET /api/exhibitions/:id: the stored row, when it and its joined
      artwork and location exist. */
  function GetExhibition(t: map<nat, Exhibition>, artworks: map<nat, Artwork>,
                         locations: map<nat, Location>, id: nat)
    : (r: Result<Exhibition>)
    ensures r.Ok? <==> id in t && t[id].artworkId in artworks && t[id].locationId in locations
    ensures r.Ok? ==> r.value == t[id]
    ensures r.Err? ==> r.error == NotFound
  {
    if id in t && t[id].artworkId in artworks && t[id].locationId in locations then Ok(t[id])
    else Err(NotFound)
  }
}
