# Gallery exhibition booking engine

A Dafny model of the booking core of the gallery-management server. The server keeps three
SQLite tables:

- **artworks**: title, artist, optional detail URL;
- **locations**: wall spaces with width, height and an optional description;
- **exhibitions**: bookings of one artwork into one location over a closed period of days,
  with status `scheduled`, `active` or `completed`.

The Express route handlers in `server/src/routes/` validate requests, refuse a booking that
overlaps a scheduled or active booking of the same location, and guard updates with an
optimistic lock on `updated_at`. They also refuse to delete an artwork that is still booked,
and answer availability, schedule and listing queries.

Module by module:

- `Common` (common.dfy): the result type. Its errors are the handlers' outcomes: 400
  validation with the reason, 404, 409 conflict, 409 stale, 400 reference blocked, and 500
  constraint violation. It also holds the optimistic-lock test.
- `Text` (text.dfy): JavaScript's `trim`, the `text?.trim() || null` idiom, `padStart`, and
  decimal rendering.
- `Interval` (interval.dfy): the three-clause overlap test of the conflict queries and its
  relation to "shares a day".
- `Schema` (schema.dfy): the rows of the three tables and the status enum.
- `Exhibitions` (exhibitions.dfy): create and update validation, the conflict count, the
  no-overlap invariant, and the list, current and get queries.
- `Locations` (locations.dfy): dimension checks, the availability
  query, and the month schedule.
- `Artworks` (artworks.dfy): title and artist validation, and the live-reference count that
  guards delete.
- `Store` (store.dfy): class `Gallery` holds the three tables as maps from row id to row,
  plus the AUTOINCREMENT counters. Each request that writes is one method. Every method keeps
  `Valid()`, the database invariant:
  - rows are keyed by id;
  - every booking has `start < end`;
  - foreign keys resolve;
  - no two live bookings of a location overlap.
- `Scenarios` (scenarios.dfy): short request sequences on a fresh database, with their proved
  outcomes.

Representation choices:

- Dates are calendar days written as the integer `YYYYMMDD`. For four-digit years, integer
  order is the order in which SQLite compares the `YYYY-MM-DD` strings.
- `created_at`/`updated_at` are the integer `now` passed to each write.
- `today` is passed to the queries that use `date('now')`.
- Request fields are `Option`s. JavaScript falsiness is written out:
  - an id of 0 counts as absent;
  - an empty `status` on update keeps the stored status;
  - an absent token skips the lock.
- SQLite runs with `PRAGMA foreign_keys = ON` (server/src/database.ts:19). The foreign keys and
  `UNIQUE(location_id, start_date, end_date)` (server/src/database.ts:76-78) therefore refuse
  some writes that pass the handlers' checks. The model returns `ConstraintViolation` for
  those; the handler's catch turns them into HTTP 500.

Behaviour of the handlers worth noting:

- A create naming a missing artwork or location is answered 400
  (server/src/routes/exhibitions.ts:203-210), modelled as `Validation(NoSuchArtwork)` and
  `Validation(NoSuchLocation)`.
- Deleting an artwork whose only bookings are `completed` passes the handler's guard
  (server/src/routes/artworks.ts:116-125). The foreign key then refuses the `DELETE`
  (`Gallery.DeleteArtwork`, `Scenarios.DeleteArtworkOfCompletedBooking`).
- The three-clause overlap test equals the two-term test `start <= to && end >= from` when
  both intervals are well-formed (`Interval.ConflictsIffIntersects`). The availability query
  does not check that `start_date <= end_date` (server/src/routes/locations.ts:90-92). With a
  reversed period the test reports conflicts with bookings that share no day with it
  (`Interval.ReversedCandidateConflicts`).

## Model

| member | source | states |
|---|---|---|
| Interval.Conflicts | server/src/routes/exhibitions.ts:221-225 | The three-clause test as the SQL writes it: the stored period contains the candidate's first day, or its last day, or lies inside the candidate |
| Interval.ConflictsIffIntersects | server/src/routes/exhibitions.ts:221-225 | For well-formed intervals the three-clause test holds exactly when the two periods share a day (`start <= to && end >= from`) |
| Interval.IntersectsImpliesConflicts | server/src/routes/exhibitions.ts:339-343 | Any two periods that share a day are caught by the three clauses, whatever their orientation |
| Interval.ReversedCandidateConflicts | server/src/routes/locations.ts:98-102 | A reversed candidate period (from > to) is reported as conflicting with a booking it shares no day with |
| Interval.ConflictsSymmetric | server/src/routes/exhibitions.ts:221-225 | On well-formed intervals the test does not depend on which period is the stored row |
| Interval.ConflictsReflexive | server/src/routes/exhibitions.ts:224 | Every period conflicts with itself |
| Interval.TouchingConflicts | server/src/routes/exhibitions.ts:222-223 | Bounds are inclusive: [1,5] and [5,9] conflict both ways, [1,5] and [6,9] do not |
| Common.TokenAccepted | server/src/routes/exhibitions.ts:305 | The optimistic lock (also locations.ts:50, artworks.ts:76): an absent token passes, a supplied one must equal the stored `updated_at` |
| Schema.ParseStatus | server/src/routes/exhibitions.ts:195 | A parsed status renders back to the input text; no status renders to a refused text |
| Schema.ParseStatusText | server/src/routes/exhibitions.ts:195 | Parsing the stored text of any status gives that status |
| Text.TrimStart | server/src/routes/artworks.ts:51 | Result is a suffix of the input, everything dropped is whitespace, and it does not start with whitespace |
| Text.TrimEnd | server/src/routes/artworks.ts:51 | Result is a prefix of the input, everything dropped is whitespace, and it does not end with whitespace |
| Text.Trim | server/src/routes/artworks.ts:51 | `trim()` yields a string with no whitespace at either end, no longer than the input |
| Text.TrimEmptyIffAllSpace | server/src/routes/artworks.ts:51 | `trim()` yields "" exactly when the input is all whitespace |
| Text.TrimUnpadded | server/src/routes/artworks.ts:51 | Trimming a string with no whitespace at either end changes nothing |
| Text.TrimIdempotent | server/src/routes/artworks.ts:91 | Trimming twice equals trimming once |
| Text.OptionalText | server/src/routes/exhibitions.ts:238 | `notes?.trim() \|\| null` is absent exactly when the field is absent or trims to "", otherwise the trimmed, non-empty, unpadded text |
| Text.OptionalTextAbsentIffBlank | server/src/routes/locations.ts:73 | An optional text column is stored null exactly when the field is absent or all whitespace |
| Text.OptionalTextIdempotent | server/src/routes/artworks.ts:93 | Writing back a stored optional text value stores the same value |
| Text.PadStart | server/src/routes/locations.ts:154 | `padStart(width, fill)` has length max(width, \|s\|), ends with `s`, and is `fill` before it |
| Text.DigitRoundTrip | server/src/routes/locations.ts:154 | Rendering a digit and reading it back gives the digit |
| Text.DecimalText | server/src/routes/locations.ts:154 | `String(n)` is a non-empty string of digits, of length 1 exactly when n < 10, with no leading zero, and "0" exactly for 0 |
| Text.DecimalRoundTrip | server/src/routes/locations.ts:154 | Reading back `String(n)` as decimal digits gives n |
| Exhibitions.ValidateCreate | server/src/routes/exhibitions.ts:180-211 | Accepts iff all four fields are given, start < end, the status is absent or one of the three, and artwork and location exist; each failure gives its own error in handler order; an absent status becomes `scheduled`, notes are trimmed or null |
| Exhibitions.ValidateUpdate | server/src/routes/exhibitions.ts:311-328 | Accepts iff all four fields are given, start < end, and the status is absent, empty or one of the three; no existence lookups; an absent or empty status means "keep the stored one" |
| Exhibitions.Blocks | server/src/routes/exhibitions.ts:217-226 | A row is counted by the conflict query: same location, status `scheduled` or `active`, and the three-clause test |
| Exhibitions.ConflictCount | server/src/routes/exhibitions.ts:217-226 | The count is zero exactly when no row other than the excluded one is a scheduled or active booking of the location that conflicts with the period |
| Exhibitions.PeriodTakenOnlyByCompleted | server/src/routes/exhibitions.ts:217-233 | With a zero conflict count, a row with the same location and period, which UNIQUE would refuse, must be `completed` |
| Exhibitions.WriteKeepsNoOverlap | server/src/routes/exhibitions.ts:228-238 | Writing a well-formed row whose conflict count, excluding its own id, is zero keeps the no-overlap invariant |
| Exhibitions.WriteBreaksNoOverlap | server/src/routes/exhibitions.ts:346-351 | A live row written with a positive conflict count would break the invariant, so the check is no stronger than needed |
| Exhibitions.CompletedWriteKeepsNoOverlap | server/src/routes/exhibitions.ts:220 | A completed row never breaks the invariant |
| Exhibitions.RemoveKeepsNoOverlap | server/src/routes/exhibitions.ts:423 | Deleting a row keeps the invariant |
| Exhibitions.OneLiveBookingPerDay | server/src/routes/exhibitions.ts:217-233 | Under the invariant, two live bookings of one location that both contain a day are the same booking |
| Exhibitions.SecondBookingScenario | server/src/routes/exhibitions.ts:217-233 | A booking over 06-01..06-10 blocks one over 06-05..06-15 while scheduled, and not once completed |
| Exhibitions.RowsBelow | server/src/routes/exhibitions.ts:20 | The table scan holds each stored row with id below n exactly once and nothing else |
| Exhibitions.Select | server/src/routes/exhibitions.ts:27-35 | A WHERE clause keeps each accepted row as often as it occurs and drops the others |
| Exhibitions.BeforeTotal | server/src/routes/exhibitions.ts:37 | Each ORDER BY relates any two rows one way or the other |
| Exhibitions.BeforeTransitive | server/src/routes/exhibitions.ts:37 | Each ORDER BY is transitive |
| Exhibitions.SortedCons | server/src/routes/exhibitions.ts:37 | A row ordered before all rows of a sorted result can lead it |
| Exhibitions.InsertSorted | server/src/routes/exhibitions.ts:37 | Inserting a row into a sorted result keeps it sorted and adds exactly that row |
| Exhibitions.SortRows | server/src/routes/exhibitions.ts:37 | ORDER BY returns a sorted permutation of its input |
| Exhibitions.ListFilter | server/src/routes/exhibitions.ts:21-35 | The joins keep rows whose artwork and location exist; a non-empty `status` keeps rows with that status text; `current` keeps rows whose period contains today |
| Exhibitions.ListExhibitions | server/src/routes/exhibitions.ts:7-39 | Scanning ids below a bound above every row id, GET /api/exhibitions returns each stored row with existing artwork and location, matching status and (with `current`) containing today, exactly once, by start date then creation, newest first |
| Exhibitions.CurrentExhibitions | server/src/routes/exhibitions.ts:74-90 | Scanning ids below a bound above every row id, GET /api/exhibitions/current returns each stored, joined row whose period contains today exactly once, by ascending location id |
| Exhibitions.GetExhibition | server/src/routes/exhibitions.ts:124-144 | Returns the stored row iff it exists and its artwork and location join; NotFound otherwise |
| Locations.ValidateDimensions | server/src/routes/locations.ts:57-67 | Accepts iff both dimensions are given and in 1..1000; missing or non-positive is checked first, then too large |
| Locations.CheckAvailability | server/src/routes/locations.ts:85-118 | Missing dates are refused; otherwise the answer carries create's conflict count and `available` holds exactly when no non-excluded row blocks the period |
| Locations.AvailableIffNoSharedDay | server/src/routes/locations.ts:94-118 | For a well-formed table and period, `available` holds iff no other live booking of the location shares a day with it |
| Locations.AvailabilityAgreesWithCreate | server/src/routes/locations.ts:94-111 | For a create that passes validation, "not available" iff create's conflict count is positive |
| Locations.AvailabilityAgreesWithUpdate | server/src/routes/locations.ts:107-111 | With the booking's id excluded, "not available" iff update's conflict count for it is positive |
| Locations.PaddedMonthDigits | server/src/routes/locations.ts:154 | A month below 100 padded to two characters is two digits that denote the month |
| Locations.MonthTextYear | server/src/routes/locations.ts:154 | The `year-month` text starts with the year's digits and a dash, and those digits read back as the year |
| Locations.MonthTextMonth | server/src/routes/locations.ts:154 | For a month below 100 the text ends in exactly two digits after the dash, and they denote the month |
| Locations.MonthText | server/src/routes/locations.ts:154 | The `year-month` text: the year, a dash, and the month padded to two digits |
| Locations.InMonth | server/src/routes/locations.ts:147-151 | The month clause: the start's month or the end's month is the target, or `start <= YYYY-MM-31 && end >= YYYY-MM-01` |
| Locations.MonthClausesRedundant | server/src/routes/locations.ts:147-151 | For a well-formed booking with real day numbers, the month clause holds iff the booking shares a day with days 01..31 of the month |
| Locations.Schedule | server/src/routes/locations.ts:126-160 | Scanning ids below a bound above every row id, returns each stored booking of the location whose artwork exists, restricted to the month when both year and month are given, exactly once, by ascending start |
| Artworks.ValidateArtwork | server/src/routes/artworks.ts:43-52 | Accepts iff title and artist are given and non-empty before trimming; stores both trimmed and the URL trimmed or null |
| Artworks.ValidateArtworkStable | server/src/routes/artworks.ts:83-93 | Saving the stored values of an artwork again, when non-empty, stores the same values |
| Artworks.BlankTitleStoredEmpty | server/src/routes/artworks.ts:43-51 | A title of spaces passes validation and is stored as "" |
| Artworks.Referenced | server/src/database.ts:76 | Some booking of any status names the artwork, so the foreign key refuses its `DELETE` |
| Artworks.LiveReferenceCount | server/src/routes/artworks.ts:116-119 | The guard's count is zero exactly when every booking of the artwork is `completed` |
| Artworks.ReleasingLastBookingUnblocks | server/src/routes/artworks.ts:116-125 | Deleting or completing the only live booking of an artwork brings the count to zero |
| Store.NewExhibition | server/src/routes/exhibitions.ts:235-238 | The inserted row: the next id, the validated fields, the status given or `scheduled`, `now` for both timestamps |
| Store.RevisedExhibition | server/src/routes/exhibitions.ts:353-358 | The updated row: the new fields, the stored status when none is given, `updated_at = now`, id and `created_at` kept |
| Store.UpdateRefused | server/src/database.ts:76-78 | SQLite refuses the `UPDATE`: a foreign key names a missing artwork or location, or another row has the same location and period |
| Store.ScanCoversTable | server/src/database.ts:66-67 | In a consistent database rows are keyed by id and the AUTOINCREMENT counter lies above every id, so the queries' scan reads the whole table |
| Store.GetNotFoundIffMissing | server/src/routes/exhibitions.ts:124-144 | In a consistent database the joins never drop a stored booking: the answer is the booking when it exists, NotFound exactly when it does not |
| Store.ArtworkWriteKeepsConsistent | server/src/routes/artworks.ts:48-51 | Storing an artwork row under its id below the counter keeps the database invariant |
| Store.ArtworkRemoveKeepsConsistent | server/src/routes/artworks.ts:127 | Deleting an artwork no booking names keeps the invariant |
| Store.LocationWriteKeepsConsistent | server/src/routes/locations.ts:69-73 | Rewriting an existing location keeps the invariant |
| Store.ExhibitionWriteKeepsConsistent | server/src/routes/exhibitions.ts:228-238 | Writing a well-formed booking with existing artwork and location and a zero conflict count keeps the invariant |
| Store.ExhibitionRemoveKeepsConsistent | server/src/routes/exhibitions.ts:423 | Deleting a booking keeps the invariant |
| Store.Gallery.constructor | server/src/database.ts:53-62 | A database holding the given locations, no artworks or bookings, counters at 1, satisfying the invariant |
| Store.Gallery.CreateExhibition | server/src/routes/exhibitions.ts:178-290 | Validation errors, then Conflict when the count is positive, then the UNIQUE refusal, each with no change; otherwise exactly one new row with the next id, the validated fields and `now` timestamps; invariant kept |
| Store.Gallery.UpdateExhibition | server/src/routes/exhibitions.ts:293-410 | NotFound, then Stale on a mismatched supplied token, then validation, then Conflict excluding itself, then foreign-key or UNIQUE refusal, each with no change; otherwise only that row changes, to the new fields with the old status kept when none is given and `updated_at = now` |
| Store.Gallery.DeleteExhibition | server/src/routes/exhibitions.ts:413-430 | NotFound for a missing id; otherwise exactly that row is removed; invariant kept |
| Store.Gallery.UpdateLocation | server/src/routes/locations.ts:38-82 | NotFound, then Stale, then the dimension errors, each with no change; otherwise only that row's width, height, description (trimmed or null) and `updated_at` change |
| Store.Gallery.CreateArtwork | server/src/routes/artworks.ts:38-56 | Missing title or artist gives a validation error with no change; otherwise exactly one new row with the next id and the trimmed values |
| Store.Gallery.InsertArtwork | server/src/routes/artworks.ts:48-51 | The INSERT adds exactly one row under the next id, advances the counter and keeps the invariant |
| Store.Gallery.UpdateArtwork | server/src/routes/artworks.ts:63-102 | NotFound, then Stale, then the title/artist check, each with no change; otherwise only that row's title, artist, URL and `updated_at` change |
| Store.Gallery.DeleteArtwork | server/src/routes/artworks.ts:105-134 | NotFound; ReferenceBlocked while a scheduled or active booking names it; a foreign-key refusal when only completed bookings name it; otherwise exactly that artwork is removed |
| Scenarios.Setup | server/src/routes/artworks.ts:38-56 | Creating the first artwork in a fresh database gives it id 1 |
| Scenarios.Booked | server/src/routes/exhibitions.ts:178-240 | The first booking gets id 1, status `scheduled` and `now` as both timestamps |
| Scenarios.DoubleBooking | server/src/routes/exhibitions.ts:228-233 | An overlapping second booking of a scheduled location is refused with Conflict |
| Scenarios.Closed | server/src/routes/exhibitions.ts:353-358 | Marking the booking completed with its current token rewrites it with the new `updated_at` |
| Scenarios.BookingAfterCompletion | server/src/routes/exhibitions.ts:217-240 | Once the first booking is completed the overlapping booking is accepted with id 2 |
| Scenarios.StaleWrite | server/src/routes/exhibitions.ts:305-309 | A save carrying a token older than the last write is refused as Stale |
| Scenarios.RetriedWrite | server/src/routes/exhibitions.ts:305-358 | Saving again with the current token succeeds and returns the new token |
| Scenarios.DeleteBookedArtwork | server/src/routes/artworks.ts:116-125 | An artwork with a scheduled booking cannot be deleted |
| Scenarios.DeleteArtworkOfCompletedBooking | server/src/routes/artworks.ts:121-127 | With only a completed booking the guard passes but the foreign key refuses the delete |
| Scenarios.DeleteArtworkAfterBookingRemoved | server/src/routes/exhibitions.ts:413-430 | After its booking is deleted the artwork can be deleted |

## Left out

- HTTP and JSON: Express routing, status codes and the reshaping of joined rows into nested
  `artwork`/`location` objects (server/src/routes/exhibitions.ts:42-64 and its copies). Queries
  return the stored rows; the joins appear only as the filter that drops rows without an
  artwork or location.
- Transactions and concurrency: `BEGIN TRANSACTION`/`COMMIT`/`ROLLBACK`, WAL mode and
  `busy_timeout`. Each method runs atomically. That is an assumption the source does not
  fully secure, and requests that interleave are not modelled:
  - Only the conflict check and the write of an exhibition create or update run inside a
    transaction (server/src/routes/exhibitions.ts:214-240, :331-360).
  - Create's artwork and location lookups (:202-211) run before `BEGIN`. So do update's
    existence read and optimistic-lock check (:299-309).
  - The location update (server/src/routes/locations.ts:44-73) and the artwork update and
    delete (server/src/routes/artworks.ts:70-93, :110-127) use no transaction, and all
    requests share one connection (server/src/database.ts:7).
  - Lost update: two PUTs to the same location or artwork carrying the same token can both
    pass the lock check (locations.ts:50, artworks.ts:76), and the later write silently
    overwrites the earlier one. The model's methods, run one after another, refuse the
    second as Stale.
- The clock: `CURRENT_TIMESTAMP` and `date('now')` become the `now` and `today` parameters.
  SQLite's timestamps have one-second resolution, so two writes in the same second share a
  token; the model gives each write the `now` it is passed and does not capture that collision.
- Date parsing: `new Date(start_date) >= new Date(end_date)` is compared as integers. Unparsable
  dates (which give `NaN` and pass the check) and dates that are not four-digit-year ISO strings
  are not modelled.
- Request field types: every field has the type its column expects. A number where a string
  is expected (so `trim` throws and the handler answers 500), or a string width compared
  with `> 1000`, is not modelled.
- An explicit JSON `null` status on create: JavaScript's default parameter applies only to
  `undefined`, so `null` fails the status check. The model has only "absent" (the default
  applies) and text values.
- Locations.MonthTextMonth: stated only for months below 100; a longer month text does not
  match the two-digit `%m` of SQLite and selects no row by the first two clauses.
- Locations.Schedule: `strftime('%Y-%m', d)` is modelled as the integer `YYYYMM` of the date
  key, which is what the padded month text denotes for four-digit years and months below 100.
- Exhibitions.ListExhibitions: SQL leaves the order of rows that tie on every ORDER BY key
  unspecified; the model fixes one order (by id) and states only sortedness and contents. The
  same applies to Exhibitions.CurrentExhibitions and Locations.Schedule.
- Listing and fetching artworks and locations (GET routes of artworks.ts and locations.ts
  outside the core ranges): plain `SELECT`s with no logic.
- server/src/database.ts beyond the schema: seed data, table creation callbacks and the promise
  wrappers; the constructor starts from given locations since no route creates one.
- server/src/routes/database.ts, server/src/app.ts and the client are not part of this model.
