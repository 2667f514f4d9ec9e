/** The rows of the three tables created at server/src/database.ts:40-80.
    Identifiers are SQLite row ids; dates are YYYYMMDD integers (see module
    Interval); `created_at`/`updated_at` are the integer value of the injected
    clock `now` at the time of the write. */
module Schema {
  import opened Common

  /** The three booking states of server/src/routes/exhibitions.ts:195. */
  datatype Status = Scheduled | Active | Completed

  /** The text stored in the `status` column. */
  function StatusText(s: Status): string {
    match s
    case Scheduled => "scheduled"
    case Active => "active"
    case Completed => "completed"
  }

  /** `['scheduled', 'active', 'completed'].includes(text)`, returning the
      status named. */
  function ParseStatus(text: string): (r: Option<Status>)
    ensures r.Some? ==> StatusText(r.value) == text
    ensures r.None? ==> forall s: Status :: StatusText(s) != text
  {
    if text == "scheduled" then Some(Scheduled)
    else if text == "active" then Some(Active)
    else if text == "completed" then Some(Completed)
    else None
  }

  /** Parsing the stored text of a status gives the status back. */
  lemma ParseStatusText(s: Status)
    ensures ParseStatus(StatusText(s)) == Some(s)
  {
  }

  /** `status IN ('scheduled', 'active')`: the bookings that hold their
      location and their artwork; `completed` rows never block. */
  predicate Blocking(s: Status) {
    s == Scheduled || s == Active
  }

  datatype Artwork = Artwork(
    id: nat,
    title: string,
    artist: string,
    detailUrl: Option<string>,
    createdAt: int,
    updatedAt: int)

  datatype Location = Location(
    id: nat,
    width: int,
    height: int,
    description: Option<string>,
    createdAt: int,
    updatedAt: int)

  datatype Exhibition = Exhibition(
    id: nat,
    artworkId: nat,
    locationId: nat,
    start: int,
    end: int,
    status: Status,
    notes: Option<string>,
    createdAt: int,
    updatedAt: int)

  /** Every exhibition row names an existing artwork and location: the
      foreign keys of server/src/database.ts:76-77, enforced because of the
      pragma at server/src/database.ts:19. */
  ghost predicate ReferencesResolve(exhibitions: map<nat, Exhibition>, artworks: map<nat, Artwork>,
                                    locations: map<nat, Location>)
  {
    forall k :: k in exhibitions ==>
      exhibitions[k].artworkId in artworks && exhibitions[k].locationId in locations
  }
}
