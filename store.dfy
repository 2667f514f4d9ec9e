/** The three tables of the gallery database and the route handlers that
    write them. Each method is one request handled start to finish, and a
    method body runs without interleaving. The handlers do not secure that:
    only the conflict check and the write of an exhibition create or update
    sit inside `BEGIN TRANSACTION`/`COMMIT`, while the lookups and the
    optimistic-lock check before them, and the whole of the location and
    artwork writes, run outside any transaction. */
module Store {
  import opened Common
  import opened Text
  import opened Schema
  import opened Exhibitions
  import opened Locations
  import opened Artworks

  /** The row the `INSERT` of exhibitions.ts:235-238 adds: the next row id,
      the validated fields, and `now` for both timestamps. */
  function NewExhibition(id: nat, f: Fields, now: int): Exhibition {
    Exhibition(id, f.artworkId, f.locationId, f.start, f.end, f.status.GetOr(Scheduled), f.notes, now, now)
  }

  /** The row after the `UPDATE` of exhibitions.ts:353-358: the new fields,
      the old status when none was supplied, a fresh `updated_at`. */
  function RevisedExhibition(x: Exhibition, f: Fields, now: int): Exhibition {
    x.(artworkId := f.artworkId, locationId := f.locationId, start := f.start, end := f.end,
       status := f.status.GetOr(x.status), notes := f.notes, updatedAt := now)
  }

  /** SQLite refuses the `UPDATE` of an exhibition: a foreign key names a
      missing artwork or location, or another row has the same location and
      period. */
  predicate UpdateRefused(exhibitions: map<nat, Exhibition>, artworks: map<nat, Artwork>,
                          locations: map<nat, Location>, id: nat, f: Fields)
  {
    || f.artworkId !in artworks
    || f.locationId !in locations
    || PeriodTaken(exhibitions, f.locationId, f.start, f.end, Some(id))
  }

  /** The database invariant: rows are stored under their ids, ids are below
      the next AUTOINCREMENT values, every booking has `start < end` and names
      an existing artwork and location, and no two live bookings of a location
      overlap. */
  ghost predicate Consistent(artworks: map<nat, Artwork>, locations: map<nat, Location>,
                             exhibitions: map<nat, Exhibition>, nextArtworkId: nat, nextExhibitionId: nat)
  {
    && (forall k :: k in artworks ==> artworks[k].id == k && k < nextArtworkId)
    && (forall k :: k in locations ==> locations[k].id == k)
    && (forall k :: k in exhibitions ==> k < nextExhibitionId)
    && WellFormed(exhibitions)
    && NoOverlap(exhibitions)
    && ReferencesResolve(exhibitions, artworks, locations)
  }

  /** Storing an artwork row under its own id, below the (possibly advanced)
      counter, keeps the invariant. */
  lemma ArtworkWriteKeepsConsistent(artworks: map<nat, Artwork>, locations: map<nat, Location>,
                                    exhibitions: map<nat, Exhibition>, nextArtworkId: nat, nextExhibitionId: nat,
                                    k: nat, a: Artwork, n: nat)
    requires Consistent(artworks, locations, exhibitions, nextArtworkId, nextExhibitionId)
    requires a.id == k && k < n && nextArtworkId <= n
    ensures Consistent(artworks[k := a], locations, exhibitions, n, nextExhibitionId)
  {
  }

  /** Deleting an artwork that no booking names keeps the invariant. */
  lemma ArtworkRemoveKeepsConsistent(artworks: map<nat, Artwork>, locations: map<nat, Location>,
                                     exhibitions: map<nat, Exhibition>, nextArtworkId: nat, nextExhibitionId: nat,
                                     id: nat)
    requires Consistent(artworks, locations, exhibitions, nextArtworkId, nextExhibitionId)
    requires !Referenced(exhibitions, id)
    ensures Consistent(artworks - {id}, locations, exhibitions, nextArtworkId, nextExhibitionId)
  {
  }

  /** Storing a location row under its own id keeps the invariant. */
  lemma LocationWriteKeepsConsistent(artworks: map<nat, Artwork>, locations: map<nat, Location>,
                                     exhibitions: map<nat, Exhibition>, nextArtworkId: nat, nextExhibitionId: nat,
                                     l: Location)
    requires Consistent(artworks, locations, exhibitions, nextArtworkId, nextExhibitionId)
    requires l.id in locations
    ensures Consistent(artworks, locations[l.id := l], exhibitions, nextArtworkId, nextExhibitionId)
  {
  }

  /** Storing a booking under its own id, below the (possibly advanced)
      counter, keeps the invariant when its period is well formed, its artwork
      and location exist, and the conflict count without the row itself is
      zero. */
  lemma {:induction false} ExhibitionWriteKeepsConsistent(artworks: map<nat, Artwork>, locations: map<nat, Location>,
                                                          exhibitions: map<nat, Exhibition>, nextArtworkId: nat,
                                                          nextExhibitionId: nat, k: nat, x: Exhibition, n: nat)
    requires Consistent(artworks, locations, exhibitions, nextArtworkId, nextExhibitionId)
    requires x.id == k && k < n && nextExhibitionId <= n
    requires x.start < x.end && x.artworkId in artworks && x.locationId in locations
    requires ConflictCount(exhibitions, x.locationId, x.start, x.end, Some(k)) == 0
    ensures Consistent(artworks, locations, exhibitions[k := x], nextArtworkId, n)
  {
    WriteKeepsNoOverlap(exhibitions, k, x);
  }

  /** Deleting a booking keeps the invariant. */
  lemma ExhibitionRemoveKeepsConsistent(artworks: map<nat, Artwork>, locations: map<nat, Location>,
                                        exhibitions: map<nat, Exhibition>, nextArtworkId: nat, nextExhibitionId: nat,
                                        id: nat)
    requires Consistent(artworks, locations, exhibitions, nextArtworkId, nextExhibitionId)
    ensures Consistent(artworks, locations, exhibitions - {id}, nextArtworkId, nextExhibitionId)
  {
    RemoveKeepsNoOverlap(exhibitions, id);
  }

  /** In a consistent database the AUTOINCREMENT counter is a scan bound for
      the list, current and schedule queries, and the rows are keyed by id, so
      their results hold every stored row that passes their filters. */
  lemma ScanCoversTable(artworks: map<nat, Artwork>, locations: map<nat, Location>,
                        exhibitions: map<nat, Exhibition>, nextArtworkId: nat, nextExhibitionId: nat)
    requires Consistent(artworks, locations, exhibitions, nextArtworkId, nextExhibitionId)
    ensures Bounds(exhibitions, nextExhibitionId) && Keyed(exhibitions)
  {
  }

  /** GET /api/exhibitions/:id on a consistent database: the foreign keys keep
      the inner joins from dropping a stored booking, so the answer is the
      booking when it exists and NotFound exactly when it does not. */
  lemma {:induction false} GetNotFoundIffMissing(artworks: map<nat, Artwork>, locations: map<nat, Location>,
                                                 exhibitions: map<nat, Exhibition>, nextArtworkId: nat,
                                                 nextExhibitionId: nat, id: nat)
    requires Consistent(artworks, locations, exhibitions, nextArtworkId, nextExhibitionId)
    ensures GetExhibition(exhibitions, artworks, locations, id)
            == if id in exhibitions then Ok(exhibitions[id]) else Err(NotFound)
  {
  }

  class Gallery {
    var artworks: map<nat, Artwork>
    var locations: map<nat, Location>
    var exhibitions: map<nat, Exhibition>
    /** The next AUTOINCREMENT row ids; ids are never reused. */
    var nextArtworkId: nat
    var nextExhibitionId: nat

    ghost predicate Valid()
      reads this
    {
      Consistent(artworks, locations, exhibitions, nextArtworkId, nextExhibitionId)
    }

    /** A database holding the given locations and no artworks or bookings
        (server/src/database.ts seeds the locations; there is no route that
        creates one). */
    constructor (sites: map<nat, Location>)
      requires forall k :: k in sites ==> sites[k].id == k
      ensures Valid()
      ensures locations == sites && artworks == map[] && exhibitions == map[]
      ensures nextArtworkId == 1 && nextExhibitionId == 1
    {
      artworks := map[];
      locations := sites;
      exhibitions := map[];
      nextArtworkId := 1;
      nextExhibitionId := 1;
    }

    /** POST /api/exhibitions (exhibitions.ts:178-290). */
    method CreateExhibition(req: Request, now: int) returns (r: Result<Exhibition>)
      requires Valid()
      modifies this`exhibitions, this`nextExhibitionId
      ensures Valid()
      ensures var v := ValidateCreate(req, artworks, locations);
              v.Err? ==>
                r == Err(v.error)
                && exhibitions == old(exhibitions) && nextExhibitionId == old(nextExhibitionId)
      ensures var v := ValidateCreate(req, artworks, locations);
              v.Ok? && ConflictCount(old(exhibitions), v.value.locationId, v.value.start, v.value.end, None) > 0
              ==>
                r == Err(Conflict)
                && exhibitions == old(exhibitions) && nextExhibitionId == old(nextExhibitionId)
      ensures var v := ValidateCreate(req, artworks, locations);
              v.Ok? && ConflictCount(old(exhibitions), v.value.locationId, v.value.start, v.value.end, None) == 0
              && PeriodTaken(old(exhibitions), v.value.locationId, v.value.start, v.value.end, None)
              ==>
                r == Err(ConstraintViolation)
                && exhibitions == old(exhibitions) && nextExhibitionId == old(nextExhibitionId)
      ensures var v := ValidateCreate(req, artworks, locations);
              v.Ok? && ConflictCount(old(exhibitions), v.value.locationId, v.value.start, v.value.end, None) == 0
              && !PeriodTaken(old(exhibitions), v.value.locationId, v.value.start, v.value.end, None)
              ==>
                && r == Ok(NewExhibition(old(nextExhibitionId), v.value, now))
                && old(nextExhibitionId) !in old(exhibitions)
                && exhibitions == old(exhibitions)[old(nextExhibitionId) := r.value]
                && nextExhibitionId == old(nextExhibitionId) + 1
    {
      var v := ValidateCreate(req, artworks, locations);
      if v.Err? {
        return Err(v.error);
      }
      var f := v.value;
      if ConflictCount(exhibitions, f.locationId, f.start, f.end, None) > 0 {
        return Err(Conflict);
      }
      if PeriodTaken(exhibitions, f.locationId, f.start, f.end, None) {
        return Err(ConstraintViolation);
      }
      var x := NewExhibition(nextExhibitionId, f, now);
      ExhibitionWriteKeepsConsistent(artworks, locations, exhibitions, nextArtworkId, nextExhibitionId,
                                     nextExhibitionId, x, nextExhibitionId + 1);
      exhibitions := exhibitions[nextExhibitionId := x];
      nextExhibitionId := nextExhibitionId + 1;
      r := Ok(x);
    }

    /** PUT /api/exhibitions/:id (exhibitions.ts:293-410): existence, then the
        optimistic lock, then the fields, then the conflict count without the
        row itself, then the write. */
    method UpdateExhibition(id: nat, req: Request, token: Option<int>, now: int) returns (r: Result<Exhibition>)
      requires Valid()
      modifies this`exhibitions
      ensures Valid()
      ensures id !in old(exhibitions) ==> r == Err(NotFound) && exhibitions == old(exhibitions)
      ensures id in old(exhibitions) && !TokenAccepted(token, old(exhibitions)[id].updatedAt)
              ==> r == Err(Stale) && exhibitions == old(exhibitions)
      ensures id in old(exhibitions) && TokenAccepted(token, old(exhibitions)[id].updatedAt)
              && ValidateUpdate(req).Err?
              ==> r == Err(ValidateUpdate(req).error) && exhibitions == old(exhibitions)
      ensures var v := ValidateUpdate(req);
              id in old(exhibitions) && TokenAccepted(token, old(exhibitions)[id].updatedAt) && v.Ok?
              && ConflictCount(old(exhibitions), v.value.locationId, v.value.start, v.value.end, Some(id)) > 0
              ==> r == Err(Conflict) && exhibitions == old(exhibitions)
      ensures var v := ValidateUpdate(req);
              id in old(exhibitions) && TokenAccepted(token, old(exhibitions)[id].updatedAt) && v.Ok?
              && ConflictCount(old(exhibitions), v.value.locationId, v.value.start, v.value.end, Some(id)) == 0
              && UpdateRefused(old(exhibitions), artworks, locations, id, v.value)
              ==> r == Err(ConstraintViolation) && exhibitions == old(exhibitions)
      ensures var v := ValidateUpdate(req);
              id in old(exhibitions) && TokenAccepted(token, old(exhibitions)[id].updatedAt) && v.Ok?
              && ConflictCount(old(exhibitions), v.value.locationId, v.value.start, v.value.end, Some(id)) == 0
              && !UpdateRefused(old(exhibitions), artworks, locations, id, v.value)
              ==> r == Ok(RevisedExhibition(old(exhibitions)[id], v.value, now))
                  && exhibitions == old(exhibitions)[id := r.value]
      ensures r.Ok? ==> r.value.id == id && r.value.updatedAt == now
                        && r.value.createdAt == old(exhibitions)[id].createdAt
    {
      if id !in exhibitions {
        return Err(NotFound);
      }
      var existing := exhibitions[id];
      if !TokenAccepted(token, existing.updatedAt) {
        return Err(Stale);
      }
      var v := ValidateUpdate(req);
      if v.Err? {
        return Err(v.error);
      }
      var f := v.value;
      if ConflictCount(exhibitions, f.locationId, f.start, f.end, Some(id)) > 0 {
        return Err(Conflict);
      }
      if UpdateRefused(exhibitions, artworks, locations, id, f) {
        return Err(ConstraintViolation);
      }
      var x := RevisedExhibition(existing, f, now);
      ExhibitionWriteKeepsConsistent(artworks, locations, exhibitions, nextArtworkId, nextExhibitionId,
                                     id, x, nextExhibitionId);
      exhibitions := exhibitions[id := x];
      r := Ok(x);
    }

    /** DELETE /api/exhibitions/:id (exhibitions.ts:413-430). */
    method DeleteExhibition(id: nat) returns (r: Result<()>)
      requires Valid()
      modifies this`exhibitions
      ensures Valid()
      ensures id !in old(exhibitions) ==> r == Err(NotFound) && exhibitions == old(exhibitions)
      ensures id in old(exhibitions) ==> r == Ok(()) && exhibitions == old(exhibitions) - {id}
    {
      if id !in exhibitions {
        return Err(NotFound);
      }
      ExhibitionRemoveKeepsConsistent(artworks, locations, exhibitions, nextArtworkId, nextExhibitionId, id);
      exhibitions := exhibitions - {id};
      r := Ok(());
    }

    /** PUT /api/locations/:id (locations.ts:38-82). */
    method UpdateLocation(id: nat, width: Option<int>, height: Option<int>, description: Option<string>,
                          token: Option<int>, now: int)
      returns (r: Result<Location>)
      requires Valid()
      modifies this`locations
      ensures Valid()
      ensures id !in old(locations) ==> r == Err(NotFound) && locations == old(locations)
      ensures id in old(locations) && !TokenAccepted(token, old(locations)[id].updatedAt)
              ==> r == Err(Stale) && locations == old(locations)
      ensures id in old(locations) && TokenAccepted(token, old(locations)[id].updatedAt)
              && ValidateDimensions(width, height).Err?
              ==> r == Err(ValidateDimensions(width, height).error) && locations == old(locations)
      ensures id in old(locations) && TokenAccepted(token, old(locations)[id].updatedAt)
              && ValidateDimensions(width, height).Ok?
              ==> && r == Ok(old(locations)[id].(width := width.value, height := height.value,
                                                description := OptionalText(description), updatedAt := now))
                  && locations == old(locations)[id := r.value]
    {
      if id !in locations {
        return Err(NotFound);
      }
      var existing := locations[id];
      if !TokenAccepted(token, existing.updatedAt) {
        return Err(Stale);
      }
      var v := ValidateDimensions(width, height);
      if v.Err? {
        return Err(v.error);
      }
      var x := existing.(width := v.value.0, height := v.value.1,
                         description := OptionalText(description), updatedAt := now);
      LocationWriteKeepsConsistent(artworks, locations, exhibitions, nextArtworkId, nextExhibitionId, x);
      locations := locations[id := x];
      r := Ok(x);
    }

    /** POST /api/artworks (artworks.ts:38-56). */
    method CreateArtwork(title: Option<string>, artist: Option<string>, detailUrl: Option<string>, now: int)
      returns (r: Result<Artwork>)
      requires Valid()
      modifies this`artworks, this`nextArtworkId
      ensures Valid()
      ensures ValidateArtwork(title, artist, detailUrl).Err? ==>
                r == Err(ValidateArtwork(title, artist, detailUrl).error)
                && artworks == old(artworks) && nextArtworkId == old(nextArtworkId)
      ensures var v := ValidateArtwork(title, artist, detailUrl);
              v.Ok? ==>
                && r == Ok(Artwork(old(nextArtworkId), v.value.title, v.value.artist, v.value.detailUrl, now, now))
                && old(nextArtworkId) !in old(artworks)
                && artworks == old(artworks)[old(nextArtworkId) := r.value]
                && nextArtworkId == old(nextArtworkId) + 1
    {
      var v := ValidateArtwork(title, artist, detailUrl);
      if v.Err? {
        return Err(v.error);
      }
      var x := InsertArtwork(v.value, now);
      r := Ok(x);
    }

    /** The `INSERT` of artworks.ts:48-51 with validated values: the row gets
        the next id and both timestamps are `now`. */
    method InsertArtwork(f: ArtworkFields, now: int) returns (x: Artwork)
      requires Valid()
      modifies this`artworks, this`nextArtworkId
      ensures Valid()
      ensures x == Artwork(old(nextArtworkId), f.title, f.artist, f.detailUrl, now, now)
      ensures old(nextArtworkId) !in old(artworks)
      ensures artworks == old(artworks)[old(nextArtworkId) := x]
      ensures nextArtworkId == old(nextArtworkId) + 1
    {
      x := Artwork(nextArtworkId, f.title, f.artist, f.detailUrl, now, now);
      ArtworkWriteKeepsConsistent(artworks, locations, exhibitions, nextArtworkId, nextExhibitionId,
                                  nextArtworkId, x, nextArtworkId + 1);
      artworks := artworks[nextArtworkId := x];
      nextArtworkId := nextArtworkId + 1;
    }

    /** PUT /api/artworks/:id (artworks.ts:59-102): existence, then the
        optimistic lock, then the title and artist check, then the write. */
    method UpdateArtwork(id: nat, title: Option<string>, artist: Option<string>, detailUrl: Option<string>,
                         token: Option<int>, now: int)
      returns (r: Result<Artwork>)
      requires Valid()
      modifies this`artworks
      ensures Valid()
      ensures id !in old(artworks) ==> r == Err(NotFound) && artworks == old(artworks)
      ensures id in old(artworks) && !TokenAccepted(token, old(artworks)[id].updatedAt)
              ==> r == Err(Stale) && artworks == old(artworks)
      ensures id in old(artworks) && TokenAccepted(token, old(artworks)[id].updatedAt)
              && ValidateArtwork(title, artist, detailUrl).Err?
              ==> r == Err(ValidateArtwork(title, artist, detailUrl).error) && artworks == old(artworks)
      ensures var v := ValidateArtwork(title, artist, detailUrl);
              id in old(artworks) && TokenAccepted(token, old(artworks)[id].updatedAt) && v.Ok?
              ==> && r == Ok(old(artworks)[id].(title := v.value.title, artist := v.value.artist,
                                               detailUrl := v.value.detailUrl, updatedAt := now))
                  && artworks == old(artworks)[id := r.value]
    {
      if id !in artworks {
        return Err(NotFound);
      }
      var existing := artworks[id];
      if !TokenAccepted(token, existing.updatedAt) {
        return Err(Stale);
      }
      var v := ValidateArtwork(title, artist, detailUrl);
      if v.Err? {
        return Err(v.error);
      }
      var x := existing.(title := v.value.title, artist := v.value.artist,
                         detailUrl := v.value.detailUrl, updatedAt := now);
      ArtworkWriteKeepsConsistent(artworks, locations, exhibitions, nextArtworkId, nextExhibitionId,
                                  id, x, nextArtworkId);
      artworks := artworks[id := x];
      r := Ok(x);
    }

    /** DELETE /api/artworks/:id (artworks.ts:105-134): refused while a
        scheduled or active booking names the artwork; with only completed
        bookings left the guard passes, but the foreign key still refuses the
        `DELETE`. */
    method DeleteArtwork(id: nat) returns (r: Result<()>)
      requires Valid()
      modifies this`artworks
      ensures Valid()
      ensures id !in old(artworks) ==> r == Err(NotFound) && artworks == old(artworks)
      ensures id in old(artworks) && LiveReferenceCount(exhibitions, id) > 0
              ==> r == Err(ReferenceBlocked) && artworks == old(artworks)
      ensures id in old(artworks) && LiveReferenceCount(exhibitions, id) == 0 && Referenced(exhibitions, id)
              ==> r == Err(ConstraintViolation) && artworks == old(artworks)
      ensures id in old(artworks) && !Referenced(exhibitions, id)
              ==> r == Ok(()) && artworks == old(artworks) - {id}
    {
      if id !in artworks {
        return Err(NotFound);
      }
      if LiveReferenceCount(exhibitions, id) > 0 {
        return Err(ReferenceBlocked);
      }
      if Referenced(exhibitions, id) {
        return Err(ConstraintViolation);
      }
      ArtworkRemoveKeepsConsistent(artworks, locations, exhibitions, nextArtworkId, nextExhibitionId, id);
      artworks := artworks - {id};
      r := Ok(());
    }
  }
}
