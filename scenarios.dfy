/** Request sequences against a fresh database, each proved to end the way the
    handlers of server/src/routes/ make it end. Times are small integers
    standing for the successive values of `CURRENT_TIMESTAMP`. */
module Scenarios {
  import opened Common
  import opened Schema
  import opened Exhibitions
  import opened Store

  /** A database with location 7 and one artwork, id 1, of the given title
      and artist. */
  method Setup(title: string, artist: string) returns (g: Gallery)
    requires title != "" && artist != ""
    ensures fresh(g) && g.Valid()
    ensures 7 in g.locations && 1 in g.artworks && g.exhibitions == map[] && g.nextExhibitionId == 1
  {
    g := new Gallery(map[7 := Location(7, 100, 100, None, 0, 0)]);
    var a := g.CreateArtwork(Some(title), Some(artist), None, 1);
  }

  /** The same database after booking artwork 1 into location 7 over
      2024-06-01..2024-06-10 at time 2: the booking gets id 1, the default
      status `scheduled`, and token 2. */
  method Booked() returns (g: Gallery)
    ensures fresh(g) && g.Valid() && 7 in g.locations && 1 in g.artworks
    ensures g.exhibitions == map[1 := Exhibition(1, 1, 7, 20240601, 20240610, Scheduled, None, 2, 2)]
    ensures g.nextExhibitionId == 2
  {
    g := Setup("Wave", "Hokusai");
    var created := g.CreateExhibition(Request(Some(1), Some(7), Some(20240601), Some(20240610), None, None), 2);
  }

  /** A second booking of location 7 over 2024-06-05..2024-06-15 is refused
      while the first one is scheduled. */
  method DoubleBooking() returns (second: Result<Exhibition>)
    ensures second == Err(Conflict)
  {
    var g := Booked();
    assert 1 in ConflictIds(g.exhibitions, 7, 20240605, 20240615, None);
    second := g.CreateExhibition(Request(Some(1), Some(7), Some(20240605), Some(20240615), None, None), 3);
  }

  /** The booked database after booking 1 is marked completed at time 3,
      with the token it was read with. */
  method Closed() returns (g: Gallery)
    ensures fresh(g) && g.Valid() && 7 in g.locations && 1 in g.artworks
    ensures g.exhibitions == map[1 := Exhibition(1, 1, 7, 20240601, 20240610, Completed, None, 2, 3)]
    ensures g.nextExhibitionId == 2
  {
    g := Booked();
    var req := Request(Some(1), Some(7), Some(20240601), Some(20240610), Some("completed"), None);
    assert ValidateUpdate(req).value.status == Some(Completed);
    assert !UpdateRefused(g.exhibitions, g.artworks, g.locations, 1, ValidateUpdate(req).value);
    var closed := g.UpdateExhibition(1, req, Some(2), 3);
  }

  /** Once the first booking is marked completed, the same second booking is
      accepted and gets the next id. */
  method BookingAfterCompletion() returns (second: Result<Exhibition>)
    ensures second.Ok? && second.value.id == 2 && second.value.status == Scheduled
  {
    var g := Closed();
    assert ConflictCount(g.exhibitions, 7, 20240605, 20240615, None) == 0;
    assert !PeriodTaken(g.exhibitions, 7, 20240605, 20240615, None);
    second := g.CreateExhibition(Request(Some(1), Some(7), Some(20240605), Some(20240615), None, None), 4);
  }

  /** Two editors read booking 1 with token 2. The first moves its end date at
      time 3; the second then saves with the token it read and is told the row
      is stale. */
  method StaleWrite() returns (late: Result<Exhibition>)
    ensures late == Err(Stale)
  {
    var g := Booked();
    var req := Request(Some(1), Some(7), Some(20240601), Some(20240612), None, None);
    assert !UpdateRefused(g.exhibitions, g.artworks, g.locations, 1, ValidateUpdate(req).value);
    var first := g.UpdateExhibition(1, req, Some(2), 3);
    assert g.exhibitions == map[1 := Exhibition(1, 1, 7, 20240601, 20240612, Scheduled, None, 2, 3)];
    late := g.UpdateExhibition(1, req.(status := Some("active")), Some(2), 4);
  }

  /** After re-reading, the save with the current token succeeds and returns
      a new token. */
  method RetriedWrite() returns (retried: Result<Exhibition>)
    ensures retried.Ok? && retried.value.updatedAt == 4 && retried.value.status == Active
  {
    var g := Booked();
    var req := Request(Some(1), Some(7), Some(20240601), Some(20240612), None, None);
    assert !UpdateRefused(g.exhibitions, g.artworks, g.locations, 1, ValidateUpdate(req).value);
    var first := g.UpdateExhibition(1, req, Some(2), 3);
    assert g.exhibitions == map[1 := Exhibition(1, 1, 7, 20240601, 20240612, Scheduled, None, 2, 3)];
    assert ValidateUpdate(req.(status := Some("active"))).value.status == Some(Active);
    assert !UpdateRefused(g.exhibitions, g.artworks, g.locations, 1, ValidateUpdate(req.(status := Some("active"))).value);
    retried := g.UpdateExhibition(1, req.(status := Some("active")), Some(3), 4);
  }

  /** Artwork 1 with a scheduled booking cannot be deleted. */
  method DeleteBookedArtwork() returns (r: Result<()>)
    ensures r == Err(ReferenceBlocked)
  {
    var g := Booked();
    assert 1 in Artworks.LiveReferences(g.exhibitions, 1);
    r := g.DeleteArtwork(1);
  }

  /** Once its booking is completed the guard lets the delete through, but
      the foreign key refuses it. */
  method DeleteArtworkOfCompletedBooking() returns (r: Result<()>)
    ensures r == Err(ConstraintViolation)
  {
    var g := Closed();
    assert 1 in g.exhibitions && g.exhibitions[1].artworkId == 1;
    assert Artworks.Referenced(g.exhibitions, 1);
    r := g.DeleteArtwork(1);
  }

  /** Once its booking is deleted the artwork can be deleted. */
  method DeleteArtworkAfterBookingRemoved() returns (r: Result<()>)
    ensures r == Ok(())
  {
    var g := Booked();
    var removed := g.DeleteExhibition(1);
    assert g.exhibitions == map[];
    r := g.DeleteArtwork(1);
  }
}
