/** The validation and the referential guard of server/src/routes/artworks.ts.
    The writes are Store.Gallery.CreateArtwork, UpdateArtwork and
    DeleteArtwork. */
module Artworks {
  import opened Common
  import opened Text
  import opened Schema

  /** The column values an artwork create or update writes. */
  datatype ArtworkFields = ArtworkFields(title: string, artist: string, detailUrl: Option<string>)

  /** `!title || !artist` (artworks.ts:43, :83) followed by the trimming of
      :51 and :91. The emptiness test runs on the untrimmed text, so a title
      made only of spaces passes and is stored as the empty string. */
  function ValidateArtwork(title: Option<string>, artist: Option<string>, detailUrl: Option<string>)
    : (r: Result<ArtworkFields>)
    ensures r.Ok? <==> title.Some? && title.value != "" && artist.Some? && artist.value != ""
    ensures r.Err? ==> r.error == Validation(MissingTitleOrArtist)
    ensures r.Ok? ==>
              && r.value.title == Trim(title.value) && r.value.artist == Trim(artist.value)
              && r.value.detailUrl == OptionalText(detailUrl)
  {
    if title.None? || title.value == "" || artist.None? || artist.value == "" then
      Err(Validation(MissingTitleOrArtist))
    else
      Ok(ArtworkFields(Trim(title.value), Trim(artist.value), OptionalText(detailUrl)))
  }

  /** Saving the stored values of an artwork again stores the same values. */
  lemma {:induction false} ValidateArtworkStable(title: string, artist: string, detailUrl: Option<string>)
    requires ValidateArtwork(Some(title), Some(artist), detailUrl).Ok?
    ensures var f := ValidateArtwork(Some(title), Some(artist), detailUrl).value;
            f.title != "" && f.artist != "" ==>
              ValidateArtwork(Some(f.title), Some(f.artist), f.detailUrl) == Ok(f)
  {
    TrimIdempotent(title);
    TrimIdempotent(artist);
    OptionalTextIdempotent(detailUrl);
  }

  /** A title of spaces passes validation and is stored empty. */
  lemma BlankTitleStoredEmpty()
    ensures ValidateArtwork(Some(" "), Some("A"), None) == Ok(ArtworkFields("", "A", None))
  {
    assert IsSpace(" "[0]);
    assert " "[1..] == [];
    assert TrimStart(" ") == [];
    assert !IsSpace("A"[0]);
    assert Trim("A") == "A";
  }

  /** The ids of the bookings that block deleting `artworkId`: the rows the
      count at artworks.ts:116-119 includes. */
  function LiveReferences(exhibitions: map<nat, Exhibition>, artworkId: nat): set<nat> {
    set k | k in exhibitions && exhibitions[k].artworkId == artworkId && Blocking(exhibitions[k].status)
  }

  /** `SELECT COUNT(*) ... WHERE artwork_id = ? AND status IN ('scheduled',
      'active')`: zero exactly when no scheduled or active booking names the
      artwork. Completed bookings are not counted. */
  function LiveReferenceCount(exhibitions: map<nat, Exhibition>, artworkId: nat): (n: nat)
    ensures n == 0 <==>
              forall k :: k in exhibitions && exhibitions[k].artworkId == artworkId
                          ==> exhibitions[k].status == Completed
  {
    var ids := LiveReferences(exhibitions, artworkId);
    assert forall k :: (k in exhibitions && exhibitions[k].artworkId == artworkId
                        && Blocking(exhibitions[k].status)) ==> k in ids;
    |ids|
  }

  /** Any booking of the artwork, of any status: the foreign key of
      server/src/database.ts:76 refuses the `DELETE` while one exists. */
  predicate Referenced(exhibitions: map<nat, Exhibition>, artworkId: nat) {
    exists k :: k in exhibitions && exhibitions[k].artworkId == artworkId
  }

  /** Removing the only live booking of an artwork, or marking it completed,
      brings the guard's count to zero. */
  lemma {:induction false} ReleasingLastBookingUnblocks(exhibitions: map<nat, Exhibition>, artworkId: nat, k: nat)
    requires LiveReferences(exhibitions, artworkId) == {k}
    ensures LiveReferenceCount(exhibitions - {k}, artworkId) == 0
    ensures LiveReferenceCount(exhibitions[k := exhibitions[k].(status := Completed)], artworkId) == 0
  {
    assert k in LiveReferences(exhibitions, artworkId);
    forall j | j in exhibitions && j != k && exhibitions[j].artworkId == artworkId
      ensures exhibitions[j].status == Completed
    {
      assert j !in LiveReferences(exhibitions, artworkId);
    }
  }
}
