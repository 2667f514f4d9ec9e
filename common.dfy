/** Shared vocabulary of the gallery server's route handlers: optional values,
    the typed outcomes that the handlers turn into HTTP status codes, and the
    optimistic-lock test that all three update routes perform. */
module Common {

  /** A request field or column that may be absent (`undefined`/`null`). */
  datatype Option<+T> = None | Some(value: T) {
    function GetOr(default: T): T {
      match this
      case Some(v) => v
      case None => default
    }
  }

  /** Why a request was answered with HTTP 400 before anything was written. */
  datatype Invalid =
    | MissingField           // exhibitions.ts:183, :312
    | StartNotBeforeEnd      // exhibitions.ts:189, :318
    | UnknownStatus          // exhibitions.ts:195, :324
    | NoSuchArtwork          // exhibitions.ts:203
    | NoSuchLocation         // exhibitions.ts:209
    | MissingDates           // locations.ts:90
    | DimensionsNotPositive  // locations.ts:57
    | DimensionsTooLarge     // locations.ts:63
    | MissingTitleOrArtist   // artworks.ts:43, :83

  /** The failure kinds the handlers distinguish. */
  datatype Error =
    | Validation(reason: Invalid)  // 400
    | NotFound                     // 404
    | Conflict                     // 409: the booking overlaps a live booking
    | Stale                        // 409: the optimistic lock rejected the write
    | ReferenceBlocked             // 400: the artwork is still booked
    | ConstraintViolation          // 500: SQLite refused the write (foreign key or UNIQUE)

  datatype Result<+T> = Ok(value: T) | Err(error: Error)

  /** The optimistic-lock test of server/src/routes/exhibitions.ts:305,
      locations.ts:50 and artworks.ts:76: a supplied token must equal the
      stored `updated_at`; an absent (or empty) token skips the test. */
  predicate TokenAccepted(supplied: Option<int>, stored: int) {
    supplied.None? || supplied.value == stored
  }
}
