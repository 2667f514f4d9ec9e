/** The booking-overlap test of the gallery server. Dates are calendar days
    written as the integer YYYYMMDD, so that integer order is the order in which
    SQLite compares the ISO date strings `YYYY-MM-DD`. */
module Interval {

  /** The three-clause closed-interval test that the conflict queries at
      server/src/routes/exhibitions.ts:221-225 and :339-343 and
      server/src/routes/locations.ts:98-102 apply to an existing row
      `[start, end]` and a candidate `[from, to]`: the existing row contains the
      candidate's first day, or its last day, or lies inside the candidate. */
  predicate Conflicts(start: int, end: int, from: int, to: int) {
    || (start <= from && end >= from)
    || (start <= to && end >= to)
    || (start >= from && end <= to)
  }

  /** The two closed intervals share at least one day. */
  predicate Intersects(start: int, end: int, from: int, to: int) {
    start <= to && end >= from
  }

  /** Every pair of intervals that share a day is caught by the three clauses,
      whatever their orientation. */
  lemma IntersectsImpliesConflicts(start: int, end: int, from: int, to: int)
    ensures Intersects(start, end, from, to) ==> Conflicts(start, end, from, to)
  {
  }

  /** For two well-formed intervals the three clauses are exactly the
      two-term test: bookings that merely touch on one day conflict. */
  lemma ConflictsIffIntersects(start: int, end: int, from: int, to: int)
    requires start <= end && from <= to
    ensures Conflicts(start, end, from, to) <==> start <= to && end >= from
  {
  }

  /** With a reversed candidate (`from > to`, which the availability query
      does not reject) the first clause reports a conflict on intervals that
      share no day. */
  lemma ReversedCandidateConflicts()
    ensures Conflicts(1, 5, 3, 0) && !Intersects(1, 5, 3, 0)
  {
  }

  /** On well-formed intervals the test does not depend on which one is the
      stored row. */
  lemma ConflictsSymmetric(start: int, end: int, from: int, to: int)
    requires start <= end && from <= to
    ensures Conflicts(start, end, from, to) <==> Conflicts(from, to, start, end)
  {
    ConflictsIffIntersects(start, end, from, to);
    ConflictsIffIntersects(from, to, start, end);
  }

  /** Every interval conflicts with itself (the third clause). */
  lemma ConflictsReflexive(start: int, end: int)
    ensures Conflicts(start, end, start, end)
  {
  }

  /** Boundaries are inclusive: `[1,5]` and `[5,9]` conflict, `[1,5]` and
      `[6,9]` do not. */
  lemma TouchingConflicts()
    ensures Conflicts(1, 5, 5, 9) && Conflicts(5, 9, 1, 5)
    ensures !Conflicts(1, 5, 6, 9) && !Conflicts(6, 9, 1, 5)
  {
  }
}
