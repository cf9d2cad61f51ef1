/**
 * Shared vocabulary of the dashboard's server handlers and pages: optional
 * values, validation issues, JSON replies with a status code, the principal
 * carried by a session token, and UTC timestamps.
 */
module Common {

  datatype Option<T> = None | Some(value: T)

  /** One segment of a validation issue's path: an object key or an array index. */
  datatype PathSegment = Key(name: string) | Index(position: nat)

  /** One failed check reported by a schema: where it failed and why. */
  datatype Issue = Issue(path: seq<PathSegment>, message: string)

  /**
   * A handler's JSON reply. A failure carries its status code, the `message`
   * field and (for 400 replies) the validation issues; a success carries its
   * status code and its body.
   */
  datatype Response<T> =
    | Failure(status: int, message: string, errors: seq<Issue>)
    | Success(status: int, body: T)

  /** The identity embedded in a verified session token (`TokenPayload`). */
  datatype Principal = Principal(userId: string, email: string, role: string)

  /**
   * A stored timestamp, broken into its UTC calendar fields: `month` is what
   * the database's `$month` operator extracts.
   */
  datatype DateTime = DateTime(year: int, month: int, day: int, millisOfDay: int)

  predicate ValidDate(d: DateTime)
  {
    1 <= d.month <= 12 && 1 <= d.day <= 31 && 0 <= d.millisOfDay < MillisPerDay
  }

  const MillisPerDay: int := 86_400_000

  /**
   * An integer that orders valid timestamps chronologically; sorting on
   * `createdAt` sorts on this key.
   */
  function Chrono(d: DateTime): int
  {
    DayIndex(d) * MillisPerDay + d.millisOfDay
  }

  /** Lexicographic order on the calendar day. */
  predicate DayBefore(a: DateTime, b: DateTime)
  {
    a.year < b.year
    || (a.year == b.year && a.month < b.month)
    || (a.year == b.year && a.month == b.month && a.day < b.day)
  }

  predicate SameDay(a: DateTime, b: DateTime)
  {
    a.year == b.year && a.month == b.month && a.day == b.day
  }

  /** Lexicographic order on all calendar fields. */
  predicate Before(a: DateTime, b: DateTime)
  {
    DayBefore(a, b) || (SameDay(a, b) && a.millisOfDay < b.millisOfDay)
  }

  /** The key really is chronological: an earlier valid timestamp has a smaller key. */
  lemma ChronoMonotone(a: DateTime, b: DateTime)
    requires ValidDate(a) && ValidDate(b)
    ensures Before(a, b) <==> Chrono(a) < Chrono(b)
  {
    var da := DayIndex(a);
    var db := DayIndex(b);
    DayIndexMonotone(a, b);
    if da < db {
      assert (da + 1) * MillisPerDay <= db * MillisPerDay;
    } else if db < da {
      assert (db + 1) * MillisPerDay <= da * MillisPerDay;
    }
  }

  function DayIndex(d: DateTime): int
  {
    (d.year * 12 + (d.month - 1)) * 31 + (d.day - 1)
  }

  lemma DayIndexMonotone(a: DateTime, b: DateTime)
    requires ValidDate(a) && ValidDate(b)
    ensures DayIndex(a) < DayIndex(b) <==> DayBefore(a, b)
    ensures DayIndex(a) == DayIndex(b) <==> SameDay(a, b)
  {
    var ma := a.year * 12 + (a.month - 1);
    var mb := b.year * 12 + (b.month - 1);
    if a.year < b.year {
      assert (a.year + 1) * 12 <= b.year * 12;
    } else if b.year < a.year {
      assert (b.year + 1) * 12 <= a.year * 12;
    }
    if ma < mb {
      assert (ma + 1) * 31 <= mb * 31;
    } else if mb < ma {
      assert (mb + 1) * 31 <= ma * 31;
    }
  }
}
