/**
 * Already-parsed timestamps. The source parses `YYYY-MM-DD` strings and
 * `YYYY-MM-DD HH:MM:SS` strings into datetime values; here a timestamp is the
 * parsed value itself, ordered the way datetime values compare
 * (lexicographically on year, month, day, hour, minute, second).
 */
module Dates {

  /** A calendar day. */
  datatype Date = Date(year: nat, month: nat, day: nat)

  /** A parsed timestamp; a date-only string parses to midnight of that day. */
  datatype DateTime = DateTime(date: Date, hour: nat, minute: nat, second: nat)

  /** Strict order on days. */
  predicate DateBefore(a: Date, b: Date)
  {
    a.year < b.year ||
    (a.year == b.year && (a.month < b.month || (a.month == b.month && a.day < b.day)))
  }

  /** Strict order on timestamps: `a < b` on datetime values. */
  predicate Before(a: DateTime, b: DateTime)
  {
    DateBefore(a.date, b.date) ||
    (a.date == b.date &&
      (a.hour < b.hour ||
      (a.hour == b.hour && (a.minute < b.minute || (a.minute == b.minute && a.second < b.second)))))
  }

  /** The value a date-only string parses to. */
  function Midnight(d: Date): DateTime
  {
    DateTime(d, 0, 0, 0)
  }

  /** Keeping the first ten characters of a timestamp string and parsing them: the time of day is dropped. */
  function Truncate(t: DateTime): DateTime
  {
    Midnight(t.date)
  }

  /** Comparing truncated timestamps against a midnight compares days. */
  lemma TruncatedAfter(cutoff: Date, t: DateTime)
    ensures Before(Midnight(cutoff), Truncate(t)) <==> DateBefore(cutoff, t.date)
  {
  }

  /** `Before` is a strict total order. */
  lemma BeforeIsStrictOrder(a: DateTime, b: DateTime, c: DateTime)
    ensures !Before(a, a)
    ensures Before(a, b) && Before(b, c) ==> Before(a, c)
    ensures Before(a, b) || a == b || Before(b, a)
  {
  }
}
