/** Calendar dates, as the timestamps of the provider tables carry them. */
module Dates {

  type Month = m: int | 1 <= m <= 12 witness 1
  type Day = d: int | 1 <= d <= 31 witness 1

  datatype Date = Date(year: int, month: Month, day: Day)

  /** Chronological order: by year, then month, then day. */
  predicate Before(a: Date, b: Date) {
    a.year < b.year
    || (a.year == b.year && a.month < b.month)
    || (a.year == b.year && a.month == b.month && a.day < b.day)
  }

  /** A numeric sort key for a date. */
  function Key(d: Date): real {
    ((d.year * 13 + d.month) * 32 + d.day) as real
  }

  /** The key orders dates chronologically, and equal keys mean equal dates. */
  lemma KeyOrder(a: Date, b: Date)
    ensures Key(a) < Key(b) <==> Before(a, b)
    ensures Key(a) == Key(b) <==> a == b
  {
    if a.year < b.year {
      assert (a.year * 13 + a.month) * 32 + a.day <= a.year * 416 + 415;
      assert (b.year * 13 + b.month) * 32 + b.day >= b.year * 416 + 33;
    } else if a.year > b.year {
      assert (b.year * 13 + b.month) * 32 + b.day <= b.year * 416 + 415;
      assert (a.year * 13 + a.month) * 32 + a.day >= a.year * 416 + 33;
    }
  }
}
