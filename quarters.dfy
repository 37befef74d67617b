/** The quarter resolver: the most recently closed calendar quarter, labelled
    "<year>Q<n>", for a given current date. Quarters end with March, June,
    September and December. */
module Quarters {
  import opened Wrappers
  import opened Text

  /** Quarter `number` of `year`; quarter n ends with month 3n. */
  datatype Quarter = Quarter(year: int, number: int)

  predicate ValidQuarter(q: Quarter) {
    1 <= q.number <= 4
  }

  /** Position of a quarter on the time line: consecutive quarters, including
      Q4 of one year and Q1 of the next, have consecutive indices. */
  function Index(q: Quarter): int {
    4 * q.year + q.number - 1
  }

  /** The quarter that month `month` lies in. */
  function Containing(year: int, month: int): (q: Quarter)
    requires 1 <= month <= 12
    ensures ValidQuarter(q) && q.year == year
    ensures 3 * q.number - 2 <= month <= 3 * q.number
  {
    Quarter(year, (month - 1) / 3 + 1)
  }

  /** The quarter has fully closed before month `month` of `year`: its last
      month comes strictly earlier. */
  predicate ClosedBefore(q: Quarter, year: int, month: int) {
    12 * q.year + 3 * q.number < 12 * year + month
  }

  /** The most recently completed quarter, for today's year and month. */
  function MostRecentQuarter(year: int, month: int): (q: Quarter)
    requires 1 <= month <= 12
    ensures ValidQuarter(q)
    ensures Index(q) == Index(Containing(year, month)) - 1
    ensures ClosedBefore(q, year, month)
    ensures forall p :: ValidQuarter(p) && ClosedBefore(p, year, month) ==> Index(p) <= Index(q)
  {
    if month <= 3 then Quarter(year - 1, 4)
    else if month <= 6 then Quarter(year, 1)
    else if month <= 9 then Quarter(year, 2)
    else Quarter(year, 3)
  }

  /** The month bands: January to March give Q4 of the previous year,
      every later month a quarter of the same year. */
  lemma MonthBands(year: int, month: int)
    requires 1 <= month <= 12
    ensures month <= 3 ==> MostRecentQuarter(year, month) == Quarter(year - 1, 4)
    ensures 4 <= month <= 6 ==> MostRecentQuarter(year, month) == Quarter(year, 1)
    ensures 7 <= month <= 9 ==> MostRecentQuarter(year, month) == Quarter(year, 2)
    ensures 10 <= month ==> MostRecentQuarter(year, month) == Quarter(year, 3)
    ensures MostRecentQuarter(year, month).year == year <==> month > 3
  {
  }

  /** "<year>Q<n>": the decimal year, the letter Q, the quarter digit. */
  function Label(q: Quarter): (s: string)
    requires q.year >= 0 && ValidQuarter(q)
    ensures |s| >= 3 && s[|s| - 2] == 'Q' && s[|s| - 1] == DigitChar(q.number)
    ensures s[..|s| - 2] == NatToString(q.year)
  {
    NatToString(q.year) + ['Q', DigitChar(q.number)]
  }

  /** Reads a label back; the inverse of `Label`. */
  function ParseLabel(s: string): Option<Quarter> {
    if |s| >= 3 && s[|s| - 2] == 'Q' && '1' <= s[|s| - 1] <= '4' && AllDigits(s[..|s| - 2])
    then Some(Quarter(ParseNat(s[..|s| - 2]), DigitValue(s[|s| - 1])))
    else None
  }

  lemma LabelRoundTrip(q: Quarter)
    requires q.year >= 0 && ValidQuarter(q)
    ensures ParseLabel(Label(q)) == Some(q)
  {
    ParseNatToString(q.year);
  }

  /** `get_most_recent_quarter`: today's date is the input. The year of a
      calendar date is at least 1, so the label's year is a natural. */
  function MostRecentQuarterLabel(year: int, month: int): (s: string)
    requires year >= 1 && 1 <= month <= 12
    ensures ParseLabel(s) == Some(MostRecentQuarter(year, month))
  {
    LabelRoundTrip(MostRecentQuarter(year, month));
    Label(MostRecentQuarter(year, month))
  }
}
