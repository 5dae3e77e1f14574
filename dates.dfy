/**
 * The date rules of `DataPreprocessor.transform` (preprocessor.py): `day_since`, the
 * review-date columns and `host_tenure`. Dates are day numbers counted from 1970-01-01;
 * `pd.to_datetime` on one string is the parameter `parse`.
 */
module Dates {
  import opened Wrappers
  import opened Frames

  /** What `pd.to_datetime` makes of one string: a day, NaT (for the empty string) or a
      string it cannot read (NaT under `errors="coerce"`, a ValueError otherwise). */
  datatype DateParse = Parsed(day: int) | Null | Malformed

  /** The day number of a proleptic Gregorian date, counted from 1970-01-01. */
  function DaysFromCivil(y: int, m: int, d: int): int
    requires 1 <= m <= 12 && 1 <= d <= 31
  {
    var yy := if m <= 2 then y - 1 else y;
    var era := yy / 400;
    var yoe := yy - era * 400;
    var mp := (m + 9) % 12;
    var doy := (153 * mp + 2) / 5 + d - 1;
    var doe := yoe * 365 + yoe / 4 - yoe / 100 + doy;
    era * 146097 + doe - 719468
  }

  /** `most_recent_possible`, the reference date 2017-10-04 of `host_tenure`. */
  const ReferenceDay: int := 17443

  /** The fill value "2000-01-01" of the date imputers, as a day number. */
  const ImputedDay: int := 10957

  /** The two constants are the calendar dates the source names. */
  lemma CalendarAnchors()
    ensures DaysFromCivil(1970, 1, 1) == 0
    ensures DaysFromCivil(2000, 1, 1) == ImputedDay
    ensures DaysFromCivil(2017, 10, 4) == ReferenceDay
  {
  }

  /** `pd.to_datetime(c, errors="coerce")` for one cell: a day or NaT. */
  function Coerce(parse: string -> DateParse, c: Cell): (r: Option<int>)
    ensures c.Day? ==> r == Some(c.d)
    ensures c.Text? ==> (r.Some? <==> parse(c.s).Parsed?)
    ensures !c.Day? && !c.Text? ==> r == None
  {
    match c
    case Day(d) => Some(d)
    case Text(s) => if parse(s).Parsed? then Some(parse(s).day) else None
    case _ => None
  }

  /** `pd.to_datetime(c)` for one cell as the right operand of the `>=` at line 309: a day,
      NaT for an empty string (the comparison is then false), and a ValueError for a string
      it cannot read or a value that is not a date. A missing cell is None here, since the
      imputer gives None for an absent column and does not mask None in a present one;
      `pd.to_datetime(None)` is None, and comparing a Timestamp with it raises a TypeError. */
  function Strict(parse: string -> DateParse, c: Cell): (r: Result<Option<int>>)
    ensures r.Err? <==> (c.Text? && parse(c.s).Malformed?) || !(c.Text? || c.Day?)
    ensures r.Err? ==> r.error == if c.Missing? then TypeError else ValueError
    ensures r.Ok? ==> r.value == Coerce(parse, c)
  {
    match c
    case Day(d) => Ok(Some(d))
    case Missing => Err(TypeError)
    case Text(s) =>
      (match parse(s)
       case Parsed(d) => Ok(Some(d))
       case Null => Ok(None)
       case Malformed => Err(ValueError))
    case _ => Err(ValueError)
  }

  /** `day_since(start, end)`: the number of days from start to end when both parse, and -1
      otherwise; a negative gap is returned as it is. */
  function DaySince(parse: string -> DateParse, start: Cell, end: Cell): int {
    var s, e := Coerce(parse, start), Coerce(parse, end);
    if s.Some? && e.Some? then e.value - s.value else -1
  }

  /** `day_since` in the source's terms: the gap when both ends parse, -1 when either does
      not, no clamping, and zero from a date to itself. */
  lemma DaySinceCases(parse: string -> DateParse, start: Cell, end: Cell)
    ensures Coerce(parse, start).None? || Coerce(parse, end).None? ==> DaySince(parse, start, end) == -1
    ensures Coerce(parse, start).Some? && Coerce(parse, end).Some? ==>
      DaySince(parse, start, end) == Coerce(parse, end).value - Coerce(parse, start).value
    ensures Coerce(parse, start).Some? ==> DaySince(parse, start, start) == 0
  {
  }

  /** Without clamping, the sentinel -1 is also the gap of an end one day before its
      start, so -1 alone does not tell that a date was missing. */
  lemma DaySinceSentinelAmbiguous(parse: string -> DateParse)
    ensures DaySince(parse, Day(1), Day(0)) == -1
    ensures DaySince(parse, Missing, Day(0)) == -1
  {
  }

  /** `missing_review_dates` of one row (line 249), from the parsed review dates. */
  function MissingReviewDates(first: Option<int>, last: Option<int>): bool {
    first.None? || last.None?
  }

  /** `review_gap_days` of one row (lines 251-254): last minus first where both are
      present, -1 where the mask leaves the cell NaN. */
  function ReviewGap(first: Option<int>, last: Option<int>): int {
    if first.Some? && last.Some? then last.value - first.value else -1
  }

  /** The two review columns agree with each other and with `day_since`: a row is flagged
      exactly when a review date is missing, a flagged row has gap -1, and otherwise the
      gap is last minus first, as `days_between_reviews` computes it. */
  lemma ReviewColumnsAgree(parse: string -> DateParse, first: Cell, last: Cell)
    ensures var f, l := Coerce(parse, first), Coerce(parse, last);
      (MissingReviewDates(f, l) <==> f.None? || l.None?)
      && (MissingReviewDates(f, l) ==> ReviewGap(f, l) == -1)
      && (!MissingReviewDates(f, l) ==> ReviewGap(f, l) == l.value - f.value)
      && ReviewGap(f, l) == DaySince(parse, first, last)
  {
  }

  /** `host_tenure` of one row (lines 306-312): with a last review, `host_since` is parsed
      strictly and the tenure runs to the last review when that is not before it; in every
      other case it is `day_since(host_since, 2017-10-04)`. */
  function HostTenure(parse: string -> DateParse, hostSince: Cell, last: Option<int>): Result<int> {
    if last.Some? then
      var h :- Strict(parse, hostSince);
      if h.Some? && last.value >= h.value then Ok(DaySince(parse, hostSince, Day(last.value)))
      else Ok(DaySince(parse, hostSince, Day(ReferenceDay)))
    else Ok(DaySince(parse, hostSince, Day(ReferenceDay)))
  }

  /** The cases of `host_tenure`: an error only for an unreadable or None `host_since`
      next to a present last review, a TypeError for None and a ValueError otherwise; the
      non-negative gap to the last review when that is on or after
      the host date; otherwise the gap to the reference date, which is -1 for a host date
      that does not parse and is negative for one after 2017-10-04. */
  lemma HostTenureCases(parse: string -> DateParse, hostSince: Cell, last: Option<int>)
    ensures HostTenure(parse, hostSince, last).Err? <==>
      last.Some? && Strict(parse, hostSince).Err?
    ensures HostTenure(parse, hostSince, last).Err? <==>
      last.Some? && ((hostSince.Text? && parse(hostSince.s).Malformed?) || !(hostSince.Text? || hostSince.Day?))
    ensures last.Some? && hostSince.Missing? ==> HostTenure(parse, hostSince, last) == Err(TypeError)
    ensures HostTenure(parse, hostSince, last).Err? && !hostSince.Missing? ==>
      HostTenure(parse, hostSince, last) == Err(ValueError)
    ensures var h := Coerce(parse, hostSince);
      HostTenure(parse, hostSince, last).Ok? ==>
        HostTenure(parse, hostSince, last).value ==
          if h.None? then -1
          else if last.Some? && last.value >= h.value then last.value - h.value
          else ReferenceDay - h.value
    ensures var h := Coerce(parse, hostSince);
      last.Some? && h.Some? && last.value >= h.value ==>
        HostTenure(parse, hostSince, last).Ok? && HostTenure(parse, hostSince, last).value >= 0
  {
  }
}
