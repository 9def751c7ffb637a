/** Helpers of models/utils.py: header lookup and lenient date comparison. */
module Utils {
  import opened Wrappers

  /** Python's `list.index(x)`: the first position of `x`, or `None` where Python raises `ValueError`. */
  function IndexOf<T(==)>(s: seq<T>, x: T): (r: Option<nat>)
    ensures r.Some? ==> r.value < |s| && s[r.value] == x && x !in s[..r.value]
    ensures r.None? <==> x !in s
    decreases |s|
  {
    if s == [] then None
    else if s[0] == x then Some(0)
    else
      match IndexOf(s[1..], x)
      case None => None
      case Some(k) =>
        assert s[..k + 1] == [s[0]] + s[1..][..k];
        Some(k + 1)
  }

  /**
   * `find_column_index`, with the worksheet abstracted to its header row: the
   * 1-based column of the first header equal to `name`, or `None` when there is none.
   */
  function FindColumnIndex(headers: seq<string>, name: string): (r: Option<nat>)
    ensures r.Some? ==> 1 <= r.value <= |headers| && headers[r.value - 1] == name
    ensures r.Some? ==> forall j :: 0 <= j < r.value - 1 ==> headers[j] != name
    ensures r.None? <==> name !in headers
  {
    match IndexOf(headers, name)
    case None => None
    case Some(i) =>
      assert forall j :: 0 <= j < i ==> headers[..i][j] == headers[j];
      Some(i + 1)
  }

  /** A calendar date, the result of `datetime.date()`. */
  datatype Date = Date(year: int, month: int, day: int)

  /**
   * The two library parsers `parse_date_string` chooses between, kept abstract:
   * `iso` stands for `datetime.fromisoformat(...).date()` and `readable` for
   * `datetime.strptime(..., '%B %d, %Y').date()`; `None` stands for the exception
   * either raises on a string it does not accept.
   */
  datatype DateParsers = DateParsers(iso: string -> Option<Date>, readable: string -> Option<Date>)

  /** `s.replace('Z', '+00:00')`: every `Z` becomes the UTC offset. */
  function ReplaceZulu(s: string): (r: string)
    ensures 'Z' !in r
    ensures 'T' in r <==> 'T' in s
    ensures |r| >= |s|
    decreases |s|
  {
    if s == [] then []
    else (if s[0] == 'Z' then "+00:00" else [s[0]]) + ReplaceZulu(s[1..])
  }

  /** `parse_date_string`: the ISO parser for strings with a `T`, the readable one otherwise. */
  function ParseDateString(s: string, parsers: DateParsers): (r: Option<Date>)
    ensures 'T' in s ==> r == parsers.iso(ReplaceZulu(s))
    ensures 'T' !in s ==> r == parsers.readable(s)
  {
    if 'T' in s then parsers.iso(ReplaceZulu(s)) else parsers.readable(s)
  }

  /** Python truthiness of an optional string: neither `None` nor empty. */
  predicate Present(d: Option<string>)
  {
    d.Some? && d.value != ""
  }

  /**
   * `dates_match`: false when either side is missing or empty; the parsed dates'
   * equality when both parse; plain string equality when either fails to parse.
   */
  function DatesMatch(d1: Option<string>, d2: Option<string>, parsers: DateParsers): (r: bool)
    ensures !Present(d1) || !Present(d2) ==> !r
    ensures Present(d1) && Present(d2) ==>
      var p1, p2 := ParseDateString(d1.value, parsers), ParseDateString(d2.value, parsers);
      r == if p1.Some? && p2.Some? then p1.value == p2.value else d1.value == d2.value
  {
    if !Present(d1) || !Present(d2) then false
    else
      match (ParseDateString(d1.value, parsers), ParseDateString(d2.value, parsers))
      case (Some(a), Some(b)) => a == b
      case _ => d1.value == d2.value
  }

  /** Argument order does not matter. */
  lemma DatesMatchSymmetric(d1: Option<string>, d2: Option<string>, parsers: DateParsers)
    ensures DatesMatch(d1, d2, parsers) == DatesMatch(d2, d1, parsers)
  {
  }

  /** Every non-empty value matches itself, whether or not it parses. */
  lemma DatesMatchReflexive(d: Option<string>, parsers: DateParsers)
    requires Present(d)
    ensures DatesMatch(d, d, parsers)
  {
  }

  /**
   * Two different spellings of one day match: an ISO timestamp and a readable date
   * that the parsers read as the same date, as 2025-09-17T00:00:00.000Z and
   * September 17, 2025.
   */
  lemma DatesMatchAcrossFormats(iso: string, readable: string, parsers: DateParsers)
    requires 'T' in iso && 'T' !in readable && readable != ""
    requires parsers.iso(ReplaceZulu(iso)).Some?
    requires parsers.iso(ReplaceZulu(iso)) == parsers.readable(readable)
    ensures DatesMatch(Some(iso), Some(readable), parsers)
  {
    assert iso != "";
    assert ParseDateString(iso, parsers) == parsers.iso(ReplaceZulu(iso));
    assert ParseDateString(readable, parsers) == parsers.readable(readable);
  }
}
