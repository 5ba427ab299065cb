/** Protocol version negotiation of lib/jsonrpc.js. `date` is the calendar reading of a version, if it has one. */
module Protocol {
  import opened Options

  type Version = string

  type Calendar = Version -> Option<int>

  /** `new Date(a) <= new Date(b)`: false when either is not a date. */
  predicate NotAfter(date: Calendar, a: Version, b: Version) {
    date(a).Some? && date(b).Some? && date(a).value <= date(b).value
  }

  /** The supported versions: dates, newest first. */
  predicate NewestFirst(date: Calendar, supported: seq<Version>) {
    && supported != []
    && (forall i :: 0 <= i < |supported| ==> date(supported[i]).Some?)
    && forall i, j :: 0 <= i < j < |supported| ==> date(supported[i]).value > date(supported[j]).value
  }

  /** A version the server does not know, but dated no later than its newest one. */
  predicate OldDate(date: Calendar, supported: seq<Version>, client: Version)
    requires supported != []
  {
    client != "" && client !in supported && NotAfter(date, client, supported[0])
  }

  /**
   * A known version is granted as asked; so, verbatim, is any unknown one dated no later than the newest. Only a
   * later date or no date at all falls back, to the newest and to the oldest version respectively: the search for
   * the closest earlier version never stops in between.
   */
  method NegotiateProtocolVersion(date: Calendar, supported: seq<Version>, client: Version) returns (granted: Version)
    requires NewestFirst(date, supported)
    ensures client != "" && (client in supported || OldDate(date, supported, client)) ==> granted == client
    ensures client == "" ==> granted == supported[0]
    ensures client != "" && client !in supported && !OldDate(date, supported, client) ==>
              granted == if date(client).Some? then supported[0] else supported[|supported| - 1]
    ensures granted in supported <==> !OldDate(date, supported, client)
  {
    if client == "" {
      return supported[0];
    }
    if client in supported {
      return client;
    }
    if NotAfter(date, client, supported[0]) {
      return client;
    }
    for i := 0 to |supported|
      invariant forall j :: 0 <= j < i ==> !NotAfter(date, supported[j], client)
    {
      if NotAfter(date, supported[i], client) {
        return supported[i];
      }
    }
    granted := supported[|supported| - 1];
  }

  // ---------------------------------------------------------------- the shipped list

  const SUPPORTED := ["2025-11-25", "2025-06-18", "2025-03-26", "2024-11-05"]

  function TwoDigits(a: char, b: char): Option<int> {
    if '0' <= a <= '9' && '0' <= b <= '9' then Some(10 * (a as int - '0' as int) + (b as int - '0' as int)) else None
  }

  /** Calendar dates as version names write them, numbered in their order. */
  function IsoDate(v: Version): Option<int> {
    if |v| == 10 && v[4] == '-' && v[7] == '-' then
      var century, year := TwoDigits(v[0], v[1]), TwoDigits(v[2], v[3]);
      var month, day := TwoDigits(v[5], v[6]), TwoDigits(v[8], v[9]);
      if century.Some? && year.Some? && month.Some? && day.Some? && 1 <= month.value <= 12 && 1 <= day.value <= 31
      then Some(1000000 * century.value + 10000 * year.value + 100 * month.value + day.value)
      else None
    else None
  }

  lemma SupportedDates()
    ensures IsoDate("2025-11-25") == Some(20251125) && IsoDate("2025-06-18") == Some(20250618)
    ensures IsoDate("2025-03-26") == Some(20250326) && IsoDate("2024-11-05") == Some(20241105)
  {
  }

  lemma NewYearDate()
    ensures IsoDate("2025-01-01") == Some(20250101)
  {
  }

  /** The shipped list is dated, newest first, and a client can name an unlisted date up to its newest. */
  lemma OldDateExists()
    ensures NewestFirst(IsoDate, SUPPORTED) && OldDate(IsoDate, SUPPORTED, "2025-01-01")
  {
    hide IsoDate;
    SupportedDates();
    NewYearDate();
  }
}
