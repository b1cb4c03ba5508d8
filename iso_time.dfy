/**
 * ISO-8601 timestamps as the trip planner handles them.  Parsing, the
 * time-zone database and `strftime` are not modelled: they are the
 * fields of an `IsoCodec` that every operation takes as a parameter.
 */
module IsoTime {
  import opened Wrappers
  import opened Text

  /** A parsed `datetime`: a count of seconds, and whether the text
      carried a UTC offset (an aware datetime) or not (a naive one, whose
      seconds are its wall-clock reading). */
  datatype Instant = Instant(seconds: int, aware: bool)

  /** What the model takes as given about timestamps:
      `parse` is `datetime.fromisoformat` (None where it raises
      ValueError), `render` is the conversion to Sydney time followed by
      `strftime("%Y-%m-%d %H:%M:%S %Z")`, `astimezone` is the instant that
      `astimezone(SYDNEY_TIMEZONE)` keeps (an aware datetime's own
      instant, a naive one read in the server's local zone), and
      `localize` is the instant of a naive datetime read as Sydney
      wall-clock time, as `SYDNEY_TIMEZONE.localize` does. */
  datatype IsoCodec = IsoCodec(
    parse: string -> Option<Instant>,
    render: Instant -> string,
    astimezone: Instant -> int,
    localize: Instant -> int)

  /** `s.replace('Z', '+00:00')`, done before every parse of an upstream
      timestamp. */
  function ReplaceZ(s: string): (r: string)
    ensures 'Z' !in s ==> r == s
    ensures 'Z' !in r
  {
    NoZAfterReplace(s);
    if 'Z' !in s then
      MissingFirstChar(s, "Z");
      s
    else ReplaceAll(s, "Z", "+00:00")
  }

  /** Replacing every `Z` leaves none behind. */
  lemma {:induction false} NoZAfterReplace(s: string)
    ensures 'Z' !in ReplaceAll(s, "Z", "+00:00")
    decreases |s|
  {
    if s != [] {
      NoZAfterReplace(s[1..]);
      if StartsWith(s, "Z") {
        assert s[|"Z"|..] == s[1..];
      } else {
        assert s[0] != 'Z';
      }
    }
  }

  /** `datetime.fromisoformat(s.replace('Z', '+00:00'))`. */
  function ParseUpstream(c: IsoCodec, s: string): (r: Option<Instant>)
    ensures 'Z' !in s ==> r == c.parse(s)
  {
    c.parse(ReplaceZ(s))
  }

  /** `int(seconds / 60)`: whole minutes, truncated toward zero. */
  function WholeMinutes(seconds: int): (m: int)
    ensures seconds >= 0 ==> 0 <= 60 * m <= seconds < 60 * m + 60
    ensures seconds < 0 ==> 60 * m - 60 < seconds <= 60 * m <= 0
  {
    if seconds >= 0 then seconds / 60 else -((-seconds) / 60)
  }

  /** Truncation toward zero is odd: reversing the interval negates it. */
  lemma WholeMinutesOdd(seconds: int)
    ensures WholeMinutes(-seconds) == -WholeMinutes(seconds)
  {
  }

  /** The minutes from `start` to `end`: None where Python's subtraction
      raises TypeError because one datetime is naive and the other aware. */
  function MinutesBetween(start: Instant, end: Instant): (r: Option<int>)
    ensures r.Some? <==> start.aware == end.aware
    ensures r.Some? && start.seconds <= end.seconds ==> r.value >= 0
    ensures r.Some? && start.seconds > end.seconds + 59 ==> r.value < 0
  {
    if start.aware == end.aware then Some(WholeMinutes(end.seconds - start.seconds)) else None
  }

  /** `convert_to_sydney_time`: the empty string, `"Unknown"` and any text
      the parser rejects come back unchanged; anything else is rendered. */
  function ConvertToSydneyTime(c: IsoCodec, s: string): (r: string)
    ensures s == "" || s == "Unknown" ==> r == s
    ensures ParseUpstream(c, s).None? ==> r == s
    ensures r != s ==> ParseUpstream(c, s).Some? && r == c.render(ParseUpstream(c, s).value)
    ensures s != "" && s != "Unknown" && ParseUpstream(c, s).Some? ==> r == c.render(ParseUpstream(c, s).value)
  {
    if s == "" || s == "Unknown" then s
    else match ParseUpstream(c, s)
      case None => s
      case Some(t) => c.render(t)
  }

  /** Whatever the parser, an empty result comes only from an empty input
      or an empty rendering. */
  lemma ConvertEmpty(c: IsoCodec, s: string)
    requires ConvertToSydneyTime(c, s) == ""
    ensures s == "" || (ParseUpstream(c, s).Some? && c.render(ParseUpstream(c, s).value) == "")
  {
  }
}
