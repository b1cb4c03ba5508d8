/**
 * `filter_journeys_by_time`: keep, in their original order, the journeys
 * whose first leg departs at or after a reference time.  The reference is
 * the caller's ISO time (a naive one read as Sydney time) or, without
 * one, the current Sydney time, which the model takes as a parameter.
 */
module ApiUtils {
  import opened Wrappers
  import opened IsoTime
  import opened Upstream

  /** The ValueErrors the filter lets escape: the reference time, or a
      kept candidate's departure time, is not ISO text. */
  datatype FilterError = BadReference | BadDeparture

  /** The first leg's planned departure, when `journey.get("legs")` is a
      non-empty list and the departure is present and non-empty. */
  function Departure(j: Journey): (d: Option<string>)
    ensures d.Some? <==> j.legs.Some? && j.legs.value != [] && Truthy(StopOrEmpty(j.legs.value[0].origin).departureTimePlanned)
    ensures d.Some? ==> d.value != "" && d == StopOrEmpty(j.legs.value[0].origin).departureTimePlanned
  {
    if j.legs.Some? && j.legs.value != [] && Truthy(StopOrEmpty(j.legs.value[0].origin).departureTimePlanned)
    then StopOrEmpty(j.legs.value[0].origin).departureTimePlanned
    else None
  }

  /** The reference instant: the parsed reference time when one is given
      (no `Z` rewriting here), a naive one localised to Sydney and an
      aware one kept as it is, else `now`. */
  function Reference(c: IsoCodec, referenceTime: Option<string>, now: int): (r: Result<int, FilterError>)
    ensures !Truthy(referenceTime) ==> r == Ok(now)
    ensures Truthy(referenceTime) ==> (r.Err? <==> c.parse(referenceTime.value).None?)
    ensures r.Err? ==> r.error == BadReference
    ensures Truthy(referenceTime) && c.parse(referenceTime.value).Some? && !c.parse(referenceTime.value).value.aware ==>
              r == Ok(c.localize(c.parse(referenceTime.value).value))
    ensures Truthy(referenceTime) && c.parse(referenceTime.value).Some? && c.parse(referenceTime.value).value.aware ==>
              r == Ok(c.astimezone(c.parse(referenceTime.value).value))
  {
    if Truthy(referenceTime) then
      match c.parse(referenceTime.value)
      case None => Err(BadReference)
      case Some(t) => Ok(if t.aware then c.astimezone(t) else c.localize(t))
    else Ok(now)
  }

  /** Whether one journey is kept: not without a departure, an error when
      the departure does not parse, else whether it is not before the
      reference. */
  function Verdict(c: IsoCodec, j: Journey, reference: int): (v: Result<bool, FilterError>)
    ensures v.Err? <==> Departure(j).Some? && ParseUpstream(c, Departure(j).value).None?
    ensures v.Err? ==> v.error == BadDeparture
    ensures v == Ok(true) <==>
              Departure(j).Some? && ParseUpstream(c, Departure(j).value).Some? &&
              c.astimezone(ParseUpstream(c, Departure(j).value).value) >= reference
  {
    match Departure(j)
    case None => Ok(false)
    case Some(d) =>
      match ParseUpstream(c, d)
      case None => Err(BadDeparture)
      case Some(t) => Ok(c.astimezone(t) >= reference)
  }

  /** The journeys kept, in order, or the error of the first journey
      whose departure does not parse. */
  function Keep(c: IsoCodec, js: seq<Journey>, reference: int): (r: Result<seq<Journey>, FilterError>)
    ensures js == [] ==> r == Ok([])
    ensures r.Ok? ==> |r.value| <= |js|
    decreases |js|
  {
    if js == [] then Ok([])
    else
      match Keep(c, js[..|js| - 1], reference)
      case Err(e) => Err(e)
      case Ok(kept) =>
        match Verdict(c, js[|js| - 1], reference)
        case Err(e) => Err(e)
        case Ok(b) => Ok(if b then kept + [js[|js| - 1]] else kept)
  }

  /** What `filter_journeys_by_time` returns or raises: nothing for no
      journeys (before the reference is even parsed), else the journeys
      kept against the reference. */
  function Filter(c: IsoCodec, journeys: seq<Journey>, referenceTime: Option<string>, now: int): (r: Result<seq<Journey>, FilterError>)
    ensures journeys == [] ==> r == Ok([])
    ensures journeys != [] && Truthy(referenceTime) && c.parse(referenceTime.value).None? ==> r == Err(BadReference)
  {
    if journeys == [] then Ok([])
    else
      match Reference(c, referenceTime, now)
      case Err(e) => Err(e)
      case Ok(reference) => Keep(c, journeys, reference)
  }

  /** `filter_journeys_by_time`: each journey in turn, appended to the
      output list when it departs at or after the reference. */
  method FilterJourneysByTime(c: IsoCodec, journeys: seq<Journey>, referenceTime: Option<string>, now: int)
    returns (r: Result<seq<Journey>, FilterError>)
    ensures r == Filter(c, journeys, referenceTime, now)
  {
    if journeys == [] {
      return Ok([]);
    }
    var reference := now;
    if Truthy(referenceTime) {
      var parsed := c.parse(referenceTime.value);
      if parsed.None? {
        return Err(BadReference);
      }
      reference := if parsed.value.aware then c.astimezone(parsed.value) else c.localize(parsed.value);
    }
    var filtered: seq<Journey> := [];
    for i := 0 to |journeys|
      invariant Keep(c, journeys[..i], reference) == Ok(filtered)
    {
      assert journeys[..i + 1][..i] == journeys[..i];
      var journey := journeys[i];
      if journey.legs.Some? && journey.legs.value != [] {
        var departureTime := StopOrEmpty(journey.legs.value[0].origin).departureTimePlanned;
        if Truthy(departureTime) {
          var journeyDt := ParseUpstream(c, departureTime.value);
          if journeyDt.None? {
            KeepErrSticks(c, journeys, reference, i + 1);
            assert journeys[..|journeys|] == journeys;
            return Err(BadDeparture);
          }
          if c.astimezone(journeyDt.value) >= reference {
            filtered := filtered + [journey];
          }
        }
      }
    }
    assert journeys[..|journeys|] == journeys;
    r := Ok(filtered);
  }

  // ---------------------------------------------------------------------
  // Properties
  // ---------------------------------------------------------------------

  /** `xs` is `ys` with some items left out, the rest in their order. */
  predicate SubsequenceOf<T(==)>(xs: seq<T>, ys: seq<T>)
    decreases |ys|
  {
    if ys == [] then xs == []
    else
      SubsequenceOf(xs, ys[..|ys| - 1]) ||
      (xs != [] && xs[|xs| - 1] == ys[|ys| - 1] && SubsequenceOf(xs[..|xs| - 1], ys[..|ys| - 1]))
  }

  /** Once a prefix raises, the whole list raises with it. */
  lemma {:induction false} KeepErrSticks(c: IsoCodec, js: seq<Journey>, reference: int, n: nat)
    requires n <= |js|
    requires Keep(c, js[..n], reference).Err?
    ensures Keep(c, js, reference) == Keep(c, js[..n], reference)
    decreases |js| - n
  {
    if n == |js| {
      assert js[..n] == js;
    } else {
      assert js[..n + 1][..n] == js[..n];
      KeepErrSticks(c, js, reference, n + 1);
    }
  }

  /** The filter raises exactly when some journey has a departure that
      does not parse; which journeys it keeps never changes that. */
  lemma {:induction false} KeepErrIff(c: IsoCodec, js: seq<Journey>, reference: int)
    ensures Keep(c, js, reference).Err? <==>
              exists k :: 0 <= k < |js| && Departure(js[k]).Some? && ParseUpstream(c, Departure(js[k]).value).None?
    decreases |js|
  {
    if js != [] {
      var init := js[..|js| - 1];
      KeepErrIff(c, init, reference);
      if exists k :: 0 <= k < |init| && Departure(init[k]).Some? && ParseUpstream(c, Departure(init[k]).value).None? {
        var k :| 0 <= k < |init| && Departure(init[k]).Some? && ParseUpstream(c, Departure(init[k]).value).None?;
        assert js[k] == init[k];
      }
      if exists k :: 0 <= k < |js| && Departure(js[k]).Some? && ParseUpstream(c, Departure(js[k]).value).None? {
        var k :| 0 <= k < |js| && Departure(js[k]).Some? && ParseUpstream(c, Departure(js[k]).value).None?;
        assert k < |init| ==> init[k] == js[k];
      }
    }
  }

  /** The kept journeys are some of the input journeys, in their order. */
  lemma {:induction false} KeepIsSubsequence(c: IsoCodec, js: seq<Journey>, reference: int)
    requires Keep(c, js, reference).Ok?
    ensures SubsequenceOf(Keep(c, js, reference).value, js)
    decreases |js|
  {
    if js != [] {
      var init := js[..|js| - 1];
      KeepIsSubsequence(c, init, reference);
      var kept := Keep(c, init, reference).value;
      if Verdict(c, js[|js| - 1], reference) == Ok(true) {
        assert (kept + [js[|js| - 1]])[..|kept|] == kept;
      }
    }
  }

  /** A journey is kept exactly when it is one of the input journeys and
      departs, parseably, at or after the reference. */
  lemma {:induction false} KeepMembers(c: IsoCodec, js: seq<Journey>, reference: int, j: Journey)
    requires Keep(c, js, reference).Ok?
    ensures j in Keep(c, js, reference).value <==> j in js && Verdict(c, j, reference) == Ok(true)
    decreases |js|
  {
    if js != [] {
      var init := js[..|js| - 1];
      KeepMembers(c, init, reference, j);
      assert js == init + [js[|js| - 1]];
    }
  }

  /** Filtering the kept journeys again keeps them all. */
  lemma {:induction false} KeepIdempotent(c: IsoCodec, js: seq<Journey>, reference: int)
    requires Keep(c, js, reference).Ok?
    ensures Keep(c, Keep(c, js, reference).value, reference) == Keep(c, js, reference)
    decreases |js|
  {
    if js != [] {
      var init := js[..|js| - 1];
      var last := js[|js| - 1];
      KeepIdempotent(c, init, reference);
      var kept := Keep(c, init, reference).value;
      if Verdict(c, last, reference) == Ok(true) {
        assert (kept + [last])[..|kept|] == kept;
      }
    }
  }

  /** A later reference keeps no journey an earlier one drops. */
  lemma {:induction false} KeepMonotone(c: IsoCodec, js: seq<Journey>, early: int, late: int)
    requires early <= late
    requires Keep(c, js, early).Ok?
    ensures Keep(c, js, late).Ok?
    ensures SubsequenceOf(Keep(c, js, late).value, Keep(c, js, early).value)
    decreases |js|
  {
    if js != [] {
      var init := js[..|js| - 1];
      var last := js[|js| - 1];
      KeepMonotone(c, init, early, late);
      var keptEarly, keptLate := Keep(c, init, early).value, Keep(c, init, late).value;
      var verdictEarly, verdictLate := Verdict(c, last, early), Verdict(c, last, late);
      if verdictLate == Ok(true) {
        assert verdictEarly == Ok(true);
        assert (keptLate + [last])[..|keptLate|] == keptLate;
        assert (keptEarly + [last])[..|keptEarly|] == keptEarly;
      } else if verdictEarly == Ok(true) {
        assert (keptEarly + [last])[..|keptEarly|] == keptEarly;
      }
    }
  }

  /** Filtering a filtered list with the same reference time returns it
      unchanged. */
  lemma FilterIdempotent(c: IsoCodec, journeys: seq<Journey>, referenceTime: Option<string>, now: int)
    requires Filter(c, journeys, referenceTime, now).Ok?
    ensures Filter(c, Filter(c, journeys, referenceTime, now).value, referenceTime, now) == Filter(c, journeys, referenceTime, now)
  {
    if journeys != [] {
      KeepIdempotent(c, journeys, Reference(c, referenceTime, now).value);
    }
  }

  /** A journey without legs, or whose first leg has no departure, is
      never kept, whatever the reference. */
  lemma NoDepartureDropped(c: IsoCodec, journeys: seq<Journey>, referenceTime: Option<string>, now: int, j: Journey)
    requires Filter(c, journeys, referenceTime, now).Ok?
    requires Departure(j).None?
    ensures j !in Filter(c, journeys, referenceTime, now).value
  {
    if journeys != [] {
      KeepMembers(c, journeys, Reference(c, referenceTime, now).value, j);
    }
  }
}
