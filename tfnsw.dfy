/**
 * `TfnswService.format_trip_response`: the reshaping of the upstream trip
 * plan into the endpoint's journeys and legs, with durations in whole
 * minutes, times rendered in Sydney time and defaults for missing keys.
 */
module Tfnsw {
  import opened Wrappers
  import opened IsoTime
  import opened Upstream
  import opened TripSchema

  /** `x or "Unknown"`. */
  function OrUnknown(s: string): (r: string)
    ensures r != ""
    ensures s != "" ==> r == s
  {
    if s == "" then "Unknown" else s
  }

  /** The minutes between two upstream timestamps, or 0 when either is
      empty, either fails to parse (ValueError), or one is naive and the
      other aware (TypeError): both errors are caught and the duration
      stays 0. */
  function ElapsedMinutes(c: IsoCodec, start: string, end: string): (minutes: int)
    ensures start == "" || end == "" ==> minutes == 0
    ensures ParseUpstream(c, start).None? || ParseUpstream(c, end).None? ==> minutes == 0
    ensures start != "" && end != "" && ParseUpstream(c, start).Some? && ParseUpstream(c, end).Some? ==>
              var s, e := ParseUpstream(c, start).value, ParseUpstream(c, end).value;
              minutes == if s.aware == e.aware then WholeMinutes(e.seconds - s.seconds) else 0
  {
    if start != "" && end != "" then
      match (ParseUpstream(c, start), ParseUpstream(c, end))
      case (Some(s), Some(e)) => MinutesBetween(s, e).GetOr(0)
      case _ => 0
    else 0
  }

  /** One output leg.  Missing keys default to `"Unknown"` (mode, stop
      names, the always-present times) or `""` (line); the origin's
      arrival and the destination's departure are shown only when given
      and non-empty. */
  function FormatLeg(c: IsoCodec, leg: Leg): TripLeg
  {
    var transportation := leg.transportation.GetOr(Transportation(None, None));
    var origin := StopOrEmpty(leg.origin);
    var destination := StopOrEmpty(leg.destination);
    TripLeg(
      transportation.product.GetOr(Product(None)).name.GetOr("Unknown"),
      Some(transportation.number.GetOr("")),
      ElapsedMinutes(c, origin.departureTimePlanned.GetOr(""), destination.arrivalTimePlanned.GetOr("")),
      Location(
        origin.name.GetOr("Unknown"),
        Some(ConvertToSydneyTime(c, origin.departureTimePlanned.GetOr("Unknown"))),
        if Truthy(origin.arrivalTimePlanned) then Some(ConvertToSydneyTime(c, origin.arrivalTimePlanned.value)) else None),
      Location(
        destination.name.GetOr("Unknown"),
        if Truthy(destination.departureTimePlanned) then Some(ConvertToSydneyTime(c, destination.departureTimePlanned.value)) else None,
        Some(ConvertToSydneyTime(c, destination.arrivalTimePlanned.GetOr("Unknown")))))
  }

  /** The output legs of a list of legs, one each, in order. */
  function FormatLegs(c: IsoCodec, legs: seq<Leg>): (r: seq<TripLeg>)
    ensures |r| == |legs|
    ensures forall k :: 0 <= k < |legs| ==> r[k] == FormatLeg(c, legs[k])
    decreases |legs|
  {
    if legs == [] then [] else FormatLegs(c, legs[..|legs| - 1]) + [FormatLeg(c, legs[|legs| - 1])]
  }

  /** Why formatting raises: a journey whose `legs` list is present but
      empty has no first leg (IndexError). */
  datatype FormatError = EmptyLegs

  /** `journey.get("legs", [{}])`: the legs that the start and end times
      are read from. */
  function TimeLegs(j: Upstream.Journey): seq<Leg> {
    j.legs.GetOr([EmptyLeg])
  }

  /** The first leg's planned departure, `""` when missing. */
  function StartText(j: Upstream.Journey): string
    requires TimeLegs(j) != []
  {
    StopOrEmpty(TimeLegs(j)[0].origin).departureTimePlanned.GetOr("")
  }

  /** The last leg's planned arrival, `""` when missing. */
  function EndText(j: Upstream.Journey): string
    requires TimeLegs(j) != []
  {
    StopOrEmpty(TimeLegs(j)[|TimeLegs(j)| - 1].destination).arrivalTimePlanned.GetOr("")
  }

  /** One output journey, or the IndexError of an empty leg list. */
  function FormatJourney(c: IsoCodec, j: Upstream.Journey): (r: Result<TripSchema.Journey, FormatError>)
    ensures r.Err? <==> j.legs == Some([])
    ensures r.Ok? ==> |r.value.legs| == |j.legs.GetOr([])|
    ensures r.Ok? ==> r.value.startTime != "" && r.value.endTime != ""
    ensures r.Ok? ==>
              && r.value.duration == ElapsedMinutes(c, StartText(j), EndText(j))
              && r.value.startTime == OrUnknown(ConvertToSydneyTime(c, StartText(j)))
              && r.value.endTime == OrUnknown(ConvertToSydneyTime(c, EndText(j)))
              && r.value.legs == FormatLegs(c, j.legs.GetOr([]))
  {
    if TimeLegs(j) == [] then Err(EmptyLegs)
    else
      var start, end := StartText(j), EndText(j);
      Ok(TripSchema.Journey(
        ElapsedMinutes(c, start, end),
        OrUnknown(ConvertToSydneyTime(c, start)),
        OrUnknown(ConvertToSydneyTime(c, end)),
        FormatLegs(c, j.legs.GetOr([]))))
  }

  /** A journey of the list has a present but empty `legs` list. */
  predicate SomeEmptyLegs(js: seq<Upstream.Journey>) {
    exists k :: 0 <= k < |js| && js[k].legs == Some([])
  }

  /** `xs` mapped through `f` in order, stopping at the first error. */
  function MapInOrder<A, B, E>(f: A -> Result<B, E>, xs: seq<A>): Result<seq<B>, E>
    decreases |xs|
  {
    if xs == [] then Ok([])
    else
      match MapInOrder(f, xs[..|xs| - 1])
      case Err(e) => Err(e)
      case Ok(prefix) =>
        match f(xs[|xs| - 1])
        case Err(e) => Err(e)
        case Ok(y) => Ok(prefix + [y])
  }

  /** The journey list formatted in order, or the error of the first
      journey that raises. */
  function FormatJourneys(c: IsoCodec, js: seq<Upstream.Journey>): (r: Result<seq<TripSchema.Journey>, FormatError>)
    ensures r.Err? <==> SomeEmptyLegs(js)
    ensures r.Ok? ==> |r.value| == |js|
  {
    var f := (j: Upstream.Journey) => FormatJourney(c, j);
    MapInOrderErrIff(f, js);
    if MapInOrder(f, js).Ok? then
      MapInOrderPointwise(f, js);
      MapInOrder(f, js)
    else MapInOrder(f, js)
  }

  /** What `format_trip_response` returns or raises: no journeys for a
      missing, empty or journey-less response, else the journeys formatted
      in order. */
  function FormatResponse(c: IsoCodec, response: Response): (r: Result<TripResponse, FormatError>)
    ensures response.journeys.None? ==> r == Ok(TripResponse([]))
  {
    match response.journeys
    case None => Ok(TripResponse([]))
    case Some(js) =>
      match FormatJourneys(c, js)
      case Err(e) => Err(e)
      case Ok(journeys) => Ok(TripResponse(journeys))
  }

  /** `format_trip_response`: each journey in turn, appended to the
      output list. */
  method FormatTripResponse(c: IsoCodec, response: Response) returns (r: Result<TripResponse, FormatError>)
    ensures r == FormatResponse(c, response)
  {
    if response.journeys.None? {
      return Ok(TripResponse([]));
    }
    var input := response.journeys.value;
    ghost var f := (j: Upstream.Journey) => FormatJourney(c, j);
    var journeys: seq<TripSchema.Journey> := [];
    for i := 0 to |input|
      invariant MapInOrder(f, input[..i]) == Ok(journeys)
    {
      var formatted := FormatOneJourney(c, input[i]);
      MapInOrderStep(f, input, i, journeys, formatted);
      if formatted.Err? {
        MapInOrderErrSticks(f, input, i + 1);
        return Err(formatted.error);
      }
      journeys := journeys + [formatted.value];
    }
    assert input[..|input|] == input;
    r := Ok(TripResponse(journeys));
  }

  /** One more item: the mapping of the longer prefix is the shorter
      prefix's results extended by the item's own. */
  lemma MapInOrderStep<A, B, E>(f: A -> Result<B, E>, xs: seq<A>, i: nat, prefix: seq<B>, y: Result<B, E>)
    requires i < |xs| && MapInOrder(f, xs[..i]) == Ok(prefix) && f(xs[i]) == y
    ensures MapInOrder(f, xs[..i + 1]) == if y.Err? then Err(y.error) else Ok(prefix + [y.value])
  {
    assert xs[..i + 1][..i] == xs[..i];
  }

  /** Once a prefix of the list fails, the whole list fails with it. */
  lemma {:induction false} MapInOrderErrSticks<A, B, E>(f: A -> Result<B, E>, xs: seq<A>, n: nat)
    requires n <= |xs|
    requires MapInOrder(f, xs[..n]).Err?
    ensures MapInOrder(f, xs) == MapInOrder(f, xs[..n])
    decreases |xs| - n
  {
    if n == |xs| {
      assert xs[..n] == xs;
    } else {
      assert xs[..n + 1][..n] == xs[..n];
      MapInOrderErrSticks(f, xs, n + 1);
    }
  }

  /** The body of the journey loop: the start and end time, the total
      duration, then the legs. */
  method FormatOneJourney(c: IsoCodec, journey: Upstream.Journey) returns (r: Result<TripSchema.Journey, FormatError>)
    ensures r == FormatJourney(c, journey)
  {
    var timeLegs := journey.legs.GetOr([EmptyLeg]);
    if timeLegs == [] {
      return Err(EmptyLegs);
    }
    var startTime := StopOrEmpty(timeLegs[0].origin).departureTimePlanned.GetOr("");
    var endTime := StopOrEmpty(timeLegs[|timeLegs| - 1].destination).arrivalTimePlanned.GetOr("");
    var duration := JourneyDuration(c, startTime, endTime);
    var formattedLegs := FormatLegList(c, journey.legs.GetOr([]));
    r := Ok(TripSchema.Journey(
      duration,
      OrUnknown(ConvertToSydneyTime(c, startTime)),
      OrUnknown(ConvertToSydneyTime(c, endTime)),
      formattedLegs));
  }

  /** The journey's duration: parse both ends, subtract, and keep 0 when
      either is missing, unparseable or of the other awareness. */
  method JourneyDuration(c: IsoCodec, startTime: string, endTime: string) returns (duration: int)
    ensures duration == ElapsedMinutes(c, startTime, endTime)
  {
    duration := 0;
    if startTime != "" && endTime != "" {
      var startDt, endDt := ParseUpstream(c, startTime), ParseUpstream(c, endTime);
      if startDt.Some? && endDt.Some? && startDt.value.aware == endDt.value.aware {
        duration := WholeMinutes(endDt.value.seconds - startDt.value.seconds);
      }
    }
  }

  /** The leg loop: each leg formatted and appended in turn. */
  method FormatLegList(c: IsoCodec, legs: seq<Leg>) returns (formattedLegs: seq<TripLeg>)
    ensures formattedLegs == FormatLegs(c, legs)
  {
    formattedLegs := [];
    for k := 0 to |legs|
      invariant formattedLegs == FormatLegs(c, legs[..k])
    {
      assert legs[..k + 1][..k] == legs[..k];
      formattedLegs := formattedLegs + [FormatLeg(c, legs[k])];
    }
    assert legs[..|legs|] == legs;
  }

  // ---------------------------------------------------------------------
  // Properties
  // ---------------------------------------------------------------------

  /** A journey without a `legs` key gets no legs, a zero duration and
      `"Unknown"` start and end times. */
  lemma MissingLegsJourney(c: IsoCodec, j: Upstream.Journey)
    requires j.legs.None?
    ensures FormatJourney(c, j) == Ok(TripSchema.Journey(0, "Unknown", "Unknown", []))
  {
  }

  /** The shape of one output leg: the origin's arrival and the
      destination's departure are absent exactly when the upstream value is
      missing or empty, the other times and the line are always present,
      missing names and times read `"Unknown"`, and the duration is the
      minutes from the leg's departure to its arrival. */
  lemma LegShape(c: IsoCodec, leg: Leg)
    ensures FormatLeg(c, leg).origin.arrivalTime.None? <==> !Truthy(StopOrEmpty(leg.origin).arrivalTimePlanned)
    ensures FormatLeg(c, leg).destination.departureTime.None? <==> !Truthy(StopOrEmpty(leg.destination).departureTimePlanned)
    ensures FormatLeg(c, leg).origin.departureTime.Some? && FormatLeg(c, leg).destination.arrivalTime.Some? && FormatLeg(c, leg).line.Some?
    ensures StopOrEmpty(leg.origin).name.None? ==> FormatLeg(c, leg).origin.name == "Unknown"
    ensures StopOrEmpty(leg.destination).name.None? ==> FormatLeg(c, leg).destination.name == "Unknown"
    ensures StopOrEmpty(leg.origin).departureTimePlanned.None? ==> FormatLeg(c, leg).origin.departureTime == Some("Unknown")
    ensures StopOrEmpty(leg.destination).arrivalTimePlanned.None? ==> FormatLeg(c, leg).destination.arrivalTime == Some("Unknown")
    ensures FormatLeg(c, leg).duration == ElapsedMinutes(c, StopOrEmpty(leg.origin).departureTimePlanned.GetOr(""),
                                          StopOrEmpty(leg.destination).arrivalTimePlanned.GetOr(""))
    ensures FormatLeg(c, leg).mode == leg.transportation.GetOr(Transportation(None, None)).product.GetOr(Product(None)).name.GetOr("Unknown")
    ensures FormatLeg(c, leg).line == Some(leg.transportation.GetOr(Transportation(None, None)).number.GetOr(""))
    ensures StopOrEmpty(leg.origin).name.Some? ==> FormatLeg(c, leg).origin.name == StopOrEmpty(leg.origin).name.value
    ensures StopOrEmpty(leg.destination).name.Some? ==> FormatLeg(c, leg).destination.name == StopOrEmpty(leg.destination).name.value
    ensures StopOrEmpty(leg.origin).departureTimePlanned.Some? ==>
              FormatLeg(c, leg).origin.departureTime == Some(ConvertToSydneyTime(c, StopOrEmpty(leg.origin).departureTimePlanned.value))
    ensures StopOrEmpty(leg.destination).arrivalTimePlanned.Some? ==>
              FormatLeg(c, leg).destination.arrivalTime == Some(ConvertToSydneyTime(c, StopOrEmpty(leg.destination).arrivalTimePlanned.value))
    ensures Truthy(StopOrEmpty(leg.origin).arrivalTimePlanned) ==>
              FormatLeg(c, leg).origin.arrivalTime == Some(ConvertToSydneyTime(c, StopOrEmpty(leg.origin).arrivalTimePlanned.value))
    ensures Truthy(StopOrEmpty(leg.destination).departureTimePlanned) ==>
              FormatLeg(c, leg).destination.departureTime == Some(ConvertToSydneyTime(c, StopOrEmpty(leg.destination).departureTimePlanned.value))
  {
  }

  /** A journey's times come from the ends of its leg list: the duration
      runs from the first leg's planned departure to the last leg's
      planned arrival (waits and transfers included), a missing end reads
      `"Unknown"`, and a present end is the same text as the matching time
      of the first or last output leg. */
  lemma JourneyEndsFromLegs(c: IsoCodec, j: Upstream.Journey)
    requires j.legs.Some? && j.legs.value != []
    ensures FormatJourney(c, j).Ok?
    ensures var legs := j.legs.value;
            FormatJourney(c, j).value.duration ==
              ElapsedMinutes(c, StopOrEmpty(legs[0].origin).departureTimePlanned.GetOr(""),
                             StopOrEmpty(legs[|legs| - 1].destination).arrivalTimePlanned.GetOr(""))
    ensures StopOrEmpty(j.legs.value[0].origin).departureTimePlanned.None? ==> FormatJourney(c, j).value.startTime == "Unknown"
    ensures var last := j.legs.value[|j.legs.value| - 1];
            StopOrEmpty(last.destination).arrivalTimePlanned.None? ==> FormatJourney(c, j).value.endTime == "Unknown"
    ensures var first := StopOrEmpty(j.legs.value[0].origin).departureTimePlanned;
            first.Some? && ConvertToSydneyTime(c, first.value) != "" ==>
              Some(FormatJourney(c, j).value.startTime) == FormatJourney(c, j).value.legs[0].origin.departureTime
    ensures var n := |j.legs.value|;
            var last := StopOrEmpty(j.legs.value[n - 1].destination).arrivalTimePlanned;
            last.Some? && ConvertToSydneyTime(c, last.value) != "" ==>
              Some(FormatJourney(c, j).value.endTime) == FormatJourney(c, j).value.legs[n - 1].destination.arrivalTime
  {
    var legs := j.legs.value;
    var n := |legs|;
    assert TimeLegs(j) == legs;
    var r := FormatJourney(c, j);
    assert r.value.legs == FormatLegs(c, legs);
    assert r.value.legs[0] == FormatLeg(c, legs[0]);
    assert r.value.legs[n - 1] == FormatLeg(c, legs[n - 1]);
    LegShape(c, legs[0]);
    LegShape(c, legs[n - 1]);
  }

  /** A leg whose keys are all missing carries every default. */
  lemma EmptyLegDefaults(c: IsoCodec)
    ensures FormatLeg(c, EmptyLeg) ==
            TripLeg("Unknown", Some(""), 0,
                    Location("Unknown", Some("Unknown"), None),
                    Location("Unknown", None, Some("Unknown")))
  {
  }

  /** The formatter's defaults agree with the schema's: the mode and the
      stop names of a leg with no data are those of a default leg and a
      default location. */
  lemma DefaultsAgreeWithSchema(c: IsoCodec)
    ensures var leg := FormatLeg(c, EmptyLeg);
            && leg.mode == DefaultLeg(leg.origin, leg.destination).mode
            && leg.duration == DefaultLeg(leg.origin, leg.destination).duration
            && leg.origin.name == DefaultLocation.name
            && leg.destination.name == DefaultLocation.name
            && leg.origin.arrivalTime == DefaultLocation.arrivalTime
            && leg.destination.departureTime == DefaultLocation.departureTime
  {
    EmptyLegDefaults(c);
  }

  /** A journey's duration meets the schema's `duration >= 0` whenever its
      last arrival is not before its first departure; it can break it
      only when the upstream times run backwards. */
  lemma DurationMeetsSchema(c: IsoCodec, j: Upstream.Journey)
    requires FormatJourney(c, j).Ok?
    requires StartText(j) != "" && EndText(j) != ""
    requires ParseUpstream(c, StartText(j)).Some? && ParseUpstream(c, EndText(j)).Some? ==>
               ParseUpstream(c, StartText(j)).value.seconds <= ParseUpstream(c, EndText(j)).value.seconds
    ensures ValidJourney(FormatJourney(c, j).value)
  {
  }

  /** Backwards upstream times give a negative duration, which the
      schema's `duration >= 0` refuses. */
  lemma BackwardsTimesBreakSchema(c: IsoCodec, j: Upstream.Journey)
    requires FormatJourney(c, j).Ok?
    requires StartText(j) != "" && EndText(j) != ""
    requires ParseUpstream(c, StartText(j)).Some? && ParseUpstream(c, EndText(j)).Some?
    requires ParseUpstream(c, StartText(j)).value.aware == ParseUpstream(c, EndText(j)).value.aware
    requires ParseUpstream(c, StartText(j)).value.seconds >= ParseUpstream(c, EndText(j)).value.seconds + 60
    ensures !ValidJourney(FormatJourney(c, j).value)
  {
  }

  /** The journey's times are those of its first and last leg: with one
      leg, the journey's duration is that leg's. */
  lemma SingleLegDuration(c: IsoCodec, j: Upstream.Journey)
    requires j.legs.Some? && |j.legs.value| == 1
    ensures FormatJourney(c, j).Ok?
    ensures FormatJourney(c, j).value.duration == FormatJourney(c, j).value.legs[0].duration
  {
  }

  /** The mapping fails exactly when some item fails. */
  lemma {:induction false} MapInOrderErrIff<A, B, E>(f: A -> Result<B, E>, xs: seq<A>)
    ensures MapInOrder(f, xs).Err? <==> exists k :: 0 <= k < |xs| && f(xs[k]).Err?
    decreases |xs|
  {
    if xs != [] {
      var init := xs[..|xs| - 1];
      MapInOrderErrIff(f, init);
      if exists k :: 0 <= k < |init| && f(init[k]).Err? {
        var k :| 0 <= k < |init| && f(init[k]).Err?;
        assert xs[k] == init[k];
      }
      if exists k :: 0 <= k < |xs| && f(xs[k]).Err? {
        var k :| 0 <= k < |xs| && f(xs[k]).Err?;
        assert k < |init| ==> init[k] == xs[k];
      }
    }
  }

  /** Without failure, the mapping keeps one result per item, in order,
      each the result of its own item. */
  lemma {:induction false} MapInOrderPointwise<A, B, E>(f: A -> Result<B, E>, xs: seq<A>)
    requires MapInOrder(f, xs).Ok?
    ensures |MapInOrder(f, xs).value| == |xs|
    ensures forall k :: 0 <= k < |xs| ==> Ok(MapInOrder(f, xs).value[k]) == f(xs[k])
    decreases |xs|
  {
    if xs != [] {
      var init := xs[..|xs| - 1];
      MapInOrderPointwise(f, init);
      assert forall k :: 0 <= k < |init| ==> init[k] == xs[k];
    }
  }

  /** The journey list raises exactly when one of its journeys has a
      present but empty leg list, and otherwise holds one output journey
      per input journey, in order, each formatted on its own. */
  lemma FormatJourneysShape(c: IsoCodec, js: seq<Upstream.Journey>)
    ensures FormatJourneys(c, js).Err? <==> SomeEmptyLegs(js)
    ensures FormatJourneys(c, js).Ok? ==>
              |FormatJourneys(c, js).value| == |js| &&
              forall k :: 0 <= k < |js| ==> Ok(FormatJourneys(c, js).value[k]) == FormatJourney(c, js[k])
  {
    var f := (j: Upstream.Journey) => FormatJourney(c, j);
    MapInOrderErrIff(f, js);
    if MapInOrder(f, js).Ok? {
      MapInOrderPointwise(f, js);
    }
  }

  /** `format_trip_response` raises exactly when a journey has a present
      but empty leg list, and otherwise returns one journey per input
      journey, each formatted on its own. */
  lemma ResponseShape(c: IsoCodec, response: Response)
    requires response.journeys.Some?
    ensures FormatResponse(c, response).Err? <==> SomeEmptyLegs(response.journeys.value)
    ensures FormatResponse(c, response).Ok? ==>
              var js := response.journeys.value;
              var out := FormatResponse(c, response).value.journeys;
              |out| == |js| && forall k :: 0 <= k < |js| ==> Ok(out[k]) == FormatJourney(c, js[k])
  {
    FormatJourneysShape(c, response.journeys.value);
  }
}
