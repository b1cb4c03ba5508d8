/**
 * The response and request shapes of the trip endpoint, their field
 * defaults, the journey-duration constraint and the request's time
 * validation.
 */
module TripSchema {
  import opened Wrappers
  import opened IsoTime

  /** A stop as the response shows it. */
  datatype Location = Location(name: string, departureTime: Option<string>, arrivalTime: Option<string>)

  /** One leg as the response shows it; `duration` in minutes. */
  datatype TripLeg = TripLeg(mode: string, line: Option<string>, duration: int, origin: Location, destination: Location)

  /** One journey as the response shows it; `duration` in minutes. */
  datatype Journey = Journey(duration: int, startTime: string, endTime: string, legs: seq<TripLeg>)

  datatype TripResponse = TripResponse(journeys: seq<Journey>)

  /** A trip request; the two times are ISO-8601 text. */
  datatype TripRequest = TripRequest(
    fromLocation: string, toLocation: string,
    departureTime: Option<string>, arrivalTime: Option<string>)

  /** A `Location` built with no field given. */
  const DefaultLocation: Location := Location("Unknown", None, None)

  /** A `TripLeg` built with only its two stops given. */
  function DefaultLeg(origin: Location, destination: Location): (leg: TripLeg)
    ensures leg.origin == origin && leg.destination == destination
    ensures leg.mode == "Unknown" && leg.line.None? && leg.duration == 0
  {
    TripLeg("Unknown", None, 0, origin, destination)
  }

  /** A journey's duration may not be negative. */
  predicate ValidJourney(j: Journey) {
    j.duration >= 0
  }

  /** Why `validate_times` raises ValueError. */
  datatype TimeError = BothTimesGiven | NotIsoFormat

  /** A given time the parser rejects once `Z` is written `+00:00`. */
  predicate Unparseable(c: IsoCodec, t: Option<string>) {
    Truthy(t) && ParseUpstream(c, t.value).None?
  }

  /** `TripRequest.validate_times`: None when the request passes, else the
      error it raises.  Giving both times is refused before either is
      parsed; a single given time must parse. */
  function ValidateTimes(c: IsoCodec, req: TripRequest): (r: Option<TimeError>)
    ensures Truthy(req.departureTime) && Truthy(req.arrivalTime) ==> r == Some(BothTimesGiven)
    ensures !Truthy(req.departureTime) && !Truthy(req.arrivalTime) ==> r.None?
    ensures Truthy(req.departureTime) && !Truthy(req.arrivalTime) ==>
              (r.Some? <==> ParseUpstream(c, req.departureTime.value).None?) && r != Some(BothTimesGiven)
    ensures !Truthy(req.departureTime) && Truthy(req.arrivalTime) ==>
              (r.Some? <==> ParseUpstream(c, req.arrivalTime.value).None?) && r != Some(BothTimesGiven)
  {
    if Truthy(req.departureTime) && Truthy(req.arrivalTime) then Some(BothTimesGiven)
    else if Unparseable(c, req.departureTime) || Unparseable(c, req.arrivalTime) then Some(NotIsoFormat)
    else None
  }

  /** The outcome does not depend on the parser when both times are
      given. */
  lemma ConflictBeforeFormat(c1: IsoCodec, c2: IsoCodec, req: TripRequest)
    requires Truthy(req.departureTime) && Truthy(req.arrivalTime)
    ensures ValidateTimes(c1, req) == ValidateTimes(c2, req)
  {
  }

  /** An empty time counts as not given. */
  lemma EmptyTimeIgnored(c: IsoCodec, req: TripRequest)
    requires req.arrivalTime == Some("")
    ensures ValidateTimes(c, req) == ValidateTimes(c, req.(arrivalTime := None))
  {
  }
}
