/**
 * The parts of the upstream trip-planner JSON that the formatter and the
 * journey filter read.  Each dictionary key that may be missing is an
 * `Option`; all present values are taken to be strings or lists of the
 * expected shape.
 */
module Upstream {
  import opened Wrappers

  /** A leg's `origin` or `destination` object. */
  datatype Stop = Stop(name: Option<string>, departureTimePlanned: Option<string>, arrivalTimePlanned: Option<string>)

  /** `transportation.product`. */
  datatype Product = Product(name: Option<string>)

  /** A leg's `transportation` object. */
  datatype Transportation = Transportation(product: Option<Product>, number: Option<string>)

  /** One leg of a journey. */
  datatype Leg = Leg(origin: Option<Stop>, destination: Option<Stop>, transportation: Option<Transportation>)

  /** One journey: its `legs` list, if the key is present. */
  datatype Journey = Journey(legs: Option<seq<Leg>>)

  /** The whole response: its `journeys` list, None when the response is
      empty or has no `journeys` key. */
  datatype Response = Response(journeys: Option<seq<Journey>>)

  /** The empty object `{}` that `.get(key, {})` falls back to. */
  const EmptyStop: Stop := Stop(None, None, None)

  /** `leg.get("origin", {})` and the like. */
  function StopOrEmpty(s: Option<Stop>): Stop {
    s.GetOr(EmptyStop)
  }

  /** A leg with every key missing, the `{}` of `journey.get("legs", [{}])`. */
  const EmptyLeg: Leg := Leg(None, None, None)
}
