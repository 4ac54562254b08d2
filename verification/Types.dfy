/** The values every part of the exporter exchanges: durations, responses and
    the results of fallible calls. */
module Types {

  const MIN_INT64: int := -0x8000_0000_0000_0000
  const MAX_INT64: int := 0x7fff_ffff_ffff_ffff

  /** A Go `time.Duration`: a signed 64-bit count of nanoseconds. */
  type Duration = d: int | MIN_INT64 <= d <= MAX_INT64

  /** `AbsDuration`: negation in 64 bits, so the least duration is its own
      negation and stays negative. */
  function AbsDuration(d: Duration): (r: Duration)
    ensures d != MIN_INT64 ==> r >= 0 && (r == d || r == -d)
    ensures d == MIN_INT64 ==> r == MIN_INT64
  {
    if d < 0 then (if d == MIN_INT64 then MIN_INT64 else -d) else d
  }

  /** The fields of an NTP response that the modelled code reads. */
  datatype Response = Response(server: string, offset: Duration, rtt: Duration)

  /** The zero value of `Response`, as left behind by `*r = Response{}`. */
  const ZERO_RESPONSE := Response("", 0, 0)

  datatype Error = NoError | ContextError | QueryError

  /** What `QueryMultiple` returns: Go hands back both a slice and an error. */
  datatype Outcome = Outcome(responses: seq<Response>, error: Error)

  datatype Option<+T> = None | Some(value: T)
}
