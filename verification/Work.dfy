/** Work items and policies: the data a run is configured with. */
module Work {
  import opened Wrappers

  /** Opaque to the engine. */
  type Payload(==, !new)
  type Exn(==, !new)

  datatype SchedMeta = SchedMeta(rootOrder: int, rangeStart: int, rangeEnd: int, targetSize: int)

  datatype Item = Item(payload: Payload, sched: SchedMeta)

  /** A float handed in from outside: a number, or an infinity or NaN. */
  datatype Seconds = Finite(s: real) | NotFinite

  datatype RetryPolicy = RetryPolicy(
    maxAttempts: int,
    baseDelay: real,
    maxDelay: real,
    multiplier: real,
    jitter: real,
    retryAfter: Option<Exn -> Option<Seconds>>,
    maxServerDelay: real)

  datatype SplitPolicy = SplitPolicy(
    shouldSplit: (Exn, Item) -> bool,
    split: Item -> seq<Item>)

  /** RetryPolicy(...): the constructor's only check. */
  function MakeRetryPolicy(maxAttempts: int, baseDelay: real, maxDelay: real, multiplier: real, jitter: real,
                           retryAfter: Option<Exn -> Option<Seconds>>, maxServerDelay: Seconds): (r: Option<RetryPolicy>)
    ensures r.Some? <==> maxServerDelay.Finite? && maxServerDelay.s >= 0.0
    ensures r.Some? ==> r.value.maxServerDelay == maxServerDelay.s
  {
    if maxServerDelay.NotFinite? || maxServerDelay.s < 0.0 then None
    else Some(RetryPolicy(maxAttempts, baseDelay, maxDelay, multiplier, jitter, retryAfter, maxServerDelay.s))
  }
}
