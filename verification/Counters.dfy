/** What the counters of a run count, and which exception ends it. */
module Counters {
  import opened Wrappers
  import opened Work
  import Jsonl
  import Store
  import opened Scheduler
  import Accounting

  datatype Kind = Executed | Resumed | Committed | SplitUp | Retried

  /** The policy wants the item split. */
  predicate SplitWanted(cfg: Config, exn: Exn, item: Item) {
    cfg.splitPolicy.Some? && cfg.splitPolicy.value.shouldSplit(exn, item)
  }

  /** What kind of event this is, given the state it meets and the state it leads to. A failure
      that ends the run is of no kind. */
  predicate Is(cfg: Config, s: State, e: Event, s': State, kind: Kind) {
    match kind
    case Executed => e == Dispatch(Miss)
    case Resumed => e == Dispatch(Hit)
    case Committed => e.Finish? && e.persist == Stored
    case SplitUp => e.Fail? && e.i < |s.inflight| && s'.stop.None? && SplitWanted(cfg, e.exn, s.inflight[e.i].item)
    case Retried => e.Fail? && e.i < |s.inflight| && s'.stop.None? && !SplitWanted(cfg, e.exn, s.inflight[e.i].item)
  }

  function One(b: bool): nat { if b then 1 else 0 }

  /** How many events of a kind a trace has. */
  function Count(cfg: Config, start: State, trace: seq<Event>, kind: Kind): nat {
    if trace == [] then 0
    else
      var prefix, e := trace[..|trace| - 1], trace[|trace| - 1];
      Count(cfg, start, prefix, kind)
      + One(Is(cfg, Replay(cfg, start, prefix), e, Replay(cfg, start, trace), kind))
  }

  /** What one step adds to the five counters. */
  predicate Adds(cfg: Config, s: State, e: Event, s': State) {
    && s'.attempts == s.attempts + One(Is(cfg, s, e, s', Executed))
    && s'.committed == s.committed + One(Is(cfg, s, e, s', Committed))
    && s'.resumed == s.resumed + One(Is(cfg, s, e, s', Resumed))
    && s'.splits == s.splits + One(Is(cfg, s, e, s', SplitUp))
    && s'.retries == s.retries + One(Is(cfg, s, e, s', Retried))
  }

  lemma FailAdds(cfg: Config, s: State, i: nat, exn: Exn, now: real, draw: real, s': State)
    requires s.stop.None? && i < |s.inflight| && s' == AfterFail(cfg, s, i, exn, now, draw)
    ensures Adds(cfg, s, Fail(i, exn, now, draw), s')
  {
    var taken, ad, e := Taken(s, i), s.inflight[i], Fail(i, exn, now, draw);
    match Classify(cfg, exn, ad.item)
    case ToSplit => SplitAdds(cfg, s, e, taken, s');
    case ToRetry => RetryAdds(cfg, s, e, taken, NextDelay(cfg, taken, ad, exn, draw), s');
    case ToFatal => FatalAdds(cfg, s, e, s');
  }

  lemma SplitAdds(cfg: Config, s: State, e: Event, taken: State, s': State)
    requires s.stop.None? && e.Fail? && e.i < |s.inflight| && taken == Taken(s, e.i)
    requires SplitWanted(cfg, e.exn, s.inflight[e.i].item) && s' == Split(cfg, taken, s.inflight[e.i])
    ensures Adds(cfg, s, e, s')
  {
    SplitCounters(cfg, taken, s.inflight[e.i], s');
    CountsOne(cfg, s, e, s');
  }

  lemma SplitCounters(cfg: Config, s: State, ad: Admitted, s': State)
    requires s.stop.None? && s' == Split(cfg, s, ad)
    ensures s'.attempts == s.attempts && s'.committed == s.committed && s'.resumed == s.resumed && s'.retries == s.retries
    ensures s'.splits == s.splits + One(s'.stop.None?)
  {
    Accounting.SplitCounts(cfg, s, ad);
  }

  lemma CountsOne(cfg: Config, s: State, e: Event, s': State)
    requires e.Fail? && e.i < |s.inflight| && SplitWanted(cfg, e.exn, s.inflight[e.i].item)
    requires s'.attempts == s.attempts && s'.committed == s.committed && s'.resumed == s.resumed
    requires s'.retries == s.retries && s'.splits == s.splits + One(s'.stop.None?)
    ensures Adds(cfg, s, e, s')
  {}

  lemma RetryAdds(cfg: Config, s: State, e: Event, taken: State, delay: real, s': State)
    requires s.stop.None? && e.Fail? && e.i < |s.inflight| && taken == Taken(s, e.i)
    requires !SplitWanted(cfg, e.exn, s.inflight[e.i].item)
    requires s' == Retry(cfg, taken, s.inflight[e.i], e.exn, e.now, delay)
    ensures Adds(cfg, s, e, s')
  {
    Accounting.RetryCounts(cfg, taken, s.inflight[e.i], e.exn, e.now, delay);
  }

  lemma FatalAdds(cfg: Config, s: State, e: Event, s': State)
    requires e.Fail? && e.i < |s.inflight| && s' == Taken(s, e.i).(stop := Some(Fatal(e.exn)))
    ensures Adds(cfg, s, e, s')
  {}

  lemma DispatchAdds(cfg: Config, s: State, lookup: Lookup, s': State)
    requires s.ready != [] && s' == AfterDispatch(s, lookup)
    ensures Adds(cfg, s, Dispatch(lookup), s')
  {}

  lemma FinishAdds(cfg: Config, s: State, i: nat, records: Jsonl.Records, persist: Persist, s': State)
    requires i < |s.inflight| && s' == AfterFinish(cfg, s, i, records, persist)
    ensures Adds(cfg, s, Finish(i, records, persist), s')
  {}

  lemma StepAdds(cfg: Config, s: State, e: Event, s': State)
    requires Enabled(cfg, s, e) && s' == Step(cfg, s, e)
    ensures Adds(cfg, s, e, s')
  {
    match e
    case Dispatch(lookup) => DispatchAdds(cfg, s, lookup, s');
    case Finish(i, records, persist) => FinishAdds(cfg, s, i, records, persist, s');
    case Fail(i, exn, now, draw) => FailAdds(cfg, s, i, exn, now, draw, s');
    case Promote(_) =>
  }

  /** In every reachable state each counter is the number of events it is named after. */
  lemma {:induction false} CountersCount(cfg: Config, items: seq<Item>, cache: map<string, Store.Cached>,
        trace: seq<Event>)
    requires Possible(cfg, Start(cfg, items, cache), trace)
    ensures var start := Start(cfg, items, cache); var s := Replay(cfg, start, trace);
      && s.attempts == Count(cfg, start, trace, Executed) && s.committed == Count(cfg, start, trace, Committed)
      && s.resumed == Count(cfg, start, trace, Resumed) && s.splits == Count(cfg, start, trace, SplitUp)
      && s.retries == Count(cfg, start, trace, Retried)
  {
    if trace != [] {
      var start, prefix, e := Start(cfg, items, cache), trace[..|trace| - 1], trace[|trace| - 1];
      CountersCount(cfg, items, cache, prefix);
      StepAdds(cfg, Replay(cfg, start, prefix), e, Replay(cfg, start, trace));
    }
  }

  // ---------------------------------------------------------------- the worker cap

  /** No more futures are in flight than the concurrency asked for, or one. */
  lemma WorkersAreBounded(cfg: Config, items: seq<Item>, cache: map<string, Store.Cached>, trace: seq<Event>, k: nat)
    requires Possible(cfg, Start(cfg, items, cache), trace) && k >= 1 && k >= cfg.concurrency
    ensures |Replay(cfg, Start(cfg, items, cache), trace).inflight| <= k
  {
    Accounting.ReachableCounts(cfg, items, cache, trace);
  }

  // ---------------------------------------------------------------- the exception that ends a run

  /** Why a split of an item is refused: at the depth cap before the policy is asked, then for
      want of children, then because all sizes mean something and some child is not smaller,
      and last because a child's key is live already. */
  ghost predicate RefusedFor(cfg: Config, ad: Admitted, f: Failure)
    requires cfg.splitPolicy.Some?
  {
    var children, size := cfg.splitPolicy.value.split(ad.item), cfg.splitSize;
    var meaningful := size(ad.item) > 0 && forall c | c in children :: size(c) > 0;
    if ad.depth >= cfg.maxSplitDepth then f == DepthCap
    else if |children| == 0 then f == NoChildren
    else if meaningful && exists c :: c in children && size(c) >= size(ad.item) then f == NotShrinking
    else f == KeyCollision
  }

  /** The server asks for a delay the run does not accept. */
  predicate AsksTooMuch(cfg: Config, exn: Exn) {
    && cfg.retry.retryAfter.Some? && cfg.retry.retryAfter.value(exn).Some?
    && var asked := cfg.retry.retryAfter.value(exn).value;
       asked.NotFinite? || asked.s < 0.0 || asked.s > cfg.retry.maxServerDelay
  }

  lemma SplitEnds(cfg: Config, s: State, ad: Admitted, s': State)
    requires s.stop.None? && s' == Split(cfg, s, ad) && s'.stop.Some? && cfg.splitPolicy.Some?
    ensures RefusedFor(cfg, ad, s'.stop.value)
  {}

  lemma RetryEnds(cfg: Config, s: State, ad: Admitted, exn: Exn, now: real, delay: real, s': State)
    requires s.stop.None? && s' == Retry(cfg, s, ad, exn, now, delay)
    ensures var last := TransientCount(s, ad.key) + 1 >= cfg.retry.maxAttempts;
      s'.stop == if last then Some(Fatal(exn)) else if AsksTooMuch(cfg, exn) then Some(RetryAfterError) else None
  {}

  /** How a failure leaves the run: a wanted split goes through or ends it with the reason it is
      refused for; an OOM that is not split, and anything not transient, ends it with that very
      exception; a transient failure ends it with that very exception at the last attempt, or
      with a RetryAfterError if the server asks for too much, and else not at all. */
  lemma FailureEnds(cfg: Config, s: State, i: nat, exn: Exn, now: real, draw: real, s': State)
    requires s.stop.None? && i < |s.inflight| && s' == AfterFail(cfg, s, i, exn, now, draw)
    ensures var ad := s.inflight[i]; var last := TransientCount(s, ad.key) + 1 >= cfg.retry.maxAttempts;
      && (SplitWanted(cfg, exn, ad.item) && s'.stop.Some? ==> RefusedFor(cfg, ad, s'.stop.value))
      && (!SplitWanted(cfg, exn, ad.item) ==>
            s'.stop == if cfg.isOom(exn) || !cfg.isTransient(exn) || last then Some(Fatal(exn))
                       else if AsksTooMuch(cfg, exn) then Some(RetryAfterError)
                       else None)
  {
    var taken, ad := Taken(s, i), s.inflight[i];
    match Classify(cfg, exn, ad.item)
    case ToSplit => if s'.stop.Some? { SplitEnds(cfg, taken, ad, s'); }
    case ToRetry => RetryEnds(cfg, taken, ad, exn, now, NextDelay(cfg, taken, ad, exn, draw), s');
    case ToFatal =>
  }
}
