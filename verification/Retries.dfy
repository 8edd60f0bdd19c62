/** Bounded retry: how often a key runs, how long it waits, and when it may run again. */
module Retries {
  import Jsonl
  import Work
  import Store
  import opened Scheduler
  import opened Flow
  import opened Conservation

  function MaxRuns(cfg: Config): nat {
    if cfg.retry.maxAttempts < 1 then 1 else cfg.retry.maxAttempts
  }

  function Runs(s: State, key: string): nat {
    RunsOf(s.hist, key)
  }

  /** A pending item has run once per transient failure, plus once if it is running now. */
  ghost predicate RunsMatch(cfg: Config, s: State, a: Admitted) {
    && TransientCount(s, a.key) < MaxRuns(cfg)
    && Runs(s, a.key) == TransientCount(s, a.key) + (if a in s.inflight then 1 else 0)
  }

  ghost predicate Bounded(cfg: Config, s: State) {
    && (forall k | k in s.hist.runs :: s.hist.runs[k] <= MaxRuns(cfg))
    && (s.stop.None? ==>
          && (forall a | a in Pending(s) :: RunsMatch(cfg, s, a))
          && (forall k | k in s.transient || k in s.hist.runs :: k in s.live))
  }

  predicate SameTries(s: State, s': State) {
    s'.transient == s.transient && s'.hist.runs == s.hist.runs
  }

  /** A key that belongs to another item of the same frontier. */
  lemma OtherKey(s: State, ad: Admitted, a: Admitted)
    requires Distinct(Frontier(s)) && ad in Frontier(s) && a in Frontier(s) - multiset{ad}
    ensures a.key != ad.key
  {}

  /** Nothing new is pending, nothing was tried. */
  lemma FewerBounded(cfg: Config, s: State, s': State)
    requires Bounded(cfg, s) && s.stop.None?
    requires forall a | a in Pending(s') :: a in Pending(s)
    requires SameTries(s, s') && s'.inflight == s.inflight && s'.live == s.live
    ensures Bounded(cfg, s')
  {
    forall a | a in Pending(s') ensures RunsMatch(cfg, s', a) { assert RunsMatch(cfg, s, a); }
  }

  /** Pending, not in flight, and the only pending item with its key. */
  ghost predicate Alone(s: State, ad: Admitted) {
    && ad in Pending(s) && ad !in s.inflight
    && forall a | a in Pending(s) && a != ad :: a.key != ad.key
  }

  lemma MissBounded(cfg: Config, s: State, ad: Admitted, s': State)
    requires Bounded(cfg, s) && s.stop.None? && Alone(s, ad) && ad.key in s.live
    requires s'.inflight == s.inflight + [ad]
    requires Pending(s') == Pending(s) && s'.transient == s.transient && s'.live == s.live
    requires s'.hist.runs == s.hist.runs[ad.key := Runs(s, ad.key) + 1]
    ensures Bounded(cfg, s')
  {
    assert RunsMatch(cfg, s, ad);
    assert forall a :: a in s'.inflight <==> a in s.inflight || a == ad;
    forall a | a in Pending(s') ensures RunsMatch(cfg, s', a) { assert RunsMatch(cfg, s, a); }
  }

  lemma HeadIsAlone(cfg: Config, s: State)
    requires s.ready != [] && Conserved(cfg, s)
    ensures Alone(s, s.ready[0]) && s.ready[0].key in s.live
  {
    var ad := s.ready[0];
    BagMembers(s.inflight);
    HeadBag(s.ready);
    assert ad in BagOf(s.ready) && ad in Frontier(s);
    assert Frontier(s)[ad] >= BagOf(s.ready)[ad] + BagOf(s.inflight)[ad];
    assert BagOf(s.inflight)[ad] == 0;
    forall a | a in Pending(s) && a != ad ensures a.key != ad.key { assert a in Frontier(s); }
  }

  lemma DispatchTries(cfg: Config, s: State, lookup: Lookup, s': State)
    requires Enabled(cfg, s, Dispatch(lookup)) && s' == AfterDispatch(s, lookup)
    ensures s'.live == s.live && s'.transient == s.transient
    ensures if lookup.Miss? then
        && s'.inflight == s.inflight + [s.ready[0]]
        && s'.hist.runs == s.hist.runs[s.ready[0].key := Runs(s, s.ready[0].key) + 1]
      else s'.inflight == s.inflight && s'.hist.runs == s.hist.runs
  {}

  lemma DispatchOtherBounded(cfg: Config, s: State, lookup: Lookup, s': State)
    requires Bounded(cfg, s) && Enabled(cfg, s, Dispatch(lookup)) && s' == AfterDispatch(s, lookup)
    requires !lookup.Miss?
    ensures Bounded(cfg, s')
  {
    DispatchTries(cfg, s, lookup, s');
    assert forall a | a in Pending(s') :: a in Pending(s) by { DispatchFlow(s, lookup); }
    FewerBounded(cfg, s, s');
  }

  lemma DispatchMissBounded(cfg: Config, s: State, s': State)
    requires Bounded(cfg, s) && Enabled(cfg, s, Dispatch(Miss)) && s' == AfterDispatch(s, Miss)
    requires Alone(s, s.ready[0]) && s.ready[0].key in s.live
    ensures Bounded(cfg, s')
  {
    DispatchTries(cfg, s, Miss, s');
    assert Pending(s') == Pending(s) by { DispatchFlow(s, Miss); }
    MissBounded(cfg, s, s.ready[0], s');
  }

  lemma TakenIsAlone(s: State, i: nat)
    requires Distinct(Frontier(s)) && i < |s.inflight|
    ensures forall a :: a in Taken(s, i).inflight <==> a in s.inflight && a != s.inflight[i]
    ensures forall a | a in Pending(Taken(s, i)) :: a.key != s.inflight[i].key
  {
    var ad := s.inflight[i];
    TakenFlow(s, i);
    RemoveBag(s.inflight, i);
    assert ad in Frontier(s) && Frontier(s)[ad] >= BagOf(s.inflight)[ad];
    BagMembers(Taken(s, i).inflight);
    BagMembers(s.inflight);
    forall a | a in Pending(Taken(s, i)) ensures a.key != ad.key { OtherKey(s, ad, a); }
  }

  lemma TakenBounded(cfg: Config, s: State, i: nat)
    requires Conserved(cfg, s) && Bounded(cfg, s) && i < |s.inflight| && s.stop.None?
    ensures Bounded(cfg, Taken(s, i))
    ensures Runs(s, s.inflight[i].key) == TransientCount(s, s.inflight[i].key) + 1
  {
    var taken, ad := Taken(s, i), s.inflight[i];
    TakenFlow(s, i);
    TakenIsAlone(s, i);
    assert RunsMatch(cfg, s, ad);
    forall a | a in Pending(taken) ensures RunsMatch(cfg, taken, a) {
      assert RunsMatch(cfg, s, a);
    }
  }

  lemma FinishTries(cfg: Config, s: State, i: nat, records: Jsonl.Records, persist: Persist, s': State)
    requires i < |s.inflight| && s' == AfterFinish(cfg, s, i, records, persist)
    ensures SameTries(Taken(s, i), s') && s'.live == s.live && s'.inflight == Taken(s, i).inflight
    ensures Pending(s') == Pending(Taken(s, i))
  {}

  lemma FinishBounded(cfg: Config, s: State, i: nat, records: Jsonl.Records, persist: Persist, s': State)
    requires Conserved(cfg, s) && Bounded(cfg, s) && Enabled(cfg, s, Finish(i, records, persist))
    requires s' == AfterFinish(cfg, s, i, records, persist)
    ensures Bounded(cfg, s')
  {
    var taken := Taken(s, i);
    assert Bounded(cfg, taken) by { TakenBounded(cfg, s, i); }
    FinishTries(cfg, s, i, records, persist, s');
    FewerBounded(cfg, taken, s');
  }

  lemma RetryBounded(cfg: Config, s: State, ad: Admitted, exn: Work.Exn, now: real, delay: real)
    requires s.stop.None? && Bounded(cfg, s) && ad.key in s.live
    requires forall a | a in Pending(s) :: a.key != ad.key
    requires Runs(s, ad.key) == TransientCount(s, ad.key) + 1 && ad !in s.inflight
    ensures Bounded(cfg, Retry(cfg, s, ad, exn, now, delay))
  {
    var s' := Retry(cfg, s, ad, exn, now, delay);
    RetryFlow(cfg, s, ad, exn, now, delay);
    RetryTries(cfg, s, ad, exn, now, delay);
    forall a | a in Pending(s') && s'.stop.None? ensures RunsMatch(cfg, s', a) {
      if a != ad { assert a in Pending(s) && RunsMatch(cfg, s, a); }
    }
  }

  lemma RetryTries(cfg: Config, s: State, ad: Admitted, exn: Work.Exn, now: real, delay: real)
    ensures var s' := Retry(cfg, s, ad, exn, now, delay);
      && s'.transient == s.transient[ad.key := TransientCount(s, ad.key) + 1] && s'.hist.runs == s.hist.runs
      && s'.live == s.live && s'.inflight == s.inflight
      && (s.stop.None? && s'.stop.None? ==> TransientCount(s, ad.key) + 1 < MaxRuns(cfg))
  {}

  lemma SplitBounded(cfg: Config, s: State, ad: Admitted, r: Admission, s': State)
    requires s.stop.None? && Bounded(cfg, s)
    requires r == AdmitChildren(cfg, s, ad) && s' == Split(cfg, s, ad)
    requires Registered(cfg, Pending(s), s.live)
    ensures Bounded(cfg, s')
  {
    SplitCases(cfg, s, ad, r, s');
    if s'.stop.None? {
      SplitIsFresh(cfg, s, ad, r, s');
      ChildrenBounded(cfg, s, ad, r, s');
    }
  }

  lemma ChildrenBounded(cfg: Config, s: State, ad: Admitted, r: Admission, s': State)
    requires s.stop.None? && Bounded(cfg, s) && Registered(cfg, Pending(s), s.live)
    requires SplitInto(cfg, s, ad, r, s') && FreshChildren(cfg, s.live, r)
    requires SameTries(s, s') && s'.inflight == s.inflight
    ensures Bounded(cfg, s')
  {
    BagMembers(s.inflight);
    forall a | a in Pending(s') ensures RunsMatch(cfg, s', a) {
      if a in BagOf(r.ads) {
        assert a.key !in s.live;
        assert a !in Pending(s);
      } else {
        assert a in Pending(s) && RunsMatch(cfg, s, a);
      }
    }
  }

  /** What handling a failure needs of the state its item has been taken out of. */
  lemma TakenIsReady(cfg: Config, s: State, i: nat)
    requires Conserved(cfg, s) && Bounded(cfg, s) && i < |s.inflight| && s.stop.None?
    ensures var taken, ad := Taken(s, i), s.inflight[i];
      && Bounded(cfg, taken) && Registered(cfg, Pending(taken), taken.live) && ad.key in taken.live
      && (forall a | a in Pending(taken) :: a.key != ad.key) && ad !in taken.inflight
      && Runs(taken, ad.key) == TransientCount(taken, ad.key) + 1
  {
    TakenFlow(s, i);
    TakenBounded(cfg, s, i);
    TakenIsAlone(s, i);
    assert s.inflight[i] in Frontier(s);
  }

  lemma FailBounded(cfg: Config, s: State, i: nat, exn: Work.Exn, now: real, draw: real)
    requires Conserved(cfg, s) && Bounded(cfg, s) && Enabled(cfg, s, Fail(i, exn, now, draw))
    ensures Bounded(cfg, AfterFail(cfg, s, i, exn, now, draw))
  {
    var taken, ad := Taken(s, i), s.inflight[i];
    TakenIsReady(cfg, s, i);
    match Classify(cfg, exn, ad.item)
    case ToSplit =>
      SplitBounded(cfg, taken, ad, AdmitChildren(cfg, taken, ad), Split(cfg, taken, ad));
    case ToRetry => RetryBounded(cfg, taken, ad, exn, now, NextDelay(cfg, taken, ad, exn, draw));
    case ToFatal =>
  }

  lemma StepBounded(cfg: Config, s: State, e: Event)
    requires s.stop.None? && Conserved(cfg, s) && Bounded(cfg, s) && Enabled(cfg, s, e)
    ensures Bounded(cfg, Step(cfg, s, e))
  {
    match e
    case Dispatch(lookup) =>
      if lookup.Miss? {
        HeadIsAlone(cfg, s);
        DispatchMissBounded(cfg, s, Step(cfg, s, e));
      } else {
        DispatchOtherBounded(cfg, s, lookup, Step(cfg, s, e));
      }
    case Finish(i, records, persist) => FinishBounded(cfg, s, i, records, persist, Step(cfg, s, e));
    case Fail(i, exn, now, draw) => FailBounded(cfg, s, i, exn, now, draw);
    case Promote(clock) => PromoteBounded(cfg, s, clock);
  }

  lemma PromoteBounded(cfg: Config, s: State, clock: real)
    requires Bounded(cfg, s)
    ensures Bounded(cfg, AfterPromote(s, clock))
  {
    PromoteFlow(s, clock);
    if s.stop.None? {
      FewerBounded(cfg, s, AfterPromote(s, clock));
    }
  }

  lemma {:induction false} RunsStayBounded(cfg: Config, items: seq<Work.Item>, cache: map<string, Store.Cached>,
        trace: seq<Event>)
    requires Possible(cfg, Start(cfg, items, cache), trace)
    ensures Bounded(cfg, Replay(cfg, Start(cfg, items, cache), trace))
  {
    var start := Start(cfg, items, cache);
    if trace != [] {
      var before, e := Replay(cfg, start, trace[..|trace| - 1]), trace[|trace| - 1];
      RunsStayBounded(cfg, items, cache, trace[..|trace| - 1]);
      ReachableConserved(cfg, items, cache, trace[..|trace| - 1]);
      if before.stop.None? {
        StepBounded(cfg, before, e);
      } else {
        StoppedStays(cfg, before, e);
      }
    } else if start.stop.None? {
      StartFlow(cfg, items, cache);
    }
  }

  // ---------------------------------------------------------------- executions in a trace

  /** How often items with this key are submitted for execution. */
  function Executions(cfg: Config, start: State, trace: seq<Event>, key: string): nat {
    if trace == [] then 0
    else
      var prefix, e := trace[..|trace| - 1], trace[|trace| - 1];
      Executions(cfg, start, prefix, key) + (if Executes(Replay(cfg, start, prefix), e, key) then 1 else 0)
  }

  /** The head of the ready queue has this key and is submitted. */
  predicate Executes(s: State, e: Event, key: string) {
    e == Dispatch(Miss) && s.ready != [] && s.ready[0].key == key
  }

  lemma FailRuns(cfg: Config, s: State, i: nat, exn: Work.Exn, now: real, draw: real, s': State)
    requires s.stop.None? && i < |s.inflight| && s' == AfterFail(cfg, s, i, exn, now, draw)
    ensures s'.hist.runs == s.hist.runs
  {
    var taken, ad := Taken(s, i), s.inflight[i];
    match Classify(cfg, exn, ad.item)
    case ToSplit => SplitCases(cfg, taken, ad, AdmitChildren(cfg, taken, ad), s');
    case ToRetry => RetryTries(cfg, taken, ad, exn, now, NextDelay(cfg, taken, ad, exn, draw));
    case ToFatal =>
  }

  lemma StepRuns(cfg: Config, s: State, e: Event, s': State, key: string)
    requires Enabled(cfg, s, e) && s' == Step(cfg, s, e)
    ensures Runs(s', key) == Runs(s, key) + if Executes(s, e, key) then 1 else 0
  {
    match e
    case Dispatch(lookup) => DispatchTries(cfg, s, lookup, s');
    case Finish(i, records, persist) => FinishTries(cfg, s, i, records, persist, s');
    case Fail(i, exn, now, draw) => FailRuns(cfg, s, i, exn, now, draw, s');
    case Promote(_) =>
  }

  lemma {:induction false} RunsAreExecutions(cfg: Config, items: seq<Work.Item>, cache: map<string, Store.Cached>,
        trace: seq<Event>, key: string)
    requires Possible(cfg, Start(cfg, items, cache), trace)
    ensures Runs(Replay(cfg, Start(cfg, items, cache), trace), key) == Executions(cfg, Start(cfg, items, cache), trace, key)
  {
    if trace != [] {
      var start, prefix := Start(cfg, items, cache), trace[..|trace| - 1];
      RunsAreExecutions(cfg, items, cache, prefix, key);
      StepRuns(cfg, Replay(cfg, start, prefix), trace[|trace| - 1], Replay(cfg, start, trace), key);
    }
  }

  /** Each key is executed at most max(1, max_attempts) times per run. */
  lemma RunsAreBounded(cfg: Config, items: seq<Work.Item>, cache: map<string, Store.Cached>, trace: seq<Event>,
        key: string, most: int)
    requires Possible(cfg, Start(cfg, items, cache), trace) && most >= 1 && most >= cfg.retry.maxAttempts
    ensures Executions(cfg, Start(cfg, items, cache), trace, key) <= most
  {
    RunsStayBounded(cfg, items, cache, trace);
    RunsAreExecutions(cfg, items, cache, trace, key);
  }
}
