/** The counters of a run, and what its end means. */
module Accounting {
  import Jsonl
  import opened Work
  import Store
  import opened Scheduler
  import opened Flow
  import opened Conservation

  /** attempts = committed + splits + transient_retries + in flight, plus the one execution
      that made the run raise, if one did; and every root and split child is somewhere. */
  predicate Counts(cfg: Config, roots: nat, s: State) {
    && s.committed == |s.hist.committedLog| && s.resumed == |s.hist.resumedLog|
    && |s.inflight| <= MaxWorkers(cfg)
    && var accounted := s.committed + s.splits + s.retries + |s.inflight|;
       if s.stop.None? then
         && s.attempts == accounted
         && |s.ready| + |s.delayed| + |s.inflight| + s.resumed + s.committed == roots + s.hist.grown
       else s.attempts == accounted || s.attempts == accounted + 1
  }

  lemma {:induction false} PushLength(heap: seq<Delayed>, d: Delayed)
    ensures |Push(heap, d)| == |heap| + 1
  {
    if heap != [] && !Earlier(d, heap[0]) {
      PushLength(heap[1..], d);
    }
  }

  predicate SameCompletions(s: State, s': State) {
    && s'.attempts == s.attempts && s'.committed == s.committed && s'.resumed == s.resumed
    && s'.inflight == s.inflight
    && s'.hist.committedLog == s.hist.committedLog && s'.hist.resumedLog == s.hist.resumedLog
  }

  lemma SplitCounts(cfg: Config, s: State, ad: Admitted)
    requires s.stop.None?
    ensures var s' := Split(cfg, s, ad);
      && SameCompletions(s, s') && s'.retries == s.retries && s'.delayed == s.delayed
      && s'.splits == (if s'.stop.None? then s.splits + 1 else s.splits)
      && (s'.stop.None? ==> |s'.ready| - |s.ready| == 1 + s'.hist.grown - s.hist.grown)
  {
    SplitCases(cfg, s, ad, AdmitChildren(cfg, s, ad), Split(cfg, s, ad));
  }

  lemma RetryCounts(cfg: Config, s: State, ad: Admitted, exn: Exn, now: real, delay: real)
    requires s.stop.None?
    ensures var s' := Retry(cfg, s, ad, exn, now, delay);
      && SameCompletions(s, s') && s'.splits == s.splits && s'.ready == s.ready
      && s'.retries == (if s'.stop.None? then s.retries + 1 else s.retries)
      && (s'.stop.None? ==> |s'.delayed| - |s.delayed| == 1 && s'.hist.grown == s.hist.grown)
  {
    PushLength(s.delayed, Delayed(now + delay, s.seqNo, ad));
  }

  lemma RoutedCounts(cfg: Config, s: State, ad: Admitted, exn: Exn, now: real, draw: real)
    requires s.stop.None?
    ensures var s' := Routed(cfg, s, ad, exn, now, draw);
      && SameCompletions(s, s')
      && s'.splits + s'.retries == s.splits + s.retries + (if s'.stop.None? then 1 else 0)
      && (s'.stop.None? ==> |s'.ready| + |s'.delayed| == |s.ready| + |s.delayed| + 1 + s'.hist.grown - s.hist.grown)
  {
    match Classify(cfg, exn, ad.item)
    case ToSplit => SplitCounts(cfg, s, ad);
    case ToRetry => RetryCounts(cfg, s, ad, exn, now, NextDelay(cfg, s, ad, exn, draw));
    case ToFatal =>
  }

  lemma DispatchCounts(cfg: Config, roots: nat, s: State, lookup: Lookup)
    requires Counts(cfg, roots, s) && Enabled(cfg, s, Dispatch(lookup))
    ensures Counts(cfg, roots, AfterDispatch(s, lookup))
  {}

  lemma FinishCounts(cfg: Config, roots: nat, s: State, i: nat, records: Jsonl.Records, persist: Persist)
    requires Counts(cfg, roots, s) && Enabled(cfg, s, Finish(i, records, persist))
    ensures Counts(cfg, roots, AfterFinish(cfg, s, i, records, persist))
  {}

  /** A failure that makes the run raise is the one execution the counters do not cover. */
  predicate OneUncounted(s: State) {
    s.attempts == s.committed + s.splits + s.retries + |s.inflight| + 1
  }

  lemma FailCounts(cfg: Config, roots: nat, s: State, i: nat, exn: Exn, now: real, draw: real)
    requires Counts(cfg, roots, s) && Enabled(cfg, s, Fail(i, exn, now, draw))
    ensures Counts(cfg, roots, AfterFail(cfg, s, i, exn, now, draw))
    ensures AfterFail(cfg, s, i, exn, now, draw).stop.Some? ==> OneUncounted(AfterFail(cfg, s, i, exn, now, draw))
  {
    RoutedCounts(cfg, Taken(s, i), s.inflight[i], exn, now, draw);
  }

  lemma StepCounts(cfg: Config, roots: nat, s: State, e: Event)
    requires Counts(cfg, roots, s) && Enabled(cfg, s, e)
    ensures Counts(cfg, roots, Step(cfg, s, e))
    ensures s.stop.None? && e.Fail? && Step(cfg, s, e).stop.Some? ==> OneUncounted(Step(cfg, s, e))
  {
    match e
    case Dispatch(lookup) => DispatchCounts(cfg, roots, s, lookup);
    case Finish(i, records, persist) => FinishCounts(cfg, roots, s, i, records, persist);
    case Fail(i, exn, now, draw) => FailCounts(cfg, roots, s, i, exn, now, draw);
    case Promote(_) =>
  }

  lemma StartCounts(cfg: Config, items: seq<Item>, cache: map<string, Store.Cached>)
    ensures Counts(cfg, |items|, Start(cfg, items, cache))
  {
    AdmissionFacts(cfg, items, 0, map[]);
  }

  /** In every state a run can reach. */
  lemma {:induction false} ReachableCounts(cfg: Config, items: seq<Item>, cache: map<string, Store.Cached>,
        trace: seq<Event>)
    requires Possible(cfg, Start(cfg, items, cache), trace)
    ensures Counts(cfg, |items|, Replay(cfg, Start(cfg, items, cache), trace))
  {
    if trace == [] {
      StartCounts(cfg, items, cache);
    } else {
      ReachableCounts(cfg, items, cache, trace[..|trace| - 1]);
      StepCounts(cfg, |items|, Replay(cfg, Start(cfg, items, cache), trace[..|trace| - 1]), trace[|trace| - 1]);
    }
  }

  // ---------------------------------------------------------------- the end of a run

  lemma OneKeyLess(bag: Bag, a: Admitted, rest: Bag, k: string)
    requires Distinct(bag) && a in bag && rest == bag - multiset{a}
    ensures HasKey(rest, k) <==> HasKey(bag, k) && k != a.key
  {
    if HasKey(bag, k) && k != a.key {
      var b :| b in bag && b.key == k;
      assert b in rest;
    }
    if HasKey(rest, k) {
      var b :| b in rest && b.key == k;
      assert b in bag && b != a;
    }
  }

  lemma {:induction false} KeyCount(bag: Bag, keys: set<string>)
    requires Distinct(bag) && forall k :: k in keys <==> HasKey(bag, k)
    ensures |keys| == |bag|
    decreases |bag|
  {
    if bag == multiset{} {
      assert forall k :: !HasKey(bag, k);
    } else {
      var a :| a in bag;
      var rest := bag - multiset{a};
      assert HasKey(bag, a.key);
      forall k ensures k in keys - {a.key} <==> HasKey(rest, k) { OneKeyLess(bag, a, rest, k); }
      assert Distinct(rest);
      KeyCount(rest, keys - {a.key});
    }
  }

  /** The end of a run's books. */
  ghost predicate Settles(roots: nat, s: State) {
    && Distinct(Settled(s))
    && (forall k :: k in s.terminal <==> HasKey(Settled(s), k))
    && |s.terminal| == s.resumed + s.committed == roots + s.hist.grown
    && s.attempts == s.committed + s.splits + s.retries
  }

  lemma NothingPending(s: State)
    requires !Busy(s)
    ensures Pending(s) == multiset{} && Frontier(s) == Settled(s)
  {
    BagNone();
    assert Ads(s.delayed) == [];
  }

  lemma SettledSize(s: State)
    ensures |Settled(s)| == |s.hist.resumedLog| + |s.hist.committedLog|
  {
    BagSize(s.hist.resumedLog);
    BagSize(s.hist.committedLog);
  }

  lemma FinishedSettles(cfg: Config, roots: nat, s: State)
    requires Finished(s) && Conserved(cfg, s) && Counts(cfg, roots, s)
    ensures Settles(roots, s)
  {
    NothingPending(s);
    SettledSize(s);
    KeyCount(Settled(s), s.terminal);
  }

  /** When the loop ends without an exception, every terminal key was resumed or committed,
      exactly once, and the counters say so. */
  lemma FinishedExactlyOnce(cfg: Config, items: seq<Item>, cache: map<string, Store.Cached>, trace: seq<Event>)
    requires Possible(cfg, Start(cfg, items, cache), trace)
    requires Finished(Replay(cfg, Start(cfg, items, cache), trace))
    ensures Settles(|items|, Replay(cfg, Start(cfg, items, cache), trace))
  {
    ReachableConserved(cfg, items, cache, trace);
    ReachableCounts(cfg, items, cache, trace);
    FinishedSettles(cfg, |items|, Replay(cfg, Start(cfg, items, cache), trace));
  }

  /** The loop is never stuck: in any state with work left and no exception pending, an item
      can be dispatched, or a future can finish, or a delayed item can mature. */
  lemma NeverStuck(cfg: Config, s: State)
    requires Busy(s) && s.stop.None?
    ensures
      || (s.inflight != [] && forall records :: Enabled(cfg, s, Finish(0, records, Stored)))
      || (s.ready != [] && exists lookup :: Enabled(cfg, s, Dispatch(lookup)))
      || (s.delayed != [] && AfterPromote(s, s.delayed[0].readyAt).ready != [])
  {
    if s.ready != [] && s.inflight == [] {
      var ad := s.ready[0];
      var lookup := if ad.key !in s.cache then Miss else if s.cache[ad.key].hash == ad.hash then Hit else HasRaised;
      assert Enabled(cfg, s, Dispatch(lookup));
    }
  }
}
