/** Runs one after the other over the same cache: what a failed run leaves behind, how often
    a result is committed in the end, and what running again after a success does. */
module Resume {
  import Jsonl
  import opened Work
  import opened Store
  import opened StoreObject
  import opened Scheduler
  import opened Flow
  import opened Conservation
  import opened Transparency
  import Accounting
  import Totals

  // ---------------------------------------------------------------- one run

  /** The item yields a result the record validator accepts. */
  predicate Accepted(cfg: Config, outcome: Item -> Outcome, a: Admitted) {
    outcome(a.item).Yields? && cfg.accepts(outcome(a.item).records)
  }

  /** The commits whose results the store will answer for. */
  function AcceptedOf(cfg: Config, outcome: Item -> Outcome, log: seq<Admitted>): seq<Admitted> {
    if log == [] then []
    else if Accepted(cfg, outcome, log[0]) then [log[0]] + AcceptedOf(cfg, outcome, log[1..])
    else AcceptedOf(cfg, outcome, log[1..])
  }

  lemma {:induction false} AcceptedMembers(cfg: Config, outcome: Item -> Outcome, log: seq<Admitted>)
    ensures forall a :: a in AcceptedOf(cfg, outcome, log) <==> a in log && Accepted(cfg, outcome, a)
  {
    if log != [] {
      AcceptedMembers(cfg, outcome, log[1..]);
      assert forall a :: a in log <==> a == log[0] || a in log[1..];
    }
  }

  lemma {:induction false} AcceptedJoin(cfg: Config, outcome: Item -> Outcome, a: seq<Admitted>, b: seq<Admitted>)
    ensures AcceptedOf(cfg, outcome, a + b) == AcceptedOf(cfg, outcome, a) + AcceptedOf(cfg, outcome, b)
  {
    if a == [] {
      assert a + b == b && [] + AcceptedOf(cfg, outcome, b) == AcceptedOf(cfg, outcome, b);
    } else {
      var x, y := AcceptedOf(cfg, outcome, a[1..]), AcceptedOf(cfg, outcome, b);
      assert (a + b)[1..] == a[1..] + b;
      AcceptedJoin(cfg, outcome, a[1..], b);
      assert [a[0]] + (x + y) == ([a[0]] + x) + y;
    }
  }

  lemma AcceptedSnoc(cfg: Config, outcome: Item -> Outcome, log: seq<Admitted>, ad: Admitted)
    ensures AcceptedOf(cfg, outcome, log + [ad]) ==
      if Accepted(cfg, outcome, ad) then AcceptedOf(cfg, outcome, log) + [ad] else AcceptedOf(cfg, outcome, log)
  {
    AcceptedJoin(cfg, outcome, log, [ad]);
    assert [ad][1..] == [] && [ad] + [] == [ad];
    assert AcceptedOf(cfg, outcome, log) + [] == AcceptedOf(cfg, outcome, log);
  }

  predicate RunningAreMisses(s: State) {
    forall a | a in s.inflight :: a.key !in s.cache
  }

  /** Everything that was cached still is, as it was; only missing keys have been committed;
      no running item has an entry. */
  ghost predicate Retains(initial: map<string, Cached>, s: State) {
    && (forall k | k in initial :: k in s.cache && s.cache[k] == initial[k])
    && (forall a | a in s.hist.committedLog :: a.key !in initial)
    && (s.stop.None? ==> RunningAreMisses(s))
  }

  lemma SameCacheRetains(initial: map<string, Cached>, s: State, s': State)
    requires Retains(initial, s) && s.stop.None?
    requires s'.cache == s.cache && s'.hist.committedLog == s.hist.committedLog
    requires s'.stop.None? ==> forall a | a in s'.inflight :: a in s.inflight || a.key !in s.cache
    ensures Retains(initial, s')
  {}

  lemma DispatchRetains(cfg: Config, initial: map<string, Cached>, s: State, lookup: Lookup, s': State)
    requires Retains(initial, s) && Enabled(cfg, s, Dispatch(lookup)) && s' == AfterDispatch(s, lookup)
    ensures Retains(initial, s')
  {
    assert s'.inflight == s.inflight || s'.inflight == s.inflight + [s.ready[0]];
    SameCacheRetains(initial, s, s');
  }

  /** What is left running after one item is taken. */
  lemma TakenRunning(s: State, i: nat)
    requires Distinct(Flow.Frontier(s)) && i < |s.inflight|
    ensures forall a | a in Remove(s.inflight, i) :: a in s.inflight && a.key != s.inflight[i].key
  {
    var ad := s.inflight[i];
    TakenFlow(s, i);
    BagMembers(Remove(s.inflight, i));
    assert ad in Flow.Frontier(s) && Flow.Frontier(s)[ad] == 1;
    forall a | a in Remove(s.inflight, i) ensures a in s.inflight && a.key != ad.key {
      assert a in Pending(Taken(s, i));
      assert a in Flow.Frontier(s) - multiset{ad};
    }
  }

  lemma FinishRetains(cfg: Config, initial: map<string, Cached>, s: State, i: nat, records: Jsonl.Records,
        persist: Persist,
        s': State)
    requires Retains(initial, s) && Conserved(cfg, s) && s.stop.None? && i < |s.inflight|
    requires s' == AfterFinish(cfg, s, i, records, persist)
    ensures Retains(initial, s')
  {
    TakenRunning(s, i);
    assert s.inflight[i].key !in initial;
  }

  lemma FailRetains(cfg: Config, initial: map<string, Cached>, s: State, i: nat, exn: Exn, now: real, draw: real,
        s': State)
    requires Retains(initial, s) && Conserved(cfg, s) && s.stop.None? && i < |s.inflight|
    requires s' == AfterFail(cfg, s, i, exn, now, draw)
    ensures Retains(initial, s')
  {
    TakenRunning(s, i);
    FailKeepsCache(cfg, s, i, exn, now, draw, s');
    SameCacheRetains(initial, s, s');
  }

  lemma FailKeepsCache(cfg: Config, s: State, i: nat, exn: Exn, now: real, draw: real, s': State)
    requires s.stop.None? && i < |s.inflight| && s' == AfterFail(cfg, s, i, exn, now, draw)
    ensures s'.cache == s.cache && s'.hist.committedLog == s.hist.committedLog && s'.inflight == Remove(s.inflight, i)
  {
    var taken, ad := Taken(s, i), s.inflight[i];
    match Classify(cfg, exn, ad.item)
    case ToSplit => SplitCases(cfg, taken, ad, AdmitChildren(cfg, taken, ad), s');
    case ToRetry =>
    case ToFatal =>
  }

  lemma StepRetains(cfg: Config, initial: map<string, Cached>, s: State, e: Event, s': State)
    requires Retains(initial, s) && Conserved(cfg, s) && s.stop.None? && Enabled(cfg, s, e) && s' == Step(cfg, s, e)
    ensures Retains(initial, s')
  {
    match e
    case Dispatch(lookup) => DispatchRetains(cfg, initial, s, lookup, s');
    case Finish(i, records, persist) => FinishRetains(cfg, initial, s, i, records, persist, s');
    case Fail(i, exn, now, draw) => FailRetains(cfg, initial, s, i, exn, now, draw, s');
    case Promote(_) => SameCacheRetains(initial, s, s');
  }

  /** A run, whether it fails, stops early or finishes, and whatever the validator thinks of
      its results, keeps every entry that was cached and commits only what was missing. */
  lemma {:induction false} RunRetains(cfg: Config, items: seq<Item>, cache: map<string, Cached>, trace: seq<Event>)
    requires Possible(cfg, Start(cfg, items, cache), trace)
    ensures Retains(cache, Replay(cfg, Start(cfg, items, cache), trace))
  {
    var start := Start(cfg, items, cache);
    if trace != [] {
      var prefix, e := trace[..|trace| - 1], trace[|trace| - 1];
      var before := Replay(cfg, start, prefix);
      RunRetains(cfg, items, cache, prefix);
      ReachableConserved(cfg, items, cache, prefix);
      if before.stop.None? {
        StepRetains(cfg, cache, before, e, Step(cfg, before, e));
      } else {
        StoppedStays(cfg, before, e);
      }
    }
  }

  predicate DistinctKeys(log: seq<Admitted>) {
    forall i, j | 0 <= i < j < |log| :: log[i].key != log[j].key
  }

  predicate NewAndDistinct(initial: map<string, Cached>, log: seq<Admitted>) {
    (forall a | a in log :: a.key !in initial) && DistinctKeys(log)
  }

  /** The cache holds the initial keys, one for every commit the validator accepts, and no
      other; every commit was of a new key, and no key was committed twice. */
  ghost predicate Extends(cfg: Config, outcome: Item -> Outcome, initial: map<string, Cached>, s: State) {
    && s.cache.Keys == initial.Keys + Keys(AcceptedOf(cfg, outcome, s.hist.committedLog))
    && NewAndDistinct(initial, s.hist.committedLog)
  }

  lemma CommitExtends(cfg: Config, outcome: Item -> Outcome, initial: map<string, Cached>, s: State, ad: Admitted,
        cache: map<string, Cached>, s': State)
    requires Extends(cfg, outcome, initial, s) && ad.key !in s.cache && ad.key !in initial
    requires forall a | a in s.hist.committedLog :: a.key != ad.key
    requires cache.Keys == if Accepted(cfg, outcome, ad) then s.cache.Keys + {ad.key} else s.cache.Keys
    requires s'.cache == cache && s'.hist.committedLog == s.hist.committedLog + [ad]
    ensures Extends(cfg, outcome, initial, s')
  {
    var log := s.hist.committedLog;
    AcceptedSnoc(cfg, outcome, log, ad);
    KeysSnoc(AcceptedOf(cfg, outcome, log), ad);
    assert forall i | 0 <= i < |log| :: log[i] in log;
  }

  /** A running item has not been committed. */
  lemma RunningIsNew(s: State, i: nat)
    requires Distinct(Flow.Frontier(s)) && i < |s.inflight|
    ensures forall a | a in s.hist.committedLog :: a.key != s.inflight[i].key
  {
    var ad := s.inflight[i];
    TakenFlow(s, i);
    BagMembers(s.hist.committedLog);
    assert ad in Flow.Frontier(s);
    assert Settled(s)[ad] == 0;
    forall a | a in s.hist.committedLog ensures a.key != ad.key {
      assert a in Settled(s);
      assert a in Flow.Frontier(s) && a != ad;
    }
  }

  lemma FinishExtends(cfg: Config, outcome: Item -> Outcome, initial: map<string, Cached>, s: State, i: nat,
        records: Jsonl.Records, persist: Persist, s': State)
    requires Extends(cfg, outcome, initial, s) && Retains(initial, s) && s.stop.None? && Conserved(cfg, s)
    requires i < |s.inflight| && outcome(s.inflight[i].item) == Yields(records)
    requires s' == AfterFinish(cfg, s, i, records, persist)
    ensures Extends(cfg, outcome, initial, s')
  {
    var ad := s.inflight[i];
    assert ad in s.inflight && ad.key !in s.cache;
    FinishedCache(cfg, s, i, records, persist, s');
    if persist.Stored? {
      RunningIsNew(s, i);
      CommitExtends(cfg, outcome, initial, s, ad, s'.cache, s');
    }
  }

  /** What a commit does to a cache that has nothing under its key. */
  lemma FinishedCache(cfg: Config, s: State, i: nat, records: Jsonl.Records, persist: Persist, s': State)
    requires i < |s.inflight| && s.inflight[i].key !in s.cache && s' == AfterFinish(cfg, s, i, records, persist)
    ensures s'.cache.Keys ==
      if persist.Stored? && cfg.accepts(records) then s.cache.Keys + {s.inflight[i].key} else s.cache.Keys
    ensures s'.hist.committedLog ==
      if persist.Stored? then s.hist.committedLog + [s.inflight[i]] else s.hist.committedLog
  {}

  lemma OtherStepsKeepCache(cfg: Config, s: State, e: Event, s': State)
    requires s.stop.None? && !e.Finish? && Enabled(cfg, s, e) && s' == Step(cfg, s, e)
    ensures s'.cache == s.cache && s'.hist.committedLog == s.hist.committedLog
  {
    match e
    case Fail(i, exn, now, draw) => FailKeepsCache(cfg, s, i, exn, now, draw, s');
    case _ =>
  }

  lemma StepExtends(cfg: Config, outcome: Item -> Outcome, initial: map<string, Cached>, s: State, e: Event, s': State)
    requires Extends(cfg, outcome, initial, s) && Retains(initial, s) && s.stop.None? && Conserved(cfg, s)
    requires Enabled(cfg, s, e) && Obeys(cfg, outcome, s, e) && s' == Step(cfg, s, e)
    ensures Extends(cfg, outcome, initial, s')
  {
    if e.Finish? {
      FinishExtends(cfg, outcome, initial, s, e.i, e.records, e.persist, s');
    } else {
      OtherStepsKeepCache(cfg, s, e, s');
    }
  }

  /** A run, whether it fails, stops early or finishes, adds to the cache exactly the commits
      whose results the validator accepts, and commits no key twice. */
  lemma {:induction false} RunExtends(cfg: Config, outcome: Item -> Outcome, items: seq<Item>,
        cache: map<string, Cached>, trace: seq<Event>)
    requires Possible(cfg, Start(cfg, items, cache), trace) && Faithful(cfg, outcome, Start(cfg, items, cache), trace)
    ensures Extends(cfg, outcome, cache, Replay(cfg, Start(cfg, items, cache), trace))
  {
    var start := Start(cfg, items, cache);
    if trace != [] {
      var prefix, e := trace[..|trace| - 1], trace[|trace| - 1];
      var before := Replay(cfg, start, prefix);
      RunExtends(cfg, outcome, items, cache, prefix);
      RunRetains(cfg, items, cache, prefix);
      if before.stop.None? {
        ReachableConserved(cfg, items, cache, prefix);
        StepExtends(cfg, outcome, cache, before, e, Step(cfg, before, e));
      } else {
        StoppedStays(cfg, before, e);
      }
    }
  }

  // ---------------------------------------------------------------- commits are leaves

  /** An item that is running and yields is a leaf of the split tree. */
  lemma RunningIsLeaf(cfg: Config, outcome: Item -> Outcome, items: seq<Item>, cache: map<string, Cached>,
        trace: seq<Event>, i: nat)
    requires Possible(cfg, Start(cfg, items, cache), trace) && Faithful(cfg, outcome, Start(cfg, items, cache), trace)
    requires Replay(cfg, Start(cfg, items, cache), trace).stop.None?
    requires i < |Replay(cfg, Start(cfg, items, cache), trace).inflight|
    ensures var ad := Replay(cfg, Start(cfg, items, cache), trace).inflight[i];
      && ad == Admit(cfg, ad.item, ad.depth)
      && (outcome(ad.item).Yields? ==> ad in LeavesOfAll(cfg, outcome, items, 0))
  {
    var s := Replay(cfg, Start(cfg, items, cache), trace);
    var ad := s.inflight[i];
    ReachableConserved(cfg, items, cache, trace);
    TakenFlow(s, i);
    assert ad in Flow.Frontier(s);
    if outcome(ad.item).Yields? {
      LeavesStay(cfg, outcome, items, cache, trace, ad);
      SettledLeaf(cfg, outcome, ad, ad);
      Totals.TotalPositive(LeafCount(cfg, outcome, ad), Flow.Frontier(s), ad);
      OccursIn(LeavesOfAll(cfg, outcome, items, 0), ad);
    }
  }

  lemma {:induction false} OccursIn(ads: seq<Admitted>, ad: Admitted)
    requires Occurrences(ads, ad) > 0
    ensures ad in ads
  {
    if ads[0] != ad { OccursIn(ads[1..], ad); }
  }

  ghost predicate AreLeaves(leaves: seq<Admitted>, log: seq<Admitted>) {
    forall a | a in log :: a in leaves
  }

  /** Everything a run commits is a leaf of the split tree, whether or not the run ends well. */
  lemma {:induction false} CommittedAreLeaves(cfg: Config, outcome: Item -> Outcome, items: seq<Item>,
        cache: map<string, Cached>, trace: seq<Event>)
    requires Possible(cfg, Start(cfg, items, cache), trace) && Faithful(cfg, outcome, Start(cfg, items, cache), trace)
    ensures AreLeaves(LeavesOfAll(cfg, outcome, items, 0),
                      Replay(cfg, Start(cfg, items, cache), trace).hist.committedLog)
  {
    var start := Start(cfg, items, cache);
    if trace != [] {
      var prefix, e := trace[..|trace| - 1], trace[|trace| - 1];
      var before := Replay(cfg, start, prefix);
      CommittedAreLeaves(cfg, outcome, items, cache, prefix);
      if before.stop.Some? {
        StoppedStays(cfg, before, e);
      } else if e.Finish? {
        RunningIsLeaf(cfg, outcome, items, cache, prefix, e.i);
      } else {
        OtherStepsKeepCache(cfg, before, e, Step(cfg, before, e));
      }
    }
  }

  /** If some run gets to its end, no two leaves share a key. */
  lemma LeavesHaveOwnKeys(cfg: Config, outcome: Item -> Outcome, items: seq<Item>, cache: map<string, Cached>,
        trace: seq<Event>)
    requires Possible(cfg, Start(cfg, items, cache), trace) && Faithful(cfg, outcome, Start(cfg, items, cache), trace)
    requires SoundCache(cfg, outcome, cache) && Finished(Replay(cfg, Start(cfg, items, cache), trace))
    ensures OwnKeys(LeavesOfAll(cfg, outcome, items, 0))
  {
    var s, leaves := Replay(cfg, Start(cfg, items, cache), trace), LeavesOfAll(cfg, outcome, items, 0);
    FinishedAtLeaves(cfg, outcome, items, cache, trace);
    BagMembers(leaves);
    forall a, b | a in leaves && b in leaves && a.key == b.key ensures a == b {
      assert a in Settled(s) && b in Settled(s);
      assert a in Flow.Frontier(s) && b in Flow.Frontier(s);
    }
  }

  ghost predicate OwnKeys(leaves: seq<Admitted>) {
    forall a, b | a in leaves && b in leaves && a.key == b.key :: a == b
  }

  // ---------------------------------------------------------------- soundness of what is left

  /** Items with one identity have one outcome: callbacks are deterministic and the content
      key identifies the work. */
  ghost predicate IdentityFixesOutcome(cfg: Config, outcome: Item -> Outcome) {
    forall a: Item, b: Item | cfg.contentKey(a.payload) == cfg.contentKey(b.payload) :: outcome(a) == outcome(b)
  }

  lemma CommitKeepsSound(cfg: Config, outcome: Item -> Outcome, cache: map<string, Cached>, ad: Admitted,
        records: Jsonl.Records)
    requires SoundCache(cfg, outcome, cache) && IdentityFixesOutcome(cfg, outcome)
    requires ad == Admit(cfg, ad.item, ad.depth) && outcome(ad.item) == Yields(records)
    ensures SoundCache(cfg, outcome, cache[ad.key := Cached(ad.hash, records)])
  {
    var after := cache[ad.key := Cached(ad.hash, records)];
    forall item ensures SoundFor(cfg, outcome, after, item) {
      assert SoundFor(cfg, outcome, cache, item);
      if cfg.contentKey(item.payload) == (ad.key, ad.hash) {
        assert outcome(item) == outcome(ad.item);
      }
    }
  }

  lemma DropKeepsSound(cfg: Config, outcome: Item -> Outcome, cache: map<string, Cached>, key: string)
    requires SoundCache(cfg, outcome, cache)
    ensures SoundCache(cfg, outcome, cache - {key})
  {
    forall item ensures SoundFor(cfg, outcome, cache - {key}, item) {
      assert SoundFor(cfg, outcome, cache, item);
    }
  }

  lemma FinishKeepsSound(cfg: Config, outcome: Item -> Outcome, s: State, i: nat, records: Jsonl.Records,
        persist: Persist)
    requires SoundCache(cfg, outcome, s.cache) && IdentityFixesOutcome(cfg, outcome) && Conserved(cfg, s)
    requires i < |s.inflight| && outcome(s.inflight[i].item) == Yields(records)
    ensures SoundCache(cfg, outcome, AfterFinish(cfg, s, i, records, persist).cache)
  {
    var ad := s.inflight[i];
    TakenFlow(s, i);
    assert ad in Flow.Frontier(s);
    CommitKeepsSound(cfg, outcome, s.cache, ad, records);
    DropKeepsSound(cfg, outcome, s.cache, ad.key);
  }

  /** A sound cache is still sound after a run, however the run went. */
  lemma {:induction false} RunKeepsSound(cfg: Config, outcome: Item -> Outcome, items: seq<Item>,
        cache: map<string, Cached>, trace: seq<Event>)
    requires Possible(cfg, Start(cfg, items, cache), trace) && Faithful(cfg, outcome, Start(cfg, items, cache), trace)
    requires SoundCache(cfg, outcome, cache) && IdentityFixesOutcome(cfg, outcome)
    ensures SoundCache(cfg, outcome, Replay(cfg, Start(cfg, items, cache), trace).cache)
  {
    var start := Start(cfg, items, cache);
    if trace != [] {
      var prefix, e := trace[..|trace| - 1], trace[|trace| - 1];
      var before := Replay(cfg, start, prefix);
      RunKeepsSound(cfg, outcome, items, cache, prefix);
      ReachableConserved(cfg, items, cache, prefix);
      if before.stop.Some? {
        StoppedStays(cfg, before, e);
      } else {
        match e
        case Finish(i, records, persist) => FinishKeepsSound(cfg, outcome, before, i, records, persist);
        case Fail(i, exn, now, draw) => FailKeepsCache(cfg, before, i, exn, now, draw, Step(cfg, before, e));
        case _ =>
      }
    }
  }

  // ---------------------------------------------------------------- many runs

  /** The state a run over the given items ends in. */
  function EndOf(cfg: Config, items: seq<Item>, cache: map<string, Cached>, trace: seq<Event>): State {
    Replay(cfg, Start(cfg, items, cache), trace)
  }

  /** The cache after running once for every trace over one open store, each run starting from
      what the one before it left. (Sessions has the runs that reopen the store.) */
  function CacheAfter(cfg: Config, items: seq<Item>, cache: map<string, Cached>,
        runs: seq<seq<Event>>): map<string, Cached>
  {
    if runs == [] then cache
    else EndOf(cfg, items, CacheAfter(cfg, items, cache, runs[..|runs| - 1]), runs[|runs| - 1]).cache
  }

  /** Every commit of all the runs, in order. */
  function Commits(cfg: Config, items: seq<Item>, cache: map<string, Cached>, runs: seq<seq<Event>>): seq<Admitted> {
    if runs == [] then []
    else
      Commits(cfg, items, cache, runs[..|runs| - 1])
      + EndOf(cfg, items, CacheAfter(cfg, items, cache, runs[..|runs| - 1]), runs[|runs| - 1]).hist.committedLog
  }

  ghost predicate RunsHappen(cfg: Config, outcome: Item -> Outcome, items: seq<Item>, cache: map<string, Cached>,
        runs: seq<seq<Event>>)
  {
    runs == [] ||
      (RunsHappen(cfg, outcome, items, cache, runs[..|runs| - 1]) &&
       var start := Start(cfg, items, CacheAfter(cfg, items, cache, runs[..|runs| - 1]));
       var trace := runs[|runs| - 1];
       Possible(cfg, start, trace) && Faithful(cfg, outcome, start, trace))
  }

  /** The initial cache and the commits whose results the validator accepts, each made once,
      and nothing else; no commit was of an initial key. */
  ghost predicate Accumulates(cfg: Config, outcome: Item -> Outcome, initial: map<string, Cached>,
        commits: seq<Admitted>, cache: map<string, Cached>)
  {
    && (forall k | k in initial :: k in cache && cache[k] == initial[k])
    && cache.Keys == initial.Keys + Keys(AcceptedOf(cfg, outcome, commits))
    && NewAndDistinct(initial, AcceptedOf(cfg, outcome, commits))
    && (forall a | a in commits :: a.key !in initial)
  }

  lemma {:induction false} AcceptedStayDistinct(cfg: Config, outcome: Item -> Outcome, log: seq<Admitted>)
    requires DistinctKeys(log)
    ensures DistinctKeys(AcceptedOf(cfg, outcome, log))
  {
    if log != [] {
      AcceptedMembers(cfg, outcome, log[1..]);
      var rest, accepted := log[1..], AcceptedOf(cfg, outcome, log[1..]);
      assert forall i, j | 0 <= i < j < |rest| :: rest[i] == log[i + 1] && rest[j] == log[j + 1];
      AcceptedStayDistinct(cfg, outcome, rest);
      forall a | a in rest ensures a.key != log[0].key {
        var i :| 0 <= i < |rest| && rest[i] == a;
        assert log[i + 1] == a;
      }
      forall j | 0 <= j < |accepted| ensures accepted[j].key != log[0].key {
        assert accepted[j] in accepted && accepted[j] in rest;
      }
      HeadDistinct(log[0], accepted);
    }
  }

  lemma HeadDistinct(ad: Admitted, rest: seq<Admitted>)
    requires DistinctKeys(rest) && forall j | 0 <= j < |rest| :: rest[j].key != ad.key
    ensures DistinctKeys([ad] + rest)
  {
    var all := [ad] + rest;
    forall i, j | 0 <= i < j < |all| ensures all[i].key != all[j].key {
      assert all[j] == rest[j - 1];
      if i > 0 { assert all[i] == rest[i - 1]; }
    }
  }

  /** One run accumulates. */
  lemma RunAccumulates(cfg: Config, outcome: Item -> Outcome, initial: map<string, Cached>, s: State)
    requires Retains(initial, s) && Extends(cfg, outcome, initial, s)
    ensures Accumulates(cfg, outcome, initial, s.hist.committedLog, s.cache)
  {
    AcceptedStayDistinct(cfg, outcome, s.hist.committedLog);
    AcceptedMembers(cfg, outcome, s.hist.committedLog);
  }

  lemma KeysJoin(a: seq<Admitted>, b: seq<Admitted>)
    ensures Keys(a + b) == Keys(a) + Keys(b)
  {
    assert forall x :: x in a + b <==> x in a || x in b;
  }

  lemma AccumulateMore(cfg: Config, outcome: Item -> Outcome, initial: map<string, Cached>, commits: seq<Admitted>,
        middle: map<string, Cached>, more: seq<Admitted>, cache: map<string, Cached>)
    requires Accumulates(cfg, outcome, initial, commits, middle) && Accumulates(cfg, outcome, middle, more, cache)
    ensures Accumulates(cfg, outcome, initial, commits + more, cache)
  {
    AcceptedJoin(cfg, outcome, commits, more);
    DistinctJoin(initial, AcceptedOf(cfg, outcome, commits), middle, AcceptedOf(cfg, outcome, more));
  }

  lemma DistinctJoin(initial: map<string, Cached>, a: seq<Admitted>, middle: map<string, Cached>, b: seq<Admitted>)
    requires NewAndDistinct(initial, a) && NewAndDistinct(middle, b) && middle.Keys == initial.Keys + Keys(a)
    ensures NewAndDistinct(initial, a + b) && Keys(a + b) == Keys(a) + Keys(b)
  {
    KeysJoin(a, b);
    var all := a + b;
    forall i, j | 0 <= i < j < |all| ensures all[i].key != all[j].key {
      if i < |a| <= j {
        assert all[i] in a && all[i].key in Keys(a);
        assert all[j] in b;
      }
    }
  }

  /** Over any sequence of runs over one open store, failed or not, nothing cached is lost and no
      key whose result the validator accepts is committed twice: the cache ends up with exactly
      the initial entries and those commits. */
  lemma {:induction false} NothingIsCommittedTwice(cfg: Config, outcome: Item -> Outcome, items: seq<Item>,
        cache: map<string, Cached>, runs: seq<seq<Event>>)
    requires RunsHappen(cfg, outcome, items, cache, runs)
    requires SoundCache(cfg, outcome, cache) && IdentityFixesOutcome(cfg, outcome)
    ensures Accumulates(cfg, outcome, cache, Commits(cfg, items, cache, runs), CacheAfter(cfg, items, cache, runs))
    ensures SoundCache(cfg, outcome, CacheAfter(cfg, items, cache, runs))
    ensures AreLeaves(LeavesOfAll(cfg, outcome, items, 0), Commits(cfg, items, cache, runs))
  {
    if runs != [] {
      var prefix, trace := runs[..|runs| - 1], runs[|runs| - 1];
      var middle := CacheAfter(cfg, items, cache, prefix);
      var s := EndOf(cfg, items, middle, trace);
      NothingIsCommittedTwice(cfg, outcome, items, cache, prefix);
      RunRetains(cfg, items, middle, trace);
      RunExtends(cfg, outcome, items, middle, trace);
      RunAccumulates(cfg, outcome, middle, s);
      RunKeepsSound(cfg, outcome, items, middle, trace);
      CommittedAreLeaves(cfg, outcome, items, middle, trace);
      AccumulateMore(cfg, outcome, cache, Commits(cfg, items, cache, prefix), middle, s.hist.committedLog,
                     CacheAfter(cfg, items, cache, runs));
    }
  }

  /** How many of the commits are for a key. */
  function CommitsOf(log: seq<Admitted>, key: string): nat {
    if log == [] then 0 else (if log[0].key == key then 1 else 0) + CommitsOf(log[1..], key)
  }

  lemma {:induction false} DistinctCommits(log: seq<Admitted>, key: string)
    requires DistinctKeys(log)
    ensures CommitsOf(log, key) == if key in Keys(log) then 1 else 0
  {
    if log != [] {
      assert log == [log[0]] + log[1..];
      DistinctCommits(log[1..], key);
      assert Keys(log) == {log[0].key} + Keys(log[1..]);
      forall i | 0 <= i < |log[1..]| ensures log[1..][i].key != log[0].key {
        assert log[1..][i] == log[i + 1];
      }
    }
  }

  /** Commits of a key whose only leaf is accepted are counted among the accepted ones. */
  lemma {:induction false} CountAccepted(cfg: Config, outcome: Item -> Outcome, log: seq<Admitted>, key: string)
    requires forall a | a in log && a.key == key :: Accepted(cfg, outcome, a)
    ensures CommitsOf(log, key) == CommitsOf(AcceptedOf(cfg, outcome, log), key)
  {
    if log != [] { CountAccepted(cfg, outcome, log[1..], key); }
  }

  lemma {:induction false} CommitsOfJoin(a: seq<Admitted>, b: seq<Admitted>, key: string)
    ensures CommitsOf(a + b, key) == CommitsOf(a, key) + CommitsOf(b, key)
  {
    if a == [] {
      assert a + b == b;
    } else {
      assert (a + b)[1..] == a[1..] + b;
      CommitsOfJoin(a[1..], b, key);
    }
  }

  /** How often an accepted leaf has been committed, if it is answered for in the end. */
  lemma AcceptedCount(cfg: Config, outcome: Item -> Outcome, leaves: seq<Admitted>, initial: map<string, Cached>,
        commits: seq<Admitted>, cache: map<string, Cached>, leaf: Admitted)
    requires Accumulates(cfg, outcome, initial, commits, cache) && AreLeaves(leaves, commits) && OwnKeys(leaves)
    requires leaf in leaves && Accepted(cfg, outcome, leaf) && leaf.key in cache
    ensures CommitsOf(commits, leaf.key) == if leaf.key in initial then 0 else 1
  {
    CountAccepted(cfg, outcome, commits, leaf.key);
    DistinctCommits(AcceptedOf(cfg, outcome, commits), leaf.key);
    NewKeys(initial, AcceptedOf(cfg, outcome, commits));
  }

  /** After any number of failed runs over one open store and a successful one, every leaf that
      was not cached beforehand, and whose result the validator accepts, has been committed
      exactly once in total; the last run stitches the leaves of the split tree with their
      results, if the validator accepts them all. */
  lemma FailuresThenSuccess(cfg: Config, outcome: Item -> Outcome, items: seq<Item>, cache: map<string, Cached>,
        runs: seq<seq<Event>>, last: State, leaf: Admitted)
    requires RunsHappen(cfg, outcome, items, cache, runs) && runs != []
    requires SoundCache(cfg, outcome, cache) && IdentityFixesOutcome(cfg, outcome)
    requires last == EndOf(cfg, items, CacheAfter(cfg, items, cache, runs[..|runs| - 1]), runs[|runs| - 1])
    requires Finished(last) && leaf in LeavesOfAll(cfg, outcome, items, 0) && Accepted(cfg, outcome, leaf)
    ensures CommitsOf(Commits(cfg, items, cache, runs), leaf.key) == if leaf.key in cache then 0 else 1
    ensures Stitches(cfg, outcome, LeavesOfAll(cfg, outcome, items, 0), last)
  {
    var middle, trace := CacheAfter(cfg, items, cache, runs[..|runs| - 1]), runs[|runs| - 1];
    NothingIsCommittedTwice(cfg, outcome, items, cache, runs[..|runs| - 1]);
    NothingIsCommittedTwice(cfg, outcome, items, cache, runs);
    RunIsTransparent(cfg, outcome, items, middle, trace);
    LeavesHaveOwnKeys(cfg, outcome, items, middle, trace);
    FinishedHasLeaf(cfg, outcome, items, middle, trace, last, leaf);
    AcceptedCount(cfg, outcome, LeavesOfAll(cfg, outcome, items, 0), cache, Commits(cfg, items, cache, runs), last.cache,
                  leaf);
  }

  /** Where a leaf is when a run has got to its end: resumed, or committed by it; and the cache
      has it unless this run committed it and the validator refuses it. */
  lemma FinishedHasLeaf(cfg: Config, outcome: Item -> Outcome, items: seq<Item>, cache: map<string, Cached>,
        trace: seq<Event>, s: State, leaf: Admitted)
    requires Possible(cfg, Start(cfg, items, cache), trace) && Faithful(cfg, outcome, Start(cfg, items, cache), trace)
    requires SoundCache(cfg, outcome, cache) && s == EndOf(cfg, items, cache, trace) && Finished(s)
    requires leaf in LeavesOfAll(cfg, outcome, items, 0)
    ensures leaf in s.hist.committedLog || leaf.key in s.cache
    ensures Accepted(cfg, outcome, leaf) ==> leaf.key in s.cache
  {
    FinishedAtLeaves(cfg, outcome, items, cache, trace);
    BagMembers(LeavesOfAll(cfg, outcome, items, 0));
    BagMembers(s.hist.committedLog);
    assert leaf in Settled(s);
    if leaf in s.hist.committedLog {
      assert Kept(cfg, outcome, s.cache, leaf);
    } else {
      assert leaf in BagOf(s.hist.resumedLog);
      assert Served(outcome, s.cache, leaf);
    }
  }

  lemma NewKeys(initial: map<string, Cached>, log: seq<Admitted>)
    requires NewAndDistinct(initial, log)
    ensures Keys(log) !! initial.Keys
  {}

  ghost predicate AllAccepted(cfg: Config, outcome: Item -> Outcome, leaves: seq<Admitted>) {
    forall a | a in leaves :: Accepted(cfg, outcome, a)
  }

  /** A run that finishes over acceptable results can be stitched. */
  lemma LastRunAnswers(cfg: Config, outcome: Item -> Outcome, items: seq<Item>, cache: map<string, Cached>,
        trace: seq<Event>, s: State)
    requires Possible(cfg, Start(cfg, items, cache), trace) && Faithful(cfg, outcome, Start(cfg, items, cache), trace)
    requires SoundCache(cfg, outcome, cache) && AllAccepted(cfg, outcome, LeavesOfAll(cfg, outcome, items, 0))
    requires s == EndOf(cfg, items, cache, trace) && Finished(s)
    ensures Stitches(cfg, outcome, LeavesOfAll(cfg, outcome, items, 0), s) && Answers(s.cache, s.terminalHash)
  {
    RunIsTransparent(cfg, outcome, items, cache, trace);
    CommittedAreLeaves(cfg, outcome, items, cache, trace);
  }

  // ---------------------------------------------------------------- running again

  lemma NoneCommitted(cfg: Config, outcome: Item -> Outcome, s: State, initial: map<string, Cached>)
    requires Extends(cfg, outcome, initial, s) && forall a | a in s.hist.committedLog :: a.key in initial
    ensures s.hist.committedLog == []
  {
    NewKeys(initial, s.hist.committedLog);
    assert Keys(s.hist.committedLog) == {};
    NoKeysNoItems(s.hist.committedLog);
  }

  lemma NoKeysNoItems(log: seq<Admitted>)
    ensures log == [] || Keys(log) != {}
  {
    if log != [] {
      assert log[0] in log;
      assert log[0].key in Keys(log);
    }
  }

  /** What a second run over the same items looks like, begun on a given cache. */
  ghost predicate Repeats(first: State, reopened: map<string, Cached>, second: State) {
    && second.committed == 0 && second.resumed == |first.terminal| && second.attempts == second.splits + second.retries
    && second.terminal == first.terminal && second.cache == reopened
    && Answers(first.cache, first.terminalHash) && Answers(second.cache, second.terminalHash)
    && Stitched(second) == Stitched(first)
  }

  /** A cache that still answers for everything a run stitched. */
  predicate StillAnswers(first: State, reopened: map<string, Cached>) {
    forall k | k in first.terminal :: k in reopened
  }

  lemma CommittedWereCached(cfg: Config, outcome: Item -> Outcome, items: seq<Item>, first: State,
        reopened: map<string, Cached>, second: State)
    requires ReachedLeaves(cfg, outcome, items, first) && ReachedLeaves(cfg, outcome, items, second)
    requires Conserved(cfg, first) && StillAnswers(first, reopened) && Pending(first) == multiset{}
    ensures forall a | a in second.hist.committedLog :: a.key in reopened
  {
    BagMembers(second.hist.committedLog);
    forall a | a in second.hist.committedLog ensures a.key in reopened {
      assert a in Settled(second) && a in Flow.Frontier(first);
      assert HasKey(Flow.Frontier(first), a.key);
    }
  }

  lemma SameCache(cfg: Config, outcome: Item -> Outcome, initial: map<string, Cached>, s: State)
    requires Retains(initial, s) && Extends(cfg, outcome, initial, s) && s.hist.committedLog == []
    ensures s.cache == initial
  {
    assert Keys([]) == {};
  }

  /** Running the same items again after a success, on any sound cache that still answers for
      the leaves, commits nothing, resumes every leaf, executes only the items that split again
      (and their transient failures), and stitches the same output. */
  lemma RunningAgainRepeats(cfg: Config, outcome: Item -> Outcome, items: seq<Item>, cache: map<string, Cached>,
        trace: seq<Event>, reopened: map<string, Cached>, again: seq<Event>, first: State, second: State)
    requires SoundCache(cfg, outcome, cache) && SoundCache(cfg, outcome, reopened)
    requires Possible(cfg, Start(cfg, items, cache), trace) && Faithful(cfg, outcome, Start(cfg, items, cache), trace)
    requires Possible(cfg, Start(cfg, items, reopened), again)
        && Faithful(cfg, outcome, Start(cfg, items, reopened), again)
    requires AllAccepted(cfg, outcome, LeavesOfAll(cfg, outcome, items, 0))
    requires first == EndOf(cfg, items, cache, trace) && Finished(first) && StillAnswers(first, reopened)
    requires second == EndOf(cfg, items, reopened, again) && Finished(second)
    ensures Repeats(first, reopened, second)
  {
    LastRunAnswers(cfg, outcome, items, cache, trace, first);
    LastRunAnswers(cfg, outcome, items, reopened, again, second);
    Accounting.FinishedExactlyOnce(cfg, items, reopened, again);
    NothingNewCommitted(cfg, outcome, items, cache, trace, reopened, again, first, second);
    SameStitch(cfg, outcome, LeavesOfAll(cfg, outcome, items, 0), first, second);
  }

  lemma SameStitch(cfg: Config, outcome: Item -> Outcome, leaves: seq<Admitted>, s: State, t: State)
    requires Stitches(cfg, outcome, leaves, s) && Stitches(cfg, outcome, leaves, t)
    requires Answers(s.cache, s.terminalHash) && Answers(t.cache, t.terminalHash)
    ensures Stitched(s) == Stitched(t)
  {}

  lemma NothingNewCommitted(cfg: Config, outcome: Item -> Outcome, items: seq<Item>, cache: map<string, Cached>,
        trace: seq<Event>, reopened: map<string, Cached>, again: seq<Event>, first: State, second: State)
    requires SoundCache(cfg, outcome, cache) && SoundCache(cfg, outcome, reopened)
    requires Possible(cfg, Start(cfg, items, cache), trace) && Faithful(cfg, outcome, Start(cfg, items, cache), trace)
    requires Possible(cfg, Start(cfg, items, reopened), again)
        && Faithful(cfg, outcome, Start(cfg, items, reopened), again)
    requires StillAnswers(first, reopened)
    requires first == EndOf(cfg, items, cache, trace) && Finished(first)
    requires second == EndOf(cfg, items, reopened, again) && Finished(second)
    ensures second.committed == 0 && second.cache == reopened
  {
    FinishedAtLeaves(cfg, outcome, items, cache, trace);
    FinishedAtLeaves(cfg, outcome, items, reopened, again);
    Accounting.NothingPending(first);
    CommittedWereCached(cfg, outcome, items, first, reopened, second);
    RunRetains(cfg, items, reopened, again);
    RunExtends(cfg, outcome, items, reopened, again);
    NoneCommitted(cfg, outcome, second, reopened);
    SameCache(cfg, outcome, reopened, second);
    Accounting.ReachableCounts(cfg, items, reopened, again);
  }
}
