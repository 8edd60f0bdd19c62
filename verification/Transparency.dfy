/** Cache transparency and schedule independence: what a run returns is what an uncached,
    sequential evaluation of the split tree returns, whatever was cached beforehand, in
    whatever order futures finish and however often they fail on the way. */
module Transparency {
  import opened Wrappers
  import KeyOrder
  import opened Jsonl
  import opened Work
  import opened Store
  import opened StoreObject
  import opened Scheduler
  import opened Flow
  import opened Totals
  import opened Conservation
  import opened Frontier
  import Accounting

  // ---------------------------------------------------------------- the reference

  /** What executing an item comes to in the end, transient failures aside. */
  datatype Outcome = Yields(records: Records) | Divides

  function Room(cfg: Config, depth: nat): nat {
    if depth <= DepthLimit(cfg) then DepthLimit(cfg) - depth + 1 else 0
  }

  /** The leaves of one item's split tree. An item that should divide but whose split is
      refused is a leaf too, one without a result. */
  function Leaves(cfg: Config, outcome: Item -> Outcome, item: Item, depth: nat): seq<Admitted>
    decreases Room(cfg, depth), 0, 0
  {
    if outcome(item).Yields? || SplitFault(cfg, item, depth).Some? then [Admit(cfg, item, depth)]
    else LeavesOfAll(cfg, outcome, Children(cfg, item), depth + 1)
  }

  function LeavesOfAll(cfg: Config, outcome: Item -> Outcome, items: seq<Item>, depth: nat): seq<Admitted>
    decreases Room(cfg, depth), 1, |items|
  {
    if items == [] then []
    else Leaves(cfg, outcome, items[0], depth) + LeavesOfAll(cfg, outcome, items[1..], depth)
  }

  /** What each leaf yields, by key. */
  ghost function ResultOf(outcome: Item -> Outcome, leaves: seq<Admitted>, key: string): Option<Records> {
    if leaves == [] then None
    else if leaves[0].key == key && outcome(leaves[0].item).Yields? then Some(outcome(leaves[0].item).records)
    else ResultOf(outcome, leaves[1..], key)
  }

  /** The leaf results in ascending key order. */
  ghost function Results(outcome: Item -> Outcome, leaves: seq<Admitted>, keys: seq<string>): seq<Option<Records>> {
    seq(|keys|, i requires 0 <= i < |keys| => ResultOf(outcome, leaves, keys[i]))
  }

  // ---------------------------------------------------------------- hypotheses

  /** What the caller promises: executing an item succeeds with the result its outcome says,
      or is split because its outcome says so; anything may fail transiently at any time. */
  predicate Obeys(cfg: Config, outcome: Item -> Outcome, s: State, e: Event) {
    match e
    case Finish(i, records, _) => i < |s.inflight| ==> outcome(s.inflight[i].item) == Yields(records)
    case Fail(i, exn, _, _) =>
      i < |s.inflight| && Classify(cfg, exn, s.inflight[i].item).ToSplit? ==> outcome(s.inflight[i].item).Divides?
    case _ => true
  }

  predicate Faithful(cfg: Config, outcome: Item -> Outcome, start: State, trace: seq<Event>) {
    trace == [] ||
      (Faithful(cfg, outcome, start, trace[..|trace| - 1]) &&
       Obeys(cfg, outcome, Replay(cfg, start, trace[..|trace| - 1]), trace[|trace| - 1]))
  }

  /** Whatever the cache answers for an item is what the item yields. */
  ghost predicate SoundCache(cfg: Config, outcome: Item -> Outcome, cache: map<string, Cached>) {
    forall item :: SoundFor(cfg, outcome, cache, item)
  }

  predicate SoundFor(cfg: Config, outcome: Item -> Outcome, cache: map<string, Cached>, item: Item) {
    var (key, hash) := cfg.contentKey(item.payload);
    key in cache && cache[key].hash == hash ==> outcome(item) == Yields(cache[key].records)
  }

  // ---------------------------------------------------------------- the leaves

  /** How many leaves below an item are this one. */
  ghost function LeafCount(cfg: Config, outcome: Item -> Outcome, leaf: Admitted): Admitted -> nat {
    (a: Admitted) => Occurrences(Leaves(cfg, outcome, a.item, a.depth), leaf)
  }

  lemma {:induction false} OccurrencesJoin(a: seq<Admitted>, b: seq<Admitted>, x: Admitted)
    ensures Occurrences(a + b, x) == Occurrences(a, x) + Occurrences(b, x)
  {
    if a == [] {
      assert a + b == b;
    } else {
      assert (a + b)[1..] == a[1..] + b;
      OccurrencesJoin(a[1..], b, x);
    }
  }

  lemma {:induction false} AdmittedLeaves(cfg: Config, outcome: Item -> Outcome, items: seq<Item>, ads: seq<Admitted>,
        depth: nat, leaf: Admitted)
    requires AdmittedAs(cfg, items, ads, depth)
    ensures Total(LeafCount(cfg, outcome, leaf), BagOf(ads)) == Occurrences(LeavesOfAll(cfg, outcome, items, depth), leaf)
  {
    var f := LeafCount(cfg, outcome, leaf);
    if items == [] {
      BagNone();
    } else {
      HeadBag(ads);
      TotalJoin(f, multiset{ads[0]}, BagOf(ads[1..]));
      TotalOne(f, ads[0]);
      AdmittedLeaves(cfg, outcome, items[1..], ads[1..], depth, leaf);
      OccurrencesJoin(Leaves(cfg, outcome, items[0], depth), LeavesOfAll(cfg, outcome, items[1..], depth), leaf);
    }
  }

  lemma DividedLeaves(cfg: Config, outcome: Item -> Outcome, item: Item, depth: nat)
    requires outcome(item).Divides? && SplitFault(cfg, item, depth).None?
    ensures Leaves(cfg, outcome, item, depth) == LeavesOfAll(cfg, outcome, Children(cfg, item), depth + 1)
  {}

  lemma ChildLeaves(cfg: Config, outcome: Item -> Outcome, ad: Admitted, r: Admission, live: map<string, string>,
        leaf: Admitted)
    requires outcome(ad.item).Divides? && SplitFault(cfg, ad.item, ad.depth).None?
    requires r == AdmitAll(cfg, Children(cfg, ad.item), ad.depth + 1, live) && r.ok
    ensures Total(LeafCount(cfg, outcome, leaf), BagOf(r.ads)) == LeafCount(cfg, outcome, leaf)(ad)
  {
    AllAdmitted(cfg, Children(cfg, ad.item), ad.depth + 1, live);
    AdmittedLeaves(cfg, outcome, Children(cfg, ad.item), r.ads, ad.depth + 1, leaf);
    DividedLeaves(cfg, outcome, ad.item, ad.depth);
  }

  lemma SplitKeepsLeaves(cfg: Config, outcome: Item -> Outcome, s: State, ad: Admitted, r: Admission, s': State,
        leaf: Admitted)
    requires SplitAway(cfg, s, ad, r, s') && outcome(ad.item).Divides?
    ensures Total(LeafCount(cfg, outcome, leaf), Flow.Frontier(s')) == Total(LeafCount(cfg, outcome, leaf), Flow.Frontier(s))
  {
    ChildLeaves(cfg, outcome, ad, r, s.live, leaf);
    SplitTotal(cfg, LeafCount(cfg, outcome, leaf), s, ad, r, s');
  }

  lemma MoveKeepsLeaves(cfg: Config, outcome: Item -> Outcome, s: State, e: Event, s': State, leaf: Admitted)
    requires Moves(cfg, s, e, s') && Obeys(cfg, outcome, s, e)
    ensures Total(LeafCount(cfg, outcome, leaf), Flow.Frontier(s')) == Total(LeafCount(cfg, outcome, leaf), Flow.Frontier(s))
  {
    if ad :| SplitFailure(cfg, s, e, ad) && SplitsAway(cfg, s, ad, s') {
      var r :| SplitAway(cfg, s, ad, r, s');
      SplitKeepsLeaves(cfg, outcome, s, ad, r, s', leaf);
    }
  }

  /** In every reachable state the leaves below the frontier are the leaves below the roots. */
  lemma {:induction false} LeavesStay(cfg: Config, outcome: Item -> Outcome, items: seq<Item>,
        cache: map<string, Cached>, trace: seq<Event>, leaf: Admitted)
    requires Possible(cfg, Start(cfg, items, cache), trace) && Faithful(cfg, outcome, Start(cfg, items, cache), trace)
    requires Replay(cfg, Start(cfg, items, cache), trace).stop.None?
    ensures Total(LeafCount(cfg, outcome, leaf), Flow.Frontier(Replay(cfg, Start(cfg, items, cache), trace)))
         == Occurrences(LeavesOfAll(cfg, outcome, items, 0), leaf)
  {
    var start := Start(cfg, items, cache);
    if trace == [] {
      StartFlow(cfg, items, cache);
      AllAdmitted(cfg, items, 0, map[]);
      AdmittedLeaves(cfg, outcome, items, AdmitAll(cfg, items, 0, map[]).ads, 0, leaf);
    } else {
      var before, e := Replay(cfg, start, trace[..|trace| - 1]), trace[|trace| - 1];
      if before.stop.Some? { StoppedStays(cfg, before, e); }
      LeavesStay(cfg, outcome, items, cache, trace[..|trace| - 1], leaf);
      StepMoves(cfg, before, e, Step(cfg, before, e));
      MoveKeepsLeaves(cfg, outcome, before, e, Step(cfg, before, e), leaf);
    }
  }

  // ---------------------------------------------------------------- the cache

  predicate SameAt(before: map<string, Cached>, after: map<string, Cached>, key: string) {
    (key in before <==> key in after) && (key in before ==> before[key] == after[key])
  }

  /** A leaf served from the cache, which still holds its result. */
  predicate Served(outcome: Item -> Outcome, cache: map<string, Cached>, a: Admitted) {
    outcome(a.item).Yields? && a.key in cache && cache[a.key] == Cached(a.hash, outcome(a.item).records)
  }

  /** A leaf executed and committed; the store answers for it if its validator accepts it. */
  predicate Kept(cfg: Config, outcome: Item -> Outcome, cache: map<string, Cached>, a: Admitted) {
    && outcome(a.item).Yields?
    && if cfg.accepts(outcome(a.item).records) then Served(outcome, cache, a) else a.key !in cache
  }

  /** The cache differs from the initial one only at the keys of committed leaves. */
  ghost predicate Tracks(cfg: Config, outcome: Item -> Outcome, initial: map<string, Cached>, s: State) {
    && (forall a | a in Pending(s) :: SameAt(initial, s.cache, a.key))
    && (forall k | k !in s.live :: SameAt(initial, s.cache, k))
    && (forall a | a in BagOf(s.hist.resumedLog) :: Served(outcome, s.cache, a))
    && (forall a | a in BagOf(s.hist.committedLog) :: Kept(cfg, outcome, s.cache, a))
  }

  predicate SameRecord(s: State, s': State) {
    s'.cache == s.cache && s'.hist.resumedLog == s.hist.resumedLog && s'.hist.committedLog == s.hist.committedLog
  }

  lemma MovedTracks(cfg: Config, outcome: Item -> Outcome, initial: map<string, Cached>, s: State, s': State)
    requires Tracks(cfg, outcome, initial, s) && SameRecord(s, s')
    requires forall k | k in s.live :: k in s'.live
    requires forall a | a in Pending(s') :: a in Pending(s) || a.key !in s.live
    ensures Tracks(cfg, outcome, initial, s')
  {}

  lemma HitTracks(cfg: Config, outcome: Item -> Outcome, initial: map<string, Cached>, s: State, ad: Admitted,
        s': State)
    requires Tracks(cfg, outcome, initial, s) && SoundCache(cfg, outcome, initial)
    requires ad in Pending(s) && ad == Admit(cfg, ad.item, ad.depth) && ad.key in s.cache
        && s.cache[ad.key].hash == ad.hash
    requires s'.live == s.live && s'.cache == s.cache && Pending(s') == Pending(s) - multiset{ad}
    requires s'.hist.committedLog == s.hist.committedLog
    requires BagOf(s'.hist.resumedLog) == BagOf(s.hist.resumedLog) + multiset{ad}
    ensures Tracks(cfg, outcome, initial, s')
  {
    assert SoundFor(cfg, outcome, initial, ad.item);
    assert SameAt(initial, s.cache, ad.key);
    assert Served(outcome, s'.cache, ad);
  }

  /** Two caches that agree on every other key. */
  ghost predicate OnlyAt(before: map<string, Cached>, after: map<string, Cached>, key: string) {
    forall k | k != key :: SameAt(before, after, k)
  }

  lemma ServedElsewhere(outcome: Item -> Outcome, before: map<string, Cached>, after: map<string, Cached>, key: string,
        bag: Bag)
    requires OnlyAt(before, after, key) && forall a | a in bag :: a.key != key && Served(outcome, before, a)
    ensures forall a | a in bag :: Served(outcome, after, a)
  {
    forall a | a in bag ensures Served(outcome, after, a) {
      assert Served(outcome, before, a);
      assert SameAt(before, after, a.key);
    }
  }

  lemma KeptElsewhere(cfg: Config, outcome: Item -> Outcome, before: map<string, Cached>, after: map<string, Cached>,
        key: string, bag: Bag)
    requires OnlyAt(before, after, key) && forall a | a in bag :: a.key != key && Kept(cfg, outcome, before, a)
    ensures forall a | a in bag :: Kept(cfg, outcome, after, a)
  {
    forall a | a in bag ensures Kept(cfg, outcome, after, a) {
      assert Kept(cfg, outcome, before, a);
      assert SameAt(before, after, a.key);
    }
  }

  lemma SameElsewhere(initial: map<string, Cached>, before: map<string, Cached>, after: map<string, Cached>,
        key: string, k: string)
    requires OnlyAt(before, after, key) && k != key && SameAt(initial, before, k)
    ensures SameAt(initial, after, k)
  {
    assert SameAt(before, after, k);
  }

  ghost predicate Elsewhere(bag: Bag, key: string) {
    forall a | a in bag :: a.key != key
  }

  lemma CommitTracks(cfg: Config, outcome: Item -> Outcome, initial: map<string, Cached>, s: State, ad: Admitted,
        records: Records, s': State)
    requires Tracks(cfg, outcome, initial, s) && outcome(ad.item) == Yields(records) && ad.key in s.live
    requires Elsewhere(Pending(s'), ad.key) && Elsewhere(BagOf(s.hist.resumedLog), ad.key)
        && Elsewhere(BagOf(s.hist.committedLog), ad.key)
    requires s'.live == s.live && s'.cache == CacheWith(cfg, s.cache, ad, records, Stored)
        && Pending(s') == Pending(s) - multiset{ad}
    requires s'.hist.resumedLog == s.hist.resumedLog
    requires BagOf(s'.hist.committedLog) == BagOf(s.hist.committedLog) + multiset{ad}
    ensures Tracks(cfg, outcome, initial, s')
  {
    assert OnlyAt(s.cache, s'.cache, ad.key);
    forall a | a in Pending(s') ensures SameAt(initial, s'.cache, a.key) {
      SameElsewhere(initial, s.cache, s'.cache, ad.key, a.key);
    }
    forall k | k !in s'.live ensures SameAt(initial, s'.cache, k) {
      SameElsewhere(initial, s.cache, s'.cache, ad.key, k);
    }
    ServedElsewhere(outcome, s.cache, s'.cache, ad.key, BagOf(s.hist.resumedLog));
    KeptElsewhere(cfg, outcome, s.cache, s'.cache, ad.key, BagOf(s.hist.committedLog));
    assert Kept(cfg, outcome, s'.cache, ad);
  }

  lemma DispatchTracks(cfg: Config, outcome: Item -> Outcome, initial: map<string, Cached>, s: State, lookup: Lookup,
        s': State)
    requires Tracks(cfg, outcome, initial, s) && SoundCache(cfg, outcome, initial) && Conserved(cfg, s)
    requires Enabled(cfg, s, Dispatch(lookup)) && s' == AfterDispatch(s, lookup) && s'.stop.None?
    ensures Tracks(cfg, outcome, initial, s')
  {
    var ad := s.ready[0];
    DispatchFlow(s, lookup);
    if lookup.Hit? {
      assert ad in Flow.Frontier(s);
      BagSnoc(s.hist.resumedLog, ad);
      HitTracks(cfg, outcome, initial, s, ad, s');
    } else {
      MovedTracks(cfg, outcome, initial, s, s');
    }
  }

  lemma OthersElsewhere(cfg: Config, s: State, ad: Admitted)
    requires Conserved(cfg, s) && ad in Pending(s)
    ensures ad.key in s.live && Elsewhere(Pending(s) - multiset{ad}, ad.key)
    ensures Elsewhere(BagOf(s.hist.resumedLog), ad.key) && Elsewhere(BagOf(s.hist.committedLog), ad.key)
  {
    assert ad in Flow.Frontier(s) && Flow.Frontier(s)[ad] == 1;
    forall a | a in Pending(s) - multiset{ad} ensures a.key != ad.key { assert a in Flow.Frontier(s); }
    forall a | a in BagOf(s.hist.resumedLog) ensures a.key != ad.key { assert a in Flow.Frontier(s); }
    forall a | a in BagOf(s.hist.committedLog) ensures a.key != ad.key { assert a in Flow.Frontier(s); }
  }

  lemma FinishTracks(cfg: Config, outcome: Item -> Outcome, initial: map<string, Cached>, s: State, i: nat,
        records: Records, persist: Persist, s': State)
    requires Tracks(cfg, outcome, initial, s) && Conserved(cfg, s)
    requires i < |s.inflight| && outcome(s.inflight[i].item) == Yields(records)
    requires s' == AfterFinish(cfg, s, i, records, persist) && s'.stop.None? && s.stop.None?
    ensures Tracks(cfg, outcome, initial, s')
  {
    var ad := s.inflight[i];
    FinishFlow(cfg, s, i, records, persist);
    BagSnoc(s.hist.committedLog, ad);
    OthersElsewhere(cfg, s, ad);
    CommitTracks(cfg, outcome, initial, s, ad, records, s');
  }

  lemma SplitPending(cfg: Config, s: State, i: nat, s': State)
    requires s.stop.None? && i < |s.inflight| && s' == Split(cfg, Taken(s, i), s.inflight[i]) && s'.stop.None?
    ensures SameRecord(s, s') && forall k | k in s.live :: k in s'.live
    ensures forall a | a in Pending(s') :: a in Pending(s) || a.key !in s.live
  {
    var taken, ad := Taken(s, i), s.inflight[i];
    var r := AdmitChildren(cfg, taken, ad);
    SplitCases(cfg, taken, ad, r, s');
    SplitFlow(cfg, taken, ad);
    TakenFlow(s, i);
    AdmissionFacts(cfg, Children(cfg, ad.item), ad.depth + 1, s.live);
    BagMembers(r.ads);
  }

  lemma SplitTracks(cfg: Config, outcome: Item -> Outcome, initial: map<string, Cached>, s: State, i: nat, s': State)
    requires Tracks(cfg, outcome, initial, s)
    requires s.stop.None? && i < |s.inflight| && s' == Split(cfg, Taken(s, i), s.inflight[i]) && s'.stop.None?
    ensures Tracks(cfg, outcome, initial, s')
  {
    SplitPending(cfg, s, i, s');
    MovedTracks(cfg, outcome, initial, s, s');
  }

  lemma RetryTracks(cfg: Config, outcome: Item -> Outcome, initial: map<string, Cached>, s: State, i: nat, exn: Exn,
        now: real, delay: real, s': State)
    requires Tracks(cfg, outcome, initial, s)
    requires s.stop.None? && i < |s.inflight| && s' == Retry(cfg, Taken(s, i), s.inflight[i], exn, now, delay)
        && s'.stop.None?
    ensures Tracks(cfg, outcome, initial, s')
  {
    TakenFlow(s, i);
    RetryFlow(cfg, Taken(s, i), s.inflight[i], exn, now, delay);
    assert Pending(s') == Pending(s);
    MovedTracks(cfg, outcome, initial, s, s');
  }

  lemma StepTracks(cfg: Config, outcome: Item -> Outcome, initial: map<string, Cached>, s: State, e: Event, s': State)
    requires Tracks(cfg, outcome, initial, s) && SoundCache(cfg, outcome, initial) && Conserved(cfg, s)
    requires s.stop.None? && Enabled(cfg, s, e) && Obeys(cfg, outcome, s, e) && s' == Step(cfg, s, e) && s'.stop.None?
    ensures Tracks(cfg, outcome, initial, s')
  {
    match e
    case Dispatch(lookup) => DispatchTracks(cfg, outcome, initial, s, lookup, s');
    case Finish(i, records, persist) => FinishTracks(cfg, outcome, initial, s, i, records, persist, s');
    case Promote(clock) =>
      PromoteFlow(s, clock);
      MovedTracks(cfg, outcome, initial, s, s');
    case Fail(i, exn, now, draw) =>
      match Classify(cfg, exn, s.inflight[i].item)
      case ToSplit => SplitTracks(cfg, outcome, initial, s, i, s');
      case ToRetry => RetryTracks(cfg, outcome, initial, s, i, exn, now, NextDelay(cfg, Taken(s, i), s.inflight[i], exn, draw), s');
      case ToFatal =>
  }

  lemma {:induction false} ReachableTracks(cfg: Config, outcome: Item -> Outcome, items: seq<Item>,
        cache: map<string, Cached>, trace: seq<Event>)
    requires Possible(cfg, Start(cfg, items, cache), trace) && Faithful(cfg, outcome, Start(cfg, items, cache), trace)
    requires SoundCache(cfg, outcome, cache) && Replay(cfg, Start(cfg, items, cache), trace).stop.None?
    ensures Tracks(cfg, outcome, cache, Replay(cfg, Start(cfg, items, cache), trace))
  {
    var start := Start(cfg, items, cache);
    if trace == [] {
      BagNone();
    } else {
      var before, e := Replay(cfg, start, trace[..|trace| - 1]), trace[|trace| - 1];
      if before.stop.Some? { StoppedStays(cfg, before, e); }
      ReachableTracks(cfg, outcome, items, cache, trace[..|trace| - 1]);
      ReachableConserved(cfg, items, cache, trace[..|trace| - 1]);
      StepTracks(cfg, outcome, cache, before, e, Step(cfg, before, e));
    }
  }

  // ---------------------------------------------------------------- what a run returns

  /** Each leaf below the roots is settled, as often as it occurs, and yields. */
  ghost predicate ReachedLeaves(cfg: Config, outcome: Item -> Outcome, items: seq<Item>, s: State) {
    && Settled(s) == BagOf(LeavesOfAll(cfg, outcome, items, 0))
    && forall a | a in Settled(s) :: outcome(a.item).Yields?
  }

  lemma {:induction false} TotalOfSelf(f: Admitted -> nat, bag: Bag, leaf: Admitted)
    requires forall a | a in bag :: f(a) == if a == leaf then 1 else 0
    ensures Total(f, bag) == bag[leaf]
    decreases |bag|
  {
    if bag != multiset{} {
      var a :| a in bag;
      TotalTake(f, bag, a);
      TotalOfSelf(f, bag - multiset{a}, leaf);
    }
  }

  lemma SettledLeaf(cfg: Config, outcome: Item -> Outcome, a: Admitted, leaf: Admitted)
    requires outcome(a.item).Yields? && a == Admit(cfg, a.item, a.depth)
    ensures LeafCount(cfg, outcome, leaf)(a) == if a == leaf then 1 else 0
  {
    assert Leaves(cfg, outcome, a.item, a.depth) == [a];
    assert Occurrences([a][1..], leaf) == 0;
  }

  lemma OccurrencesAreBag(ads: seq<Admitted>, leaf: Admitted)
    ensures BagOf(ads)[leaf] == Occurrences(ads, leaf)
  {
    assert CountsAs(BagOf(ads), ads);
  }

  lemma SettledAreLeaves(cfg: Config, outcome: Item -> Outcome, items: seq<Item>, initial: map<string, Cached>,
        s: State)
    requires Conserved(cfg, s) && !Busy(s) && Tracks(cfg, outcome, initial, s)
    requires forall leaf :: Total(LeafCount(cfg, outcome, leaf), Flow.Frontier(s)) == Occurrences(LeavesOfAll(cfg, outcome, items, 0), leaf)
    ensures ReachedLeaves(cfg, outcome, items, s)
  {
    Accounting.NothingPending(s);
    forall a | a in Settled(s) ensures outcome(a.item).Yields? {
      assert a in BagOf(s.hist.resumedLog) ==> Served(outcome, s.cache, a);
      assert a in BagOf(s.hist.committedLog) ==> Kept(cfg, outcome, s.cache, a);
    }
    forall leaf ensures Settled(s)[leaf] == BagOf(LeavesOfAll(cfg, outcome, items, 0))[leaf] {
      forall a | a in Settled(s) ensures LeafCount(cfg, outcome, leaf)(a) == if a == leaf then 1 else 0 {
        SettledLeaf(cfg, outcome, a, leaf);
      }
      TotalOfSelf(LeafCount(cfg, outcome, leaf), Settled(s), leaf);
      OccurrencesAreBag(LeavesOfAll(cfg, outcome, items, 0), leaf);
    }
  }

  /** A run that returns settles exactly the leaves of the split tree, each one once. */
  lemma FinishedAtLeaves(cfg: Config, outcome: Item -> Outcome, items: seq<Item>, cache: map<string, Cached>,
        trace: seq<Event>)
    requires Possible(cfg, Start(cfg, items, cache), trace) && Faithful(cfg, outcome, Start(cfg, items, cache), trace)
    requires SoundCache(cfg, outcome, cache) && Finished(Replay(cfg, Start(cfg, items, cache), trace))
    ensures ReachedLeaves(cfg, outcome, items, Replay(cfg, Start(cfg, items, cache), trace))
    ensures Tracks(cfg, outcome, cache, Replay(cfg, Start(cfg, items, cache), trace))
    ensures Conserved(cfg, Replay(cfg, Start(cfg, items, cache), trace))
  {
    var s := Replay(cfg, Start(cfg, items, cache), trace);
    ReachableConserved(cfg, items, cache, trace);
    ReachableTracks(cfg, outcome, items, cache, trace);
    forall leaf
      ensures Total(LeafCount(cfg, outcome, leaf), Flow.Frontier(s)) == Occurrences(LeavesOfAll(cfg, outcome, items, 0), leaf)
    {
      LeavesStay(cfg, outcome, items, cache, trace, leaf);
    }
    SettledAreLeaves(cfg, outcome, items, cache, s);
  }

  // ---------------------------------------------------------------- the stitch

  predicate SameResults(got: seq<Records>, expected: seq<Option<Records>>) {
    |got| == |expected| && forall i | 0 <= i < |got| :: expected[i] == Some(got[i])
  }

  /** What load_all returns at the end of a run: the terminal leaves' results by ascending key. */
  ghost function Stitched(s: State): seq<Records>
    requires Answers(s.cache, s.terminalHash)
  {
    InKeyOrder(s.cache, KeyOrder.SortedKeys(s.terminalHash.Keys))
  }

  /** The store can answer what the stitch asks for, with the leaf results in key order;
      it can exactly when its validator accepts every result this run committed. */
  ghost predicate Stitches(cfg: Config, outcome: Item -> Outcome, leaves: seq<Admitted>, s: State) {
    && s.terminal == s.terminalHash.Keys == Keys(leaves)
    && (Answers(s.cache, s.terminalHash) <==>
          forall a | a in s.hist.committedLog :: outcome(a.item).Yields? && cfg.accepts(outcome(a.item).records))
    && (Answers(s.cache, s.terminalHash) ==>
          SameResults(Stitched(s), Results(outcome, leaves, KeyOrder.SortedKeys(Keys(leaves)))))
  }

  lemma {:induction false} ResultOfLeaf(outcome: Item -> Outcome, leaves: seq<Admitted>, a: Admitted)
    requires a in leaves && outcome(a.item).Yields?
    requires forall b | b in leaves && b.key == a.key :: b == a
    ensures ResultOf(outcome, leaves, a.key) == Some(outcome(a.item).records)
  {
    if leaves[0] != a {
      assert a in leaves[1..];
      ResultOfLeaf(outcome, leaves[1..], a);
    }
  }

  /** A terminal key's leaf, and whether the store answers for it. */
  lemma TerminalLeaf(cfg: Config, outcome: Item -> Outcome, initial: map<string, Cached>, s: State,
        key: string) returns (a: Admitted)
    requires Conserved(cfg, s) && Tracks(cfg, outcome, initial, s) && Pending(s) == multiset{} && key in s.terminal
    ensures a in Settled(s) && a.key == key && outcome(a.item).Yields?
    ensures key in s.terminalHash && s.terminalHash[key] == a.hash
    ensures AnswersKey(s.cache, s.terminalHash, key) ==> s.cache[key].records == outcome(a.item).records
    ensures AnswersKey(s.cache, s.terminalHash, key) <==>
      (a in BagOf(s.hist.committedLog) ==> cfg.accepts(outcome(a.item).records))
  {
    assert HasKey(Flow.Frontier(s), key);
    a :| a in Flow.Frontier(s) && a.key == key;
    if a in BagOf(s.hist.committedLog) {
      assert Kept(cfg, outcome, s.cache, a);
    } else {
      assert Served(outcome, s.cache, a);
    }
  }

  lemma AnswersIffAccepted(cfg: Config, outcome: Item -> Outcome, initial: map<string, Cached>, s: State)
    requires Conserved(cfg, s) && Tracks(cfg, outcome, initial, s) && Pending(s) == multiset{}
    ensures Answers(s.cache, s.terminalHash) <==>
      forall a | a in s.hist.committedLog :: outcome(a.item).Yields? && cfg.accepts(outcome(a.item).records)
  {
    BagMembers(s.hist.committedLog);
    forall a | a in s.hist.committedLog && Answers(s.cache, s.terminalHash)
      ensures outcome(a.item).Yields? && cfg.accepts(outcome(a.item).records)
    {
      assert HasKey(Flow.Frontier(s), a.key) && a in Flow.Frontier(s);
      var b := TerminalLeaf(cfg, outcome, initial, s, a.key);
      assert b in Flow.Frontier(s) && b == a;
      assert AnswersKey(s.cache, s.terminalHash, a.key);
    }
    if forall a | a in s.hist.committedLog :: outcome(a.item).Yields? && cfg.accepts(outcome(a.item).records) {
      forall k | k in s.terminalHash ensures AnswersKey(s.cache, s.terminalHash, k) {
        var a := TerminalLeaf(cfg, outcome, initial, s, k);
      }
    }
  }

  lemma StitchedResult(cfg: Config, outcome: Item -> Outcome, initial: map<string, Cached>, leaves: seq<Admitted>,
        s: State, key: string)
    requires Conserved(cfg, s) && Tracks(cfg, outcome, initial, s) && Pending(s) == multiset{} && key in s.terminal
    requires Settled(s) == BagOf(leaves) && AnswersKey(s.cache, s.terminalHash, key)
    ensures ResultOf(outcome, leaves, key) == Some(s.cache[key].records)
  {
    var a := TerminalLeaf(cfg, outcome, initial, s, key);
    BagMembers(leaves);
    forall b | b in leaves && b.key == a.key ensures b == a {
      assert b in Flow.Frontier(s) && a in Flow.Frontier(s);
    }
    ResultOfLeaf(outcome, leaves, a);
  }

  lemma TerminalAreLeafKeys(cfg: Config, leaves: seq<Admitted>, s: State)
    requires Conserved(cfg, s) && Pending(s) == multiset{} && Settled(s) == BagOf(leaves)
    ensures s.terminal == s.terminalHash.Keys == Keys(leaves)
  {
    BagMembers(leaves);
    forall k ensures k in s.terminal <==> k in Keys(leaves) {
      assert k in s.terminal <==> HasKey(Flow.Frontier(s), k);
      if HasKey(Flow.Frontier(s), k) {
        var a :| a in Flow.Frontier(s) && a.key == k;
        assert a in leaves;
      }
      if k in Keys(leaves) {
        var a :| a in leaves && a.key == k;
        assert a in Flow.Frontier(s);
      }
    }
  }

  lemma StitchedOutput(cfg: Config, outcome: Item -> Outcome, initial: map<string, Cached>, leaves: seq<Admitted>,
        s: State)
    requires Conserved(cfg, s) && Tracks(cfg, outcome, initial, s) && Pending(s) == multiset{}
        && Settled(s) == BagOf(leaves)
    requires s.terminal == s.terminalHash.Keys == Keys(leaves) && Answers(s.cache, s.terminalHash)
    ensures SameResults(Stitched(s), Results(outcome, leaves, KeyOrder.SortedKeys(Keys(leaves))))
  {
    var keys := KeyOrder.SortedKeys(s.terminalHash.Keys);
    assert |InKeyOrder(s.cache, keys)| == |keys| by {
      if keys != [] { InKeyOrderAt(s.cache, keys, 0); }
    }
    forall i | 0 <= i < |keys| ensures Results(outcome, leaves, keys)[i] == Some(InKeyOrder(s.cache, keys)[i]) {
      assert keys[i] in keys;
      assert AnswersKey(s.cache, s.terminalHash, keys[i]);
      InKeyOrderAt(s.cache, keys, i);
      StitchedResult(cfg, outcome, initial, leaves, s, keys[i]);
    }
  }

  lemma LeavesStitch(cfg: Config, outcome: Item -> Outcome, initial: map<string, Cached>, leaves: seq<Admitted>,
        s: State)
    requires Conserved(cfg, s) && Tracks(cfg, outcome, initial, s) && Pending(s) == multiset{}
        && Settled(s) == BagOf(leaves)
    ensures Stitches(cfg, outcome, leaves, s)
  {
    TerminalAreLeafKeys(cfg, leaves, s);
    AnswersIffAccepted(cfg, outcome, initial, s);
    if Answers(s.cache, s.terminalHash) {
      StitchedOutput(cfg, outcome, initial, leaves, s);
    }
  }

  /** Whatever was cached, however futures finished and however often they failed: a run
      that gets to its end stitches exactly the leaves of the split tree, in ascending key
      order, with the results a sequential uncached evaluation gives them. */
  lemma RunIsTransparent(cfg: Config, outcome: Item -> Outcome, items: seq<Item>, cache: map<string, Cached>,
        trace: seq<Event>)
    requires Possible(cfg, Start(cfg, items, cache), trace) && Faithful(cfg, outcome, Start(cfg, items, cache), trace)
    requires SoundCache(cfg, outcome, cache) && Finished(Replay(cfg, Start(cfg, items, cache), trace))
    ensures Stitches(cfg, outcome, LeavesOfAll(cfg, outcome, items, 0), Replay(cfg, Start(cfg, items, cache), trace))
    ensures forall a | a in LeavesOfAll(cfg, outcome, items, 0) :: outcome(a.item).Yields?
  {
    var s, leaves := Replay(cfg, Start(cfg, items, cache), trace), LeavesOfAll(cfg, outcome, items, 0);
    FinishedAtLeaves(cfg, outcome, items, cache, trace);
    Accounting.NothingPending(s);
    BagMembers(leaves);
    LeavesStitch(cfg, outcome, cache, leaves, s);
  }

  // ---------------------------------------------------------------- schedule independence

  /** Configurations that decide alike what is split into what: only concurrency, retry
      policy, classifiers and validator may differ. */
  ghost predicate SamePlan(a: Config, b: Config) {
    && a.contentKey == b.contentKey && a.splitPolicy == b.splitPolicy
    && a.splitSize == b.splitSize && a.maxSplitDepth == b.maxSplitDepth
  }

  lemma {:induction false} SameLeaves(a: Config, b: Config, outcome: Item -> Outcome, item: Item, depth: nat)
    requires SamePlan(a, b)
    ensures Leaves(a, outcome, item, depth) == Leaves(b, outcome, item, depth)
    decreases Room(a, depth), 0, 0
  {
    assert SplitFault(a, item, depth) == SplitFault(b, item, depth);
    if outcome(item).Divides? && SplitFault(a, item, depth).None? {
      SameLeavesOfAll(a, b, outcome, Children(a, item), depth + 1);
    }
  }

  lemma {:induction false} SameLeavesOfAll(a: Config, b: Config, outcome: Item -> Outcome, items: seq<Item>, depth: nat)
    requires SamePlan(a, b)
    ensures LeavesOfAll(a, outcome, items, depth) == LeavesOfAll(b, outcome, items, depth)
    decreases Room(a, depth), 1, |items|
  {
    if items != [] {
      SameLeaves(a, b, outcome, items[0], depth);
      SameLeavesOfAll(a, b, outcome, items[1..], depth);
    }
  }

  /** A run that got to its end, from whatever sound cache. */
  ghost predicate Completed(cfg: Config, outcome: Item -> Outcome, items: seq<Item>, s: State) {
    exists cache, trace ::
      && SoundCache(cfg, outcome, cache) && Possible(cfg, Start(cfg, items, cache), trace)
      && Faithful(cfg, outcome, Start(cfg, items, cache), trace)
      && s == Replay(cfg, Start(cfg, items, cache), trace) && Finished(s)
  }

  /** Two runs over the same items agree on the terminal keys and on everything they stitch,
      whatever their concurrency, completion order, retries and caches were. */
  lemma SchedulesAgree(a: Config, b: Config, outcome: Item -> Outcome, items: seq<Item>, s: State, t: State)
    requires SamePlan(a, b) && Completed(a, outcome, items, s) && Completed(b, outcome, items, t)
    ensures s.terminal == t.terminal == s.terminalHash.Keys == t.terminalHash.Keys
    ensures Answers(s.cache, s.terminalHash) && Answers(t.cache, t.terminalHash) ==>
      Stitched(s) == Stitched(t)
  {
    var leaves := LeavesOfAll(a, outcome, items, 0);
    SameLeavesOfAll(a, b, outcome, items, 0);
    CompletedStitches(a, outcome, items, leaves, s);
    CompletedStitches(b, outcome, items, leaves, t);
    StitchAlike(a, b, outcome, leaves, s, t);
  }

  lemma StitchAlike(a: Config, b: Config, outcome: Item -> Outcome, leaves: seq<Admitted>, s: State, t: State)
    requires Stitches(a, outcome, leaves, s) && Stitches(b, outcome, leaves, t)
    ensures s.terminal == t.terminal == s.terminalHash.Keys == t.terminalHash.Keys
    ensures Answers(s.cache, s.terminalHash) && Answers(t.cache, t.terminalHash) ==>
      Stitched(s) == Stitched(t)
  {}

  lemma CompletedStitches(cfg: Config, outcome: Item -> Outcome, items: seq<Item>, leaves: seq<Admitted>, s: State)
    requires Completed(cfg, outcome, items, s) && leaves == LeavesOfAll(cfg, outcome, items, 0)
    ensures Stitches(cfg, outcome, leaves, s)
  {
    var cache, trace :|
      && SoundCache(cfg, outcome, cache) && Possible(cfg, Start(cfg, items, cache), trace)
      && Faithful(cfg, outcome, Start(cfg, items, cache), trace)
      && s == Replay(cfg, Start(cfg, items, cache), trace) && Finished(s);
    RunIsTransparent(cfg, outcome, items, cache, trace);
  }
}
