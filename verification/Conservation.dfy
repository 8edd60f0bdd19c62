/** Exactly-once bookkeeping: in every reachable state each terminal key belongs to exactly
    one work item, which is in exactly one place. */
module Conservation {
  import Jsonl
  import opened Work
  import Store
  import opened Scheduler
  import opened Flow

  function DepthLimit(cfg: Config): nat {
    if cfg.maxSplitDepth < 0 then 0 else cfg.maxSplitDepth
  }

  /** No item twice, no key twice. */
  ghost predicate Distinct(bag: Bag) {
    && (forall a | a in bag :: bag[a] == 1)
    && (forall a, b {:trigger bag[a], bag[b]} | a in bag && b in bag && a.key == b.key :: a == b)
  }

  /** Every item carries the identity derived from its payload and is registered as live. */
  ghost predicate Registered(cfg: Config, bag: Bag, live: map<string, string>) {
    forall a | a in bag ::
      && a == Admit(cfg, a.item, a.depth) && a.depth <= DepthLimit(cfg)
      && a.key in live && live[a.key] == a.hash
  }

  ghost predicate FrontierIs(bag: Bag, terminal: set<string>, hashes: map<string, string>) {
    && (forall k :: k in terminal <==> HasKey(bag, k))
    && hashes.Keys == terminal
    && (forall a | a in bag :: a.key in hashes && hashes[a.key] == a.hash)
  }

  ghost predicate HasKey(bag: Bag, k: string) {
    exists a :: a in bag && a.key == k
  }

  /** The leaf frontier is the disjoint union of ready, delayed, in flight, resumed and
      committed, and terminal_keys, terminal_hash and live_map say so. */
  ghost predicate Conserved(cfg: Config, s: State) {
    && Distinct(Frontier(s))
    && Registered(cfg, Frontier(s), s.live)
    && FrontierIs(Frontier(s), s.terminal, s.terminalHash)
  }

  // ---------------------------------------------------------------- admission

  ghost predicate Admits(cfg: Config, items: seq<Item>, depth: nat, live: map<string, string>, r: Admission) {
    && |r.ads| == |items|
    && (forall i | 0 <= i < |items| :: r.ads[i] == Admit(cfg, items[i], depth))
    && (forall i | 0 <= i < |items| :: r.ads[i].key !in live)
    && (forall i, j | 0 <= i < j < |items| :: r.ads[i].key != r.ads[j].key)
    && (forall k | k in live :: k in r.live && r.live[k] == live[k])
    && (forall i | 0 <= i < |items| :: r.ads[i].key in r.live && r.live[r.ads[i].key] == r.ads[i].hash)
    && (forall k | k in r.live :: k in live || k in Keys(r.ads))
  }

  lemma AdmitsOneMore(cfg: Config, item: Item, items: seq<Item>, depth: nat, live: map<string, string>, ad: Admitted,
        live': map<string, string>, rest: Admission)
    requires ad == Admit(cfg, item, depth) && ad.key !in live && live' == live[ad.key := ad.hash]
    requires Admits(cfg, items, depth, live', rest)
    ensures Admits(cfg, [item] + items, depth, live, Admission(rest.live, [ad] + rest.ads, true))
  {
    KeysOfMore(ad, rest.ads);
    assert ad.key in live' && live'[ad.key] == ad.hash;
  }

  lemma KeysOfMore(ad: Admitted, ads: seq<Admitted>)
    ensures Keys([ad] + ads) == {ad.key} + Keys(ads)
  {
    assert forall a :: a in [ad] + ads <==> a == ad || a in ads;
  }

  lemma {:induction false} AdmissionFacts(cfg: Config, items: seq<Item>, depth: nat, live: map<string, string>)
    ensures var r := AdmitAll(cfg, items, depth, live); r.ok ==> Admits(cfg, items, depth, live, r)
  {
    if items != [] {
      var ad := Admit(cfg, items[0], depth);
      if ad.key !in live {
        var live' := live[ad.key := ad.hash];
        AdmissionFacts(cfg, items[1..], depth, live');
        var rest := AdmitAll(cfg, items[1..], depth, live');
        assert items == [items[0]] + items[1..];
        if rest.ok { AdmitsOneMore(cfg, items[0], items[1..], depth, live, ad, live', rest); }
      }
    }
  }

  lemma {:induction false} AddHashesKeys(hashes: map<string, string>, ads: seq<Admitted>)
    ensures AddHashes(hashes, ads).Keys == hashes.Keys + Keys(ads)
    decreases ads
  {
    if ads != [] {
      AddHashesKeys(hashes[ads[0].key := ads[0].hash], ads[1..]);
      assert ads == [ads[0]] + ads[1..];
      assert Keys(ads) == {ads[0].key} + Keys(ads[1..]);
    }
  }

  lemma {:induction false} OtherHashesStay(hashes: map<string, string>, ads: seq<Admitted>, k: string)
    requires k in hashes && k !in Keys(ads)
    ensures k in AddHashes(hashes, ads) && AddHashes(hashes, ads)[k] == hashes[k]
    decreases ads
  {
    if ads != [] {
      assert ads[0].key in Keys(ads);
      OtherHashesStay(hashes[ads[0].key := ads[0].hash], ads[1..], k);
    }
  }

  lemma {:induction false} AddedHash(hashes: map<string, string>, ads: seq<Admitted>, i: nat)
    requires i < |ads| && forall i, j | 0 <= i < j < |ads| :: ads[i].key != ads[j].key
    ensures ads[i].key in AddHashes(hashes, ads) && AddHashes(hashes, ads)[ads[i].key] == ads[i].hash
    decreases ads
  {
    var first := hashes[ads[0].key := ads[0].hash];
    if i == 0 {
      OtherHashesStay(first, ads[1..], ads[0].key);
    } else {
      AddedHash(first, ads[1..], i - 1);
    }
  }

  lemma AddHashesFacts(hashes: map<string, string>, ads: seq<Admitted>)
    requires forall i, j | 0 <= i < j < |ads| :: ads[i].key != ads[j].key
    ensures AddHashes(hashes, ads).Keys == hashes.Keys + Keys(ads)
    ensures forall a | a in ads :: a.key in AddHashes(hashes, ads) && AddHashes(hashes, ads)[a.key] == a.hash
    ensures forall k | k in hashes && k !in Keys(ads) :: AddHashes(hashes, ads)[k] == hashes[k]
  {
    AddHashesKeys(hashes, ads);
    forall a | a in ads ensures a.key in AddHashes(hashes, ads) && AddHashes(hashes, ads)[a.key] == a.hash {
      var i :| 0 <= i < |ads| && ads[i] == a;
      AddedHash(hashes, ads, i);
    }
    forall k | k in hashes && k !in Keys(ads) ensures AddHashes(hashes, ads)[k] == hashes[k] {
      OtherHashesStay(hashes, ads, k);
    }
  }

  /** Freshly admitted items are distinct, registered and disjoint from what was live before. */
  lemma AdmittedBag(cfg: Config, items: seq<Item>, depth: nat, live: map<string, string>)
    requires depth <= DepthLimit(cfg)
    ensures var r := AdmitAll(cfg, items, depth, live);
      r.ok ==>
        && Distinct(BagOf(r.ads)) && Registered(cfg, BagOf(r.ads), r.live)
        && (forall a | a in BagOf(r.ads) :: a.key !in live)
  {
    var r := AdmitAll(cfg, items, depth, live);
    AdmissionFacts(cfg, items, depth, live);
    if r.ok {
      DistinctKeysDistinctBag(r.ads);
      BagMembers(r.ads);
      forall a | a in BagOf(r.ads) ensures a == Admit(cfg, a.item, a.depth) && a.key !in live {
        var i :| 0 <= i < |r.ads| && r.ads[i] == a;
      }
    }
  }

  lemma {:induction false} DistinctKeysDistinctBag(ads: seq<Admitted>)
    requires forall i, j | 0 <= i < j < |ads| :: ads[i].key != ads[j].key
    ensures Distinct(BagOf(ads))
  {
    if ads != [] {
      DistinctKeysDistinctBag(ads[1..]);
      HeadBag(ads);
      BagMembers(ads);
      BagMembers(ads[1..]);
      assert ads[0] !in ads[1..];
      forall a, b | a in BagOf(ads) && b in BagOf(ads) && a.key == b.key ensures a == b {
        assert a in ads && b in ads;
      }
    } else {
      BagNone();
    }
  }

  // ---------------------------------------------------------------- every step

  /** Replacing a leaf by fresh children keeps the frontier distinct and registered. */
  lemma SplitKeepsDistinct(cfg: Config, bag: Bag, ad: Admitted, children: Bag, live: map<string, string>,
        live': map<string, string>)
    requires Distinct(bag) && Registered(cfg, bag, live) && ad in bag
    requires Distinct(children) && Registered(cfg, children, live')
    requires forall a | a in children :: a.key !in live
    requires forall k | k in live :: k in live' && live'[k] == live[k]
    ensures Distinct(bag - multiset{ad} + children) && Registered(cfg, bag - multiset{ad} + children, live')
  {}

  lemma SplitKeepsFrontier(bag: Bag, ad: Admitted, ads: seq<Admitted>, terminal: set<string>,
        hashes: map<string, string>)
    requires Distinct(bag) && ad in bag && FrontierIs(bag, terminal, hashes)
    requires forall i, j | 0 <= i < j < |ads| :: ads[i].key != ads[j].key
    requires forall a | a in ads :: !HasKey(bag, a.key)
    ensures FrontierIs(bag - multiset{ad} + BagOf(ads), terminal - {ad.key} + Keys(ads), AddHashes(hashes - {ad.key}, ads))
  {
    KeysAfterSplit(bag, ad, ads);
    HashesAfterSplit(bag, ad, ads, hashes);
    AddHashesFacts(hashes - {ad.key}, ads);
  }

  lemma HashesAfterSplit(bag: Bag, ad: Admitted, ads: seq<Admitted>, hashes: map<string, string>)
    requires Distinct(bag) && ad in bag && forall a | a in bag :: a.key in hashes && hashes[a.key] == a.hash
    requires forall i, j | 0 <= i < j < |ads| :: ads[i].key != ads[j].key
    requires forall a | a in ads :: !HasKey(bag, a.key)
    ensures var after := AddHashes(hashes - {ad.key}, ads);
      forall a | a in bag - multiset{ad} + BagOf(ads) :: a.key in after && after[a.key] == a.hash
  {
    AddHashesFacts(hashes - {ad.key}, ads);
    BagMembers(ads);
    forall a | a in bag && a != ad ensures a.key !in Keys(ads) && a.key != ad.key {
      assert HasKey(bag, a.key);
    }
  }

  lemma KeysAfterSplit(bag: Bag, ad: Admitted, ads: seq<Admitted>)
    requires Distinct(bag) && ad in bag
    ensures forall k :: HasKey(bag - multiset{ad} + BagOf(ads), k) <==> (k in Keys(ads) || (HasKey(bag, k) && k != ad.key))
  {
    var after := bag - multiset{ad} + BagOf(ads);
    BagMembers(ads);
    forall k | k in Keys(ads) || (HasKey(bag, k) && k != ad.key) ensures HasKey(after, k) {
      if k in Keys(ads) {
        var a :| a in ads && a.key == k;
        assert a in after;
      } else {
        var a :| a in bag && a.key == k;
        assert a in after;
      }
    }
    forall k | HasKey(after, k) ensures k in Keys(ads) || (HasKey(bag, k) && k != ad.key) {
      var a :| a in after && a.key == k;
      assert a in ads || (a in bag && a != ad);
    }
  }

  /** What a split that goes through does: children admitted, leaf replaced, registers updated. */
  ghost predicate SplitInto(cfg: Config, s: State, ad: Admitted, r: Admission, s': State) {
    && r.ok && ad.depth + 1 <= DepthLimit(cfg)
    && s'.live == r.live
    && s'.terminal == s.terminal - {ad.key} + Keys(r.ads)
    && s'.terminalHash == AddHashes(s.terminalHash - {ad.key}, r.ads)
    && Pending(s') == Pending(s) + BagOf(r.ads) && Settled(s') == Settled(s)
  }

  lemma SplitDoes(cfg: Config, s: State, ad: Admitted)
    requires s.stop.None? && Split(cfg, s, ad).stop.None?
    ensures SplitInto(cfg, s, ad, AdmitChildren(cfg, s, ad), Split(cfg, s, ad))
  {
    SplitFlow(cfg, s, ad);
  }

  /** The state between taking an item out of flight and routing its failure. */
  ghost predicate Holding(cfg: Config, s: State, ad: Admitted) {
    && Distinct(Frontier(s) + multiset{ad})
    && Registered(cfg, Frontier(s) + multiset{ad}, s.live)
    && FrontierIs(Frontier(s) + multiset{ad}, s.terminal, s.terminalHash)
  }

  lemma NewKeysAreNew(cfg: Config, bag: Bag, live: map<string, string>, ads: seq<Admitted>)
    requires Registered(cfg, bag, live)
    requires forall a | a in BagOf(ads) :: a.key !in live
    ensures forall a | a in ads :: !HasKey(bag, a.key)
  {
    BagMembers(ads);
  }

  /** Children that can take a leaf's place. */
  ghost predicate FreshChildren(cfg: Config, live: map<string, string>, r: Admission) {
    && (forall i, j | 0 <= i < j < |r.ads| :: r.ads[i].key != r.ads[j].key)
    && (forall k | k in live :: k in r.live && r.live[k] == live[k])
    && (forall a | a in BagOf(r.ads) :: a.key !in live)
    && Distinct(BagOf(r.ads)) && Registered(cfg, BagOf(r.ads), r.live)
  }

  lemma AdmittedIsFresh(cfg: Config, items: seq<Item>, depth: nat, live: map<string, string>)
    requires depth <= DepthLimit(cfg) && AdmitAll(cfg, items, depth, live).ok
    ensures FreshChildren(cfg, live, AdmitAll(cfg, items, depth, live))
  {
    AdmissionFacts(cfg, items, depth, live);
    AdmittedBag(cfg, items, depth, live);
  }

  lemma ReplacedByChildren(cfg: Config, s: State, ad: Admitted, r: Admission, s': State)
    requires Holding(cfg, s, ad) && FreshChildren(cfg, s.live, r) && SplitInto(cfg, s, ad, r, s')
    ensures Conserved(cfg, s')
  {
    var bag := Frontier(s) + multiset{ad};
    assert bag - multiset{ad} + BagOf(r.ads) == Frontier(s');
    SplitKeepsDistinct(cfg, bag, ad, BagOf(r.ads), s.live, s'.live);
    NewKeysAreNew(cfg, bag, s.live, r.ads);
    SplitKeepsFrontier(bag, ad, r.ads, s.terminal, s.terminalHash);
  }

  lemma SplitIsFresh(cfg: Config, s: State, ad: Admitted, r: Admission, s': State)
    requires s'.stop.None? && r == AdmitChildren(cfg, s, ad) && s' == Split(cfg, s, ad)
    ensures SplitInto(cfg, s, ad, r, s') && FreshChildren(cfg, s.live, r)
  {
    SplitDoes(cfg, s, ad);
    AdmittedIsFresh(cfg, Children(cfg, ad.item), ad.depth + 1, s.live);
  }

  lemma SplitConserves(cfg: Config, s: State, ad: Admitted, r: Admission, s': State)
    requires s.stop.None? && s'.stop.None? && Holding(cfg, s, ad)
    requires r == AdmitChildren(cfg, s, ad) && s' == Split(cfg, s, ad)
    ensures Conserved(cfg, s')
  {
    SplitIsFresh(cfg, s, ad, r, s');
    ReplacedByChildren(cfg, s, ad, r, s');
  }

  ghost predicate SameRegisters(s: State, s': State) {
    s'.live == s.live && s'.terminal == s.terminal && s'.terminalHash == s.terminalHash
  }

  lemma RetryConserves(cfg: Config, s: State, ad: Admitted, exn: Exn, now: real, delay: real)
    requires s.stop.None? && Retry(cfg, s, ad, exn, now, delay).stop.None? && Holding(cfg, s, ad)
    ensures Conserved(cfg, Retry(cfg, s, ad, exn, now, delay))
  {
    RetryFlow(cfg, s, ad, exn, now, delay);
    RetryRegisters(cfg, s, ad, exn, now, delay);
    HandedBack(cfg, s, ad, Retry(cfg, s, ad, exn, now, delay));
  }

  lemma HandedBack(cfg: Config, s: State, ad: Admitted, s': State)
    requires Holding(cfg, s, ad) && Frontier(s') == Frontier(s) + multiset{ad} && SameRegisters(s, s')
    ensures Conserved(cfg, s')
  {}

  lemma SameFrontierConserves(cfg: Config, s: State, s': State)
    requires Conserved(cfg, s) && Frontier(s') == Frontier(s) && SameRegisters(s, s')
    ensures Conserved(cfg, s')
  {}

  lemma RetryRegisters(cfg: Config, s: State, ad: Admitted, exn: Exn, now: real, delay: real)
    ensures SameRegisters(s, Retry(cfg, s, ad, exn, now, delay))
  {}

  lemma RoutedConserves(cfg: Config, s: State, ad: Admitted, exn: Exn, now: real, draw: real)
    requires s.stop.None? && Holding(cfg, s, ad) && Routed(cfg, s, ad, exn, now, draw).stop.None?
    ensures Conserved(cfg, Routed(cfg, s, ad, exn, now, draw))
  {
    match Classify(cfg, exn, ad.item)
    case ToSplit =>
      SplitConserves(cfg, s, ad, AdmitChildren(cfg, s, ad), Split(cfg, s, ad));
    case ToRetry => RetryConserves(cfg, s, ad, exn, now, NextDelay(cfg, s, ad, exn, draw));
    case ToFatal =>
  }

  lemma TakenIsHolding(cfg: Config, s: State, i: nat)
    requires i < |s.inflight| && Conserved(cfg, s)
    ensures Holding(cfg, Taken(s, i), s.inflight[i])
  {
    TakenFlow(s, i);
    assert Frontier(Taken(s, i)) + multiset{s.inflight[i]} == Frontier(s);
  }

  lemma FailConserves(cfg: Config, s: State, i: nat, exn: Exn, now: real, draw: real)
    requires Conserved(cfg, s) && Enabled(cfg, s, Fail(i, exn, now, draw))
    ensures AfterFail(cfg, s, i, exn, now, draw).stop.None? ==> Conserved(cfg, AfterFail(cfg, s, i, exn, now, draw))
  {
    TakenIsHolding(cfg, s, i);
    if AfterFail(cfg, s, i, exn, now, draw).stop.None? {
      RoutedConserves(cfg, Taken(s, i), s.inflight[i], exn, now, draw);
    }
  }

  lemma DispatchConserves(cfg: Config, s: State, lookup: Lookup)
    requires Conserved(cfg, s) && Enabled(cfg, s, Dispatch(lookup)) && !lookup.HasRaised?
    ensures Conserved(cfg, AfterDispatch(s, lookup))
  {
    DispatchFlow(s, lookup);
    SameFrontierConserves(cfg, s, AfterDispatch(s, lookup));
  }

  lemma FinishConserves(cfg: Config, s: State, i: nat, records: Jsonl.Records, persist: Persist)
    requires Conserved(cfg, s) && Enabled(cfg, s, Finish(i, records, persist)) && persist.Stored?
    ensures Conserved(cfg, AfterFinish(cfg, s, i, records, persist))
  {
    FinishFlow(cfg, s, i, records, persist);
    SameFrontierConserves(cfg, s, AfterFinish(cfg, s, i, records, persist));
  }

  lemma PromoteConserves(cfg: Config, s: State, clock: real)
    requires Conserved(cfg, s)
    ensures Conserved(cfg, AfterPromote(s, clock))
  {
    PromoteFlow(s, clock);
    SameFrontierConserves(cfg, s, AfterPromote(s, clock));
  }

  lemma StepConserves(cfg: Config, s: State, e: Event)
    requires s.stop.None? && Conserved(cfg, s) && Enabled(cfg, s, e)
    ensures Step(cfg, s, e).stop.None? ==> Conserved(cfg, Step(cfg, s, e))
  {
    match e
    case Dispatch(lookup) => if !lookup.HasRaised? { DispatchConserves(cfg, s, lookup); }
    case Finish(i, records, persist) => if persist.Stored? { FinishConserves(cfg, s, i, records, persist); }
    case Promote(clock) => PromoteConserves(cfg, s, clock);
    case Fail(i, exn, now, draw) => FailConserves(cfg, s, i, exn, now, draw);
  }

  lemma KeysOfBag(ads: seq<Admitted>, terminal: set<string>, hashes: map<string, string>)
    requires forall i, j | 0 <= i < j < |ads| :: ads[i].key != ads[j].key
    requires terminal == Keys(ads) && hashes == AddHashes(map[], ads)
    ensures FrontierIs(BagOf(ads), terminal, hashes)
  {
    AddHashesFacts(map[], ads);
    BagMembers(ads);
    forall k ensures k in terminal <==> HasKey(BagOf(ads), k) {
      if k in Keys(ads) { var a :| a in ads && a.key == k; assert a in BagOf(ads); }
      if HasKey(BagOf(ads), k) { var a :| a in BagOf(ads) && a.key == k; assert a in ads; }
    }
  }

  lemma StartFlow(cfg: Config, items: seq<Item>, cache: map<string, Store.Cached>)
    ensures var s := Start(cfg, items, cache);
      s.stop.None? ==> Frontier(s) == Pending(s) == BagOf(AdmitAll(cfg, items, 0, map[]).ads)
  {
    BagNone();
    assert Ads([]) == [];
  }

  lemma StartConserves(cfg: Config, items: seq<Item>, cache: map<string, Store.Cached>)
    ensures var s := Start(cfg, items, cache); s.stop.None? ==> Conserved(cfg, s)
  {
    var roots := AdmitAll(cfg, items, 0, map[]);
    if roots.ok {
      var bag := BagOf(roots.ads);
      StartFlow(cfg, items, cache);
      assert Distinct(bag) && Registered(cfg, bag, roots.live) by { AdmittedBag(cfg, items, 0, map[]); }
      assert FrontierIs(bag, Keys(roots.ads), AddHashes(map[], roots.ads)) by {
        AdmissionFacts(cfg, items, 0, map[]);
        KeysOfBag(roots.ads, Keys(roots.ads), AddHashes(map[], roots.ads));
      }
    }
  }

  /** In every state a run can reach. */
  lemma {:induction false} ReachableConserved(cfg: Config, items: seq<Item>, cache: map<string, Store.Cached>,
        trace: seq<Event>)
    requires Possible(cfg, Start(cfg, items, cache), trace)
    ensures var s := Replay(cfg, Start(cfg, items, cache), trace); s.stop.None? ==> Conserved(cfg, s)
  {
    var start := Start(cfg, items, cache);
    if trace == [] {
      StartConserves(cfg, items, cache);
    } else {
      var before := Replay(cfg, start, trace[..|trace| - 1]);
      ReachableConserved(cfg, items, cache, trace[..|trace| - 1]);
      if before.stop.None? {
        StepConserves(cfg, before, trace[|trace| - 1]);
      } else {
        StoppedStays(cfg, before, trace[|trace| - 1]);
      }
    }
  }

  /** A stopped run changes nothing but where its delayed items queue. */
  lemma StoppedStays(cfg: Config, s: State, e: Event)
    requires s.stop.Some? && Enabled(cfg, s, e)
    ensures e.Promote? && Step(cfg, s, e).stop == s.stop && Step(cfg, s, e).cache == s.cache
    ensures SameRegisters(s, Step(cfg, s, e)) && Step(cfg, s, e).hist == s.hist
    ensures Step(cfg, s, e).inflight == s.inflight
  {}
}
