/** What the leaf frontier covers: splits replace a leaf by its parts, and nothing else ever
    moves the frontier. */
module Frontier {
  import opened Wrappers
  import Jsonl
  import opened Work
  import opened Store
  import opened Scheduler
  import opened Flow
  import opened Totals
  import opened Conservation

  // ---------------------------------------------------------------- how the frontier moves

  ghost predicate Unmoved(s: State, s': State) {
    SameRegisters(s, s') && s'.hist.parents == s.hist.parents
  }

  /** One leaf gave way to its children. */
  ghost predicate SplitAway(cfg: Config, s: State, ad: Admitted, r: Admission, s': State) {
    && ad in Flow.Frontier(s) && SplitFault(cfg, ad.item, ad.depth).None?
    && r == AdmitAll(cfg, Children(cfg, ad.item), ad.depth + 1, s.live) && r.ok && r.ads != []
    && Flow.Frontier(s') == Flow.Frontier(s) - multiset{ad} + BagOf(r.ads)
    && s'.live == r.live && s'.terminal == s.terminal - {ad.key} + Keys(r.ads)
    && s'.hist.parents == AddParents(s.hist.parents, r.ads, ad.key)
  }

  ghost predicate SplitsAway(cfg: Config, s: State, ad: Admitted, s': State) {
    exists r :: SplitAway(cfg, s, ad, r, s')
  }

  /** This event is a failure of that item, and the policy wants it split. */
  predicate SplitFailure(cfg: Config, s: State, e: Event, ad: Admitted) {
    e.Fail? && e.i < |s.inflight| && s.inflight[e.i] == ad && Classify(cfg, e.exn, ad.item).ToSplit?
  }

  /** How one event moves the frontier. */
  ghost predicate Moves(cfg: Config, s: State, e: Event, s': State) {
    || (Unmoved(s, s') && Flow.Frontier(s') == Flow.Frontier(s))
    || exists ad :: SplitFailure(cfg, s, e, ad) && SplitsAway(cfg, s, ad, s')
  }

  lemma SplitMoves(cfg: Config, s: State, i: nat, s': State)
    requires s.stop.None? && i < |s.inflight| && s' == Split(cfg, Taken(s, i), s.inflight[i]) && s'.stop.None?
    ensures SplitsAway(cfg, s, s.inflight[i], s')
  {
    var taken, ad := Taken(s, i), s.inflight[i];
    var r := AdmitChildren(cfg, taken, ad);
    SplitCases(cfg, taken, ad, r, s');
    SplitFlow(cfg, taken, ad);
    TakenFlow(s, i);
    SomeChildren(cfg, taken, ad);
    assert SplitAway(cfg, s, ad, r, s');
  }

  /** An accepted split has children. */
  lemma SomeChildren(cfg: Config, s: State, ad: Admitted)
    requires s.stop.None? && Split(cfg, s, ad).stop.None?
    ensures Children(cfg, ad.item) != [] && AdmitChildren(cfg, s, ad).ads != []
  {
    AdmissionFacts(cfg, Children(cfg, ad.item), ad.depth + 1, s.live);
  }

  lemma RetryMoves(cfg: Config, s: State, i: nat, exn: Exn, now: real, delay: real, s': State)
    requires s.stop.None? && i < |s.inflight| && s' == Retry(cfg, Taken(s, i), s.inflight[i], exn, now, delay)
        && s'.stop.None?
    ensures Unmoved(s, s') && Flow.Frontier(s') == Flow.Frontier(s)
  {
    TakenFlow(s, i);
    RetryFlow(cfg, Taken(s, i), s.inflight[i], exn, now, delay);
    assert Flow.Frontier(s') == Flow.Frontier(s);
  }

  lemma DispatchMoves(s: State, lookup: Lookup, s': State)
    requires s.ready != [] && s' == AfterDispatch(s, lookup) && s'.stop.None?
    ensures Unmoved(s, s') && Flow.Frontier(s') == Flow.Frontier(s)
  {
    DispatchFlow(s, lookup);
    assert Flow.Frontier(s') == Flow.Frontier(s);
  }

  lemma FinishMoves(cfg: Config, s: State, i: nat, records: Jsonl.Records, persist: Persist, s': State)
    requires i < |s.inflight| && s' == AfterFinish(cfg, s, i, records, persist) && s'.stop.None?
    ensures Unmoved(s, s') && Flow.Frontier(s') == Flow.Frontier(s)
  {
    FinishFlow(cfg, s, i, records, persist);
    assert Flow.Frontier(s') == Flow.Frontier(s);
  }

  lemma FailMoves(cfg: Config, s: State, i: nat, exn: Exn, now: real, draw: real, s': State)
    requires s.stop.None? && i < |s.inflight| && s' == AfterFail(cfg, s, i, exn, now, draw) && s'.stop.None?
    ensures Moves(cfg, s, Fail(i, exn, now, draw), s')
  {
    match Classify(cfg, exn, s.inflight[i].item)
    case ToSplit =>
      SplitMoves(cfg, s, i, s');
      assert SplitFailure(cfg, s, Fail(i, exn, now, draw), s.inflight[i]);
    case ToRetry => RetryMoves(cfg, s, i, exn, now, NextDelay(cfg, Taken(s, i), s.inflight[i], exn, draw), s');
    case ToFatal =>
  }

  lemma StepMoves(cfg: Config, s: State, e: Event, s': State)
    requires s.stop.None? && Enabled(cfg, s, e) && s' == Step(cfg, s, e) && s'.stop.None?
    ensures Moves(cfg, s, e, s')
  {
    match e
    case Dispatch(lookup) => DispatchMoves(s, lookup, s');
    case Finish(i, records, persist) => FinishMoves(cfg, s, i, records, persist, s');
    case Promote(clock) => PromoteFlow(s, clock);
    case Fail(i, exn, now, draw) => FailMoves(cfg, s, i, exn, now, draw, s');
  }

  // ---------------------------------------------------------------- when a split goes through

  predicate FreshKeys(cfg: Config, items: seq<Item>, live: map<string, string>) {
    && (forall i | 0 <= i < |items| :: cfg.contentKey(items[i].payload).0 !in live)
    && (forall i, j | 0 <= i < j < |items| ::
          cfg.contentKey(items[i].payload).0 != cfg.contentKey(items[j].payload).0)
  }

  lemma {:induction false} AdmissionSucceeds(cfg: Config, items: seq<Item>, depth: nat, live: map<string, string>)
    ensures AdmitAll(cfg, items, depth, live).ok <==> FreshKeys(cfg, items, live)
  {
    if items != [] {
      var ad := Admit(cfg, items[0], depth);
      AdmissionSucceeds(cfg, items[1..], depth, live[ad.key := ad.hash]);
      if FreshKeys(cfg, items[1..], live[ad.key := ad.hash]) && ad.key !in live {
        forall i | 0 <= i < |items| ensures cfg.contentKey(items[i].payload).0 !in live {
          if i > 0 { assert items[i] == items[1..][i - 1]; }
        }
        forall i, j | 0 <= i < j < |items|
          ensures cfg.contentKey(items[i].payload).0 != cfg.contentKey(items[j].payload).0
        {
          assert items[j] == items[1..][j - 1];
          if i > 0 { assert items[i] == items[1..][i - 1]; }
        }
      }
    }
  }

  /** Every child is strictly smaller, wherever the sizes of parent and children all mean something. */
  predicate SizesShrink(cfg: Config, item: Item) {
    cfg.splitSize(item) > 0 && (forall c | c in Children(cfg, item) :: cfg.splitSize(c) > 0) ==>
      forall c | c in Children(cfg, item) :: cfg.splitSize(c) < cfg.splitSize(item)
  }

  lemma NoFault(cfg: Config, item: Item, depth: nat)
    ensures SplitFault(cfg, item, depth).None? <==>
      depth < cfg.maxSplitDepth && Children(cfg, item) != [] && SizesShrink(cfg, item)
  {}

  /** A split goes through exactly when the depth allows it, there are children, they shrink
      where sizes mean anything, and every child key is new; otherwise the frontier stays
      what it was, although some of the children may already have been admitted. */
  lemma SplitGoesThrough(cfg: Config, s: State, ad: Admitted)
    requires s.stop.None?
    ensures var s' := Split(cfg, s, ad);
      && (s'.stop.None? <==>
            && ad.depth < cfg.maxSplitDepth && Children(cfg, ad.item) != [] && SizesShrink(cfg, ad.item)
            && FreshKeys(cfg, Children(cfg, ad.item), s.live))
      && (s'.stop.Some? ==> SplitRefused(s, s') && Flow.Frontier(s') == Flow.Frontier(s))
  {
    var s' := Split(cfg, s, ad);
    AdmissionSucceeds(cfg, Children(cfg, ad.item), ad.depth + 1, s.live);
    NoFault(cfg, ad.item, ad.depth);
    SplitCases(cfg, s, ad, AdmitChildren(cfg, s, ad), s');
    SplitFlow(cfg, s, ad);
  }

  /** Admission only ever adds to the live keys, whether it goes through or not. */
  lemma {:induction false} AdmissionGrows(cfg: Config, items: seq<Item>, depth: nat, live: map<string, string>)
    ensures var after := AdmitAll(cfg, items, depth, live).live;
      && (forall k | k in live :: k in after && after[k] == live[k])
      && (after == live <==> items == [] || cfg.contentKey(items[0].payload).0 in live)
  {
    if items != [] {
      var ad := Admit(cfg, items[0], depth);
      if ad.key !in live {
        AdmissionGrows(cfg, items[1..], depth, live[ad.key := ad.hash]);
      }
    }
  }

  /** A refused split leaves the live keys alone exactly when it was refused before any child
      was admitted: by one of the checks, or at the first child. */
  lemma RefusedSplitKeepsLive(cfg: Config, s: State, ad: Admitted)
    requires s.stop.None? && Split(cfg, s, ad).stop.Some?
    ensures Split(cfg, s, ad).live == s.live <==>
      SplitFault(cfg, ad.item, ad.depth).Some? || cfg.contentKey(Children(cfg, ad.item)[0].payload).0 in s.live
  {
    AdmissionGrows(cfg, Children(cfg, ad.item), ad.depth + 1, s.live);
  }

  /** Two children with one new key: the run raises, and the first of them stays registered. */
  lemma PartlyAdmittedExample(cfg: Config, s: State, ad: Admitted, a: Item, b: Item, key: string, hash: string)
    requires s.stop.None? && SplitFault(cfg, ad.item, ad.depth).None? && Children(cfg, ad.item) == [a, b]
    requires cfg.contentKey(a.payload) == (key, hash) && cfg.contentKey(b.payload).0 == key && key !in s.live
    ensures Split(cfg, s, ad).stop == Some(KeyCollision) && Split(cfg, s, ad).live == s.live[key := hash]
  {
    var live := s.live[key := hash];
    assert [a, b][1..] == [b];
    assert AdmitAll(cfg, [b], ad.depth + 1, live) == Admission(live, [], false);
    assert AdmitChildren(cfg, s, ad) == Admission(live, [], false);
  }

  /** With the default sizes and no target size set on the parent, a split whose one child is
      larger goes through. */
  lemma NonShrinkingExample(cfg: Config, s: State, ad: Admitted, child: Item)
    requires s.stop.None? && ad.depth < cfg.maxSplitDepth
    requires forall item :: cfg.splitSize(item) == item.sched.targetSize
    requires ad.item.sched.targetSize == 0 && child.sched.targetSize == 7
    requires Children(cfg, ad.item) == [child] && cfg.contentKey(child.payload).0 !in s.live
    ensures Split(cfg, s, ad).stop.None? && cfg.splitSize(child) > cfg.splitSize(ad.item)
  {
    SplitGoesThrough(cfg, s, ad);
  }

  // ---------------------------------------------------------------- coverage

  /** What items weigh together. */
  ghost function Sum(w: Item -> nat, items: seq<Item>): nat {
    if items == [] then 0 else w(items[0]) + Sum(w, items[1..])
  }

  /** A weight that splitting never changes. */
  ghost predicate SplitInvariant(cfg: Config, w: Item -> nat) {
    forall item | Children(cfg, item) != [] :: Sum(w, Children(cfg, item)) == w(item)
  }

  ghost function Weight(w: Item -> nat): Admitted -> nat {
    (a: Admitted) => w(a.item)
  }

  lemma {:induction false} AdmittedWeigh(cfg: Config, w: Item -> nat, items: seq<Item>, ads: seq<Admitted>, depth: nat)
    requires AdmittedAs(cfg, items, ads, depth)
    ensures Total(Weight(w), BagOf(ads)) == Sum(w, items)
  {
    if items == [] {
      BagNone();
    } else {
      HeadBag(ads);
      TotalJoin(Weight(w), multiset{ads[0]}, BagOf(ads[1..]));
      TotalOne(Weight(w), ads[0]);
      AdmittedWeigh(cfg, w, items[1..], ads[1..], depth);
    }
  }

  ghost predicate AdmittedAs(cfg: Config, items: seq<Item>, ads: seq<Admitted>, depth: nat) {
    |ads| == |items| && forall i | 0 <= i < |items| :: ads[i] == Admit(cfg, items[i], depth)
  }

  lemma AllAdmitted(cfg: Config, items: seq<Item>, depth: nat, live: map<string, string>)
    requires AdmitAll(cfg, items, depth, live).ok
    ensures AdmittedAs(cfg, items, AdmitAll(cfg, items, depth, live).ads, depth)
  {
    AdmissionFacts(cfg, items, depth, live);
  }

  /** A weight a split hands on to the children is not changed by it. */
  lemma SplitTotal(cfg: Config, f: Admitted -> nat, s: State, ad: Admitted, r: Admission, s': State)
    requires SplitAway(cfg, s, ad, r, s') && Total(f, BagOf(r.ads)) == f(ad)
    ensures Total(f, Flow.Frontier(s')) == Total(f, Flow.Frontier(s))
  {
    TotalReplace(f, Flow.Frontier(s), ad, BagOf(r.ads));
  }

  lemma SplitWeighs(cfg: Config, w: Item -> nat, s: State, ad: Admitted, r: Admission, s': State)
    requires SplitInvariant(cfg, w) && SplitAway(cfg, s, ad, r, s')
    ensures Total(Weight(w), Flow.Frontier(s')) == Total(Weight(w), Flow.Frontier(s))
  {
    AllAdmitted(cfg, Children(cfg, ad.item), ad.depth + 1, s.live);
    AdmittedWeigh(cfg, w, Children(cfg, ad.item), r.ads, ad.depth + 1);
    SplitTotal(cfg, Weight(w), s, ad, r, s');
  }

  lemma MoveWeighs(cfg: Config, w: Item -> nat, s: State, e: Event, s': State)
    requires SplitInvariant(cfg, w) && Moves(cfg, s, e, s')
    ensures Total(Weight(w), Flow.Frontier(s')) == Total(Weight(w), Flow.Frontier(s))
  {
    if ad :| SplitFailure(cfg, s, e, ad) && SplitsAway(cfg, s, ad, s') {
      var r :| SplitAway(cfg, s, ad, r, s');
      SplitWeighs(cfg, w, s, ad, r, s');
    }
  }

  /** Whatever a split shares out among its children, the current leaves share out what the
      roots had, in every reachable state. */
  lemma {:induction false} LeavesWeighWhatRootsDid(cfg: Config, w: Item -> nat, items: seq<Item>,
        cache: map<string, Cached>, trace: seq<Event>)
    requires SplitInvariant(cfg, w)
    requires Possible(cfg, Start(cfg, items, cache), trace)
    ensures var s := Replay(cfg, Start(cfg, items, cache), trace);
      s.stop.None? ==> Total(Weight(w), Flow.Frontier(s)) == Sum(w, items)
  {
    var start := Start(cfg, items, cache);
    if trace == [] {
      if start.stop.None? {
        StartFlow(cfg, items, cache);
        AllAdmitted(cfg, items, 0, map[]);
        AdmittedWeigh(cfg, w, items, AdmitAll(cfg, items, 0, map[]).ads, 0);
      }
    } else {
      var before, e := Replay(cfg, start, trace[..|trace| - 1]), trace[|trace| - 1];
      LeavesWeighWhatRootsDid(cfg, w, items, cache, trace[..|trace| - 1]);
      if before.stop.Some? {
        StoppedStays(cfg, before, e);
      } else if Step(cfg, before, e).stop.None? {
        StepMoves(cfg, before, e, Step(cfg, before, e));
        MoveWeighs(cfg, w, before, e, Step(cfg, before, e));
      }
    }
  }

  /** Exactly one of the items has this member. */
  ghost predicate OneHolds<M>(members: Item -> set<M>, items: seq<Item>, m: M) {
    exists i :: HeldOnlyAt(members, items, m, i)
  }

  ghost predicate HeldOnlyAt<M>(members: Item -> set<M>, items: seq<Item>, m: M, i: int) {
    0 <= i < |items| && forall j | 0 <= j < |items| :: m in members(items[j]) <==> i == j
  }

  /** The caller's split shares the members of an item out among its children. */
  ghost predicate SplitPartitions<M(!new)>(cfg: Config, members: Item -> set<M>) {
    forall item | Children(cfg, item) != [] :: PartitionedBy(members, item, Children(cfg, item))
  }

  ghost predicate PartitionedBy<M(!new)>(members: Item -> set<M>, item: Item, parts: seq<Item>) {
    && (forall m | m in members(item) :: OneHolds(members, parts, m))
    && (forall part | part in parts :: members(part) <= members(item))
  }

  ghost function Holds<M>(members: Item -> set<M>, m: M): Item -> nat {
    (item: Item) => if m in members(item) then 1 else 0
  }

  lemma {:induction false} NobodyHolds<M>(members: Item -> set<M>, items: seq<Item>, m: M)
    requires forall j | 0 <= j < |items| :: m !in members(items[j])
    ensures Sum(Holds(members, m), items) == 0
  {
    if items != [] {
      assert forall j | 0 <= j < |items[1..]| :: items[1..][j] == items[j + 1];
      NobodyHolds(members, items[1..], m);
    }
  }

  lemma {:induction false} OneHolder<M>(members: Item -> set<M>, items: seq<Item>, m: M, i: nat)
    requires HeldOnlyAt(members, items, m, i)
    ensures Sum(Holds(members, m), items) == 1
  {
    assert forall j | 0 <= j < |items[1..]| :: items[1..][j] == items[j + 1];
    if i == 0 {
      NobodyHolds(members, items[1..], m);
    } else {
      OneHolder(members, items[1..], m, i - 1);
    }
  }

  lemma PartitionIsInvariant<M(!new)>(cfg: Config, members: Item -> set<M>, m: M)
    requires SplitPartitions(cfg, members)
    ensures SplitInvariant(cfg, Holds(members, m))
  {
    forall item | Children(cfg, item) != []
      ensures Sum(Holds(members, m), Children(cfg, item)) == Holds(members, m)(item)
    {
      var parts := Children(cfg, item);
      assert PartitionedBy(members, item, parts);
      if m in members(item) {
        assert OneHolds(members, parts, m);
        var i :| HeldOnlyAt(members, parts, m, i);
        OneHolder(members, parts, m, i);
      } else {
        NobodyHolds(members, parts, m);
      }
    }
  }

  /** The one leaf with this member. */
  ghost predicate Owner<M>(members: Item -> set<M>, leaves: Bag, m: M, ad: Admitted) {
    ad in leaves && m in members(ad.item) && forall other | other in leaves && m in members(other.item) :: other == ad
  }

  lemma TotalOneHasOwner<M(!new)>(members: Item -> set<M>, leaves: Bag, m: M)
    requires Total(Weight(Holds(members, m)), leaves) == 1
    ensures exists ad :: Owner(members, leaves, m, ad)
  {
    var f := Weight(Holds(members, m));
    if forall ad | ad in leaves :: m !in members(ad.item) {
      TotalZero(f, leaves);
    } else {
      var ad :| ad in leaves && m in members(ad.item);
      TotalTake(f, leaves, ad);
      forall other | other in leaves && m in members(other.item) ensures other == ad {
        if other != ad { TotalPositive(f, leaves - multiset{ad}, other); }
      }
      assert Owner(members, leaves, m, ad);
    }
  }

  ghost predicate NoneHolds<M>(members: Item -> set<M>, items: seq<Item>, m: M) {
    forall item | item in items :: m !in members(item)
  }

  lemma TotalNoneHasNoOwner<M(!new)>(members: Item -> set<M>, leaves: Bag, m: M)
    requires Total(Weight(Holds(members, m)), leaves) == 0
    ensures forall ad | ad in leaves :: m !in members(ad.item)
  {
    forall ad | ad in leaves ensures m !in members(ad.item) {
      TotalPositive(Weight(Holds(members, m)), leaves, ad);
    }
  }

  /** If split partitions every parent, then in every reachable state the leaves partition
      what the roots held: a member of one root is in exactly one leaf, and a member of no
      root is in none. */
  lemma LeavesPartitionMembers<M(!new)>(cfg: Config, members: Item -> set<M>, items: seq<Item>,
        cache: map<string, Cached>, trace: seq<Event>, m: M)
    requires SplitPartitions(cfg, members)
    requires Possible(cfg, Start(cfg, items, cache), trace)
    requires Replay(cfg, Start(cfg, items, cache), trace).stop.None?
    ensures var leaves := Flow.Frontier(Replay(cfg, Start(cfg, items, cache), trace));
      && (OneHolds(members, items, m) ==> exists ad :: Owner(members, leaves, m, ad))
      && (NoneHolds(members, items, m) ==> forall ad | ad in leaves :: m !in members(ad.item))
  {
    var leaves := Flow.Frontier(Replay(cfg, Start(cfg, items, cache), trace));
    PartitionIsInvariant(cfg, members, m);
    LeavesWeighWhatRootsDid(cfg, Holds(members, m), items, cache, trace);
    WeightOfRoots(members, items, leaves, m);
  }

  lemma WeightOfRoots<M(!new)>(members: Item -> set<M>, items: seq<Item>, leaves: Bag, m: M)
    requires Total(Weight(Holds(members, m)), leaves) == Sum(Holds(members, m), items)
    ensures OneHolds(members, items, m) ==> exists ad :: Owner(members, leaves, m, ad)
    ensures NoneHolds(members, items, m) ==> forall ad | ad in leaves :: m !in members(ad.item)
  {
    if OneHolds(members, items, m) {
      var i :| HeldOnlyAt(members, items, m, i);
      OneHolder(members, items, m, i);
      TotalOneHasOwner(members, leaves, m);
    }
    if NoneHolds(members, items, m) {
      NobodyHolds(members, items, m);
      TotalNoneHasNoOwner(members, leaves, m);
    }
  }

  // ---------------------------------------------------------------- ancestry

  /** The key n splits above. */
  function Up(parents: map<string, string>, key: string, n: nat): Option<string>
    decreases n
  {
    if n == 0 then Some(key)
    else if key in parents then Up(parents, parents[key], n - 1)
    else None
  }

  ghost predicate Below(parents: map<string, string>, key: string, root: string) {
    exists n: nat :: Up(parents, key, n) == Some(root)
  }

  /** Parents are live keys that are no longer leaves. */
  ghost predicate Ancestry(s: State) {
    && (forall k | k in s.hist.parents ::
          k in s.live && s.hist.parents[k] in s.live && s.hist.parents[k] !in s.terminal)
    && (forall k | k in s.terminal :: k in s.live)
  }

  ghost predicate Covered(s: State, root: string) {
    exists leaf :: leaf in s.terminal && Below(s.hist.parents, leaf, root)
  }

  lemma {:induction false} UpKept(parents: map<string, string>, live: map<string, string>, ads: seq<Admitted>,
        parent: string, key: string, n: nat)
    requires key in live && forall k | k in parents :: parents[k] in live
    requires forall k | k in Keys(ads) :: k !in live
    ensures Up(AddParents(parents, ads, parent), key, n) == Up(parents, key, n)
    decreases n
  {
    if n > 0 && key in parents { UpKept(parents, live, ads, parent, parents[key], n - 1); }
  }

  /** A split seen from the leaves' keys. */
  ghost predicate SplitKeys(s: State, key: string, ads: seq<Admitted>, s': State) {
    && key in s.terminal && ads != []
    && (forall k | k in Keys(ads) :: k !in s.live && k in s'.live)
    && (forall k | k in s.live :: k in s'.live)
    && s'.terminal == s.terminal - {key} + Keys(ads)
    && s'.hist.parents == AddParents(s.hist.parents, ads, key)
  }

  lemma SplitAwayKeys(cfg: Config, s: State, ad: Admitted, r: Admission, s': State)
    requires Conserved(cfg, s) && SplitAway(cfg, s, ad, r, s')
    ensures SplitKeys(s, ad.key, r.ads, s')
  {
    AdmissionFacts(cfg, Children(cfg, ad.item), ad.depth + 1, s.live);
    assert HasKey(Flow.Frontier(s), ad.key);
  }

  lemma SplitKeepsAncestry(s: State, key: string, ads: seq<Admitted>, s': State)
    requires Ancestry(s) && SplitKeys(s, key, ads, s')
    ensures Ancestry(s')
  {}

  lemma SplitKeepsCover(s: State, key: string, ads: seq<Admitted>, s': State, root: string)
    requires Ancestry(s) && SplitKeys(s, key, ads, s') && Covered(s, root)
    ensures Covered(s', root)
  {
    var leaf :| leaf in s.terminal && Below(s.hist.parents, leaf, root);
    var n: nat :| Up(s.hist.parents, leaf, n) == Some(root);
    UpKept(s.hist.parents, s.live, ads, key, leaf, n);
    if leaf == key {
      assert ads[0] in ads;
      var child := ads[0].key;
      assert child in Keys(ads) && s'.hist.parents[child] == key;
      assert Up(s'.hist.parents, child, n + 1) == Some(root);
      assert child in s'.terminal && Below(s'.hist.parents, child, root);
    } else {
      assert leaf in s'.terminal && Below(s'.hist.parents, leaf, root);
    }
  }

  /** In every reachable state no leaf is an ancestor of another key, and every root still
      has a leaf below it, or is one. */
  lemma {:induction false} LeavesCoverRoots(cfg: Config, items: seq<Item>, cache: map<string, Cached>,
        trace: seq<Event>, root: Item)
    requires Possible(cfg, Start(cfg, items, cache), trace) && root in items
    requires Replay(cfg, Start(cfg, items, cache), trace).stop.None?
    ensures var s := Replay(cfg, Start(cfg, items, cache), trace);
      Ancestry(s) && Covered(s, cfg.contentKey(root.payload).0)
  {
    var start := Start(cfg, items, cache);
    if trace == [] {
      StartCovers(cfg, items, cache, root);
    } else {
      var before, e := Replay(cfg, start, trace[..|trace| - 1]), trace[|trace| - 1];
      if before.stop.Some? { StoppedStays(cfg, before, e); }
      LeavesCoverRoots(cfg, items, cache, trace[..|trace| - 1], root);
      ReachableConserved(cfg, items, cache, trace[..|trace| - 1]);
      StepMoves(cfg, before, e, Step(cfg, before, e));
      MoveCovers(cfg, before, e, Step(cfg, before, e), cfg.contentKey(root.payload).0);
    }
  }

  lemma MoveCovers(cfg: Config, s: State, e: Event, s': State, root: string)
    requires Conserved(cfg, s) && Ancestry(s) && Covered(s, root) && Moves(cfg, s, e, s')
    ensures Ancestry(s') && Covered(s', root)
  {
    if ad :| SplitFailure(cfg, s, e, ad) && SplitsAway(cfg, s, ad, s') {
      var r :| SplitAway(cfg, s, ad, r, s');
      SplitAwayKeys(cfg, s, ad, r, s');
      SplitKeepsAncestry(s, ad.key, r.ads, s');
      SplitKeepsCover(s, ad.key, r.ads, s', root);
    }
  }

  lemma StartCovers(cfg: Config, items: seq<Item>, cache: map<string, Cached>, root: Item)
    requires root in items && Start(cfg, items, cache).stop.None?
    ensures Ancestry(Start(cfg, items, cache)) && Covered(Start(cfg, items, cache), cfg.contentKey(root.payload).0)
  {
    var s, r := Start(cfg, items, cache), AdmitAll(cfg, items, 0, map[]);
    AdmissionFacts(cfg, items, 0, map[]);
    var i :| 0 <= i < |items| && items[i] == root;
    assert r.ads[i] in r.ads;
    assert Up(s.hist.parents, r.ads[i].key, 0) == Some(r.ads[i].key);
    assert r.ads[i].key in s.terminal && Below(s.hist.parents, r.ads[i].key, r.ads[i].key);
  }

  /** No leaf lies above any key. */
  lemma {:induction false} NoLeafIsAnAncestor(s: State, key: string, n: nat)
    requires Ancestry(s) && n > 0 && Up(s.hist.parents, key, n).Some?
    ensures Up(s.hist.parents, key, n).value !in s.terminal
    decreases n
  {
    if n > 1 { NoLeafIsAnAncestor(s, s.hist.parents[key], n - 1); }
  }
}
