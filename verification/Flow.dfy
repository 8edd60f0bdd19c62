/** Where work items go: each step moves, settles or replaces exactly one of them. */
module Flow {
  import opened Wrappers
  import opened Jsonl
  import opened Work
  import opened Scheduler

  type Bag = multiset<Admitted>

  function Occurrences(ads: seq<Admitted>, ad: Admitted): nat {
    if ads == [] then 0 else (if ads[0] == ad then 1 else 0) + Occurrences(ads[1..], ad)
  }

  ghost predicate CountsAs(bag: Bag, ads: seq<Admitted>) {
    forall ad {:trigger Occurrences(ads, ad)} :: bag[ad] == Occurrences(ads, ad)
  }

  /** A queue as a bag: every item as often as it occurs. */
  ghost function BagOf(ads: seq<Admitted>): Bag {
    SeqCounts(ads);
    var bag :| CountsAs(bag, ads);
    bag
  }

  lemma {:induction false} SeqCounts(ads: seq<Admitted>)
    ensures CountsAs(multiset(ads), ads)
  {
    if ads != [] {
      SeqCounts(ads[1..]);
      assert ads == [ads[0]] + ads[1..];
    }
  }

  lemma BagIs(ads: seq<Admitted>)
    ensures BagOf(ads) == multiset(ads)
  {
    SeqCounts(ads);
    forall ad ensures BagOf(ads)[ad] == multiset(ads)[ad] {
      assert multiset(ads)[ad] == Occurrences(ads, ad);
    }
  }

  /** Items that still have to be done. */
  ghost function Pending(s: State): Bag {
    BagOf(s.ready) + BagOf(Ads(s.delayed)) + BagOf(s.inflight)
  }

  /** Leaves that are done: served from the cache or committed. */
  ghost function Settled(s: State): Bag {
    BagOf(s.hist.resumedLog) + BagOf(s.hist.committedLog)
  }

  /** The current leaves of the split forest. */
  ghost function Frontier(s: State): Bag {
    Pending(s) + Settled(s)
  }

  // ---------------------------------------------------------------- bags of items

  lemma BagJoin(a: seq<Admitted>, b: seq<Admitted>)
    ensures BagOf(a + b) == BagOf(a) + BagOf(b)
  {
    BagIs(a);
    BagIs(b);
    BagIs(a + b);
  }

  lemma BagNone()
    ensures BagOf([]) == multiset{}
  {
    BagIs([]);
  }

  lemma BagOne(ad: Admitted)
    ensures BagOf([ad]) == multiset{ad}
  {
    BagIs([ad]);
  }

  lemma BagSnoc(ads: seq<Admitted>, ad: Admitted)
    ensures BagOf(ads + [ad]) == BagOf(ads) + multiset{ad}
  {
    BagJoin(ads, [ad]);
    BagOne(ad);
  }

  lemma BagMembers(ads: seq<Admitted>)
    ensures forall ad :: ad in BagOf(ads) <==> ad in ads
  {
    BagIs(ads);
  }

  lemma BagSize(ads: seq<Admitted>)
    ensures |BagOf(ads)| == |ads|
  {
    BagIs(ads);
  }

  lemma HeadBag(ads: seq<Admitted>)
    requires ads != []
    ensures BagOf(ads) == multiset{ads[0]} + BagOf(ads[1..])
  {
    assert ads == [ads[0]] + ads[1..];
    BagJoin([ads[0]], ads[1..]);
    BagOne(ads[0]);
  }

  lemma RemoveBag(ads: seq<Admitted>, i: nat)
    requires i < |ads|
    ensures BagOf(ads) == multiset{ads[i]} + BagOf(Remove(ads, i))
  {
    assert ads == ads[..i] + [ads[i]] + ads[i + 1..];
    BagJoin(ads[..i] + [ads[i]], ads[i + 1..]);
    BagSnoc(ads[..i], ads[i]);
    BagJoin(ads[..i], ads[i + 1..]);
  }

  lemma {:induction false} PushBag(heap: seq<Delayed>, d: Delayed)
    ensures BagOf(Ads(Push(heap, d))) == BagOf(Ads(heap)) + multiset{d.ad}
  {
    if heap == [] || Earlier(d, heap[0]) {
      assert Ads([d] + heap) == [d.ad] + Ads(heap);
      BagJoin([d.ad], Ads(heap));
      BagOne(d.ad);
    } else {
      PushBag(heap[1..], d);
      assert Ads(heap) == [heap[0].ad] + Ads(heap[1..]);
      assert Ads([heap[0]] + Push(heap[1..], d)) == [heap[0].ad] + Ads(Push(heap[1..], d));
      BagJoin([heap[0].ad], Ads(heap[1..]));
      BagJoin([heap[0].ad], Ads(Push(heap[1..], d)));
    }
  }

  lemma SplitHeapBag(heap: seq<Delayed>, n: nat)
    requires n <= |heap|
    ensures BagOf(Ads(heap)) == BagOf(Ads(heap[..n])) + BagOf(Ads(heap[n..]))
  {
    assert Ads(heap) == Ads(heap[..n]) + Ads(heap[n..]);
    BagJoin(Ads(heap[..n]), Ads(heap[n..]));
  }

  lemma KeysSnoc(ads: seq<Admitted>, ad: Admitted)
    ensures Keys(ads + [ad]) == Keys(ads) + {ad.key}
  {
    assert forall a :: a in ads + [ad] <==> a in ads || a == ad;
    assert ad in ads + [ad];
  }

  // ---------------------------------------------------------------- the flow of each step

  lemma DispatchFlow(s: State, lookup: Lookup)
    requires s.ready != []
    ensures s.ready[0] in Pending(s)
    ensures Pending(AfterDispatch(s, lookup)) == if lookup.Miss? then Pending(s) else Pending(s) - multiset{s.ready[0]}
    ensures Settled(AfterDispatch(s, lookup)) == if lookup.Hit? then Settled(s) + multiset{s.ready[0]} else Settled(s)
  {
    HeadBag(s.ready);
    match lookup
    case Hit => BagSnoc(s.hist.resumedLog, s.ready[0]);
    case Miss => BagSnoc(s.inflight, s.ready[0]);
    case HasRaised =>
  }

  lemma FinishFlow(cfg: Config, s: State, i: nat, records: Records, persist: Persist)
    requires i < |s.inflight|
    ensures s.inflight[i] in Pending(s)
    ensures Pending(AfterFinish(cfg, s, i, records, persist)) == Pending(s) - multiset{s.inflight[i]}
    ensures Settled(AfterFinish(cfg, s, i, records, persist)) ==
      if persist.Stored? then Settled(s) + multiset{s.inflight[i]} else Settled(s)
  {
    RemoveBag(s.inflight, i);
    BagSnoc(s.hist.committedLog, s.inflight[i]);
  }

  /** Two states with the same items in the same places. */
  predicate SameItems(s: State, s': State) {
    && s'.ready == s.ready && s'.delayed == s.delayed && s'.inflight == s.inflight
    && s'.hist.resumedLog == s.hist.resumedLog && s'.hist.committedLog == s.hist.committedLog
  }

  lemma SameItemsSameBags(s: State, s': State)
    requires SameItems(s, s')
    ensures Pending(s') == Pending(s) && Settled(s') == Settled(s)
  {}

  /** What a split leaves alone, whether it goes through or not. */
  predicate SplitFrame(s: State, s': State) {
    && s'.delayed == s.delayed && s'.inflight == s.inflight && s'.transient == s.transient && s'.seqNo == s.seqNo
    && s'.attempts == s.attempts && s'.committed == s.committed && s'.resumed == s.resumed && s'.retries == s.retries
    && s'.cache == s.cache
    && s'.hist == s.hist.(parents := s'.hist.parents, grown := s'.hist.grown)
  }

  /** A refused split changes nothing but the set of live keys. */
  predicate SplitRefused(s: State, s': State) {
    && s'.ready == s.ready && s'.terminal == s.terminal && s'.terminalHash == s.terminalHash
    && s'.splits == s.splits && s'.hist == s.hist
  }

  lemma SplitCases(cfg: Config, s: State, ad: Admitted, r: Admission, s': State)
    requires s.stop.None? && r == AdmitChildren(cfg, s, ad) && s' == Split(cfg, s, ad)
    ensures SplitFrame(s, s')
    ensures s'.stop.Some? ==> SplitRefused(s, s')
    ensures s'.stop.None? ==> r.ok && ad.depth + 1 <= cfg.maxSplitDepth && s' == ReplaceLeaf(s, ad, r)
  {
    SplitByFault(s, SplitFault(cfg, ad.item, ad.depth), ad, r, s');
  }

  lemma SplitByFault(s: State, fault: Option<Failure>, ad: Admitted, r: Admission, s': State)
    requires s.stop.None? && s' == if fault.Some? then s.(stop := fault) else ReplaceLeaf(s, ad, r)
    ensures SplitFrame(s, s')
    ensures s'.stop.Some? ==> SplitRefused(s, s')
    ensures s'.stop.None? ==> fault.None? && r.ok && s' == ReplaceLeaf(s, ad, r)
  {}

  lemma SplitFlow(cfg: Config, s: State, ad: Admitted)
    requires s.stop.None?
    ensures var s' := Split(cfg, s, ad);
      && Settled(s') == Settled(s)
      && Pending(s') == Pending(s) +
           if s'.stop.Some? then multiset{}
           else BagOf(AdmitChildren(cfg, s, ad).ads)
  {
    var s', r := Split(cfg, s, ad), AdmitChildren(cfg, s, ad);
    SplitCases(cfg, s, ad, r, s');
    if s'.stop.Some? {
      SameItemsSameBags(s, s');
    } else {
      assert SameItems(s.(ready := s.ready + r.ads), s');
      SameItemsSameBags(s.(ready := s.ready + r.ads), s');
      ReadyBags(s, r.ads);
    }
  }

  lemma ReadyBags(s: State, ads: seq<Admitted>)
    ensures Settled(s.(ready := s.ready + ads)) == Settled(s)
    ensures Pending(s.(ready := s.ready + ads)) == Pending(s) + BagOf(ads)
  {
    BagJoin(s.ready, ads);
  }

  lemma RetryItems(cfg: Config, s: State, ad: Admitted, exn: Exn, now: real, delay: real)
    requires s.stop.None?
    ensures var s' := Retry(cfg, s, ad, exn, now, delay);
            var d := Delayed(now + delay, s.seqNo, ad);
      if s'.stop.Some? then SameItems(s, s') else SameItems(s.(delayed := Push(s.delayed, d)), s')
  {}

  lemma RetryFlow(cfg: Config, s: State, ad: Admitted, exn: Exn, now: real, delay: real)
    requires s.stop.None?
    ensures var s' := Retry(cfg, s, ad, exn, now, delay);
      && Settled(s') == Settled(s)
      && Pending(s') == Pending(s) + if s'.stop.Some? then multiset{} else multiset{ad}
  {
    var s' := Retry(cfg, s, ad, exn, now, delay);
    var d := Delayed(now + delay, s.seqNo, ad);
    RetryItems(cfg, s, ad, exn, now, delay);
    PushBag(s.delayed, d);
    if s'.stop.Some? {
      SameItemsSameBags(s, s');
    } else {
      SameItemsSameBags(s.(delayed := Push(s.delayed, d)), s');
    }
  }

  lemma TakenFlow(s: State, i: nat)
    requires i < |s.inflight|
    ensures s.inflight[i] in Pending(s)
    ensures Pending(Taken(s, i)) == Pending(s) - multiset{s.inflight[i]} && Settled(Taken(s, i)) == Settled(s)
  {
    RemoveBag(s.inflight, i);
  }

  lemma PromoteFlow(s: State, now: real)
    ensures Pending(AfterPromote(s, now)) == Pending(s)
    ensures Settled(AfterPromote(s, now)) == Settled(s)
  {
    var n := Matured(s.delayed, now);
    SplitHeapBag(s.delayed, n);
    BagJoin(s.ready, Ads(s.delayed[..n]));
  }
}

/** Sums over bags of work items. */
module Totals {
  import opened Scheduler
  import opened Flow

  ghost function Total(f: Admitted -> nat, bag: Bag): nat {
    if bag == multiset{} then 0
    else
      var ad :| ad in bag;
      f(ad) + Total(f, bag - multiset{ad})
  }

  lemma {:induction false} TotalTake(f: Admitted -> nat, bag: Bag, ad: Admitted)
    requires ad in bag
    ensures Total(f, bag) == f(ad) + Total(f, bag - multiset{ad})
    decreases |bag|
  {
    var first :| first in bag && Total(f, bag) == f(first) + Total(f, bag - multiset{first});
    if first != ad {
      TotalTake(f, bag - multiset{first}, ad);
      TotalTake(f, bag - multiset{ad}, first);
      assert bag - multiset{first} - multiset{ad} == bag - multiset{ad} - multiset{first};
    }
  }

  lemma TotalOne(f: Admitted -> nat, ad: Admitted)
    ensures Total(f, multiset{ad}) == f(ad)
  {
    TotalTake(f, multiset{ad}, ad);
    assert multiset{ad} - multiset{ad} == multiset{};
  }

  lemma {:induction false} TotalJoin(f: Admitted -> nat, a: Bag, b: Bag)
    ensures Total(f, a + b) == Total(f, a) + Total(f, b)
    decreases |a|
  {
    if a == multiset{} {
      assert a + b == b;
    } else {
      var ad :| ad in a;
      TotalTake(f, a, ad);
      TotalTake(f, a + b, ad);
      assert a + b - multiset{ad} == (a - multiset{ad}) + b;
      TotalJoin(f, a - multiset{ad}, b);
    }
  }

  lemma {:induction false} TotalAgree(f: Admitted -> nat, g: Admitted -> nat, bag: Bag)
    requires forall ad | ad in bag :: f(ad) == g(ad)
    ensures Total(f, bag) == Total(g, bag)
    decreases |bag|
  {
    if bag != multiset{} {
      var ad :| ad in bag;
      TotalTake(f, bag, ad);
      TotalTake(g, bag, ad);
      TotalAgree(f, g, bag - multiset{ad});
    }
  }

  lemma {:induction false} TotalZero(f: Admitted -> nat, bag: Bag)
    requires forall a | a in bag :: f(a) == 0
    ensures Total(f, bag) == 0
    decreases |bag|
  {
    if bag != multiset{} {
      var a :| a in bag;
      TotalTake(f, bag, a);
      TotalZero(f, bag - multiset{a});
    }
  }

  /** Replacing one item of a bag by others changes the total by what they weigh. */
  lemma TotalReplace(f: Admitted -> nat, bag: Bag, ad: Admitted, others: Bag)
    requires ad in bag
    ensures Total(f, bag - multiset{ad} + others) + f(ad) == Total(f, bag) + Total(f, others)
  {
    TotalTake(f, bag, ad);
    TotalJoin(f, bag - multiset{ad}, others);
  }

  lemma {:induction false} TotalPositive(f: Admitted -> nat, bag: Bag, ad: Admitted)
    requires ad in bag
    ensures Total(f, bag) >= f(ad)
  {
    TotalTake(f, bag, ad);
  }
}
