/** Delayed retries: the order they mature in, when a key may run again, how long it waits. */
module Timing {
  import opened Wrappers
  import opened Jsonl
  import opened Work
  import opened Backoff
  import opened Store
  import opened Scheduler
  import opened Flow
  import opened Conservation
  import Retries

  // ---------------------------------------------------------------- the heap

  /** Ascending by (ready_at, seq): the order heappop takes entries out in. */
  predicate HeapOrder(heap: seq<Delayed>) {
    forall i, j | 0 <= i < j < |heap| :: Earlier(heap[i], heap[j])
  }

  lemma {:induction false} PushContents(heap: seq<Delayed>, d: Delayed)
    ensures forall x :: x in Push(heap, d) <==> x in heap || x == d
  {
    if heap != [] && !Earlier(d, heap[0]) {
      PushContents(heap[1..], d);
      assert heap == [heap[0]] + heap[1..];
    }
  }

  lemma {:induction false} PushOrder(heap: seq<Delayed>, d: Delayed)
    requires HeapOrder(heap) && forall x | x in heap :: x.seqNo < d.seqNo
    ensures HeapOrder(Push(heap, d))
  {
    if heap != [] && !Earlier(d, heap[0]) {
      PushOrder(heap[1..], d);
      PushContents(heap[1..], d);
      var rest := Push(heap[1..], d);
      forall j | 0 <= j < |rest| ensures Earlier(heap[0], rest[j]) {
        assert rest[j] in rest;
        if rest[j] != d {
          var i :| 0 <= i < |heap[1..]| && heap[1..][i] == rest[j];
          assert heap[i + 1] == rest[j];
        }
      }
    }
  }

  /** Promotion moves exactly the entries that have matured and leaves only later ones. */
  lemma {:induction false} PromotesExactlyMatured(heap: seq<Delayed>, now: real)
    requires HeapOrder(heap)
    ensures forall i | 0 <= i < |heap| :: i < Matured(heap, now) <==> heap[i].readyAt <= now
  {
    if heap != [] {
      PromotesExactlyMatured(heap[1..], now);
      forall i | 0 <= i < |heap| ensures i < Matured(heap, now) <==> heap[i].readyAt <= now {
        if i > 0 {
          assert heap[i] == heap[1..][i - 1];
          assert Earlier(heap[0], heap[i]);
        }
      }
    }
  }

  /** The promoted items join the ready queue behind what is there, in (ready_at, seq) order,
      and everything left behind is strictly later. */
  lemma PromotesInOrder(s: State, now: real)
    requires HeapOrder(s.delayed)
    ensures var s', n := AfterPromote(s, now), Matured(s.delayed, now);
      && |s'.ready| == |s.ready| + n && s.ready <= s'.ready
      && (forall i | 0 <= i < n :: s'.ready[|s.ready| + i] == s.delayed[i].ad && s.delayed[i].readyAt <= now)
      && (forall i, j | 0 <= i < j < n ::
            s.delayed[i].readyAt < s.delayed[j].readyAt
            || (s.delayed[i].readyAt == s.delayed[j].readyAt && s.delayed[i].seqNo < s.delayed[j].seqNo))
      && (forall d | d in s'.delayed :: d.readyAt > now)
  {
    PromotesExactlyMatured(s.delayed, now);
    var s', n := AfterPromote(s, now), Matured(s.delayed, now);
    forall d | d in s'.delayed ensures d.readyAt > now {
      var i :| 0 <= i < |s'.delayed| && s'.delayed[i] == d;
      assert s.delayed[n + i] == d;
    }
  }

  // ---------------------------------------------------------------- the clock

  function Reading(e: Event): Option<real> {
    match e
    case Fail(_, _, now, _) => Some(now)
    case Promote(clock) => Some(clock)
    case _ => None
  }

  /** The last reading of the monotonic clock, starting from epoch. */
  function Latest(trace: seq<Event>, epoch: real): real {
    if trace == [] then epoch
    else
      var r := Reading(trace[|trace| - 1]);
      if r.Some? then r.value else Latest(trace[..|trace| - 1], epoch)
  }

  /** time.monotonic() never goes back. */
  predicate Monotonic(trace: seq<Event>, epoch: real) {
    trace == [] ||
      (Monotonic(trace[..|trace| - 1], epoch) &&
       var r := Reading(trace[|trace| - 1]);
       r.Some? ==> Latest(trace[..|trace| - 1], epoch) <= r.value)
  }

  // ---------------------------------------------------------------- not before its time

  predicate Due(s: State, key: string, clock: real) {
    key in s.hist.notBefore ==> s.hist.notBefore[key] <= clock
  }

  predicate Scheduled(s: State, d: Delayed) {
    d.ad.key in s.hist.notBefore && s.hist.notBefore[d.ad.key] == d.readyAt && d.seqNo < s.seqNo
  }

  ghost predicate OnTime(s: State, clock: real) {
    && HeapOrder(s.delayed)
    && (forall d | d in s.delayed :: Scheduled(s, d))
    && (forall a | a in s.ready :: Due(s, a.key, clock))
    && (forall a | a in s.inflight :: Due(s, a.key, clock))
    && (forall k | k in s.hist.notBefore :: k in s.live)
  }

  lemma LaterIsOnTime(s: State, clock: real, later: real)
    requires OnTime(s, clock) && clock <= later
    ensures OnTime(s, later)
  {}

  lemma TakenOnTime(s: State, i: nat, clock: real)
    requires OnTime(s, clock) && i < |s.inflight|
    ensures OnTime(Taken(s, i), clock)
  {
    forall a | a in Taken(s, i).inflight ensures a in s.inflight {}
  }

  predicate SameQueues(s: State, s': State) {
    s'.delayed == s.delayed && s'.seqNo == s.seqNo && s'.hist.notBefore == s.hist.notBefore
  }

  lemma DispatchOnTime(cfg: Config, s: State, lookup: Lookup, s': State, clock: real)
    requires OnTime(s, clock) && Enabled(cfg, s, Dispatch(lookup)) && s' == AfterDispatch(s, lookup)
    ensures OnTime(s', clock)
  {
    assert SameQueues(s, s') && s'.live == s.live && s'.ready == s.ready[1..];
    assert s'.inflight == if lookup.Miss? then s.inflight + [s.ready[0]] else s.inflight;
  }

  lemma FinishOnTime(cfg: Config, s: State, i: nat, records: Records, persist: Persist, s': State, clock: real)
    requires OnTime(s, clock) && i < |s.inflight| && s' == AfterFinish(cfg, s, i, records, persist)
    ensures OnTime(s', clock)
  {
    TakenOnTime(s, i, clock);
    var taken := Taken(s, i);
    assert SameQueues(taken, s') && s'.live == s.live && s'.ready == taken.ready && s'.inflight == taken.inflight;
  }

  lemma PromoteOnTime(s: State, now: real, s': State)
    requires OnTime(s, now) && s' == AfterPromote(s, now)
    ensures OnTime(s', now)
  {
    var n := Matured(s.delayed, now);
    PromotesExactlyMatured(s.delayed, now);
    assert s'.hist == s.hist && s'.seqNo == s.seqNo && s'.delayed == s.delayed[n..] && s'.inflight == s.inflight;
    forall d | d in s'.delayed ensures Scheduled(s', d) { assert d in s.delayed; }
    forall a | a in s'.ready ensures Due(s', a.key, now) {
      if a !in s.ready {
        var i :| 0 <= i < n && Ads(s.delayed[..n])[i] == a;
        assert s.delayed[i] in s.delayed;
      }
    }
  }

  /** No queued or running item has this key. */
  predicate KeyFree(s: State, key: string) {
    && (forall a | a in s.ready :: a.key != key)
    && (forall a | a in s.inflight :: a.key != key)
    && (forall d | d in s.delayed :: d.ad.key != key)
  }

  lemma PendingKeyFree(s: State, key: string)
    requires forall a | a in Pending(s) :: a.key != key
    ensures KeyFree(s, key)
  {
    BagMembers(s.ready);
    BagMembers(s.inflight);
    BagMembers(Ads(s.delayed));
    forall d | d in s.delayed ensures d.ad in Pending(s) {
      var i :| 0 <= i < |s.delayed| && s.delayed[i] == d;
      assert Ads(s.delayed)[i] == d.ad;
    }
    forall a | a in s.ready || a in s.inflight ensures a in Pending(s) {}
  }

  predicate Delays(s: State, d: Delayed, s': State) {
    && s'.ready == s.ready && s'.inflight == s.inflight && s'.live == s.live
    && s'.delayed == Push(s.delayed, d) && d.seqNo == s.seqNo && s'.seqNo == s.seqNo + 1
    && s'.hist.notBefore == s.hist.notBefore[d.ad.key := d.readyAt]
  }

  lemma RetryQueues(cfg: Config, s: State, ad: Admitted, exn: Exn, now: real, delay: real, s': State)
    requires s.stop.None? && s' == Retry(cfg, s, ad, exn, now, delay)
    requires s'.stop.None?
    ensures Delays(s, Delayed(now + delay, s.seqNo, ad), s')
  {}

  lemma DelayedOnTime(s: State, d: Delayed, s': State, now: real)
    requires OnTime(s, now) && KeyFree(s, d.ad.key) && d.ad.key in s.live && Delays(s, d, s')
    ensures OnTime(s', now)
  {
    PushContents(s.delayed, d);
    assert HeapOrder(s'.delayed) by {
      forall x | x in s.delayed ensures x.seqNo < d.seqNo { assert Scheduled(s, x); }
      PushOrder(s.delayed, d);
    }
    forall x | x in s'.delayed ensures Scheduled(s', x) {
      assert x != d ==> Scheduled(s, x);
    }
    forall a | a in s'.ready || a in s'.inflight ensures Due(s', a.key, now) {
      assert Due(s, a.key, now);
    }
  }

  lemma RetryOnTime(cfg: Config, s: State, ad: Admitted, exn: Exn, now: real, delay: real, s': State)
    requires OnTime(s, now) && s.stop.None? && ad.key in s.live && KeyFree(s, ad.key)
    requires s' == Retry(cfg, s, ad, exn, now, delay) && s'.stop.None?
    ensures OnTime(s', now)
  {
    var d := Delayed(now + delay, s.seqNo, ad);
    assert Delays(s, d, s') by { RetryQueues(cfg, s, ad, exn, now, delay, s'); }
    DelayedOnTime(s, d, s', now);
  }

  lemma ReplacedOnTime(cfg: Config, s: State, clock: real, r: Admission, s': State)
    requires OnTime(s, clock) && SameQueues(s, s') && s'.inflight == s.inflight
    requires s'.ready == s.ready + r.ads && s'.live == r.live && FreshChildren(cfg, s.live, r)
    ensures OnTime(s', clock)
  {
    BagMembers(r.ads);
    forall a | a in s'.ready ensures Due(s', a.key, clock) {
      assert a in s.ready ==> Due(s, a.key, clock);
    }
    forall a | a in s'.inflight ensures Due(s', a.key, clock) { assert Due(s, a.key, clock); }
    forall d | d in s'.delayed ensures Scheduled(s', d) { assert Scheduled(s, d); }
  }

  lemma SplitOnTime(cfg: Config, s: State, ad: Admitted, clock: real, r: Admission, s': State)
    requires OnTime(s, clock) && s.stop.None? && s'.stop.None? && s' == Split(cfg, s, ad)
    requires r == AdmitChildren(cfg, s, ad)
    ensures OnTime(s', clock)
  {
    SplitQueues(cfg, s, ad, r, s');
    ReplacedOnTime(cfg, s, clock, r, s');
  }

  lemma SplitQueues(cfg: Config, s: State, ad: Admitted, r: Admission, s': State)
    requires s.stop.None? && s'.stop.None? && s' == Split(cfg, s, ad) && r == AdmitChildren(cfg, s, ad)
    ensures SameQueues(s, s') && s'.inflight == s.inflight && s'.ready == s.ready + r.ads && s'.live == r.live
    ensures FreshChildren(cfg, s.live, r)
  {
    SplitCases(cfg, s, ad, r, s');
    AdmittedIsFresh(cfg, Children(cfg, ad.item), ad.depth + 1, s.live);
  }

  lemma FailOnTime(cfg: Config, s: State, i: nat, exn: Exn, now: real, draw: real)
    requires Conserved(cfg, s) && OnTime(s, now) && Enabled(cfg, s, Fail(i, exn, now, draw))
    ensures var s' := AfterFail(cfg, s, i, exn, now, draw); s'.stop.None? ==> OnTime(s', now)
  {
    var taken, ad := Taken(s, i), s.inflight[i];
    TakenFlow(s, i);
    TakenOnTime(s, i, now);
    Retries.TakenIsAlone(s, i);
    PendingKeyFree(taken, ad.key);
    assert ad in Frontier(s);
    var s' := AfterFail(cfg, s, i, exn, now, draw);
    if s'.stop.None? {
      match Classify(cfg, exn, ad.item)
      case ToSplit =>
        SplitOnTime(cfg, taken, ad, now, AdmitChildren(cfg, taken, ad), s');
      case ToRetry => RetryOnTime(cfg, taken, ad, exn, now, NextDelay(cfg, taken, ad, exn, draw), s');
      case ToFatal =>
    }
  }

  lemma {:induction false} ReachableOnTime(cfg: Config, items: seq<Item>, cache: map<string, Cached>,
        trace: seq<Event>, epoch: real)
    requires Possible(cfg, Start(cfg, items, cache), trace) && Monotonic(trace, epoch)
    ensures var s := Replay(cfg, Start(cfg, items, cache), trace); s.stop.None? ==> OnTime(s, Latest(trace, epoch))
  {
    if trace != [] && Replay(cfg, Start(cfg, items, cache), trace).stop.None? {
      var prefix, e := trace[..|trace| - 1], trace[|trace| - 1];
      var before, clock := Replay(cfg, Start(cfg, items, cache), prefix), Latest(trace, epoch);
      ReachableOnTime(cfg, items, cache, prefix, epoch);
      ReachableConserved(cfg, items, cache, prefix);
      if before.stop.Some? {
        StoppedStays(cfg, before, e);
      } else {
        LaterIsOnTime(before, Latest(prefix, epoch), clock);
        match e
        case Dispatch(lookup) => DispatchOnTime(cfg, before, lookup, Step(cfg, before, e), clock);
        case Finish(i, records, persist) => FinishOnTime(cfg, before, i, records, persist, Step(cfg, before, e), clock);
        case Fail(i, exn, now, draw) => FailOnTime(cfg, before, i, exn, now, draw);
        case Promote(now) => PromoteOnTime(before, now, Step(cfg, before, e));
      }
    }
  }

  /** The time a key may run again is only ever moved later. */
  lemma NotBeforeRises(cfg: Config, s: State, e: Event, clock: real, key: string)
    requires OnTime(s, clock) && Enabled(cfg, s, e) && (e.Fail? ==> clock <= e.now)
    requires key in s.hist.notBefore
    ensures key in Step(cfg, s, e).hist.notBefore && s.hist.notBefore[key] <= Step(cfg, s, e).hist.notBefore[key]
  {
    if e.Fail? {
      var taken, ad := Taken(s, e.i), s.inflight[e.i];
      match Classify(cfg, e.exn, ad.item)
      case ToSplit => SplitCases(cfg, taken, ad, AdmitChildren(cfg, taken, ad), Split(cfg, taken, ad));
      case ToRetry =>
        assert Due(s, ad.key, clock);
        RetryMovesLater(cfg, taken, ad, e.exn, e.now, NextDelay(cfg, taken, ad, e.exn, e.draw));
      case ToFatal =>
    }
  }

  lemma RetryMovesLater(cfg: Config, s: State, ad: Admitted, exn: Exn, now: real, delay: real)
    requires s.stop.None?
    ensures var s' := Retry(cfg, s, ad, exn, now, delay);
      s'.hist.notBefore == if s'.stop.None? then s.hist.notBefore[ad.key := now + delay] else s.hist.notBefore
  {}

  lemma {:induction false} NotBeforeHolds(cfg: Config, items: seq<Item>, cache: map<string, Cached>, trace: seq<Event>,
        epoch: real, j: nat, key: string, time: real)
    requires Possible(cfg, Start(cfg, items, cache), trace) && Monotonic(trace, epoch) && j <= |trace|
    requires Replay(cfg, Start(cfg, items, cache), trace).stop.None?
    requires var then_ := Replay(cfg, Start(cfg, items, cache), trace[..j]).hist.notBefore; key in then_ && time <= then_[key]
    ensures var now_ := Replay(cfg, Start(cfg, items, cache), trace).hist.notBefore; key in now_ && time <= now_[key]
    decreases |trace|
  {
    if j == |trace| {
      assert trace[..j] == trace;
    } else {
      var prefix, e := trace[..|trace| - 1], trace[|trace| - 1];
      var before := Replay(cfg, Start(cfg, items, cache), prefix);
      assert prefix[..j] == trace[..j];
      if before.stop.Some? { StoppedStays(cfg, before, e); }
      NotBeforeHolds(cfg, items, cache, prefix, epoch, j, key, time);
      ReachableOnTime(cfg, items, cache, prefix, epoch);
      NotBeforeRises(cfg, before, e, Latest(prefix, epoch), key);
    }
  }

  /** The i-th event of a trace is a transient failure of this item. */
  ghost predicate TransientFailure(cfg: Config, s: State, e: Event, ad: Admitted) {
    s.stop.None? && e.Fail? && e.i < |s.inflight| && s.inflight[e.i] == ad && Classify(cfg, e.exn, ad.item).ToRetry?
  }

  lemma FailureSetsTime(cfg: Config, s: State, e: Event, ad: Admitted)
    requires TransientFailure(cfg, s, e, ad) && Step(cfg, s, e).stop.None?
    ensures var m := Step(cfg, s, e).hist.notBefore;
      ad.key in m && m[ad.key] == e.now + RetryDelay(cfg, TransientCount(s, ad.key) + 1, e.exn, e.draw)
  {
    RetryMovesLater(cfg, Taken(s, e.i), ad, e.exn, e.now, NextDelay(cfg, Taken(s, e.i), ad, e.exn, e.draw));
  }

  lemma {:induction false} NotStoppedBefore(cfg: Config, s: State, trace: seq<Event>, j: nat)
    requires Possible(cfg, s, trace) && j <= |trace| && Replay(cfg, s, trace).stop.None?
    ensures Replay(cfg, s, trace[..j]).stop.None?
    decreases |trace|
  {
    if j == |trace| {
      assert trace[..j] == trace;
    } else {
      var prefix, e := trace[..|trace| - 1], trace[|trace| - 1];
      assert prefix[..j] == trace[..j];
      if Replay(cfg, s, prefix).stop.Some? { StoppedStays(cfg, Replay(cfg, s, prefix), e); }
      NotStoppedBefore(cfg, s, prefix, j);
    }
  }

  lemma ReplayOneMore(cfg: Config, s: State, trace: seq<Event>, j: nat)
    requires j < |trace|
    ensures Replay(cfg, s, trace[..j + 1]) == Step(cfg, Replay(cfg, s, trace[..j]), trace[j])
  {
    assert trace[..j + 1][..j] == trace[..j];
  }

  lemma FailureHolds(cfg: Config, items: seq<Item>, cache: map<string, Cached>, trace: seq<Event>, epoch: real, j: nat,
        failed: State, ad: Admitted)
    requires Possible(cfg, Start(cfg, items, cache), trace) && Monotonic(trace, epoch) && j < |trace|
    requires failed == Replay(cfg, Start(cfg, items, cache), trace[..j]) && TransientFailure(cfg, failed, trace[j], ad)
    requires Replay(cfg, Start(cfg, items, cache), trace).stop.None?
    ensures var m, e := Replay(cfg, Start(cfg, items, cache), trace).hist.notBefore, trace[j];
      ad.key in m && e.now + RetryDelay(cfg, TransientCount(failed, ad.key) + 1, e.exn, e.draw) <= m[ad.key]
  {
    var start, e := Start(cfg, items, cache), trace[j];
    ReplayOneMore(cfg, start, trace, j);
    NotStoppedBefore(cfg, start, trace, j + 1);
    FailureSetsTime(cfg, failed, e, ad);
    NotBeforeHolds(cfg, items, cache, trace, epoch, j + 1, ad.key,
                   e.now + RetryDelay(cfg, TransientCount(failed, ad.key) + 1, e.exn, e.draw));
  }

  lemma HeadIsDue(cfg: Config, items: seq<Item>, cache: map<string, Cached>, trace: seq<Event>, epoch: real)
    requires Possible(cfg, Start(cfg, items, cache), trace) && Monotonic(trace, epoch)
    requires Replay(cfg, Start(cfg, items, cache), trace).stop.None?
    requires Replay(cfg, Start(cfg, items, cache), trace).ready != []
    ensures var s := Replay(cfg, Start(cfg, items, cache), trace); Due(s, s.ready[0].key, Latest(trace, epoch))
  {
    ReachableOnTime(cfg, items, cache, trace, epoch);
  }

  /** No key is dispatched again before its failure time plus the backoff for that many
      failures, nor before its failure time plus the server hint the run accepted. */
  lemma NeverDispatchedEarly(cfg: Config, items: seq<Item>, cache: map<string, Cached>, trace: seq<Event>, epoch: real,
        j: nat, failed: State, ad: Admitted)
    requires Possible(cfg, Start(cfg, items, cache), trace) && Monotonic(trace, epoch) && j < |trace|
    requires failed == Replay(cfg, Start(cfg, items, cache), trace[..j]) && TransientFailure(cfg, failed, trace[j], ad)
    requires var s := Replay(cfg, Start(cfg, items, cache), trace); s.stop.None? && s.ready != [] && s.ready[0].key == ad.key
    ensures var e, n := trace[j], TransientCount(failed, ad.key) + 1;
      && Latest(trace, epoch) >= e.now + BackoffDelay(cfg.retry, n, e.draw)
      && Latest(trace, epoch) >= e.now + HintSeconds(ServerHint(cfg.retry, e.exn))
  {
    FailureHolds(cfg, items, cache, trace, epoch, j, failed, ad);
    HeadIsDue(cfg, items, cache, trace, epoch);
  }

  /** What a server asks for, if anything, is a number of seconds from 0 to the bound. */
  predicate AsksFor(retry: RetryPolicy, exn: Exn, seconds: real) {
    if retry.retryAfter.Some? && retry.retryAfter.value(exn).Some? then
      retry.retryAfter.value(exn).value == Finite(seconds) && 0.0 <= seconds <= retry.maxServerDelay
    else seconds == 0.0
  }

  /** The exponential backoff after n earlier failures, from the cap and the powers of the
      multiplier, before jitter. */
  ghost predicate IsBackoff(retry: RetryPolicy, power: nat -> real, n: nat, backoff: real) {
    && power(0) == 1.0 && (forall k: nat :: power(k + 1) == retry.multiplier * power(k))
    && var raw := retry.baseDelay * power(n);
       backoff == if raw <= retry.maxDelay then raw else retry.maxDelay
  }

  lemma DelayIs(cfg: Config, n: nat, exn: Exn, draw: real, power: nat -> real, backoff: real, scaled: real)
    returns (seconds: real)
    requires Sensible(cfg.retry) && DrawnFrom(cfg.retry, draw) && IsBackoff(cfg.retry, power, n, backoff)
    requires HintAcceptable(cfg.retry, ServerHint(cfg.retry, exn)) && scaled == backoff * draw
    ensures AsksFor(cfg.retry, exn, seconds)
    ensures RetryDelay(cfg, n + 1, exn, draw) == if scaled >= seconds then scaled else seconds
    ensures backoff * (1.0 - cfg.retry.jitter) <= scaled <= backoff * (1.0 + cfg.retry.jitter)
  {
    BackoffIsCapped(cfg.retry, power, n, backoff);
    BackoffIs(cfg.retry, n + 1, draw, backoff, scaled);
    seconds := HintSeconds(ServerHint(cfg.retry, exn));
  }

  lemma BackoffIsCapped(retry: RetryPolicy, power: nat -> real, n: nat, backoff: real)
    requires IsBackoff(retry, power, n, backoff)
    ensures Capped(retry, n + 1) == backoff
  {
    PowersAre(retry.multiplier, power, n);
    CappedIs(retry, n, power(n), retry.baseDelay * power(n), backoff);
  }

  lemma BackoffIs(retry: RetryPolicy, attempt: nat, draw: real, backoff: real, scaled: real)
    requires Sensible(retry) && attempt >= 1 && DrawnFrom(retry, draw) && backoff == Capped(retry, attempt)
    requires scaled == backoff * draw
    ensures BackoffDelay(retry, attempt, draw) == scaled
    ensures backoff * (1.0 - retry.jitter) <= scaled <= backoff * (1.0 + retry.jitter)
  {
    JitterStaysInRange(retry, attempt, draw);
  }

  lemma RetryPushes(cfg: Config, s: State, i: nat, exn: Exn, now: real, draw: real, delay: real, s': State)
    requires s.stop.None? && i < |s.inflight| && s' == AfterFail(cfg, s, i, exn, now, draw) && s'.stop.None?
    requires Classify(cfg, exn, s.inflight[i].item).ToRetry?
    requires delay == RetryDelay(cfg, TransientCount(s, s.inflight[i].key) + 1, exn, draw)
    ensures HintAcceptable(cfg.retry, ServerHint(cfg.retry, exn))
    ensures s'.delayed == Push(s.delayed, Delayed(now + delay, s.seqNo, s.inflight[i]))
  {}

  /** A transient failure that does not end the run puts its item on the heap, due after the
      capped exponential backoff for that many failures, scaled by the jitter drawn, or after
      what the server asks for, whichever is longer. */
  lemma RetryIsScheduled(cfg: Config, s: State, i: nat, exn: Exn, now: real, draw: real, power: nat -> real,
        backoff: real, scaled: real, s': State) returns (seconds: real, d: Delayed)
    requires s.stop.None? && i < |s.inflight| && s' == AfterFail(cfg, s, i, exn, now, draw) && s'.stop.None?
    requires Classify(cfg, exn, s.inflight[i].item).ToRetry?
    requires Sensible(cfg.retry) && DrawnFrom(cfg.retry, draw)
    requires IsBackoff(cfg.retry, power, TransientCount(s, s.inflight[i].key), backoff) && scaled == backoff * draw
    ensures AsksFor(cfg.retry, exn, seconds) && d.ad == s.inflight[i] && d.seqNo == s.seqNo
    ensures d.readyAt - now == if scaled >= seconds then scaled else seconds
    ensures backoff * (1.0 - cfg.retry.jitter) <= scaled <= backoff * (1.0 + cfg.retry.jitter)
    ensures forall x :: x in s'.delayed <==> x in s.delayed || x == d
  {
    var n := TransientCount(s, s.inflight[i].key);
    var delay := RetryDelay(cfg, n + 1, exn, draw);
    RetryPushes(cfg, s, i, exn, now, draw, delay, s');
    seconds := DelayIs(cfg, n, exn, draw, power, backoff, scaled);
    d := Delayed(now + delay, s.seqNo, s.inflight[i]);
    PushContents(s.delayed, d);
  }

  lemma CappedIs(retry: RetryPolicy, n: nat, p: real, raw: real, backoff: real)
    requires p == Pow(retry.multiplier, n) && raw == retry.baseDelay * p
    requires backoff == if raw <= retry.maxDelay then raw else retry.maxDelay
    ensures Capped(retry, n + 1) == backoff
  {}

  // ---------------------------------------------------------------- total waiting

  function LongestDelay(retry: RetryPolicy): real {
    Max(retry.maxDelay * (1.0 + retry.jitter), retry.maxServerDelay)
  }

  predicate DrawsInRange(cfg: Config, trace: seq<Event>) {
    forall e | e in trace && e.Fail? :: DrawnFrom(cfg.retry, e.draw)
  }

  function Waits(cfg: Config, s: State, key: string): nat {
    var n, most := TransientCount(s, key), Retries.MaxRuns(cfg) - 1;
    if n < most then n else most
  }

  /** n times x, as a sum. */
  function Times(n: nat, x: real): real {
    if n == 0 then 0.0 else Times(n - 1, x) + x
  }

  lemma {:induction false} TimesIsProduct(n: nat, x: real)
    ensures Times(n, x) == n as real * x
  {
    if n > 0 {
      TimesIsProduct(n - 1, x);
      assert n as real * x == (n - 1) as real * x + x;
    }
  }

  lemma {:induction false} TimesGrows(n: nat, m: nat, x: real)
    requires n <= m && x >= 0.0
    ensures 0.0 <= Times(n, x) <= Times(m, x)
    decreases m
  {
    if n < m {
      TimesGrows(n, m - 1, x);
    } else if n > 0 {
      TimesGrows(n - 1, m - 1, x);
    }
  }

  /** A key has been made to wait at most the longest single delay, once for each of its
      tries that another one may follow. */
  ghost predicate WaitsBounded(cfg: Config, s: State) {
    forall k | k in s.hist.waited :: s.hist.waited[k] <= Times(Waits(cfg, s, k), LongestDelay(cfg.retry))
  }

  lemma LargerOf(a: real, b: real, x: real, y: real)
    requires 0.0 <= a <= x && b <= y
    ensures 0.0 <= Max(a, b) <= Max(x, y)
  {}

  lemma DelayIsBounded(cfg: Config, n: nat, exn: Exn, draw: real)
    requires n >= 1 && Sensible(cfg.retry) && DrawnFrom(cfg.retry, draw)
    requires HintAcceptable(cfg.retry, ServerHint(cfg.retry, exn)) && Constructed(cfg.retry)
    ensures 0.0 <= RetryDelay(cfg, n, exn, draw) <= LongestDelay(cfg.retry)
  {
    var backoff, hint := BackoffDelay(cfg.retry, n, draw), ServerHint(cfg.retry, exn);
    assert 0.0 <= backoff <= cfg.retry.maxDelay * (1.0 + cfg.retry.jitter) by { JitterStaysInRange(cfg.retry, n, draw); }
    assert cfg.retry.maxServerDelay >= 0.0;
    LargerOf(backoff, HintSeconds(hint), cfg.retry.maxDelay * (1.0 + cfg.retry.jitter), cfg.retry.maxServerDelay);
  }

  predicate OneMoreTry(s: State, key: string, s': State) {
    s'.transient == s.transient[key := TransientCount(s, key) + 1]
  }

  /** What RetryPolicy(...) lets through. */
  predicate Constructed(retry: RetryPolicy) {
    MakeRetryPolicy(retry.maxAttempts, retry.baseDelay, retry.maxDelay, retry.multiplier, retry.jitter,
                    retry.retryAfter, Finite(retry.maxServerDelay)).Some?
  }

  lemma LongestIsPositive(cfg: Config)
    requires Constructed(cfg.retry)
    ensures LongestDelay(cfg.retry) >= 0.0
  {}

  /** A failure that schedules nothing. */
  lemma NoMoreWaiting(cfg: Config, s: State, key: string, s': State)
    requires WaitsBounded(cfg, s) && Constructed(cfg.retry)
    requires OneMoreTry(s, key, s') && s'.hist.waited == s.hist.waited
    ensures WaitsBounded(cfg, s')
  {
    LongestIsPositive(cfg);
    var longest := LongestDelay(cfg.retry);
    forall k | k in s'.hist.waited ensures s'.hist.waited[k] <= Times(Waits(cfg, s', k), longest) {
      TimesGrows(Waits(cfg, s, k), Waits(cfg, s', k), longest);
    }
  }

  /** A failure that schedules one more delay. */
  lemma OneMoreWaiting(cfg: Config, s: State, key: string, delay: real, s': State)
    requires WaitsBounded(cfg, s) && Constructed(cfg.retry)
    requires OneMoreTry(s, key, s') && TransientCount(s, key) + 1 < cfg.retry.maxAttempts
    requires s'.hist.waited == s.hist.waited[key := Get0(s.hist.waited, key) + delay]
    requires delay <= LongestDelay(cfg.retry)
    ensures WaitsBounded(cfg, s')
  {
    LongestIsPositive(cfg);
    var longest := LongestDelay(cfg.retry);
    forall k | k in s'.hist.waited ensures s'.hist.waited[k] <= Times(Waits(cfg, s', k), longest) {
      TimesGrows(0, Waits(cfg, s, k), longest);
      if k == key {
        assert Waits(cfg, s', k) == Waits(cfg, s, k) + 1;
      } else {
        assert Waits(cfg, s', k) == Waits(cfg, s, k);
      }
    }
  }

  lemma RetryWaits(cfg: Config, s: State, ad: Admitted, exn: Exn, now: real, delay: real, s': State)
    requires WaitsBounded(cfg, s) && s.stop.None? && s' == Retry(cfg, s, ad, exn, now, delay)
    requires Constructed(cfg.retry)
    requires HintAcceptable(cfg.retry, ServerHint(cfg.retry, exn)) ==> delay <= LongestDelay(cfg.retry)
    ensures WaitsBounded(cfg, s')
  {
    RetryEffect(cfg, s, ad, exn, now, delay, s');
    if s'.stop.None? {
      OneMoreWaiting(cfg, s, ad.key, delay, s');
    } else {
      NoMoreWaiting(cfg, s, ad.key, s');
    }
  }

  lemma RetryEffect(cfg: Config, s: State, ad: Admitted, exn: Exn, now: real, delay: real, s': State)
    requires s.stop.None? && s' == Retry(cfg, s, ad, exn, now, delay)
    ensures OneMoreTry(s, ad.key, s')
    ensures s'.stop.Some? ==> s'.hist.waited == s.hist.waited
    ensures s'.stop.None? ==>
      && TransientCount(s, ad.key) + 1 < cfg.retry.maxAttempts && HintAcceptable(cfg.retry, ServerHint(cfg.retry, exn))
      && s'.hist.waited == s.hist.waited[ad.key := Get0(s.hist.waited, ad.key) + delay]
  {}

  predicate SameWaits(s: State, s': State) {
    s'.transient == s.transient && s'.hist.waited == s.hist.waited
  }

  lemma RoutedWaits(cfg: Config, s: State, ad: Admitted, exn: Exn, now: real, draw: real, s': State)
    requires WaitsBounded(cfg, s) && s.stop.None? && s' == Routed(cfg, s, ad, exn, now, draw)
    requires Sensible(cfg.retry) && Constructed(cfg.retry) && DrawnFrom(cfg.retry, draw)
    ensures WaitsBounded(cfg, s')
  {
    match Classify(cfg, exn, ad.item)
    case ToSplit =>
      SplitCases(cfg, s, ad, AdmitChildren(cfg, s, ad), s');
      SameWaitsBounded(cfg, s, s');
    case ToRetry =>
      if HintAcceptable(cfg.retry, ServerHint(cfg.retry, exn)) {
        DelayIsBounded(cfg, TransientCount(s, ad.key) + 1, exn, draw);
      }
      RetryWaits(cfg, s, ad, exn, now, NextDelay(cfg, s, ad, exn, draw), s');
    case ToFatal => SameWaitsBounded(cfg, s, s');
  }

  lemma SameWaitsBounded(cfg: Config, s: State, s': State)
    requires WaitsBounded(cfg, s) && SameWaits(s, s')
    ensures WaitsBounded(cfg, s')
  {
    forall k ensures Waits(cfg, s', k) == Waits(cfg, s, k) {}
  }

  lemma DispatchWaits(s: State, lookup: Lookup)
    requires s.ready != []
    ensures SameWaits(s, AfterDispatch(s, lookup))
  {}

  lemma FinishWaits(cfg: Config, s: State, i: nat, records: Records, persist: Persist)
    requires i < |s.inflight|
    ensures SameWaits(s, AfterFinish(cfg, s, i, records, persist))
  {}

  lemma StepWaits(cfg: Config, s: State, e: Event, s': State)
    requires WaitsBounded(cfg, s) && Enabled(cfg, s, e) && s' == Step(cfg, s, e)
    requires Sensible(cfg.retry) && Constructed(cfg.retry) && (e.Fail? ==> DrawnFrom(cfg.retry, e.draw))
    ensures WaitsBounded(cfg, s')
  {
    match e
    case Dispatch(lookup) =>
      DispatchWaits(s, lookup);
      SameWaitsBounded(cfg, s, s');
    case Finish(i, records, persist) =>
      FinishWaits(cfg, s, i, records, persist);
      SameWaitsBounded(cfg, s, s');
    case Fail(i, exn, now, draw) =>
      SameWaitsBounded(cfg, s, Taken(s, i));
      RoutedWaits(cfg, Taken(s, i), s.inflight[i], exn, now, draw, s');
    case Promote(_) => SameWaitsBounded(cfg, s, s');
  }

  lemma {:induction false} WaitsStayBounded(cfg: Config, items: seq<Item>, cache: map<string, Cached>,
        trace: seq<Event>)
    requires Possible(cfg, Start(cfg, items, cache), trace) && DrawsInRange(cfg, trace)
    requires Sensible(cfg.retry) && Constructed(cfg.retry)
    ensures WaitsBounded(cfg, Replay(cfg, Start(cfg, items, cache), trace))
  {
    if trace != [] {
      var prefix, e := trace[..|trace| - 1], trace[|trace| - 1];
      WaitsStayBounded(cfg, items, cache, prefix);
      assert e in trace;
      StepWaits(cfg, Replay(cfg, Start(cfg, items, cache), prefix), e, Replay(cfg, Start(cfg, items, cache), trace));
    }
  }

  // ---------------------------------------------------------------- delays in a trace

  /** The delay a failed execution of an item with this key is scheduled with, if it is retried. */
  function DelayOf(cfg: Config, s: State, e: Event, s': State, key: string): real {
    if e.Fail? && e.i < |s.inflight| && s.inflight[e.i].key == key
       && Classify(cfg, e.exn, s.inflight[e.i].item).ToRetry? && s'.stop.None?
    then RetryDelay(cfg, TransientCount(s, key) + 1, e.exn, e.draw)
    else 0.0
  }

  /** The delays of a key, added up. */
  function TotalDelay(cfg: Config, start: State, trace: seq<Event>, key: string): real {
    if trace == [] then 0.0
    else
      var prefix, e := trace[..|trace| - 1], trace[|trace| - 1];
      TotalDelay(cfg, start, prefix, key)
      + DelayOf(cfg, Replay(cfg, start, prefix), e, Replay(cfg, start, trace), key)
  }

  lemma FailWaits(cfg: Config, s: State, i: nat, exn: Exn, now: real, draw: real, s': State, key: string)
    requires s.stop.None? && i < |s.inflight| && s' == AfterFail(cfg, s, i, exn, now, draw)
    ensures Get0(s'.hist.waited, key) == Get0(s.hist.waited, key) + DelayOf(cfg, s, Fail(i, exn, now, draw), s', key)
  {
    var taken, ad := Taken(s, i), s.inflight[i];
    match Classify(cfg, exn, ad.item)
    case ToSplit => SplitCases(cfg, taken, ad, AdmitChildren(cfg, taken, ad), s');
    case ToRetry => RetryEffect(cfg, taken, ad, exn, now, NextDelay(cfg, taken, ad, exn, draw), s');
    case ToFatal =>
  }

  lemma StepDelays(cfg: Config, s: State, e: Event, s': State, key: string)
    requires Enabled(cfg, s, e) && s' == Step(cfg, s, e)
    ensures Get0(s'.hist.waited, key) == Get0(s.hist.waited, key) + DelayOf(cfg, s, e, s', key)
  {
    match e
    case Dispatch(lookup) => DispatchWaits(s, lookup);
    case Finish(i, records, persist) => FinishWaits(cfg, s, i, records, persist);
    case Fail(i, exn, now, draw) => FailWaits(cfg, s, i, exn, now, draw, s', key);
    case Promote(_) =>
  }

  lemma {:induction false} WaitedIsTotal(cfg: Config, items: seq<Item>, cache: map<string, Cached>, trace: seq<Event>,
        key: string)
    requires Possible(cfg, Start(cfg, items, cache), trace)
    ensures Get0(Replay(cfg, Start(cfg, items, cache), trace).hist.waited, key)
         == TotalDelay(cfg, Start(cfg, items, cache), trace, key)
  {
    if trace != [] {
      var start, prefix := Start(cfg, items, cache), trace[..|trace| - 1];
      WaitedIsTotal(cfg, items, cache, prefix, key);
      StepDelays(cfg, Replay(cfg, start, prefix), trace[|trace| - 1], Replay(cfg, start, trace), key);
    }
  }

  /** (max_attempts - 1) times the larger of the longest backoff and the longest acceptable
      server hint. */
  predicate IsLongestTotal(retry: RetryPolicy, most: real) {
    var backoff := retry.maxDelay * (1.0 + retry.jitter);
    var longest := if backoff >= retry.maxServerDelay then backoff else retry.maxServerDelay;
    most == (retry.maxAttempts - 1) as real * longest
  }

  /** Over a whole run, one key's scheduled delays add up to at most that. */
  lemma TotalWaitIsBounded(cfg: Config, items: seq<Item>, cache: map<string, Cached>, trace: seq<Event>, key: string,
        most: real)
    requires Possible(cfg, Start(cfg, items, cache), trace) && DrawsInRange(cfg, trace)
    requires Sensible(cfg.retry) && Constructed(cfg.retry) && cfg.retry.maxAttempts >= 1
    requires IsLongestTotal(cfg.retry, most)
    ensures TotalDelay(cfg, Start(cfg, items, cache), trace, key) <= most
  {
    WaitsStayBounded(cfg, items, cache, trace);
    WaitedIsTotal(cfg, items, cache, trace, key);
    WaitsAddUp(cfg, Replay(cfg, Start(cfg, items, cache), trace), key, cfg.retry.maxAttempts - 1, most);
  }

  lemma WaitsAddUp(cfg: Config, s: State, key: string, times: nat, most: real)
    requires WaitsBounded(cfg, s) && Constructed(cfg.retry) && times == cfg.retry.maxAttempts - 1
    requires IsLongestTotal(cfg.retry, most)
    ensures Get0(s.hist.waited, key) <= most
  {
    TotalIsProduct(cfg.retry, times, most);
    LongestIsPositive(cfg);
    TimesGrows(0, times, LongestDelay(cfg.retry));
    TimesGrows(Waits(cfg, s, key), times, LongestDelay(cfg.retry));
  }

  lemma TotalIsProduct(retry: RetryPolicy, times: nat, most: real)
    requires times == retry.maxAttempts - 1 && IsLongestTotal(retry, most)
    ensures Times(times, LongestDelay(retry)) == most
  {
    TimesIsProduct(times, LongestDelay(retry));
  }
}
