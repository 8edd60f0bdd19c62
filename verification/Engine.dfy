/** run_checkpointed as the code has it: loops over mutable queues, maps and counters,
    refining the scheduler's state machine step by step on top of the store object. */
module Engine {
  import opened Wrappers
  import opened Jsonl
  import opened Work
  import Backoff
  import Json
  import opened Manifest
  import opened Store
  import opened StoreObject
  import opened Scheduler
  import opened Ledger
  import Flow

  // ---------------------------------------------------------------- the environment

  /** How a future ended; for an error, also the clock and the jitter the routing would read. */
  datatype Completion = Result(records: Records) | Error(exn: Exn, now: real, draw: real)

  /** A future that is done, by its position among those in flight when it is looked at. */
  datatype Done = Done(who: nat, how: Completion)

  /** One turn of the main loop as the environment sees it: the futures the wait returned
      (none of them after a timeout) and the clock afterwards. */
  datatype Round = Round(done: seq<Done>, clock: real)

  // ---------------------------------------------------------------- small steps of runs

  lemma TraceSnoc(cfg: Config, start: State, trace: seq<Event>, e: Event)
    ensures Replay(cfg, start, trace + [e]) == Step(cfg, Replay(cfg, start, trace), e)
    ensures Possible(cfg, start, trace + [e]) <==> Possible(cfg, start, trace) && Enabled(cfg, Replay(cfg, start, trace), e)
  {
    assert (trace + [e])[..|trace + [e]| - 1] == trace;
  }

  lemma {:induction false} AddHashesSnoc(hashes: map<string, string>, ads: seq<Admitted>, ad: Admitted)
    ensures AddHashes(hashes, ads + [ad]) == AddHashes(hashes, ads)[ad.key := ad.hash]
    decreases ads
  {
    if ads == [] {
      assert [] + [ad] == [ad];
    } else {
      assert (ads + [ad])[1..] == ads[1..] + [ad];
      AddHashesSnoc(hashes[ads[0].key := ads[0].hash], ads[1..], ad);
    }
  }

  lemma {:induction false} MaturedIs(heap: seq<Delayed>, now: real, n: nat)
    requires n <= |heap| && (forall i | 0 <= i < n :: heap[i].readyAt <= now)
    requires n < |heap| ==> heap[n].readyAt > now
    ensures Matured(heap, now) == n
  {
    if n > 0 {
      assert forall i | 0 <= i < n - 1 :: heap[1..][i] == heap[i + 1];
      MaturedIs(heap[1..], now, n - 1);
    }
  }

  // ---------------------------------------------------------------- the run

  /** A retry that is scheduled, spelled out. */
  function Delays(s: State, ad: Admitted, n: nat, now: real, delay: real): State {
    s.(transient := s.transient[ad.key := n],
       delayed := Push(s.delayed, Delayed(now + delay, s.seqNo, ad)),
       seqNo := s.seqNo + 1,
       retries := s.retries + 1,
       hist := s.hist.(notBefore := s.hist.notBefore[ad.key := now + delay],
                       waited := s.hist.waited[ad.key := Get0(s.hist.waited, ad.key) + delay]))
  }

  lemma RetryIs(cfg: Config, s: State, ad: Admitted, exn: Exn, now: real, delay: real)
    requires TransientCount(s, ad.key) + 1 < cfg.retry.maxAttempts
        && HintAcceptable(cfg.retry, ServerHint(cfg.retry, exn))
    ensures Retry(cfg, s, ad, exn, now, delay) == Delays(s, ad, TransientCount(s, ad.key) + 1, now, delay)
  {}

  lemma CacheFollowsView(cfg: Config, settings: Settings, cache: map<string, Cached>, ad: Admitted, records: Records,
        outcome: CommitOutcome, lost: bool, persist: Persist)
    requires Wired(cfg, settings) && (outcome == UnsafeKeyError ==> !lost)
    requires persist == if outcome.Committed? then Stored else CommitRaised(lost)
    ensures CacheWith(cfg, cache, ad, records, persist)
         == ViewAfter(settings, cache, ad.key, ad.hash, records, outcome, lost)
  {}

  lemma SplitIs(cfg: Config, s: State, ad: Admitted, children: seq<Item>, fault: Option<Failure>, s': State)
    requires fault == SplitFault(cfg, ad.item, ad.depth) && (fault.None? ==> children == Children(cfg, ad.item))
    requires s' == if fault.Some? then s.(stop := fault)
      else ReplaceLeaf(s, ad, AdmitAll(cfg, children, ad.depth + 1, s.live))
    ensures s' == Split(cfg, s, ad)
  {}

  // ---------------------------------------------------------------- turns of the loop

  predicate OnlyDispatches(before: seq<Event>, after: seq<Event>) {
    before <= after && forall i | |before| <= i < |after| :: after[i].Dispatch?
  }

  lemma OneMoreDispatch(before: seq<Event>, middle: seq<Event>, lookup: Lookup)
    requires OnlyDispatches(before, middle)
    ensures OnlyDispatches(before, middle + [Dispatch(lookup)])
  {}

  /** Dispatching goes on until something raises, nothing is ready or all workers are busy. */
  ghost predicate DispatchesTo(cfg: Config, start: State, before: seq<Event>, after: seq<Event>) {
    var s := Replay(cfg, start, after);
    OnlyDispatches(before, after) && (s.stop.Some? || s.ready == [] || |s.inflight| >= MaxWorkers(cfg))
  }

  /** A commit has been tried. */
  predicate HasFinish(trace: seq<Event>) {
    trace != [] && (trace[|trace| - 1].Finish? || HasFinish(trace[..|trace| - 1]))
  }

  /** No lookup has raised before the first commit was tried. */
  predicate NoEarlyRaise(trace: seq<Event>) {
    trace == [] ||
      var prefix, last := trace[..|trace| - 1], trace[|trace| - 1];
      NoEarlyRaise(prefix) && (last == Dispatch(HasRaised) ==> HasFinish(prefix))
  }

  lemma {:induction false} FinishIsThere(trace: seq<Event>) returns (j: nat)
    requires HasFinish(trace)
    ensures j < |trace| && trace[j].Finish?
  {
    if trace[|trace| - 1].Finish? {
      j := |trace| - 1;
    } else {
      j := FinishIsThere(trace[..|trace| - 1]);
    }
  }

  lemma {:induction false} CommitComesFirst(trace: seq<Event>, i: nat)
    requires NoEarlyRaise(trace) && i < |trace| && trace[i] == Dispatch(HasRaised)
    ensures exists j | 0 <= j < i :: trace[j].Finish?
  {
    var prefix := trace[..|trace| - 1];
    if i == |trace| - 1 {
      var j := FinishIsThere(prefix);
      assert trace[j].Finish?;
    } else {
      CommitComesFirst(prefix, i);
      var j :| 0 <= j < i && prefix[j].Finish?;
      assert trace[j].Finish?;
    }
  }

  lemma CommitsComeFirst(trace: seq<Event>)
    requires NoEarlyRaise(trace)
    ensures forall i | 0 <= i < |trace| && trace[i] == Dispatch(HasRaised) :: exists j | 0 <= j < i :: trace[j].Finish?
  {
    forall i | 0 <= i < |trace| && trace[i] == Dispatch(HasRaised) ensures exists j | 0 <= j < i :: trace[j].Finish? {
      CommitComesFirst(trace, i);
    }
  }

  ghost predicate Quiet(beganEmpty: bool, trace: seq<Event>, entries: Entries) {
    beganEmpty ==> NoEarlyRaise(trace) && (!HasFinish(trace) ==> entries == map[])
  }

  lemma QuietSnoc(beganEmpty: bool, trace: seq<Event>, e: Event, entries: Entries, entries': Entries)
    requires Quiet(beganEmpty, trace, entries) && (e.Finish? || entries' == entries)
    requires e == Dispatch(HasRaised) ==> entries != map[]
    ensures Quiet(beganEmpty, trace + [e], entries')
  {
    assert (trace + [e])[..|trace + [e]| - 1] == trace;
  }

  /** Why an exception of the store has ended a run: its last event is the lookup of a key the
      store refuses, or a commit, and that under a key that cannot name a file, or one during
      which an operation of the disk raised. */
  ghost predicate Excused(cfg: Config, settings: Settings, start: State, trace: seq<Event>, entries: Entries,
        files: Files, before: seq<Fault>, after: seq<Fault>)
  {
    trace != [] &&
    var s, last := Replay(cfg, start, trace[..|trace| - 1]), trace[|trace| - 1];
    match last
    case Dispatch(lookup) =>
      && lookup.HasRaised? && s.ready != [] && after == before
      && Refuses(settings, entries, files, s.ready[0].key, s.ready[0].hash)
    case Finish(i, _, persist) =>
      persist.CommitRaised? && i < |s.inflight| && OnceAtMost(before, after, !IsSafeKey(s.inflight[i].key))
    case _ => false
  }

  /** The store's exceptions are accounted for, and as long as none has ended the run no
      operation of the disk has raised. */
  ghost predicate Accounted(cfg: Config, settings: Settings, start: State, trace: seq<Event>, stop: Option<Failure>,
        entries: Entries, files: Files, before: seq<Fault>, after: seq<Fault>)
  {
    if stop == Some(StoreRaised) then Excused(cfg, settings, start, trace, entries, files, before, after)
    else after == before
  }

  lemma LookupIsExcused(cfg: Config, settings: Settings, start: State, trace: seq<Event>, lookup: Lookup,
        entries: Entries, files: Files, faults: seq<Fault>, s: State, s': State)
    requires s == Replay(cfg, start, trace) && s.ready != [] && s.stop.None? && s' == AfterDispatch(s, lookup)
    requires lookup.HasRaised? ==> Refuses(settings, entries, files, s.ready[0].key, s.ready[0].hash)
    ensures Accounted(cfg, settings, start, trace + [Dispatch(lookup)], s'.stop, entries, files, faults, faults)
  {
    assert (trace + [Dispatch(lookup)])[..|trace|] == trace;
  }

  lemma CommitIsExcused(cfg: Config, settings: Settings, start: State, trace: seq<Event>, i: nat, records: Records,
        persist: Persist, entries: Entries, files: Files, before: seq<Fault>, after: seq<Fault>, s: State, s': State)
    requires s == Replay(cfg, start, trace) && i < |s.inflight| && s.stop.None?
    requires s' == AfterFinish(cfg, s, i, records, persist)
    requires OnceAtMost(before, after, persist.Stored? || !IsSafeKey(s.inflight[i].key))
    ensures Accounted(cfg, settings, start, trace + [Finish(i, records, persist)], s'.stop, entries, files, before, after)
  {
    assert (trace + [Finish(i, records, persist)])[..|trace|] == trace;
  }

  /** A failed execution never ends the run with an exception of the store. */
  lemma FailureIsNoStores(cfg: Config, s: State, i: nat, exn: Exn, now: real, draw: real, s': State)
    requires i < |s.inflight| && s.stop.None? && s' == AfterFail(cfg, s, i, exn, now, draw)
    ensures s'.stop != Some(StoreRaised)
  {
    var taken, ad := Taken(s, i), s.inflight[i];
    match Classify(cfg, exn, ad.item)
    case ToSplit => SplitIsNoStores(cfg, taken, ad, s');
    case ToRetry => RetryIsNoStores(cfg, taken, ad, exn, now, NextDelay(cfg, taken, ad, exn, draw), s');
    case ToFatal =>
  }

  lemma SplitIsNoStores(cfg: Config, s: State, ad: Admitted, s': State)
    requires s.stop.None? && s' == Split(cfg, s, ad)
    ensures s'.stop != Some(StoreRaised)
  {}

  lemma RetryIsNoStores(cfg: Config, s: State, ad: Admitted, exn: Exn, now: real, delay: real, s': State)
    requires s.stop.None? && s' == Retry(cfg, s, ad, exn, now, delay)
    ensures s'.stop != Some(StoreRaised)
  {}

  /** The event a finished future gives rise to; what the store did with a result is up to it. */
  predicate IsEventOf(done: Done, e: Event) {
    match done.how
    case Result(records) => e.Finish? && e.i == done.who && e.records == records
    case Error(exn, now, draw) => e == Fail(done.who, exn, now, draw)
  }

  ghost predicate Completes(cfg: Config, start: State, before: seq<Event>, done: Done, after: seq<Event>) {
    if done.who < |Replay(cfg, start, before).inflight| then
      |after| == |before| + 1 && before <= after && IsEventOf(done, after[|before|])
    else after == before
  }

  /** The states of the trace before each of the given futures and after the last. */
  ghost predicate DoneChain(cfg: Config, start: State, before: seq<Event>, done: seq<Done>, after: seq<Event>,
        chain: seq<seq<Event>>)
  {
    && |chain| == |done| + 1 && chain[0] == before && chain[|done|] == after
    && forall i | 0 <= i < |done| :: DoneLink(cfg, start, done, chain, i)
  }

  ghost predicate DoneLink(cfg: Config, start: State, done: seq<Done>, chain: seq<seq<Event>>, i: int) {
    0 <= i < |done| && i + 1 < |chain| && Completes(cfg, start, chain[i], done[i], chain[i + 1])
  }

  /** The given futures are handled one after the other. */
  ghost predicate CompletesTo(cfg: Config, start: State, before: seq<Event>, done: seq<Done>, after: seq<Event>) {
    exists chain :: DoneChain(cfg, start, before, done, after, chain)
  }

  lemma NoneDone(cfg: Config, start: State, before: seq<Event>)
    ensures CompletesTo(cfg, start, before, [], before)
  {
    assert DoneChain(cfg, start, before, [], before, [before]);
  }

  lemma OneMoreDone(cfg: Config, start: State, before: seq<Event>, done: seq<Done>, i: nat, middle: seq<Event>,
        after: seq<Event>)
    requires i < |done| && CompletesTo(cfg, start, before, done[..i], middle)
        && Completes(cfg, start, middle, done[i], after)
    ensures CompletesTo(cfg, start, before, done[..i + 1], after)
  {
    var chain :| DoneChain(cfg, start, before, done[..i], middle, chain);
    var all, longer := done[..i + 1], chain + [after];
    forall j | 0 <= j < |all| ensures DoneLink(cfg, start, all, longer, j) {
      if j < i { assert DoneLink(cfg, start, done[..i], chain, j); }
    }
    assert DoneChain(cfg, start, before, all, after, longer);
  }

  /** Futures up to the first that raises, then the promotion, unless the exception has left
      the loop: an exception of the store or of an admission does so at once, the others are
      kept as the fatal one. */
  ghost predicate PlaysVia(cfg: Config, start: State, before: seq<Event>, round: Round, n: nat, middle: seq<Event>,
        after: seq<Event>)
  {
    var s := Replay(cfg, start, middle);
    && n <= |round.done| && CompletesTo(cfg, start, before, round.done[..n], middle)
    && (n < |round.done| ==> s.stop.Some?)
    && after == if s.stop == Some(StoreRaised) || s.stop == Some(KeyCollision) then middle
                else middle + [Promote(round.clock)]
  }

  ghost predicate PlaysTo(cfg: Config, start: State, before: seq<Event>, round: Round, after: seq<Event>) {
    var s := Replay(cfg, start, before);
    if s.inflight != [] then exists n, middle :: PlaysVia(cfg, start, before, round, n, middle, after)
    else after == if s.delayed != [] then before + [Promote(round.clock)] else before
  }

  ghost predicate TurnsVia(cfg: Config, start: State, before: seq<Event>, round: Round, middle: seq<Event>,
        after: seq<Event>)
  {
    && DispatchesTo(cfg, start, before, middle)
    && if Replay(cfg, start, middle).stop.Some? then after == middle else PlaysTo(cfg, start, middle, round, after)
  }

  /** One turn of the main loop. */
  ghost predicate TurnsTo(cfg: Config, start: State, before: seq<Event>, round: Round, after: seq<Event>) {
    exists middle :: TurnsVia(cfg, start, before, round, middle, after)
  }

  /** The states of the trace before each of the given rounds and after the last. */
  ghost predicate LoopChain(cfg: Config, start: State, before: seq<Event>, rounds: seq<Round>, after: seq<Event>,
        chain: seq<seq<Event>>)
  {
    && |chain| == |rounds| + 1 && chain[0] == before && chain[|rounds|] == after
    && forall i | 0 <= i < |rounds| :: LoopLink(cfg, start, rounds, chain, i)
  }

  /** A turn is begun with work left and no exception pending. */
  ghost predicate LoopLink(cfg: Config, start: State, rounds: seq<Round>, chain: seq<seq<Event>>, i: int) {
    && 0 <= i < |rounds| && i + 1 < |chain|
    && Replay(cfg, start, chain[i]).stop.None? && Busy(Replay(cfg, start, chain[i]))
    && TurnsTo(cfg, start, chain[i], rounds[i], chain[i + 1])
  }

  /** One turn for every round. */
  ghost predicate LoopsTo(cfg: Config, start: State, before: seq<Event>, rounds: seq<Round>, after: seq<Event>) {
    exists chain :: LoopChain(cfg, start, before, rounds, after, chain)
  }

  lemma NoTurn(cfg: Config, start: State, before: seq<Event>)
    ensures LoopsTo(cfg, start, before, [], before)
  {
    assert LoopChain(cfg, start, before, [], before, [before]);
  }

  lemma SameLink(cfg: Config, start: State, rounds: seq<Round>, chain: seq<seq<Event>>, all: seq<Round>,
        longer: seq<seq<Event>>, j: nat)
    requires LoopLink(cfg, start, rounds, chain, j) && rounds <= all && chain <= longer
    ensures LoopLink(cfg, start, all, longer, j)
  {}

  lemma ChainGrows(cfg: Config, start: State, before: seq<Event>, rounds: seq<Round>, middle: seq<Event>,
        chain: seq<seq<Event>>, all: seq<Round>, after: seq<Event>)
    requires LoopChain(cfg, start, before, rounds, middle, chain)
    requires rounds <= all && |all| == |rounds| + 1 && LoopLink(cfg, start, all, chain + [after], |rounds|)
    ensures LoopChain(cfg, start, before, all, after, chain + [after])
  {
    forall j | 0 <= j < |all| ensures LoopLink(cfg, start, all, chain + [after], j) {
      if j < |rounds| { SameLink(cfg, start, rounds, chain, all, chain + [after], j); }
    }
  }

  lemma OneMoreTurn(cfg: Config, start: State, before: seq<Event>, rounds: seq<Round>, t: nat, middle: seq<Event>,
        after: seq<Event>)
    requires t < |rounds| && LoopsTo(cfg, start, before, rounds[..t], middle)
    requires Replay(cfg, start, middle).stop.None? && Busy(Replay(cfg, start, middle))
    requires TurnsTo(cfg, start, middle, rounds[t], after)
    ensures LoopsTo(cfg, start, before, rounds[..t + 1], after)
  {
    var chain :| LoopChain(cfg, start, before, rounds[..t], middle, chain);
    assert LoopLink(cfg, start, rounds[..t + 1], chain + [after], t);
    ChainGrows(cfg, start, before, rounds[..t], middle, chain, rounds[..t + 1], after);
  }

  const NOTHING_YET := State([], [], [], map[], {}, map[], map[], 0, 0, 0, 0, 0, 0, None, map[], NO_HISTORY)

  class Run {
    const cfg: Config
    const store: JsonlStore
    var ready: seq<Admitted>
    var delayed: seq<Delayed>
    var inflight: seq<Admitted>
    var live: map<string, string>
    var terminal: set<string>
    var terminalHash: map<string, string>
    var transient: map<string, nat>
    var seqNo: nat
    var attempts: nat
    var committed: nat
    var resumed: nat
    var retries: nat
    var splits: nat
    var stop: Option<Failure>
    ghost var cache: map<string, Cached>   // what the store answers for
    ghost var hist: History
    ghost var start: State
    ghost var trace: seq<Event>
    ghost const beganEmpty: bool           // the store had no entries when the run began
    ghost const faultsBefore: seq<Fault>   // what had raised on the disk by then

    /** The scheduler state this object is in. */
    ghost function Snapshot(): State
      reads this
    {
      State(ready, delayed, inflight, live, terminal, terminalHash, transient, seqNo,
            attempts, committed, resumed, retries, splits, stop, cache, hist)
    }

    /** The object is where the scheduler gets from start by the events recorded. */
    ghost predicate OnTrack()
      reads this
    {
      Possible(cfg, start, trace) && Snapshot() == Replay(cfg, start, trace)
    }

    ghost predicate Linked()
      reads this`cache, store, store.disk
    {
      store.Valid() && cache == store.CurrentView()
    }

    /** What the store has raised so far is accounted for. */
    ghost predicate Explained()
      reads this`trace, this`start, this`stop, store, store.disk
    {
      && Quiet(beganEmpty, trace, store.entries)
      && Accounted(cfg, store.cfg, start, trace, stop, store.entries, store.disk.files, faultsBefore, store.disk.faults)
    }

    ghost predicate Valid()
      reads this, store, store.disk
    {
      OnTrack() && Linked() && Wired(cfg, store.cfg) && Explained()
    }

    constructor (cfg: Config, store: JsonlStore)
      ensures this.cfg == cfg && this.store == store
      ensures Snapshot() == NOTHING_YET.(cache := store.CurrentView())
      ensures beganEmpty == (store.entries == map[]) && faultsBefore == store.disk.faults
    {
      this.cfg := cfg;
      this.store := store;
      beganEmpty, faultsBefore := store.entries == map[], store.disk.faults;
      ready, delayed, inflight := [], [], [];
      live, terminal, terminalHash, transient := map[], {}, map[], map[];
      seqNo, attempts, committed, resumed, retries, splits := 0, 0, 0, 0, 0, 0;
      stop := None;
      cache := store.CurrentView();
      hist := NO_HISTORY;
      trace := [];
    }

    // -------------------------------------------------------------- admission

    /** _admit: refuse a key that is already live, else register it. */
    method AdmitItem(item: Item, depth: nat) returns (ad: Admitted, ok: bool)
      modifies this`live
      ensures ad == Admit(cfg, item, depth)
      ensures ok <==> ad.key !in old(live)
      ensures live == if ok then old(live)[ad.key := ad.hash] else old(live)
    {
      var (key, hash) := cfg.contentKey(item.payload);
      ad := Admitted(item, key, hash, depth);
      ok := key !in live;
      if ok {
        live := live[key := hash];
      }
    }

    /** Admit the items one after the other, up to the first key that is already live. */
    method AdmitItems(items: seq<Item>, depth: nat) returns (ads: seq<Admitted>, ok: bool)
      modifies this`live
      ensures Admission(live, ads, ok) == AdmitAll(cfg, items, depth, old(live))
    {
      ads := [];
      var i := 0;
      while i < |items|
        invariant 0 <= i <= |items|
        invariant var rest := AdmitAll(cfg, items[i..], depth, live);
          AdmitAll(cfg, items, depth, old(live)) == Admission(rest.live, if rest.ok then ads + rest.ads else [], rest.ok)
      {
        var ad;
        ad, ok := AdmitItem(items[i], depth);
        if !ok {
          return [], false;
        }
        ads := ads + [ad];
        i := i + 1;
      }
      ok := true;
    }

    /** New leaves: terminal, with their hashes, and queued. */
    method AddLeaves(ads: seq<Admitted>)
      modifies this`terminal, this`terminalHash, this`ready
      ensures terminal == old(terminal) + Keys(ads)
      ensures terminalHash == AddHashes(old(terminalHash), ads)
      ensures ready == old(ready) + ads
    {
      var i := 0;
      while i < |ads|
        invariant 0 <= i <= |ads|
        invariant terminal == old(terminal) + Keys(ads[..i])
        invariant terminalHash == AddHashes(old(terminalHash), ads[..i])
        invariant ready == old(ready) + ads[..i]
      {
        assert ads[..i + 1] == ads[..i] + [ads[i]];
        Flow.KeysSnoc(ads[..i], ads[i]);
        AddHashesSnoc(old(terminalHash), ads[..i], ads[i]);
        terminal := terminal + {ads[i].key};
        terminalHash := terminalHash[ads[i].key := ads[i].hash];
        ready := ready + [ads[i]];
        i := i + 1;
      }
      assert ads[..i] == ads;
    }

    /** The roots. A duplicate key among them raises before anything has run. */
    method AdmitRoots(items: seq<Item>)
      requires Snapshot() == NOTHING_YET.(cache := cache)
      modifies this`ready, this`live, this`terminal, this`terminalHash, this`stop, this`start, this`trace
      ensures OnTrack() && trace == [] && start == Start(cfg, items, cache)
    {
      QueueRoots(items);
      trace := [];
      start := Snapshot();
    }

    method QueueRoots(items: seq<Item>)
      requires Snapshot() == NOTHING_YET.(cache := cache)
      modifies this`ready, this`live, this`terminal, this`terminalHash, this`stop
      ensures Snapshot() == Start(cfg, items, cache)
    {
      var ads, ok := AdmitItems(items, 0);
      if ok {
        AddLeaves(ads);
      } else {
        stop := Some(KeyCollision);
      }
      assert AdmitAll(cfg, items, 0, map[]) == Admission(live, ads, ok);
    }

    // -------------------------------------------------------------- failures

    /** The checks _handle_split makes before it admits any child. */
    method CheckSplit(ad: Admitted) returns (children: seq<Item>, fault: Option<Failure>)
      requires cfg.splitPolicy.Some?
      ensures fault == SplitFault(cfg, ad.item, ad.depth)
      ensures fault.None? ==> children == Children(cfg, ad.item)
    {
      if ad.depth + 1 > cfg.maxSplitDepth {
        return [], Some(DepthCap);
      }
      children := cfg.splitPolicy.value.split(ad.item);
      if children == [] {
        return children, Some(NoChildren);
      }
      var parentSize := cfg.splitSize(ad.item);
      if parentSize > 0 && (forall c | c in children :: cfg.splitSize(c) > 0) {
        if exists c | c in children :: cfg.splitSize(c) >= parentSize {
          return children, Some(NotShrinking);
        }
      }
      fault := None;
    }

    /** All children admitted, the parent's leaf replaced; or a key collision. */
    method ReplaceByChildren(ad: Admitted, children: seq<Item>)
      modifies this`ready, this`live, this`terminal, this`terminalHash, this`splits, this`stop, this`hist
      ensures Snapshot() == ReplaceLeaf(old(Snapshot()), ad, AdmitAll(cfg, children, ad.depth + 1, old(live)))
    {
      var ads, ok := AdmitItems(children, ad.depth + 1);
      if ok {
        SwapLeaf(ad, ads);
      } else {
        stop := Some(KeyCollision);
      }
    }

    method SwapLeaf(ad: Admitted, ads: seq<Admitted>)
      modifies this`ready, this`terminal, this`terminalHash, this`splits, this`hist
      ensures Snapshot() == ReplaceLeaf(old(Snapshot()), ad, Admission(live, ads, true))
    {
      RetireLeaf(ad.key);
      AddLeaves(ads);
      CountSplit(ad, ads);
    }

    method RetireLeaf(key: string)
      modifies this`terminal, this`terminalHash
      ensures terminal == old(terminal) - {key} && terminalHash == old(terminalHash) - {key}
    {
      terminal := terminal - {key};
      terminalHash := terminalHash - {key};
    }

    method CountSplit(ad: Admitted, ads: seq<Admitted>)
      modifies this`splits, this`hist
      ensures splits == old(splits) + 1
      ensures hist == old(hist).(parents := AddParents(old(hist).parents, ads, ad.key),
                                 grown := old(hist).grown + |ads| - 1)
    {
      splits := splits + 1;
      hist := hist.(parents := AddParents(hist.parents, ads, ad.key), grown := hist.grown + |ads| - 1);
    }

    /** _handle_split. */
    method HandleSplit(ad: Admitted)
      requires cfg.splitPolicy.Some?
      modifies this`ready, this`live, this`terminal, this`terminalHash, this`splits, this`stop, this`hist
      ensures Snapshot() == Split(cfg, old(Snapshot()), ad)
    {
      ghost var before := Snapshot();
      var children, fault := CheckSplit(ad);
      SplitOrStop(ad, children, fault);
      SplitIs(cfg, before, ad, children, fault, Snapshot());
    }

    method SplitOrStop(ad: Admitted, children: seq<Item>, fault: Option<Failure>)
      modifies this`ready, this`live, this`terminal, this`terminalHash, this`splits, this`stop, this`hist
      ensures Snapshot() == if fault.Some? then old(Snapshot()).(stop := fault)
        else ReplaceLeaf(old(Snapshot()), ad, AdmitAll(cfg, children, ad.depth + 1, old(live)))
    {
      if fault.Some? {
        stop := fault;
      } else {
        ReplaceByChildren(ad, children);
      }
    }

    /** The transient branch of _route_exception. */
    method DelayRetry(ad: Admitted, exn: Exn, now: real, draw: real)
      modifies this`delayed, this`transient, this`seqNo, this`retries, this`stop, this`hist
      ensures Snapshot() == Retry(cfg, old(Snapshot()), ad, exn, now, NextDelay(cfg, old(Snapshot()), ad, exn, draw))
    {
      ghost var before := Snapshot();
      var n: nat := (if ad.key in transient then transient[ad.key] else 0) + 1;
      if n < cfg.retry.maxAttempts {
        var server: Option<Seconds> := None;
        if cfg.retry.retryAfter.Some? {
          server := cfg.retry.retryAfter.value(exn);
        }
        if server.Some? && (server.value.NotFinite? || server.value.s < 0.0 || server.value.s > cfg.retry.maxServerDelay) {
          GiveUp(ad.key, n, RetryAfterError);
        } else {
          var delay := Backoff.Max(Backoff.BackoffDelay(cfg.retry, n, draw), HintSeconds(server));
          Requeue(ad, n, now, delay);
          RetryIs(cfg, before, ad, exn, now, delay);
        }
      } else {
        GiveUp(ad.key, n, Fatal(exn));
      }
    }

    /** The n-th transient failure of a key ends the run. */
    method GiveUp(key: string, n: nat, f: Failure)
      modifies this`transient, this`stop
      ensures Snapshot() == old(Snapshot()).(transient := old(transient)[key := n], stop := Some(f))
    {
      transient := transient[key := n];
      stop := Some(f);
    }

    /** heapq.heappush with the next sequence number. */
    method PushDelayed(ad: Admitted, readyAt: real)
      modifies this`delayed, this`seqNo
      ensures delayed == Push(old(delayed), Delayed(readyAt, old(seqNo), ad)) && seqNo == old(seqNo) + 1
    {
      delayed := Push(delayed, Delayed(readyAt, seqNo, ad));
      seqNo := seqNo + 1;
    }

    /** The n-th transient failure of an item puts it on the delayed heap. */
    method Requeue(ad: Admitted, n: nat, now: real, delay: real)
      modifies this`transient, this`delayed, this`seqNo, this`retries, this`hist
      ensures Snapshot() == Delays(old(Snapshot()), ad, n, now, delay)
    {
      PushDelayed(ad, now + delay);
      transient := transient[ad.key := n];
      retries := retries + 1;
      hist := hist.(notBefore := hist.notBefore[ad.key := now + delay],
                    waited := hist.waited[ad.key := Get0(hist.waited, ad.key) + delay]);
    }

    /** _route_exception: OOM first, then the domain split, then transient, then fatal. */
    method RouteException(ad: Admitted, exn: Exn, now: real, draw: real)
      modifies this`ready, this`live, this`terminal, this`terminalHash, this`splits, this`stop, this`hist,
               this`delayed, this`transient, this`seqNo, this`retries
      ensures Snapshot() == Routed(cfg, old(Snapshot()), ad, exn, now, draw)
    {
      if cfg.isOom(exn) {
        if cfg.splitPolicy.Some? && cfg.splitPolicy.value.shouldSplit(exn, ad.item) {
          HandleSplit(ad);
        } else {
          stop := Some(Fatal(exn));
        }
      } else if cfg.splitPolicy.Some? && cfg.splitPolicy.value.shouldSplit(exn, ad.item) {
        HandleSplit(ad);
      } else if cfg.isTransient(exn) {
        DelayRetry(ad, exn, now, draw);
      } else {
        stop := Some(Fatal(exn));
      }
    }

    // -------------------------------------------------------------- the store

    /** store.has, as the dispatcher uses it: a hit if the store answers for the item, an
        exception only for a key the manifest has and that collides or cannot name a file, and
        a miss in every other case. */
    method AskStore(ad: Admitted) returns (lookup: Lookup)
      requires Linked()
      ensures LookupAgrees(cache, ad, lookup)
      ensures lookup == HasRaised <==>
        ad.key in store.entries &&
        (Get(store.entries[ad.key], "payload_hash") != Some(Json.Str(ad.hash)) || !IsSafeKey(ad.key)
         || FileCollides(store.cfg, store.disk.files, ad.key, ad.hash))
    {
      var p := store.Has(ad.key, ad.hash);
      ViewAnswersProbes(store.cfg, store.entries, store.disk.files, ad.key, ad.hash);
      RaisesIff(store.cfg, store.entries, store.disk.files, ad.key, ad.hash);
      match p {
        case Loaded(_) => lookup := Hit;
        case Collision => lookup := HasRaised;
        case UnsafeKey => lookup := HasRaised;
        case Uncommitted => lookup := Miss;
        case Unreadable => lookup := Miss;
        case Invalid => lookup := Miss;
      }
    }

    /** store.commit, and what the store answers for afterwards; on disk it is one of the writes
        the sessions are made of. */
    method CommitToStore(ad: Admitted, records: Records) returns (ok: bool, ghost persist: Persist, ghost w: Write)
      requires Linked() && Wired(cfg, store.cfg)
      modifies this`cache, store, store.disk
      ensures Linked() && ok == persist.Stored?
      ensures cache == CacheWith(cfg, old(cache), ad, records, persist)
      ensures WriteFits(store.cfg, old(store.entries), ad, records, persist, w)
      ensures store.entries == EntriesWith(store.cfg, old(store.entries), ad, records, persist, w)
      ensures store.disk.files == FilesWith(store.cfg, old(store.entries), old(store.disk.files), ad, records, w)
      ensures OnceAtMost(old(store.disk.faults), store.disk.faults, ok || !IsSafeKey(ad.key))
    {
      var outcome;
      ghost var t;
      outcome, t := store.Commit(ad.key, ad.hash, records);
      ghost var lost := outcome.IoError? && PayloadInPlace(t.stage);
      ok := outcome.Committed?;
      persist := if ok then Stored else CommitRaised(lost);
      CacheFollowsView(cfg, store.cfg, cache, ad, records, outcome, lost, persist);
      cache := CacheWith(cfg, cache, ad, records, persist);
      w := if outcome == UnsafeKeyError then NoWrite else Write.Write(t.c.generation, t.tmp, t.mtmp, t.stage);
    }

    /** The commit alone, as a change of the state. */
    method Persist(ad: Admitted, records: Records) returns (ok: bool, ghost persist: Persist)
      requires Linked() && Wired(cfg, store.cfg)
      modifies this`cache, store, store.disk
      ensures Linked() && ok == persist.Stored?
      ensures cache == CacheWith(cfg, old(cache), ad, records, persist)
      ensures OnceAtMost(old(store.disk.faults), store.disk.faults, ok || !IsSafeKey(ad.key))
    {
      ghost var w;
      ok, persist, w := CommitToStore(ad, records);
    }

    /** The commit returned and is counted, or raised and ends the run. */
    method Report(ad: Admitted, ok: bool)
      modifies this`committed, this`stop, this`hist
      ensures Snapshot() == Reported(old(Snapshot()), ad, ok)
    {
      if ok {
        committed := committed + 1;
        hist := hist.(committedLog := hist.committedLog + [ad]);
      } else {
        stop := Some(StoreRaised);
      }
    }

    /** A result committed and counted, or the exception store.commit raised. */
    method CommitResult(ad: Admitted, records: Records) returns (ghost persist: Persist)
      requires Linked() && Wired(cfg, store.cfg)
      modifies this`cache, this`committed, this`stop, this`hist, store, store.disk
      ensures Linked()
      ensures Snapshot() == Persisted(cfg, old(Snapshot()), ad, records, persist)
      ensures OnceAtMost(old(store.disk.faults), store.disk.faults, persist.Stored? || !IsSafeKey(ad.key))
    {
      var ok;
      ok, persist := Persist(ad, records);
      Report(ad, ok);
    }

    // -------------------------------------------------------------- events

    /** Record an event the object has just gone through. */
    ghost method Record(e: Event, before: State)
      requires Possible(cfg, start, trace) && before == Replay(cfg, start, trace)
      requires Enabled(cfg, before, e) && Snapshot() == Step(cfg, before, e)
      modifies this`trace
      ensures OnTrack() && trace == old(trace) + [e]
    {
      TraceSnoc(cfg, start, trace, e);
      trace := trace + [e];
    }

    /** One item off the ready queue: skipped if the store has its result, else submitted. */
    method DispatchNext() returns (ghost lookup: Lookup)
      requires Valid() && stop.None? && ready != [] && |inflight| < MaxWorkers(cfg)
      modifies this`ready, this`inflight, this`attempts, this`resumed, this`stop, this`hist, this`trace
      ensures Valid() && |ready| == |old(ready)| - 1
      ensures trace == old(trace) + [Dispatch(lookup)]
      ensures var ad := old(ready)[0];
        lookup == HasRaised <==> Refuses(store.cfg, store.entries, store.disk.files, ad.key, ad.hash)
    {
      ghost var before := Snapshot();
      lookup := AskAndTake();
      RecordDispatch(lookup, before);
    }

    method AskAndTake() returns (ghost lookup: Lookup)
      requires Linked() && ready != []
      modifies this`ready, this`inflight, this`attempts, this`resumed, this`stop, this`hist
      ensures LookupAgrees(old(Snapshot()).cache, old(Snapshot()).ready[0], lookup)
      ensures var ad := old(Snapshot()).ready[0];
        lookup == HasRaised <==> Refuses(store.cfg, store.entries, store.disk.files, ad.key, ad.hash)
      ensures Snapshot() == AfterDispatch(old(Snapshot()), lookup)
      ensures |ready| == |old(ready)| - 1
    {
      var answer := AskNext();
      lookup := answer;
      TakeNext(answer);
    }

    ghost method RecordDispatch(lookup: Lookup, before: State)
      requires Possible(cfg, start, trace) && before == Replay(cfg, start, trace)
      requires before.stop.None? && before.ready != [] && |before.inflight| < MaxWorkers(cfg)
      requires LookupAgrees(before.cache, before.ready[0], lookup) && Snapshot() == AfterDispatch(before, lookup)
      requires Quiet(beganEmpty, trace, store.entries) && store.disk.faults == faultsBefore
      requires lookup == HasRaised ==>
        Refuses(store.cfg, store.entries, store.disk.files, before.ready[0].key, before.ready[0].hash)
      modifies this`trace
      ensures OnTrack() && trace == old(trace) + [Dispatch(lookup)] && Explained()
    {
      QuietSnoc(beganEmpty, trace, Dispatch(lookup), store.entries, store.entries);
      LookupIsExcused(cfg, store.cfg, start, trace, lookup, store.entries, store.disk.files, faultsBefore, before,
                      Snapshot());
      Record(Dispatch(lookup), before);
    }

    method AskNext() returns (lookup: Lookup)
      requires Linked() && ready != []
      ensures LookupAgrees(cache, ready[0], lookup)
      ensures lookup == HasRaised <==>
        Refuses(store.cfg, store.entries, store.disk.files, ready[0].key, ready[0].hash)
    {
      lookup := AskStore(ready[0]);
    }

    method TakeNext(lookup: Lookup)
      requires ready != []
      modifies this`ready, this`inflight, this`attempts, this`resumed, this`stop, this`hist
      ensures Snapshot() == AfterDispatch(old(Snapshot()), lookup)
      ensures |ready| == |old(ready)| - 1
    {
      match lookup {
        case Hit => SkipNext();
        case Miss => SubmitNext();
        case HasRaised =>
          ready := ready[1..];
          stop := Some(StoreRaised);
      }
    }

    /** Already a committed leaf: no execution. */
    method SkipNext()
      requires ready != []
      modifies this`ready, this`resumed, this`hist
      ensures Snapshot() == AfterDispatch(old(Snapshot()), Hit)
    {
      hist := hist.(resumedLog := hist.resumedLog + [ready[0]]);
      ready := ready[1..];
      resumed := resumed + 1;
    }

    /** pool.submit. */
    method SubmitNext()
      requires ready != []
      modifies this`ready, this`inflight, this`attempts, this`hist
      ensures Snapshot() == AfterDispatch(old(Snapshot()), Miss)
    {
      var ad := StartNext();
      CountRun(ad.key);
    }

    method StartNext() returns (ad: Admitted)
      requires ready != []
      modifies this`ready, this`inflight
      ensures ad == old(ready)[0] && ready == old(ready)[1..] && inflight == old(inflight) + [ad]
    {
      ad := ready[0];
      ready := ready[1..];
      inflight := inflight + [ad];
    }

    method CountRun(key: string)
      modifies this`attempts, this`hist
      ensures attempts == old(attempts) + 1
      ensures hist == old(hist).(runs := old(hist).runs[key := RunsOf(old(hist), key) + 1])
    {
      attempts := attempts + 1;
      hist := hist.(runs := hist.runs[key := RunsOf(hist, key) + 1]);
    }

    /** Fill the free workers from the ready queue. */
    method DispatchReady()
      requires Valid()
      modifies this`ready, this`inflight, this`attempts, this`resumed, this`stop, this`hist, this`trace
      ensures Valid() && DispatchesTo(cfg, start, old(trace), trace)
      ensures stop.Some? || ready == [] || (|inflight| >= 1 && |inflight| >= cfg.concurrency)
    {
      while stop.None? && ready != [] && |inflight| < MaxWorkers(cfg)
        invariant Valid() && OnlyDispatches(old(trace), trace)
        decreases |ready|
      {
        ghost var soFar := trace;
        ghost var lookup := DispatchNext();
        OneMoreDispatch(old(trace), soFar, lookup);
      }
    }

    /** inflight.pop(fut). */
    method Take(i: nat) returns (ad: Admitted)
      requires i < |inflight|
      modifies this`inflight
      ensures ad == old(inflight)[i] && Snapshot() == Taken(old(Snapshot()), i)
    {
      ad := inflight[i];
      inflight := inflight[..i] + inflight[i + 1..];
    }

    /** One future that returned a result. */
    method Finished(i: nat, records: Records) returns (ghost persist: Persist)
      requires Valid() && stop.None? && i < |inflight|
      modifies this`inflight, this`cache, this`committed, this`stop, this`hist, this`trace, store, store.disk
      ensures Valid() && trace == old(trace) + [Finish(i, records, persist)]
    {
      ghost var before := Snapshot();
      persist := TakeAndCommit(i, records);
      RecordFinish(i, records, persist, before, old(store.entries), old(store.disk.faults));
    }

    ghost method RecordFinish(i: nat, records: Records, persist: Persist, before: State, entries: Entries,
          faults: seq<Fault>)
      requires Possible(cfg, start, trace) && before == Replay(cfg, start, trace)
      requires before.stop.None? && i < |before.inflight|
      requires Snapshot() == AfterFinish(cfg, before, i, records, persist)
      requires Quiet(beganEmpty, trace, entries) && faults == faultsBefore
      requires OnceAtMost(faults, store.disk.faults, persist.Stored? || !IsSafeKey(before.inflight[i].key))
      modifies this`trace
      ensures OnTrack() && trace == old(trace) + [Finish(i, records, persist)] && Explained()
    {
      QuietSnoc(beganEmpty, trace, Finish(i, records, persist), entries, store.entries);
      CommitIsExcused(cfg, store.cfg, start, trace, i, records, persist, store.entries, store.disk.files, faults,
                      store.disk.faults, before, Snapshot());
      Record(Finish(i, records, persist), before);
    }

    method TakeAndCommit(i: nat, records: Records) returns (ghost persist: Persist)
      requires Linked() && Wired(cfg, store.cfg) && i < |inflight|
      modifies this`inflight, this`cache, this`committed, this`stop, this`hist, store, store.disk
      ensures Linked()
      ensures Snapshot() == AfterFinish(cfg, old(Snapshot()), i, records, persist)
      ensures OnceAtMost(old(store.disk.faults), store.disk.faults, persist.Stored? || !IsSafeKey(old(inflight)[i].key))
    {
      var ad := Take(i);
      persist := CommitResult(ad, records);
    }

    /** One future that raised. */
    method Failed(i: nat, exn: Exn, now: real, draw: real)
      requires Valid() && stop.None? && i < |inflight|
      modifies this`inflight, this`ready, this`live, this`terminal, this`terminalHash, this`splits, this`stop, this`hist,
               this`delayed, this`transient, this`seqNo, this`retries, this`trace
      ensures Valid() && trace == old(trace) + [Fail(i, exn, now, draw)]
    {
      ghost var before := Snapshot();
      TakeAndRoute(i, exn, now, draw);
      FailureIsNoStores(cfg, before, i, exn, now, draw, Snapshot());
      QuietSnoc(beganEmpty, trace, Fail(i, exn, now, draw), store.entries, store.entries);
      Record(Fail(i, exn, now, draw), before);
    }

    method TakeAndRoute(i: nat, exn: Exn, now: real, draw: real)
      requires i < |inflight|
      modifies this`inflight, this`ready, this`live, this`terminal, this`terminalHash, this`splits, this`stop, this`hist,
               this`delayed, this`transient, this`seqNo, this`retries
      ensures Snapshot() == AfterFail(cfg, old(Snapshot()), i, exn, now, draw)
    {
      var ad := Take(i);
      RouteException(ad, exn, now, draw);
    }

    /** The next of the futures the wait returned. */
    method CompleteNext(done: seq<Done>, i: nat, ghost before: seq<Event>)
      requires Valid() && stop.None? && i < |done| && CompletesTo(cfg, start, before, done[..i], trace)
      modifies this, store, store.disk
      ensures Valid() && start == old(start) && CompletesTo(cfg, start, before, done[..i + 1], trace)
    {
      CompleteOne(done[i]);
      OneMoreDone(cfg, start, before, done, i, old(trace), trace);
    }

    /** One future the wait returned. */
    method CompleteOne(done: Done)
      requires Valid() && stop.None?
      modifies this, store, store.disk
      ensures Valid() && start == old(start) && Completes(cfg, start, old(trace), done, trace)
    {
      if done.who < |inflight| {
        match done.how {
          case Result(records) => ghost var persist := Finished(done.who, records);
          case Error(exn, now, draw) => Failed(done.who, exn, now, draw);
        }
      }
    }

    /** Every future the wait returned, up to one that makes the run raise. */
    method CompleteAll(done: seq<Done>) returns (ghost n: nat)
      requires Valid() && stop.None?
      modifies this, store, store.disk
      ensures Valid() && start == old(start)
      ensures n <= |done| && (n < |done| ==> stop.Some?)
      ensures CompletesTo(cfg, start, old(trace), done[..n], trace)
    {
      var i := 0;
      ghost var begin, before := start, trace;
      NoneDone(cfg, begin, before);
      while i < |done| && stop.None?
        invariant 0 <= i <= |done|
        invariant Valid() && start == begin && CompletesTo(cfg, begin, before, done[..i], trace)
      {
        CompleteNext(done, i, before);
        i := i + 1;
      }
      n := i;
    }

    /** _promote_matured. */
    method PromoteMatured(now: real)
      requires OnTrack() && Explained() && stop != Some(StoreRaised)
      modifies this`ready, this`delayed, this`trace
      ensures OnTrack() && Explained() && trace == old(trace) + [Promote(now)]
    {
      ghost var before := Snapshot();
      PopMatured(now);
      QuietSnoc(beganEmpty, trace, Promote(now), store.entries, store.entries);
      Record(Promote(now), before);
    }

    method PopMatured(now: real)
      modifies this`ready, this`delayed
      ensures Snapshot() == AfterPromote(old(Snapshot()), now)
    {
      ghost var heap, queue, n := delayed, ready, 0;
      while delayed != [] && delayed[0].readyAt <= now
        invariant n <= |heap| && delayed == heap[n..] && ready == queue + Ads(heap[..n])
        invariant forall i | 0 <= i < n :: heap[i].readyAt <= now
        decreases |delayed|
      {
        assert Ads(heap[..n + 1]) == Ads(heap[..n]) + [heap[n].ad];
        ready := ready + [delayed[0].ad];
        delayed := delayed[1..];
        n := n + 1;
      }
      MaturedIs(heap, now, n);
    }

    /** The part of one turn of the loop that follows the dispatching. */
    method PlayRound(round: Round)
      requires Valid() && stop.None?
      modifies this, store, store.disk
      ensures Valid() && start == old(start) && PlaysTo(cfg, start, old(trace), round, trace)
    {
      if inflight != [] {
        ghost var n := CompleteAll(round.done);
        ghost var middle := trace;
        var left := stop.Some? && (stop.value.StoreRaised? || stop.value.KeyCollision?);
        if !left {
          PromoteMatured(round.clock);
        }
        assert PlaysVia(cfg, start, old(trace), round, n, middle, trace);
      } else if delayed != [] {
        PromoteMatured(round.clock);
      }
    }

    /** One turn of the loop. */
    method OneTurn(round: Round)
      requires Valid() && stop.None?
      modifies this, store, store.disk
      ensures Valid() && start == old(start) && TurnsTo(cfg, start, old(trace), round, trace)
    {
      DispatchReady();
      ghost var middle := trace;
      if stop.None? {
        PlayRound(round);
      }
      assert TurnsVia(cfg, start, old(trace), round, middle, trace);
    }

    method NextTurn(rounds: seq<Round>, t: nat, ghost before: seq<Event>)
      requires Valid() && stop.None? && Busy(Snapshot())
      requires t < |rounds| && LoopsTo(cfg, start, before, rounds[..t], trace)
      modifies this, store, store.disk
      ensures Valid() && start == old(start) && LoopsTo(cfg, start, before, rounds[..t + 1], trace)
    {
      OneTurn(rounds[t]);
      OneMoreTurn(cfg, start, before, rounds, t, old(trace), trace);
    }

    /** The main loop, for as many rounds as the environment plays: it stops early only with
        an exception or with nothing left to do. */
    method MainLoop(rounds: seq<Round>) returns (ghost n: nat)
      requires Valid()
      modifies this, store, store.disk
      ensures Valid() && start == old(start)
      ensures n <= |rounds| && (n < |rounds| ==> stop.Some? || !Busy(Snapshot()))
      ensures LoopsTo(cfg, start, old(trace), rounds[..n], trace)
    {
      var t := 0;
      ghost var begin, before := start, trace;
      NoTurn(cfg, begin, before);
      while t < |rounds| && stop.None? && (ready != [] || delayed != [] || inflight != [])
        invariant 0 <= t <= |rounds|
        invariant Valid() && start == begin && LoopsTo(cfg, begin, before, rounds[..t], trace)
      {
        NextTurn(rounds, t, before);
        t := t + 1;
      }
      n := t;
    }
  }
}
