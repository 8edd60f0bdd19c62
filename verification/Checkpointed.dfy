/** run_checkpointed from its arguments to its return value. */
module Checkpointed {
  import opened Wrappers
  import opened KeyOrder
  import opened Jsonl
  import opened Work
  import Store
  import opened StoreObject
  import opened Scheduler
  import opened Transparency
  import opened Engine
  import Accounting
  import Counters

  // ---------------------------------------------------------------- combine modes

  /** combine over the list of results, or reduce and finalize over one result at a time. */
  datatype Combining<!A, !O> = Combining(
    combine: Option<seq<Records> -> O>,
    reduce: Option<(A, Records) -> A>,
    finalize: Option<A -> O>,
    initial: A)

  /** Exactly one of the two modes, and that one complete. */
  predicate OneMode<A, O>(args: Combining<A, O>) {
    if args.combine.Some? then args.reduce.None? && args.finalize.None?
    else args.reduce.Some? && args.finalize.Some?
  }

  /** accs are the accumulators of folding the results one after the other. */
  ghost predicate Chain<A(!new)>(reduce: (A, Records) -> A, initial: A, results: seq<Records>, accs: seq<A>) {
    && |accs| == |results| + 1 && accs[0] == initial
    && forall i | 0 <= i < |results| :: accs[i + 1] == reduce(accs[i], results[i])
  }

  /** What the caller gets for the leaf results in key order. */
  ghost predicate Produces<A(!new), O>(args: Combining<A, O>, results: seq<Records>, frame: O) {
    if args.combine.Some? then frame == args.combine.value(results)
    else
      && args.reduce.Some? && args.finalize.Some?
      && exists accs :: Chain(args.reduce.value, args.initial, results, accs)
           && frame == args.finalize.value(accs[|results|])
  }

  /** One more accumulator. */
  lemma ChainSnoc<A(!new)>(reduce: (A, Records) -> A, initial: A, results: seq<Records>, accs: seq<A>, last: Records)
    requires Chain(reduce, initial, results, accs)
    ensures Chain(reduce, initial, results + [last], accs + [reduce(accs[|results|], last)])
  {}

  /** The mode check run_checkpointed makes first. */
  method CheckModes<A, O>(args: Combining<A, O>) returns (ok: bool)
    ensures ok <==> OneMode(args)
  {
    var hasCombine := args.combine.Some?;
    var hasReduce := args.reduce.Some? || args.finalize.Some?;
    if hasCombine == hasReduce {
      return false;
    }
    if hasReduce && (args.reduce.None? || args.finalize.None?) {
      return false;
    }
    ok := true;
  }

  /** iter_results folded: one result in memory at a time. */
  method FoldResults<A(!new)>(store: JsonlStore, expected: map<string, string>, reduce: (A, Records) -> A, initial: A)
    returns (r: Option<A>, ghost results: seq<Records>, ghost accs: seq<A>)
    ensures r.Some? <==> Answers(store.CurrentView(), expected)
    ensures r.Some? ==> Lists(store.CurrentView(), SortedKeys(expected.Keys), results)
    ensures r.Some? ==> Chain(reduce, initial, results, accs) && r.value == accs[|results|]
  {
    var keys := SortedKeys(expected.Keys);
    ghost var view := store.CurrentView();
    var acc := initial;
    results, accs := [], [initial];
    var i := 0;
    while i < |keys|
      invariant 0 <= i <= |keys| && AnswersPrefix(view, expected, keys, i)
      invariant results == InKeyOrder(view, keys[..i])
      invariant Chain(reduce, initial, results, accs) && acc == accs[|results|]
    {
      var loaded := store.Load(keys[i], expected[keys[i]]);
      if loaded.Failure? {
        OneRefused(view, expected, keys[i]);
        return None, results, accs;
      }
      LoadedOneMore(view, expected, keys, i);
      ChainSnoc(reduce, initial, results, accs, loaded.value);
      acc := reduce(acc, loaded.value);
      results, accs := results + [loaded.value], accs + [acc];
      i := i + 1;
    }
    LoadedInOrder(view, expected, keys, results);
    r := Some(acc);
  }

  /** The stitch at the end of a run; None if the store refuses one of the keys. results are
      the results of the keys in ascending order, accs the accumulators of folding them. */
  method Stitch<A(!new), O>(store: JsonlStore, expected: map<string, string>, args: Combining<A, O>)
    returns (r: Option<O>, ghost results: seq<Records>, ghost accs: seq<A>)
    requires OneMode(args)
    ensures r.Some? <==> Answers(store.CurrentView(), expected)
    ensures r.Some? ==> Lists(store.CurrentView(), SortedKeys(expected.Keys), results)
    ensures r.Some? && args.combine.Some? ==> r.value == args.combine.value(results)
    ensures r.Some? && args.combine.None? ==>
      Chain(args.reduce.value, args.initial, results, accs) && r.value == args.finalize.value(accs[|results|])
  {
    if args.combine.Some? {
      var loaded := store.LoadAll(expected);
      r := if loaded.Success? then Some(args.combine.value(loaded.value)) else None;
      results, accs := if loaded.Success? then loaded.value else [], [];
    } else {
      var folded;
      folded, results, accs := FoldResults(store, expected, args.reduce.value, args.initial);
      r := if folded.Some? then Some(args.finalize.value(folded.value)) else None;
    }
  }

  // ---------------------------------------------------------------- a whole call

  datatype CheckpointResult<+O> = CheckpointResult(
    frame: O, attempts: nat, committedKeys: nat, resumedKeys: nat, transientRetries: nat, splits: nat)

  /** How a call ended; StillWaiting if the environment stopped playing before the work was done. */
  datatype Ending<+O> =
    | BadArguments
    | Raised(failure: Failure)
    | Returned(result: CheckpointResult<O>)
    | StillWaiting

  /** The call's ending, read off the scheduler state it reached. */
  ghost predicate EndsAs<A(!new), O>(args: Combining<A, O>, s: State, r: Ending<O>) {
    match r
    case BadArguments => !OneMode(args)
    case StillWaiting => s.stop.None? && Busy(s)
    case Raised(failure) =>
      || s.stop == Some(failure)
      || (Finished(s) && !Answers(s.cache, s.terminalHash) && failure == StoreRaised)
    case Returned(result) =>
      && OneMode(args) && Finished(s) && Answers(s.cache, s.terminalHash) && Produces(args, Stitched(s), result.frame)
      && result == CheckpointResult(result.frame, s.attempts, s.committed, s.resumed, s.retries, s.splits)
  }

  /** A call follows the scheduler from the state its arguments and the store give. */
  ghost predicate Follows<A(!new), O>(cfg: Config, args: Combining<A, O>, start: State, trace: seq<Event>,
        after: map<string, Store.Cached>, r: Ending<O>)
  {
    && Possible(cfg, start, trace)
    && Replay(cfg, start, trace).cache == after
    && EndsAs(args, Replay(cfg, start, trace), r)
  }

  /** The trace is what the loop makes of the environment's rounds, all of them if the call
      is still waiting. */
  ghost predicate PlayedOut<O>(cfg: Config, start: State, rounds: seq<Round>, trace: seq<Event>, r: Ending<O>) {
    exists n :: 0 <= n <= |rounds| && LoopsTo(cfg, start, [], rounds[..n], trace) && (r.StillWaiting? ==> n == |rounds|)
  }

  /** run_checkpointed: validate the modes, admit the roots, run the loop, raise or stitch. */
  method RunCheckpointed<A(!new), O>(cfg: Config, store: JsonlStore, items: seq<Item>, args: Combining<A, O>,
        rounds: seq<Round>)
    returns (r: Ending<O>, ghost trace: seq<Event>)
    requires store.Valid() && Wired(cfg, store.cfg)
    modifies store, store.disk
    ensures store.Valid()
    ensures r.BadArguments? <==> !OneMode(args)
    ensures r.BadArguments? ==> unchanged(store) && unchanged(store.disk)
    ensures !r.BadArguments? ==>
      && Follows(cfg, args, Start(cfg, items, old(store.CurrentView())), trace, store.CurrentView(), r)
      && PlayedOut(cfg, Start(cfg, items, old(store.CurrentView())), rounds, trace, r)
    ensures !r.BadArguments? ==>
      var start := Start(cfg, items, old(store.CurrentView()));
      Accounted(cfg, store.cfg, start, trace, Replay(cfg, start, trace).stop, store.entries, store.disk.files,
                old(store.disk.faults), store.disk.faults)
    ensures old(store.entries) == map[] ==>
      forall i | 0 <= i < |trace| && trace[i] == Dispatch(HasRaised) :: exists j | 0 <= j < i :: trace[j].Finish?
  {
    var ok := CheckModes(args);
    trace := [];
    if !ok {
      return BadArguments, trace;
    }
    var run := new Run(cfg, store);
    run.AdmitRoots(items);
    ghost var n := run.MainLoop(rounds);
    trace := run.trace;
    if run.beganEmpty { CommitsComeFirst(trace); }
    r := Conclude(run, args);
    assert LoopsTo(cfg, run.start, [], rounds[..n], trace);
  }

  /** After the loop: re-raise the fatal exception, or stitch the terminal leaves. */
  method Conclude<A(!new), O>(run: Run, args: Combining<A, O>) returns (r: Ending<O>)
    requires run.Linked() && OneMode(args)
    ensures !r.BadArguments? && EndsAs(args, run.Snapshot(), r)
  {
    if run.stop.Some? {
      r := Raised(run.stop.value);
    } else if run.ready != [] || run.delayed != [] || run.inflight != [] {
      r := StillWaiting;
    } else {
      var stitched;
      ghost var results, accs;
      stitched, results, accs := Stitch(run.store, run.terminalHash, args);
      if stitched.Some? {
        StitchedIs(args, run.Snapshot(), results, accs, stitched.value);
        r := Returned(CheckpointResult(stitched.value, run.attempts, run.committed, run.resumed, run.retries, run.splits));
      } else {
        r := Raised(StoreRaised);
      }
    }
  }

  lemma StitchedIs<A(!new), O>(args: Combining<A, O>, s: State, results: seq<Records>, accs: seq<A>, frame: O)
    requires OneMode(args) && Answers(s.cache, s.terminalHash)
    requires Lists(s.cache, SortedKeys(s.terminalHash.Keys), results)
    requires args.combine.Some? ==> frame == args.combine.value(results)
    requires args.combine.None? ==>
      Chain(args.reduce.value, args.initial, results, accs) && frame == args.finalize.value(accs[|results|])
    ensures Produces(args, Stitched(s), frame)
  {
    var keys := SortedKeys(s.terminalHash.Keys);
    assert forall k | k in keys :: AnswersKey(s.cache, s.terminalHash, k);
    InKeyOrderLists(s.cache, keys);
    assert results == Stitched(s);
  }

  // ---------------------------------------------------------------- what a call returns

  /** results lists, key by key, what the leaf of each key yields. */
  ghost predicate LeafResults(outcome: Item -> Outcome, leaves: seq<Admitted>, keys: seq<string>,
        results: seq<Records>)
  {
    |results| == |keys| && forall i | 0 <= i < |keys| :: IsResultOf(outcome, leaves, keys[i], results[i])
  }

  ghost predicate IsResultOf(outcome: Item -> Outcome, leaves: seq<Admitted>, key: string, records: Records) {
    exists a :: a in leaves && a.key == key && outcome(a.item) == Yields(records)
  }

  lemma {:induction false} ResultIsLeafs(outcome: Item -> Outcome, leaves: seq<Admitted>, key: string,
        records: Records)
    requires ResultOf(outcome, leaves, key) == Some(records)
    ensures IsResultOf(outcome, leaves, key, records)
  {
    if leaves[0].key == key && outcome(leaves[0].item).Yields? {
      assert leaves[0] in leaves;
    } else {
      ResultIsLeafs(outcome, leaves[1..], key, records);
      var a :| a in leaves[1..] && a.key == key && outcome(a.item) == Yields(records);
      assert a in leaves;
    }
  }

  lemma ResultsAreLeafs(outcome: Item -> Outcome, leaves: seq<Admitted>, keys: seq<string>, results: seq<Records>)
    requires SameResults(results, Results(outcome, leaves, keys))
    ensures LeafResults(outcome, leaves, keys, results)
  {
    var all := Results(outcome, leaves, keys);
    assert |all| == |keys|;
    forall i | 0 <= i < |keys| ensures IsResultOf(outcome, leaves, keys[i], results[i]) {
      assert Results(outcome, leaves, keys)[i] == Some(results[i]);
      ResultIsLeafs(outcome, leaves, keys[i], results[i]);
    }
  }

  /** Any call that returns, returns what an uncached sequential evaluation would: the leaves of
      the split tree, their results in ascending key order, combined, or folded from the initial
      accumulator on. Its counters are the numbers of such events, and add up. */
  lemma CallIsTransparent<A(!new), O>(cfg: Config, outcome: Item -> Outcome, items: seq<Item>, args: Combining<A, O>,
        cache: map<string, Store.Cached>, trace: seq<Event>, after: map<string, Store.Cached>, r: Ending<O>)
    returns (results: seq<Records>)
    requires Follows(cfg, args, Start(cfg, items, cache), trace, after, r) && r.Returned?
    requires SoundCache(cfg, outcome, cache) && Faithful(cfg, outcome, Start(cfg, items, cache), trace)
    ensures var leaves := LeavesOfAll(cfg, outcome, items, 0);
      LeafResults(outcome, leaves, SortedKeys(Keys(leaves)), results)
    ensures args.combine.Some? ==> r.result.frame == args.combine.value(results)
    ensures args.combine.None? ==> args.reduce.Some? && args.finalize.Some? && exists accs: seq<A> ::
      && |accs| == |results| + 1 && accs[0] == args.initial
      && (forall i | 0 <= i < |results| :: accs[i + 1] == args.reduce.value(accs[i], results[i]))
      && r.result.frame == args.finalize.value(accs[|results|])
    ensures CountersAre(cfg, Start(cfg, items, cache), trace, r.result)
    ensures r.result.committedKeys + r.result.resumedKeys == |Keys(LeavesOfAll(cfg, outcome, items, 0))|
    ensures r.result.attempts == r.result.committedKeys + r.result.splits + r.result.transientRetries
  {
    var s, leaves := Replay(cfg, Start(cfg, items, cache), trace), LeavesOfAll(cfg, outcome, items, 0);
    RunIsTransparent(cfg, outcome, items, cache, trace);
    Accounting.FinishedExactlyOnce(cfg, items, cache, trace);
    Counters.CountersCount(cfg, items, cache, trace);
    results := Stitched(s);
    ResultsAreLeafs(outcome, leaves, SortedKeys(Keys(leaves)), results);
    FrameIs(args, results, r.result.frame);
  }

  /** Each returned counter is the number of events it is named after. */
  ghost predicate CountersAre<O>(cfg: Config, start: State, trace: seq<Event>, result: CheckpointResult<O>) {
    && result.attempts == Counters.Count(cfg, start, trace, Counters.Executed)
    && result.committedKeys == Counters.Count(cfg, start, trace, Counters.Committed)
    && result.resumedKeys == Counters.Count(cfg, start, trace, Counters.Resumed)
    && result.transientRetries == Counters.Count(cfg, start, trace, Counters.Retried)
    && result.splits == Counters.Count(cfg, start, trace, Counters.SplitUp)
  }

  lemma FrameIs<A(!new), O>(args: Combining<A, O>, results: seq<Records>, frame: O)
    requires Produces(args, results, frame)
    ensures args.combine.Some? ==> frame == args.combine.value(results)
    ensures args.combine.None? ==> args.reduce.Some? && args.finalize.Some? && exists accs: seq<A> ::
      && |accs| == |results| + 1 && accs[0] == args.initial
      && (forall i | 0 <= i < |results| :: accs[i + 1] == args.reduce.value(accs[i], results[i]))
      && frame == args.finalize.value(accs[|results|])
  {}

  // ---------------------------------------------------------------- the hypotheses can be met

  /** The shortest run: one item, executed and committed. */
  function ShortTrace(records: Records): seq<Event> {
    [] + [Dispatch(Miss)] + [Finish(0, records, Stored)]
  }

  lemma FirstStep(cfg: Config, item: Item, start: State)
    requires start == Start(cfg, [item], map[])
    ensures var ad := Admit(cfg, item, 0);
      && start.ready == [ad] && start.delayed == [] && start.inflight == [] && start.stop.None? && start.cache == map[]
      && Enabled(cfg, start, Dispatch(Miss))
      && var s := Step(cfg, start, Dispatch(Miss));
         s.ready == [] && s.delayed == [] && s.inflight == [ad] && s.stop.None?
  {
    var ad := Admit(cfg, item, 0);
    assert AdmitAll(cfg, [item][1..], 0, map[ad.key := ad.hash]) == Admission(map[ad.key := ad.hash], [], true);
    assert AdmitAll(cfg, [item], 0, map[]) == Admission(map[ad.key := ad.hash], [ad] + [], true);
  }

  /** What the statements about finished runs assume does happen: for any configuration, any
      item that yields, and an empty cache. */
  lemma SomeRunFinishes(cfg: Config, outcome: Item -> Outcome, item: Item, records: Records)
    requires outcome(item) == Yields(records)
    ensures var start, trace := Start(cfg, [item], map[]), ShortTrace(records);
      && SoundCache(cfg, outcome, map[]) && Possible(cfg, start, trace) && Faithful(cfg, outcome, start, trace)
      && Scheduler.Finished(Replay(cfg, start, trace))
  {
    var start := Start(cfg, [item], map[]);
    var first, last: Event := Dispatch(Miss), Finish(0, records, Stored);
    FirstStep(cfg, item, start);
    TraceSnoc(cfg, start, [], first);
    TraceSnoc(cfg, start, [] + [first], last);
    FaithfulSnoc(cfg, outcome, start, [], first);
    FaithfulSnoc(cfg, outcome, start, [] + [first], last);
  }

  lemma FaithfulSnoc(cfg: Config, outcome: Item -> Outcome, start: State, trace: seq<Event>, e: Event)
    ensures Faithful(cfg, outcome, start, trace + [e]) <==>
      Faithful(cfg, outcome, start, trace) && Obeys(cfg, outcome, Replay(cfg, start, trace), e)
  {
    assert (trace + [e])[..|trace + [e]| - 1] == trace;
  }
}
