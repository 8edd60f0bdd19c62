/** What a run comes to: in a fair environment it ends, and if no exception ends it, with the
    output of a sequential uncached evaluation. */
module TotalCorrectness {
  import opened Work
  import Store
  import opened Scheduler
  import opened Transparency
  import opened Termination
  import Checkpointed
  import Engine

  /** The first n events of an endless run. */
  function Prefix(events: nat -> Event, n: nat): seq<Event> {
    if n == 0 then [] else Prefix(events, n - 1) + [events(n - 1)]
  }

  /** Every completion in it is one the items' outcomes allow. */
  ghost predicate AlwaysObeys(cfg: Config, outcome: Item -> Outcome, run: nat -> State, events: nat -> Event) {
    forall i: nat :: Obeys(cfg, outcome, run(i), events(i))
  }

  ghost predicate Reaches(cfg: Config, outcome: Item -> Outcome, start: State, trace: seq<Event>, s: State) {
    Possible(cfg, start, trace) && Faithful(cfg, outcome, start, trace) && Replay(cfg, start, trace) == s
  }

  lemma ReachesOn(cfg: Config, outcome: Item -> Outcome, start: State, trace: seq<Event>, s: State, e: Event, s': State)
    requires Reaches(cfg, outcome, start, trace, s) && Enabled(cfg, s, e) && Obeys(cfg, outcome, s, e)
    requires s' == Step(cfg, s, e)
    ensures Reaches(cfg, outcome, start, trace + [e], s')
  {
    Engine.TraceSnoc(cfg, start, trace, e);
    Checkpointed.FaithfulSnoc(cfg, outcome, start, trace, e);
  }

  lemma EndlessStep(cfg: Config, items: seq<Item>, cache: map<string, Store.Cached>, run: nat -> State,
        events: nat -> Event, i: nat)
    requires Endless(cfg, items, cache, run, events)
    ensures Enabled(cfg, run(i), events(i)) && run(i + 1) == Step(cfg, run(i), events(i))
  {}

  lemma {:induction false} PrefixHappens(cfg: Config, outcome: Item -> Outcome, items: seq<Item>,
        cache: map<string, Store.Cached>, run: nat -> State, events: nat -> Event, n: nat)
    requires Endless(cfg, items, cache, run, events) && AlwaysObeys(cfg, outcome, run, events)
    ensures Reaches(cfg, outcome, Start(cfg, items, cache), Prefix(events, n), run(n))
  {
    if n > 0 {
      PrefixHappens(cfg, outcome, items, cache, run, events, n - 1);
      EndlessStep(cfg, items, cache, run, events, n - 1);
      ReachesOn(cfg, outcome, Start(cfg, items, cache), Prefix(events, n - 1), run(n - 1), events(n - 1), run(n));
    }
  }

  ghost predicate ReturnsOrRaises(cfg: Config, outcome: Item -> Outcome, items: seq<Item>, run: nat -> State, n: nat) {
    EndedFrom(run, n) && (run(n).stop.None? ==> Stitches(cfg, outcome, LeavesOfAll(cfg, outcome, items, 0), run(n)))
  }

  /** In a fair environment every run over a sound cache ends, with an exception or with
      exactly the leaves of the split tree stitched with their results. */
  lemma FairRunsReturnOrRaise(cfg: Config, outcome: Item -> Outcome, items: seq<Item>, cache: map<string, Store.Cached>,
        run: nat -> State, events: nat -> Event)
    requires Endless(cfg, items, cache, run, events) && Fair(cfg, run, events)
    requires AlwaysObeys(cfg, outcome, run, events) && SoundCache(cfg, outcome, cache)
    ensures exists n :: ReturnsOrRaises(cfg, outcome, items, run, n)
  {
    FairRunsEnd(cfg, items, cache, run, events);
    var n :| EndedFrom(run, n);
    PrefixHappens(cfg, outcome, items, cache, run, events, n);
    assert Ended(run(n));
    if run(n).stop.None? {
      RunIsTransparent(cfg, outcome, items, cache, Prefix(events, n));
    }
    assert ReturnsOrRaises(cfg, outcome, items, run, n);
  }
}
