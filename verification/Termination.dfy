/** No run executes forever. Splitting creates work, any finite amount of it, but always one
    level deeper; so the remaining tries of the pending items, listed by depth, fall
    lexicographically at every completion. */
module Termination {
  import Jsonl
  import opened Work
  import opened Store
  import opened Scheduler
  import opened Flow
  import opened Totals
  import opened Conservation
  import opened Retries
  import Accounting

  // ---------------------------------------------------------------- lexicographic descent

  ghost predicate LessAt(a: seq<nat>, b: seq<nat>, j: int) {
    |a| == |b| && 0 <= j < |a| && a[..j] == b[..j] && a[j] < b[j]
  }

  ghost predicate LexLess(a: seq<nat>, b: seq<nat>) {
    exists j :: LessAt(a, b, j)
  }

  ghost predicate NeverRises(v: nat -> seq<nat>) {
    forall i: nat :: v(i + 1) == v(i) || LexLess(v(i + 1), v(i))
  }

  ghost predicate SettledFrom(v: nat -> seq<nat>, n: nat) {
    forall i: nat | i >= n :: v(i) == v(n)
  }

  lemma HeadNeverRises(v: nat -> seq<nat>, i: nat, j: nat)
    requires NeverRises(v) && |v(0)| > 0 && forall i: nat :: |v(i)| == |v(0)|
    requires i <= j
    ensures v(j)[0] <= v(i)[0]
    decreases j
  {
    if i < j {
      HeadNeverRises(v, i, j - 1);
      assert v(j - 1 + 1) == v(j - 1) || LexLess(v(j - 1 + 1), v(j - 1));
      if LexLess(v(j), v(j - 1)) {
        var k :| LessAt(v(j), v(j - 1), k);
        if k > 0 { assert v(j)[0] == v(j)[..k][0] == v(j - 1)[..k][0]; }
      }
    }
  }

  /** From some point on the first component stays what it is. */
  lemma {:induction false} HeadSettles(v: nat -> seq<nat>, from: nat) returns (n: nat)
    requires NeverRises(v) && |v(0)| > 0 && forall i: nat :: |v(i)| == |v(0)|
    ensures n >= from && forall i: nat | i >= n :: v(i)[0] == v(n)[0]
    decreases v(from)[0]
  {
    if i: nat :| i >= from && v(i)[0] != v(from)[0] {
      HeadNeverRises(v, from, i);
      n := HeadSettles(v, i);
    } else {
      n := from;
    }
  }

  lemma LexTail(a: seq<nat>, b: seq<nat>)
    requires LexLess(a, b) && |a| == |b| > 0 && a[0] == b[0]
    ensures LexLess(a[1..], b[1..])
  {
    var k :| LessAt(a, b, k);
    assert k > 0;
    assert a[1..][..k - 1] == a[..k][1..] && b[1..][..k - 1] == b[..k][1..];
    assert LessAt(a[1..], b[1..], k - 1);
  }

  /** A sequence of vectors of one length that never rises lexicographically comes to rest. */
  lemma {:induction false} DescentEnds(v: nat -> seq<nat>) returns (n: nat)
    requires NeverRises(v) && forall i: nat :: |v(i)| == |v(0)|
    ensures SettledFrom(v, n)
    decreases |v(0)|
  {
    if |v(0)| == 0 {
      n := 0;
    } else {
      var m := HeadSettles(v, 0);
      var tails := (i: nat) => v(m + i)[1..];
      forall i: nat ensures tails(i + 1) == tails(i) || LexLess(tails(i + 1), tails(i)) {
        assert v(m + i + 1) == v(m + i) || LexLess(v(m + i + 1), v(m + i));
        if v(m + i + 1) != v(m + i) { LexTail(v(m + i + 1), v(m + i)); }
      }
      var k := DescentEnds(tails);
      n := m + k;
      forall i: nat | i >= n ensures v(i) == v(n) {
        assert tails(i - m) == tails(k);
        assert v(i) == [v(i)[0]] + v(i)[1..] && v(n) == [v(n)[0]] + v(n)[1..];
      }
    }
  }

  // ---------------------------------------------------------------- the measure

  function Remaining(cfg: Config, transient: map<string, nat>, key: string): nat {
    var used := if key in transient then transient[key] else 0;
    if used < MaxRuns(cfg) then MaxRuns(cfg) - used else 0
  }

  ghost function AtDepth(cfg: Config, transient: map<string, nat>, depth: nat): Admitted -> nat {
    (a: Admitted) => if a.depth == depth then Remaining(cfg, transient, a.key) else 0
  }

  /** Remaining tries of the given items, by split depth. */
  ghost function Profile(cfg: Config, transient: map<string, nat>, bag: Bag): seq<nat> {
    seq(DepthLimit(cfg) + 1, depth requires 0 <= depth => Total(AtDepth(cfg, transient, depth), bag))
  }

  ghost function Measure(cfg: Config, s: State): seq<nat> {
    Profile(cfg, s.transient, Pending(s))
  }

  /** An item that is done, or gives way to deeper ones, lowers the profile. */
  lemma ReplacingLowers(cfg: Config, transient: map<string, nat>, bag: Bag, ad: Admitted, deeper: Bag)
    requires ad in bag && ad.depth <= DepthLimit(cfg) && Remaining(cfg, transient, ad.key) > 0
    requires forall a | a in deeper :: a.depth > ad.depth
    ensures LexLess(Profile(cfg, transient, bag - multiset{ad} + deeper), Profile(cfg, transient, bag))
  {
    var before, after := Profile(cfg, transient, bag), Profile(cfg, transient, bag - multiset{ad} + deeper);
    forall depth: nat | depth <= ad.depth
      ensures after[depth] == before[depth] - if depth == ad.depth then Remaining(cfg, transient, ad.key) else 0
    {
      TotalReplace(AtDepth(cfg, transient, depth), bag, ad, deeper);
      TotalZero(AtDepth(cfg, transient, depth), deeper);
    }
    assert LessAt(after, before, ad.depth);
  }

  /** So does one more failed try of an item whose key no other pending item has. */
  lemma TryingLowers(cfg: Config, transient: map<string, nat>, bag: Bag, ad: Admitted, transient': map<string, nat>)
    requires ad in bag && bag[ad] == 1 && ad.depth <= DepthLimit(cfg)
    requires forall a | a in bag && a != ad :: a.key != ad.key
    requires Remaining(cfg, transient', ad.key) < Remaining(cfg, transient, ad.key)
    requires forall k | k != ad.key :: Remaining(cfg, transient', k) == Remaining(cfg, transient, k)
    ensures LexLess(Profile(cfg, transient', bag), Profile(cfg, transient, bag))
  {
    var before, after := Profile(cfg, transient, bag), Profile(cfg, transient', bag);
    forall depth: nat | depth <= ad.depth
      ensures if depth == ad.depth then after[depth] < before[depth] else after[depth] == before[depth]
    {
      var f, g := AtDepth(cfg, transient, depth), AtDepth(cfg, transient', depth);
      TotalTake(f, bag, ad);
      TotalTake(g, bag, ad);
      TotalAgree(f, g, bag - multiset{ad});
    }
    assert LessAt(after, before, ad.depth);
  }

  // ---------------------------------------------------------------- every step

  /** Items resumed, committed, split or put back so far. */
  function Completions(s: State): nat {
    s.resumed + s.committed + s.splits + s.retries
  }

  predicate SameCompletions(s: State, s': State) {
    Completions(s') == Completions(s) && s'.resumed == s.resumed
  }

  /** A step that does not stop the run: the measure falls, or nothing was completed. */
  ghost predicate Descends(cfg: Config, s: State, s': State) {
    || LexLess(Measure(cfg, s'), Measure(cfg, s))
    || (Measure(cfg, s') == Measure(cfg, s) && SameCompletions(s, s'))
  }

  ghost predicate Sound(cfg: Config, s: State) {
    s.stop.None? && Conserved(cfg, s) && Bounded(cfg, s)
  }

  lemma PendingHasTries(cfg: Config, s: State, ad: Admitted)
    requires Sound(cfg, s) && ad in Pending(s)
    ensures Remaining(cfg, s.transient, ad.key) > 0 && ad.depth <= DepthLimit(cfg)
  {
    assert RunsMatch(cfg, s, ad);
    assert ad in Frontier(s);
  }

  lemma GoneDescends(cfg: Config, s: State, ad: Admitted, deeper: Bag, s': State)
    requires Sound(cfg, s) && ad in Pending(s)
    requires Pending(s') == Pending(s) - multiset{ad} + deeper && s'.transient == s.transient
    requires forall a | a in deeper :: a.depth > ad.depth
    ensures Descends(cfg, s, s')
  {
    PendingHasTries(cfg, s, ad);
    ReplacingLowers(cfg, s.transient, Pending(s), ad, deeper);
  }

  lemma SameDescends(cfg: Config, s: State, s': State)
    requires Pending(s') == Pending(s) && s'.transient == s.transient && SameCompletions(s, s')
    ensures Descends(cfg, s, s')
  {}

  lemma DispatchDescends(cfg: Config, s: State, lookup: Lookup)
    requires Sound(cfg, s) && s.ready != []
    ensures Descends(cfg, s, AfterDispatch(s, lookup))
  {
    var s', ad := AfterDispatch(s, lookup), s.ready[0];
    if lookup.Miss? {
      assert Pending(s') == Pending(s) by { DispatchFlow(s, lookup); }
      SameDescends(cfg, s, s');
    } else {
      assert ad in Pending(s) && Pending(s') == Pending(s) - multiset{ad} + multiset{} by { DispatchFlow(s, lookup); }
      GoneDescends(cfg, s, ad, multiset{}, s');
    }
  }

  lemma FinishDescends(cfg: Config, s: State, i: nat, records: Jsonl.Records, persist: Persist)
    requires Sound(cfg, s) && i < |s.inflight|
    ensures Descends(cfg, s, AfterFinish(cfg, s, i, records, persist))
  {
    FinishFlow(cfg, s, i, records, persist);
    GoneDescends(cfg, s, s.inflight[i], multiset{}, AfterFinish(cfg, s, i, records, persist));
  }

  lemma ChildrenAreDeeper(cfg: Config, s: State, ad: Admitted, r: Admission)
    requires r == AdmitChildren(cfg, s, ad) && r.ok
    ensures forall a | a in BagOf(r.ads) :: a.depth > ad.depth
  {
    AdmissionFacts(cfg, Children(cfg, ad.item), ad.depth + 1, s.live);
    BagMembers(r.ads);
  }

  lemma SplitDescends(cfg: Config, s: State, i: nat, s': State)
    requires Sound(cfg, s) && i < |s.inflight| && s' == Split(cfg, Taken(s, i), s.inflight[i]) && s'.stop.None?
    ensures Descends(cfg, s, s')
  {
    var taken, ad := Taken(s, i), s.inflight[i];
    var r := AdmitChildren(cfg, taken, ad);
    assert SplitInto(cfg, taken, ad, r, s') by { SplitDoes(cfg, taken, ad); }
    assert s'.transient == s.transient by { SplitCases(cfg, taken, ad, r, s'); }
    assert forall a | a in BagOf(r.ads) :: a.depth > ad.depth by { ChildrenAreDeeper(cfg, taken, ad, r); }
    TakenFlow(s, i);
    GoneDescends(cfg, s, ad, BagOf(r.ads), s');
  }

  lemma TriedDescends(cfg: Config, s: State, ad: Admitted, s': State)
    requires Sound(cfg, s) && ad in Pending(s) && Pending(s') == Pending(s)
    requires s'.transient == s.transient[ad.key := TransientCount(s, ad.key) + 1]
    ensures Descends(cfg, s, s')
  {
    PendingHasTries(cfg, s, ad);
    assert ad in Frontier(s);
    assert Pending(s)[ad] == 1;
    forall a | a in Pending(s) && a != ad ensures a.key != ad.key { assert a in Frontier(s); }
    TryingLowers(cfg, s.transient, Pending(s), ad, s'.transient);
  }

  /** A retry leaves its item pending, with one more try used up. */
  lemma RetryInPlace(cfg: Config, s: State, i: nat, exn: Exn, now: real, delay: real, s': State)
    requires s.stop.None? && i < |s.inflight|
    requires s' == Retry(cfg, Taken(s, i), s.inflight[i], exn, now, delay) && s'.stop.None?
    ensures s.inflight[i] in Pending(s) && Pending(s') == Pending(s)
    ensures s'.transient == s.transient[s.inflight[i].key := TransientCount(s, s.inflight[i].key) + 1]
  {
    var taken, ad := Taken(s, i), s.inflight[i];
    assert Pending(s) == Pending(taken) + multiset{ad} by { TakenFlow(s, i); }
    assert Pending(s') == Pending(taken) + multiset{ad} by { RetryFlow(cfg, taken, ad, exn, now, delay); }
    RetryTries(cfg, taken, ad, exn, now, delay);
  }

  lemma RetryDescends(cfg: Config, s: State, i: nat, exn: Exn, now: real, delay: real, s': State)
    requires Sound(cfg, s) && i < |s.inflight|
    requires s' == Retry(cfg, Taken(s, i), s.inflight[i], exn, now, delay) && s'.stop.None?
    ensures Descends(cfg, s, s')
  {
    RetryInPlace(cfg, s, i, exn, now, delay, s');
    TriedDescends(cfg, s, s.inflight[i], s');
  }

  lemma FailDescends(cfg: Config, s: State, i: nat, exn: Exn, now: real, draw: real, s': State)
    requires Sound(cfg, s) && i < |s.inflight| && s' == AfterFail(cfg, s, i, exn, now, draw) && s'.stop.None?
    ensures Descends(cfg, s, s')
  {
    match Classify(cfg, exn, s.inflight[i].item)
    case ToSplit => SplitDescends(cfg, s, i, s');
    case ToRetry => RetryDescends(cfg, s, i, exn, now, NextDelay(cfg, Taken(s, i), s.inflight[i], exn, draw), s');
    case ToFatal =>
  }

  lemma StepDescends(cfg: Config, s: State, e: Event, s': State)
    requires Sound(cfg, s) && Enabled(cfg, s, e) && s' == Step(cfg, s, e) && s'.stop.None?
    ensures Descends(cfg, s, s')
  {
    match e
    case Dispatch(lookup) => DispatchDescends(cfg, s, lookup);
    case Finish(i, records, persist) => FinishDescends(cfg, s, i, records, persist);
    case Fail(i, exn, now, draw) => FailDescends(cfg, s, i, exn, now, draw, s');
    case Promote(clock) => PromoteFlow(s, clock);
  }

  // ---------------------------------------------------------------- endless runs

  /** A run that never ends: infinitely many steps, each possible when it happens. */
  ghost predicate Endless(cfg: Config, items: seq<Item>, cache: map<string, Cached>, run: nat -> State,
        events: nat -> Event)
  {
    && run(0) == Start(cfg, items, cache)
    && forall i: nat :: Enabled(cfg, run(i), events(i)) && run(i + 1) == Step(cfg, run(i), events(i))
  }

  ghost predicate Healthy(cfg: Config, roots: nat, s: State) {
    Bounded(cfg, s) && Accounting.Counts(cfg, roots, s) && (s.stop.None? ==> Conserved(cfg, s))
  }

  lemma StepHealthy(cfg: Config, roots: nat, s: State, e: Event)
    requires Healthy(cfg, roots, s) && Enabled(cfg, s, e)
    ensures Healthy(cfg, roots, Step(cfg, s, e))
  {
    Accounting.StepCounts(cfg, roots, s, e);
    if s.stop.None? {
      StepBounded(cfg, s, e);
      StepConserves(cfg, s, e);
    } else {
      StoppedStays(cfg, s, e);
    }
  }

  lemma {:induction false} RunHealthy(cfg: Config, items: seq<Item>, cache: map<string, Cached>, run: nat -> State,
        events: nat -> Event, i: nat)
    requires Endless(cfg, items, cache, run, events)
    ensures Healthy(cfg, |items|, run(i))
  {
    if i == 0 {
      StartConserves(cfg, items, cache);
      RunsStayBounded(cfg, items, cache, []);
      Accounting.StartCounts(cfg, items, cache);
    } else {
      RunHealthy(cfg, items, cache, run, events, i - 1);
      assert Enabled(cfg, run(i - 1), events(i - 1)) && run(i - 1 + 1) == Step(cfg, run(i - 1), events(i - 1));
      StepHealthy(cfg, |items|, run(i - 1), events(i - 1));
    }
  }

  lemma {:induction false} StoppedAttempts(cfg: Config, items: seq<Item>, cache: map<string, Cached>,
        run: nat -> State, events: nat -> Event, n: nat, i: nat)
    requires Endless(cfg, items, cache, run, events) && run(n).stop.Some? && i >= n
    ensures run(i).stop.Some? && run(i).attempts == run(n).attempts
    decreases i
  {
    if i > n {
      StoppedAttempts(cfg, items, cache, run, events, n, i - 1);
      assert Enabled(cfg, run(i - 1), events(i - 1)) && run(i - 1 + 1) == Step(cfg, run(i - 1), events(i - 1));
      StoppedStays(cfg, run(i - 1), events(i - 1));
    }
  }

  lemma AttemptsOnlyGrow(cfg: Config, s: State, e: Event)
    requires Enabled(cfg, s, e)
    ensures s.attempts <= Step(cfg, s, e).attempts
  {
    match e
    case Fail(i, exn, now, draw) => Accounting.RoutedCounts(cfg, Taken(s, i), s.inflight[i], exn, now, draw);
    case _ =>
  }

  lemma {:induction false} EarlierAttempts(cfg: Config, items: seq<Item>, cache: map<string, Cached>,
        run: nat -> State, events: nat -> Event, i: nat, n: nat)
    requires Endless(cfg, items, cache, run, events) && i <= n
    ensures run(i).attempts <= run(n).attempts
    decreases n
  {
    if i < n {
      EarlierAttempts(cfg, items, cache, run, events, i, n - 1);
      assert Enabled(cfg, run(n - 1), events(n - 1)) && run(n - 1 + 1) == Step(cfg, run(n - 1), events(n - 1));
      AttemptsOnlyGrow(cfg, run(n - 1), events(n - 1));
    }
  }

  lemma {:induction false} RestingCompletions(cfg: Config, items: seq<Item>, cache: map<string, Cached>,
        run: nat -> State, events: nat -> Event, n: nat, i: nat)
    requires Endless(cfg, items, cache, run, events) && (forall j: nat :: run(j).stop.None?)
    requires SettledFrom((j: nat) => Measure(cfg, run(j)), n) && i >= n
    ensures SameCompletions(run(n), run(i))
    decreases i
  {
    if i > n {
      RestingCompletions(cfg, items, cache, run, events, n, i - 1);
      var v := (j: nat) => Measure(cfg, run(j));
      assert v(i) == v(n) && v(i - 1) == v(n);
      RunDescends(cfg, items, cache, run, events, i - 1);
      LexIrreflexive(Measure(cfg, run(n)));
    }
  }

  lemma LexIrreflexive(a: seq<nat>)
    ensures !LexLess(a, a)
  {}

  lemma RunDescends(cfg: Config, items: seq<Item>, cache: map<string, Cached>, run: nat -> State, events: nat -> Event,
        i: nat)
    requires Endless(cfg, items, cache, run, events) && (forall j: nat :: run(j).stop.None?)
    ensures Descends(cfg, run(i), run(i + 1))
  {
    RunHealthy(cfg, items, cache, run, events, i);
    assert Enabled(cfg, run(i), events(i)) && run(i + 1) == Step(cfg, run(i), events(i));
    StepDescends(cfg, run(i), events(i), run(i + 1));
  }

  /** A run that is never stopped brings its measure to rest. */
  lemma MeasureSettles(cfg: Config, items: seq<Item>, cache: map<string, Cached>, run: nat -> State,
        events: nat -> Event) returns (n: nat)
    requires Endless(cfg, items, cache, run, events) && (forall j: nat :: run(j).stop.None?)
    ensures SettledFrom((j: nat) => Measure(cfg, run(j)), n)
  {
    var v := (j: nat) => Measure(cfg, run(j));
    forall i: nat ensures v(i + 1) == v(i) || LexLess(v(i + 1), v(i)) {
      RunDescends(cfg, items, cache, run, events, i);
    }
    n := DescentEnds(v);
  }

  ghost predicate ExecutesAtMost(run: nat -> State, most: nat) {
    forall i: nat :: run(i).attempts <= most
  }

  lemma RestingAttempts(cfg: Config, items: seq<Item>, cache: map<string, Cached>, run: nat -> State,
        events: nat -> Event, n: nat, i: nat)
    requires Endless(cfg, items, cache, run, events) && (forall j: nat :: run(j).stop.None?)
    requires SettledFrom((j: nat) => Measure(cfg, run(j)), n) && i >= n
    ensures run(i).attempts <= run(n).attempts + MaxWorkers(cfg)
  {
    RestingCompletions(cfg, items, cache, run, events, n, i);
    RunHealthy(cfg, items, cache, run, events, i);
    RunHealthy(cfg, items, cache, run, events, n);
  }

  /** No run performs infinitely many executions, however many children splits create. */
  lemma FinitelyManyExecutions(cfg: Config, items: seq<Item>, cache: map<string, Cached>, run: nat -> State,
        events: nat -> Event)
    requires Endless(cfg, items, cache, run, events)
    ensures exists most: nat :: ExecutesAtMost(run, most)
  {
    if n: nat :| run(n).stop.Some? {
      forall i: nat ensures run(i).attempts <= run(n).attempts {
        if i <= n {
          EarlierAttempts(cfg, items, cache, run, events, i, n);
        } else {
          StoppedAttempts(cfg, items, cache, run, events, n, i);
        }
      }
      assert ExecutesAtMost(run, run(n).attempts);
    } else {
      var n := MeasureSettles(cfg, items, cache, run, events);
      var most := run(n).attempts + MaxWorkers(cfg);
      forall i: nat ensures run(i).attempts <= most {
        if i <= n {
          EarlierAttempts(cfg, items, cache, run, events, i, n);
        } else {
          RestingAttempts(cfg, items, cache, run, events, n, i);
        }
      }
      assert ExecutesAtMost(run, most);
    }
  }

  // ---------------------------------------------------------------- endless runs only wait

  /** Every dispatch, finish and failure that does not end the run is counted somewhere. */
  lemma EventsAreCounted(cfg: Config, s: State, e: Event)
    requires Enabled(cfg, s, e) && s.stop.None? && Step(cfg, s, e).stop.None? && !e.Promote?
    ensures s.attempts + Completions(s) < Step(cfg, s, e).attempts + Completions(Step(cfg, s, e))
  {
    match e
    case Dispatch(lookup) =>
    case Finish(i, records, persist) =>
    case Fail(i, exn, now, draw) => Accounting.RoutedCounts(cfg, Taken(s, i), s.inflight[i], exn, now, draw);
  }

  ghost predicate OnlyPromotesFrom(events: nat -> Event, n: nat) {
    forall i: nat | i >= n :: events(i).Promote?
  }

  /** Attempts, bounded and never falling, stay what they are from some point on. */
  lemma {:induction false} AttemptsSettle(cfg: Config, items: seq<Item>, cache: map<string, Cached>, run: nat -> State,
        events: nat -> Event, from: nat, most: nat) returns (n: nat)
    requires Endless(cfg, items, cache, run, events) && ExecutesAtMost(run, most)
    ensures n >= from && forall i: nat | i >= n :: run(i).attempts == run(n).attempts
    decreases most - run(from).attempts
  {
    if i: nat :| i >= from && run(i).attempts != run(from).attempts {
      EarlierAttempts(cfg, items, cache, run, events, from, i);
      n := AttemptsSettle(cfg, items, cache, run, events, i, most);
    } else {
      n := from;
    }
  }

  lemma RestingOnlyPromotes(cfg: Config, items: seq<Item>, cache: map<string, Cached>, run: nat -> State,
        events: nat -> Event, n: nat, i: nat)
    requires Endless(cfg, items, cache, run, events) && (forall j: nat :: run(j).stop.None?)
    requires Completions(run(i + 1)) == Completions(run(i)) && run(i + 1).attempts == run(i).attempts
    ensures events(i).Promote?
  {
    assert Enabled(cfg, run(i), events(i)) && run(i + 1) == Step(cfg, run(i), events(i));
    if !events(i).Promote? {
      EventsAreCounted(cfg, run(i), events(i));
    }
  }

  /** An endless run contains only finitely many dispatches, completions and failures: from
      some point on it does nothing but read the clock. */
  lemma EndlessRunsOnlyWait(cfg: Config, items: seq<Item>, cache: map<string, Cached>, run: nat -> State,
        events: nat -> Event)
    requires Endless(cfg, items, cache, run, events)
    ensures exists n :: OnlyPromotesFrom(events, n)
  {
    if n: nat :| run(n).stop.Some? {
      forall i: nat | i >= n ensures events(i).Promote? {
        StoppedAttempts(cfg, items, cache, run, events, n, i);
        assert Enabled(cfg, run(i), events(i)) && run(i + 1) == Step(cfg, run(i), events(i));
        StoppedStays(cfg, run(i), events(i));
      }
      assert OnlyPromotesFrom(events, n);
    } else {
      FinitelyManyExecutions(cfg, items, cache, run, events);
      var most: nat :| ExecutesAtMost(run, most);
      var rest := MeasureSettles(cfg, items, cache, run, events);
      var n := AttemptsSettle(cfg, items, cache, run, events, rest, most);
      forall i: nat | i >= n ensures events(i).Promote? {
        RestingCompletions(cfg, items, cache, run, events, rest, i);
        RestingCompletions(cfg, items, cache, run, events, rest, i + 1);
        RestingOnlyPromotes(cfg, items, cache, run, events, n, i);
      }
      assert OnlyPromotesFrom(events, n);
    }
  }

  // ---------------------------------------------------------------- fair runs end

  ghost predicate CompletesAfter(events: nat -> Event, i: nat) {
    exists j: nat :: j >= i && (events(j).Finish? || events(j).Fail?)
  }

  ghost predicate DispatchesAfter(events: nat -> Event, i: nat) {
    exists j: nat :: j >= i && events(j).Dispatch?
  }

  ghost predicate ClockPasses(events: nat -> Event, i: nat, due: real) {
    exists j: nat :: j >= i && events(j).Promote? && events(j).clock >= due
  }

  /** What the pool, the loop and the clock owe a run that goes on: some running future finishes,
      a free worker is given what is ready, and every due time comes. */
  ghost predicate FairAt(cfg: Config, events: nat -> Event, s: State, i: nat) {
    && (s.inflight != [] ==> CompletesAfter(events, i))
    && (s.ready != [] && |s.inflight| < MaxWorkers(cfg) ==> DispatchesAfter(events, i))
    && (forall d | d in s.delayed :: ClockPasses(events, i, d.readyAt))
  }

  ghost predicate Fair(cfg: Config, run: nat -> State, events: nat -> Event) {
    forall i: nat | run(i).stop.None? :: FairAt(cfg, events, run(i), i)
  }

  predicate Ended(s: State) {
    s.stop.Some? || Finished(s)
  }

  lemma EndedStays(cfg: Config, s: State, e: Event)
    requires Ended(s) && Enabled(cfg, s, e)
    ensures Ended(Step(cfg, s, e))
  {
    if s.stop.Some? {
      StoppedStays(cfg, s, e);
    } else {
      assert e.Promote?;
    }
  }

  /** A clock reading that matures nothing changes nothing. */
  lemma IdlePromote(s: State, now: real, s': State)
    requires s' == AfterPromote(s, now) && s'.ready == s.ready
    ensures s' == s && Matured(s.delayed, now) == 0
  {
    var n := Matured(s.delayed, now);
    assert |s'.ready| == |s.ready| + n;
    assert Ads(s.delayed[..0]) == [] && s.ready + [] == s.ready;
  }

  /** With nothing running and nothing ready, clock readings keep it so until something is due. */
  lemma {:induction false} IdleUntil(cfg: Config, items: seq<Item>, cache: map<string, Cached>, run: nat -> State,
        events: nat -> Event, n: nat, i: nat)
    requires Endless(cfg, items, cache, run, events) && Fair(cfg, run, events) && OnlyPromotesFrom(events, n)
    requires run(n).stop.None? && run(n).inflight == [] && run(n).ready == [] && i >= n
    ensures run(i) == run(n)
    decreases i
  {
    if i > n {
      IdleUntil(cfg, items, cache, run, events, n, i - 1);
      assert events(i - 1).Promote?;
      assert Enabled(cfg, run(i - 1), events(i - 1)) && run(i - 1 + 1) == Step(cfg, run(i - 1), events(i - 1));
      NothingRuns(cfg, run, events, n, i);
      IdlePromote(run(i - 1), events(i - 1).clock, run(i));
    }
  }

  lemma {:induction false} EndedSince(cfg: Config, items: seq<Item>, cache: map<string, Cached>, run: nat -> State,
        events: nat -> Event, n: nat, i: nat)
    requires Endless(cfg, items, cache, run, events) && Ended(run(n)) && i >= n
    ensures Ended(run(i))
    decreases i
  {
    if i > n {
      EndedSince(cfg, items, cache, run, events, n, i - 1);
      assert Enabled(cfg, run(i - 1), events(i - 1)) && run(i - 1 + 1) == Step(cfg, run(i - 1), events(i - 1));
      EndedStays(cfg, run(i - 1), events(i - 1));
    }
  }

  ghost predicate EndedFrom(run: nat -> State, n: nat) {
    forall i: nat | i >= n :: Ended(run(i))
  }

  /** In a fair environment every run comes to an end and stays there: all three queues empty,
      or an exception. */
  lemma FairRunsEnd(cfg: Config, items: seq<Item>, cache: map<string, Cached>, run: nat -> State,
        events: nat -> Event)
    requires Endless(cfg, items, cache, run, events) && Fair(cfg, run, events)
    ensures exists n :: EndedFrom(run, n)
  {
    EndlessRunsOnlyWait(cfg, items, cache, run, events);
    var n: nat :| OnlyPromotesFrom(events, n);
    if run(n).stop.None? {
      NothingRuns(cfg, run, events, n, n);
      if run(n).delayed != [] {
        var due := run(n).delayed[0].readyAt;
        assert FairAt(cfg, events, run(n), n) && run(n).delayed[0] in run(n).delayed;
        var j: nat :| j >= n && events(j).Promote? && events(j).clock >= due;
        IdleUntil(cfg, items, cache, run, events, n, j);
        IdleUntil(cfg, items, cache, run, events, n, j + 1);
        assert Enabled(cfg, run(j), events(j)) && run(j + 1) == Step(cfg, run(j), events(j));
        IdlePromote(run(j), events(j).clock, run(j + 1));
      }
    }
    forall i: nat | i >= n ensures Ended(run(i)) { EndedSince(cfg, items, cache, run, events, n, i); }
    assert EndedFrom(run, n);
  }

  lemma NothingRuns(cfg: Config, run: nat -> State, events: nat -> Event, n: nat, i: nat)
    requires Fair(cfg, run, events) && OnlyPromotesFrom(events, n) && i >= n && run(i).stop.None?
    ensures run(i).inflight == [] && run(i).ready == []
  {
    assert FairAt(cfg, events, run(i), i);
    assert forall j: nat | j >= i :: events(j).Promote?;
    assert !CompletesAfter(events, i) && !DispatchesAfter(events, i);
  }
}
