/** A commit that raises although its manifest is in place, followed through: the next session
    resumes the leaf, so its commit never returns at all. This is what stands between "at most
    once" and "exactly once" in Sessions, and it shows that the hypotheses there can be met. */
module LateCommit {
  import opened Wrappers
  import opened Manifest
  import opened Work
  import opened Store
  import opened Scheduler
  import opened Transparency
  import opened Ledger
  import opened Sessions
  import Checkpointed
  import Engine
  import Jsonl
  import Resume
  import StoreTheorems

  lemma StepsSnoc(cfg: Config, settings: Settings, start: State, b: Books, steps: seq<DiskStep>, d: DiskStep)
    ensures Events(steps + [d]) == Events(steps) + [d.e]
    ensures BooksAfter(cfg, settings, start, b, steps + [d]) ==
      Booked(settings, Replay(cfg, start, Events(steps)), BooksAfter(cfg, settings, start, b, steps), d)
    ensures Fits(cfg, settings, start, b, steps + [d]) <==>
      Fits(cfg, settings, start, b, steps)
      && StepFits(settings, Replay(cfg, start, Events(steps)), BooksAfter(cfg, settings, start, b, steps), d)
  {
    assert (steps + [d])[..|steps + [d]| - 1] == steps;
  }

  /** One more step of a session that has happened so far. */
  ghost predicate Happening(cfg: Config, settings: Settings, outcome: Item -> Outcome, start: State, b: Books,
        steps: seq<DiskStep>)
  {
    && Possible(cfg, start, Events(steps)) && Faithful(cfg, outcome, start, Events(steps))
    && Fits(cfg, settings, start, b, steps)
  }

  lemma HappensOn(cfg: Config, settings: Settings, outcome: Item -> Outcome, start: State, b: Books,
        steps: seq<DiskStep>, d: DiskStep, s: State, now: Books)
    requires Happening(cfg, settings, outcome, start, b, steps)
    requires s == Replay(cfg, start, Events(steps)) && now == BooksAfter(cfg, settings, start, b, steps)
    requires Enabled(cfg, s, d.e) && Obeys(cfg, outcome, s, d.e)
    requires StepFits(settings, s, now, d)
    ensures Happening(cfg, settings, outcome, start, b, steps + [d])
    ensures Replay(cfg, start, Events(steps + [d])) == Step(cfg, s, d.e)
    ensures BooksAfter(cfg, settings, start, b, steps + [d]) == Booked(settings, s, now, d)
  {
    StepsSnoc(cfg, settings, start, b, steps, d);
    Engine.TraceSnoc(cfg, start, Events(steps), d.e);
    Checkpointed.FaithfulSnoc(cfg, outcome, start, Events(steps), d.e);
  }

  // ---------------------------------------------------------------- the session that raises

  function LateSteps(records: Jsonl.Records, w: Write): seq<DiskStep> {
    [] + [DiskStep(Dispatch(Miss), NoWrite)] + [DiskStep(Finish(0, records, CommitRaised(true)), w)]
  }

  /** One item that yields, an empty store, and a commit whose last directory fsync fails. */
  ghost predicate Setting(cfg: Config, settings: Settings, outcome: Item -> Outcome, item: Item,
        records: Jsonl.Records, files: Files, w: Write)
  {
    var ad := Admit(cfg, item, 0);
    && Promised(cfg, settings, outcome) && outcome(item) == Yields(records) && cfg.accepts(records)
    && IsSafeKey(ad.key) && LoadEntries(files, settings.fingerprint) == Some(map[])
    && w.Write? && w.stage == COMPLETE && CommitNames(CommitOf(ad, records, w), w.tmp, w.mtmp)
  }

  lemma EmptyStoreAnswersNothing(settings: Settings, files: Files)
    ensures View(settings, map[], files) == map[]
  {}

  /** It is executed, its commit raises, and the run ends with that exception. */
  lemma LateRun(cfg: Config, item: Item, records: Jsonl.Records, start: State, middle: State, s: State)
    requires start == Start(cfg, [item], map[]) && middle == Step(cfg, start, Dispatch(Miss))
    requires s == Step(cfg, middle, Finish(0, records, CommitRaised(true)))
    ensures var ad := Admit(cfg, item, 0);
      && Enabled(cfg, start, Dispatch(Miss)) && middle.inflight == [ad] && middle.stop.None?
      && s.hist.committedLog == [] && s.stop == Some(StoreRaised) && s.cache == map[]
  {
    Checkpointed.FirstStep(cfg, item, start);
  }

  lemma LateSession(cfg: Config, settings: Settings, outcome: Item -> Outcome, item: Item, records: Jsonl.Records,
        files: Files, w: Write, se: Session, s: State, b: Books)
    requires Setting(cfg, settings, outcome, item, records, files, w) && se == Session(files, LateSteps(records, w))
    requires s == SessionEnd(cfg, settings, [item], files, se) && b == SessionBooks(cfg, settings, [item], files, se)
    ensures SessionHappens(cfg, settings, outcome, [item], files, se)
    ensures s.hist.committedLog == [] && s.stop == Some(StoreRaised) && s.cache == map[]
    ensures b.landed == [Admit(cfg, item, 0)] == b.unreported
  {
    var start, books := SessionStart(cfg, settings, [item], files, se), BooksOnOpen(settings, files, se);
    var first, last := DiskStep(Dispatch(Miss), NoWrite), DiskStep(Finish(0, records, CommitRaised(true)), w);
    EmptyStoreAnswersNothing(settings, files);
    var middle := Step(cfg, start, first.e);
    LateRun(cfg, item, records, start, middle, Step(cfg, middle, last.e));
    HappensOn(cfg, settings, outcome, start, books, [], first, start, books);
    HappensOn(cfg, settings, outcome, start, books, [] + [first], last, middle, books);
  }

  // ---------------------------------------------------------------- the session that resumes

  lemma OneStranded(cfg: Config, settings: Settings, outcome: Item -> Outcome, item: Item, records: Jsonl.Records,
        leaves: seq<Admitted>, s: State, b: Books)
    requires Balanced(cfg, settings, outcome, leaves, s, b) && outcome(item) == Yields(records) && cfg.accepts(records)
    requires b.unreported == [Admit(cfg, item, 0)] && s.cache == map[]
    ensures var ad := Admit(cfg, item, 0); DiskView(settings, b) == map[ad.key := Cached(ad.hash, records)]
    ensures Opened(settings, b.files, b.files)
  {
    var ad, live, disk := b.unreported[0], LiveView(settings, b), DiskView(settings, b);
    var found :| Stranded(cfg, outcome, leaves, live, disk, ad, found);
    assert ad.item == item && found == records;
    assert Opened(settings, b.files, b.files) by { EmptyStoreAnswersNothing(settings, b.files); }
  }

  /** The next opening finds the result. */
  lemma LateIsOnDisk(cfg: Config, settings: Settings, outcome: Item -> Outcome, item: Item, records: Jsonl.Records,
        files: Files, w: Write, se: Session, b: Books)
    requires Setting(cfg, settings, outcome, item, records, files, w) && se == Session(files, LateSteps(records, w))
    requires b == SessionBooks(cfg, settings, [item], files, se)
    ensures var ad := Admit(cfg, item, 0); DiskView(settings, b) == map[ad.key := Cached(ad.hash, records)]
    ensures Opened(settings, b.files, b.files)
  {
    var s, leaves := SessionEnd(cfg, settings, [item], files, se), LeavesOfAll(cfg, outcome, [item], 0);
    assert b.unreported == [Admit(cfg, item, 0)] && s.cache == map[]
        && SessionHappens(cfg, settings, outcome, [item], files, se) by {
      LateSession(cfg, settings, outcome, item, records, files, w, se, s, b);
    }
    assert Balanced(cfg, settings, outcome, leaves, s, b) by {
      SessionBalances(cfg, settings, outcome, [item], files, se);
    }
    OneStranded(cfg, settings, outcome, item, records, leaves, s, b);
  }

  /** A run whose only item is already there. */
  lemma ResumingRun(cfg: Config, item: Item, records: Jsonl.Records, start: State, s: State)
    requires var ad := Admit(cfg, item, 0); start == Start(cfg, [item], map[ad.key := Cached(ad.hash, records)])
    requires s == Step(cfg, start, Dispatch(Hit))
    ensures Enabled(cfg, start, Dispatch(Hit)) && Finished(s)
    ensures s.hist.committedLog == [] && s.terminal == {Admit(cfg, item, 0).key}
  {
    var ad := Admit(cfg, item, 0);
    Checkpointed.FirstStep(cfg, item, Start(cfg, [item], map[]));
    assert start == Start(cfg, [item], map[]).(cache := start.cache);
  }

  lemma ResumingSession(cfg: Config, settings: Settings, outcome: Item -> Outcome, item: Item, records: Jsonl.Records,
        files: Files, se: Session, s: State, b: Books)
    requires Opened(settings, files, files) && se == Session(files, [] + [DiskStep(Dispatch(Hit), NoWrite)])
    requires var ad := Admit(cfg, item, 0);
      SessionCache(settings, files, se) == map[ad.key := Cached(ad.hash, records)]
    requires s == SessionEnd(cfg, settings, [item], files, se) && b == SessionBooks(cfg, settings, [item], files, se)
    ensures SessionHappens(cfg, settings, outcome, [item], files, se)
    ensures Finished(s) && s.hist.committedLog == [] && s.terminal == {Admit(cfg, item, 0).key}
    ensures b.landed == [] == b.unreported
  {
    var start, books := SessionStart(cfg, settings, [item], files, se), BooksOnOpen(settings, files, se);
    var only := DiskStep(Dispatch(Hit), NoWrite);
    ResumingRun(cfg, item, records, start, Step(cfg, start, only.e));
    HappensOn(cfg, settings, outcome, start, books, [], only, start, books);
  }

  // ---------------------------------------------------------------- both

  lemma TwoSessions(cfg: Config, settings: Settings, outcome: Item -> Outcome, items: seq<Item>, files: Files,
        one: Session, two: Session, first: Record)
    requires SessionHappens(cfg, settings, outcome, items, files, one)
    requires first == RecordOf(cfg, settings, items, files, [one])
    requires SessionHappens(cfg, settings, outcome, items, first.files, two)
    ensures AllHappen(cfg, settings, outcome, items, files, [one, two])
    ensures RecordOf(cfg, settings, items, files, [one, two]).returned ==
      first.returned + SessionEnd(cfg, settings, items, first.files, two).hist.committedLog
    ensures RecordOf(cfg, settings, items, files, [one, two]).landed ==
      first.landed + SessionBooks(cfg, settings, items, first.files, two).landed
  {
    assert [one] + [two] == [one, two] && [] + [one] == [one];
    OneMoreSession(cfg, settings, outcome, items, files, [], one, RecordOf(cfg, settings, items, files, []));
    OneMoreSession(cfg, settings, outcome, items, files, [one], two, first);
  }

  lemma OneMoreSession(cfg: Config, settings: Settings, outcome: Item -> Outcome, items: seq<Item>, files: Files,
        sessions: seq<Session>, se: Session, r: Record)
    requires r == RecordOf(cfg, settings, items, files, sessions)
    ensures AllHappen(cfg, settings, outcome, items, files, sessions + [se]) <==>
      AllHappen(cfg, settings, outcome, items, files, sessions)
      && SessionHappens(cfg, settings, outcome, items, r.files, se)
    ensures var after, b := RecordOf(cfg, settings, items, files, sessions + [se]),
                            SessionBooks(cfg, settings, items, r.files, se);
      && after.landed == r.landed + b.landed
      && after.returned == r.returned + SessionEnd(cfg, settings, items, r.files, se).hist.committedLog
  {
    assert (sessions + [se])[..|sessions + [se]| - 1] == sessions;
  }

  /** The leaf of a single item whose commit raised with its manifest in place: the next session
      finishes, the leaf has landed once, and its commit has never returned. */
  lemma ReturnedByNobody(cfg: Config, settings: Settings, outcome: Item -> Outcome, item: Item, records: Jsonl.Records,
        files: Files, w: Write, one: Session, two: Session, middle: Files, last: State)
    requires Setting(cfg, settings, outcome, item, records, files, w)
    requires one == Session(files, LateSteps(records, w))
    requires middle == SessionBooks(cfg, settings, [item], files, one).files
    requires two == Session(middle, [] + [DiskStep(Dispatch(Hit), NoWrite)])
    requires last == SessionEnd(cfg, settings, [item], middle, two)
    ensures AllHappen(cfg, settings, outcome, [item], files, [one, two]) && Finished(last)
    ensures var r, key := RecordOf(cfg, settings, [item], files, [one, two]), Admit(cfg, item, 0).key;
      && last.terminal == {key} && key !in StoreTheorems.Durable(settings, files)
      && Resume.CommitsOf(r.landed, key) == 1 && Resume.CommitsOf(r.returned, key) == 0
  {
    var s, b := SessionEnd(cfg, settings, [item], files, one), SessionBooks(cfg, settings, [item], files, one);
    LateSession(cfg, settings, outcome, item, records, files, w, one, s, b);
    LateIsOnDisk(cfg, settings, outcome, item, records, files, w, one, b);
    ResumingSession(cfg, settings, outcome, item, records, middle, two, last,
                    SessionBooks(cfg, settings, [item], middle, two));
    var first := RecordOf(cfg, settings, [item], files, [one]);
    assert [one][..0] == [];
    TwoSessions(cfg, settings, outcome, [item], files, one, two, first);
    EmptyStoreAnswersNothing(settings, files);
  }
}
