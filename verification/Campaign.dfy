/** Sessions on a disk that, between them, loses, reverts, tears or overwrites files: what each
    of them does to the disk is a stretch of a store history, and all that the store is asked to
    keep follows from the sessions themselves. */
module Campaign {
  import opened Wrappers
  import opened Work
  import opened Store
  import opened Scheduler
  import opened Transparency
  import opened Ledger
  import opened Sessions
  import Composition
  import History = StoreHistory
  import Manifest
  import Resume
  import StoreTheorems
  import Utf8

  /** One session over some items, or something the disk did while no store was open. */
  datatype Chapter = Ran(items: seq<Item>, se: Session) | Weathered(e: History.Event)

  // ---------------------------------------------------------------- the store's side of a session

  /** The commit that a step of a run is for the store, if it is one. */
  function StoreEvent(s: State, d: DiskStep): seq<History.Event> {
    if d.e.Finish? && d.e.i < |s.inflight| && d.w.Write? then
      [History.CommitUpTo(CommitOf(s.inflight[d.e.i], d.e.records, d.w), d.w.tmp, d.w.mtmp, d.w.stage,
                          d.e.persist.Stored?)]
    else []
  }

  function StoreEvents(cfg: Config, start: State, steps: seq<DiskStep>): seq<History.Event> {
    if steps == [] then []
    else
      var prefix := steps[..|steps| - 1];
      StoreEvents(cfg, start, prefix) + StoreEvent(Replay(cfg, start, Events(prefix)), steps[|steps| - 1])
  }

  /** The opening, and every commit up to the end of the run. */
  ghost function OpenEvents(cfg: Config, settings: Settings, items: seq<Item>, files: Manifest.Files,
        se: Session): seq<History.Event>
  {
    [History.Open(settings, se.left)] + StoreEvents(cfg, SessionStart(cfg, settings, items, files, se), se.steps)
  }

  ghost function HistoryOf(cfg: Config, settings: Settings, chapters: seq<Chapter>): seq<History.Event> {
    if chapters == [] then []
    else
      var h := HistoryOf(cfg, settings, chapters[..|chapters| - 1]);
      match chapters[|chapters| - 1]
      case Ran(items, se) => h + OpenEvents(cfg, settings, items, History.After(h).files, se) + [History.Crash]
      case Weathered(e) => h + [e]
  }

  /** uuid4 never repeats itself: no commit has an identity logged before. */
  ghost predicate NewIds(h: seq<History.Event>, events: seq<History.Event>) {
    events == [] ||
      var prefix, last := events[..|events| - 1], events[|events| - 1];
      && NewIds(h, prefix)
      && (last.CommitUpTo? ==> last.c.generation !in History.After(h + prefix).log)
  }

  ghost predicate Happens(cfg: Config, settings: Settings, outcome: Item -> Outcome, chapters: seq<Chapter>) {
    chapters == [] ||
      var prefix := chapters[..|chapters| - 1];
      && Happens(cfg, settings, outcome, prefix)
      && var h := HistoryOf(cfg, settings, prefix);
         match chapters[|chapters| - 1]
         case Ran(items, se) => RunHappens(cfg, settings, outcome, h, items, se)
         case Weathered(e) => (e.Forget? || e.Corrupt?) && History.Enabled(settings.digest, History.After(h), e)
  }

  /** A session on the disk that this history has left. */
  ghost predicate RunHappens(cfg: Config, settings: Settings, outcome: Item -> Outcome, h: seq<History.Event>,
        items: seq<Item>, se: Session)
  {
    var files := History.After(h).files;
    && SessionHappens(cfg, settings, outcome, items, files, se)
    && NewIds(h + [History.Open(settings, se.left)],
              StoreEvents(cfg, SessionStart(cfg, settings, items, files, se), se.steps))
  }

  // ---------------------------------------------------------------- a session is a stretch of history

  lemma HistorySnoc(digest: Utf8.Bytes -> string, h: seq<History.Event>, e: History.Event)
    ensures History.After(h + [e]) == History.Step(History.After(h), e)
    ensures History.Possible(digest, h + [e]) <==>
      History.Possible(digest, h) && History.Enabled(digest, History.After(h), e)
  {
    assert (h + [e])[..|h + [e]| - 1] == h;
  }

  /** The open store has the run's books. */
  ghost predicate Mirrors(settings: Settings, w: History.World, b: Books) {
    w.live == Some(History.Instance(settings, b.entries)) && w.files == b.files
  }

  lemma Regroup<T>(a: seq<T>, b: seq<T>, c: seq<T>)
    ensures a + (b + c) == (a + b) + c
  {}

  /** A possible history, and the store has the run's books. */
  ghost predicate Played(settings: Settings, now: seq<History.Event>, b: Books) {
    History.Possible(settings.digest, now) && Mirrors(settings, History.After(now), b)
  }

  /** One step of a run is one commit of the store, or nothing. */
  lemma StepMirrors(settings: Settings, h: seq<History.Event>, s: State, b: Books, d: DiskStep, b': Books)
    requires Played(settings, h, b)
    requires StepFits(settings, s, b, d) && b' == Booked(settings, s, b, d)
    requires forall e | e in StoreEvent(s, d) :: e.CommitUpTo? && e.c.generation !in History.After(h).log
    ensures Played(settings, h + StoreEvent(s, d), b')
  {
    if StoreEvent(s, d) == [] {
      assert h + [] == h;
    } else {
      var e := StoreEvent(s, d)[0];
      assert e in StoreEvent(s, d);
      HistorySnoc(settings.digest, h, e);
    }
  }

  lemma NewIdsSnoc(h: seq<History.Event>, events: seq<History.Event>, e: History.Event)
    ensures NewIds(h, events + [e]) <==>
      NewIds(h, events) && (e.CommitUpTo? ==> e.c.generation !in History.After(h + events).log)
  {
    assert (events + [e])[..|events + [e]| - 1] == events;
  }

  /** One more step, its commit new. */
  lemma NextIsNew(h: seq<History.Event>, events: seq<History.Event>, s: State, d: DiskStep)
    requires NewIds(h, events + StoreEvent(s, d))
    ensures NewIds(h, events)
    ensures forall e | e in StoreEvent(s, d) :: e.CommitUpTo? && e.c.generation !in History.After(h + events).log
  {
    var more := StoreEvent(s, d);
    if more == [] {
      assert events + [] == events;
    } else {
      assert more == [more[0]];
      NewIdsSnoc(h, events, more[0]);
    }
  }

  lemma {:induction false} SessionPlays(cfg: Config, settings: Settings, h: seq<History.Event>, start: State, b: Books,
        steps: seq<DiskStep>)
    requires Played(settings, h, b)
    requires Fits(cfg, settings, start, b, steps) && NewIds(h, StoreEvents(cfg, start, steps))
    ensures Played(settings, h + StoreEvents(cfg, start, steps), BooksAfter(cfg, settings, start, b, steps))
  {
    if steps == [] {
      assert h + [] == h;
    } else {
      var prefix, d := steps[..|steps| - 1], steps[|steps| - 1];
      var s, events := Replay(cfg, start, Events(prefix)), StoreEvents(cfg, start, prefix);
      NextIsNew(h, events, s, d);
      SessionPlays(cfg, settings, h, start, b, prefix);
      StepMirrors(settings, h + events, s, BooksAfter(cfg, settings, start, b, prefix), d,
                  BooksAfter(cfg, settings, start, b, steps));
      Regroup(h, events, StoreEvent(s, d));
    }
  }

  // ---------------------------------------------------------------- every commit is right

  /** The commit stores what some item of its identity yields. */
  ghost predicate RightCommit(cfg: Config, outcome: Item -> Outcome, c: Commit) {
    exists item: Item :: cfg.contentKey(item.payload) == (c.key, c.hash) && outcome(item) == Yields(c.records)
  }

  ghost predicate LogIsRight(cfg: Config, outcome: Item -> Outcome, log: map<string, History.Logged>) {
    forall g | g in log :: RightCommit(cfg, outcome, log[g].commit)
  }

  lemma StepIsRight(cfg: Config, outcome: Item -> Outcome, h: seq<History.Event>, s: State, d: DiskStep,
        digest: Utf8.Bytes -> string)
    requires LogIsRight(cfg, outcome, History.After(h).log)
    requires d.e.Finish? && d.e.i < |s.inflight| ==>
      s.inflight[d.e.i] == Admit(cfg, s.inflight[d.e.i].item, s.inflight[d.e.i].depth) && Obeys(cfg, outcome, s, d.e)
    ensures LogIsRight(cfg, outcome, History.After(h + StoreEvent(s, d)).log)
  {
    if StoreEvent(s, d) == [] {
      assert h + [] == h;
    } else {
      var e, ad := StoreEvent(s, d)[0], s.inflight[d.e.i];
      HistorySnoc(digest, h, e);
      assert cfg.contentKey(ad.item.payload) == (e.c.key, e.c.hash) && outcome(ad.item) == Yields(e.c.records);
      assert RightCommit(cfg, outcome, e.c);
    }
  }

  lemma FinishedIsAdmitted(cfg: Config, outcome: Item -> Outcome, items: seq<Item>, cache: map<string, Cached>,
        trace: seq<Event>, e: Event, s: State)
    requires Possible(cfg, Start(cfg, items, cache), trace) && Faithful(cfg, outcome, Start(cfg, items, cache), trace)
    requires s == Replay(cfg, Start(cfg, items, cache), trace) && Enabled(cfg, s, e)
    ensures e.Finish? ==> s.inflight[e.i] == Admit(cfg, s.inflight[e.i].item, s.inflight[e.i].depth)
  {
    if e.Finish? { Resume.RunningIsLeaf(cfg, outcome, items, cache, trace, e.i); }
  }

  /** Whatever a faithful run commits is right. */
  lemma {:induction false} SessionIsRight(cfg: Config, outcome: Item -> Outcome, items: seq<Item>,
        cache: map<string, Cached>, h: seq<History.Event>, steps: seq<DiskStep>, digest: Utf8.Bytes -> string)
    requires LogIsRight(cfg, outcome, History.After(h).log)
    requires var start := Start(cfg, items, cache);
      Possible(cfg, start, Events(steps)) && Faithful(cfg, outcome, start, Events(steps))
    ensures LogIsRight(cfg, outcome, History.After(h + StoreEvents(cfg, Start(cfg, items, cache), steps)).log)
  {
    var start := Start(cfg, items, cache);
    if steps == [] {
      assert h + [] == h;
    } else {
      var prefix, d := steps[..|steps| - 1], steps[|steps| - 1];
      var s, events := Replay(cfg, start, Events(prefix)), StoreEvents(cfg, start, prefix);
      EventsSnoc(steps);
      SessionIsRight(cfg, outcome, items, cache, h, prefix, digest);
      FinishedIsAdmitted(cfg, outcome, items, cache, Events(prefix), d.e, s);
      StepIsRight(cfg, outcome, h + events, s, d, digest);
      Regroup(h, events, StoreEvent(s, d));
    }
  }

  lemma RightCommitsAreRight(cfg: Config, outcome: Item -> Outcome, fingerprint: string,
        log: map<string, History.Logged>)
    requires LogIsRight(cfg, outcome, log) && Resume.IdentityFixesOutcome(cfg, outcome)
    ensures Composition.CommitsAreRight(cfg, outcome, fingerprint, log)
  {
    forall g: string, item: Item | g in log && log[g].writer.fingerprint == fingerprint
        && cfg.contentKey(item.payload) == (log[g].commit.key, log[g].commit.hash)
      ensures outcome(item) == Yields(log[g].commit.records)
    {
      var other: Item :| cfg.contentKey(other.payload) == (log[g].commit.key, log[g].commit.hash)
                      && outcome(other) == Yields(log[g].commit.records);
    }
  }

  // ---------------------------------------------------------------- whole campaigns

  /** Between chapters no store is open, and all that was ever committed is right. */
  ghost predicate Rests(cfg: Config, settings: Settings, outcome: Item -> Outcome, h: seq<History.Event>) {
    && History.Possible(settings.digest, h) && History.After(h).live.None?
    && LogIsRight(cfg, outcome, History.After(h).log)
  }

  /** The disk and the open store when a session's run ends. */
  lemma SessionInHistory(cfg: Config, settings: Settings, outcome: Item -> Outcome, h: seq<History.Event>,
        items: seq<Item>, se: Session, files: Manifest.Files)
    requires Rests(cfg, settings, outcome, h) && RunHappens(cfg, settings, outcome, h, items, se)
    requires files == History.After(h).files
    ensures var ended := h + OpenEvents(cfg, settings, items, files, se);
      && Played(settings, ended, SessionBooks(cfg, settings, items, files, se))
      && LogIsRight(cfg, outcome, History.After(ended).log)
  {
    var open := History.Open(settings, se.left);
    var start, b := SessionStart(cfg, settings, items, files, se), BooksOnOpen(settings, files, se);
    OpenMirrors(cfg, settings, outcome, h, se, b);
    SessionPlays(cfg, settings, h + [open], start, b, se.steps);
    SessionIsRight(cfg, outcome, items, SessionCache(settings, files, se), h + [open], se.steps, settings.digest);
    Regroup(h, [open], StoreEvents(cfg, start, se.steps));
  }

  lemma OpenMirrors(cfg: Config, settings: Settings, outcome: Item -> Outcome, h: seq<History.Event>, se: Session,
        b: Books)
    requires Rests(cfg, settings, outcome, h) && Opened(settings, History.After(h).files, se.left)
    requires b == BooksOnOpen(settings, History.After(h).files, se)
    ensures var begun := h + [History.Open(settings, se.left)];
      Played(settings, begun, b) && History.After(begun).log == History.After(h).log
  {
    HistorySnoc(settings.digest, h, History.Open(settings, se.left));
  }

  lemma RanRests(cfg: Config, settings: Settings, outcome: Item -> Outcome, h: seq<History.Event>, items: seq<Item>,
        se: Session, files: Manifest.Files)
    requires Rests(cfg, settings, outcome, h) && RunHappens(cfg, settings, outcome, h, items, se)
    requires files == History.After(h).files
    ensures Rests(cfg, settings, outcome, h + OpenEvents(cfg, settings, items, files, se) + [History.Crash])
  {
    SessionInHistory(cfg, settings, outcome, h, items, se, files);
    HistorySnoc(settings.digest, h + OpenEvents(cfg, settings, items, files, se), History.Crash);
  }

  lemma {:induction false} CampaignRests(cfg: Config, settings: Settings, outcome: Item -> Outcome,
        chapters: seq<Chapter>)
    requires Happens(cfg, settings, outcome, chapters)
    ensures Rests(cfg, settings, outcome, HistoryOf(cfg, settings, chapters))
  {
    if chapters != [] {
      var prefix := chapters[..|chapters| - 1];
      var h := HistoryOf(cfg, settings, prefix);
      CampaignRests(cfg, settings, outcome, prefix);
      match chapters[|chapters| - 1]
      case Ran(items, se) => RanRests(cfg, settings, outcome, h, items, se, History.After(h).files);
      case Weathered(e) => HistorySnoc(settings.digest, h, e);
    }
  }

  /** Whatever happened to the disk before: a session that finishes stitches exactly the leaves
      of the split tree with the results a sequential uncached evaluation gives them, out of a
      cache that is what the open store answers for. */
  lemma EverySessionStitches(cfg: Config, settings: Settings, outcome: Item -> Outcome, chapters: seq<Chapter>,
        items: seq<Item>, se: Session, w: History.World, s: State)
    requires Wired(cfg, settings) && Resume.IdentityFixesOutcome(cfg, outcome)
    requires Happens(cfg, settings, outcome, chapters) && w == History.After(HistoryOf(cfg, settings, chapters))
    requires RunHappens(cfg, settings, outcome, HistoryOf(cfg, settings, chapters), items, se)
    requires !w.corrupted || StoreTheorems.CollisionFree(settings.digest)
    requires s == SessionEnd(cfg, settings, items, w.files, se) && Finished(s)
    ensures Stitches(cfg, outcome, LeavesOfAll(cfg, outcome, items, 0), s)
    ensures var ended := History.After(HistoryOf(cfg, settings, chapters) + OpenEvents(cfg, settings, items, w.files, se));
      ended.live.Some? && s.cache == Composition.LiveView(ended)
  {
    var h := HistoryOf(cfg, settings, chapters);
    CampaignRests(cfg, settings, outcome, chapters);
    SessionInHistory(cfg, settings, outcome, h, items, se, w.files);
    OpenedIsSound(cfg, settings, outcome, h, w, se);
    RunIsTransparent(cfg, outcome, items, SessionCache(settings, w.files, se), Events(se.steps));
    OpenIsStable(settings, w.files, se.left);
    BooksBalance(cfg, settings, outcome, items, BooksOnOpen(settings, w.files, se), se.steps);
  }

  /** A session starts with a sound cache. */
  lemma OpenedIsSound(cfg: Config, settings: Settings, outcome: Item -> Outcome, h: seq<History.Event>,
        w: History.World, se: Session)
    requires Rests(cfg, settings, outcome, h) && w == History.After(h) && Opened(settings, w.files, se.left)
    requires Resume.IdentityFixesOutcome(cfg, outcome)
    requires !w.corrupted || StoreTheorems.CollisionFree(settings.digest)
    ensures SoundCache(cfg, outcome, SessionCache(settings, w.files, se))
  {
    var open := History.Open(settings, se.left);
    HistorySnoc(settings.digest, h, open);
    RightCommitsAreRight(cfg, outcome, settings.fingerprint, w.log);
    Composition.SurvivorsAreSound(cfg, outcome, settings.digest, h + [open]);
  }
}
