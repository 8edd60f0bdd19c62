/** A run together with the disk under its store: what each commit did to the in-memory entries
    and to the files, which commits reached the manifest, and which of those raised nonetheless. */
module Ledger {
  import opened Wrappers
  import opened Jsonl
  import opened Manifest
  import opened Work
  import opened Store
  import StoreTheorems
  import opened Scheduler
  import opened Transparency
  import Resume
  import Conservation

  // ---------------------------------------------------------------- one commit

  /** What a finished item's commit did on disk: nothing at all for an unsafe key. */
  datatype Write = NoWrite | Write(generation: string, tmp: string, mtmp: string, stage: Stage)

  function CommitOf(ad: Admitted, records: Records, w: Write): Commit
    requires w.Write?
  {
    Commit(ad.key, ad.hash, records, w.generation)
  }

  /** The disk's side of a commit fits what the scheduler sees of it. */
  ghost predicate WriteFits(settings: Settings, entries: Entries, ad: Admitted, records: Records, persist: Persist,
        w: Write)
  {
    if !IsSafeKey(ad.key) then w.NoWrite? && persist == CommitRaised(false)
    else
      && w.Write? && CommitNames(CommitOf(ad, records, w), w.tmp, w.mtmp) && FreshGeneration(entries, w.generation)
      && (persist.Stored? ==> w.stage == COMPLETE)
      && (persist.CommitRaised? ==> persist.lost == PayloadInPlace(w.stage))
  }

  function EntriesWith(settings: Settings, entries: Entries, ad: Admitted, records: Records, persist: Persist,
        w: Write): Entries
  {
    if w.NoWrite? then entries else StoreTheorems.EntriesAfter(settings, entries, CommitOf(ad, records, w), persist.Stored?)
  }

  function FilesWith(settings: Settings, entries: Entries, files: Files, ad: Admitted, records: Records,
        w: Write): Files
  {
    if w.NoWrite? then files else AtStage(settings, entries, files, CommitOf(ad, records, w), w.tmp, w.mtmp, w.stage)
  }

  predicate Reached(w: Write) {
    w.Write? && w.stage == COMPLETE
  }

  // ---------------------------------------------------------------- a run over a disk

  /** landed lists the commits whose manifest is in place, unreported those of them that raised. */
  datatype Books = Books(entries: Entries, files: Files, landed: seq<Admitted>, unreported: seq<Admitted>)

  datatype DiskStep = DiskStep(e: Event, w: Write)

  function Events(steps: seq<DiskStep>): seq<Event> {
    if steps == [] then [] else Events(steps[..|steps| - 1]) + [steps[|steps| - 1].e]
  }

  function Booked(settings: Settings, s: State, b: Books, d: DiskStep): Books {
    if !d.e.Finish? || d.e.i >= |s.inflight| then b
    else
      var ad := s.inflight[d.e.i];
      Books(EntriesWith(settings, b.entries, ad, d.e.records, d.e.persist, d.w),
            FilesWith(settings, b.entries, b.files, ad, d.e.records, d.w),
            if Reached(d.w) then b.landed + [ad] else b.landed,
            if Reached(d.w) && !d.e.persist.Stored? then b.unreported + [ad] else b.unreported)
  }

  ghost predicate StepFits(settings: Settings, s: State, b: Books, d: DiskStep) {
    d.e.Finish? && d.e.i < |s.inflight| ==>
      WriteFits(settings, b.entries, s.inflight[d.e.i], d.e.records, d.e.persist, d.w)
  }

  function BooksAfter(cfg: Config, settings: Settings, start: State, b: Books, steps: seq<DiskStep>): Books {
    if steps == [] then b
    else
      var prefix := steps[..|steps| - 1];
      Booked(settings, Replay(cfg, start, Events(prefix)), BooksAfter(cfg, settings, start, b, prefix), steps[|steps| - 1])
  }

  ghost predicate Fits(cfg: Config, settings: Settings, start: State, b: Books, steps: seq<DiskStep>) {
    steps == [] ||
      var prefix := steps[..|steps| - 1];
      && Fits(cfg, settings, start, b, prefix)
      && StepFits(settings, Replay(cfg, start, Events(prefix)), BooksAfter(cfg, settings, start, b, prefix),
                  steps[|steps| - 1])
  }

  lemma EventsSnoc(steps: seq<DiskStep>)
    requires steps != []
    ensures Events(steps) != [] && Events(steps)[..|Events(steps)| - 1] == Events(steps[..|steps| - 1])
    ensures Events(steps)[|Events(steps)| - 1] == steps[|steps| - 1].e
  {}

  // ---------------------------------------------------------------- what the books say

  ghost function LiveView(settings: Settings, b: Books): map<string, Cached> {
    View(settings, b.entries, b.files)
  }

  /** What the next opening finds, before it sweeps. */
  ghost function DiskView(settings: Settings, b: Books): map<string, Cached> {
    View(settings, EntriesOnOpen(settings, b.files), b.files)
  }

  /** A result that is on disk although its commit raised; the disk answers for it if the
      validator accepts it. */
  ghost predicate Stranded(cfg: Config, outcome: Item -> Outcome, leaves: seq<Admitted>, live: map<string, Cached>,
        disk: map<string, Cached>, ad: Admitted, records: Records)
  {
    && ad == Admit(cfg, ad.item, ad.depth) && outcome(ad.item) == Yields(records) && ad in leaves
    && ad.key !in live
    && disk == if cfg.accepts(records) then live[ad.key := Cached(ad.hash, records)] else live
  }

  ghost predicate DiskAgrees(cfg: Config, outcome: Item -> Outcome, leaves: seq<Admitted>, unreported: seq<Admitted>,
        live: map<string, Cached>, disk: map<string, Cached>)
  {
    if unreported == [] then disk == live
    else |unreported| == 1 && exists records :: Stranded(cfg, outcome, leaves, live, disk, unreported[0], records)
  }

  ghost predicate InSync(settings: Settings, b: Books) {
    LoadEntries(b.files, settings.fingerprint) == Some(b.entries)
  }

  /** The scheduler's cache is the live view; while the run goes on the manifest is memory;
      what landed is what was committed, plus what raised too late. */
  ghost predicate Adds(cfg: Config, outcome: Item -> Outcome, leaves: seq<Admitted>, s: State,
        live: map<string, Cached>, disk: map<string, Cached>, inSync: bool, landed: seq<Admitted>,
        unreported: seq<Admitted>)
  {
    && s.cache == live && landed == s.hist.committedLog + unreported
    && (s.stop.None? ==> unreported == [] && inSync)
    && DiskAgrees(cfg, outcome, leaves, unreported, live, disk)
  }

  ghost predicate Balanced(cfg: Config, settings: Settings, outcome: Item -> Outcome, leaves: seq<Admitted>, s: State,
        b: Books)
  {
    && WellFormed(b.entries)
    && Adds(cfg, outcome, leaves, s, LiveView(settings, b), DiskView(settings, b), InSync(settings, b), b.landed,
            b.unreported)
  }

  lemma SameBooksBalanced(cfg: Config, settings: Settings, outcome: Item -> Outcome, leaves: seq<Admitted>, s: State,
        b: Books, s': State)
    requires Balanced(cfg, settings, outcome, leaves, s, b)
    requires s'.cache == s.cache && s'.hist.committedLog == s.hist.committedLog && (s'.stop.None? ==> s.stop.None?)
    ensures Balanced(cfg, settings, outcome, leaves, s', b)
  {}

  /** The item whose commit is being booked. */
  ghost predicate Committing(cfg: Config, outcome: Item -> Outcome, leaves: seq<Admitted>, cache: map<string, Cached>,
        ad: Admitted, records: Records)
  {
    && ad == Admit(cfg, ad.item, ad.depth) && outcome(ad.item) == Yields(records) && ad in leaves
    && ad.key !in cache
  }

  /** What a commit did to the two views. */
  ghost predicate ViewsAfter(cfg: Config, ad: Admitted, records: Records, persist: Persist, reached: bool,
        live: map<string, Cached>, live': map<string, Cached>, disk': map<string, Cached>)
  {
    && live' == CacheWith(cfg, live, ad, records, persist)
    && if reached && !persist.Stored? && cfg.accepts(records) then
         ad.key !in live' && disk' == live'[ad.key := Cached(ad.hash, records)]
       else disk' == live'
  }

  lemma StoredBooks(cfg: Config, settings: Settings, b: Books, ad: Admitted, records: Records, persist: Persist,
        w: Write, b': Books)
    requires Wired(cfg, settings) && WellFormed(b.entries) && InSync(settings, b) && w.Write?
    requires WriteFits(settings, b.entries, ad, records, persist, w) && IsSafeKey(ad.key)
    requires b'.entries == EntriesWith(settings, b.entries, ad, records, persist, w)
    requires b'.files == FilesWith(settings, b.entries, b.files, ad, records, w)
    ensures WellFormed(b'.entries) && (persist.Stored? ==> InSync(settings, b'))
    ensures ViewsAfter(cfg, ad, records, persist, Reached(w), LiveView(settings, b), LiveView(settings, b'),
                       DiskView(settings, b'))
  {
    var c := CommitOf(ad, records, w);
    StoreTheorems.CommitView(settings, b.entries, b.files, c, w.tmp, w.mtmp, w.stage, persist.Stored?);
    StoreTheorems.ReopenedEntries(settings, b.entries, b.files, c, w.tmp, w.mtmp, w.stage);
    StoreTheorems.ReopenedAfterCommit(settings, b.entries, b.files, c, w.tmp, w.mtmp, w.stage, persist.Stored?, b'.files);
  }

  lemma CommitAdds(cfg: Config, outcome: Item -> Outcome, leaves: seq<Admitted>, s: State, ad: Admitted,
        records: Records, persist: Persist, reached: bool, landed: seq<Admitted>, s': State,
        live': map<string, Cached>, disk': map<string, Cached>, inSync': bool)
    requires landed == s.hist.committedLog && Committing(cfg, outcome, leaves, s.cache, ad, records)
    requires ViewsAfter(cfg, ad, records, persist, reached, s.cache, live', disk')
    requires persist.Stored? ==> reached && inSync'
    requires s'.cache == CacheWith(cfg, s.cache, ad, records, persist) && (s'.stop.None? ==> persist.Stored?)
    requires s'.hist.committedLog == if persist.Stored? then s.hist.committedLog + [ad] else s.hist.committedLog
    ensures Adds(cfg, outcome, leaves, s', live', disk', inSync', if reached then landed + [ad] else landed,
                 if reached && !persist.Stored? then [] + [ad] else [])
  {
    if reached && !persist.Stored? {
      var unreported: seq<Admitted> := [] + [ad];
      assert unreported[0] == ad;
      assert Stranded(cfg, outcome, leaves, live', disk', ad, records);
      assert DiskAgrees(cfg, outcome, leaves, unreported, live', disk');
    } else {
      assert s'.hist.committedLog + [] == s'.hist.committedLog;
    }
  }

  lemma FinishBalanced(cfg: Config, settings: Settings, outcome: Item -> Outcome, leaves: seq<Admitted>, s: State,
        b: Books, i: nat, records: Records, persist: Persist, w: Write, s': State, b': Books)
    requires Wired(cfg, settings) && Balanced(cfg, settings, outcome, leaves, s, b) && s.stop.None? && i < |s.inflight|
    requires Committing(cfg, outcome, leaves, s.cache, s.inflight[i], records)
    requires WriteFits(settings, b.entries, s.inflight[i], records, persist, w) && w.Write?
    requires s' == AfterFinish(cfg, s, i, records, persist)
    requires b' == Booked(settings, s, b, DiskStep(Finish(i, records, persist), w))
    ensures Balanced(cfg, settings, outcome, leaves, s', b')
  {
    var ad := s.inflight[i];
    StoredBooks(cfg, settings, b, ad, records, persist, w, b');
    CommitAdds(cfg, outcome, leaves, s, ad, records, persist, Reached(w), b.landed, s',
               LiveView(settings, b'), DiskView(settings, b'), InSync(settings, b'));
  }

  lemma RefusedBalanced(cfg: Config, settings: Settings, outcome: Item -> Outcome, leaves: seq<Admitted>, s: State,
        b: Books, i: nat, records: Records, persist: Persist, s': State)
    requires Balanced(cfg, settings, outcome, leaves, s, b) && s.stop.None? && i < |s.inflight|
    requires WriteFits(settings, b.entries, s.inflight[i], records, persist, NoWrite)
    requires s' == AfterFinish(cfg, s, i, records, persist)
    ensures Balanced(cfg, settings, outcome, leaves, s', b)
    ensures Booked(settings, s, b, DiskStep(Finish(i, records, persist), NoWrite)) == b
  {
    SameBooksBalanced(cfg, settings, outcome, leaves, s, b, s');
  }

  /** A step that commits nothing. */
  lemma OtherBalanced(cfg: Config, settings: Settings, outcome: Item -> Outcome, leaves: seq<Admitted>, s: State,
        b: Books, e: Event, s': State)
    requires Balanced(cfg, settings, outcome, leaves, s, b) && s.stop.None? && !e.Finish?
    requires Enabled(cfg, s, e) && s' == Step(cfg, s, e)
    ensures Balanced(cfg, settings, outcome, leaves, s', b)
  {
    Resume.OtherStepsKeepCache(cfg, s, e, s');
    SameBooksBalanced(cfg, settings, outcome, leaves, s, b, s');
  }

  lemma StepBalanced(cfg: Config, settings: Settings, outcome: Item -> Outcome, leaves: seq<Admitted>, s: State,
        b: Books, d: DiskStep, s': State, b': Books)
    requires Wired(cfg, settings) && Balanced(cfg, settings, outcome, leaves, s, b) && s.stop.None?
    requires Enabled(cfg, s, d.e) && s' == Step(cfg, s, d.e) && StepFits(settings, s, b, d)
    requires d.e.Finish? ==> Committing(cfg, outcome, leaves, s.cache, s.inflight[d.e.i], d.e.records)
    requires b' == Booked(settings, s, b, d)
    ensures Balanced(cfg, settings, outcome, leaves, s', b')
  {
    if !d.e.Finish? {
      OtherBalanced(cfg, settings, outcome, leaves, s, b, d.e, s');
    } else if d.w.NoWrite? {
      RefusedBalanced(cfg, settings, outcome, leaves, s, b, d.e.i, d.e.records, d.e.persist, s');
    } else {
      FinishBalanced(cfg, settings, outcome, leaves, s, b, d.e.i, d.e.records, d.e.persist, d.w, s', b');
    }
  }

  /** The books a run starts with on a freshly opened store. */
  function Opening(entries: Entries, files: Files): Books {
    Books(entries, files, [], [])
  }

  lemma FinishIsCommitting(cfg: Config, outcome: Item -> Outcome, items: seq<Item>, cache: map<string, Cached>,
        trace: seq<Event>, e: Event)
    requires Possible(cfg, Start(cfg, items, cache), trace) && Faithful(cfg, outcome, Start(cfg, items, cache), trace)
    requires Replay(cfg, Start(cfg, items, cache), trace).stop.None? && e.Finish?
    requires var s := Replay(cfg, Start(cfg, items, cache), trace);
      Enabled(cfg, s, e) && Obeys(cfg, outcome, s, e)
    ensures var s := Replay(cfg, Start(cfg, items, cache), trace);
      Committing(cfg, outcome, LeavesOfAll(cfg, outcome, items, 0), s.cache, s.inflight[e.i], e.records)
  {
    Resume.RunningIsLeaf(cfg, outcome, items, cache, trace, e.i);
    Resume.RunRetains(cfg, items, cache, trace);
    var s := Replay(cfg, Start(cfg, items, cache), trace);
    assert s.inflight[e.i] in s.inflight;
  }

  lemma OneMoreBalanced(cfg: Config, settings: Settings, outcome: Item -> Outcome, leaves: seq<Admitted>, s: State,
        b: Books, d: DiskStep, s': State, b': Books)
    requires Wired(cfg, settings) && Balanced(cfg, settings, outcome, leaves, s, b)
    requires Enabled(cfg, s, d.e) && s' == Step(cfg, s, d.e) && StepFits(settings, s, b, d)
    requires s.stop.None? && d.e.Finish? ==>
      Committing(cfg, outcome, leaves, s.cache, s.inflight[d.e.i], d.e.records)
    requires b' == Booked(settings, s, b, d)
    ensures Balanced(cfg, settings, outcome, leaves, s', b')
  {
    if s.stop.Some? {
      Conservation.StoppedStays(cfg, s, d.e);
      SameBooksBalanced(cfg, settings, outcome, leaves, s, b, s');
    } else {
      StepBalanced(cfg, settings, outcome, leaves, s, b, d, s', b');
    }
  }

  /** In every state a run over a freshly opened store reaches, its books balance. */
  lemma {:induction false} BooksBalance(cfg: Config, settings: Settings, outcome: Item -> Outcome, items: seq<Item>,
        b: Books, steps: seq<DiskStep>)
    requires Wired(cfg, settings) && WellFormed(b.entries) && InSync(settings, b) && b == Opening(b.entries, b.files)
    requires var start := Start(cfg, items, LiveView(settings, b));
      && Possible(cfg, start, Events(steps)) && Faithful(cfg, outcome, start, Events(steps))
      && Fits(cfg, settings, start, b, steps)
    ensures var start := Start(cfg, items, LiveView(settings, b));
      Balanced(cfg, settings, outcome, LeavesOfAll(cfg, outcome, items, 0), Replay(cfg, start, Events(steps)),
               BooksAfter(cfg, settings, start, b, steps))
  {
    var cache := LiveView(settings, b);
    var start, leaves := Start(cfg, items, cache), LeavesOfAll(cfg, outcome, items, 0);
    if steps != [] {
      var prefix, d := steps[..|steps| - 1], steps[|steps| - 1];
      var before := Replay(cfg, start, Events(prefix));
      EventsSnoc(steps);
      BooksBalance(cfg, settings, outcome, items, b, prefix);
      if before.stop.None? && d.e.Finish? { FinishIsCommitting(cfg, outcome, items, cache, Events(prefix), d.e); }
      OneMoreBalanced(cfg, settings, outcome, leaves, before, BooksAfter(cfg, settings, start, b, prefix), d,
                      Step(cfg, before, d.e), BooksAfter(cfg, settings, start, b, steps));
    }
  }
}
