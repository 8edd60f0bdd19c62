/** Runs one after the other, each of which reopens the store on the disk the one before it left:
    how a failed or killed run is resumed. */
module Sessions {
  import Jsonl
  import opened Manifest
  import opened Work
  import opened Store
  import opened StoreTheorems
  import opened Scheduler
  import opened Transparency
  import opened Resume
  import opened Ledger
  import Conservation
  import Flow

  /** One opening of the store, with the files the sweep left, and one run over it. The run may
      finish, raise, or simply end, as when the process dies. */
  datatype Session = Session(left: Files, steps: seq<DiskStep>)

  /** The books a session starts with, on the given disk. */
  function BooksOnOpen(settings: Settings, files: Files, se: Session): Books {
    Opening(EntriesOnOpen(settings, files), se.left)
  }

  ghost function SessionCache(settings: Settings, files: Files, se: Session): map<string, Cached> {
    LiveView(settings, BooksOnOpen(settings, files, se))
  }

  ghost function SessionStart(cfg: Config, settings: Settings, items: seq<Item>, files: Files, se: Session): State {
    Start(cfg, items, SessionCache(settings, files, se))
  }

  ghost function SessionEnd(cfg: Config, settings: Settings, items: seq<Item>, files: Files, se: Session): State {
    Replay(cfg, SessionStart(cfg, settings, items, files, se), Events(se.steps))
  }

  ghost function SessionBooks(cfg: Config, settings: Settings, items: seq<Item>, files: Files, se: Session): Books {
    BooksAfter(cfg, settings, SessionStart(cfg, settings, items, files, se), BooksOnOpen(settings, files, se), se.steps)
  }

  ghost predicate SessionHappens(cfg: Config, settings: Settings, outcome: Item -> Outcome, items: seq<Item>,
        files: Files, se: Session)
  {
    var start := SessionStart(cfg, settings, items, files, se);
    && Opened(settings, files, se.left)
    && Possible(cfg, start, Events(se.steps)) && Faithful(cfg, outcome, start, Events(se.steps))
    && Fits(cfg, settings, start, BooksOnOpen(settings, files, se), se.steps)
  }

  /** What the caller promises about all sessions: one validator for run and store, an identity
      that identifies the work, and keys no sweep takes for temporary files. */
  ghost predicate Promised(cfg: Config, settings: Settings, outcome: Item -> Outcome) {
    && Wired(cfg, settings) && IdentityFixesOutcome(cfg, outcome)
    && forall item: Item :: !IsTmpName(FileName(cfg.contentKey(item.payload).0))
  }

  // ---------------------------------------------------------------- soundness, durable part

  /** Only lasting keys are ever asked for. */
  lemma LastingIsSound(cfg: Config, settings: Settings, outcome: Item -> Outcome, view: map<string, Cached>)
    requires Promised(cfg, settings, outcome)
    ensures SoundCache(cfg, outcome, view) <==> SoundCache(cfg, outcome, Lasting(view))
  {
    forall item ensures SoundFor(cfg, outcome, view, item) <==> SoundFor(cfg, outcome, Lasting(view), item) {
      assert !IsTmpName(FileName(cfg.contentKey(item.payload).0));
    }
  }

  lemma SessionStartsSound(cfg: Config, settings: Settings, outcome: Item -> Outcome, files: Files, se: Session)
    requires Promised(cfg, settings, outcome) && Opened(settings, files, se.left)
    requires SoundCache(cfg, outcome, Durable(settings, files))
    ensures SoundCache(cfg, outcome, SessionCache(settings, files, se))
    ensures Lasting(SessionCache(settings, files, se)) == Durable(settings, files)
  {
    OpeningKeepsDurable(settings, files, se.left);
    LastingIsSound(cfg, settings, outcome, SessionCache(settings, files, se));
  }

  lemma SessionBalances(cfg: Config, settings: Settings, outcome: Item -> Outcome, items: seq<Item>, files: Files,
        se: Session)
    requires Promised(cfg, settings, outcome) && SessionHappens(cfg, settings, outcome, items, files, se)
    ensures Balanced(cfg, settings, outcome, LeavesOfAll(cfg, outcome, items, 0),
                     SessionEnd(cfg, settings, items, files, se), SessionBooks(cfg, settings, items, files, se))
  {
    OpenIsStable(settings, files, se.left);
    BooksBalance(cfg, settings, outcome, items, BooksOnOpen(settings, files, se), se.steps);
  }

  // ---------------------------------------------------------------- one session

  predicate LastingKeys(log: seq<Admitted>) {
    forall a | a in log :: !IsTmpName(FileName(a.key))
  }

  /** Landing is accumulating, seen through lasting names. */
  lemma LastingAccumulates(cfg: Config, outcome: Item -> Outcome, initial: map<string, Cached>, log: seq<Admitted>,
        view: map<string, Cached>)
    requires Accumulates(cfg, outcome, initial, log, view) && LastingKeys(log)
    ensures Accumulates(cfg, outcome, Lasting(initial), log, Lasting(view))
  {
    AcceptedMembers(cfg, outcome, log);
  }

  /** A commit that raised too late adds what one that returned would have. */
  lemma StrandedAccumulates(cfg: Config, outcome: Item -> Outcome, leaves: seq<Admitted>, live: map<string, Cached>,
        disk: map<string, Cached>, ad: Admitted, records: Jsonl.Records)
    requires Stranded(cfg, outcome, leaves, live, disk, ad, records)
    ensures Accumulates(cfg, outcome, live, [ad], disk)
  {
    assert [ad][1..] == [] && [ad] + [] == [ad];
    assert AcceptedOf(cfg, outcome, [ad]) == if Accepted(cfg, outcome, ad) then [ad] else [];
    Flow.KeysSnoc([], ad);
    assert [] + [ad] == [ad];
  }

  lemma LandedAccumulates(cfg: Config, outcome: Item -> Outcome, leaves: seq<Admitted>, initial: map<string, Cached>,
        s: State, disk: map<string, Cached>, inSync: bool, landed: seq<Admitted>, unreported: seq<Admitted>)
    requires Retains(initial, s) && Extends(cfg, outcome, initial, s)
    requires Adds(cfg, outcome, leaves, s, s.cache, disk, inSync, landed, unreported)
    ensures Accumulates(cfg, outcome, initial, landed, disk)
  {
    var log := s.hist.committedLog;
    RunAccumulates(cfg, outcome, initial, s);
    if unreported == [] {
      assert landed == log;
    } else {
      var ad := unreported[0];
      assert unreported == [ad];
      var records :| Stranded(cfg, outcome, leaves, s.cache, disk, ad, records);
      StrandedAccumulates(cfg, outcome, leaves, s.cache, disk, ad, records);
      AccumulateMore(cfg, outcome, initial, log, s.cache, [ad], disk);
    }
  }

  lemma SoundDisk(cfg: Config, outcome: Item -> Outcome, leaves: seq<Admitted>, s: State, disk: map<string, Cached>,
        inSync: bool, landed: seq<Admitted>, unreported: seq<Admitted>)
    requires SoundCache(cfg, outcome, s.cache) && IdentityFixesOutcome(cfg, outcome)
    requires Adds(cfg, outcome, leaves, s, s.cache, disk, inSync, landed, unreported)
    requires AreLeaves(leaves, s.hist.committedLog)
    ensures SoundCache(cfg, outcome, disk) && AreLeaves(leaves, landed)
  {
    if unreported != [] {
      var ad := unreported[0];
      assert unreported == [ad];
      var records :| Stranded(cfg, outcome, leaves, s.cache, disk, ad, records);
      CommitKeepsSound(cfg, outcome, s.cache, ad, records);
    }
  }

  /** Keys the content-key function gave are lasting. */
  lemma CommittedAreLasting(cfg: Config, settings: Settings, outcome: Item -> Outcome, items: seq<Item>,
        cache: map<string, Cached>, trace: seq<Event>)
    requires Promised(cfg, settings, outcome) && Possible(cfg, Start(cfg, items, cache), trace)
    ensures LastingKeys(Replay(cfg, Start(cfg, items, cache), trace).hist.committedLog)
  {
    CommittedAreAdmitted(cfg, items, cache, trace);
    var log := Replay(cfg, Start(cfg, items, cache), trace).hist.committedLog;
    forall a | a in log ensures !IsTmpName(FileName(a.key)) {
      assert a == Admit(cfg, a.item, a.depth);
    }
  }

  lemma {:induction false} CommittedAreAdmitted(cfg: Config, items: seq<Item>, cache: map<string, Cached>,
        trace: seq<Event>)
    requires Possible(cfg, Start(cfg, items, cache), trace)
    ensures forall a | a in Replay(cfg, Start(cfg, items, cache), trace).hist.committedLog ::
      a == Admit(cfg, a.item, a.depth)
  {
    var start := Start(cfg, items, cache);
    if trace != [] {
      var before, e := Replay(cfg, start, trace[..|trace| - 1]), trace[|trace| - 1];
      CommittedAreAdmitted(cfg, items, cache, trace[..|trace| - 1]);
      Conservation.ReachableConserved(cfg, items, cache, trace[..|trace| - 1]);
      if before.stop.Some? {
        Conservation.StoppedStays(cfg, before, e);
      } else {
        StepCommitsAdmitted(cfg, before, e);
      }
    }
  }

  lemma StepCommitsAdmitted(cfg: Config, s: State, e: Event)
    requires s.stop.None? && Enabled(cfg, s, e) && Conservation.Conserved(cfg, s)
    requires forall a | a in s.hist.committedLog :: a == Admit(cfg, a.item, a.depth)
    ensures forall a | a in Step(cfg, s, e).hist.committedLog :: a == Admit(cfg, a.item, a.depth)
  {
    if e.Finish? {
      Flow.TakenFlow(s, e.i);
      assert s.inflight[e.i] in Flow.Frontier(s);
    } else {
      OtherStepsKeepCache(cfg, s, e, Step(cfg, s, e));
    }
  }

  lemma UnreportedAreLasting(cfg: Config, settings: Settings, outcome: Item -> Outcome, leaves: seq<Admitted>, s: State,
        disk: map<string, Cached>, inSync: bool, landed: seq<Admitted>, unreported: seq<Admitted>)
    requires Promised(cfg, settings, outcome) && LastingKeys(s.hist.committedLog)
    requires Adds(cfg, outcome, leaves, s, s.cache, disk, inSync, landed, unreported)
    ensures LastingKeys(landed)
  {
    if unreported != [] {
      var ad := unreported[0];
      assert unreported == [ad];
      assert ad == Admit(cfg, ad.item, ad.depth);
    }
  }

  /** One session adds to the durable part of the cache exactly the accepted results whose
      manifest reached the disk, each under a key that was not there, and keeps it sound. */
  lemma SessionAccumulates(cfg: Config, settings: Settings, outcome: Item -> Outcome, items: seq<Item>, files: Files,
        se: Session, b: Books)
    requires Promised(cfg, settings, outcome) && SessionHappens(cfg, settings, outcome, items, files, se)
    requires SoundCache(cfg, outcome, Durable(settings, files)) && b == SessionBooks(cfg, settings, items, files, se)
    ensures Accumulates(cfg, outcome, Durable(settings, files), b.landed, Durable(settings, b.files))
    ensures SoundCache(cfg, outcome, Durable(settings, b.files))
    ensures AreLeaves(LeavesOfAll(cfg, outcome, items, 0), b.landed)
  {
    var cache, trace := SessionCache(settings, files, se), Events(se.steps);
    var s, leaves := SessionEnd(cfg, settings, items, files, se), LeavesOfAll(cfg, outcome, items, 0);
    var disk, inSync := DiskView(settings, b), Ledger.InSync(settings, b);
    SessionStartsSound(cfg, settings, outcome, files, se);
    SessionBalances(cfg, settings, outcome, items, files, se);
    assert Adds(cfg, outcome, leaves, s, s.cache, disk, inSync, b.landed, b.unreported);
    RunRetains(cfg, items, cache, trace);
    RunExtends(cfg, outcome, items, cache, trace);
    RunKeepsSound(cfg, outcome, items, cache, trace);
    CommittedAreLeaves(cfg, outcome, items, cache, trace);
    CommittedAreLasting(cfg, settings, outcome, items, cache, trace);
    SessionDisk(cfg, settings, outcome, leaves, cache, s, disk, inSync, b.landed, b.unreported);
  }

  lemma SessionDisk(cfg: Config, settings: Settings, outcome: Item -> Outcome, leaves: seq<Admitted>,
        cache: map<string, Cached>, s: State, disk: map<string, Cached>, inSync: bool, landed: seq<Admitted>,
        unreported: seq<Admitted>)
    requires Promised(cfg, settings, outcome) && SoundCache(cfg, outcome, s.cache)
    requires Retains(cache, s) && Extends(cfg, outcome, cache, s)
    requires LastingKeys(s.hist.committedLog) && AreLeaves(leaves, s.hist.committedLog)
    requires Adds(cfg, outcome, leaves, s, s.cache, disk, inSync, landed, unreported)
    ensures Accumulates(cfg, outcome, Lasting(cache), landed, Lasting(disk))
    ensures SoundCache(cfg, outcome, Lasting(disk)) && AreLeaves(leaves, landed)
  {
    LandedAccumulates(cfg, outcome, leaves, cache, s, disk, inSync, landed, unreported);
    UnreportedAreLasting(cfg, settings, outcome, leaves, s, disk, inSync, landed, unreported);
    LastingAccumulates(cfg, outcome, cache, landed, disk);
    SoundDisk(cfg, outcome, leaves, s, disk, inSync, landed, unreported);
    LastingIsSound(cfg, settings, outcome, disk);
  }

  // ---------------------------------------------------------------- many sessions

  /** The disk after all sessions, every commit that returned, every commit whose manifest
      reached the disk, and those of them that raised. */
  datatype Record = Record(files: Files, returned: seq<Admitted>, landed: seq<Admitted>, unreported: seq<Admitted>)

  ghost function RecordOf(cfg: Config, settings: Settings, items: seq<Item>, files: Files,
        sessions: seq<Session>): Record
  {
    if sessions == [] then Record(files, [], [], [])
    else
      var r, last := RecordOf(cfg, settings, items, files, sessions[..|sessions| - 1]), sessions[|sessions| - 1];
      var b, s := SessionBooks(cfg, settings, items, r.files, last), SessionEnd(cfg, settings, items, r.files, last);
      Record(b.files, r.returned + s.hist.committedLog, r.landed + b.landed, r.unreported + b.unreported)
  }

  ghost predicate AllHappen(cfg: Config, settings: Settings, outcome: Item -> Outcome, items: seq<Item>, files: Files,
        sessions: seq<Session>)
  {
    sessions == [] ||
      var prefix := sessions[..|sessions| - 1];
      && AllHappen(cfg, settings, outcome, items, files, prefix)
      && SessionHappens(cfg, settings, outcome, items, RecordOf(cfg, settings, items, files, prefix).files,
                        sessions[|sessions| - 1])
  }

  /** Over any sequence of sessions, failed, killed or finished, with an intact disk: nothing
      durable is lost, and no key whose result the validator accepts lands twice. The disk ends
      up answering for exactly what it answered for at first and those that landed. */
  lemma {:induction false} NothingLandsTwice(cfg: Config, settings: Settings, outcome: Item -> Outcome,
        items: seq<Item>, files: Files, sessions: seq<Session>)
    requires Promised(cfg, settings, outcome) && AllHappen(cfg, settings, outcome, items, files, sessions)
    requires SoundCache(cfg, outcome, Durable(settings, files))
    ensures var r := RecordOf(cfg, settings, items, files, sessions);
      && Accumulates(cfg, outcome, Durable(settings, files), r.landed, Durable(settings, r.files))
      && SoundCache(cfg, outcome, Durable(settings, r.files))
      && AreLeaves(LeavesOfAll(cfg, outcome, items, 0), r.landed)
  {
    if sessions == [] {
      NothingLanded(cfg, outcome, Durable(settings, files));
    } else {
      var prefix, last := sessions[..|sessions| - 1], sessions[|sessions| - 1];
      var r := RecordOf(cfg, settings, items, files, prefix);
      var b := SessionBooks(cfg, settings, items, r.files, last);
      NothingLandsTwice(cfg, settings, outcome, items, files, prefix);
      SessionAccumulates(cfg, settings, outcome, items, r.files, last, b);
      AccumulateMore(cfg, outcome, Durable(settings, files), r.landed, Durable(settings, r.files), b.landed,
                     Durable(settings, b.files));
    }
  }

  lemma NothingLanded(cfg: Config, outcome: Item -> Outcome, view: map<string, Cached>)
    ensures Accumulates(cfg, outcome, view, [], view)
  {
    assert Keys([]) == {};
  }

  /** What landed is what was returned and what raised too late, key by key. */
  lemma {:induction false} LandedIsReturnedOrNot(cfg: Config, settings: Settings, outcome: Item -> Outcome,
        items: seq<Item>, files: Files, sessions: seq<Session>, key: string)
    requires Promised(cfg, settings, outcome) && AllHappen(cfg, settings, outcome, items, files, sessions)
    ensures var r := RecordOf(cfg, settings, items, files, sessions);
      CommitsOf(r.landed, key) == CommitsOf(r.returned, key) + CommitsOf(r.unreported, key)
  {
    if sessions != [] {
      var prefix, last := sessions[..|sessions| - 1], sessions[|sessions| - 1];
      var r := RecordOf(cfg, settings, items, files, prefix);
      var b, s := SessionBooks(cfg, settings, items, r.files, last), SessionEnd(cfg, settings, items, r.files, last);
      LandedIsReturnedOrNot(cfg, settings, outcome, items, files, prefix, key);
      SessionBalances(cfg, settings, outcome, items, r.files, last);
      CommitsOfJoin(r.returned, s.hist.committedLog, key);
      CommitsOfJoin(r.landed, b.landed, key);
      CommitsOfJoin(r.unreported, b.unreported, key);
      CommitsOfJoin(s.hist.committedLog, b.unreported, key);
    }
  }

  ghost predicate Within(log: seq<Admitted>, all: seq<Admitted>) {
    forall a | a in log :: a in all
  }

  lemma WithinJoin(a: seq<Admitted>, b: seq<Admitted>, c: seq<Admitted>, d: seq<Admitted>)
    requires Within(a, b) && Within(c, d)
    ensures Within(a + c, b + d)
  {}

  /** What raised too late has landed. */
  lemma {:induction false} LandedHasBoth(cfg: Config, settings: Settings, outcome: Item -> Outcome,
        items: seq<Item>, files: Files, sessions: seq<Session>)
    requires Promised(cfg, settings, outcome) && AllHappen(cfg, settings, outcome, items, files, sessions)
    ensures var r := RecordOf(cfg, settings, items, files, sessions); Within(r.unreported, r.landed)
  {
    if sessions != [] {
      var prefix, last := sessions[..|sessions| - 1], sessions[|sessions| - 1];
      var r := RecordOf(cfg, settings, items, files, prefix);
      var b := SessionBooks(cfg, settings, items, r.files, last);
      LandedHasBoth(cfg, settings, outcome, items, files, prefix);
      SessionHasBoth(cfg, settings, outcome, items, r.files, last, b);
      WithinJoin(r.unreported, r.landed, b.unreported, b.landed);
    }
  }

  lemma SessionHasBoth(cfg: Config, settings: Settings, outcome: Item -> Outcome, items: seq<Item>, files: Files,
        se: Session, b: Books)
    requires Promised(cfg, settings, outcome) && SessionHappens(cfg, settings, outcome, items, files, se)
    requires b == SessionBooks(cfg, settings, items, files, se)
    ensures Within(b.unreported, b.landed)
  {
    SessionBalances(cfg, settings, outcome, items, files, se);
  }

  /** A session that got to the end of its run. */
  ghost predicate Finishes(cfg: Config, settings: Settings, items: seq<Item>, files: Files, se: Session) {
    Finished(SessionEnd(cfg, settings, items, files, se))
  }

  /** A finished session: the leaves are the split tree's, no two with one key, the disk answers
      for the ones the validator accepts and every other one was committed in this session. */
  ghost predicate Settles(cfg: Config, settings: Settings, outcome: Item -> Outcome, leaves: seq<Admitted>, s: State,
        b: Books)
  {
    && Stitches(cfg, outcome, leaves, s) && OwnKeys(leaves)
    && b.unreported == [] && b.landed == s.hist.committedLog && Lasting(s.cache) == Durable(settings, b.files)
    && (forall a | a in leaves :: a in b.landed || a.key in Durable(settings, b.files))
    && (forall a | a in leaves && Accepted(cfg, outcome, a) :: a.key in Durable(settings, b.files))
  }

  lemma FinishedSettles(cfg: Config, settings: Settings, outcome: Item -> Outcome, items: seq<Item>, files: Files,
        se: Session, s: State, b: Books)
    requires Promised(cfg, settings, outcome) && SessionHappens(cfg, settings, outcome, items, files, se)
    requires SoundCache(cfg, outcome, Durable(settings, files)) && Finishes(cfg, settings, items, files, se)
    requires s == SessionEnd(cfg, settings, items, files, se) && b == SessionBooks(cfg, settings, items, files, se)
    ensures Settles(cfg, settings, outcome, LeavesOfAll(cfg, outcome, items, 0), s, b)
  {
    var cache, trace, leaves := SessionCache(settings, files, se), Events(se.steps), LeavesOfAll(cfg, outcome, items, 0);
    SessionStartsSound(cfg, settings, outcome, files, se);
    FinishedBooks(cfg, settings, outcome, items, files, se, s, b);
    RunIsTransparent(cfg, outcome, items, cache, trace);
    LeavesHaveOwnKeys(cfg, outcome, items, cache, trace);
    forall a | a in leaves
      ensures !IsTmpName(FileName(a.key)) && (a in s.hist.committedLog || a.key in s.cache)
      ensures Accepted(cfg, outcome, a) ==> a.key in s.cache
    {
      LeafIsLasting(cfg, settings, outcome, items, cache, trace, s, a);
      FinishedHasLeaf(cfg, outcome, items, cache, trace, s, a);
    }
  }

  lemma FinishedBooks(cfg: Config, settings: Settings, outcome: Item -> Outcome, items: seq<Item>, files: Files,
        se: Session, s: State, b: Books)
    requires Promised(cfg, settings, outcome) && SessionHappens(cfg, settings, outcome, items, files, se)
    requires s == SessionEnd(cfg, settings, items, files, se) && b == SessionBooks(cfg, settings, items, files, se)
    requires s.stop.None?
    ensures b.unreported == [] && b.landed == s.hist.committedLog && DiskView(settings, b) == s.cache
  {
    SessionBalances(cfg, settings, outcome, items, files, se);
    assert s.hist.committedLog + [] == s.hist.committedLog;
  }

  lemma LeafIsLasting(cfg: Config, settings: Settings, outcome: Item -> Outcome, items: seq<Item>,
        cache: map<string, Cached>, trace: seq<Event>, s: State, a: Admitted)
    requires Promised(cfg, settings, outcome) && SoundCache(cfg, outcome, cache)
    requires Possible(cfg, Start(cfg, items, cache), trace) && Faithful(cfg, outcome, Start(cfg, items, cache), trace)
    requires s == EndOf(cfg, items, cache, trace) && Finished(s) && a in LeavesOfAll(cfg, outcome, items, 0)
    ensures !IsTmpName(FileName(a.key))
  {
    FinishedAtLeaves(cfg, outcome, items, cache, trace);
    Flow.BagMembers(LeavesOfAll(cfg, outcome, items, 0));
    assert a in Flow.Settled(s) && a in Flow.Frontier(s);
    assert a == Admit(cfg, a.item, a.depth);
  }

  /** Whether a key was answered for before the first session, and how often it landed and its
      commit returned over all of them. */
  ghost predicate CommitsAddUp(initial: map<string, Cached>, r: Record, key: string) {
    && CommitsOf(r.landed, key) == (if key in initial then 0 else 1)
    && (CommitsOf(r.returned, key) == 1 <==> key !in initial && key !in Keys(r.unreported))
    && (CommitsOf(r.returned, key) == 0 <==> key in initial || key in Keys(r.unreported))
  }

  lemma AddUp(cfg: Config, outcome: Item -> Outcome, leaves: seq<Admitted>, initial: map<string, Cached>, r: Record,
        durable: map<string, Cached>, leaf: Admitted)
    requires Accumulates(cfg, outcome, initial, r.landed, durable) && AreLeaves(leaves, r.landed) && OwnKeys(leaves)
    requires leaf in leaves && Accepted(cfg, outcome, leaf) && leaf.key in durable
    requires CommitsOf(r.landed, leaf.key) == CommitsOf(r.returned, leaf.key) + CommitsOf(r.unreported, leaf.key)
    ensures CommitsAddUp(initial, r, leaf.key)
  {
    AcceptedCount(cfg, outcome, leaves, initial, r.landed, durable, leaf);
    CountedIffThere(r.unreported, leaf.key);
  }

  lemma {:induction false} CountedIffThere(log: seq<Admitted>, key: string)
    ensures CommitsOf(log, key) > 0 <==> key in Keys(log)
  {
    if log != [] {
      assert log == [log[0]] + log[1..];
      assert Keys(log) == {log[0].key} + Keys(log[1..]);
      CountedIffThere(log[1..], key);
    }
  }

  /** The last session of a sequence finishes. */
  ghost predicate LastFinishes(cfg: Config, settings: Settings, items: seq<Item>, files: Files, sessions: seq<Session>,
        last: State)
  {
    && sessions != [] && Finished(last)
    && var before := RecordOf(cfg, settings, items, files, sessions[..|sessions| - 1]).files;
       last == SessionEnd(cfg, settings, items, before, sessions[|sessions| - 1])
  }

  /** After any number of failed or killed sessions and one that finishes, every leaf not
      durable beforehand whose result the validator accepts has landed exactly once; its commit
      has returned exactly once, unless it was one of those that raised although their manifest
      was in place, and then never. */
  lemma FailuresThenSuccess(cfg: Config, settings: Settings, outcome: Item -> Outcome, items: seq<Item>, files: Files,
        sessions: seq<Session>, last: State, leaf: Admitted)
    requires Promised(cfg, settings, outcome) && AllHappen(cfg, settings, outcome, items, files, sessions)
    requires SoundCache(cfg, outcome, Durable(settings, files))
    requires LastFinishes(cfg, settings, items, files, sessions, last)
    requires leaf in LeavesOfAll(cfg, outcome, items, 0) && Accepted(cfg, outcome, leaf)
    ensures CommitsAddUp(Durable(settings, files), RecordOf(cfg, settings, items, files, sessions), leaf.key)
    ensures Stitches(cfg, outcome, LeavesOfAll(cfg, outcome, items, 0), last)
  {
    var r, leaves := RecordOf(cfg, settings, items, files, sessions), LeavesOfAll(cfg, outcome, items, 0);
    NothingLandsTwice(cfg, settings, outcome, items, files, sessions);
    LastSettles(cfg, settings, outcome, items, files, sessions, last);
    LandedIsReturnedOrNot(cfg, settings, outcome, items, files, sessions, leaf.key);
    AddUp(cfg, outcome, leaves, Durable(settings, files), r, Durable(settings, r.files), leaf);
  }

  lemma LastSettles(cfg: Config, settings: Settings, outcome: Item -> Outcome, items: seq<Item>, files: Files,
        sessions: seq<Session>, last: State)
    requires Promised(cfg, settings, outcome) && AllHappen(cfg, settings, outcome, items, files, sessions)
    requires SoundCache(cfg, outcome, Durable(settings, files))
    requires LastFinishes(cfg, settings, items, files, sessions, last)
    ensures var before := RecordOf(cfg, settings, items, files, sessions[..|sessions| - 1]).files;
      Settles(cfg, settings, outcome, LeavesOfAll(cfg, outcome, items, 0), last,
              SessionBooks(cfg, settings, items, before, sessions[|sessions| - 1]))
  {
    var prefix, se := sessions[..|sessions| - 1], sessions[|sessions| - 1];
    var before := RecordOf(cfg, settings, items, files, prefix).files;
    NothingLandsTwice(cfg, settings, outcome, items, files, prefix);
    FinishedSettles(cfg, settings, outcome, items, before, se, last, SessionBooks(cfg, settings, items, before, se));
  }

  /** Every accepted leaf that was not durable beforehand has had its commit return exactly once. */
  ghost predicate EachReturnedOnce(cfg: Config, outcome: Item -> Outcome, leaves: seq<Admitted>,
        initial: map<string, Cached>, r: Record)
  {
    forall a | a in leaves && Accepted(cfg, outcome, a) && a.key !in initial :: CommitsOf(r.returned, a.key) == 1
  }

  /** Over such a sequence the commit of every new accepted leaf returned exactly once if and
      only if no commit of an accepted result raised with its manifest in place. */
  lemma ExactlyOnceIff(cfg: Config, settings: Settings, outcome: Item -> Outcome, items: seq<Item>, files: Files,
        sessions: seq<Session>, last: State)
    requires Promised(cfg, settings, outcome) && AllHappen(cfg, settings, outcome, items, files, sessions)
    requires SoundCache(cfg, outcome, Durable(settings, files))
    requires LastFinishes(cfg, settings, items, files, sessions, last)
    ensures var r := RecordOf(cfg, settings, items, files, sessions);
      EachReturnedOnce(cfg, outcome, LeavesOfAll(cfg, outcome, items, 0), Durable(settings, files), r)
      <==> !exists a :: a in r.unreported && Accepted(cfg, outcome, a)
  {
    var r, leaves := RecordOf(cfg, settings, items, files, sessions), LeavesOfAll(cfg, outcome, items, 0);
    var initial := Durable(settings, files);
    NothingLandsTwice(cfg, settings, outcome, items, files, sessions);
    LandedHasBoth(cfg, settings, outcome, items, files, sessions);
    LastSettles(cfg, settings, outcome, items, files, sessions, last);
    forall a | a in leaves && Accepted(cfg, outcome, a) ensures CommitsAddUp(initial, r, a.key) {
      FailuresThenSuccess(cfg, settings, outcome, items, files, sessions, last, a);
    }
    OnceIff(cfg, outcome, leaves, initial, r);
  }

  lemma OnceIff(cfg: Config, outcome: Item -> Outcome, leaves: seq<Admitted>, initial: map<string, Cached>, r: Record)
    requires (forall a | a in r.unreported :: a in leaves && a.key !in initial) && OwnKeys(leaves)
    requires forall a | a in leaves && Accepted(cfg, outcome, a) :: CommitsAddUp(initial, r, a.key)
    ensures EachReturnedOnce(cfg, outcome, leaves, initial, r)
       <==> !exists a :: a in r.unreported && Accepted(cfg, outcome, a)
  {
    forall a | a in leaves && Accepted(cfg, outcome, a)
      ensures CommitsAddUp(initial, r, a.key) && (a.key in Keys(r.unreported) <==> a in r.unreported)
    {
      if a.key in Keys(r.unreported) { OnlyLeafOfKey(leaves, r.unreported, a); }
    }
    if a :| a in r.unreported && Accepted(cfg, outcome, a) {
      assert a in leaves && a.key !in initial;
    }
  }

  lemma OnlyLeafOfKey(leaves: seq<Admitted>, log: seq<Admitted>, leaf: Admitted)
    requires AreLeaves(leaves, log) && OwnKeys(leaves) && leaf in leaves && leaf.key in Keys(log)
    ensures leaf in log
  {
    var a :| a in log && a.key == leaf.key;
    assert a in leaves;
  }

  // ---------------------------------------------------------------- what lands again

  /** A leaf that has landed and lands again in a later session is one whose result the
      validator refuses; and every such leaf lands again in every later session that finishes. */
  lemma LandsAgainIff(cfg: Config, settings: Settings, outcome: Item -> Outcome, items: seq<Item>, files: Files,
        sessions: seq<Session>, before: Record, se: Session, s: State, b: Books, leaf: Admitted)
    requires Promised(cfg, settings, outcome) && SoundCache(cfg, outcome, Durable(settings, files))
    requires AllHappen(cfg, settings, outcome, items, files, sessions)
    requires before == RecordOf(cfg, settings, items, files, sessions) && leaf in before.landed
    requires SessionHappens(cfg, settings, outcome, items, before.files, se)
    requires s == SessionEnd(cfg, settings, items, before.files, se)
    requires b == SessionBooks(cfg, settings, items, before.files, se)
    ensures leaf in b.landed ==> !Accepted(cfg, outcome, leaf)
    ensures Finished(s) ==> (leaf in b.landed <==> !Accepted(cfg, outcome, leaf))
  {
    var leaves := LeavesOfAll(cfg, outcome, items, 0);
    var initial, middle, durable := Durable(settings, files), Durable(settings, before.files), Durable(settings, b.files);
    NothingLandsTwice(cfg, settings, outcome, items, files, sessions);
    SessionAccumulates(cfg, settings, outcome, items, before.files, se, b);
    if leaf in b.landed {
      AcceptedIsThere(cfg, outcome, initial, before.landed, middle, b.landed, durable, leaf);
    } else if Finished(s) {
      FinishedSettles(cfg, settings, outcome, items, before.files, se, s, b);
      RefusedIsNowhere(cfg, outcome, leaves, initial, before.landed, middle, b.landed, durable, leaf);
    }
  }

  lemma AcceptedIsThere(cfg: Config, outcome: Item -> Outcome, initial: map<string, Cached>, landed: seq<Admitted>,
        middle: map<string, Cached>, more: seq<Admitted>, durable: map<string, Cached>, leaf: Admitted)
    requires Accumulates(cfg, outcome, initial, landed, middle) && Accumulates(cfg, outcome, middle, more, durable)
    requires leaf in landed && leaf in more
    ensures !Accepted(cfg, outcome, leaf)
  {
    AcceptedMembers(cfg, outcome, landed);
  }

  /** The disk never answers for a refused leaf that has landed. */
  lemma RefusedIsNowhere(cfg: Config, outcome: Item -> Outcome, leaves: seq<Admitted>, initial: map<string, Cached>,
        landed: seq<Admitted>, middle: map<string, Cached>, more: seq<Admitted>, durable: map<string, Cached>,
        leaf: Admitted)
    requires Accumulates(cfg, outcome, initial, landed, middle) && Accumulates(cfg, outcome, middle, more, durable)
    requires AreLeaves(leaves, landed) && AreLeaves(leaves, more) && OwnKeys(leaves) && leaf in landed
    ensures leaf.key in durable ==> Accepted(cfg, outcome, leaf)
  {
    AcceptedMembers(cfg, outcome, landed);
    AcceptedMembers(cfg, outcome, more);
    assert leaf.key !in initial;
    if leaf.key in middle {
      OnlyLeafOfKey(leaves, AcceptedOf(cfg, outcome, landed), leaf);
    } else if leaf.key in durable {
      OnlyLeafOfKey(leaves, AcceptedOf(cfg, outcome, more), leaf);
    }
  }

  // ---------------------------------------------------------------- running again

  /** Reopening the store after a finished session and running the same items again commits
      nothing, resumes every leaf, executes only the items that split again (and their
      transient failures), and stitches the same output. */
  lemma RunningAgainRepeatsReopened(cfg: Config, settings: Settings, outcome: Item -> Outcome, items: seq<Item>,
        files: Files, one: Session, two: Session, middle: Files, first: State, second: State)
    requires Promised(cfg, settings, outcome) && SoundCache(cfg, outcome, Durable(settings, files))
    requires SessionHappens(cfg, settings, outcome, items, files, one)
    requires middle == SessionBooks(cfg, settings, items, files, one).files
    requires SessionHappens(cfg, settings, outcome, items, middle, two)
    requires AllAccepted(cfg, outcome, LeavesOfAll(cfg, outcome, items, 0))
    requires first == SessionEnd(cfg, settings, items, files, one) && Finished(first)
    requires second == SessionEnd(cfg, settings, items, middle, two) && Finished(second)
    ensures Repeats(first, SessionCache(settings, middle, two), second)
  {
    var b := SessionBooks(cfg, settings, items, files, one);
    var reopened := SessionCache(settings, middle, two);
    SessionAccumulates(cfg, settings, outcome, items, files, one, b);
    FinishedSettles(cfg, settings, outcome, items, files, one, first, b);
    SessionStartsSound(cfg, settings, outcome, files, one);
    SessionStartsSound(cfg, settings, outcome, middle, two);
    forall k | k in first.terminal ensures k in reopened {
      assert k in Keys(LeavesOfAll(cfg, outcome, items, 0));
      assert k in Lasting(reopened);
    }
    RunningAgainRepeats(cfg, outcome, items, SessionCache(settings, files, one), Events(one.steps), reopened,
                        Events(two.steps), first, second);
  }
}
