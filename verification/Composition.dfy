/** The scheduler over the store: a cache that went through any history of crashes and
    re-openings is a sound cache to run on. */
module Composition {
  import Utf8
  import opened Work
  import Store
  import StoreTheorems
  import opened Scheduler
  import opened Transparency
  import StoreHistory

  /** Every commit made under this fingerprint stored what its key and payload hash stand for. */
  ghost predicate CommitsAreRight(cfg: Config, outcome: Item -> Outcome, fingerprint: string,
        log: map<string, StoreHistory.Logged>)
  {
    forall g: string, item: Item | g in log && log[g].writer.fingerprint == fingerprint
        && cfg.contentKey(item.payload) == (log[g].commit.key, log[g].commit.hash) ::
      outcome(item) == Yields(log[g].commit.records)
  }

  ghost function LiveView(w: StoreHistory.World): map<string, Store.Cached>
    requires w.live.Some?
  {
    Store.View(w.live.value.cfg, w.live.value.entries, w.files)
  }

  /** What the reopened store answers for is what the items yield: after any history of
      commits, crashes, lost and reverted files, and, if the digest is collision-free, even
      arbitrary bytes in payload files. */
  lemma SurvivorsAreSound(cfg: Config, outcome: Item -> Outcome, digest: Utf8.Bytes -> string,
        history: seq<StoreHistory.Event>)
    requires StoreHistory.Possible(digest, history) && StoreHistory.After(history).live.Some?
    requires !StoreHistory.After(history).corrupted || StoreTheorems.CollisionFree(digest)
    requires var w := StoreHistory.After(history); CommitsAreRight(cfg, outcome, w.live.value.cfg.fingerprint, w.log)
    ensures SoundCache(cfg, outcome, LiveView(StoreHistory.After(history)))
  {
    var w := StoreHistory.After(history);
    forall item ensures SoundFor(cfg, outcome, LiveView(w), item) {
      var (key, hash) := cfg.contentKey(item.payload);
      if key in LiveView(w) && LiveView(w)[key].hash == hash {
        Store.ViewAnswersProbes(w.live.value.cfg, w.live.value.entries, w.files, key, hash);
        StoreHistory.HitIsVouchedFor(digest, history, key, hash);
        var g :| StoreHistory.VouchedFor(digest, w, key, hash, g);
        assert LiveView(w)[key].records == w.log[g].commit.records;
      }
    }
  }

  /** A run over the survivors of any such history returns what a sequential uncached
      evaluation of the split tree returns. */
  lemma RunAfterAnyHistory(cfg: Config, outcome: Item -> Outcome, digest: Utf8.Bytes -> string,
        history: seq<StoreHistory.Event>, items: seq<Item>, trace: seq<Event>)
    requires StoreHistory.Possible(digest, history) && StoreHistory.After(history).live.Some?
    requires !StoreHistory.After(history).corrupted || StoreTheorems.CollisionFree(digest)
    requires var w := StoreHistory.After(history); CommitsAreRight(cfg, outcome, w.live.value.cfg.fingerprint, w.log)
    requires var start := Start(cfg, items, LiveView(StoreHistory.After(history)));
      Possible(cfg, start, trace) && Faithful(cfg, outcome, start, trace) && Finished(Replay(cfg, start, trace))
    ensures Stitches(cfg, outcome, LeavesOfAll(cfg, outcome, items, 0),
                     Replay(cfg, Start(cfg, items, LiveView(StoreHistory.After(history))), trace))
  {
    SurvivorsAreSound(cfg, outcome, digest, history);
    RunIsTransparent(cfg, outcome, items, LiveView(StoreHistory.After(history)), trace);
  }
}
