/** One run of the orchestrator as a state machine: what each dispatch, completion and
    promotion does to the queues, the leaf frontier, the counters and the cache. The
    environment chooses which step happens next, which future finishes, with what outcome,
    what the clock reads and what the jitter draws. */
module Scheduler {
  import opened Wrappers
  import opened Jsonl
  import opened Work
  import Backoff
  import opened Store

  datatype Config = Config(
    contentKey: Payload -> (string, string),
    isOom: Exn -> bool,
    isTransient: Exn -> bool,
    splitPolicy: Option<SplitPolicy>,
    retry: RetryPolicy,
    concurrency: int,
    splitSize: Item -> int,
    maxSplitDepth: int,
    accepts: Records -> bool)   // the store's record validator

  /** The configured validator is the store's. */
  ghost predicate Wired(cfg: Config, settings: Settings) {
    forall records :: cfg.accepts(records) == Accepts(settings, records)
  }

  function MaxWorkers(cfg: Config): nat {
    if cfg.concurrency < 1 then 1 else cfg.concurrency
  }

  /** An item with the identity derived for it once, at admission. */
  datatype Admitted = Admitted(item: Item, key: string, hash: string, depth: nat)

  datatype Delayed = Delayed(readyAt: real, seqNo: nat, ad: Admitted)

  /** Why a run raises. */
  datatype Failure =
    | Fatal(exn: Exn)
    | DepthCap
    | NoChildren
    | NotShrinking
    | KeyCollision
    | RetryAfterError
    | StoreRaised

  /** What happened, for the statements about whole runs; the code keeps none of it. */
  datatype History = History(
    resumedLog: seq<Admitted>,        // leaves served from the cache, in order
    committedLog: seq<Admitted>,      // leaves executed and committed, in order
    runs: map<string, nat>,           // executions started, by key
    notBefore: map<string, real>,     // failure time plus the larger of backoff and server hint
    waited: map<string, real>,        // total delay scheduled, by key
    parents: map<string, string>,     // split child to split parent
    grown: int)                       // sum over splits of (children - 1)

  datatype State = State(
    ready: seq<Admitted>,
    delayed: seq<Delayed>,            // in heap order
    inflight: seq<Admitted>,          // in submission order
    live: map<string, string>,
    terminal: set<string>,
    terminalHash: map<string, string>,
    transient: map<string, nat>,
    seqNo: nat,
    attempts: nat,
    committed: nat,
    resumed: nat,
    retries: nat,
    splits: nat,
    stop: Option<Failure>,
    cache: map<string, Cached>,       // what the store answers True for
    hist: History)

  // ---------------------------------------------------------------- admission

  /** How admitting a list of items went: the keys live afterwards, and the items if none collided. */
  datatype Admission = Admission(live: map<string, string>, ads: seq<Admitted>, ok: bool)

  function Admit(cfg: Config, item: Item, depth: nat): Admitted {
    var (key, hash) := cfg.contentKey(item.payload);
    Admitted(item, key, hash, depth)
  }

  /** _admit over a list, up to the first key that is already live. */
  function AdmitAll(cfg: Config, items: seq<Item>, depth: nat, live: map<string, string>): Admission {
    if items == [] then Admission(live, [], true)
    else
      var ad := Admit(cfg, items[0], depth);
      if ad.key in live then Admission(live, [], false)
      else
        var rest := AdmitAll(cfg, items[1..], depth, live[ad.key := ad.hash]);
        Admission(rest.live, if rest.ok then [ad] + rest.ads else [], rest.ok)
  }

  function Keys(ads: seq<Admitted>): set<string> {
    set ad | ad in ads :: ad.key
  }

  function AddHashes(hashes: map<string, string>, ads: seq<Admitted>): map<string, string>
    decreases ads
  {
    if ads == [] then hashes else AddHashes(hashes[ads[0].key := ads[0].hash], ads[1..])
  }

  const NO_HISTORY := History([], [], map[], map[], map[], map[], 0)

  /** The state the main loop starts in. A duplicate root raises before anything runs. */
  function Start(cfg: Config, items: seq<Item>, cache: map<string, Cached>): State {
    var roots := AdmitAll(cfg, items, 0, map[]);
    var s := State([], [], [], roots.live, {}, map[], map[], 0, 0, 0, 0, 0, 0, None, cache, NO_HISTORY);
    if !roots.ok then s.(stop := Some(KeyCollision))
    else s.(ready := roots.ads, terminal := Keys(roots.ads), terminalHash := AddHashes(map[], roots.ads))
  }

  // ---------------------------------------------------------------- the delayed heap

  predicate Earlier(a: Delayed, b: Delayed) {
    a.readyAt < b.readyAt || (a.readyAt == b.readyAt && a.seqNo < b.seqNo)
  }

  /** heapq.heappush, the heap kept as the sequence heappop would give. */
  function Push(heap: seq<Delayed>, d: Delayed): seq<Delayed> {
    if heap == [] || Earlier(d, heap[0]) then [d] + heap else [heap[0]] + Push(heap[1..], d)
  }

  function Ads(heap: seq<Delayed>): seq<Admitted> {
    seq(|heap|, i requires 0 <= i < |heap| => heap[i].ad)
  }

  /** How many entries have matured. */
  function Matured(heap: seq<Delayed>, now: real): (n: nat)
    ensures n <= |heap|
  {
    if heap == [] || heap[0].readyAt > now then 0 else 1 + Matured(heap[1..], now)
  }

  // ---------------------------------------------------------------- failures

  predicate WantsSplit(cfg: Config, exn: Exn, item: Item) {
    cfg.splitPolicy.Some? && cfg.splitPolicy.value.shouldSplit(exn, item)
  }

  datatype Route = ToSplit | ToRetry | ToFatal

  /** OOM first, then the domain split, then transient, then fatal. */
  function Classify(cfg: Config, exn: Exn, item: Item): (route: Route)
    ensures route == ToSplit <==> WantsSplit(cfg, exn, item)
    ensures route == ToRetry ==> cfg.isTransient(exn) && !cfg.isOom(exn)
    ensures route == ToFatal ==> cfg.isOom(exn) || !cfg.isTransient(exn)
  {
    if cfg.isOom(exn) then (if WantsSplit(cfg, exn, item) then ToSplit else ToFatal)
    else if WantsSplit(cfg, exn, item) then ToSplit
    else if cfg.isTransient(exn) then ToRetry
    else ToFatal
  }

  function Children(cfg: Config, item: Item): seq<Item> {
    if cfg.splitPolicy.Some? then cfg.splitPolicy.value.split(item) else []
  }

  /** Why a split is refused before any child is admitted. */
  function SplitFault(cfg: Config, item: Item, depth: nat): Option<Failure> {
    var children := Children(cfg, item);
    if depth + 1 > cfg.maxSplitDepth then Some(DepthCap)
    else if children == [] then Some(NoChildren)
    else if cfg.splitSize(item) > 0 && (forall c | c in children :: cfg.splitSize(c) > 0)
         && (exists c | c in children :: cfg.splitSize(c) >= cfg.splitSize(item)) then Some(NotShrinking)
    else None
  }

  function AddParents(parents: map<string, string>, ads: seq<Admitted>, parent: string): map<string, string> {
    map k | k in parents.Keys + Keys(ads) :: if k in Keys(ads) then parent else parents[k]
  }

  /** The part of _handle_split that follows the admission of the children, which may have
      met a key that is already live. */
  function ReplaceLeaf(s: State, ad: Admitted, children: Admission): State {
    if !children.ok then s.(live := children.live, stop := Some(KeyCollision))
    else
      s.(live := children.live,
         terminal := s.terminal - {ad.key} + Keys(children.ads),
         terminalHash := AddHashes(s.terminalHash - {ad.key}, children.ads),
         ready := s.ready + children.ads,
         splits := s.splits + 1,
         hist := s.hist.(parents := AddParents(s.hist.parents, children.ads, ad.key),
                         grown := s.hist.grown + |children.ads| - 1))
  }

  /** The children of a split item, as admitted. */
  function AdmitChildren(cfg: Config, s: State, ad: Admitted): Admission {
    AdmitAll(cfg, Children(cfg, ad.item), ad.depth + 1, s.live)
  }

  /** _handle_split on an item already taken out of flight. */
  function Split(cfg: Config, s: State, ad: Admitted): State {
    var fault := SplitFault(cfg, ad.item, ad.depth);
    if fault.Some? then s.(stop := fault) else ReplaceLeaf(s, ad, AdmitChildren(cfg, s, ad))
  }

  function TransientCount(s: State, key: string): nat {
    if key in s.transient then s.transient[key] else 0
  }

  function ServerHint(retry: RetryPolicy, exn: Exn): Option<Seconds> {
    if retry.retryAfter.Some? then retry.retryAfter.value(exn) else None
  }

  predicate HintAcceptable(retry: RetryPolicy, hint: Option<Seconds>) {
    hint.None? || (hint.value.Finite? && 0.0 <= hint.value.s <= retry.maxServerDelay)
  }

  function HintSeconds(hint: Option<Seconds>): real {
    if hint.Some? && hint.value.Finite? then hint.value.s else 0.0
  }

  function Get0(m: map<string, real>, key: string): real {
    if key in m then m[key] else 0.0
  }

  function RetryDelay(cfg: Config, n: nat, exn: Exn, draw: real): real
    requires n >= 1
  {
    Backoff.Max(Backoff.BackoffDelay(cfg.retry, n, draw), HintSeconds(ServerHint(cfg.retry, exn)))
  }

  /** The delay after one more failure of the item's key. */
  function NextDelay(cfg: Config, s: State, ad: Admitted, exn: Exn, draw: real): real {
    RetryDelay(cfg, TransientCount(s, ad.key) + 1, exn, draw)
  }

  /** The transient branch on an item already taken out of flight; delay is the larger of
      backoff and server hint, wanted only if another try may follow. */
  function Retry(cfg: Config, s: State, ad: Admitted, exn: Exn, now: real, delay: real): State {
    var n := TransientCount(s, ad.key) + 1;
    var s' := s.(transient := s.transient[ad.key := n]);
    if n >= cfg.retry.maxAttempts then s'.(stop := Some(Fatal(exn)))
    else if !HintAcceptable(cfg.retry, ServerHint(cfg.retry, exn)) then s'.(stop := Some(RetryAfterError))
    else
      s'.(delayed := Push(s.delayed, Delayed(now + delay, s.seqNo, ad)),
          seqNo := s.seqNo + 1,
          retries := s.retries + 1,
          hist := s.hist.(notBefore := s.hist.notBefore[ad.key := now + delay],
                          waited := s.hist.waited[ad.key := Get0(s.hist.waited, ad.key) + delay]))
  }

  // ---------------------------------------------------------------- steps

  /** What store.has said. */
  datatype Lookup = Hit | Miss | HasRaised

  /** What store.commit did; when it raised it may have lost the key's own entry. */
  datatype Persist = Stored | CommitRaised(lost: bool)

  datatype Event =
    | Dispatch(lookup: Lookup)
    | Finish(i: nat, records: Records, persist: Persist)
    | Fail(i: nat, exn: Exn, now: real, draw: real)
    | Promote(clock: real)

  predicate LookupAgrees(cache: map<string, Cached>, ad: Admitted, lookup: Lookup) {
    && (lookup.Hit? <==> ad.key in cache && cache[ad.key].hash == ad.hash)
    && (lookup.Miss? ==> ad.key !in cache)
  }

  predicate Enabled(cfg: Config, s: State, e: Event) {
    match e
    case Dispatch(lookup) =>
      s.stop.None? && s.ready != [] && |s.inflight| < MaxWorkers(cfg) && LookupAgrees(s.cache, s.ready[0], lookup)
    case Finish(i, _, _) => s.stop.None? && i < |s.inflight|
    case Fail(i, _, _, _) => s.stop.None? && i < |s.inflight|
    case Promote(_) => true
  }

  function Remove<T>(s: seq<T>, i: nat): seq<T>
    requires i < |s|
  {
    s[..i] + s[i + 1..]
  }

  /** inflight.pop(fut). */
  function Taken(s: State, i: nat): State
    requires i < |s.inflight|
  {
    s.(inflight := Remove(s.inflight, i))
  }

  /** Executions started under a key. */
  function RunsOf(hist: History, key: string): nat {
    if key in hist.runs then hist.runs[key] else 0
  }

  function AfterDispatch(s: State, lookup: Lookup): State
    requires s.ready != []
  {
    var ad, s' := s.ready[0], s.(ready := s.ready[1..]);
    match lookup
    case Hit => s'.(resumed := s.resumed + 1, hist := s.hist.(resumedLog := s.hist.resumedLog + [ad]))
    case Miss =>
      s'.(inflight := s.inflight + [ad], attempts := s.attempts + 1,
          hist := s.hist.(runs := s.hist.runs[ad.key := RunsOf(s.hist, ad.key) + 1]))
    case HasRaised => s'.(stop := Some(StoreRaised))
  }

  /** What the store answers for after a commit: a result its validator rejects is committed
      and yet never answered for. */
  function CacheWith(cfg: Config, cache: map<string, Cached>, ad: Admitted, records: Records,
        persist: Persist): map<string, Cached>
  {
    match persist
    case Stored => if cfg.accepts(records) then cache[ad.key := Cached(ad.hash, records)] else cache - {ad.key}
    case CommitRaised(lost) => if lost then cache - {ad.key} else cache
  }

  /** What the run makes of a commit that returned, or raised. */
  function Reported(s: State, ad: Admitted, returned: bool): State {
    if returned then s.(committed := s.committed + 1, hist := s.hist.(committedLog := s.hist.committedLog + [ad]))
    else s.(stop := Some(StoreRaised))
  }

  /** store.commit of the result of an item already taken out of flight. */
  function Persisted(cfg: Config, s: State, ad: Admitted, records: Records, persist: Persist): State {
    Reported(s.(cache := CacheWith(cfg, s.cache, ad, records, persist)), ad, persist.Stored?)
  }

  function AfterFinish(cfg: Config, s: State, i: nat, records: Records, persist: Persist): State
    requires i < |s.inflight|
  {
    Persisted(cfg, Taken(s, i), s.inflight[i], records, persist)
  }

  /** _route_exception on an item already taken out of flight. */
  function Routed(cfg: Config, s: State, ad: Admitted, exn: Exn, now: real, draw: real): State {
    match Classify(cfg, exn, ad.item)
    case ToSplit => Split(cfg, s, ad)
    case ToRetry => Retry(cfg, s, ad, exn, now, NextDelay(cfg, s, ad, exn, draw))
    case ToFatal => s.(stop := Some(Fatal(exn)))
  }

  function AfterFail(cfg: Config, s: State, i: nat, exn: Exn, now: real, draw: real): State
    requires i < |s.inflight|
  {
    Routed(cfg, Taken(s, i), s.inflight[i], exn, now, draw)
  }

  function AfterPromote(s: State, now: real): State {
    var n := Matured(s.delayed, now);
    s.(ready := s.ready + Ads(s.delayed[..n]), delayed := s.delayed[n..])
  }

  function Step(cfg: Config, s: State, e: Event): State {
    if !Enabled(cfg, s, e) then s
    else match e
    case Dispatch(lookup) => AfterDispatch(s, lookup)
    case Finish(i, records, persist) => AfterFinish(cfg, s, i, records, persist)
    case Fail(i, exn, now, draw) => AfterFail(cfg, s, i, exn, now, draw)
    case Promote(clock) => AfterPromote(s, clock)
  }

  // ---------------------------------------------------------------- runs

  function Replay(cfg: Config, s: State, trace: seq<Event>): State {
    if trace == [] then s
    else Step(cfg, Replay(cfg, s, trace[..|trace| - 1]), trace[|trace| - 1])
  }

  /** A finite stretch of a run: events that were each possible when they happened. */
  predicate Possible(cfg: Config, s: State, trace: seq<Event>) {
    trace == [] ||
      (Possible(cfg, s, trace[..|trace| - 1]) &&
       Enabled(cfg, Replay(cfg, s, trace[..|trace| - 1]), trace[|trace| - 1]))
  }

  predicate Busy(s: State) {
    s.ready != [] || s.delayed != [] || s.inflight != []
  }

  /** The main loop ends here, and not with an exception. */
  predicate Finished(s: State) {
    s.stop.None? && !Busy(s)
  }
}
