/** Queue discovery and the two background passes over all queues (KnownQueues in
    internal/cogs/store.go; reapPass and retryPass in internal/cogs/loops.go). Other processes
    act between any two commands, so what a pass covers is stated over the whole span. */
module Loops {
  import opened Wrappers
  import opened Keys
  import opened Ranking
  import M = Model
  import opened Redis
  import opened Scripts
  import opened Storage
  import Draining
  import Lifecycle

  const SUFFIXES: seq<string> := ["pending", "leased", "retry"]

  function Structure(i: nat, q: string): Key
    requires i < 3
  {
    if i == 0 then Pending(q) else if i == 1 then Leased(q) else Retry(q)
  }

  lemma StructureKey(i: nat, q: string)
    requires i < 3
    ensures Render(Structure(i, q)) == "queue:" + q + (":" + SUFFIXES[i])
    ensures Glob(Render(Structure(i, q)), SUFFIXES[i]) && QueueOf(Render(Structure(i, q))) == q
  {
    var k := Render(Structure(i, q));
    assert k == "queue:" + q + (":" + SUFFIXES[i]);
    assert k[6..] == q + (":" + SUFFIXES[i]);
    QueueOfOne(k, q, SUFFIXES[i]);
  }

  /** What matches a pattern is the key of one queue's structure, whatever the queue's name. */
  lemma GlobStructure(k: string, i: nat)
    requires i < 3 && Glob(k, SUFFIXES[i])
    ensures k == Render(Structure(i, QueueOf(k)))
  {
    var q := k[6..|k|-1-|SUFFIXES[i]|];
    assert k == "queue:" + q + (":" + SUFFIXES[i]);
    StructureKey(i, q);
  }

  /** The run went on while the clock went from `now` to `later`. */
  predicate Moves(t: M.Trace, t': M.Trace, now: int, later: int) {
    Continues(t, t') && now <= later && Draining.NotBefore(t', |t|, now)
  }

  /** The structure is not empty after the run. */
  ghost predicate Lists(c: M.Config, t: M.Trace, i: nat, q: string)
    requires i < 3
  {
    Image(M.Run(c, t), Structure(i, q)).Some?
  }

  /** The three structures, by the fields of the queue. */
  lemma StructureLists(c: M.Config, t: M.Trace, q: string)
    ensures Lists(c, t, 0, q) <==> M.Run(c, t).queues[q].pending != []
    ensures Lists(c, t, 1, q) <==> M.Run(c, t).queues[q].leased != map[]
    ensures Lists(c, t, 2, q) <==> M.Run(c, t).queues[q].retry != map[]
  {
    assert M.Run(c, t).queues[q].leased == map[] || |M.Run(c, t).queues[q].leased| > 0;
  }

  /** At every moment since step `from` the queue had something pending ... */
  ghost predicate AlwaysPending(c: M.Config, t: M.Trace, from: nat, q: string) {
    forall m | from <= m <= |t| :: M.Run(c, t[..m]).queues[q].pending != []
  }

  /** ... or leased ... */
  ghost predicate AlwaysLeased(c: M.Config, t: M.Trace, from: nat, q: string) {
    forall m | from <= m <= |t| :: M.Run(c, t[..m]).queues[q].leased != map[]
  }

  /** ... or waiting for a retry. */
  ghost predicate AlwaysRetrying(c: M.Config, t: M.Trace, from: nat, q: string) {
    forall m | from <= m <= |t| :: M.Run(c, t[..m]).queues[q].retry != map[]
  }

  lemma AlwaysStays(c: M.Config, t: M.Trace, from: nat, q: string)
    ensures AlwaysPending(c, t, from, q) <==> Stays(c, t, from, 0, q)
    ensures AlwaysLeased(c, t, from, q) <==> Stays(c, t, from, 1, q)
    ensures AlwaysRetrying(c, t, from, q) <==> Stays(c, t, from, 2, q)
  {
    hide M.Run, Lists;
    forall m | from <= m <= |t|
      ensures Lists(c, t[..m], 0, q) <==> M.Run(c, t[..m]).queues[q].pending != []
      ensures Lists(c, t[..m], 1, q) <==> M.Run(c, t[..m]).queues[q].leased != map[]
      ensures Lists(c, t[..m], 2, q) <==> M.Run(c, t[..m]).queues[q].retry != map[]
    {
      StructureLists(c, t[..m], q);
    }
  }

  /** ... and has not been empty since step `from`. */
  ghost predicate Stays(c: M.Config, t: M.Trace, from: nat, i: nat, q: string)
    requires i < 3
  {
    forall m | from <= m <= |t| :: Lists(c, t[..m], i, q)
  }

  lemma StaysEarlier(c: M.Config, t: M.Trace, t': M.Trace, from: nat, i: nat, q: string)
    requires i < 3 && Continues(t, t') && Stays(c, t', from, i, q)
    ensures Stays(c, t, from, i, q)
  {
    forall m | from <= m <= |t| ensures Lists(c, t[..m], i, q) {
      assert t[..m] == t'[..m];
    }
  }

  function Slot(redis: RedisServer, i: nat, q: string): nat
    requires i < 3 && redis.slots >= 1
  {
    redis.slotOf(Render(Structure(i, q))) % redis.slots
  }

  /** The scan has passed the slot of structure i of queue q. */
  predicate Passed(redis: RedisServer, pattern: nat, cursor: nat, i: nat, q: string)
    requires i < 3 && redis.slots >= 1
  {
    i < pattern || (i == pattern && Slot(redis, i, q) < cursor)
  }

  ghost predicate Found(redis: RedisServer, c: M.Config, t: M.Trace, from: nat, pattern: nat, cursor: nat,
                        seen: set<string>, i: nat, q: string)
    requires i < 3 && redis.slots >= 1
  {
    q != "" && Stays(c, t, from, i, q) && Passed(redis, pattern, cursor, i, q) ==> q in seen
  }

  /** Every queue whose structure was passed, and was there all along, is in `seen`. */
  ghost predicate Covered(redis: RedisServer, c: M.Config, t: M.Trace, from: nat, pattern: nat, cursor: nat,
                          seen: set<string>)
    requires redis.slots >= 1
  {
    forall i: nat, q | i < 3 :: Found(redis, c, t, from, pattern, cursor, seen, i, q)
  }

  ghost predicate Listed(c: M.Config, t: M.Trace, from: nat, q: string) {
    q != "" && exists i: nat, m: nat | i < 3 && from <= m <= |t| :: Lists(c, t[..m], i, q)
  }

  /** Every name in `seen` is a queue that had something at some moment of the scan. */
  ghost predicate Justified(c: M.Config, t: M.Trace, from: nat, seen: set<string>) {
    forall q | q in seen :: Listed(c, t, from, q)
  }

  lemma Later(redis: RedisServer, c: M.Config, t: M.Trace, t': M.Trace, from: nat, pattern: nat, cursor: nat,
              seen: set<string>)
    requires redis.slots >= 1 && Continues(t, t')
    requires Covered(redis, c, t, from, pattern, cursor, seen) && Justified(c, t, from, seen)
    ensures Covered(redis, c, t', from, pattern, cursor, seen) && Justified(c, t', from, seen)
  {
    forall i: nat, q | i < 3 ensures Found(redis, c, t', from, pattern, cursor, seen, i, q) {
      assert Found(redis, c, t, from, pattern, cursor, seen, i, q);
      if Stays(c, t', from, i, q) { StaysEarlier(c, t, t', from, i, q); }
    }
    forall q | q in seen ensures Listed(c, t', from, q) {
      assert Listed(c, t, from, q);
      var i: nat, m: nat :| i < 3 && from <= m <= |t| && Lists(c, t[..m], i, q);
      assert t[..m] == t'[..m];
    }
  }

  ghost predicate Named(page: seq<string>, q: string) { q != "" && exists k | k in page :: QueueOf(k) == q }

  /** Every name a page of keys gives is collected, and nothing else. */
  ghost predicate Collects(page: seq<string>, seen: set<string>, seen': set<string>) {
    forall q :: q in seen' <==> q in seen || Named(page, q)
  }

  lemma NamedMore(page: seq<string>, k: string, q: string)
    ensures Named(page + [k], q) <==> Named(page, q) || (q != "" && QueueOf(k) == q)
  {
    var more := page + [k];
    assert k in more;
    if Named(page, q) {
      var j :| j in page && QueueOf(j) == q;
      assert j in more;
    }
  }

  method Collect(page: seq<string>, seen: set<string>) returns (seen': set<string>)
    ensures Collects(page, seen, seen')
  {
    seen' := seen;
    for n := 0 to |page|
      invariant Collects(page[..n], seen, seen')
    {
      var name := QueueFromKey(page[n]);
      forall q { NamedMore(page[..n], page[n], q); }
      assert page[..n + 1] == page[..n] + [page[n]];
      if name != "" {
        seen' := seen' + {name};
      }
    }
    assert page[..|page|] == page;
  }

  /** A page read now holds every matching key of one slot, and only matching keys. */
  ghost predicate PageOf(redis: RedisServer, keys: Keyspace, pattern: nat, cursor: nat, page: seq<string>)
    requires pattern < 3 && redis.slots >= 1
  {
    && (forall k | k in keys && Glob(k, SUFFIXES[pattern]) && redis.slotOf(k) % redis.slots == cursor :: k in page)
    && (forall k | k in page :: k in keys && Glob(k, SUFFIXES[pattern]))
  }

  lemma NowListed(c: M.Config, t: M.Trace, keys: Keyspace, i: nat, q: string)
    requires i < 3 && Represents(keys, M.Run(c, t))
    ensures Lists(c, t[..|t|], i, q) <==> Render(Structure(i, q)) in keys
  {
    assert t[..|t|] == t;
    assert Redis.Agrees(keys, M.Run(c, t), Structure(i, q));
  }

  lemma PageFinds(redis: RedisServer, c: M.Config, t: M.Trace, from: nat, keys: Keyspace, pattern: nat, cursor: nat,
                  page: seq<string>, seen: set<string>, seen': set<string>, i: nat, q: string)
    requires pattern < 3 && i < 3 && redis.slots >= 1 && from <= |t| && Represents(keys, M.Run(c, t))
    requires PageOf(redis, keys, pattern, cursor, page) && Collects(page, seen, seen')
    requires Found(redis, c, t, from, pattern, cursor, seen, i, q)
    ensures Found(redis, c, t, from, pattern, cursor + 1, seen', i, q)
  {
    if q != "" && Stays(c, t, from, i, q) && i == pattern && Slot(redis, i, q) == cursor {
      assert Lists(c, t[..|t|], i, q);
      NowListed(c, t, keys, i, q);
      StructureKey(i, q);
      assert Named(page, q) by { assert Render(Structure(i, q)) in page; }
    }
  }

  lemma PageJustified(redis: RedisServer, c: M.Config, t: M.Trace, from: nat, keys: Keyspace, pattern: nat, cursor: nat,
                      page: seq<string>, k: string)
    requires pattern < 3 && redis.slots >= 1 && from <= |t| && Represents(keys, M.Run(c, t))
    requires PageOf(redis, keys, pattern, cursor, page) && k in page && QueueOf(k) != ""
    ensures Listed(c, t, from, QueueOf(k))
  {
    GlobStructure(k, pattern);
    NowListed(c, t, keys, pattern, QueueOf(k));
  }

  lemma PageCovers(redis: RedisServer, c: M.Config, t: M.Trace, from: nat, keys: Keyspace, pattern: nat, cursor: nat,
                   page: seq<string>, seen: set<string>, seen': set<string>)
    requires pattern < 3 && redis.slots >= 1 && from <= |t| && Represents(keys, M.Run(c, t))
    requires PageOf(redis, keys, pattern, cursor, page) && Collects(page, seen, seen')
    requires Covered(redis, c, t, from, pattern, cursor, seen) && Justified(c, t, from, seen)
    ensures Covered(redis, c, t, from, pattern, cursor + 1, seen') && Justified(c, t, from, seen')
  {
    var passed := cursor + 1;
    forall i: nat, q | i < 3 ensures Found(redis, c, t, from, pattern, passed, seen', i, q) {
      assert Found(redis, c, t, from, pattern, cursor, seen, i, q);
      PageFinds(redis, c, t, from, keys, pattern, cursor, page, seen, seen', i, q);
    }
    forall q | q in seen' ensures Listed(c, t, from, q) {
      if q in seen {
        assert Listed(c, t, from, q);
      } else {
        assert Named(page, q);
        var k :| k in page && QueueOf(k) == q;
        PageJustified(redis, c, t, from, keys, pattern, cursor, page, k);
      }
    }
  }

  /** One SCAN call and the names on its page. */
  method ScanPage(store: Store, ghost from: nat, pattern: nat, cursor: nat, seen: set<string>, also: string -> bool)
    returns (next: nat, seen': set<string>)
    requires store.Valid() && pattern < 3 && cursor < store.redis.slots && from <= |store.trace|
    requires Covered(store.redis, store.cfg, store.trace, from, pattern, cursor, seen)
    requires Justified(store.cfg, store.trace, from, seen)
    modifies store, store.redis
    ensures store.Valid() && Moves(old(store.trace), store.trace, old(store.redis.clock), store.redis.clock)
    ensures Covered(store.redis, store.cfg, store.trace, from, pattern, cursor + 1, seen')
    ensures Justified(store.cfg, store.trace, from, seen')
    ensures next == if cursor + 1 < store.redis.slots then cursor + 1 else 0
  {
    store.Others({});
    Later(store.redis, store.cfg, old(store.trace), store.trace, from, pattern, cursor, seen);
    var page;
    page, next := store.redis.Scan(cursor, SUFFIXES[pattern], also);
    seen' := Collect(page, seen);
    PageCovers(store.redis, store.cfg, store.trace, from, store.redis.keys, pattern, cursor, page, seen, seen');
  }

  lemma NothingYet(redis: RedisServer, c: M.Config, t: M.Trace, from: nat)
    requires redis.slots >= 1
    ensures Covered(redis, c, t, from, 0, 0, {}) && Justified(c, t, from, {})
  {
  }

  /** After the last slot of a pattern the scan moves on to the next pattern. */
  lemma NextPattern(redis: RedisServer, c: M.Config, t: M.Trace, from: nat, pattern: nat, seen: set<string>)
    requires redis.slots >= 1 && Covered(redis, c, t, from, pattern, redis.slots, seen)
    ensures Covered(redis, c, t, from, pattern + 1, 0, seen)
  {
    var done := pattern + 1;
    forall i: nat, q | i < 3 ensures Found(redis, c, t, from, done, 0, seen, i, q) {
      assert Found(redis, c, t, from, pattern, redis.slots, seen, i, q);
    }
  }

  /** Every queue that had a pending, leased or retry structure all along is in the list. */
  ghost predicate Discovers(c: M.Config, t: M.Trace, from: nat, names: set<string>) {
    forall i: nat, q | i < 3 && q != "" && Stays(c, t, from, i, q) :: q in names
  }

  lemma AllPassed(redis: RedisServer, c: M.Config, t: M.Trace, from: nat, seen: set<string>)
    requires redis.slots >= 1 && Covered(redis, c, t, from, 3, 0, seen)
    ensures Discovers(c, t, from, seen)
  {
    forall i: nat, q | i < 3 && q != "" && Stays(c, t, from, i, q) ensures q in seen {
      assert Found(redis, c, t, from, 3, 0, seen, i, q);
    }
  }

  /** What each SCAN call meets: no answer, or an answer that may hold further matching keys. */
  type Scans = (nat, nat) -> Option<string -> bool>

  method ScanPattern(store: Store, ghost from: nat, pattern: nat, names: set<string>, scans: Scans)
    returns (ok: bool, seen: set<string>)
    requires store.Valid() && pattern < 3 && store.redis.slots >= 1 && from <= |store.trace|
    requires Covered(store.redis, store.cfg, store.trace, from, pattern, 0, names)
    requires Justified(store.cfg, store.trace, from, names)
    modifies store, store.redis
    ensures store.Valid() && Moves(old(store.trace), store.trace, old(store.redis.clock), store.redis.clock)
    ensures ok ==> Covered(store.redis, store.cfg, store.trace, from, pattern + 1, 0, seen)
    ensures ok ==> Justified(store.cfg, store.trace, from, seen)
    ensures !ok ==> exists cursor: nat :: scans(pattern, cursor).None?
  {
    hide Recorded;
    seen := names;
    var cursor := 0;
    var next := 1;
    while next != 0
      invariant 0 <= cursor < store.redis.slots && (next == 0 ==> cursor == store.redis.slots - 1)
      invariant store.Valid() && Moves(old(store.trace), store.trace, old(store.redis.clock), store.redis.clock)
      invariant Covered(store.redis, store.cfg, store.trace, from, pattern,
                        if next == 0 then cursor + 1 else cursor, seen)
      invariant Justified(store.cfg, store.trace, from, seen)
      decreases store.redis.slots - cursor, next
    {
      var answer := scans(pattern, cursor);
      if answer.None? {
        return false, seen;
      }
      next, seen := ScanPage(store, from, pattern, cursor, seen, answer.value);
      if next != 0 {
        cursor := next;
      }
    }
    NextPattern(store.redis, store.cfg, store.trace, from, pattern, seen);
    ok := true;
  }

  /** The names are those of queues that had something at some moment since step `from`; no
      queue is missing that had something pending all along, or leased, or to be retried. */
  ghost predicate Discovered(c: M.Config, t: M.Trace, from: nat, names: seq<string>) {
    && Distinct(names)
    && (forall q | q != "" && AlwaysPending(c, t, from, q) :: q in names)
    && (forall q | q != "" && AlwaysLeased(c, t, from, q) :: q in names)
    && (forall q | q != "" && AlwaysRetrying(c, t, from, q) :: q in names)
    && (forall q | q in names :: q != "" && exists m | from <= m <= |t| :: HasWork(M.Run(c, t[..m]).queues[q]))
  }

  predicate HasWork(z: M.Queue) { z.pending != [] || z.leased != map[] || z.retry != map[] }

  lemma Discovery(c: M.Config, t: M.Trace, from: nat, seen: set<string>, names: seq<string>)
    requires Discovers(c, t, from, seen) && Justified(c, t, from, seen) && Distinct(names) && Members(names) == seen
    ensures Discovered(c, t, from, names)
  {
    hide M.Run, Stays, AlwaysPending, AlwaysLeased, AlwaysRetrying, Lists;
    forall q { AlwaysStays(c, t, from, q); }
    assert forall q :: q in names <==> q in seen;
    forall q | q in names ensures q != "" && exists m | from <= m <= |t| :: HasWork(M.Run(c, t[..m]).queues[q]) {
      assert Listed(c, t, from, q);
      var i: nat, m: nat :| i < 3 && from <= m <= |t| && Lists(c, t[..m], i, q);
      StructureLists(c, t[..m], q);
      assert HasWork(M.Run(c, t[..m]).queues[q]);
    }
  }

  /** Three scans. The first SCAN call that is not answered ends it. */
  method KnownQueues(store: Store, scans: Scans) returns (r: Reply<seq<string>>)
    requires store.Valid() && store.redis.slots >= 1
    modifies store, store.redis
    ensures store.Valid() && Moves(old(store.trace), store.trace, old(store.redis.clock), store.redis.clock)
    ensures r.Ok? ==> Discovered(store.cfg, store.trace, |old(store.trace)|, r.value)
    ensures r.Failed? ==> exists pattern: nat, cursor: nat :: scans(pattern, cursor).None?
  {
    hide Recorded;
    ghost var from := |store.trace|;
    var seen := {};
    NothingYet(store.redis, store.cfg, store.trace, from);
    var pattern := 0;
    while pattern < 3
      invariant 0 <= pattern <= 3
      invariant store.Valid() && Moves(old(store.trace), store.trace, old(store.redis.clock), store.redis.clock)
      invariant Covered(store.redis, store.cfg, store.trace, from, pattern, 0, seen)
      invariant Justified(store.cfg, store.trace, from, seen)
    {
      var ok, more := ScanPattern(store, from, pattern, seen, scans);
      if !ok {
        return Failed;
      }
      seen, pattern := more, pattern + 1;
    }
    AllPassed(store.redis, store.cfg, store.trace, from, seen);
    var names := Listing(seen);
    Discovery(store.cfg, store.trace, from, seen, names);
    return Ok(names);
  }

  // ----- one pass over all queues ---------------------------------------------------------

  /** Since step `from` the queue's set was drained with a clock sample from `since` on. */
  ghost predicate WasDrained(t: M.Trace, from: nat, q: string, bump: bool, since: int) {
    exists m | from <= m < |t| :: Draining.DrainsDue(t[m], q, bump, since)
  }

  lemma DrainedLater(t: M.Trace, t': M.Trace, from: nat, q: string, bump: bool, since: int)
    requires Continues(t, t') && WasDrained(t, from, q, bump, since)
    ensures WasDrained(t', from, q, bump, since)
  {
    var m :| from <= m < |t| && Draining.DrainsDue(t[m], q, bump, since);
    assert t'[m] == t[m];
  }

  ghost predicate AllDrained(t: M.Trace, from: nat, names: seq<string>, n: nat, bump: bool, since: int)
    requires n <= |names|
  {
    forall i | 0 <= i < n :: WasDrained(t, from, names[i], bump, since)
  }

  lemma OneMoreDrained(t: M.Trace, before: M.Trace, s: M.Step, from: nat, names: seq<string>, n: nat, bump: bool,
                       since: int)
    requires n < |names| && AllDrained(t, from, names, n, bump, since)
    requires Continues(t, before) && from <= |before| && Draining.DrainsDue(s, names[n], bump, since)
    ensures AllDrained(before + [s], from, names, n + 1, bump, since)
  {
    var t' := before + [s];
    forall i | 0 <= i < n + 1 ensures WasDrained(t', from, names[i], bump, since) {
      if i < n { DrainedLater(t, t', from, names[i], bump, since); }
      else { assert Draining.DrainsDue(t'[|before|], names[n], bump, since); }
    }
  }

  /** Every scan and every drain of a pass is answered. */
  ghost predicate Faultless(scans: Scans, net: nat -> Net) {
    (forall pattern: nat, cursor: nat :: scans(pattern, cursor).Some?) && forall n: nat :: net(n).Delivered?
  }

  /** At every moment since step `from` the set that the passes drain was not empty. */
  ghost predicate AlwaysDue(c: M.Config, t: M.Trace, from: nat, q: string, bump: bool) {
    if bump then AlwaysLeased(c, t, from, q) else AlwaysRetrying(c, t, from, q)
  }

  lemma AlwaysEarlier(c: M.Config, t: M.Trace, t': M.Trace, from: nat, q: string, bump: bool)
    requires Continues(t, t') && AlwaysDue(c, t', from, q, bump)
    ensures AlwaysDue(c, t, from, q, bump)
  {
    hide M.Run;
    assert forall m | from <= m <= |t| :: t[..m] == t'[..m];
  }

  /** What that means for each of the two passes. */
  lemma ByReaps(c: M.Config, t: M.Trace, from: nat, since: int)
    requires forall q | q != "" && AlwaysDue(c, t, from, q, true) :: WasDrained(t, from, q, true, since)
    ensures forall q | q != "" && AlwaysLeased(c, t, from, q) ::
              exists m | from <= m < |t| :: t[m].op.ReapOp? && t[m].op.queue == q && t[m].op.now >= since
  {
    hide AlwaysLeased, AlwaysRetrying;
    forall q | q != "" && AlwaysLeased(c, t, from, q)
      ensures exists m | from <= m < |t| :: t[m].op.ReapOp? && t[m].op.queue == q && t[m].op.now >= since
    {
      assert AlwaysDue(c, t, from, q, true);
      var m :| from <= m < |t| && Draining.DrainsDue(t[m], q, true, since);
    }
  }

  lemma ByRequeues(c: M.Config, t: M.Trace, from: nat, since: int)
    requires forall q | q != "" && AlwaysDue(c, t, from, q, false) :: WasDrained(t, from, q, false, since)
    ensures forall q | q != "" && AlwaysRetrying(c, t, from, q) ::
              exists m | from <= m < |t| :: t[m].op.RequeueOp? && t[m].op.queue == q && t[m].op.now >= since
  {
    hide AlwaysLeased, AlwaysRetrying;
    forall q | q != "" && AlwaysRetrying(c, t, from, q)
      ensures exists m | from <= m < |t| :: t[m].op.RequeueOp? && t[m].op.queue == q && t[m].op.now >= since
    {
      assert AlwaysDue(c, t, from, q, false);
      var m :| from <= m < |t| && Draining.DrainsDue(t[m], q, false, since);
    }
  }

  /** reapPass (bump) and retryPass: discover the queues, then drain each; any error ends it. */
  method DrainPass(store: Store, bump: bool, scans: Scans, net: nat -> Net) returns (ok: bool)
    requires store.Valid() && store.redis.slots >= 1
    modifies store, store.redis
    ensures store.Valid() && Moves(old(store.trace), store.trace, old(store.redis.clock), store.redis.clock)
    ensures ok ==> forall q | q != "" && AlwaysDue(store.cfg, store.trace, |old(store.trace)|, q, bump) ::
                     WasDrained(store.trace, |old(store.trace)|, q, bump, old(store.redis.clock))
    ensures ok && bump ==>
              forall q | q != "" && AlwaysLeased(store.cfg, store.trace, |old(store.trace)|, q) ::
                exists m | |old(store.trace)| <= m < |store.trace| ::
                  && store.trace[m].op.ReapOp? && store.trace[m].op.queue == q
                  && store.trace[m].op.now >= old(store.redis.clock)
    ensures ok && !bump ==>
              forall q | q != "" && AlwaysRetrying(store.cfg, store.trace, |old(store.trace)|, q) ::
                exists m | |old(store.trace)| <= m < |store.trace| ::
                  && store.trace[m].op.RequeueOp? && store.trace[m].op.queue == q
                  && store.trace[m].op.now >= old(store.redis.clock)
    ensures !ok ==> !Faultless(scans, net)
  {
    hide Recorded, AlwaysLeased, AlwaysRetrying;
    ghost var from, since := |store.trace|, store.redis.clock;
    var names := KnownQueues(store, scans);
    if names.Failed? {
      return false;
    }
    ghost var scanned := store.trace;
    ok := DrainEach(store, names.value, bump, net, from, since);
    if ok {
      forall q | q != "" && AlwaysDue(store.cfg, store.trace, from, q, bump)
        ensures WasDrained(store.trace, from, q, bump, since)
      {
        AlwaysEarlier(store.cfg, scanned, store.trace, from, q, bump);
        assert q in names.value;
      }
      if bump {
        ByReaps(store.cfg, store.trace, from, since);
      } else {
        ByRequeues(store.cfg, store.trace, from, since);
      }
    }
  }

  method DrainEach(store: Store, names: seq<string>, bump: bool, net: nat -> Net, ghost from: nat,
                   ghost since: int) returns (ok: bool)
    requires store.Valid() && from <= |store.trace| && since <= store.redis.clock
    modifies store, store.redis
    ensures store.Valid() && Moves(old(store.trace), store.trace, old(store.redis.clock), store.redis.clock)
    ensures ok ==> AllDrained(store.trace, from, names, |names|, bump, since)
    ensures !ok ==> exists n: nat :: !net(n).Delivered?
  {
    hide Recorded;
    for n := 0 to |names|
      invariant store.Valid() && Moves(old(store.trace), store.trace, old(store.redis.clock), store.redis.clock)
      invariant AllDrained(store.trace, from, names, n, bump, since)
    {
      ghost var t := store.trace;
      var r, before := store.Drain(names[n], bump, net(n));
      if r.Failed? {
        return false;
      }
      OneMoreDrained(t, before, store.trace[|before|], from, names, n, bump, since);
    }
    ok := true;
  }

  // ----- the ticking loop -----------------------------------------------------------------

  lemma {:induction false} PassesAdd(t: M.Trace, k: nat, mid: nat, q: string, bump: bool, d: int)
    requires k <= mid <= |t|
    ensures Draining.DrainPasses(t, k, q, bump, d)
            >= Draining.DrainPasses(t[..mid], k, q, bump, d) + Lifecycle.Bit(WasDrained(t, mid, q, bump, d))
    decreases |t|
  {
    if mid == |t| {
      assert t[..mid] == t;
    } else {
      var n := |t| - 1;
      assert t[..n][..mid] == t[..mid];
      PassesAdd(t[..n], k, mid, q, bump, d);
      if WasDrained(t, mid, q, bump, d) { LastDrain(t, mid, q, bump, d); }
    }
  }

  lemma LastDrain(t: M.Trace, mid: nat, q: string, bump: bool, d: int)
    requires mid < |t| && WasDrained(t, mid, q, bump, d)
    ensures WasDrained(t[..|t|-1], mid, q, bump, d) || Draining.DrainsDue(t[|t|-1], q, bump, d)
  {
    var p := t[..|t|-1];
    var m :| mid <= m < |t| && Draining.DrainsDue(t[m], q, bump, d);
    assert m < |p| ==> p[m] == t[m];
  }

  /** Every set that was never empty since step `from` was drained `passes` times with a clock
      sample from `since` on. */
  ghost predicate Swept(c: M.Config, t: M.Trace, from: nat, since: int, passes: nat, bump: bool)
    requires from <= |t|
  {
    forall q, d | q != "" && d <= since && AlwaysDue(c, t, from, q, bump) ::
      Draining.DrainPasses(t, from, q, bump, d) >= passes
  }

  lemma SweptLater(c: M.Config, t: M.Trace, t': M.Trace, from: nat, since: int, passes: nat, bump: bool)
    requires from <= |t| && Continues(t, t') && Swept(c, t, from, since, passes, bump)
    ensures Swept(c, t', from, since, passes, bump)
  {
    hide AlwaysDue;
    forall q, d | q != "" && d <= since && AlwaysDue(c, t', from, q, bump)
      ensures Draining.DrainPasses(t', from, q, bump, d) >= passes
    {
      AlwaysEarlier(c, t, t', from, q, bump);
      assert t'[..|t|] == t;
      PassesAdd(t', from, |t|, q, bump, d);
    }
  }

  lemma AlwaysFrom(c: M.Config, t: M.Trace, from: nat, later: nat, q: string, bump: bool)
    requires from <= later && AlwaysDue(c, t, from, q, bump)
    ensures AlwaysDue(c, t, later, q, bump)
  {
    hide M.Run;
  }

  lemma SweptOnce(c: M.Config, t: M.Trace, t': M.Trace, from: nat, since: int, sampled: int, passes: nat, bump: bool)
    requires from <= |t| && Continues(t, t') && since <= sampled && Swept(c, t, from, since, passes, bump)
    requires forall q | q != "" && AlwaysDue(c, t', |t|, q, bump) :: WasDrained(t', |t|, q, bump, sampled)
    ensures Swept(c, t', from, since, passes + 1, bump)
  {
    hide AlwaysDue;
    forall q, d | q != "" && d <= since && AlwaysDue(c, t', from, q, bump)
      ensures Draining.DrainPasses(t', from, q, bump, d) >= passes + 1
    {
      AlwaysEarlier(c, t, t', from, q, bump);
      AlwaysFrom(c, t', from, |t|, q, bump);
      assert t'[..|t|] == t;
      SampledEarlier(t', |t|, q, bump, sampled, d);
      PassesAdd(t', from, |t|, q, bump, d);
    }
  }

  lemma SampledEarlier(t: M.Trace, from: nat, q: string, bump: bool, sampled: int, d: int)
    requires WasDrained(t, from, q, bump, sampled) && d <= sampled
    ensures WasDrained(t, from, q, bump, d)
  {
    var m :| from <= m < |t| && Draining.DrainsDue(t[m], q, bump, sampled);
    assert Draining.DrainsDue(t[m], q, bump, d);
  }

  /** What a tick meets: whether the process believes it leads, and the faults of its pass. */
  datatype Tick = Tick(leads: bool, scans: Scans, net: nat -> Net)

  /** drainDue with reapPass (bump) or retryPass, for some number of ticks: each tick runs a
      pass only while this process believes it leads. `passes` counts those without error. */
  method DrainLoop(store: Store, bump: bool, ticks: nat, meets: nat -> Tick) returns (passes: nat)
    requires store.Valid() && store.redis.slots >= 1
    modifies store, store.redis
    ensures store.Valid() && Moves(old(store.trace), store.trace, old(store.redis.clock), store.redis.clock)
    ensures Swept(store.cfg, store.trace, |old(store.trace)|, old(store.redis.clock), passes, bump)
    ensures passes <= ticks
    ensures (forall n: nat | n < ticks ::
               && meets(n).leads && (forall m: nat :: meets(n).net(m).Delivered?)
               && (forall pattern: nat, cursor: nat :: meets(n).scans(pattern, cursor).Some?)) ==> passes == ticks
  {
    hide Recorded, Swept;
    ghost var from, since := |store.trace|, store.redis.clock;
    passes := 0;
    NotSwept(store.cfg, store.trace, from, since, bump);
    for tick := 0 to ticks
      invariant store.Valid() && Moves(old(store.trace), store.trace, old(store.redis.clock), store.redis.clock)
      invariant Swept(store.cfg, store.trace, from, since, passes, bump)
      invariant passes <= tick
      invariant (forall n: nat | n < tick :: meets(n).leads && Faultless(meets(n).scans, meets(n).net))
            ==> passes == tick
    {
      ghost var t := store.trace;
      store.Others({});
      SweptLater(store.cfg, t, store.trace, from, since, passes, bump);
      if meets(tick).leads {
        ghost var t1, sampled := store.trace, store.redis.clock;
        var ok := DrainPass(store, bump, meets(tick).scans, meets(tick).net);
        if ok {
          SweptOnce(store.cfg, t1, store.trace, from, since, sampled, passes, bump);
          passes := passes + 1;
        } else {
          SweptLater(store.cfg, t1, store.trace, from, since, passes, bump);
        }
      }
    }
  }

  lemma NotSwept(c: M.Config, t: M.Trace, from: nat, since: int, bump: bool)
    requires from <= |t|
    ensures Swept(c, t, from, since, 0, bump)
  {
  }

  lemma PlacedAlways(c: M.Config, t: M.Trace, k: nat, q: string, bump: bool, id: M.Id, d: int)
    requires k <= |t| && Draining.StaysPlaced(c, t, k, q, bump, id, d)
    ensures AlwaysDue(c, t, k, q, bump)
  {
    hide M.Run;
    forall m | k <= m <= |t| ensures M.DueIn(M.Run(c, t[..m]).queues[q], bump) != map[] {
      assert Draining.Placed(M.Run(c, t[..m]), q, bump, id, d);
      assert id in M.DueIn(M.Run(c, t[..m]).queues[q], bump);
    }
    assert forall m | k <= m <= |t| ::
      (bump ==> M.Run(c, t[..m]).queues[q].leased == M.DueIn(M.Run(c, t[..m]).queues[q], bump))
      && (!bump ==> M.Run(c, t[..m]).queues[q].retry == M.DueIn(M.Run(c, t[..m]).queues[q], bump));
  }

  /** A lease that is due when the reap loop starts, with n entries ahead of it, ends or changes
      its deadline while n / drainLimit + 1 passes go through, whatever was done meanwhile and
      whoever else reaped, as long as claims and renewals were timely. */
  lemma LoopRecovers(c: M.Config, t: M.Trace, from: nat, since: int, passes: nat, q: string, id: M.Id, d: int)
    requires M.Legal(c, t) && from <= |t| && c.drainLimit >= 1 && Swept(c, t, from, since, passes, true)
    requires forall i | from <= i < |t| :: t[i].at >= since
    requires forall i | from <= i < |t| && (t[i].op.ClaimOp? || t[i].op.RenewOp?) :: t[i].op.deadline > t[i].at
    requires q != "" && d <= since && Draining.LeasedAt(M.Run(c, t[..from]), q, id, d)
    requires passes >= |Draining.AheadOf(M.Run(c, t[..from]).queues[q].leased, id)| / c.drainLimit + 1
    ensures exists j | from <= j <= |t| :: !Draining.LeasedAt(M.Run(c, t[..j]), q, id, d)
  {
    hide M.Run, M.Legal;
    if forall j | from <= j <= |t| :: Draining.LeasedAt(M.Run(c, t[..j]), q, id, d) {
      assert Draining.StaysPlaced(c, t, from, q, true, id, d);
      PlacedAlways(c, t, from, q, true, id, d);
      Draining.NoStarvation(c, t, from, q, id, d);
    }
  }

  /** A retry that is due when the retry loop starts, with n entries ahead of it, becomes
      pending while n / drainLimit + 1 passes go through, as long as each failure report ran
      before the retry time it set. */
  lemma LoopRetries(c: M.Config, t: M.Trace, from: nat, since: int, passes: nat, q: string, id: M.Id, d: int)
    requires M.Legal(c, t) && from <= |t| && c.drainLimit >= 1 && Swept(c, t, from, since, passes, false)
    requires forall i | from <= i < |t| :: t[i].at >= since
    requires forall i | from <= i < |t| && t[i].op.FailOp? :: t[i].op.nextAt > t[i].at
    requires q != "" && d <= since && Draining.RetryAt(M.Run(c, t[..from]), q, id, d)
    requires passes >= |Draining.AheadOf(M.Run(c, t[..from]).queues[q].retry, id)| / c.drainLimit + 1
    ensures exists j | from < j <= |t| :: id in M.Run(c, t[..j]).queues[q].pending
  {
    hide M.Run, M.Legal;
    if forall j | from <= j <= |t| :: Draining.RetryAt(M.Run(c, t[..j]), q, id, d) {
      assert Draining.StaysPlaced(c, t, from, q, false, id, d);
      PlacedAlways(c, t, from, q, false, id, d);
      Draining.NoRetryStarvation(c, t, from, q, id, d);
    } else {
      var j :| from <= j <= |t| && !Draining.RetryAt(M.Run(c, t[..j]), q, id, d);
      Draining.RetryEnds(c, t, from, j, q, id, d);
    }
  }

  /** A queue with an empty name would never be found: its own keys give back "". The HTTP
      boundary accepts no such name. */
  lemma EmptyNameUnseen()
    ensures QueueOf(PendingKey("")) == QueueOf(LeasedKey("")) == QueueOf(RetryKey("")) == "" && !ValidQueueName("")
  {
    QueueOfKeys("");
  }
}
