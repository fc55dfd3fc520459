/** The leader election (internal/cogs/leader.go): processes that campaign for one lock with
    a TTL and keep a local belief of holding it. A command and the arrival of its reply are
    separate steps, so any other process can act in between. */
module Leadership {
  import opened Wrappers
  import opened Model

  /** What a process is waiting for, and how Redis answered. */
  datatype Waiting = Nothing | Acquiring(granted: bool) | Renewing(extended: bool) | Releasing(ran: bool)

  /** `stamp` is when this process last set or extended the lock. */
  datatype Process = Process(held: bool, waiting: Waiting, stamp: int)

  const IDLE := Process(false, Nothing, 0)

  datatype World = World(lock: Option<Marker>, processes: map<string, Process>)

  function Of(w: World, p: string): Process { if p in w.processes then w.processes[p] else IDLE }

  datatype Event =
    | Acquire(me: string)
    | Renew(me: string)
    | Release(me: string, reached: bool)
    | Reply(me: string)
    | NoReply(me: string)
    | Crash(me: string)

  datatype Moment = Moment(at: int, event: Event)

  predicate Mine(lock: Option<Marker>, at: int, me: string) { Holds(lock, at) && lock.value.text == me }

  /** A process has one command in flight at a time; tryAcquire renews when it believes it
      leads and campaigns otherwise; only a believed leader releases. */
  predicate Enabled(w: World, e: Event) {
    var p := Of(w, e.me);
    match e
    case Acquire(_) => p.waiting.Nothing? && !p.held
    case Renew(_) => p.waiting.Nothing? && p.held
    case Release(_, _) => p.waiting.Nothing? && p.held
    case Reply(_) => !p.waiting.Nothing?
    case NoReply(_) => !p.waiting.Nothing?
    case Crash(_) => true
  }

  function Set(w: World, me: string, lock: Option<Marker>, p: Process): World {
    World(lock, w.processes[me := p])
  }

  /** How a reply changes the belief; release clears it whatever Redis said. */
  function Belief(p: Process): bool {
    match p.waiting
    case Nothing => p.held
    case Acquiring(granted) => p.held || granted
    case Renewing(extended) => p.held && extended
    case Releasing(_) => false
  }

  function Next(ttl: int, w: World, m: Moment): World {
    var me, p := m.event.me, Of(w, m.event.me);
    match m.event
    case Acquire(_) =>
      var granted := !Holds(w.lock, m.at);
      Set(w, me, LockAcquire(w.lock, m.at, ttl, me),
          Process(p.held, Acquiring(granted), if granted then m.at else p.stamp))
    case Renew(_) =>
      var extended := Mine(w.lock, m.at, me);
      Set(w, me, LockRenew(w.lock, m.at, ttl, me),
          Process(p.held, Renewing(extended), if extended then m.at else p.stamp))
    case Release(_, reached) =>
      Set(w, me, if reached then LockRelease(w.lock, m.at, me) else w.lock, p.(waiting := Releasing(reached)))
    case Reply(_) => Set(w, me, w.lock, p.(held := Belief(p), waiting := Nothing))
    case NoReply(_) => Set(w, me, w.lock, p.(held := p.held && !p.waiting.Releasing?, waiting := Nothing))
    case Crash(_) => Set(w, me, w.lock, IDLE)
  }

  type History = seq<Moment>

  const START := World(None, map[])

  function Play(ttl: int, h: History): World {
    if h == [] then START else Next(ttl, Play(ttl, h[..|h|-1]), h[|h|-1])
  }

  ghost predicate Possible(ttl: int, h: History) {
    h == [] ||
    (var p, m := h[..|h|-1], h[|h|-1];
     Possible(ttl, p) && Enabled(Play(ttl, p), m.event) && (p != [] ==> p[|p|-1].at <= m.at))
  }

  // ----- who may touch the lock ----------------------------------------------------------

  /** Any step that changes the lock either finds it free and takes it for its own ID, or
      finds its own ID there and extends or removes it. */
  lemma OnlyOwnLock(ttl: int, w: World, m: Moment)
    ensures var lock', me := Next(ttl, w, m).lock, m.event.me;
            lock' != w.lock ==>
              || (!Holds(w.lock, m.at) && m.event.Acquire? && lock' == Some(Marker(me, m.at + ttl)))
              || (Mine(w.lock, m.at, me) && m.event.Renew? && lock' == Some(Marker(me, m.at + ttl)))
              || (Mine(w.lock, m.at, me) && m.event.Release? && lock' == None)
  {
  }

  /** Step j is a command of `me` after which the lock is its own for a TTL from then. */
  predicate Sets(ttl: int, h: History, j: nat, me: string)
    requires j < |h|
  {
    && h[j].event in {Acquire(me), Renew(me)}
    && Next(ttl, Play(ttl, h[..j]), h[j]).lock == Some(Marker(me, h[j].at + ttl))
  }

  /** A campaign that finds the lock free and a renewal that finds it its own do so. */
  lemma SetsIf(ttl: int, h: History, j: nat, me: string)
    requires j < |h| && h[j].event in {Acquire(me), Renew(me)}
    requires var lock := Play(ttl, h[..j]).lock;
             if h[j].event.Acquire? then lock == None || lock.value.expireAt <= h[j].at
             else lock.Some? && h[j].at < lock.value.expireAt && lock.value.text == me
    ensures Sets(ttl, h, j, me)
  {
  }

  /** Step k hands the lock over from `me`: `me` released it, or someone took it when a full
      TTL had passed since every acquisition and renewal of `me`. */
  ghost predicate Handover(ttl: int, h: History, k: nat, me: string)
    requires k < |h|
  {
    || (h[k].event == Release(me, true) && Mine(Play(ttl, h[..k]).lock, h[k].at, me))
    || (h[k].event.Acquire? && forall j | 0 <= j < k && Sets(ttl, h, j, me) :: h[j].at + ttl <= h[k].at)
  }

  function Owner(w: World): Option<string> { if w.lock.Some? then Some(w.lock.value.text) else None }

  lemma {:induction false} InOrder(ttl: int, h: History, j: nat, now: int)
    requires Possible(ttl, h) && j < |h| && h[|h|-1].at <= now
    ensures h[j].at <= now
    decreases |h|
  {
    if j < |h| - 1 { InOrder(ttl, h[..|h|-1], j, h[|h|-1].at); }
  }

  /** While a process owns the lock it expires no earlier than a TTL after any time that
      process set it. */
  lemma {:induction false} ExpiresAfterSets(ttl: int, h: History, j: nat, me: string)
    requires Possible(ttl, h) && j < |h| && Sets(ttl, h, j, me) && Owner(Play(ttl, h)) == Some(me)
    ensures h[j].at + ttl <= Play(ttl, h).lock.value.expireAt
    decreases |h|
  {
    var n := |h| - 1;
    var p := h[..n];
    InOrder(ttl, h, j, h[n].at);
    OnlyOwnLock(ttl, Play(ttl, p), h[n]);
    if j < n && Owner(Play(ttl, p)) == Some(me) {
      assert p[..j] == h[..j];
      ExpiresAfterSets(ttl, p, j, me);
    }
  }

  lemma LastOwned(ttl: int, h: History, me: string)
    requires h != [] && Possible(ttl, h)
    requires Owner(Play(ttl, h[..|h|-1])) == Some(me) && Owner(Play(ttl, h)) != Some(me)
    ensures Handover(ttl, h, |h| - 1, me)
  {
    var n := |h| - 1;
    var p := h[..n];
    OnlyOwnLock(ttl, Play(ttl, p), h[n]);
    if h[n].event.Acquire? {
      forall j | 0 <= j < n && Sets(ttl, h, j, me) ensures h[j].at + ttl <= h[n].at {
        assert p[..j] == h[..j];
        ExpiresAfterSets(ttl, p, j, me);
      }
    }
  }

  /** The lock leaves an ID only when that ID releases it, or when someone takes it a full TTL
      after the last time that ID acquired or renewed it. */
  lemma {:induction false} PassesByHandover(ttl: int, h: History, i: nat, me: string)
    requires Possible(ttl, h) && i <= |h|
    requires Owner(Play(ttl, h[..i])) == Some(me) && Owner(Play(ttl, h)) != Some(me)
    ensures exists k | i <= k < |h| :: Handover(ttl, h, k, me)
    decreases |h|
  {
    assert h[..|h|] == h;
    var n := |h| - 1;
    var p := h[..n];
    if Owner(Play(ttl, p)) == Some(me) {
      LastOwned(ttl, h, me);
    } else {
      assert p[..i] == h[..i];
      PassesByHandover(ttl, p, i, me);
      var k :| i <= k < |p| && Handover(ttl, p, k, me);
      HandoverLater(ttl, h, k, me);
    }
  }

  lemma HandoverLater(ttl: int, h: History, k: nat, me: string)
    requires k < |h| - 1 && Handover(ttl, h[..|h|-1], k, me)
    ensures Handover(ttl, h, k, me)
  {
    var p := h[..|h|-1];
    assert p[..k] == h[..k];
    if h[k].event.Acquire? {
      forall j | 0 <= j < k && Sets(ttl, h, j, me) ensures h[j].at + ttl <= h[k].at {
        assert p[..j] == h[..j];
        assert Sets(ttl, p, j, me);
      }
    }
  }

  // ----- at most one leader --------------------------------------------------------------

  /** It believes it leads, or Redis has granted it the lock and the reply is on its way. */
  predicate Claims(p: Process) { p.held || p.waiting == Acquiring(true) }

  /** Between the release script and the clearing of the belief. */
  predicate Leaving(p: Process) { p.waiting == Releasing(true) }

  predicate Fresh(ttl: int, p: Process, at: int) { at < p.stamp + ttl }

  /** A claimant whose last acquisition or renewal is less than a TTL old owns the lock. */
  ghost predicate FreshOwns(ttl: int, w: World, at: int) {
    forall me | Claims(Of(w, me)) && !Leaving(Of(w, me)) && Fresh(ttl, Of(w, me), at) ::
      w.lock == Some(Marker(me, Of(w, me).stamp + ttl))
  }

  lemma FreshLater(ttl: int, w: World, at: int, later: int)
    requires FreshOwns(ttl, w, at) && at <= later
    ensures FreshOwns(ttl, w, later)
  {
  }

  lemma FreshStep(ttl: int, w: World, m: Moment)
    requires Enabled(w, m.event) && FreshOwns(ttl, w, m.at)
    ensures FreshOwns(ttl, Next(ttl, w, m), m.at)
  {
    var w' := Next(ttl, w, m);
    forall x | Claims(Of(w', x)) && !Leaving(Of(w', x)) && Fresh(ttl, Of(w', x), m.at)
      ensures w'.lock == Some(Marker(x, Of(w', x).stamp + ttl))
    {
      OnlyOwnLock(ttl, w, m);
      if x != m.event.me {
        assert Of(w', x) == Of(w, x);
      }
    }
  }

  lemma {:induction false} FreshAlways(ttl: int, h: History, now: int)
    requires Possible(ttl, h) && (h != [] ==> h[|h|-1].at <= now)
    ensures FreshOwns(ttl, Play(ttl, h), now)
  {
    if h != [] {
      var m := h[|h|-1];
      FreshAlways(ttl, h[..|h|-1], m.at);
      FreshStep(ttl, Play(ttl, h[..|h|-1]), m);
      FreshLater(ttl, Play(ttl, h), m.at, now);
    }
  }

  /** At every moment of every run, when two processes both believe they lead, one of them
      has gone a TTL without setting or extending the lock, or is inside its own release. */
  lemma TwoLeadersExplained(ttl: int, h: History, now: int, a: string, b: string)
    requires Possible(ttl, h) && (h != [] ==> h[|h|-1].at <= now)
    requires a != b && Of(Play(ttl, h), a).held && Of(Play(ttl, h), b).held
    ensures exists x | x in {a, b} ::
              Leaving(Of(Play(ttl, h), x)) || !Fresh(ttl, Of(Play(ttl, h), x), now)
  {
    FreshAlways(ttl, h, now);
    var w := Play(ttl, h);
    assert a in {a, b} && b in {a, b};
    assert !Leaving(Of(w, a)) && Fresh(ttl, Of(w, a), now) ==> w.lock.Some? && w.lock.value.text == a;
  }

  /** With renewals in time and release in one step there is at most one leader, and it is
      the one named by the lock. */
  lemma SingleLeader(ttl: int, h: History, now: int, a: string, b: string)
    requires Possible(ttl, h) && (h != [] ==> h[|h|-1].at <= now)
    requires forall me | Of(Play(ttl, h), me).held ::
               Fresh(ttl, Of(Play(ttl, h), me), now) && !Leaving(Of(Play(ttl, h), me))
    requires Of(Play(ttl, h), a).held && Of(Play(ttl, h), b).held
    ensures a == b && Mine(Play(ttl, h).lock, now, a)
  {
    FreshAlways(ttl, h, now);
  }

  ghost predicate Recorded(ttl: int, w: World) {
    forall me | Claims(Of(w, me)) && Owner(w) == Some(me) :: w.lock.value.expireAt == Of(w, me).stamp + ttl
  }

  lemma {:induction false} RecordedAlways(ttl: int, h: History)
    requires Possible(ttl, h)
    ensures Recorded(ttl, Play(ttl, h))
  {
    if h != [] {
      RecordedAlways(ttl, h[..|h|-1]);
      RecordedStep(ttl, Play(ttl, h[..|h|-1]), h[|h|-1]);
    }
  }

  lemma RecordedStep(ttl: int, w: World, m: Moment)
    requires Enabled(w, m.event) && Recorded(ttl, w)
    ensures Recorded(ttl, Next(ttl, w, m))
  {
    var w' := Next(ttl, w, m);
    OnlyOwnLock(ttl, w, m);
    forall x | Claims(Of(w', x)) && Owner(w') == Some(x) ensures w'.lock.value.expireAt == Of(w', x).stamp + ttl {
      if x != m.event.me { assert Of(w', x) == Of(w, x); }
    }
  }

  /** A believed leader's renewal succeeds exactly when less than a TTL has passed since its
      last successful command, so renewing within a TTL each time keeps the leadership. */
  lemma RenewedIff(ttl: int, h: History, m: Moment)
    requires Possible(ttl, h) && (h != [] ==> h[|h|-1].at <= m.at)
    requires m.event.Renew? && Enabled(Play(ttl, h), m.event)
    ensures Of(Next(ttl, Play(ttl, h), m), m.event.me).waiting == Renewing(true)
            <==> Fresh(ttl, Of(Play(ttl, h), m.event.me), m.at)
  {
    FreshAlways(ttl, h, m.at);
    RecordedAlways(ttl, h);
  }

  /** Release is two steps in the code, and the first alone lets a peer in: two processes
      believe they lead, both having renewed at once, without any delay at all. */
  lemma ReleaseWindow(ttl: int)
    requires ttl > 0
    ensures var h := [Moment(0, Acquire("a")), Moment(0, Reply("a")), Moment(0, Release("a", true)),
                      Moment(0, Acquire("b")), Moment(0, Reply("b"))];
            && Possible(ttl, h)
            && (forall x | x in {"a", "b"} :: Of(Play(ttl, h), x).held && Fresh(ttl, Of(Play(ttl, h), x), 0))
  {
    var m0, m1, m2 := Moment(0, Acquire("a")), Moment(0, Reply("a")), Moment(0, Release("a", true));
    var m3, m4 := Moment(0, Acquire("b")), Moment(0, Reply("b"));
    var h1, h2, h3, h4 := [m0], [m0, m1], [m0, m1, m2], [m0, m1, m2, m3];
    assert [] + [m0] == h1 && h1 + [m1] == h2 && h2 + [m2] == h3 && h3 + [m3] == h4;
    assert h4 + [m4] == [m0, m1, m2, m3, m4];
    Grow(ttl, [], m0, START);
    Grow(ttl, h1, m1, Next(ttl, START, m0));
    var w2 := Next(ttl, Play(ttl, h1), m1);
    Grow(ttl, h2, m2, w2);
    Grow(ttl, h3, m3, Next(ttl, w2, m2));
    var w4 := Next(ttl, Play(ttl, h3), m3);
    Grow(ttl, h4, m4, w4);
  }

  lemma Grow(ttl: int, h: History, m: Moment, w: World)
    requires Possible(ttl, h) && Play(ttl, h) == w && Enabled(w, m.event) && (h != [] ==> h[|h|-1].at <= m.at)
    ensures Possible(ttl, h + [m]) && Play(ttl, h + [m]) == Next(ttl, w, m)
  {
    assert (h + [m])[..|h|] == h;
  }

  /** A process inside its release does not own a live lock. */
  ghost predicate Departed(w: World, at: int) { forall me | Leaving(Of(w, me)) :: !Mine(w.lock, at, me) }

  lemma DepartedStep(ttl: int, w: World, m: Moment)
    requires Enabled(w, m.event) && Departed(w, m.at)
    ensures Departed(Next(ttl, w, m), m.at)
  {
    var w' := Next(ttl, w, m);
    OnlyOwnLock(ttl, w, m);
    forall x | Leaving(Of(w', x)) ensures !Mine(w'.lock, m.at, x) {
      if x != m.event.me { assert Of(w', x) == Of(w, x); }
    }
  }

  lemma {:induction false} DepartedAlways(ttl: int, h: History, now: int)
    requires Possible(ttl, h) && (h != [] ==> h[|h|-1].at <= now)
    ensures Departed(Play(ttl, h), now)
  {
    if h != [] {
      DepartedAlways(ttl, h[..|h|-1], h[|h|-1].at);
      DepartedStep(ttl, Play(ttl, h[..|h|-1]), h[|h|-1]);
    }
  }

  /** A process that believes it leads really does exactly when its last success is less than
      a TTL old and it is not inside its release. */
  lemma BeliefTrueIff(ttl: int, h: History, now: int, a: string)
    requires Possible(ttl, h) && (h != [] ==> h[|h|-1].at <= now) && Of(Play(ttl, h), a).held
    ensures Mine(Play(ttl, h).lock, now, a)
            <==> Fresh(ttl, Of(Play(ttl, h), a), now) && !Leaving(Of(Play(ttl, h), a))
  {
    FreshAlways(ttl, h, now);
    RecordedAlways(ttl, h);
    DepartedAlways(ttl, h, now);
  }

  /** `b` campaigns now and hears the answer now. */
  function Challenged(h: History, now: int, b: string): History {
    h + [Moment(now, Acquire(b))] + [Moment(now, Reply(b))]
  }

  lemma ChallengeWins(ttl: int, w: World, now: int, a: string, b: string)
    requires a != b && Enabled(w, Acquire(b))
    ensures var w1 := Next(ttl, w, Moment(now, Acquire(b)));
            && Enabled(w1, Reply(b))
            && (var w2 := Next(ttl, w1, Moment(now, Reply(b)));
                Of(w2, a) == Of(w, a) && (Of(w2, b).held <==> !Holds(w.lock, now)))
  {
  }

  /** When a process that campaigns at once ends up leading beside one that believes it leads:
      exactly when the first is inside its release or has gone a TTL without success, and no
      other ID holds the lock. Nothing else, and no delay, is needed. */
  lemma SecondLeaderIff(ttl: int, h: History, now: int, a: string, b: string)
    requires Possible(ttl, h) && (h != [] ==> h[|h|-1].at <= now)
    requires a != b && Of(Play(ttl, h), a).held && Enabled(Play(ttl, h), Acquire(b))
    ensures var h', w := Challenged(h, now, b), Play(ttl, h);
            && Possible(ttl, h')
            && (Of(Play(ttl, h'), a).held && Of(Play(ttl, h'), b).held
                <==> && (Leaving(Of(w, a)) || !Fresh(ttl, Of(w, a), now))
                     && !(Holds(w.lock, now) && w.lock.value.text != a))
  {
    var w, m := Play(ttl, h), Moment(now, Acquire(b));
    BeliefTrueIff(ttl, h, now, a);
    ChallengeWins(ttl, w, now, a, b);
    Grow(ttl, h, m, w);
    Grow(ttl, h + [m], Moment(now, Reply(b)), Next(ttl, w, m));
  }

  // ----- the renewal tick ----------------------------------------------------------------

  /** The ticker period, in nanoseconds. */
  function Tick(ttl: int): int {
    var third := if ttl >= 0 then ttl / 3 else -(-ttl / 3);
    if third < 100_000_000 then 100_000_000 else third
  }

  /** Renewing on every tick is renewing within a TTL exactly when the TTL exceeds 100 ms. */
  lemma TickBelowTtlIff(ttl: int)
    ensures Tick(ttl) < ttl <==> ttl > 100_000_000
  {
  }

  /** After two renewals in a row are lost the third still comes before the expiry only for a
      TTL of at least 300 ms that is no multiple of three nanoseconds, and then by two
      nanoseconds at most: in practice the margin is one lost renewal, not two. */
  lemma TwoLostRenewals(ttl: int)
    ensures 3 * Tick(ttl) < ttl <==> ttl >= 300_000_000 && ttl % 3 != 0
    ensures 3 * Tick(ttl) < ttl ==> ttl - 3 * Tick(ttl) <= 2
    ensures 2 * Tick(ttl) < ttl <==> ttl > 200_000_000
  {
  }
}
