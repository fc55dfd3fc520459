/** The shared drain: bounded passes add up to one big pass, and no due lease is starved. */
module Draining {
  import opened Ranking
  import opened Model
  import opened Lifecycle
  import Attempts

  // ----- bounded passes add up -----------------------------------------------------------

  /** What k passes at a fixed clock return and leave of a sorted set. */
  ghost function Passes(z: map<Id, int>, now: int, limit: nat, k: nat): (map<Id, int>, seq<Id>) {
    if k == 0 then (z, [])
    else
      var (rest, ids) := Passes(z, now, limit, k - 1);
      var due := Due(rest, now, limit);
      (rest - Members(due), ids + due)
  }

  lemma MinusMembers(z: map<Id, int>, a: seq<Id>, b: seq<Id>)
    ensures (z - Members(a)) - Members(b) == z - Members(a + b)
  {
    assert Members(a + b) == Members(a) + Members(b);
  }

  lemma {:induction false} PassesAddUp(z: map<Id, int>, now: int, limit: nat, k: nat)
    ensures Passes(z, now, limit, k) == (z - Members(Due(z, now, k * limit)), Due(z, now, k * limit))
  {
    if k == 0 {
      assert Due(z, now, 0) == [];
      assert z - Members([]) == z;
    } else {
      PassesAddUp(z, now, limit, k - 1);
      var first := (k - 1) * limit;
      assert first + limit == k * limit;
      var rest := z - Members(Due(z, now, first));
      DueSplit(z, now, first, limit);
      MinusMembers(z, Due(z, now, first), Due(rest, now, limit));
    }
  }

  /** At a fixed clock ceil(due/limit) passes take exactly the due entries, each once and in
      order, and leave none. */
  lemma PassesEmpty(z: map<Id, int>, now: int, limit: nat, k: nat)
    requires k * limit >= |DueMap(z, now)|
    ensures var (rest, ids) := Passes(z, now, limit, k);
            && Distinct(ids) && Sorted(z, ids)
            && Members(ids) == DueMap(z, now).Keys
            && DueMap(rest, now) == map[]
            && rest == map x | x in z && z[x] > now :: z[x]
  {
    PassesAddUp(z, now, limit, k);
    DueExact(z, now, k * limit);
    var r := Ranked(DueMap(z, now));
    RankingDistinct(DueMap(z, now), r);
    assert Due(z, now, k * limit) == r;
  }

  // ----- a reap pass over the whole database ---------------------------------------------

  lemma SplitLast(a: seq<Id>, b: seq<Id>)
    requires b != []
    ensures (a + b)[..|a + b| - 1] == a + b[..|b|-1] && (a + b)[|a + b| - 1] == b[|b|-1]
  {
  }

  lemma SpentSame(jobs: map<Id, Job>, jobs': map<Id, Job>, m: nat, x: Id)
    requires Bumped(jobs', x) == Bumped(jobs, x)
    ensures Spent(jobs', m, x) <==> Spent(jobs, m, x)
  {
  }

  lemma {:induction false} SurvivorsJoin(jobs: map<Id, Job>, jobs': map<Id, Job>, m: nat, a: seq<Id>, b: seq<Id>)
    requires forall x | x in b :: Bumped(jobs', x) == Bumped(jobs, x)
    ensures Survivors(jobs, m, a + b) == Survivors(jobs, m, a) + Survivors(jobs', m, b)
    ensures Casualties(jobs, m, a + b) == Casualties(jobs, m, a) + Casualties(jobs', m, b)
    decreases |b|
  {
    if b == [] {
      assert a + b == a;
    } else {
      var n := |b| - 1;
      SplitLast(a, b);
      SurvivorsJoin(jobs, jobs', m, a, b[..n]);
      assert b[n] in b;
      SpentSame(jobs, jobs', m, b[n]);
      Associates(Survivors(jobs, m, a), Survivors(jobs', m, b[..n]), if Spent(jobs, m, b[n]) then [] else [b[n]]);
      Associates(Casualties(jobs, m, a), Casualties(jobs', m, b[..n]), if Spent(jobs, m, b[n]) then [b[n]] else []);
    }
  }

  lemma BumpJoin(jobs: map<Id, Job>, a: seq<Id>, b: seq<Id>)
    requires Members(a) !! Members(b)
    ensures BumpAll(BumpAll(jobs, a), b) == BumpAll(jobs, a + b)
    ensures forall x | x in b :: Bumped(BumpAll(jobs, a), x) == Bumped(jobs, x)
  {
    forall x | x in b ensures Bumped(BumpAll(jobs, a), x) == Bumped(jobs, x) {
      assert x in Members(b) && x !in Members(a);
    }
  }

  lemma ReapQueueJoin(z: Queue, jobs: map<Id, Job>, m: nat, a: seq<Id>, b: seq<Id>)
    requires Members(a) !! Members(b)
    ensures ReapQueue(ReapQueue(z, jobs, m, a), BumpAll(jobs, a), m, b) == ReapQueue(z, jobs, m, a + b)
  {
    BumpJoin(jobs, a, b);
    SurvivorsJoin(jobs, BumpAll(jobs, a), m, a, b);
    MinusMembers(z.leased, a, b);
    Associates(z.pending, Survivors(jobs, m, a), Survivors(BumpAll(jobs, a), m, b));
    Associates(z.dead, Casualties(jobs, m, a), Casualties(BumpAll(jobs, a), m, b));
  }

  lemma Associates(x: seq<Id>, y: seq<Id>, z: seq<Id>)
    ensures (x + y) + z == x + (y + z)
  {
  }

  lemma ReapIdsJoin(db: Db, m: nat, queue: string, a: seq<Id>, b: seq<Id>)
    requires Members(a) !! Members(b)
    ensures ReapIds(ReapIds(db, m, queue, a), m, queue, b) == ReapIds(db, m, queue, a + b)
  {
    BumpJoin(db.jobs, a, b);
    ReapQueueJoin(db.queues[queue], db.jobs, m, a, b);
    Overwrite(db.queues, queue, ReapQueue(db.queues[queue], db.jobs, m, a),
              ReapQueue(db.queues[queue], db.jobs, m, a + b));
  }

  lemma Overwrite(queues: Queues, queue: string, x: Queue, y: Queue)
    ensures queues[queue := x][queue := y] == queues[queue := y]
  {
  }

  /** Two bounded reap passes at one clock are one pass with the limits added: the same jobs,
      requeued in the same order, with the same attempts and the same dead. */
  lemma ReapSplit(db: Db, m: nat, queue: string, now: int, a: nat, b: nat)
    ensures Reap(Reap(db, m, queue, now, a), m, queue, now, b) == Reap(db, m, queue, now, a + b)
  {
    var z := db.queues[queue].leased;
    var x := Due(z, now, a);
    var y := Due(z - Members(x), now, b);
    DueSplit(z, now, a, b);
    DueExact(z - Members(x), now, b);
    ReapIdsJoin(db, m, queue, x, y);
  }

  lemma RequeueSplit(db: Db, queue: string, now: int, a: nat, b: nat)
    ensures Requeue(Requeue(db, queue, now, a), queue, now, b) == Requeue(db, queue, now, a + b)
  {
    var z := db.queues[queue];
    var x := Due(z.retry, now, a);
    var y := Due(z.retry - Members(x), now, b);
    DueSplit(z.retry, now, a, b);
    MinusMembers(z.retry, x, y);
    var db1 := RequeueIds(db, queue, x);
    assert db1.queues[queue].pending + y == z.pending + (x + y);
    assert RequeueIds(db1, queue, y).queues == RequeueIds(db, queue, x + y).queues;
  }

  // ----- no due entry is starved ---------------------------------------------------------

  function AheadOf(z: map<Id, int>, id: Id): set<Id>
    requires id in z
  {
    set x | x in z && Ahead(z, x, id)
  }

  predicate LeasedAt(db: Db, q: string, id: Id, d: int) {
    id in db.queues[q].leased && db.queues[q].leased[id] == d
  }

  predicate RetryAt(db: Db, q: string, id: Id, d: int) {
    id in db.queues[q].retry && db.queues[q].retry[id] == d
  }

  predicate Placed(db: Db, q: string, bump: bool, id: Id, d: int) {
    if bump then LeasedAt(db, q, id, d) else RetryAt(db, q, id, d)
  }

  /** The step puts no entry into the set that is due as it is put there: a claim or renewal
      computed from a clock sample less than a lease TTL old, a failure report from one less
      than its retry delay old. */
  predicate Timely(s: Step, bump: bool) {
    match s.op
    case ClaimOp(_, _, deadline) => bump ==> deadline > s.at
    case RenewOp(_, _, deadline) => bump ==> deadline > s.at
    case FailOp(_, _, nextAt) => !bump ==> nextAt > s.at
    case _ => true
  }

  /** A drain of that set of queue q that finds scores up to d due. */
  predicate DrainsDue(s: Step, q: string, bump: bool, d: int) {
    if bump then s.op.ReapOp? && s.op.queue == q && s.op.now >= d
    else s.op.RequeueOp? && s.op.queue == q && s.op.now >= d
  }

  lemma ReapAhead(z: map<Id, int>, now: int, limit: nat, id: Id)
    requires id in z && z[id] <= now && id !in Due(z, now, limit)
    ensures var z' := z - Members(Due(z, now, limit));
            id in z' && |AheadOf(z', id)| + limit == |AheadOf(z, id)|
  {
    var due := Due(z, now, limit);
    DueExact(z, now, limit);
    assert id in DueMap(z, now);
    assert Members(due) <= DueMap(z, now).Keys - {id};
    DistinctCount(due);
    assert |Members(due)| <= |DueMap(z, now).Keys - {id}| by { Subset(Members(due), DueMap(z, now).Keys - {id}); }
    assert |due| == limit;
    assert AheadOf(z - Members(due), id) == AheadOf(z, id) - Members(due);
    assert Members(due) <= AheadOf(z, id);
  }

  lemma Subset<T>(a: set<T>, b: set<T>)
    requires a <= b
    ensures |a| <= |b|
  {
    assert b == a + (b - a);
  }

  /** Entries that leave, or are inserted behind, do not push a lease back. */
  lemma FewerAhead(z: map<Id, int>, z': map<Id, int>, id: Id)
    requires id in z && id in z' && z'[id] == z[id]
    requires forall x | x in z' :: (x in z && z'[x] == z[x]) || z'[x] > z[id]
    ensures |AheadOf(z', id)| <= |AheadOf(z, id)|
  {
    Subset(AheadOf(z', id), AheadOf(z, id));
  }

  /** Only claims and renewals write a lease's score, and only failure reports a retry's. */
  lemma WrittenScores(c: Config, db: Db, s: Step, q: string, bump: bool, x: Id)
    requires Sound(db) && Distinct(NewJobs(s.op)) && Members(NewJobs(s.op)) !! db.jobs.Keys
    requires x in DueIn(Apply(c, db, s).queues[q], bump)
    ensures var z, z' := DueIn(db.queues[q], bump), DueIn(Apply(c, db, s).queues[q], bump);
            || (x in z && z'[x] == z[x])
            || (bump && (s.op.ClaimOp? || s.op.RenewOp?) && z'[x] == s.op.deadline)
            || (!bump && s.op.FailOp? && z'[x] == s.op.nextAt)
  {
    var db' := Apply(c, db, s);
    StepSound(c, db, s);
    SoundAt(db', q, x);
    assert Evolves(c, s, x, Look(db, x), Look(db', x));
    if x in db.jobs { SoundAt(db, db.jobs[x].queue, x); }
  }

  lemma DrainLeaves(c: Config, db: Db, s: Step, q: string, bump: bool, d: int)
    requires DrainsDue(s, q, bump, d)
    ensures var z := DueIn(db.queues[q], bump);
            DueIn(Apply(c, db, s).queues[q], bump) == z - Members(Due(z, s.op.now, c.drainLimit))
  {
  }

  lemma StepAhead(c: Config, db: Db, s: Step, q: string, bump: bool, id: Id, d: int)
    requires Sound(db) && Distinct(NewJobs(s.op)) && Members(NewJobs(s.op)) !! db.jobs.Keys
    requires Placed(db, q, bump, id, d) && Placed(Apply(c, db, s), q, bump, id, d)
    requires Timely(s, bump) && s.at >= d && c.drainLimit >= 1
    ensures |AheadOf(DueIn(Apply(c, db, s).queues[q], bump), id)|
            + (if DrainsDue(s, q, bump, d) then c.drainLimit else 0)
            <= |AheadOf(DueIn(db.queues[q], bump), id)|
  {
    hide Apply, Due;
    var z, z' := DueIn(db.queues[q], bump), DueIn(Apply(c, db, s).queues[q], bump);
    if DrainsDue(s, q, bump, d) {
      DrainLeaves(c, db, s, q, bump, d);
      ReapAhead(z, s.op.now, c.drainLimit, id);
    } else {
      forall x | x in z' ensures (x in z && z'[x] == z[x]) || z'[x] > z[id] { WrittenScores(c, db, s, q, bump, x); }
      FewerAhead(z, z', id);
    }
  }

  /** The drains of that set of queue q from step k on that found scores up to d due. */
  function DrainPasses(t: Trace, k: nat, q: string, bump: bool, d: int): nat
    requires k <= |t|
    decreases |t|
  {
    if k == |t| then 0 else DrainPasses(t[..|t|-1], k, q, bump, d) + Bit(DrainsDue(t[|t|-1], q, bump, d))
  }

  /** From step k on the entry keeps its place and every step is timely, after d. */
  ghost predicate Waits(c: Config, t: Trace, k: nat, q: string, bump: bool, id: Id, d: int)
    requires k <= |t|
    decreases |t|
  {
    && Placed(Run(c, t), q, bump, id, d)
    && (k < |t| ==> Timely(t[|t|-1], bump) && t[|t|-1].at >= d && Waits(c, t[..|t|-1], k, q, bump, id, d))
  }

  /** The entries those passes removed ahead of it. */
  function Drained(t: Trace, k: nat, q: string, bump: bool, d: int, limit: nat): nat
    requires k <= |t|
    decreases |t|
  {
    if k == |t| then 0
    else Drained(t[..|t|-1], k, q, bump, d, limit) + if DrainsDue(t[|t|-1], q, bump, d) then limit else 0
  }

  lemma {:induction false} DrainedIs(t: Trace, k: nat, q: string, bump: bool, d: int, limit: nat)
    requires k <= |t|
    ensures Drained(t, k, q, bump, d, limit) == DrainPasses(t, k, q, bump, d) * limit
    decreases |t|
  {
    if k < |t| {
      DrainedIs(t[..|t|-1], k, q, bump, d, limit);
      Distributes(DrainPasses(t[..|t|-1], k, q, bump, d), Bit(DrainsDue(t[|t|-1], q, bump, d)), limit);
    }
  }

  lemma Distributes(a: nat, b: nat, limit: nat)
    ensures (a + b) * limit == a * limit + b * limit
  {
  }

  lemma {:induction false} WaitsShrinks(c: Config, t: Trace, k: nat, q: string, bump: bool, id: Id, d: int)
    requires Legal(c, t) && k <= |t| && c.drainLimit >= 1 && Waits(c, t, k, q, bump, id, d)
    ensures Placed(Run(c, t), q, bump, id, d) && Placed(Run(c, t[..k]), q, bump, id, d)
    ensures |AheadOf(DueIn(Run(c, t).queues[q], bump), id)| + Drained(t, k, q, bump, d, c.drainLimit)
            <= |AheadOf(DueIn(Run(c, t[..k]).queues[q], bump), id)|
    decreases |t|
  {
    if k == |t| {
      assert t[..k] == t;
    } else {
      var p, s := t[..|t|-1], t[|t|-1];
      assert p[..k] == t[..k];
      WaitsShrinks(c, p, k, q, bump, id, d);
      NoJobLostOrDuplicated(c, p);
      StepAhead(c, Run(c, p), s, q, bump, id, d);
    }
  }

  /** Steps from k on ran at time `now` or later. */
  predicate NotBefore(t: Trace, k: nat, now: int) { forall i | k <= i < |t| :: t[i].at >= now }

  predicate TimelySince(t: Trace, k: nat, bump: bool) { forall i | k <= i < |t| :: Timely(t[i], bump) }

  ghost predicate StaysPlaced(c: Config, t: Trace, k: nat, q: string, bump: bool, id: Id, d: int) {
    forall j | k <= j <= |t| :: Placed(Run(c, t[..j]), q, bump, id, d)
  }

  lemma {:induction false} StaysWaits(c: Config, t: Trace, k: nat, q: string, bump: bool, id: Id, d: int)
    requires k <= |t| && StaysPlaced(c, t, k, q, bump, id, d) && TimelySince(t, k, bump) && NotBefore(t, k, d)
    ensures Waits(c, t, k, q, bump, id, d)
    decreases |t|
  {
    hide Run;
    assert t[..|t|] == t;
    if k < |t| {
      var p := t[..|t|-1];
      forall j | k <= j <= |p| ensures Placed(Run(c, p[..j]), q, bump, id, d) { assert p[..j] == t[..j]; }
      StaysWaits(c, p, k, q, bump, id, d);
    }
  }

  /** A due entry with n entries ahead of it leaves its place within n / drainLimit + 1 passes,
      whatever else interleaves, as long as what is written to the set is timely. */
  lemma LeavesPlace(c: Config, t: Trace, k: nat, q: string, bump: bool, id: Id, d: int)
    requires Legal(c, t) && k <= |t| && c.drainLimit >= 1
    requires Placed(Run(c, t[..k]), q, bump, id, d) && NotBefore(t, k, d) && TimelySince(t, k, bump)
    requires DrainPasses(t, k, q, bump, d)
             >= |AheadOf(DueIn(Run(c, t[..k]).queues[q], bump), id)| / c.drainLimit + 1
    ensures exists j | k <= j <= |t| :: !Placed(Run(c, t[..j]), q, bump, id, d)
  {
    hide Run, Legal;
    if StaysPlaced(c, t, k, q, bump, id, d) {
      StaysWaits(c, t, k, q, bump, id, d);
      WaitsShrinks(c, t, k, q, bump, id, d);
      DrainedIs(t, k, q, bump, d, c.drainLimit);
      Division(|AheadOf(DueIn(Run(c, t[..k]).queues[q], bump), id)|, c.drainLimit, DrainPasses(t, k, q, bump, d));
    }
  }

  /** So a due lease with n ahead of it ends, or changes its deadline, within n / drainLimit + 1
      reap passes, as long as claims and renewals are timely. */
  lemma NoStarvation(c: Config, t: Trace, k: nat, q: string, id: Id, d: int)
    requires Legal(c, t) && k <= |t| && c.drainLimit >= 1 && LeasedAt(Run(c, t[..k]), q, id, d)
    requires forall i | k <= i < |t| :: t[i].at >= d
    requires forall i | k <= i < |t| && (t[i].op.ClaimOp? || t[i].op.RenewOp?) :: t[i].op.deadline > t[i].at
    requires DrainPasses(t, k, q, true, d) >= |AheadOf(Run(c, t[..k]).queues[q].leased, id)| / c.drainLimit + 1
    ensures exists j | k <= j <= |t| :: !LeasedAt(Run(c, t[..j]), q, id, d)
  {
    hide Run, Legal;
    LeavesPlace(c, t, k, q, true, id, d);
    var j :| k <= j <= |t| && !Placed(Run(c, t[..j]), q, true, id, d);
    assert !LeasedAt(Run(c, t[..j]), q, id, d);
  }

  /** And a due retry with n ahead of it becomes pending within n / drainLimit + 1 retry passes,
      as long as each failure report runs before the retry time it sets. */
  lemma NoRetryStarvation(c: Config, t: Trace, k: nat, q: string, id: Id, d: int)
    requires Legal(c, t) && k <= |t| && c.drainLimit >= 1 && RetryAt(Run(c, t[..k]), q, id, d)
    requires forall i | k <= i < |t| :: t[i].at >= d
    requires forall i | k <= i < |t| && t[i].op.FailOp? :: t[i].op.nextAt > t[i].at
    requires DrainPasses(t, k, q, false, d) >= |AheadOf(Run(c, t[..k]).queues[q].retry, id)| / c.drainLimit + 1
    ensures exists j | k < j <= |t| :: id in Run(c, t[..j]).queues[q].pending
  {
    hide Run, Legal;
    LeavesPlace(c, t, k, q, false, id, d);
    var j :| k <= j <= |t| && !Placed(Run(c, t[..j]), q, false, id, d);
    RetryEnds(c, t, k, j, q, id, d);
  }

  lemma {:induction false} RetryEnds(c: Config, t: Trace, k: nat, j: nat, q: string, id: Id, d: int)
    requires Legal(c, t) && k <= j <= |t| && RetryAt(Run(c, t[..k]), q, id, d) && !RetryAt(Run(c, t[..j]), q, id, d)
    ensures exists m | k < m <= |t| :: id in Run(c, t[..m]).queues[q].pending
    decreases j - k
  {
    hide Run, Legal;
    assert k < j;
    RetryStep(c, t, k, q, id, d);
    if RetryAt(Run(c, t[..k + 1]), q, id, d) {
      RetryEnds(c, t, k + 1, j, q, id, d);
      var m :| k + 1 < m <= |t| && id in Run(c, t[..m]).queues[q].pending;
    }
  }

  /** A retry entry stays as it is or becomes pending. */
  lemma RetryStep(c: Config, t: Trace, k: nat, q: string, id: Id, d: int)
    requires Legal(c, t) && k < |t| && RetryAt(Run(c, t[..k]), q, id, d)
    ensures RetryAt(Run(c, t[..k + 1]), q, id, d) || id in Run(c, t[..k + 1]).queues[q].pending
  {
    var u := t[..k + 1];
    assert u[..|u|-1] == t[..k];
    Attempts.LegalPrefix(c, t, k + 1);
    Attempts.LegalLast(c, u);
    NoJobLostOrDuplicated(c, t[..k]);
    NoJobLostOrDuplicated(c, u);
    SoundAt(Run(c, t[..k]), q, id);
    RunEvolves(c, u, id);
    SoundAt(Run(c, u), q, id);
  }

  lemma Division(n: nat, limit: nat, passes: nat)
    requires limit >= 1 && passes >= n / limit + 1
    ensures passes * limit > n
  {
    assert n < (n / limit + 1) * limit;
    assert passes * limit >= (n / limit + 1) * limit;
  }

  // ----- one reap --------------------------------------------------------------------------

  lemma FirstDue(z: map<Id, int>, now: int, limit: int, x: Id)
    requires limit >= 1 && x in z && z[x] <= now
    ensures Due(z, now, limit) != [] && Distinct(Due(z, now, limit))
    ensures forall y | y in Due(z, now, limit) :: y in z
  {
    DueExact(z, now, limit);
    assert x in DueMap(z, now);
  }

  lemma ApplyReap(c: Config, db: Db, s: Step)
    requires s.op.ReapOp?
    ensures Apply(c, db, s)
            == ReapIds(db, c.maxRetries, s.op.queue, Due(db.queues[s.op.queue].leased, s.op.now, c.drainLimit))
  {
  }
}
