/** The store's operations (internal/cogs/store.go): each samples the clock, chooses
    arguments and runs one script or several, while other servers, leaders and stale workers
    run theirs in between. The ghost trace records every script executed. */
module Storage {
  import opened Wrappers
  import opened Ranking
  import opened Model
  import opened Scripts
  import opened Priority
  import Attempts
  import Backoff
  import Contents
  import Lifecycle
  import Draining
  import Idempotency

  /** What the connection does to one call: a request may be lost, or the answer to one that
      ran. */
  datatype Net = Delivered | Unanswered | Lost

  /** An answer, or an error from the connection: the script may have run all the same. */
  datatype Reply<+T> = Ok(value: T) | Failed

  /** The script ran after `before`, unless its request was lost. */
  predicate Sent(net: Net, before: Trace, after: Trace, s: Step) {
    after == if net.Lost? then before else before + [s]
  }

  datatype LeasedJob = LeasedJob(id: Id, queue: string, payload: string, attempts: int, deadline: int)

  function Handed(grants: seq<Grant>, queue: string, deadline: int): seq<LeasedJob> {
    seq(|grants|, i requires 0 <= i < |grants| =>
      LeasedJob(grants[i].id, queue, grants[i].payload, grants[i].attempts, deadline))
  }

  /** The jobs handed out by successive calls. */
  function AllHanded(vs: seq<Visit>, queues: seq<string>, deadline: int): seq<LeasedJob>
    requires |vs| <= |queues|
  {
    if vs == [] then []
    else
      var n := |vs| - 1;
      AllHanded(vs[..n], queues, deadline) + Handed(vs[n].grants, queues[n], deadline)
  }

  function Clamped(batch: int, most: int): int {
    var atLeast := if batch < 1 then 1 else batch;
    if atLeast > most then most else atLeast
  }

  /** Any batch from one to the limit is granted as asked; others get the nearer end. */
  lemma ClampedIs(batch: int, most: int)
    requires most >= 1
    ensures Clamped(batch, most) == batch <==> 1 <= batch <= most
    ensures Clamped(batch, most) == 1 <==> batch <= 1 || most == 1
    ensures Clamped(batch, most) == most <==> batch >= most || most == 1
  {
  }

  /** t' continues t. */
  predicate Continues(t: Trace, t': Trace) { t <= t' }

  ghost predicate Recorded(c: Config, t: Trace, db: Db, now: int) {
    Legal(c, t) && db == Run(c, t) && (t != [] ==> t[|t|-1].at <= now)
  }

  lemma Records(c: Config, t: Trace, db: Db, now: int, s: Step, db': Db)
    requires Recorded(c, t, db, now) && s.at == now && Fits(c, t, s) && db' == Apply(c, db, s)
    ensures Recorded(c, t + [s], db', now)
  {
    Attempts.Extend(c, t, s);
  }

  lemma AsksMore(queues: seq<string>, batch: int, deadline: int, vs: seq<Visit>, v: Visit, i: nat)
    requires |vs| < |queues| && i <= |vs| && Got(vs) < batch
    requires i < |vs| ==> Asks(queues, batch, deadline, vs, i)
    requires v.step.op == ClaimOp(queues[|vs|], batch - Got(vs), deadline)
    ensures Asks(queues, batch, deadline, vs + [v], i)
  {
    assert (vs + [v])[..i] == vs[..i];
    assert vs[..|vs|] == vs;
  }

  /** The calls made so far and the jobs collected from them. */
  ghost predicate Progress(c: Config, t: Trace, queues: seq<string>, batch: int, deadline: int,
                           vs: seq<Visit>, jobs: seq<LeasedJob>) {
    Tour(c, t, queues, batch, deadline, vs) && |jobs| == Got(vs) && jobs == AllHanded(vs, queues, deadline)
  }

  lemma HandedMore(queues: seq<string>, deadline: int, vs: seq<Visit>, v: Visit)
    requires |vs| < |queues|
    ensures AllHanded(vs + [v], queues, deadline)
            == AllHanded(vs, queues, deadline) + Handed(v.grants, queues[|vs|], deadline)
    ensures Got(vs + [v]) == Got(vs) + |v.grants|
  {
    assert (vs + [v])[..|vs|] == vs;
  }

  /** One more call extends the tour. */
  lemma ProgressMore(c: Config, t: Trace, queues: seq<string>, batch: int, deadline: int,
                     vs: seq<Visit>, jobs: seq<LeasedJob>, v: Visit)
    requires Progress(c, t, queues, batch, deadline, vs, jobs) && Continues(t, v.before)
    requires |vs| < |queues| && |jobs| < batch && Answers(c, v, queues[|vs|], batch - |jobs|, deadline)
    ensures Progress(c, After(v), queues, batch, deadline, vs + [v], jobs + Handed(v.grants, queues[|vs|], deadline))
  {
    var ws := vs + [v];
    forall i | 0 <= i < |ws| ensures Asks(queues, batch, deadline, ws, i) && AnsweredAt(c, ws, i) {
      if i < |vs| { assert Asks(queues, batch, deadline, vs, i) && AnsweredAt(c, vs, i); }
      AsksMore(queues, batch, deadline, vs, v, i);
    }
    HandedMore(queues, deadline, vs, v);
  }

  /** A claim that went through. */
  ghost predicate Collected(c: Config, t: Trace, queues: seq<string>, batch: int, deadline: int,
                            vs: seq<Visit>, jobs: seq<LeasedJob>) {
    Progress(c, t, queues, batch, deadline, vs, jobs) && Complete(queues, batch, vs)
  }

  function JobIds(jobs: seq<LeasedJob>): seq<Id> { seq(|jobs|, i requires 0 <= i < |jobs| => jobs[i].id) }

  lemma {:induction false} HandedIds(vs: seq<Visit>, queues: seq<string>, deadline: int)
    requires |vs| <= |queues|
    ensures JobIds(AllHanded(vs, queues, deadline)) == AllIds(vs)
    ensures forall j | j in AllHanded(vs, queues, deadline) :: j.deadline == deadline && j.queue in queues
  {
    if vs != [] {
      var n := |vs| - 1;
      HandedIds(vs[..n], queues, deadline);
      JoinIds(AllHanded(vs[..n], queues, deadline), vs[n].grants, queues[n], deadline);
    }
  }

  lemma JoinIds(jobs: seq<LeasedJob>, grants: seq<Grant>, queue: string, deadline: int)
    ensures JobIds(jobs + Handed(grants, queue, deadline)) == JobIds(jobs) + Ids(grants)
  {
  }

  /** The call handed the job out as it was stored, from the pending list of its own queue,
      and wrote its lease. */
  ghost predicate HandsOut(c: Config, v: Visit, j: LeasedJob) {
    var db, after := Run(c, v.before), Run(c, After(v));
    && j.id in db.jobs && j.payload == db.jobs[j.id].payload && j.attempts == db.jobs[j.id].attempts
    && j.queue == db.jobs[j.id].queue && j.id in db.queues[j.queue].pending
    && j.id in after.queues[j.queue].leased && after.queues[j.queue].leased[j.id] == j.deadline
  }

  lemma GrantHandsOut(c: Config, v: Visit, q: string, n: int, deadline: int, g: Grant)
    requires Legal(c, After(v)) && Answers(c, v, q, n, deadline) && g in v.grants
    ensures HandsOut(c, v, LeasedJob(g.id, q, g.payload, g.attempts, deadline))
  {
    hide Run, Legal, Apply;
    var db := Run(c, v.before);
    var ids := Claimed(db.queues[q], n);
    Attempts.Extend(c, v.before, v.step);
    Lifecycle.NoJobLostOrDuplicated(c, v.before);
    var i :| 0 <= i < |v.grants| && v.grants[i] == g;
    ClaimedOwned(c, db, v.step, ids[i]);
  }

  lemma ClaimedOwned(c: Config, db: Db, s: Step, id: Id)
    requires Lifecycle.Sound(db) && s.op.ClaimOp? && id in Claimed(db.queues[s.op.queue], s.op.n)
    ensures id in db.jobs && db.jobs[id].queue == s.op.queue && id in db.queues[s.op.queue].pending
    ensures var leased := Apply(c, db, s).queues[s.op.queue].leased; id in leased && leased[id] == s.op.deadline
  {
    var z := db.queues[s.op.queue];
    assert z.pending == Claimed(z, s.op.n) + z.pending[TakeCount(s.op.n, |z.pending|)..];
    Lifecycle.SoundAt(db, s.op.queue, id);
  }

  lemma {:induction false} HandedFrom(vs: seq<Visit>, queues: seq<string>, deadline: int, j: LeasedJob)
    returns (i: nat, g: Grant)
    requires |vs| <= |queues| && j in AllHanded(vs, queues, deadline)
    ensures i < |vs| && g in vs[i].grants && j == LeasedJob(g.id, queues[i], g.payload, g.attempts, deadline)
  {
    var n := |vs| - 1;
    var last := Handed(vs[n].grants, queues[n], deadline);
    if j in last {
      var k :| 0 <= k < |last| && last[k] == j;
      return n, vs[n].grants[k];
    }
    i, g := HandedFrom(vs[..n], queues, deadline, j);
  }

  lemma VisitLegal(c: Config, t: Trace, vs: seq<Visit>, i: nat)
    requires Legal(c, t) && InOrder(t, vs) && i < |vs|
    ensures Legal(c, After(vs[i]))
  {
    hide Run, Legal;
    var u := After(vs[i]);
    assert u <= t && u == t[..|u|];
    Attempts.LegalPrefix(c, t, |u|);
  }

  lemma CollectedFrom(c: Config, t: Trace, queues: seq<string>, batch: int, deadline: int, vs: seq<Visit>,
                      jobs: seq<LeasedJob>, j: LeasedJob) returns (i: nat)
    requires Legal(c, t) && Collected(c, t, queues, batch, deadline, vs, jobs) && j in jobs
    ensures i < |vs| && Continues(After(vs[i]), t) && HandsOut(c, vs[i], j)
  {
    hide Run, Legal, HandsOut;
    var g;
    i, g := HandedFrom(vs, queues, deadline, j);
    TourAt(c, t, queues, batch, deadline, vs, i);
    VisitLegal(c, t, vs, i);
    GrantHandsOut(c, vs[i], queues[i], batch - Got(vs[..i]), deadline, g);
  }

  /** What a claim that went through amounts to, although its calls ran at different moments:
      no more jobs than the batch; fewer only if every listed queue was emptied at its own
      call; one deadline for all; each job as it was stored when it was handed out; and
      distinct jobs when the queue names are distinct. */
  lemma ClaimCollects(c: Config, t: Trace, queues: seq<string>, batch: nat, deadline: int,
                      vs: seq<Visit>, jobs: seq<LeasedJob>)
    requires Legal(c, t) && Collected(c, t, queues, batch, deadline, vs, jobs)
    ensures |jobs| <= batch
    ensures forall j | j in jobs :: j.deadline == deadline && j.queue in queues
    ensures forall j | j in jobs :: exists v :: v in vs && HandsOut(c, v, j)
    ensures |jobs| < batch ==> |vs| == |queues| && forall i | 0 <= i < |vs| :: LeftEmpty(c, vs[i], queues[i])
    ensures Distinct(queues) ==> Distinct(JobIds(jobs))
  {
    hide HandsOut, Legal, Run;
    TourFits(c, t, queues, batch, deadline, vs);
    HandedIds(vs, queues, deadline);
    forall j | j in jobs ensures exists v :: v in vs && HandsOut(c, v, j) {
      var i := CollectedFrom(c, t, queues, batch, deadline, vs, jobs, j);
      assert vs[i] in vs;
    }
    if |jobs| < batch {
      forall i | 0 <= i < |vs| ensures LeftEmpty(c, vs[i], queues[i]) {
        ShortOnlyIfEmpty(c, t, queues, batch, deadline, vs, i);
      }
    }
    if Distinct(queues) {
      DistinctTour(c, t, queues, batch, deadline, vs, |vs|);
      assert vs[..|vs|] == vs;
    }
  }

  /** An ID that a later step brings is not used before it. */
  lemma BroughtBefore(c: Config, t: Trace, u: Trace, i: nat, id: Id)
    requires Legal(c, t) && Continues(u, t) && i < |t| && id in NewJobs(t[i].op) && id in Run(c, u).jobs
    ensures i < |u| && Legal(c, u) && u[i] == t[i]
  {
    hide Run, Legal;
    assert u == t[..|u|];
    Attempts.LegalPrefix(c, t, |u|);
    Lifecycle.NoJobLostOrDuplicated(c, u);
    if i >= |u| { Contents.NotUsedYet(c, t, i, |u|, id); }
  }

  /** Every claim of a job hands out exactly the payload that its enqueue was given. */
  lemma HandedPayload(c: Config, t: Trace, queues: seq<string>, batch: int, deadline: int, vs: seq<Visit>,
                      jobs: seq<LeasedJob>, j: LeasedJob, i: nat)
    requires Legal(c, t) && Collected(c, t, queues, batch, deadline, vs, jobs) && j in jobs
    requires i < |t| && t[i].op.EnqueueOp? && t[i].op.id == j.id
    ensures j.payload == t[i].op.payload && j.queue == t[i].op.queue
  {
    hide Run, Legal, Collected;
    var n := CollectedFrom(c, t, queues, batch, deadline, vs, jobs, j);
    BroughtBefore(c, t, vs[n].before, i, j.id);
    Contents.EnqueuedContent(c, vs[n].before, i);
  }

  /** Or that of the quad of the firing that created it. */
  lemma HandedFiring(c: Config, t: Trace, queues: seq<string>, batch: int, deadline: int, vs: seq<Visit>,
                     jobs: seq<LeasedJob>, j: LeasedJob, i: nat, k: nat)
    requires Legal(c, t) && Collected(c, t, queues, batch, deadline, vs, jobs) && j in jobs
    requires i < |t| && t[i].op.FireOp? && k < |t[i].op.firings| && t[i].op.firings[k].job == j.id
    ensures j.payload == t[i].op.firings[k].payload
  {
    hide Run, Legal, Collected;
    var n := CollectedFrom(c, t, queues, batch, deadline, vs, jobs, j);
    assert FireIds(t[i].op.firings)[k] == j.id;
    BroughtBefore(c, t, vs[n].before, i, j.id);
    Contents.FiredContent(c, vs[n].before, i, k);
  }

  lemma NoProgress(c: Config, t: Trace, queues: seq<string>, batch: int, deadline: int)
    ensures Progress(c, t, queues, batch, deadline, [], [])
  {
  }

  /** The own steps after a call: its script's, unless the request was lost. */
  function Added(own: set<nat>, net: Net, before: Trace): set<nat> {
    if net.Lost? then own else own + {|before|}
  }

  function Positions(vs: seq<Visit>): set<nat> { set v | v in vs :: |v.before| }

  lemma NoPositions()
    ensures Positions([]) == {}
  {
  }

  lemma PositionsMore(vs: seq<Visit>, v: Visit)
    ensures Positions(vs + [v]) == Positions(vs) + {|v.before|}
  {
    assert forall w :: w in vs + [v] <==> w in vs || w == v;
  }

  /** The report sets its retry between half of base * 2^a and all of it after the clock sample,
      a the attempt number, but 0 below 0 and 20 above 20. */
  predicate RetriesWithin(op: Op, sampled: int, baseMs: int, attempt: int) {
    && op.FailOp?
    && (0 <= baseMs * 1_000_000 < 0x800_0000_0000 ==>
          var a := if attempt < 0 then 0 else if attempt > 20 then 20 else attempt;
          baseMs * Backoff.Power2(a) / 2 <= op.nextAt - sampled <= baseMs * Backoff.Power2(a))
  }

  lemma DelayWithin(queue: string, id: Id, sampled: int, baseMs: int, attempt: int, draw: int)
    requires Backoff.Jitter(draw)
    ensures RetriesWithin(FailOp(queue, id, sampled + Backoff.DelayMs(baseMs, attempt, draw)), sampled, baseMs, attempt)
  {
    if 0 <= baseMs * 1_000_000 < 0x800_0000_0000 { Backoff.DelayMsBounds(baseMs, attempt, draw); }
  }

  /** What a failure report did. */
  datatype Ending = Gone | Retrying | DeadLettered

  function EndingOf(c: Config, db: Db, queue: string, id: Id): Ending {
    if id !in db.queues[queue].leased then Gone
    else if Spent(db.jobs, c.maxRetries, id) then DeadLettered
    else Retrying
  }

  /** What the three answers to a failure report mean for the job: it was not leased and
      nothing changed; it waits in the retry set for the given time; or it is dead. In the last
      two it has one attempt more. */
  lemma EndingMeans(c: Config, t: Trace, s: Step)
    requires Legal(c, t + [s]) && s.op.FailOp?
    ensures var op, db, after := s.op, Run(c, t), Run(c, t + [s]);
            var z, z' := db.queues[op.queue], after.queues[op.queue];
            match EndingOf(c, db, op.queue, op.id)
            case Gone => op.id !in z.leased && after == db
            case Retrying =>
              && op.id in z.leased && op.id in db.jobs && op.id in after.jobs
              && after.jobs[op.id].attempts == db.jobs[op.id].attempts + 1 <= c.maxRetries
              && z' == Queue(z.pending, z.leased - {op.id}, z.retry[op.id := op.nextAt], z.dead)
            case DeadLettered =>
              && op.id in z.leased && op.id in db.jobs && op.id in after.jobs
              && after.jobs[op.id].attempts == db.jobs[op.id].attempts + 1 > c.maxRetries
              && z' == Queue(z.pending, z.leased - {op.id}, z.retry, z.dead + [op.id])
  {
    Attempts.Extend(c, t, s);
    Lifecycle.NoJobLostOrDuplicated(c, t);
    Lifecycle.SoundAt(Run(c, t), s.op.queue, s.op.id);
  }

  /** What a drain pass reports: the requeued jobs and the dead ones, in order. */
  ghost function Drained(c: Config, db: Db, queue: string, now: int, bump: bool): (seq<Id>, seq<Id>) {
    var due := Due(DueIn(db.queues[queue], bump), now, c.drainLimit);
    (Requeued(db, bump, c.maxRetries, due), Buried(db, bump, c.maxRetries, due))
  }

  /** The jobs reported requeued are appended to the pending list, those reported dead to the
      dead list, in that order; together they are those that were due. A pass over the leases
      buries exactly those whose counted attempts exceed the retries, one over the retries
      none. */
  lemma DrainMoves(c: Config, t: Trace, s: Step)
    requires Legal(c, t + [s]) && (s.op.ReapOp? || s.op.RequeueOp?)
    ensures var (requeued, dead) := Drained(c, Run(c, t), s.op.queue, s.op.now, s.op.ReapOp?);
            var z, z' := Run(c, t).queues[s.op.queue], Run(c, t + [s]).queues[s.op.queue];
            var due := Due(if s.op.ReapOp? then z.leased else z.retry, s.op.now, c.drainLimit);
            && z'.pending == z.pending + requeued && z'.dead == z.dead + dead
            && z'.leased == (if s.op.ReapOp? then z.leased - Members(due) else z.leased)
            && z'.retry == (if s.op.ReapOp? then z.retry else z.retry - Members(due))
            && (forall id :: id in requeued || id in dead <==> id in due)
            && (forall id | id in dead ::
                  s.op.ReapOp? && id in Run(c, t + [s]).jobs && Run(c, t + [s]).jobs[id].attempts > c.maxRetries)
            && (forall id | id in requeued ::
                  s.op.ReapOp? ==> id in Run(c, t + [s]).jobs && Run(c, t + [s]).jobs[id].attempts <= c.maxRetries)
  {
    hide Run, Legal, Due;
    Attempts.Extend(c, t, s);
    DrainSplits(c, Run(c, t), s);
  }

  lemma DrainSplits(c: Config, db: Db, s: Step)
    requires s.op.ReapOp? || s.op.RequeueOp?
    ensures var (requeued, dead) := Drained(c, db, s.op.queue, s.op.now, s.op.ReapOp?);
            var z, z' := db.queues[s.op.queue], Apply(c, db, s).queues[s.op.queue];
            var due := Due(if s.op.ReapOp? then z.leased else z.retry, s.op.now, c.drainLimit);
            && z'.pending == z.pending + requeued && z'.dead == z.dead + dead
            && z'.leased == (if s.op.ReapOp? then z.leased - Members(due) else z.leased)
            && z'.retry == (if s.op.ReapOp? then z.retry else z.retry - Members(due))
            && (forall id :: id in requeued || id in dead <==> id in due)
            && (forall id | id in dead ::
                  s.op.ReapOp? && id in Apply(c, db, s).jobs && Apply(c, db, s).jobs[id].attempts > c.maxRetries)
            && (forall id | id in requeued ::
                  s.op.ReapOp? ==> id in Apply(c, db, s).jobs && Apply(c, db, s).jobs[id].attempts <= c.maxRetries)
  {
    hide Due;
    if s.op.ReapOp? {
      var due := Due(db.queues[s.op.queue].leased, s.op.now, c.drainLimit);
      Draining.ApplyReap(c, db, s);
      forall id
        ensures id in Survivors(db.jobs, c.maxRetries, due) <==> id in due && !Spent(db.jobs, c.maxRetries, id)
        ensures id in Casualties(db.jobs, c.maxRetries, due) <==> id in due && Spent(db.jobs, c.maxRetries, id)
      {
        SplitMembers(db.jobs, c.maxRetries, due, id);
      }
    }
  }

  lemma {:induction false} SplitMembers(jobs: map<Id, Job>, maxRetries: nat, ids: seq<Id>, id: Id)
    ensures id in Survivors(jobs, maxRetries, ids) <==> id in ids && !Spent(jobs, maxRetries, id)
    ensures id in Casualties(jobs, maxRetries, ids) <==> id in ids && Spent(jobs, maxRetries, id)
  {
    if ids != [] { SplitMembers(jobs, maxRetries, ids[..|ids|-1], id); }
  }

  /** NewID has not drawn these before, as job or as schedule IDs. */
  predicate Unused(t: Trace, ids: set<Id>) { ids !! UsedJobs(t) && ids !! UsedSchedules(t) }

  class Store {
    const cfg: Config
    const redis: RedisServer
    ghost var trace: Trace
    /** The positions in the trace of this process's own steps. */
    ghost var own: set<nat>

    /** The scripts executed so far are a legal run, and the keyspace holds its result. */
    ghost predicate Valid()
      reads this, redis
    {
      redis.Valid() && Recorded(cfg, trace, redis.db, redis.clock)
    }

    constructor (cfg: Config, now: int, slots: nat, slotOf: string -> nat)
      ensures Valid() && this.cfg == cfg && trace == [] && redis.clock == now && fresh(redis)
    {
      this.cfg := cfg;
      redis := new RedisServer(now, slots, slotOf);
      trace, own := [], {};
    }

    /** Anything other processes do between two moments of this one: any scripts, and time.
        They never draw the IDs in `mine`. */
    method Others(ghost mine: set<Id>)
      requires Valid() && Unused(trace, mine)
      modifies this, redis
      ensures Valid() && Continues(old(trace), trace) && old(redis.clock) <= redis.clock
      ensures Unused(trace, mine) && Draining.NotBefore(trace, |old(trace)|, old(redis.clock)) && own == old(own)
    {
    }

    /** Waits; others act meanwhile. */
    method Sleep(ms: nat)
      requires Valid()
      modifies this, redis
      ensures Valid() && Continues(old(trace), trace) && old(redis.clock) + ms <= redis.clock
      ensures Draining.NotBefore(trace, |old(trace)|, old(redis.clock)) && own == old(own)
    {
      Others({});
      redis.clock := redis.clock + ms;
    }

    ghost method Log(op: Op)
      requires Recorded(cfg, trace, Run(cfg, trace), redis.clock) && redis.Valid()
      requires Fits(cfg, trace, Step(redis.clock, op))
      requires redis.db == Apply(cfg, Run(cfg, trace), Step(redis.clock, op))
      modifies `trace, `own
      ensures Valid() && trace == old(trace) + [Step(redis.clock, op)] && own == old(own) + {|old(trace)|}
    {
      var s := Step(redis.clock, op);
      Records(cfg, trace, Run(cfg, trace), redis.clock, s, redis.db);
      trace, own := trace + [s], own + {|trace|};
    }

    method RunClaim(queue: string, n: int, deadline: int) returns (grants: seq<Grant>)
      requires Valid() && deadline <= redis.clock + cfg.leaseTtl
      modifies `trace, `own, redis
      ensures Valid() && redis.clock == old(redis.clock) && own == old(own) + {|old(trace)|}
      ensures trace == old(trace) + [Step(redis.clock, ClaimOp(queue, n, deadline))]
      ensures Answers(cfg, Visit(old(trace), Step(redis.clock, ClaimOp(queue, n, deadline)), grants),
                      queue, n, deadline)
    {
      grants := redis.Claim(queue, n, deadline);
      Log(ClaimOp(queue, n, deadline));
    }

    /** One script call over the network: others act first, and the request may get lost, or
        its answer. */
    method ClaimOne(queue: string, n: int, deadline: int, net: Net) returns (r: Reply<seq<Grant>>, ghost v: Visit)
      requires Valid() && deadline <= redis.clock + cfg.leaseTtl
      modifies this, redis
      ensures Valid() && Continues(old(trace), trace) && old(redis.clock) <= redis.clock
      ensures r.Ok? <==> net.Delivered?
      ensures own == Added(old(own), net, v.before)
      ensures r.Ok? ==> Continues(old(trace), v.before) && trace == After(v) && r.value == v.grants
      ensures r.Ok? ==> Answers(cfg, v, queue, n, deadline)
    {
      Others({});
      ghost var before := trace;
      v := Visit(before, Step(redis.clock, ClaimOp(queue, n, deadline)), []);
      if net.Lost? {
        return Failed, v;
      }
      var grants := RunClaim(queue, n, deadline);
      v := v.(grants := grants);
      return if net.Delivered? then Ok(grants) else Failed, v;
    }

    /** The batch is clamped once and the clock sampled once; then one call per queue, in
        order, for what is still missing. `vs` are the calls whose answers arrived. */
    method Claim(queues: seq<string>, batch: int, net: nat -> Net)
      returns (r: Reply<seq<LeasedJob>>, ghost vs: seq<Visit>)
      requires Valid()
      modifies this, redis
      ensures Valid() && Continues(old(trace), trace) && old(redis.clock) <= redis.clock
      ensures r.Ok? ==> Collected(cfg, trace, queues, Clamped(batch, cfg.maxClaimBatch),
                                  old(redis.clock) + cfg.leaseTtl, vs, r.value)
      ensures r.Ok? ==> own == old(own) + Positions(vs)
      ensures r.Failed? ==> exists i: nat | i < |queues| :: !net(i).Delivered?
    {
      hide Recorded, Positions, Tour, Handed, Answered;
      var most := Clamped(batch, cfg.maxClaimBatch);
      var deadline := redis.clock + cfg.leaseTtl;
      var jobs: seq<LeasedJob> := [];
      vs := [];
      NoPositions();
      NoProgress(cfg, trace, queues, most, deadline);
      var i := 0;
      while i < |queues| && |jobs| < most
        invariant i == |vs| <= |queues|
        invariant Valid() && Continues(old(trace), trace) && old(redis.clock) <= redis.clock
        invariant Progress(cfg, trace, queues, most, deadline, vs, jobs) && own == old(own) + Positions(vs)
      {
        ghost var before := trace;
        var reply, v := ClaimOne(queues[i], most - |jobs|, deadline, net(i));
        if reply.Failed? {
          return Failed, vs;
        }
        ProgressMore(cfg, before, queues, most, deadline, vs, jobs, v);
        PositionsMore(vs, v);
        vs := vs + [v];
        jobs := jobs + Handed(reply.value, queues[i], deadline);
        i := i + 1;
      }
      return Ok(jobs), vs;
    }

    /** `newId` is what NewID gives; when it fails nothing is sent. */
    method Enqueue(queue: string, payload: string, idem: string, newId: Option<Id>, net: Net)
      returns (r: Reply<(bool, Id)>, ghost before: Trace)
      requires Valid() && cfg.window >= 1 && (newId.Some? ==> Unused(trace, {newId.value}))
      modifies this, redis
      ensures Valid() && Continues(old(trace), before) && Continues(old(trace), trace)
      ensures old(redis.clock) <= redis.clock
      ensures r.Ok? <==> newId.Some? && net.Delivered?
      ensures own == if newId.Some? then Added(old(own), net, before) else old(own)
      ensures newId.None? ==> trace == old(trace)
      ensures newId.Some? ==>
                var body := if payload == "" then "null" else payload;
                var step := Step(redis.clock, EnqueueOp(newId.value, queue, body, old(redis.clock), idem));
                && Sent(net, before, trace, step)
                && (r.Ok? ==> r.value == Idempotency.EnqueueReply(Run(cfg, before), step))
    {
      hide Recorded;
      before := trace;
      if newId.None? {
        return Failed, before;
      }
      var created := redis.clock;
      var body := if payload == "" then "null" else payload;
      Others({newId.value});
      before := trace;
      if net.Lost? {
        return Failed, before;
      }
      var flag, id := RunEnqueue(newId.value, queue, body, created, idem);
      return if net.Delivered? then Ok((flag == 1, id)) else Failed, before;
    }

    method RunEnqueue(newId: Id, queue: string, payload: string, created: int, idem: string) returns (flag: int, id: Id)
      requires Valid() && cfg.window >= 1 && Unused(trace, {newId})
      modifies `trace, `own, redis
      ensures Valid() && redis.clock == old(redis.clock) && own == old(own) + {|old(trace)|}
      ensures var step := Step(redis.clock, EnqueueOp(newId, queue, payload, created, idem));
              trace == old(trace) + [step] && (flag == 1, id) == Idempotency.EnqueueReply(Run(cfg, old(trace)), step)
    {
      flag, id := redis.Enqueue(cfg.window, newId, queue, payload, created, idem);
      Log(EnqueueOp(newId, queue, payload, created, idem));
    }

    /** None when the lease is gone, else the new deadline. */
    method Renew(queue: string, id: Id, net: Net) returns (r: Reply<Option<int>>, ghost before: Trace)
      requires Valid()
      modifies this, redis
      ensures Valid() && Continues(old(trace), before) && Continues(old(trace), trace)
      ensures old(redis.clock) <= redis.clock
      ensures var deadline := old(redis.clock) + cfg.leaseTtl;
              && Sent(net, before, trace, Step(redis.clock, RenewOp(queue, id, deadline)))
              && (r.Ok? ==> r.value == if id in Run(cfg, before).queues[queue].leased then Some(deadline) else None)
      ensures r.Ok? <==> net.Delivered?
      ensures own == Added(old(own), net, before)
    {
      hide Recorded, Run;
      var deadline := redis.clock + cfg.leaseTtl;
      Others({});
      before := trace;
      if net.Lost? {
        return Failed, before;
      }
      var ok := RunRenew(queue, id, deadline);
      return if !net.Delivered? then Failed else Ok(if ok == 0 then None else Some(deadline)), before;
    }

    method RunRenew(queue: string, id: Id, deadline: int) returns (ok: int)
      requires Valid() && deadline <= redis.clock + cfg.leaseTtl
      modifies `trace, `own, redis
      ensures Valid() && redis.clock == old(redis.clock) && own == old(own) + {|old(trace)|}
      ensures trace == old(trace) + [Step(redis.clock, RenewOp(queue, id, deadline))]
      ensures ok == if id in Run(cfg, old(trace)).queues[queue].leased then 1 else 0
    {
      ok := redis.Renew(queue, id, deadline);
      Log(RenewOp(queue, id, deadline));
    }

    /** How many jobs were acknowledged. */
    method Ack(queue: string, ids: seq<Id>, net: Net) returns (r: Reply<nat>, ghost before: Trace)
      requires Valid()
      modifies this, redis
      ensures Valid() && Continues(old(trace), before) && Continues(old(trace), trace)
      ensures old(redis.clock) <= redis.clock
      ensures ids == [] ==> trace == before == old(trace) && r == Ok(0)
      ensures own == if ids != [] then Added(old(own), net, before) else old(own)
      ensures ids != [] ==>
                && (r.Ok? <==> net.Delivered?)
                && Sent(net, before, trace, Step(redis.clock, AckOp(queue, ids)))
                && (r.Ok? ==> r.value == |Acked(Run(cfg, before).queues[queue], ids)|)
    {
      before := trace;
      if ids == [] {
        return Ok(0), before;
      }
      Others({});
      before := trace;
      if net.Lost? {
        return Failed, before;
      }
      var n := RunAck(queue, ids);
      return if net.Delivered? then Ok(n) else Failed, before;
    }

    method RunAck(queue: string, ids: seq<Id>) returns (n: nat)
      requires Valid()
      modifies `trace, `own, redis
      ensures Valid() && redis.clock == old(redis.clock) && own == old(own) + {|old(trace)|}
      ensures trace == old(trace) + [Step(redis.clock, AckOp(queue, ids))]
      ensures n == |Acked(Run(cfg, old(trace)).queues[queue], ids)|
    {
      n := redis.Ack(queue, ids);
      Log(AckOp(queue, ids));
    }

    method Fail(queue: string, id: Id, attempt: int, draw: int, net: Net)
      returns (r: Reply<Ending>, ghost before: Trace)
      requires Valid() && Backoff.Jitter(draw)
      modifies this, redis
      ensures Valid() && Continues(old(trace), before) && Continues(old(trace), trace)
      ensures old(redis.clock) <= redis.clock
      ensures var nextAt := old(redis.clock) + Backoff.DelayMs(cfg.backoffBase, attempt, draw);
              && Sent(net, before, trace, Step(redis.clock, FailOp(queue, id, nextAt)))
              && (r.Ok? ==> r.value == EndingOf(cfg, Run(cfg, before), queue, id))
      ensures !net.Lost? ==>
                |before| < |trace| && RetriesWithin(trace[|before|].op, old(redis.clock), cfg.backoffBase, attempt)
      ensures r.Ok? <==> net.Delivered?
      ensures own == Added(old(own), net, before)
    {
      hide Recorded, Run, RetriesWithin;
      DelayWithin(queue, id, redis.clock, cfg.backoffBase, attempt, draw);
      var nextAt := redis.clock + Backoff.DelayMs(cfg.backoffBase, attempt, draw);
      Others({});
      before := trace;
      if net.Lost? {
        return Failed, before;
      }
      var ending := RunFail(queue, id, nextAt);
      return if net.Delivered? then Ok(ending) else Failed, before;
    }

    method RunFail(queue: string, id: Id, nextAt: int) returns (ending: Ending)
      requires Valid()
      modifies `trace, `own, redis
      ensures Valid() && redis.clock == old(redis.clock) && own == old(own) + {|old(trace)|}
      ensures trace == old(trace) + [Step(redis.clock, FailOp(queue, id, nextAt))]
      ensures ending == EndingOf(cfg, Run(cfg, old(trace)), queue, id)
    {
      var code := redis.Fail(queue, id, nextAt, cfg.maxRetries);
      Log(FailOp(queue, id, nextAt));
      ending := if code == -1 then Gone else if code == 2 then DeadLettered else Retrying;
    }

    /** One pass over the leased set (bump) or the retry set of a queue. */
    method Drain(queue: string, bump: bool, net: Net) returns (r: Reply<(seq<Id>, seq<Id>)>, ghost before: Trace)
      requires Valid()
      modifies this, redis
      ensures Valid() && Continues(old(trace), before) && Continues(old(trace), trace)
      ensures old(redis.clock) <= redis.clock
      ensures var now := old(redis.clock);
              && Sent(net, before, trace, Step(redis.clock, if bump then ReapOp(queue, now) else RequeueOp(queue, now)))
              && (r.Ok? ==> r.value == Drained(cfg, Run(cfg, before), queue, now, bump))
      ensures r.Ok? <==> net.Delivered?
      ensures own == Added(old(own), net, before)
      ensures Draining.NotBefore(trace, |old(trace)|, old(redis.clock))
    {
      hide Recorded;
      var now := redis.clock;
      Others({});
      before := trace;
      if net.Lost? {
        return Failed, before;
      }
      var requeued, dead := RunDrain(queue, now, bump);
      return if net.Delivered? then Ok((requeued, dead)) else Failed, before;
    }

    method RunDrain(queue: string, now: int, bump: bool) returns (requeued: seq<Id>, dead: seq<Id>)
      requires Valid() && now <= redis.clock
      modifies `trace, `own, redis
      ensures Valid() && redis.clock == old(redis.clock) && own == old(own) + {|old(trace)|}
      ensures trace == old(trace) + [Step(redis.clock, if bump then ReapOp(queue, now) else RequeueOp(queue, now))]
      ensures (requeued, dead) == Drained(cfg, Run(cfg, old(trace)), queue, now, bump)
    {
      requeued, dead := redis.Drain(queue, now, cfg.drainLimit, bump, cfg.maxRetries);
      Log(if bump then ReapOp(queue, now) else RequeueOp(queue, now));
    }
  }
}
