/** What holds of each queue over whole runs: the order of its jobs, and their number. */
module Accounting {
  import opened Ranking
  import opened Model
  import opened Lifecycle

  // ----- what one step pushes, pops, creates and removes ---------------------------------

  /** The jobs a schedule script creates in queue q, in order. */
  function FiredInto(db: Db, now: int, fs: seq<Firing>, q: string): seq<Id> {
    if fs == [] then []
    else
      var p, f := fs[..|fs|-1], fs[|fs|-1];
      var mid := Fire(db, now, p);
      FiredInto(db, now, p, q) + if Fires(mid, now, f) && mid.definitions[f.schedule].queue == q then [f.job] else []
  }

  function CreatedBy(db: Db, s: Step, q: string): seq<Id> {
    match s.op
    case EnqueueOp(id, queue, _, _, idem) => if queue == q && !Seen(db.markers, idem, s.at) then [id] else []
    case FireOp(now, fs) => FiredInto(db, now, fs, q)
    case _ => []
  }

  ghost function PushedBy(c: Config, db: Db, s: Step, q: string): seq<Id> {
    match s.op
    case ReapOp(queue, now) =>
      if queue == q then Survivors(db.jobs, c.maxRetries, Due(db.queues[q].leased, now, c.drainLimit)) else []
    case RequeueOp(queue, now) => if queue == q then Due(db.queues[q].retry, now, c.drainLimit) else []
    case _ => CreatedBy(db, s, q)
  }

  function PoppedBy(db: Db, s: Step, q: string): seq<Id> {
    if s.op.ClaimOp? && s.op.queue == q then Claimed(db.queues[q], s.op.n) else []
  }

  function AckedBy(db: Db, s: Step, q: string): set<Id> {
    if s.op.AckOp? && s.op.queue == q then Acked(db.queues[q], s.op.ids) else {}
  }

  // ----- FIFO history --------------------------------------------------------------------

  ghost function Pushes(c: Config, t: Trace, q: string): seq<Id> {
    if t == [] then [] else Pushes(c, t[..|t|-1], q) + PushedBy(c, Run(c, t[..|t|-1]), t[|t|-1], q)
  }

  ghost function Pops(c: Config, t: Trace, q: string): seq<Id> {
    if t == [] then [] else Pops(c, t[..|t|-1], q) + PoppedBy(Run(c, t[..|t|-1]), t[|t|-1], q)
  }

  lemma {:induction false} FirePending(db: Db, now: int, fs: seq<Firing>, q: string)
    ensures Fire(db, now, fs).queues[q].pending == db.queues[q].pending + FiredInto(db, now, fs, q)
  {
    if fs != [] {
      var mid, f := Fire(db, now, fs[..|fs|-1]), fs[|fs|-1];
      FirePending(db, now, fs[..|fs|-1], q);
      assert FireOne(mid, now, f).queues[q].pending
             == mid.queues[q].pending
                + if Fires(mid, now, f) && mid.definitions[f.schedule].queue == q then [f.job] else [];
    }
  }

  predicate TouchesPending(op: Op) { op.EnqueueOp? || op.FireOp? || op.ClaimOp? || op.ReapOp? || op.RequeueOp? }

  lemma QuietFifo(c: Config, db: Db, s: Step, q: string)
    requires !TouchesPending(s.op)
    ensures Apply(c, db, s).queues[q].pending == db.queues[q].pending
  {
    match s.op
    case RenewOp(_, _, _) =>
    case AckOp(_, _) =>
    case FailOp(_, _, _) =>
    case _ =>
  }

  lemma DrainFifo(c: Config, db: Db, s: Step, q: string)
    requires s.op.ReapOp? || s.op.RequeueOp?
    ensures Apply(c, db, s).queues[q].pending == db.queues[q].pending + PushedBy(c, db, s, q)
  {
  }

  lemma ClaimFifo(c: Config, db: Db, s: Step, q: string)
    requires s.op.ClaimOp?
    ensures db.queues[q].pending == PoppedBy(db, s, q) + Apply(c, db, s).queues[q].pending
  {
    var z := db.queues[s.op.queue];
    assert z.pending == Claimed(z, s.op.n) + ClaimQueue(z, s.op.n, s.op.deadline).pending;
  }

  lemma StepFifo(c: Config, db: Db, s: Step, q: string)
    ensures db.queues[q].pending + PushedBy(c, db, s, q) == PoppedBy(db, s, q) + Apply(c, db, s).queues[q].pending
  {
    if !TouchesPending(s.op) { QuietFifo(c, db, s, q); }
    else if s.op.ClaimOp? { ClaimFifo(c, db, s, q); }
    else if s.op.FireOp? { FirePending(db, s.op.now, s.op.firings, q); }
    else if s.op.EnqueueOp? { }
    else { DrainFifo(c, db, s, q); }
  }

  /** In every state of every run a queue's pushes are its pops followed by what is pending:
      jobs leave in exactly the order they were enqueued, fired, reaped or requeued. */
  lemma {:induction false} FifoHistory(c: Config, t: Trace, q: string)
    ensures Pushes(c, t, q) == Pops(c, t, q) + Run(c, t).queues[q].pending
  {
    if t != [] {
      var p, s := t[..|t|-1], t[|t|-1];
      FifoHistory(c, p, q);
      StepFifo(c, Run(c, p), s, q);
      Rotate(Pops(c, p, q), Run(c, p).queues[q].pending, PushedBy(c, Run(c, p), s, q),
             PoppedBy(Run(c, p), s, q), Run(c, t).queues[q].pending);
    }
  }

  // ----- the dead list -----------------------------------------------------------------------

  /** The jobs of queue q that a step makes dead: one more attempt exceeds their retries. */
  ghost function DeathsBy(c: Config, db: Db, s: Step, q: string): seq<Id> {
    match s.op
    case FailOp(queue, id, _) =>
      if queue == q && id in db.queues[q].leased && id in db.jobs && db.jobs[id].attempts + 1 > c.maxRetries then [id]
      else []
    case ReapOp(queue, now) =>
      if queue == q then Casualties(db.jobs, c.maxRetries, Due(db.queues[q].leased, now, c.drainLimit)) else []
    case _ => []
  }

  ghost function Deaths(c: Config, t: Trace, q: string): seq<Id> {
    if t == [] then [] else Deaths(c, t[..|t|-1], q) + DeathsBy(c, Run(c, t[..|t|-1]), t[|t|-1], q)
  }

  lemma StepDeaths(c: Config, db: Db, s: Step, q: string)
    requires Sound(db)
    ensures Apply(c, db, s).queues[q].dead == db.queues[q].dead + DeathsBy(c, db, s, q)
  {
    match s.op
    case FailOp(queue, id, _) => SoundAt(db, queue, id);
    case FireOp(now, fs) => FireDead(db, now, fs, q);
    case ReapOp(_, _) =>
    case _ => QuietDeaths(c, db, s, q);
  }

  lemma QuietDeaths(c: Config, db: Db, s: Step, q: string)
    requires !s.op.FailOp? && !s.op.FireOp? && !s.op.ReapOp?
    ensures Apply(c, db, s).queues[q].dead == db.queues[q].dead
  {
    match s.op
    case EnqueueOp(_, _, _, _, _) =>
    case ClaimOp(_, _, _) =>
    case RenewOp(_, _, _) =>
    case AckOp(_, _) =>
    case RequeueOp(_, _) =>
    case _ =>
  }

  lemma {:induction false} FireDead(db: Db, now: int, fs: seq<Firing>, q: string)
    ensures Fire(db, now, fs).queues[q].dead == db.queues[q].dead
  {
    if fs != [] { FireDead(db, now, fs[..|fs|-1], q); }
  }

  /** In every state of every run the dead list is the history of deaths in that queue, in
      order: nothing ever leaves it. */
  lemma {:induction false} DeadHistory(c: Config, t: Trace, q: string)
    requires Legal(c, t)
    ensures Run(c, t).queues[q].dead == Deaths(c, t, q)
  {
    if t != [] {
      var p := t[..|t|-1];
      DeadHistory(c, p, q);
      NoJobLostOrDuplicated(c, p);
      StepDeaths(c, Run(c, p), t[|t|-1], q);
    }
  }

  // ----- a claim of n is n claims of one -----------------------------------------------------

  lemma Rotate(a: seq<Id>, pending: seq<Id>, pushed: seq<Id>, popped: seq<Id>, pending': seq<Id>)
    requires pending + pushed == popped + pending'
    ensures (a + pending) + pushed == (a + popped) + pending'
  {
    assert (a + pending) + pushed == a + (pending + pushed);
  }

  /** Pops the oldest pending job, if any, and leases it. */
  function PopLease(z: Queue, deadline: int): Queue {
    if z.pending == [] then z
    else z.(pending := z.pending[1..], leased := z.leased[z.pending[0] := deadline])
  }

  lemma LeaseOneMore(leased: map<Id, int>, ids: seq<Id>, x: Id, deadline: int)
    ensures LeaseAll(leased, ids + [x], deadline) == LeaseAll(leased, ids, deadline)[x := deadline]
  {
    assert Members(ids + [x]) == Members(ids) + {x};
  }

  lemma TakeOneMore(z: Queue, k: nat, deadline: int)
    requires k < |z.pending|
    ensures TakeFirst(z, k + 1, deadline) == PopLease(TakeFirst(z, k, deadline), deadline)
  {
    LeaseOneMore(z.leased, z.pending[..k], z.pending[k], deadline);
    assert z.pending[..k + 1] == z.pending[..k] + [z.pending[k]];
    assert z.pending[k..][1..] == z.pending[k + 1..];
  }

  /** Claiming one more job is one more pop and lease. */
  lemma ClaimOneMore(z: Queue, n: nat, deadline: int)
    ensures ClaimQueue(z, n + 1, deadline) == PopLease(ClaimQueue(z, n, deadline), deadline)
    ensures Claimed(z, n + 1) == Claimed(z, n) + (if n < |z.pending| then [z.pending[n]] else [])
    ensures ClaimQueue(z, n, deadline).pending == z.pending[TakeCount(n, |z.pending|)..]
  {
    if n < |z.pending| { TakeOneMore(z, n, deadline); }
  }

  lemma ClaimNone(z: Queue, deadline: int)
    ensures ClaimQueue(z, 0, deadline) == z
  {
    assert LeaseAll(z.leased, z.pending[..0], deadline) == z.leased;
  }

  /** n claims of one job each at the same deadline, and the jobs they return. */
  function ClaimSingly(z: Queue, n: nat, deadline: int): (Queue, seq<Id>) {
    if n == 0 then (z, [])
    else
      var (z1, ids) := ClaimSingly(z, n - 1, deadline);
      (ClaimQueue(z1, 1, deadline), ids + Claimed(z1, 1))
  }

  /** A claim of n is n single claims. */
  lemma {:induction false} ClaimIsSingles(z: Queue, n: nat, deadline: int)
    ensures ClaimSingly(z, n, deadline) == (ClaimQueue(z, n, deadline), Claimed(z, n))
  {
    if n == 0 {
      ClaimNone(z, deadline);
    } else {
      var z1 := ClaimQueue(z, n - 1, deadline);
      ClaimIsSingles(z, n - 1, deadline);
      ClaimOneMore(z, n - 1, deadline);
      ClaimOneMore(z1, 0, deadline);
      ClaimNone(z1, deadline);
      assert Claimed(z1, 1) == if n - 1 < |z.pending| then [z.pending[n - 1]] else [];
    }
  }

  // ----- conservation of jobs ------------------------------------------------------------

  function OwnSet(jobs: map<Id, Job>, q: string): set<Id> { set id | id in jobs && jobs[id].queue == q }

  function Total(z: Queue): nat { |z.pending| + |z.leased| + |z.retry| + |z.dead| }

  /** The listed jobs of a sound queue are its owned hashes, each once. */
  lemma SoundTotal(db: Db, q: string)
    requires Sound(db)
    ensures Total(db.queues[q]) == |OwnSet(db.jobs, q)|
  {
    var z := db.queues[q];
    var bag := multiset(z.pending) + multiset(z.leased.Keys) + multiset(z.retry.Keys) + multiset(z.dead);
    forall id ensures bag[id] == multiset(OwnSet(db.jobs, q))[id] {
      assert Places(z, id) == Bit(Owns(db.jobs, q, id));
      assert id in OwnSet(db.jobs, q) <==> Owns(db.jobs, q, id);
    }
    assert bag == multiset(OwnSet(db.jobs, q));
    assert |bag| == Total(z);
  }

  ghost function CreatedIn(c: Config, t: Trace, q: string): nat {
    if t == [] then 0 else CreatedIn(c, t[..|t|-1], q) + |CreatedBy(Run(c, t[..|t|-1]), t[|t|-1], q)|
  }

  /** The sum of the counts that ack calls on queue q have returned. */
  ghost function AckTotal(c: Config, t: Trace, q: string): nat {
    if t == [] then 0 else AckTotal(c, t[..|t|-1], q) + |AckedBy(Run(c, t[..|t|-1]), t[|t|-1], q)|
  }

  lemma {:induction false} FireOwned(db: Db, now: int, fs: seq<Firing>, q: string)
    requires Sound(db) && Distinct(FireIds(fs)) && Members(FireIds(fs)) !! db.jobs.Keys
    ensures |OwnSet(Fire(db, now, fs).jobs, q)| == |OwnSet(db.jobs, q)| + |FiredInto(db, now, fs, q)|
  {
    if fs != [] {
      var p, f := fs[..|fs|-1], fs[|fs|-1];
      FireIdsPrefix(fs);
      FireOwned(db, now, p, q);
      FireEvolves(db, now, p, f.job);
      assert f.job in Members(FireIds(fs));
      FireOneOwned(Fire(db, now, p), now, f, q);
    }
  }

  lemma FireOneOwned(db: Db, now: int, f: Firing, q: string)
    requires f.job !in db.jobs
    ensures |OwnSet(FireOne(db, now, f).jobs, q)|
            == |OwnSet(db.jobs, q)| + Bit(Fires(db, now, f) && db.definitions[f.schedule].queue == q)
  {
    AddOwned(db.jobs, FireOne(db, now, f).jobs, f.job, q);
  }

  lemma AddOwned(jobs: map<Id, Job>, jobs': map<Id, Job>, id: Id, q: string)
    requires id !in jobs && (jobs' == jobs || (id in jobs' && jobs' == jobs[id := jobs'[id]]))
    ensures |OwnSet(jobs', q)| == |OwnSet(jobs, q)| + Bit(Owns(jobs', q, id))
  {
    if Owns(jobs', q, id) {
      assert OwnSet(jobs', q) == OwnSet(jobs, q) + {id};
    } else {
      assert OwnSet(jobs', q) == OwnSet(jobs, q);
    }
  }

  lemma StepOwned(c: Config, db: Db, s: Step, q: string)
    requires Sound(db) && Distinct(NewJobs(s.op)) && Members(NewJobs(s.op)) !! db.jobs.Keys
    ensures |OwnSet(Apply(c, db, s).jobs, q)| + |AckedBy(db, s, q)| == |OwnSet(db.jobs, q)| + |CreatedBy(db, s, q)|
  {
    var jobs, jobs' := db.jobs, Apply(c, db, s).jobs;
    if s.op.EnqueueOp? {
      assert s.op.id in Members(NewJobs(s.op));
      AddOwned(jobs, jobs', s.op.id, q);
    } else if s.op.FireOp? {
      FireOwned(db, s.op.now, s.op.firings, q);
    } else if s.op.AckOp? {
      AckOwned(db, s.op.queue, s.op.ids, q);
    } else {
      SameOwned(c, db, s, q);
    }
  }

  lemma SameOwned(c: Config, db: Db, s: Step, q: string)
    requires Sound(db) && NewJobs(s.op) == [] && !s.op.AckOp?
    ensures OwnSet(Apply(c, db, s).jobs, q) == OwnSet(db.jobs, q)
  {
    forall id ensures Owns(Apply(c, db, s).jobs, q, id) <==> Owns(db.jobs, q, id) {
      JobEvolves(c, db, s, q, id);
      assert Moves(c, db, s, q, id);
    }
    forall id ensures id in OwnSet(Apply(c, db, s).jobs, q) <==> id in OwnSet(db.jobs, q) {
      assert Owns(Apply(c, db, s).jobs, q, id) <==> Owns(db.jobs, q, id);
    }
  }

  lemma AckOwned(db: Db, queue: string, ids: seq<Id>, q: string)
    requires Sound(db)
    ensures var gone := Acked(db.queues[queue], ids);
            |OwnSet(Ack(db, queue, ids).jobs, q)| == |OwnSet(db.jobs, q)| - (if q == queue then |gone| else 0)
  {
    var gone := Acked(db.queues[queue], ids);
    forall id | id in gone ensures Owns(db.jobs, queue, id) { SoundAt(db, queue, id); }
    if q == queue {
      assert OwnSet(db.jobs - gone, q) == OwnSet(db.jobs, q) - gone;
      assert gone <= OwnSet(db.jobs, q);
    } else {
      assert OwnSet(db.jobs - gone, q) == OwnSet(db.jobs, q);
    }
  }

  /** Per queue, in every state of every legal run: jobs created = pending + leased + retry
      + dead + acked. */
  lemma {:induction false} JobsConserved(c: Config, t: Trace, q: string)
    requires Legal(c, t)
    ensures CreatedIn(c, t, q) == Total(Run(c, t).queues[q]) + AckTotal(c, t, q)
  {
    if t != [] {
      var p, s := t[..|t|-1], t[|t|-1];
      JobsConserved(c, p, q);
      NoJobLostOrDuplicated(c, p);
      NoJobLostOrDuplicated(c, t);
      SoundTotal(Run(c, p), q);
      SoundTotal(Run(c, t), q);
      StepOwned(c, Run(c, p), s, q);
    }
  }
}
