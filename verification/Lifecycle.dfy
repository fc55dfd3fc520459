/** The database is a product of independent jobs: in every run each listed ID sits in
    exactly one place, and each job moves along one small automaton. */
module Lifecycle {
  import opened Ranking
  import opened Model

  // ----- soundness: one place per job ----------------------------------------------------

  function Bit(b: bool): nat { if b then 1 else 0 }

  /** How often `id` is listed in a queue's four structures together. */
  function Places(z: Queue, id: Id): nat {
    multiset(z.pending)[id] + Bit(id in z.leased) + Bit(id in z.retry) + multiset(z.dead)[id]
  }

  predicate Owns(jobs: map<Id, Job>, queue: string, id: Id) { id in jobs && jobs[id].queue == queue }

  /** Each job with a hash is listed exactly once, in its own queue; nothing else is listed. */
  ghost predicate Sound(db: Db) {
    forall q, id :: Places(db.queues[q], id) == Bit(Owns(db.jobs, q, id))
  }

  // ----- the automaton of one job --------------------------------------------------------

  datatype Spot = InPending | InLeased(deadline: int) | InRetry(due: int) | InDead
  datatype View = Absent | Present(queue: string, attempts: int, spot: Spot)

  function SpotOf(z: Queue, id: Id): Spot {
    if id in z.leased then InLeased(z.leased[id])
    else if id in z.retry then InRetry(z.retry[id])
    else if id in z.pending then InPending
    else InDead
  }

  function Look(db: Db, id: Id): View {
    if id !in db.jobs then Absent
    else Present(db.jobs[id].queue, db.jobs[id].attempts, SpotOf(db.queues[db.jobs[id].queue], id))
  }

  predicate LeasedIn(v: View, queue: string) { v.Present? && v.queue == queue && v.spot.InLeased? }

  /** A lease ended with a counted attempt: dead once the retries are spent, else `spot`. */
  function Counted(maxRetries: nat, v: View, spot: Spot): View
    requires v.Present?
  {
    Present(v.queue, v.attempts + 1, if v.attempts + 1 > maxRetries then InDead else spot)
  }

  /** How a step may move the job `id`. Claim, reap and retry drain choose which jobs they
      take; renew, ack and fail decide exactly. */
  predicate Evolves(c: Config, s: Step, id: Id, v: View, v': View) {
    match s.op
    case EnqueueOp(i, queue, _, _, _) =>
      v' == v || (i == id && v.Absent? && v' == Present(queue, 0, InPending))
    case FireOp(_, fs) =>
      v' == v || (id in FireIds(fs) && v.Absent? && v'.Present? && v' == Present(v'.queue, 0, InPending))
    case ClaimOp(queue, _, deadline) =>
      v' == v || (v.Present? && v.queue == queue && v.spot.InPending? && v' == v.(spot := InLeased(deadline)))
    case RenewOp(queue, i, deadline) =>
      v' == if i == id && LeasedIn(v, queue) then v.(spot := InLeased(deadline)) else v
    case AckOp(queue, ids) =>
      v' == if id in ids && LeasedIn(v, queue) then Absent else v
    case FailOp(queue, i, nextAt) =>
      v' == if i == id && LeasedIn(v, queue) then Counted(c.maxRetries, v, InRetry(nextAt)) else v
    case ReapOp(queue, now) =>
      v' == v || (LeasedIn(v, queue) && v.spot.deadline <= now && v' == Counted(c.maxRetries, v, InPending))
    case RequeueOp(queue, now) =>
      v' == v || (v.Present? && v.queue == queue && v.spot.InRetry? && v.spot.due <= now && v' == v.(spot := InPending))
    case _ => v' == v
  }

  // ----- one queue, one job --------------------------------------------------------------

  lemma InSeqCount(s: seq<Id>, id: Id)
    ensures id in s <==> multiset(s)[id] > 0
  {
    assert id in s <==> id in multiset(s);
  }

  lemma {:induction false} DistinctOnce(s: seq<Id>, id: Id)
    requires Distinct(s)
    ensures multiset(s)[id] == Bit(id in s)
  {
    if s != [] {
      var n := |s| - 1;
      assert s == s[..n] + [s[n]];
      DistinctOnce(s[..n], id);
    }
  }

  /** An ID listed at most once is in at most one structure. */
  lemma OnePlace(z: Queue, id: Id)
    requires Places(z, id) <= 1
    ensures id in z.pending || id in z.leased || id in z.retry || id in z.dead <==> Places(z, id) == 1
    ensures id in z.pending ==> id !in z.leased && id !in z.retry && id !in z.dead
    ensures id in z.leased ==> id !in z.retry && id !in z.dead
    ensures id in z.retry ==> id !in z.dead
  {
    InSeqCount(z.pending, id);
    InSeqCount(z.dead, id);
  }

  lemma SoundAt(db: Db, q: string, id: Id)
    requires Sound(db)
    ensures var z := db.queues[q];
            && Places(z, id) == Bit(Owns(db.jobs, q, id))
            && (id in z.pending || id in z.leased || id in z.retry || id in z.dead <==> Owns(db.jobs, q, id))
            && (id in z.pending ==> id !in z.leased && id !in z.retry && id !in z.dead)
            && (id in z.leased ==> id !in z.retry && id !in z.dead)
            && (id in z.retry ==> id !in z.dead)
  {
    assert Places(db.queues[q], id) == Bit(Owns(db.jobs, q, id));
    OnePlace(db.queues[q], id);
  }

  lemma PushPlaces(z: Queue, x: Id, id: Id)
    requires Places(z, id) <= 1 && Places(z, x) == 0
    ensures var z' := z.(pending := z.pending + [x]);
            && Places(z', id) == Places(z, id) + Bit(id == x)
            && SpotOf(z', id) == if id == x then InPending else SpotOf(z, id)
  {
    assert multiset(z.pending + [x]) == multiset(z.pending) + multiset{x};
    OnePlace(z, x);
  }

  lemma TakePlaces(z: Queue, n: int, deadline: int, id: Id)
    requires Places(z, id) <= 1
    ensures var ids := Claimed(z, n);
            var z' := ClaimQueue(z, n, deadline);
            && Places(z', id) == Places(z, id)
            && multiset(ids)[id] == Bit(id in ids)
            && (id in ids ==> Places(z, id) == 1 && SpotOf(z, id) == InPending)
            && SpotOf(z', id) == if id in ids then InLeased(deadline) else SpotOf(z, id)
  {
    var ids := Claimed(z, n);
    var rest := z.pending[|ids|..];
    assert z.pending == ids + rest;
    assert multiset(z.pending) == multiset(ids) + multiset(rest);
    OnePlace(z, id);
    InSeqCount(ids, id);
    InSeqCount(rest, id);
  }

  lemma EndPlaces(z: Queue, i: Id, dies: bool, nextAt: int, id: Id)
    requires Places(z, id) <= 1 && i in z.leased
    ensures Places(EndLease(z, i, dies, nextAt), id) == Places(z, id)
    ensures SpotOf(EndLease(z, i, dies, nextAt), id)
            == if id == i then (if dies then InDead else InRetry(nextAt)) else SpotOf(z, id)
  {
    OnePlace(z, id);
    assert multiset(z.dead + [i]) == multiset(z.dead) + multiset{i};
  }

  lemma SnocCount(s: seq<Id>, x: Id, id: Id)
    ensures multiset(s + [x])[id] == multiset(s)[id] + Bit(x == id)
  {
    assert multiset(s + [x]) == multiset(s) + multiset{x};
  }

  lemma {:induction false} SurvivorCount(jobs: map<Id, Job>, maxRetries: nat, ids: seq<Id>, id: Id)
    ensures multiset(Survivors(jobs, maxRetries, ids))[id]
            == if Spent(jobs, maxRetries, id) then 0 else multiset(ids)[id]
  {
    if ids != [] {
      var p, x := ids[..|ids|-1], ids[|ids|-1];
      SurvivorCount(jobs, maxRetries, p, id);
      assert ids == p + [x];
      SnocCount(p, x, id);
      SnocCount(Survivors(jobs, maxRetries, p), x, id);
    }
  }

  lemma {:induction false} CasualtyCount(jobs: map<Id, Job>, maxRetries: nat, ids: seq<Id>, id: Id)
    ensures multiset(Casualties(jobs, maxRetries, ids))[id] == if Spent(jobs, maxRetries,
          id) then multiset(ids)[id] else 0
  {
    if ids != [] {
      var p, x := ids[..|ids|-1], ids[|ids|-1];
      CasualtyCount(jobs, maxRetries, p, id);
      assert ids == p + [x];
      SnocCount(p, x, id);
      SnocCount(Casualties(jobs, maxRetries, p), x, id);
    }
  }

  lemma MovePlaces(z: Queue, alive: seq<Id>, dead: seq<Id>, id: Id)
    requires Places(z, id) <= 1
    ensures multiset(z.pending + alive)[id] == multiset(z.pending)[id] + multiset(alive)[id]
    ensures multiset(z.dead + dead)[id] == multiset(z.dead)[id] + multiset(dead)[id]
    ensures id in alive <==> multiset(alive)[id] > 0
  {
    assert multiset(z.pending + alive) == multiset(z.pending) + multiset(alive);
    assert multiset(z.dead + dead) == multiset(z.dead) + multiset(dead);
    InSeqCount(alive, id);
  }

  lemma ReapPlaces(z: Queue, jobs: map<Id, Job>, maxRetries: nat, ids: seq<Id>, id: Id)
    requires Places(z, id) <= 1 && Distinct(ids) && forall x | x in ids :: x in z.leased
    ensures var z' := ReapQueue(z, jobs, maxRetries, ids);
            && Places(z', id) == Places(z, id)
            && SpotOf(z', id) == if id in ids
                                 then (if Spent(jobs, maxRetries, id) then InDead else InPending)
                                 else SpotOf(z, id)
  {
    var alive, dead := Survivors(jobs, maxRetries, ids), Casualties(jobs, maxRetries, ids);
    SurvivorCount(jobs, maxRetries, ids, id);
    CasualtyCount(jobs, maxRetries, ids, id);
    DistinctOnce(ids, id);
    MovePlaces(z, alive, dead, id);
    OnePlace(z, id);
  }

  lemma RequeuePlaces(z: Queue, ids: seq<Id>, id: Id)
    requires Places(z, id) <= 1 && Distinct(ids) && forall x | x in ids :: x in z.retry
    ensures var z' := z.(retry := z.retry - Members(ids), pending := z.pending + ids);
            && Places(z', id) == Places(z, id)
            && SpotOf(z', id) == if id in ids then InPending else SpotOf(z, id)
  {
    DistinctOnce(ids, id);
    MovePlaces(z, ids, [], id);
    OnePlace(z, id);
  }

  /** A step that rewrites one queue is sound at `id` if it is sound there in that queue and
      leaves the ownership of `id` alone elsewhere. */
  lemma RewriteQueue(db: Db, db': Db, queue: string, q: string, id: Id)
    requires Sound(db)
    requires db'.queues == db.queues[queue := db'.queues[queue]]
    requires Places(db'.queues[queue], id) == Bit(Owns(db'.jobs, queue, id))
    requires !Owns(db.jobs, queue, id) && !Owns(db'.jobs, queue, id)
             ==> (id in db'.jobs <==> id in db.jobs) && (id in db.jobs ==> db'.jobs[id] == db.jobs[id])
    requires Owns(db.jobs, queue, id) && id in db'.jobs ==> Owns(db'.jobs, queue, id)
    requires Owns(db'.jobs, queue, id) && id in db.jobs ==> Owns(db.jobs, queue, id)
    ensures Places(db'.queues[q], id) == Bit(Owns(db'.jobs, q, id))
    ensures Look(db', id) == if Owns(db'.jobs, queue, id)
                             then Present(queue, db'.jobs[id].attempts, SpotOf(db'.queues[queue], id))
                             else if Owns(db.jobs, queue, id) then Absent
                             else Look(db, id)
  {
    assert Places(db.queues[q], id) == Bit(Owns(db.jobs, q, id));
  }

  // ----- enqueue and fire ----------------------------------------------------------------

  lemma AddJobEvolves(db: Db, x: Id, job: Job, q: string, id: Id)
    requires Sound(db) && x !in db.jobs
    ensures var db' := AddJob(db, x, job);
            && Places(db'.queues[q], id) == Bit(Owns(db'.jobs, q, id))
            && Look(db', id) == if id == x then Present(job.queue, job.attempts, InPending) else Look(db, id)
  {
    SoundAt(db, job.queue, x);
    SoundAt(db, job.queue, id);
    PushPlaces(db.queues[job.queue], x, id);
    RewriteQueue(db, AddJob(db, x, job), job.queue, q, id);
  }

  lemma AddJobSound(db: Db, x: Id, job: Job)
    requires Sound(db) && x !in db.jobs
    ensures Sound(AddJob(db, x, job))
  {
    forall q, id ensures Places(AddJob(db, x, job).queues[q], id) == Bit(Owns(AddJob(db, x, job).jobs, q, id)) {
      AddJobEvolves(db, x, job, q, id);
    }
  }

  /** Soundness and views depend only on queues and hashes. */
  lemma SameCore(db: Db, db': Db)
    requires Sound(db) && db'.queues == db.queues && db'.jobs == db.jobs
    ensures Sound(db') && forall id :: Look(db', id) == Look(db, id)
  {
    forall q, id ensures Places(db'.queues[q], id) == Bit(Owns(db'.jobs, q, id)) {
      assert Places(db.queues[q], id) == Bit(Owns(db.jobs, q, id));
    }
  }

  lemma EnqueueEvolves(c: Config, db: Db, s: Step, id: Id)
    requires Sound(db) && s.op.EnqueueOp? && s.op.id !in db.jobs
    ensures Sound(Apply(c, db, s))
    ensures Evolves(c, s, id, Look(db, id), Look(Apply(c, db, s), id))
  {
    var op := s.op;
    if !Seen(db.markers, op.idem, s.at) {
      var job := Job(op.payload, op.queue, 0, op.idem, op.created);
      var marked := if op.idem == "" then db
                    else db.(markers := db.markers[op.idem := Marker(op.id, s.at + 1000 * c.window)]);
      SameCore(db, marked);
      AddJobSound(marked, op.id, job);
      AddJobEvolves(marked, op.id, job, op.queue, id);
    }
  }

  lemma FireOneEvolves(db: Db, now: int, f: Firing, id: Id)
    requires Sound(db) && f.job !in db.jobs
    ensures var db' := FireOne(db, now, f);
            && Sound(db')
            && db'.jobs.Keys == db.jobs.Keys + (if Fires(db, now, f) then {f.job} else {})
            && Look(db', id) == if Fires(db, now, f) && id == f.job
                                then Present(db.definitions[f.schedule].queue, 0, InPending) else Look(db, id)
  {
    if Fires(db, now, f) {
      var job := Job(f.payload, db.definitions[f.schedule].queue, 0, "", now);
      AddJobSound(db, f.job, job);
      AddJobEvolves(db, f.job, job, job.queue, id);
      SameCore(AddJob(db, f.job, job), FireOne(db, now, f));
    }
  }

  lemma FireIdsPrefix(fs: seq<Firing>)
    requires fs != []
    ensures FireIds(fs) == FireIds(fs[..|fs|-1]) + [fs[|fs|-1].job]
    ensures Distinct(FireIds(fs)) ==> Distinct(FireIds(fs[..|fs|-1])) && fs[|fs|-1].job !in FireIds(fs[..|fs|-1])
  {
    var ids, p := FireIds(fs), FireIds(fs[..|fs|-1]);
    assert ids == p + [fs[|fs|-1].job];
    if Distinct(ids) {
      forall i | 0 <= i < |p| ensures p[i] != fs[|fs|-1].job { assert ids[i] != ids[|fs|-1]; }
      forall i, j | 0 <= i < j < |p| ensures p[i] != p[j] { assert ids[i] != ids[j]; }
    }
  }

  lemma {:induction false} FireEvolves(db: Db, now: int, fs: seq<Firing>, id: Id)
    requires Sound(db) && Distinct(FireIds(fs)) && Members(FireIds(fs)) !! db.jobs.Keys
    ensures var db' := Fire(db, now, fs);
            && Sound(db')
            && db'.jobs.Keys <= db.jobs.Keys + Members(FireIds(fs))
            && (Look(db', id) == Look(db, id)
                || (id in FireIds(fs) && id !in db.jobs && Look(db', id).Present?
                    && Look(db', id) == Present(Look(db', id).queue, 0, InPending)))
  {
    if fs != [] {
      var n := |fs| - 1;
      FireIdsPrefix(fs);
      FireEvolves(db, now, fs[..n], id);
      var mid := Fire(db, now, fs[..n]);
      assert fs[n].job in Members(FireIds(fs));
      FireOneEvolves(mid, now, fs[n], id);
    }
  }

  // ----- claim, renew, ack, fail, drains -------------------------------------------------

  lemma ClaimEvolves(db: Db, queue: string, n: int, deadline: int, q: string, id: Id)
    requires Sound(db)
    ensures var db' := Claim(db, queue, n, deadline);
            var taken := id in Claimed(db.queues[queue], n);
            && Places(db'.queues[q], id) == Bit(Owns(db'.jobs, q, id))
            && (taken ==> Look(db, id).Present? && Look(db, id).queue == queue && Look(db, id).spot.InPending?)
            && Look(db', id) == (if taken then Look(db, id).(spot := InLeased(deadline)) else Look(db, id))
            && multiset(Claimed(db.queues[queue], n))[id] == Bit(taken)
  {
    SoundAt(db, queue, id);
    TakePlaces(db.queues[queue], n, deadline, id);
    RewriteQueue(db, Claim(db, queue, n, deadline), queue, q, id);
  }

  lemma RenewEvolves(db: Db, queue: string, i: Id, deadline: int, q: string, id: Id)
    requires Sound(db)
    ensures var db' := Renew(db, queue, i, deadline);
            && Places(db'.queues[q], id) == Bit(Owns(db'.jobs, q, id))
            && Look(db', id) == if i == id && LeasedIn(Look(db, id), queue)
                                then Look(db, id).(spot := InLeased(deadline)) else Look(db, id)
  {
    SoundAt(db, queue, id);
    if i in db.queues[queue].leased {
      RewriteQueue(db, Renew(db, queue, i, deadline), queue, q, id);
    } else {
      SoundAt(db, q, id);
    }
  }

  lemma AckEvolves(db: Db, queue: string, ids: seq<Id>, q: string, id: Id)
    requires Sound(db)
    ensures var db' := Ack(db, queue, ids);
            && Places(db'.queues[q], id) == Bit(Owns(db'.jobs, q, id))
            && Look(db', id) == if id in ids && LeasedIn(Look(db, id), queue) then Absent else Look(db, id)
  {
    SoundAt(db, queue, id);
    RewriteQueue(db, Ack(db, queue, ids), queue, q, id);
  }

  lemma EndLeaseEvolves(db: Db, queue: string, i: Id, dies: bool, nextAt: int, q: string, id: Id)
    requires Sound(db) && i in db.queues[queue].leased && Owns(db.jobs, queue, i)
    ensures var job := db.jobs[i].(attempts := db.jobs[i].attempts + 1);
            var db' := db.(queues := db.queues[queue := EndLease(db.queues[queue], i, dies, nextAt)],
                           jobs := db.jobs[i := job]);
            && Places(db'.queues[q], id) == Bit(Owns(db'.jobs, q, id))
            && Look(db', id) == if i == id then Present(queue, job.attempts, if dies then InDead else InRetry(nextAt))
                                else Look(db, id)
  {
    var job := db.jobs[i].(attempts := db.jobs[i].attempts + 1);
    SoundAt(db, queue, id);
    EndPlaces(db.queues[queue], i, dies, nextAt, id);
    RewriteQueue(db, db.(queues := db.queues[queue := EndLease(db.queues[queue], i, dies, nextAt)],
                         jobs := db.jobs[i := job]), queue, q, id);
  }

  lemma FailEvolves(db: Db, maxRetries: nat, queue: string, i: Id, nextAt: int, q: string, id: Id)
    requires Sound(db)
    ensures var db' := Fail(db, maxRetries, queue, i, nextAt);
            && Places(db'.queues[q], id) == Bit(Owns(db'.jobs, q, id))
            && Look(db', id) == if i == id && LeasedIn(Look(db, id), queue)
                                then Counted(maxRetries, Look(db, id), InRetry(nextAt)) else Look(db, id)
  {
    SoundAt(db, queue, i);
    SoundAt(db, queue, id);
    assert Places(db.queues[q], id) == Bit(Owns(db.jobs, q, id));
    if i in db.queues[queue].leased {
      EndLeaseEvolves(db, queue, i, Spent(db.jobs, maxRetries, i), nextAt, q, id);
    }
  }

  lemma BumpedAt(jobs: map<Id, Job>, ids: seq<Id>, id: Id)
    ensures id in ids && id in jobs ==>
              id in BumpAll(jobs, ids) && BumpAll(jobs, ids)[id] == jobs[id].(attempts := jobs[id].attempts + 1)
    ensures id !in ids ==>
              (id in BumpAll(jobs, ids) <==> id in jobs) && (id in jobs ==> BumpAll(jobs, ids)[id] == jobs[id])
  {
  }

  lemma BumpQueue(db: Db, queue: string, ids: seq<Id>, z': Queue, q: string, id: Id)
    requires Sound(db) && (id in ids ==> Owns(db.jobs, queue, id))
    requires Places(z', id) == Bit(Owns(db.jobs, queue, id))
    ensures var db' := db.(queues := db.queues[queue := z'], jobs := BumpAll(db.jobs, ids));
            && Places(db'.queues[q], id) == Bit(Owns(db'.jobs, q, id))
            && (id in ids ==> Look(db', id) == Present(queue, db.jobs[id].attempts + 1, SpotOf(z', id)))
            && (id !in ids && Owns(db.jobs, queue, id) ==>
                  Look(db', id) == Present(queue, db.jobs[id].attempts, SpotOf(z', id)))
            && (id !in ids && !Owns(db.jobs, queue, id) ==> Look(db', id) == Look(db, id))
  {
    BumpedAt(db.jobs, ids, id);
    RewriteQueue(db, db.(queues := db.queues[queue := z'], jobs := BumpAll(db.jobs, ids)), queue, q, id);
  }

  lemma ReapEvolves(db: Db, maxRetries: nat, queue: string, ids: seq<Id>, q: string, id: Id)
    requires Sound(db) && Distinct(ids) && forall x | x in ids :: x in db.queues[queue].leased
    ensures var db' := ReapIds(db, maxRetries, queue, ids);
            && Places(db'.queues[q], id) == Bit(Owns(db'.jobs, q, id))
            && (id in ids ==> LeasedIn(Look(db, id), queue))
            && Look(db', id) == if id in ids then Counted(maxRetries, Look(db, id), InPending) else Look(db, id)
  {
    var z' := ReapQueue(db.queues[queue], db.jobs, maxRetries, ids);
    SoundAt(db, queue, id);
    assert id in ids ==> LeasedIn(Look(db, id), queue);
    ReapPlaces(db.queues[queue], db.jobs, maxRetries, ids, id);
    BumpQueue(db, queue, ids, z', q, id);
  }

  lemma RequeueEvolves(db: Db, queue: string, ids: seq<Id>, q: string, id: Id)
    requires Sound(db) && Distinct(ids) && forall x | x in ids :: x in db.queues[queue].retry
    ensures var db' := RequeueIds(db, queue, ids);
            && Places(db'.queues[q], id) == Bit(Owns(db'.jobs, q, id))
            && (id in ids ==> Look(db, id).Present? && Look(db, id).queue == queue && Look(db, id).spot.InRetry?)
            && Look(db', id) == if id in ids then Look(db, id).(spot := InPending) else Look(db, id)
  {
    SoundAt(db, queue, id);
    RequeuePlaces(db.queues[queue], ids, id);
    RewriteQueue(db, RequeueIds(db, queue, ids), queue, q, id);
  }

  // ----- every step ----------------------------------------------------------------------

  ghost predicate Moves(c: Config, db: Db, s: Step, q: string, id: Id) {
    && Places(Apply(c, db, s).queues[q], id) == Bit(Owns(Apply(c, db, s).jobs, q, id))
    && Evolves(c, s, id, Look(db, id), Look(Apply(c, db, s), id))
  }

  lemma NewJobEvolves(c: Config, db: Db, s: Step, q: string, id: Id)
    requires Sound(db) && Distinct(NewJobs(s.op)) && Members(NewJobs(s.op)) !! db.jobs.Keys
    requires s.op.EnqueueOp? || s.op.FireOp?
    ensures Moves(c, db, s, q, id)
  {
    if s.op.EnqueueOp? {
      assert s.op.id in Members(NewJobs(s.op));
      EnqueueEvolves(c, db, s, id);
    } else {
      FireEvolves(db, s.op.now, s.op.firings, id);
    }
  }

  lemma LeaseEvolves(c: Config, db: Db, s: Step, q: string, id: Id)
    requires Sound(db)
    requires s.op.ClaimOp? || s.op.RenewOp? || s.op.AckOp? || s.op.FailOp?
    ensures Moves(c, db, s, q, id)
  {
    match s.op
    case ClaimOp(queue, n, deadline) => ClaimEvolves(db, queue, n, deadline, q, id);
    case RenewOp(queue, i, deadline) => RenewEvolves(db, queue, i, deadline, q, id);
    case AckOp(queue, ids) => AckEvolves(db, queue, ids, q, id);
    case FailOp(queue, i, nextAt) => FailEvolves(db, c.maxRetries, queue, i, nextAt, q, id);
  }

  lemma DrainEvolves(c: Config, db: Db, s: Step, q: string, id: Id)
    requires Sound(db) && (s.op.ReapOp? || s.op.RequeueOp?)
    ensures Moves(c, db, s, q, id)
  {
    SoundAt(db, s.op.queue, id);
    if s.op.ReapOp? {
      var due := Due(db.queues[s.op.queue].leased, s.op.now, c.drainLimit);
      DueExact(db.queues[s.op.queue].leased, s.op.now, c.drainLimit);
      ReapEvolves(db, c.maxRetries, s.op.queue, due, q, id);
    } else {
      var due := Due(db.queues[s.op.queue].retry, s.op.now, c.drainLimit);
      DueExact(db.queues[s.op.queue].retry, s.op.now, c.drainLimit);
      RequeueEvolves(db, s.op.queue, due, q, id);
    }
  }

  lemma JobEvolves(c: Config, db: Db, s: Step, q: string, id: Id)
    requires Sound(db) && Distinct(NewJobs(s.op)) && Members(NewJobs(s.op)) !! db.jobs.Keys
    ensures Moves(c, db, s, q, id)
  {
    match s.op
    case EnqueueOp(_, _, _, _, _) => NewJobEvolves(c, db, s, q, id);
    case FireOp(_, _) => NewJobEvolves(c, db, s, q, id);
    case ClaimOp(_, _, _) => LeaseEvolves(c, db, s, q, id);
    case RenewOp(_, _, _) => LeaseEvolves(c, db, s, q, id);
    case AckOp(_, _) => LeaseEvolves(c, db, s, q, id);
    case FailOp(_, _, _) => LeaseEvolves(c, db, s, q, id);
    case ReapOp(_, _) => DrainEvolves(c, db, s, q, id);
    case RequeueOp(_, _) => DrainEvolves(c, db, s, q, id);
    case _ => SameCore(db, Apply(c, db, s));
  }

  /** Each step keeps the database sound and moves each job along the automaton. */
  lemma StepSound(c: Config, db: Db, s: Step)
    requires Sound(db) && Distinct(NewJobs(s.op)) && Members(NewJobs(s.op)) !! db.jobs.Keys
    ensures Sound(Apply(c, db, s))
    ensures forall id :: Evolves(c, s, id, Look(db, id), Look(Apply(c, db, s), id))
  {
    var db' := Apply(c, db, s);
    forall q, id ensures Places(db'.queues[q], id) == Bit(Owns(db'.jobs, q, id)) {
      JobEvolves(c, db, s, q, id);
      assert Moves(c, db, s, q, id);
    }
    forall id ensures Evolves(c, s, id, Look(db, id), Look(db', id)) {
      JobEvolves(c, db, s, "", id);
      assert Moves(c, db, s, "", id);
    }
  }

  lemma JobsWithinUsed(c: Config, db: Db, s: Step)
    requires Sound(db) && Distinct(NewJobs(s.op)) && Members(NewJobs(s.op)) !! db.jobs.Keys
    ensures Apply(c, db, s).jobs.Keys <= db.jobs.Keys + Members(NewJobs(s.op))
  {
    StepSound(c, db, s);
    forall id | id in Apply(c, db, s).jobs && id !in db.jobs ensures id in NewJobs(s.op) {
      assert Evolves(c, s, id, Look(db, id), Look(Apply(c, db, s), id));
    }
  }

  // ----- every run -----------------------------------------------------------------------

  /** No job lost or duplicated: in every state of every legal run, whatever scripts
      interleave and whichever replies are lost, each ID with a hash is listed exactly once,
      in its own queue, and each listed ID has a hash. */
  lemma {:induction false} NoJobLostOrDuplicated(c: Config, t: Trace)
    requires Legal(c, t)
    ensures Sound(Run(c, t))
    ensures Run(c, t).jobs.Keys <= UsedJobs(t)
  {
    if t != [] {
      var p, s := t[..|t|-1], t[|t|-1];
      NoJobLostOrDuplicated(c, p);
      StepSound(c, Run(c, p), s);
      JobsWithinUsed(c, Run(c, p), s);
    }
  }

  /** The last step of a legal run moves each job along the automaton. */
  lemma RunEvolves(c: Config, t: Trace, id: Id)
    requires Legal(c, t) && t != []
    ensures var p := t[..|t|-1];
            && Sound(Run(c, p)) && Sound(Run(c, t))
            && Evolves(c, t[|t|-1], id, Look(Run(c, p), id), Look(Run(c, t), id))
  {
    NoJobLostOrDuplicated(c, t[..|t|-1]);
    StepSound(c, Run(c, t[..|t|-1]), t[|t|-1]);
  }
}
