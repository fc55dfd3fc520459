/** What every Redis script and MULTI block of the service does, as one atomic step on an
    abstract database: per-queue structures, job hashes, idempotency markers, schedules and
    the leader lock. Pending and dead lists are kept oldest first. */
module Model {
  import opened Wrappers
  import opened Ranking

  type Id = string

  datatype Job = Job(payload: string, queue: string, attempts: int, idem: string, createdAt: int)

  datatype Queue = Queue(pending: seq<Id>, leased: map<Id, int>, retry: map<Id, int>, dead: seq<Id>)

  const EMPTY_QUEUE := Queue([], map[], map[], [])

  /** Every queue name has a queue; one that was never used is empty. */
  type Queues = m: imap<string, Queue> | forall q :: q in m ghost witness imap q: string :: EMPTY_QUEUE

  /** A string value with an expiry time. */
  datatype Marker = Marker(text: string, expireAt: int)

  datatype Schedule = Schedule(queue: string, cron: string, payload: string, createdAt: int, lastRun: Option<int>)

  datatype Db = Db(
    queues: Queues,
    jobs: map<Id, Job>,
    markers: map<string, Marker>,
    schedules: map<Id, int>,
    definitions: map<Id, Schedule>,
    lock: Option<Marker>)

  ghost const EMPTY_DB := Db(imap q: string :: EMPTY_QUEUE, map[], map[], map[], map[], None)

  /** Times in milliseconds except `window`, which is in whole seconds. */
  datatype Config = Config(
    leaseTtl: int, lockTtl: int, window: int, maxRetries: nat, drainLimit: int,
    maxClaimBatch: int, maxClaimWait: int, heartbeatDivisor: int, backoffBase: int)

  // ----- enqueue -------------------------------------------------------------------------

  predicate Live(m: Marker, at: int) { at < m.expireAt }

  predicate Seen(markers: map<string, Marker>, idem: string, at: int) {
    idem != "" && idem in markers && Live(markers[idem], at)
  }

  function AddJob(db: Db, id: Id, job: Job): Db {
    var z := db.queues[job.queue];
    db.(queues := db.queues[job.queue := z.(pending := z.pending + [id])], jobs := db.jobs[id := job])
  }

  function Enqueue(db: Db, window: int, at: int, id: Id, queue: string, payload: string, created: int,
                   idem: string): Db {
    if Seen(db.markers, idem, at) then db
    else
      var marked := if idem == "" then db
                    else db.(markers := db.markers[idem := Marker(id, at + 1000 * window)]);
      AddJob(marked, id, Job(payload, queue, 0, idem, created))
  }

  // ----- claim, renew, ack, fail ---------------------------------------------------------

  function TakeCount(n: int, available: nat): nat {
    if n < 0 then 0 else if n < available then n else available
  }

  /** The IDs that claiming up to n jobs returns: the oldest ones. */
  function Claimed(z: Queue, n: int): seq<Id> { z.pending[..TakeCount(n, |z.pending|)] }

  function LeaseAll(leased: map<Id, int>, ids: seq<Id>, deadline: int): map<Id, int> {
    leased + map id | id in Members(ids) :: deadline
  }

  function TakeFirst(z: Queue, k: nat, deadline: int): Queue
    requires k <= |z.pending|
  {
    z.(pending := z.pending[k..], leased := LeaseAll(z.leased, z.pending[..k], deadline))
  }

  function ClaimQueue(z: Queue, n: int, deadline: int): Queue {
    TakeFirst(z, TakeCount(n, |z.pending|), deadline)
  }

  function Claim(db: Db, queue: string, n: int, deadline: int): Db {
    db.(queues := db.queues[queue := ClaimQueue(db.queues[queue], n, deadline)])
  }

  function Renew(db: Db, queue: string, id: Id, deadline: int): Db {
    var z := db.queues[queue];
    if id !in z.leased then db
    else db.(queues := db.queues[queue := z.(leased := z.leased[id := deadline])])
  }

  /** The listed IDs that hold a lease in the queue. */
  function Acked(z: Queue, ids: seq<Id>): set<Id> { set id | id in ids && id in z.leased }

  function Ack(db: Db, queue: string, ids: seq<Id>): Db {
    var z := db.queues[queue];
    var gone := Acked(z, ids);
    db.(queues := db.queues[queue := z.(leased := z.leased - gone)], jobs := db.jobs - gone)
  }

  /** HINCRBY attempts 1: a hash that was missing starts with empty fields. */
  function Bumped(jobs: map<Id, Job>, id: Id): Job {
    if id in jobs then jobs[id].(attempts := jobs[id].attempts + 1) else Job("", "", 1, "", 0)
  }

  function EndLease(z: Queue, id: Id, dies: bool, nextAt: int): Queue {
    if dies then z.(leased := z.leased - {id}, dead := z.dead + [id])
    else z.(leased := z.leased - {id}, retry := z.retry[id := nextAt])
  }

  function Fail(db: Db, maxRetries: nat, queue: string, id: Id, nextAt: int): Db {
    var z := db.queues[queue];
    if id !in z.leased then db
    else
      var job := Bumped(db.jobs, id);
      db.(queues := db.queues[queue := EndLease(z, id, Spent(db.jobs, maxRetries, id), nextAt)],
          jobs := db.jobs[id := job])
  }

  // ----- the shared drain ----------------------------------------------------------------

  /** The sorted set a drain reads: the leases, ending which counts an attempt, or the retries. */
  function DueIn(z: Queue, bump: bool): map<Id, int> { if bump then z.leased else z.retry }

  /** One more attempt would exceed the retries. */
  predicate Spent(jobs: map<Id, Job>, maxRetries: nat, id: Id) { Bumped(jobs, id).attempts > maxRetries }

  /** Those of `ids` that still have attempts left after one more, in order. */
  function Survivors(jobs: map<Id, Job>, maxRetries: nat, ids: seq<Id>): seq<Id> {
    if ids == [] then []
    else
      var last := ids[|ids|-1];
      Survivors(jobs, maxRetries, ids[..|ids|-1]) + if Spent(jobs, maxRetries, last) then [] else [last]
  }

  /** Those of `ids` that have none left, in order. */
  function Casualties(jobs: map<Id, Job>, maxRetries: nat, ids: seq<Id>): seq<Id> {
    if ids == [] then []
    else
      var last := ids[|ids|-1];
      Casualties(jobs, maxRetries, ids[..|ids|-1]) + if Spent(jobs, maxRetries, last) then [last] else []
  }

  function BumpAll(jobs: map<Id, Job>, ids: seq<Id>): map<Id, Job> {
    jobs + map id | id in ids :: Bumped(jobs, id)
  }

  function ReapQueue(z: Queue, jobs: map<Id, Job>, maxRetries: nat, ids: seq<Id>): Queue {
    z.(leased := z.leased - Members(ids),
       pending := z.pending + Survivors(jobs, maxRetries, ids),
       dead := z.dead + Casualties(jobs, maxRetries, ids))
  }

  function ReapIds(db: Db, maxRetries: nat, queue: string, ids: seq<Id>): Db {
    db.(queues := db.queues[queue := ReapQueue(db.queues[queue], db.jobs, maxRetries, ids)],
        jobs := BumpAll(db.jobs, ids))
  }

  /** The drain script over the leased set, counting an attempt for each entry. */
  ghost function Reap(db: Db, maxRetries: nat, queue: string, now: int, limit: int): Db {
    ReapIds(db, maxRetries, queue, Due(db.queues[queue].leased, now, limit))
  }

  function RequeueIds(db: Db, queue: string, ids: seq<Id>): Db {
    var z := db.queues[queue];
    db.(queues := db.queues[queue := z.(retry := z.retry - Members(ids), pending := z.pending + ids)])
  }

  /** The drain script over the retry set, counting nothing. */
  ghost function Requeue(db: Db, queue: string, now: int, limit: int): Db {
    RequeueIds(db, queue, Due(db.queues[queue].retry, now, limit))
  }

  // ----- schedules -----------------------------------------------------------------------

  /** One quad of the schedule script's arguments. */
  datatype Firing = Firing(schedule: Id, job: Id, payload: string, next: int)

  predicate Fires(db: Db, now: int, f: Firing) {
    f.schedule in db.schedules && db.schedules[f.schedule] <= now && f.schedule in db.definitions
  }

  function FireOne(db: Db, now: int, f: Firing): Db {
    if !Fires(db, now, f) then db
    else
      var def := db.definitions[f.schedule];
      AddJob(db, f.job, Job(f.payload, def.queue, 0, "", now)).(
        definitions := db.definitions[f.schedule := def.(lastRun := Some(now))],
        schedules := db.schedules[f.schedule := f.next])
  }

  function Fire(db: Db, now: int, fs: seq<Firing>): Db {
    if fs == [] then db else FireOne(Fire(db, now, fs[..|fs|-1]), now, fs[|fs|-1])
  }

  // ----- the leader lock -----------------------------------------------------------------

  predicate Holds(lock: Option<Marker>, at: int) { lock.Some? && Live(lock.value, at) }

  function LockAcquire(lock: Option<Marker>, at: int, ttl: int, me: string): Option<Marker> {
    if Holds(lock, at) then lock else Some(Marker(me, at + ttl))
  }

  function LockRenew(lock: Option<Marker>, at: int, ttl: int, me: string): Option<Marker> {
    if Holds(lock, at) && lock.value.text == me then Some(Marker(me, at + ttl)) else lock
  }

  function LockRelease(lock: Option<Marker>, at: int, me: string): Option<Marker> {
    if Holds(lock, at) && lock.value.text == me then None else lock
  }

  // ----- steps and runs ------------------------------------------------------------------

  datatype Op =
    | EnqueueOp(id: Id, queue: string, payload: string, created: int, idem: string)
    | ClaimOp(queue: string, n: int, deadline: int)
    | RenewOp(queue: string, id: Id, deadline: int)
    | AckOp(queue: string, ids: seq<Id>)
    | FailOp(queue: string, id: Id, nextAt: int)
    | ReapOp(queue: string, now: int)
    | RequeueOp(queue: string, now: int)
    | FireOp(now: int, firings: seq<Firing>)
    | AddScheduleOp(id: Id, definition: Schedule, next: int)
    | DeleteScheduleOp(id: Id)
    | DropScheduleOp(id: Id)
    | LockAcquireOp(me: string)
    | LockRenewOp(me: string)
    | LockReleaseOp(me: string)

  /** A script executed by Redis at time `at`, with whatever arguments its caller chose. */
  datatype Step = Step(at: int, op: Op)

  ghost function Apply(c: Config, db: Db, s: Step): Db {
    match s.op
    case EnqueueOp(id, queue, payload, created, idem) => Enqueue(db, c.window, s.at, id, queue, payload, created, idem)
    case ClaimOp(queue, n, deadline) => Claim(db, queue, n, deadline)
    case RenewOp(queue, id, deadline) => Renew(db, queue, id, deadline)
    case AckOp(queue, ids) => Ack(db, queue, ids)
    case FailOp(queue, id, nextAt) => Fail(db, c.maxRetries, queue, id, nextAt)
    case ReapOp(queue, now) => Reap(db, c.maxRetries, queue, now, c.drainLimit)
    case RequeueOp(queue, now) => Requeue(db, queue, now, c.drainLimit)
    case FireOp(now, firings) => Fire(db, now, firings)
    case AddScheduleOp(id, definition, next) =>
      db.(definitions := db.definitions[id := definition], schedules := db.schedules[id := next])
    case DeleteScheduleOp(id) => db.(schedules := db.schedules - {id}, definitions := db.definitions - {id})
    case DropScheduleOp(id) => db.(schedules := db.schedules - {id})
    case LockAcquireOp(me) => db.(lock := LockAcquire(db.lock, s.at, c.lockTtl, me))
    case LockRenewOp(me) => db.(lock := LockRenew(db.lock, s.at, c.lockTtl, me))
    case LockReleaseOp(me) => db.(lock := LockRelease(db.lock, s.at, me))
  }

  type Trace = seq<Step>

  ghost function Run(c: Config, t: Trace): Db {
    if t == [] then EMPTY_DB else Apply(c, Run(c, t[..|t|-1]), t[|t|-1])
  }

  // ----- what the service assumes of its runs --------------------------------------------

  /** The IDs a step brings from NewID: job IDs and schedule IDs. */
  function FireIds(fs: seq<Firing>): seq<Id> { seq(|fs|, i requires 0 <= i < |fs| => fs[i].job) }

  function NewJobs(op: Op): seq<Id> {
    match op
    case EnqueueOp(id, _, _, _, _) => [id]
    case FireOp(_, firings) => FireIds(firings)
    case _ => []
  }

  function UsedJobs(t: Trace): set<Id> {
    if t == [] then {} else UsedJobs(t[..|t|-1]) + Members(NewJobs(t[|t|-1].op))
  }

  function UsedSchedules(t: Trace): set<Id> {
    if t == [] then {}
    else
      var op := t[|t|-1].op;
      UsedSchedules(t[..|t|-1]) + if op.AddScheduleOp? then {op.id} else {}
  }

  /** Arguments were sampled no later than the script runs, and a firing pass computed each
      next run after it sampled `now`. */
  predicate Honest(c: Config, s: Step) {
    match s.op
    case ClaimOp(_, _, deadline) => deadline <= s.at + c.leaseTtl
    case RenewOp(_, _, deadline) => deadline <= s.at + c.leaseTtl
    case ReapOp(_, now) => now <= s.at
    case RequeueOp(_, now) => now <= s.at
    case FireOp(now, fs) => now <= s.at && forall f | f in fs :: f.next > now
    case _ => true
  }

  /** The next step fits a run: time does not go back, NewID gives IDs never used before,
      and the arguments are honest. */
  ghost predicate Fits(c: Config, t: Trace, s: Step) {
    && (t != [] ==> t[|t|-1].at <= s.at)
    && Distinct(NewJobs(s.op)) && Members(NewJobs(s.op)) !! UsedJobs(t)
    && (s.op.AddScheduleOp? ==> s.op.id !in UsedSchedules(t))
    && Honest(c, s)
  }

  /** A run of the service: any interleaving of any servers' scripts. */
  ghost predicate Legal(c: Config, t: Trace) {
    t == [] || (Legal(c, t[..|t|-1]) && Fits(c, t[..|t|-1], t[|t|-1]))
  }
}
