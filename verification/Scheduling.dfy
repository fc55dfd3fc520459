/** Recurring schedules over whole runs: racing passes never fire a due time twice, and a
    deleted schedule stays deleted. */
module Scheduling {
  import opened Wrappers
  import opened Ranking
  import opened Model
  import opened Lifecycle
  import opened Attempts

  // ----- firings of one schedule ---------------------------------------------------------

  /** The due times that one script call fires for schedule `sid`, in order. */
  function FiredDues(db: Db, now: int, fs: seq<Firing>, sid: Id): seq<int> {
    if fs == [] then []
    else
      var mid, f := Fire(db, now, fs[..|fs|-1]), fs[|fs|-1];
      FiredDues(db, now, fs[..|fs|-1], sid)
      + if f.schedule == sid && Fires(mid, now, f) then [mid.schedules[sid]] else []
  }

  function DuesBy(db: Db, s: Step, sid: Id): seq<int> {
    if s.op.FireOp? then FiredDues(db, s.op.now, s.op.firings, sid) else []
  }

  /** Every due time for which a run fired schedule `sid`. */
  ghost function Dues(c: Config, t: Trace, sid: Id): seq<int> {
    if t == [] then [] else Dues(c, t[..|t|-1], sid) + DuesBy(Run(c, t[..|t|-1]), t[|t|-1], sid)
  }

  predicate Increasing(s: seq<int>) { forall i, j | 0 <= i < j < |s| :: s[i] < s[j] }

  /** The dues so far increase and the next one lies beyond them. */
  predicate Advancing(dues: seq<int>, schedules: map<Id, int>, sid: Id) {
    Increasing(dues) && (sid in schedules ==> forall i | 0 <= i < |dues| :: dues[i] < schedules[sid])
  }

  lemma FireOneSchedule(db: Db, now: int, f: Firing, sid: Id)
    ensures var db' := FireOne(db, now, f);
            && (sid in db'.schedules <==> sid in db.schedules)
            && (sid in db'.definitions <==> sid in db.definitions)
            && (sid in db.schedules ==>
                  db'.schedules[sid] == if f.schedule == sid && Fires(db, now, f) then f.next else db.schedules[sid])
  {
  }

  lemma {:induction false} FireMembers(db: Db, now: int, fs: seq<Firing>, sid: Id)
    ensures sid in Fire(db, now, fs).schedules <==> sid in db.schedules
    ensures sid in Fire(db, now, fs).definitions <==> sid in db.definitions
    ensures sid !in db.schedules ==> FiredDues(db, now, fs, sid) == []
  {
    if fs != [] {
      FireMembers(db, now, fs[..|fs|-1], sid);
      FireOneSchedule(Fire(db, now, fs[..|fs|-1]), now, fs[|fs|-1], sid);
    }
  }

  /** One script call fires a schedule at most once, however late it is and however often it
      is listed; firing moves its score past `now`. */
  lemma {:induction false} OneJobPerBacklog(db: Db, now: int, fs: seq<Firing>, sid: Id)
    requires forall f | f in fs :: f.next > now
    ensures var dues, db' := FiredDues(db, now, fs, sid), Fire(db, now, fs);
            && |dues| <= 1
            && (dues == [] ==> (sid in db'.schedules <==> sid in db.schedules)
                               && (sid in db.schedules ==> db'.schedules[sid] == db.schedules[sid]))
            && (|dues| == 1 ==> sid in db.schedules && sid in db'.schedules
                                && dues[0] == db.schedules[sid] <= now < db'.schedules[sid])
  {
    if fs != [] {
      var p, f := fs[..|fs|-1], fs[|fs|-1];
      assert f in fs && forall g | g in p :: g in fs;
      OneJobPerBacklog(db, now, p, sid);
      FireOneSchedule(Fire(db, now, p), now, f, sid);
    }
  }

  // ----- one job per firing ----------------------------------------------------------------

  /** The quads that a script call fires, in order. */
  function FiredQuads(db: Db, now: int, fs: seq<Firing>): seq<Firing> {
    if fs == [] then []
    else
      var mid, f := Fire(db, now, fs[..|fs|-1]), fs[|fs|-1];
      FiredQuads(db, now, fs[..|fs|-1]) + if Fires(mid, now, f) then [f] else []
  }

  predicate IsDue(db: Db, now: int, sid: Id) {
    sid in db.schedules && db.schedules[sid] <= now && sid in db.definitions
  }

  predicate Listed(fs: seq<Firing>, sid: Id) { exists f | f in fs :: f.schedule == sid }

  lemma ListedMore(fs: seq<Firing>, f: Firing, sid: Id)
    ensures Listed(fs + [f], sid) <==> Listed(fs, sid) || f.schedule == sid
  {
    var more := fs + [f];
    assert f in more && forall g | g in fs :: g in more;
  }

  function QueueOf(db: Db, sid: Id): string { if sid in db.definitions then db.definitions[sid].queue else "" }

  /** Firing one quad: whether each schedule is due afterwards, and the job it creates. */
  lemma FireOneExact(db: Db, now: int, f: Firing, sid: Id)
    requires f.next > now
    ensures var db' := FireOne(db, now, f);
            && (IsDue(db', now, sid) <==> IsDue(db, now, sid) && f.schedule != sid)
            && QueueOf(db', sid) == QueueOf(db, sid)
            && db'.jobs == if IsDue(db, now, f.schedule)
                           then db.jobs[f.job := NewJob(db, now, f)] else db.jobs
  {
  }

  /** A script call fires exactly the schedules that are due, defined and listed; after it none
      of those listed is due. */
  lemma {:induction false} FiredExactly(db: Db, now: int, fs: seq<Firing>, sid: Id)
    requires forall f | f in fs :: f.next > now
    ensures Listed(FiredQuads(db, now, fs), sid) <==> IsDue(db, now, sid) && Listed(fs, sid)
    ensures IsDue(Fire(db, now, fs), now, sid) <==> IsDue(db, now, sid) && !Listed(fs, sid)
    ensures QueueOf(Fire(db, now, fs), sid) == QueueOf(db, sid)
  {
    if fs != [] {
      var p, f := fs[..|fs|-1], fs[|fs|-1];
      assert fs == p + [f] && f in fs && forall g | g in p :: g in fs;
      FiredExactly(db, now, p, sid);
      FireOneExact(Fire(db, now, p), now, f, sid);
      ListedMore(p, f, sid);
      ListedMore(FiredQuads(db, now, p), f, sid);
    }
  }

  function NewJob(db: Db, now: int, f: Firing): Job { Job(f.payload, QueueOf(db, f.schedule), 0, "", now) }

  predicate Keeps(was: map<Id, Job>, jobs: map<Id, Job>) {
    forall id | id in was :: id in jobs && jobs[id] == was[id]
  }

  /** Each of the quads stands for one new job, under a new ID, with the payload of its quad
      and the queue of its schedule; the old jobs are as they were. */
  predicate CreatesEach(db: Db, jobs: map<Id, Job>, now: int, fired: seq<Firing>) {
    && |jobs| == |db.jobs| + |fired|
    && jobs.Keys == db.jobs.Keys + Members(FireIds(fired))
    && Keeps(db.jobs, jobs)
    && (forall f | f in fired :: Creates(db, jobs, now, f))
  }

  predicate Creates(db: Db, jobs: map<Id, Job>, now: int, f: Firing) {
    f.job !in db.jobs && f.job in jobs && jobs[f.job] == NewJob(db, now, f)
  }

  lemma SizeOneMore(jobs: map<Id, Job>, id: Id, job: Job)
    requires id !in jobs
    ensures |jobs[id := job]| == |jobs| + 1 && jobs[id := job].Keys == jobs.Keys + {id}
  {
    assert jobs[id := job].Keys == jobs.Keys + {id};
    assert |jobs.Keys + {id}| == |jobs.Keys| + 1;
  }

  lemma IdsOneMore(fired: seq<Firing>, f: Firing)
    ensures Members(FireIds(fired + [f])) == Members(FireIds(fired)) + {f.job}
  {
    assert FireIds(fired + [f]) == FireIds(fired) + [f.job];
    assert Members(FireIds(fired) + [f.job]) == Members(FireIds(fired)) + {f.job};
  }

  lemma KeepsMore(was: map<Id, Job>, jobs: map<Id, Job>, id: Id, job: Job)
    requires Keeps(was, jobs) && id !in jobs
    ensures Keeps(was, jobs[id := job])
  {
  }

  lemma CreatesOneMore(db: Db, jobs: map<Id, Job>, now: int, fired: seq<Firing>, f: Firing, jobs': map<Id, Job>)
    requires CreatesEach(db, jobs, now, fired) && f.job !in jobs && jobs' == jobs[f.job := NewJob(db, now, f)]
    ensures CreatesEach(db, jobs', now, fired + [f])
  {
    hide Creates, FireIds, Members, NewJob, QueueOf, Keeps;
    KeepsMore(db.jobs, jobs, f.job, NewJob(db, now, f));
    SizeOneMore(jobs, f.job, NewJob(db, now, f));
    IdsOneMore(fired, f);
    StillCreated(db, jobs, now, fired, f, jobs');
  }

  lemma StillCreated(db: Db, jobs: map<Id, Job>, now: int, fired: seq<Firing>, f: Firing, jobs': map<Id, Job>)
    requires forall g | g in fired :: Creates(db, jobs, now, g)
    requires f.job !in jobs && f.job !in db.jobs && jobs' == jobs[f.job := NewJob(db, now, f)]
    ensures forall g | g in fired + [f] :: Creates(db, jobs', now, g)
  {
    forall g | g in fired + [f] ensures Creates(db, jobs', now, g) {
      if g in fired { assert Creates(db, jobs, now, g); }
    }
  }

  lemma {:induction false} FiringsCreate(db: Db, now: int, fs: seq<Firing>)
    requires forall f | f in fs :: f.next > now
    requires Distinct(FireIds(fs)) && Members(FireIds(fs)) !! db.jobs.Keys
    ensures CreatesEach(db, Fire(db, now, fs).jobs, now, FiredQuads(db, now, fs))
    ensures forall f | f in FiredQuads(db, now, fs) :: f in fs
  {
    hide CreatesEach, QueueOf;
    if fs == [] {
      CreatesNone(db, now);
    } else {
      var p, f := fs[..|fs|-1], fs[|fs|-1];
      assert fs == p + [f] && f in fs && forall g | g in p :: g in fs;
      FireIdsPrefix(fs);
      FiringsCreate(db, now, p);
      FiredExactly(db, now, p, f.schedule);
      NewIdFree(db, now, p, f);
      LastCreates(db, now, Fire(db, now, p), FiredQuads(db, now, p), f, Fire(db, now, fs));
    }
  }

  lemma CreatesNone(db: Db, now: int)
    ensures CreatesEach(db, db.jobs, now, [])
  {
    assert Members(FireIds([])) == {};
  }

  lemma LastCreates(db: Db, now: int, mid: Db, fired: seq<Firing>, f: Firing, db': Db)
    requires CreatesEach(db, mid.jobs, now, fired) && f.job !in mid.jobs && f.next > now
    requires db' == FireOne(mid, now, f) && QueueOf(mid, f.schedule) == QueueOf(db, f.schedule)
    ensures CreatesEach(db, db'.jobs, now, fired + if Fires(mid, now, f) then [f] else [])
  {
    hide CreatesEach, QueueOf;
    FireOneExact(mid, now, f, f.schedule);
    assert NewJob(mid, now, f) == NewJob(db, now, f);
    if Fires(mid, now, f) {
      CreatesOneMore(db, mid.jobs, now, fired, f, db'.jobs);
    } else {
      assert fired + [] == fired;
    }
  }

  lemma NewIdFree(db: Db, now: int, p: seq<Firing>, f: Firing)
    requires Distinct(FireIds(p + [f])) && Members(FireIds(p + [f])) !! db.jobs.Keys
    requires CreatesEach(db, Fire(db, now, p).jobs, now, FiredQuads(db, now, p))
    requires forall g | g in FiredQuads(db, now, p) :: g in p
    ensures f.job !in Fire(db, now, p).jobs
  {
    var ids, fired := FireIds(p + [f]), FireIds(FiredQuads(db, now, p));
    assert ids[|p|] == f.job;
    forall i | 0 <= i < |fired| ensures fired[i] != f.job {
      var g := FiredQuads(db, now, p)[i];
      assert g in FiredQuads(db, now, p);
      var j :| 0 <= j < |p| && p[j] == g;
      assert ids[j] == g.job;
    }
    assert f.job in Members(ids);
  }

  lemma {:induction false} FiredOnce(db: Db, now: int, fs: seq<Firing>)
    requires forall f | f in fs :: f.next > now
    ensures var fired := FiredQuads(db, now, fs);
            forall i, j | 0 <= i < j < |fired| :: fired[i].schedule != fired[j].schedule
  {
    if fs != [] {
      var p, f := fs[..|fs|-1], fs[|fs|-1];
      assert f in fs && forall g | g in p :: g in fs;
      FiredOnce(db, now, p);
      FiredExactly(db, now, p, f.schedule);
      var fired := FiredQuads(db, now, p);
      forall i | 0 <= i < |fired| && Fires(Fire(db, now, p), now, f) ensures fired[i].schedule != f.schedule {
        assert fired[i] in fired;
      }
    }
  }

  /** The next run that a list of quads gives a schedule. */
  predicate Gives(fs: seq<Firing>, sid: Id, next: int) { exists f | f in fs :: f.schedule == sid && f.next == next }

  lemma GivesMore(fs: seq<Firing>, f: Firing, sid: Id, next: int)
    ensures Gives(fs + [f], sid, next) <==> Gives(fs, sid, next) || (f.schedule == sid && f.next == next)
  {
    var more := fs + [f];
    assert f in more && forall g | g in fs :: g in more;
  }

  /** A script call moves each schedule it fires on to the next run of its quad and stamps its
      hash with the time of the pass, keeping the rest of it; the others stay as they are. */
  lemma {:induction false} FiringsMoveOn(db: Db, now: int, fs: seq<Firing>, sid: Id)
    requires forall f | f in fs :: f.next > now
    ensures var fired, db' := FiredQuads(db, now, fs), Fire(db, now, fs);
            if Listed(fired, sid) then
              && sid in db.definitions && sid in db'.definitions && sid in db'.schedules
              && Gives(fired, sid, db'.schedules[sid])
              && db'.definitions[sid]
                 == Schedule(db.definitions[sid].queue, db.definitions[sid].cron, db.definitions[sid].payload,
                             db.definitions[sid].createdAt, Some(now))
            else
              && (sid in db'.schedules <==> sid in db.schedules)
              && (sid in db.schedules ==> db'.schedules[sid] == db.schedules[sid])
              && (sid in db'.definitions <==> sid in db.definitions)
              && (sid in db.definitions ==> db'.definitions[sid] == db.definitions[sid])
  {
    if fs != [] {
      var p, f := fs[..|fs|-1], fs[|fs|-1];
      assert fs == p + [f] && f in fs && forall g | g in p :: g in fs;
      FiringsMoveOn(db, now, p, sid);
      FiredExactly(db, now, p, sid);
      MovesOn(Fire(db, now, p), now, f, sid);
      ListedMore(FiredQuads(db, now, p), f, sid);
      forall next { GivesMore(FiredQuads(db, now, p), f, sid, next); }
    }
  }

  lemma MovesOn(db: Db, now: int, f: Firing, sid: Id)
    ensures var db' := FireOne(db, now, f);
            if Fires(db, now, f) && f.schedule == sid then
              && sid in db'.schedules && db'.schedules[sid] == f.next && sid in db'.definitions
              && db'.definitions[sid] == db.definitions[sid].(lastRun := Some(now))
            else
              && (sid in db'.schedules <==> sid in db.schedules)
              && (sid in db.schedules ==> db'.schedules[sid] == db.schedules[sid])
              && (sid in db'.definitions <==> sid in db.definitions)
              && (sid in db.definitions ==> db'.definitions[sid] == db.definitions[sid])
  {
  }

  /** A script call fires each schedule that is due, defined and listed exactly once, however
      late it is and however often it is listed, and no other; each firing creates exactly one
      pending job, and nothing else does. */
  lemma OneJobPerFiring(db: Db, now: int, fs: seq<Firing>)
    requires forall f | f in fs :: f.next > now
    requires Sound(db) && Distinct(FireIds(fs)) && Members(FireIds(fs)) !! db.jobs.Keys
    ensures var fired := FiredQuads(db, now, fs);
            && (forall sid :: Listed(fired, sid) <==> IsDue(db, now, sid) && Listed(fs, sid))
            && (forall i, j | 0 <= i < j < |fired| :: fired[i].schedule != fired[j].schedule)
            && CreatesEach(db, Fire(db, now, fs).jobs, now, fired)
            && (forall f | f in fired ::
                  Look(Fire(db, now, fs), f.job) == Present(QueueOf(db, f.schedule), 0, InPending))
  {
    forall sid { FiredExactly(db, now, fs, sid); }
    FiredOnce(db, now, fs);
    FiringsCreate(db, now, fs);
    forall f | f in FiredQuads(db, now, fs)
      ensures Look(Fire(db, now, fs), f.job) == Present(QueueOf(db, f.schedule), 0, InPending)
    {
      assert Creates(db, Fire(db, now, fs).jobs, now, f);
      FireEvolves(db, now, fs, f.job);
    }
  }

  /** The due times over a run are those of its firings: a script call that fires the schedule
      adds the score it had, and nothing else adds any. */
  lemma DuesAreFirings(c: Config, t: Trace, s: Step, sid: Id)
    requires Honest(c, s)
    ensures var db := Run(c, t);
            Dues(c, t + [s], sid)
            == Dues(c, t, sid)
               + if s.op.FireOp? && IsDue(db, s.op.now, sid) && Listed(s.op.firings, sid) then [db.schedules[sid]]
                 else []
  {
    var db := Run(c, t);
    assert (t + [s])[..|t|] == t;
    if s.op.FireOp? { FiredIff(db, s.op.now, s.op.firings, sid); }
  }

  lemma {:induction false} FiredIff(db: Db, now: int, fs: seq<Firing>, sid: Id)
    requires forall f | f in fs :: f.next > now
    ensures FiredDues(db, now, fs, sid)
            == if IsDue(db, now, sid) && Listed(fs, sid) then [db.schedules[sid]] else []
  {
    if fs != [] {
      var p, f := fs[..|fs|-1], fs[|fs|-1];
      assert fs == p + [f] && f in fs && forall g | g in p :: g in fs;
      FiredIff(db, now, p, sid);
      FiredExactly(db, now, p, sid);
      OneJobPerBacklog(db, now, p, sid);
      ListedMore(p, f, sid);
    }
  }

  predicate TouchesSchedules(op: Op) {
    op.FireOp? || op.AddScheduleOp? || op.DeleteScheduleOp? || op.DropScheduleOp?
  }

  lemma JobFrame(c: Config, db: Db, s: Step)
    requires s.op.EnqueueOp? || s.op.ClaimOp? || s.op.RenewOp? || s.op.AckOp? || s.op.FailOp?
    ensures Apply(c, db, s).schedules == db.schedules && Apply(c, db, s).definitions == db.definitions
  {
    if s.op.EnqueueOp? { } else if s.op.FailOp? { } else if s.op.RenewOp? { } else { }
  }

  lemma ScheduleFrame(c: Config, db: Db, s: Step)
    requires !TouchesSchedules(s.op)
    ensures Apply(c, db, s).schedules == db.schedules && Apply(c, db, s).definitions == db.definitions
  {
    match s.op
    case ReapOp(_, _) =>
    case RequeueOp(_, _) =>
    case LockAcquireOp(_) =>
    case LockRenewOp(_) =>
    case LockReleaseOp(_) =>
    case _ => JobFrame(c, db, s);
  }

  lemma StepSchedule(c: Config, db: Db, s: Step, sid: Id)
    requires !s.op.FireOp? && !(s.op.AddScheduleOp? && s.op.id == sid)
    ensures sid in Apply(c, db, s).schedules ==>
              sid in db.schedules && Apply(c, db, s).schedules[sid] == db.schedules[sid]
    ensures sid in Apply(c, db, s).definitions ==>
              sid in db.definitions && Apply(c, db, s).definitions[sid] == db.definitions[sid]
  {
    if !TouchesSchedules(s.op) { ScheduleFrame(c, db, s); }
  }

  lemma ApplyFire(c: Config, db: Db, s: Step)
    requires s.op.FireOp?
    ensures Apply(c, db, s) == Fire(db, s.op.now, s.op.firings)
  {
  }

  lemma FireAdvances(db: Db, now: int, fs: seq<Firing>, sid: Id, dues: seq<int>)
    requires (forall f | f in fs :: f.next > now) && Advancing(dues, db.schedules, sid)
    ensures Advancing(dues + FiredDues(db, now, fs, sid), Fire(db, now, fs).schedules, sid)
  {
    OneJobPerBacklog(db, now, fs, sid);
  }

  lemma StepAdvances(c: Config, db: Db, s: Step, sid: Id, dues: seq<int>)
    requires Honest(c, s) && Advancing(dues, db.schedules, sid)
    requires s.op.AddScheduleOp? && s.op.id == sid ==> dues == []
    ensures Advancing(dues + DuesBy(db, s, sid), Apply(c, db, s).schedules, sid)
  {
    if s.op.FireOp? {
      ApplyFire(c, db, s);
      FireAdvances(db, s.op.now, s.op.firings, sid, dues);
    } else {
      assert dues + [] == dues;
      if !(s.op.AddScheduleOp? && s.op.id == sid) { StepSchedule(c, db, s, sid); }
    }
  }

  /** Racing schedulers never double fire: with any number of interleaved passes acting on
      stale reads, the due times a schedule fires for strictly increase over every run. */
  lemma {:induction false} NeverFiresTwice(c: Config, t: Trace, sid: Id)
    requires Legal(c, t)
    ensures Advancing(Dues(c, t, sid), Run(c, t).schedules, sid)
    ensures sid !in UsedSchedules(t) ==> Dues(c, t, sid) == [] && sid !in Run(c, t).schedules
  {
    if t != [] {
      var p, s := t[..|t|-1], t[|t|-1];
      NeverFiresTwice(c, p, sid);
      StepAdvances(c, Run(c, p), s, sid, Dues(c, p, sid));
      if sid !in UsedSchedules(t) {
        if s.op.FireOp? {
          FireMembers(Run(c, p), s.op.now, s.op.firings, sid);
        } else {
          StepSchedule(c, Run(c, p), s, sid);
        }
      }
    }
  }

  // ----- what a schedule holds -------------------------------------------------------------

  predicate SameDefinition(a: Schedule, b: Schedule) {
    a.queue == b.queue && a.cron == b.cron && a.payload == b.payload && a.createdAt == b.createdAt
  }

  lemma StepDefinition(c: Config, p: Trace, s: Step, sid: Id, definition: Schedule)
    requires Legal(c, p + [s]) && sid in UsedSchedules(p)
    requires sid in Run(c, p).definitions ==> SameDefinition(Run(c, p).definitions[sid], definition)
    ensures var db' := Run(c, p + [s]); sid in db'.definitions ==> SameDefinition(db'.definitions[sid], definition)
  {
    Extend(c, p, s);
    if s.op.FireOp? {
      ApplyFire(c, Run(c, p), s);
      FireMembers(Run(c, p), s.op.now, s.op.firings, sid);
      FiringsMoveOn(Run(c, p), s.op.now, s.op.firings, sid);
    } else {
      StepSchedule(c, Run(c, p), s, sid);
    }
  }

  /** As long as a schedule's hash exists it holds the queue, expression, payload and creation
      time it was created with, whatever fires it. */
  lemma {:induction false} DefinitionKept(c: Config, t: Trace, i: nat)
    requires Legal(c, t) && i < |t| && t[i].op.AddScheduleOp?
    ensures t[i].op.id in UsedSchedules(t)
    ensures var sid, db := t[i].op.id, Run(c, t);
            sid in db.definitions ==> SameDefinition(db.definitions[sid], t[i].op.definition)
    decreases |t|
  {
    hide Run, Legal, SameDefinition;
    var p, s := t[..|t|-1], t[|t|-1];
    assert t == p + [s];
    LegalLast(c, t);
    if i < |p| {
      assert p[i] == t[i];
      DefinitionKept(c, p, i);
      StepDefinition(c, p, s, t[i].op.id, t[i].op.definition);
    } else {
      Extend(c, p, s);
      Added(c, Run(c, p), s);
    }
  }

  /** Create's step writes the definition and the first run. */
  lemma Added(c: Config, db: Db, s: Step)
    requires s.op.AddScheduleOp?
    ensures var db', sid := Apply(c, db, s), s.op.id;
            && sid in db'.definitions && SameDefinition(db'.definitions[sid], s.op.definition)
            && sid in db'.schedules && db'.schedules[sid] == s.op.next
  {
  }

  // ----- consistency ---------------------------------------------------------------------

  /** Every member of the schedules set has its hash, in every state of every run. */
  lemma {:induction false} SchedulesDefined(c: Config, t: Trace)
    ensures Run(c, t).schedules.Keys <= Run(c, t).definitions.Keys
  {
    if t != [] {
      var p, s := t[..|t|-1], t[|t|-1];
      SchedulesDefined(c, p);
      forall sid | sid in Run(c, t).schedules ensures sid in Run(c, t).definitions {
        DefinedStep(c, Run(c, p), s, sid);
      }
    }
  }

  lemma DefinedStep(c: Config, db: Db, s: Step, sid: Id)
    requires sid in db.schedules ==> sid in db.definitions
    requires sid in Apply(c, db, s).schedules
    ensures sid in Apply(c, db, s).definitions
  {
    if !TouchesSchedules(s.op) {
      ScheduleFrame(c, db, s);
    } else if s.op.FireOp? {
      ApplyFire(c, db, s);
      FireMembers(db, s.op.now, s.op.firings, sid);
    }
  }

  /** A schedule that has left the set never fires again and never returns to it; once its
      hash is gone too, no pass recreates that either. */
  lemma {:induction false} GoneSchedule(c: Config, t: Trace, k: nat, sid: Id)
    requires Legal(c, t) && k <= |t|
    requires sid in UsedSchedules(t[..k]) && sid !in Run(c, t[..k]).schedules
    ensures sid in UsedSchedules(t) && sid !in Run(c, t).schedules
    ensures Dues(c, t, sid) == Dues(c, t[..k], sid)
    ensures sid !in Run(c, t[..k]).definitions ==> sid !in Run(c, t).definitions
    decreases |t|
  {
    if k == |t| {
      assert t[..k] == t;
    } else {
      var p, s := t[..|t|-1], t[|t|-1];
      assert p[..k] == t[..k];
      GoneSchedule(c, p, k, sid);
      if s.op.FireOp? {
        FireMembers(Run(c, p), s.op.now, s.op.firings, sid);
      } else {
        StepSchedule(c, Run(c, p), s, sid);
      }
    }
  }

  /** Once Delete has run, no pass that read the schedule earlier can fire it or bring back
      its entry or its hash. */
  lemma DeletedForGood(c: Config, t: Trace, k: nat, sid: Id)
    requires Legal(c, t) && k < |t| && t[k].op == DeleteScheduleOp(sid) && sid in UsedSchedules(t[..k])
    ensures sid !in Run(c, t).schedules && sid !in Run(c, t).definitions
    ensures Dues(c, t, sid) == Dues(c, t[..k], sid)
  {
    var u := t[..k + 1];
    assert u[..k] == t[..k];
    assert Dues(c, u, sid) == Dues(c, t[..k], sid) + [];
    GoneSchedule(c, t, k + 1, sid);
  }

  /** A pass that drops an entry silences the schedule: it never fires again, although its
      hash may still be there. */
  lemma DroppedForGood(c: Config, t: Trace, k: nat, sid: Id)
    requires Legal(c, t) && k < |t| && t[k].op == DropScheduleOp(sid) && sid in UsedSchedules(t[..k])
    ensures sid !in Run(c, t).schedules && Dues(c, t, sid) == Dues(c, t[..k], sid)
  {
    var u := t[..k + 1];
    assert u[..k] == t[..k];
    assert Dues(c, u, sid) == Dues(c, t[..k], sid) + [];
    GoneSchedule(c, t, k + 1, sid);
  }

  /** A live schedule dropped: due, with its hash, until a pass whose read of the hash failed
      removes its entry. The hash stays, and by DroppedForGood it never fires again. */
  lemma LiveScheduleDropped(c: Config, sid: Id, definition: Schedule) returns (before: Trace, t: Trace)
    ensures Legal(c, t) && t == before + [Step(5, DropScheduleOp(sid))]
    ensures IsDue(Run(c, before), 5, sid) && sid in UsedSchedules(before)
    ensures sid in Run(c, t).definitions && sid !in Run(c, t).schedules
  {
    var add, drop := Step(0, AddScheduleOp(sid, definition, 5)), Step(5, DropScheduleOp(sid));
    before := [] + [add];
    Extend(c, [], add);
    assert before[..0] == [];
    Extend(c, before, drop);
    t := before + [drop];
  }
}
