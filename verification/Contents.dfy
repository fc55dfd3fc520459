/** What a job's hash holds over whole runs: the payload, queue, key and creation time it was
    created with, until it is gone. */
module Contents {
  import opened Ranking
  import opened Model
  import opened Lifecycle
  import opened Attempts

  /** Everything but the attempts is the same. */
  predicate SameContent(a: Job, b: Job) {
    a.payload == b.payload && a.queue == b.queue && a.idem == b.idem && a.createdAt == b.createdAt
  }

  /** A job that is there before and after a step. */
  predicate Unaltered(db: Db, db': Db, id: Id) {
    id in db.jobs && id in db'.jobs ==> SameContent(db.jobs[id], db'.jobs[id])
  }

  lemma {:induction false} FireUnaltered(db: Db, now: int, fs: seq<Firing>, id: Id)
    requires id !in FireIds(fs)
    ensures id in Fire(db, now, fs).jobs <==> id in db.jobs
    ensures id in db.jobs ==> Fire(db, now, fs).jobs[id] == db.jobs[id]
  {
    if fs != [] {
      var p, f := fs[..|fs|-1], fs[|fs|-1];
      assert FireIds(fs) == FireIds(p) + [f.job];
      FireUnaltered(db, now, p, id);
    }
  }

  lemma BumpUnaltered(jobs: map<Id, Job>, ids: seq<Id>, id: Id)
    requires id in jobs
    ensures id in BumpAll(jobs, ids) && SameContent(jobs[id], BumpAll(jobs, ids)[id])
  {
  }

  lemma OthersUnaltered(c: Config, db: Db, s: Step)
    requires s.op.ClaimOp? || s.op.RenewOp? || s.op.RequeueOp? || s.op.AddScheduleOp? || s.op.DeleteScheduleOp?
             || s.op.DropScheduleOp? || s.op.LockAcquireOp? || s.op.LockRenewOp? || s.op.LockReleaseOp?
    ensures Apply(c, db, s).jobs == db.jobs
  {
    if s.op.ClaimOp? { } else if s.op.RenewOp? { } else if s.op.RequeueOp? { } else { }
  }

  lemma EnqueueUnaltered(c: Config, db: Db, s: Step, id: Id)
    requires s.op.EnqueueOp? && id != s.op.id
    ensures Unaltered(db, Apply(c, db, s), id)
  {
  }

  lemma AckUnaltered(c: Config, db: Db, s: Step, id: Id)
    requires s.op.AckOp?
    ensures Unaltered(db, Apply(c, db, s), id)
  {
  }

  lemma FailUnaltered(c: Config, db: Db, s: Step, id: Id)
    requires s.op.FailOp?
    ensures Unaltered(db, Apply(c, db, s), id)
  {
  }

  lemma ReapUnaltered(c: Config, db: Db, s: Step, id: Id)
    requires s.op.ReapOp?
    ensures Unaltered(db, Apply(c, db, s), id)
  {
    if id in db.jobs { BumpUnaltered(db.jobs, Due(db.queues[s.op.queue].leased, s.op.now, c.drainLimit), id); }
  }

  lemma StepUnaltered(c: Config, db: Db, s: Step, id: Id)
    requires id !in NewJobs(s.op)
    ensures Unaltered(db, Apply(c, db, s), id)
  {
    hide Apply, Unaltered;
    match s.op
    case EnqueueOp(_, _, _, _, _) => EnqueueUnaltered(c, db, s, id);
    case AckOp(_, _) => AckUnaltered(c, db, s, id);
    case FailOp(_, _, _) => FailUnaltered(c, db, s, id);
    case ReapOp(_, _) => ReapUnaltered(c, db, s, id);
    case FireOp(now, fs) => FireStepUnaltered(c, db, s, id);
    case _ =>
      OthersUnaltered(c, db, s);
      SameUnaltered(db, Apply(c, db, s), id);
  }

  lemma SameUnaltered(db: Db, db': Db, id: Id)
    requires db'.jobs == db.jobs
    ensures Unaltered(db, db', id)
  {
  }

  lemma FireStepUnaltered(c: Config, db: Db, s: Step, id: Id)
    requires s.op.FireOp? && id !in NewJobs(s.op)
    ensures Unaltered(db, Apply(c, db, s), id)
  {
    FireUnaltered(db, s.op.now, s.op.firings, id);
  }

  /** The ID of a job that is there is not brought again. */
  lemma NotNewAgain(c: Config, t: Trace, s: Step, id: Id)
    requires Legal(c, t + [s]) && id in UsedJobs(t)
    ensures id !in NewJobs(s.op)
  {
    Extend(c, t, s);
    assert id in NewJobs(s.op) ==> id in Members(NewJobs(s.op));
  }

  lemma NotUsedYet(c: Config, t: Trace, i: nat, m: nat, id: Id)
    requires Legal(c, t) && m <= i < |t| && id in NewJobs(t[i].op)
    ensures id !in UsedJobs(t[..m])
  {
    hide Legal, UsedJobs;
    var w := t[..i];
    assert w[..m] == t[..m];
    UsedGrows(w, m);
    assert t[..i + 1] == w + [t[i]];
    LegalPrefix(c, t, i + 1);
    if id in UsedJobs(t[..m]) { NotNewAgain(c, w, t[i], id); }
  }

  /** While a job exists its payload, queue, key and creation time do not change. */
  lemma {:induction false} ContentKept(c: Config, t: Trace, k: nat, id: Id)
    requires Legal(c, t) && k <= |t| && id in Run(c, t[..k]).jobs
    ensures Unaltered(Run(c, t[..k]), Run(c, t), id)
    decreases |t|
  {
    hide Run, Legal;
    if k == |t| {
      assert t[..k] == t;
    } else {
      var p, s := t[..|t|-1], t[|t|-1];
      assert p[..k] == t[..k] && t == p + [s];
      LegalLast(c, t);
      WasUsed(c, p, k, id);
      NotNewAgain(c, p, s, id);
      Extend(c, p, s);
      ContentKept(c, p, k, id);
      if id in Run(c, p).jobs {
        StepUnaltered(c, Run(c, p), s, id);
      } else {
        NoReturn(c, t, p, k, id);
      }
    }
  }

  /** The only step that may create a job is the one that brings its ID. */
  lemma CreatedThere(c: Config, t: Trace, i: nat, id: Id)
    requires Legal(c, t) && i < |t| && id in NewJobs(t[i].op) && id in Run(c, t).jobs
    ensures id !in Run(c, t[..i]).jobs && id in Run(c, t[..i + 1]).jobs
    ensures Run(c, t[..i + 1]) == Apply(c, Run(c, t[..i]), t[i]) && Legal(c, t[..i])
  {
    hide Run, Legal;
    var u := t[..i + 1];
    assert u == t[..i] + [t[i]];
    LegalPrefix(c, t, i);
    LegalPrefix(c, t, i + 1);
    Extend(c, t[..i], t[i]);
    NoJobLostOrDuplicated(c, t[..i]);
    assert id in Members(NewJobs(t[i].op));
    if id !in Run(c, u).jobs { GoneForever(c, t, i + 1, id); }
  }

  /** A job that an enqueue brought holds, as long as it exists, exactly what that enqueue was
      given. */
  lemma EnqueuedContent(c: Config, t: Trace, i: nat)
    requires Legal(c, t) && i < |t| && t[i].op.EnqueueOp? && t[i].op.id in Run(c, t).jobs
    ensures var op, job := t[i].op, Run(c, t).jobs[t[i].op.id];
            && job.payload == op.payload && job.queue == op.queue
            && job.idem == op.idem && job.createdAt == op.created
  {
    hide Run, Legal;
    var id := t[i].op.id;
    CreatedThere(c, t, i, id);
    EnqueueWrites(c, Run(c, t[..i]), t[i]);
    ContentKept(c, t, i + 1, id);
  }

  lemma EnqueueWrites(c: Config, db: Db, s: Step)
    requires s.op.EnqueueOp? && s.op.id !in db.jobs && s.op.id in Apply(c, db, s).jobs
    ensures var op, job := s.op, Apply(c, db, s).jobs[s.op.id];
            && job.payload == op.payload && job.queue == op.queue && job.idem == op.idem
            && job.createdAt == op.created && job.attempts == 0
  {
  }

  lemma {:induction false} FireWrites(db: Db, now: int, fs: seq<Firing>, j: nat)
    requires j < |fs| && Distinct(FireIds(fs)) && fs[j].job !in db.jobs && fs[j].job in Fire(db, now, fs).jobs
    ensures var f, job := fs[j], Fire(db, now, fs).jobs[fs[j].job];
            && job.payload == f.payload && job.idem == "" && job.createdAt == now && job.attempts == 0
            && f.schedule in db.definitions && job.queue == db.definitions[f.schedule].queue
  {
    var p, f := fs[..|fs|-1], fs[|fs|-1];
    assert FireIds(fs) == FireIds(p) + [f.job];
    FireIdsPrefix(fs);
    if j < |p| {
      assert FireIds(p)[j] == fs[j].job && p[j] == fs[j];
      FireWrites(db, now, p, j);
    } else {
      FireUnaltered(db, now, p, f.job);
      QueueKept(db, now, p, f.schedule);
    }
  }

  lemma {:induction false} QueueKept(db: Db, now: int, fs: seq<Firing>, sid: Id)
    ensures sid in Fire(db, now, fs).definitions <==> sid in db.definitions
    ensures sid in db.definitions ==> Fire(db, now, fs).definitions[sid].queue == db.definitions[sid].queue
  {
    if fs != [] { QueueKept(db, now, fs[..|fs|-1], sid); }
  }

  /** A job that a firing brought holds, as long as it exists, the payload of its quad, the
      queue of its schedule and the time of the pass. */
  lemma FiredContent(c: Config, t: Trace, i: nat, j: nat)
    requires Legal(c, t) && i < |t| && t[i].op.FireOp? && j < |t[i].op.firings|
    requires t[i].op.firings[j].job in Run(c, t).jobs
    ensures var f, db := t[i].op.firings[j], Run(c, t[..i]);
            var job := Run(c, t).jobs[f.job];
            && job.payload == f.payload && job.idem == "" && job.createdAt == t[i].op.now
            && f.schedule in db.definitions && job.queue == db.definitions[f.schedule].queue
  {
    hide Run, Legal, Fire;
    var op, u := t[i].op, t[..i + 1];
    var id := op.firings[j].job;
    assert id == FireIds(op.firings)[j];
    CreatedThere(c, t, i, id);
    LegalPrefix(c, t, i + 1);
    assert u == t[..i] + [t[i]];
    FitsLast(c, t[..i], t[i]);
    FireIs(c, Run(c, t[..i]), t[i]);
    FireWrites(Run(c, t[..i]), op.now, op.firings, j);
    ContentKept(c, t, i + 1, id);
  }

  lemma FitsLast(c: Config, t: Trace, s: Step)
    requires Legal(c, t + [s])
    ensures Distinct(NewJobs(s.op))
  {
    Extend(c, t, s);
  }

  lemma FireIs(c: Config, db: Db, s: Step)
    requires s.op.FireOp?
    ensures Apply(c, db, s) == Fire(db, s.op.now, s.op.firings) && NewJobs(s.op) == FireIds(s.op.firings)
  {
  }
}
