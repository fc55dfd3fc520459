/** What a second execution of one script call does. The other results let a call run at most
    once; a Redis client that retries after a lost reply may run it again, later and with the
    same arguments, after anything else has happened in between. */
module Redelivery {
  import opened Ranking
  import opened Model
  import opened Lifecycle
  import opened Attempts
  import opened Scheduling
  import Idempotency

  /** Call k of a run, executed again at time `at`. */
  function Again(t: Trace, k: nat, at: int): Step
    requires k < |t|
  {
    Step(at, t[k].op)
  }

  /** No job is listed twice, and none comes into being or back from an ack. */
  ghost predicate Harmless(db: Db, db': Db) { Sound(db') && db'.jobs.Keys <= db.jobs.Keys }

  // ----- a pass run again fires nothing ----------------------------------------------------

  lemma StaysNotDue(c: Config, t: Trace, s: Step, now: int, sid: Id)
    requires Legal(c, t + [s]) && sid in UsedSchedules(t) && !IsDue(Run(c, t), now, sid)
    ensures !IsDue(Run(c, t + [s]), now, sid)
  {
    Extend(c, t, s);
    if s.op.FireOp? {
      FireMembers(Run(c, t), s.op.now, s.op.firings, sid);
      OneJobPerBacklog(Run(c, t), s.op.now, s.op.firings, sid);
    } else {
      StepSchedule(c, Run(c, t), s, sid);
    }
  }

  lemma {:induction false} NeverDueAgain(c: Config, t: Trace, k: nat, now: int, sid: Id)
    requires Legal(c, t) && k <= |t| && sid in UsedSchedules(t[..k]) && !IsDue(Run(c, t[..k]), now, sid)
    ensures sid in UsedSchedules(t) && !IsDue(Run(c, t), now, sid)
    decreases |t|
  {
    hide Run, Legal, IsDue;
    if k == |t| {
      assert t[..k] == t;
    } else {
      var p, s := t[..|t|-1], t[|t|-1];
      assert p[..k] == t[..k] && t == p + [s];
      LegalLast(c, t);
      NeverDueAgain(c, p, k, now, sid);
      StaysNotDue(c, p, s, now, sid);
    }
  }

  lemma {:induction false} FireNothing(db: Db, now: int, fs: seq<Firing>)
    requires forall f | f in fs :: !IsDue(db, now, f.schedule)
    ensures Fire(db, now, fs) == db
  {
    if fs != [] {
      assert fs[|fs|-1] in fs;
      FireNothing(db, now, fs[..|fs|-1]);
    }
  }

  lemma RepeatFire(c: Config, t: Trace, k: nat)
    requires Legal(c, t) && k < |t| && t[k].op.FireOp?
    requires t[k].op.FireOp? ==> forall f | f in t[k].op.firings :: f.schedule in UsedSchedules(t[..k])
    ensures Fire(Run(c, t), t[k].op.now, t[k].op.firings) == Run(c, t)
  {
    hide Run, Legal, IsDue, Fire;
    var op, u := t[k].op, t[..k + 1];
    assert u == t[..k] + [t[k]];
    LegalPrefix(c, t, k + 1);
    Extend(c, t[..k], t[k]);
    forall f | f in op.firings ensures !IsDue(Run(c, t), op.now, f.schedule) {
      FiredExactly(Run(c, t[..k]), op.now, op.firings, f.schedule);
      ApplyFire(c, Run(c, t[..k]), t[k]);
      assert f.schedule in UsedSchedules(u) by { assert u[..|u|-1] == t[..k]; }
      NeverDueAgain(c, t, k + 1, op.now, f.schedule);
    }
    FireNothing(Run(c, t), op.now, op.firings);
  }

  // ----- which repeats are harmless --------------------------------------------------------

  /** An enqueue run again whose key is missing or no longer live pushes its ID once more: a
      job that is still there is then listed twice, and one that was acked is back. */
  lemma RepeatEnqueue(c: Config, db: Db, s: Step)
    requires Sound(db) && s.op.EnqueueOp? && !Seen(db.markers, s.op.idem, s.at)
    ensures var db' := Apply(c, db, s);
            if s.op.id in db.jobs then !Sound(db') else Look(db', s.op.id) == Present(s.op.queue, 0, InPending)
    ensures !Harmless(db, Apply(c, db, s))
  {
    var op, db' := s.op, Apply(c, db, s);
    assert op.id in db'.jobs && Owns(db'.jobs, op.queue, op.id);
    if op.id in db.jobs {
      PushedAgain(db, db', op.queue, op.id);
    } else {
      EnqueueEvolves(c, db, s, op.id);
      SoundAt(db', op.queue, op.id);
      assert db'.queues[op.queue].pending == db.queues[op.queue].pending + [op.id];
    }
  }

  lemma PushedAgain(db: Db, db': Db, queue: string, id: Id)
    requires Sound(db) && id in db.jobs && Owns(db'.jobs, queue, id)
    requires db'.queues == db.queues[queue := db.queues[queue].(pending := db.queues[queue].pending + [id])]
    ensures !Sound(db')
  {
    var home := db.jobs[id].queue;
    assert Places(db.queues[home], id) == 1;
    assert multiset(db.queues[queue].pending + [id])[id] == multiset(db.queues[queue].pending)[id] + 1;
    assert Places(db'.queues[queue], id) == Places(db.queues[queue], id) + 1;
    if home == queue {
      assert Places(db'.queues[queue], id) == 2;
    } else {
      assert Places(db'.queues[home], id) == 1 && !Owns(db'.jobs, home, id);
    }
  }

  /** A call that brings no new job. */
  lemma RepeatOther(c: Config, db: Db, s: Step)
    requires Sound(db) && NewJobs(s.op) == []
    ensures Harmless(db, Apply(c, db, s))
  {
    StepSound(c, db, s);
    JobsWithinUsed(c, db, s);
  }

  /** A call of a run that Redis executes once more, at any later moment, is harmless if and
      only if it is not an enqueue whose key is empty or no longer live. A pass lists schedules
      that it has read. */
  lemma RepeatHarmlessIff(c: Config, t: Trace, k: nat, at: int)
    requires Legal(c, t) && k < |t|
    requires t[k].op.FireOp? ==> forall f | f in t[k].op.firings :: f.schedule in UsedSchedules(t[..k])
    ensures var op, db := t[k].op, Run(c, t);
            Harmless(db, Apply(c, db, Again(t, k, at))) <==> !(op.EnqueueOp? && !Seen(db.markers, op.idem, at))
  {
    hide Run, Legal, Apply, Seen;
    var db, s := Run(c, t), Again(t, k, at);
    NoJobLostOrDuplicated(c, t);
    if s.op.EnqueueOp? {
      if Seen(db.markers, s.op.idem, at) { SeenChangesNothing(c, db, s); } else { RepeatEnqueue(c, db, s); }
    } else if s.op.FireOp? {
      RepeatFire(c, t, k);
      ApplyFire(c, db, s);
    } else {
      RepeatOther(c, db, s);
    }
  }

  lemma SeenChangesNothing(c: Config, db: Db, s: Step)
    requires s.op.EnqueueOp? && Seen(db.markers, s.op.idem, s.at)
    ensures Apply(c, db, s) == db
  {
  }

  /** So a key protects the enqueue that created a job for one window: run again, it changes
      nothing and answers the ID of that job, whatever has become of it. */
  lemma KeyProtects(c: Config, t: Trace, k: nat, at: int)
    requires Legal(c, t) && k < |t| && t[k].op.EnqueueOp? && t[k].op.idem != ""
    requires Idempotency.Creates(Run(c, t[..k]), t[k], t[k].op.idem)
    requires t[|t|-1].at <= at < t[k].at + 1000 * c.window
    ensures Apply(c, Run(c, t), Again(t, k, at)) == Run(c, t)
    ensures Idempotency.EnqueueReply(Run(c, t), Again(t, k, at)) == (false, t[k].op.id)
  {
    hide Run, Legal;
    Idempotency.DuplicateAnswered(c, t, k, Again(t, k, at));
  }

  /** Every other repeat is one more step of a run, or no step at all, so that what is proved
      of runs holds with it too; only a repeated AddSchedule may bring a schedule back. */
  lemma RepeatCovered(c: Config, t: Trace, k: nat, at: int)
    requires Legal(c, t) && k < |t| && t[|t|-1].at <= at
    requires !t[k].op.EnqueueOp? && !t[k].op.AddScheduleOp?
    requires t[k].op.FireOp? ==> forall f | f in t[k].op.firings :: f.schedule in UsedSchedules(t[..k])
    ensures Legal(c, t + [Again(t, k, at)]) || Apply(c, Run(c, t), Again(t, k, at)) == Run(c, t)
  {
    hide Run, Apply;
    var s := Again(t, k, at);
    if s.op.FireOp? {
      RepeatFire(c, t, k);
      ApplyFire(c, Run(c, t), s);
    } else {
      Earlier(c, t, k);
      Extend(c, t, s);
    }
  }

  lemma {:induction false} Earlier(c: Config, t: Trace, k: nat)
    requires Legal(c, t) && k < |t|
    ensures Honest(c, t[k]) && t[k].at <= t[|t|-1].at
    decreases |t|
  {
    if k < |t| - 1 {
      Earlier(c, t[..|t|-1], k);
    }
  }
}
