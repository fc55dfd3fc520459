/** What the store does with worker calls that come too late: exactly when the missing token
    matters for a renewal, an ack and a fail, and legal runs in which it does. */
module StaleCalls {
  import opened Ranking
  import opened Model
  import opened Lifecycle
  import opened Attempts
  import opened Draining
  import opened Leases
  import opened Fencing
  import Heartbeat

  // ----- exactly when a token would have made a difference -------------------------------

  /** An ack or a fail changes the database exactly when the job is leased in that queue. */
  lemma ReportChangesIff(c: Config, db: Db, s: Step)
    requires (s.op.AckOp? || s.op.FailOp?) && SingleJob(s.op)
    ensures Apply(c, db, s) != db <==> CalledId(s.op) in db.queues[s.op.queue].leased
  {
    var id, z := CalledId(s.op), db.queues[s.op.queue];
    assert s.op.AckOp? ==> s.op.ids == [id];
    if id in z.leased {
      assert id !in Apply(c, db, s).queues[s.op.queue].leased;
    } else if s.op.AckOp? {
      assert Acked(z, s.op.ids) == {};
      assert z.leased - {} == z.leased && db.jobs - {} == db.jobs;
      assert Apply(c, db, s).queues == db.queues;
    }
  }

  lemma SnocSteps(p: Calls, call: Call)
    ensures Steps(p + [call]) == Steps(p) + [call.step]
  {
    assert (p + [call])[..|p|] == p;
  }

  lemma NextCall(c: Config, p: Calls, call: Call)
    ensures Steps(p + [call]) == Steps(p) + [call.step]
    ensures Run(c, Steps(p + [call])) == Apply(c, Run(c, Steps(p)), call.step)
    ensures Legal(c, Steps(p + [call])) <==> Legal(c, Steps(p)) && Fits(c, Steps(p), call.step)
    ensures FencedRun(c, p + [call]) == FencedApply(c, FencedRun(c, p), call)
    ensures InTime(c, p + [call]) <==> InTime(c, p) && (OnTime(c, p, call) || Trails(p, call))
  {
    assert (p + [call])[..|p|] == p;
    Extend(c, Steps(p), call.step);
  }

  /** After a run in time, the stores with and without tokens agree on one more ack or fail
      exactly when the job is not leased in that queue or the caller is its latest claimer. */
  lemma ReportAgreesIff(c: Config, p: Calls, call: Call)
    requires Legal(c, Steps(p + [call])) && InTime(c, p)
    requires (call.step.op.AckOp? || call.step.op.FailOp?) && SingleJob(call.step.op)
    ensures var h := Caller(call);
            FencedRun(c, p + [call]).db == Run(c, Steps(p + [call]))
            <==> h.id !in Run(c, Steps(p)).queues[h.queue].leased || h.gen == Claims(c, Steps(p), h.id)
  {
    NextCall(c, p, call);
    FencingForFree(c, p);
    ReportChangesIff(c, Run(c, Steps(p)), call.step);
  }

  /** A renewal changes the database exactly when the job is leased in that queue with another
      deadline. */
  lemma RenewChangesIff(c: Config, db: Db, s: Step)
    requires s.op.RenewOp?
    ensures var leased := db.queues[s.op.queue].leased;
            Apply(c, db, s) != db <==> s.op.id in leased && leased[s.op.id] != s.op.deadline
  {
    var z := db.queues[s.op.queue];
    if s.op.id in z.leased {
      var leased' := Apply(c, db, s).queues[s.op.queue].leased;
      assert leased'[s.op.id] == s.op.deadline;
      if z.leased[s.op.id] == s.op.deadline {
        assert z.leased[s.op.id := s.op.deadline] == z.leased;
        assert Apply(c, db, s).queues == db.queues;
      }
    }
  }

  /** After a run in time, the stores with and without tokens agree on one more renewal exactly
      when the job is not leased in that queue, the caller is its latest claimer, or the
      renewal writes the deadline that is there: whatever the caller's own deadline was. */
  lemma RenewalAgreesIff(c: Config, p: Calls, call: Call)
    requires Legal(c, Steps(p + [call])) && InTime(c, p) && call.step.op.RenewOp?
    ensures var h, leased := Caller(call), Run(c, Steps(p)).queues[call.step.op.queue].leased;
            FencedRun(c, p + [call]).db == Run(c, Steps(p + [call]))
            <==> h.id !in leased || h.gen == Claims(c, Steps(p), h.id) || leased[h.id] == call.step.op.deadline
  {
    NextCall(c, p, call);
    FencingForFree(c, p);
    RenewChangesIff(c, Run(c, Steps(p)), call.step);
  }

  // ----- runs of one job -----------------------------------------------------------------

  function Lone(pending: seq<Id>, leased: map<Id, int>, retry: map<Id, int>): Queue {
    Queue(pending, leased, retry, [])
  }

  /** A legal run at time `now` in which queue "q" is `z` and job "a" was claimed n times. */
  ghost predicate Stage(c: Config, t: Trace, now: int, z: Queue, n: nat, attempts: int) {
    && Legal(c, t) && t != [] && t[|t|-1].at == now
    && Run(c, t).queues["q"] == z
    && "a" in Run(c, t).jobs && Run(c, t).jobs["a"].attempts == attempts
    && Claims(c, t, "a") == n
  }

  lemma NextStage(c: Config, t: Trace, now: int, z: Queue, n: nat, attempts: int, s: Step)
    requires Stage(c, t, now, z, n, attempts) && now <= s.at && Honest(c, s)
    requires NewJobs(s.op) == [] && !s.op.AddScheduleOp?
    requires "a" in Apply(c, Run(c, t), s).jobs
    ensures Stage(c, t + [s], s.at, Apply(c, Run(c, t), s).queues["q"],
                  n + multiset(ClaimedBy(Run(c, t), s))["a"], Apply(c, Run(c, t), s).jobs["a"].attempts)
  {
    Extend(c, t, s);
    ClaimsStep(c, t, s, "a");
  }

  lemma SingletonDue(id: Id, score: int, now: int, limit: int)
    requires score <= now && limit >= 1
    ensures Due(map[id := score], now, limit) == [id]
  {
    var z := map[id := score];
    DueExact(z, now, limit);
    assert DueMap(z, now) == z && |z| == 1;
    var d := Due(z, now, limit);
    assert |d| == 1 && d[0] in d;
  }

  lemma EnqueueStage(c: Config) returns (t: Trace)
    ensures t == [Step(0, EnqueueOp("a", "q", "", 0, ""))]
    ensures Stage(c, t, 0, Lone(["a"], map[], map[]), 0, 0)
  {
    var s := Step(0, EnqueueOp("a", "q", "", 0, ""));
    Extend(c, [], s);
    ClaimsStep(c, [], s, "a");
    assert [] + [s] == [s];
    t := [s];
    assert Run(c, []) == EMPTY_DB;
  }

  lemma LoneClaim(z: Queue, deadline: int)
    requires z == Lone(["a"], map[], map[])
    ensures ClaimQueue(z, 1, deadline) == Lone([], map["a" := deadline], map[])
    ensures Claimed(z, 1) == ["a"]
  {
    assert Members(["a"]) == {"a"};
    assert LeaseAll(map[], ["a"], deadline) == map["a" := deadline];
    assert z.pending[..1] == ["a"];
  }

  lemma ClaimStage(c: Config, t: Trace, now: int, n: nat, attempts: int, at: int, deadline: int)
    requires Stage(c, t, now, Lone(["a"], map[], map[]), n, attempts) && now <= at && deadline <= at + c.leaseTtl
    ensures Stage(c, t + [Step(at, ClaimOp("q", 1, deadline))], at, Lone([], map["a" := deadline], map[]),
                  n + 1, attempts)
  {
    LoneClaim(Run(c, t).queues["q"], deadline);
    NextStage(c, t, now, Lone(["a"], map[], map[]), n, attempts, Step(at, ClaimOp("q", 1, deadline)));
  }

  lemma LoneReap(z: Queue, jobs: map<Id, Job>, m: nat, d: int)
    requires z == Lone([], map["a" := d], map[]) && "a" in jobs && jobs["a"].attempts < m
    ensures ReapQueue(z, jobs, m, ["a"]) == Lone(["a"], map[], map[])
  {
    assert Members(["a"]) == {"a"};
    assert Survivors(jobs, m, ["a"]) == Survivors(jobs, m, []) + ["a"];
    assert Casualties(jobs, m, ["a"]) == Casualties(jobs, m, []) + [];
  }

  /** Reaping the only lease, due and with a retry left. */
  lemma ReapLone(c: Config, db: Db, at: int, d: int)
    requires db.queues["q"] == Lone([], map["a" := d], map[]) && "a" in db.jobs && db.jobs["a"].attempts < c.maxRetries
    requires d <= at && c.drainLimit >= 1
    ensures var db' := Apply(c, db, Step(at, ReapOp("q", at)));
            && db'.queues["q"] == Lone(["a"], map[], map[])
            && "a" in db'.jobs && db'.jobs["a"].attempts == db.jobs["a"].attempts + 1
  {
    SingletonDue("a", d, at, c.drainLimit);
    ApplyReap(c, db, Step(at, ReapOp("q", at)));
    LoneReap(db.queues["q"], db.jobs, c.maxRetries, d);
    BumpedAt(db.jobs, ["a"], "a");
  }

  lemma ReapStage(c: Config, t: Trace, now: int, n: nat, attempts: int, at: int, d: int)
    requires Stage(c, t, now, Lone([], map["a" := d], map[]), n, attempts) && now <= at && d <= at
    requires c.drainLimit >= 1 && attempts < c.maxRetries
    ensures Stage(c, t + [Step(at, ReapOp("q", at))], at, Lone(["a"], map[], map[]), n, attempts + 1)
  {
    hide Run, Legal, Apply;
    ReapLone(c, Run(c, t), at, d);
    NextStage(c, t, now, Lone([], map["a" := d], map[]), n, attempts, Step(at, ReapOp("q", at)));
  }

  lemma RenewStage(c: Config, t: Trace, now: int, n: nat, attempts: int, d: int, at: int, deadline: int)
    requires Stage(c, t, now, Lone([], map["a" := d], map[]), n, attempts) && now <= at
    requires deadline <= at + c.leaseTtl
    ensures Stage(c, t + [Step(at, RenewOp("q", "a", deadline))], at, Lone([], map["a" := deadline], map[]),
                  n, attempts)
  {
    Overwritten("a", d, deadline);
    NextStage(c, t, now, Lone([], map["a" := d], map[]), n, attempts, Step(at, RenewOp("q", "a", deadline)));
  }

  lemma FailStage(c: Config, t: Trace, now: int, n: nat, attempts: int, at: int, d: int)
    requires Stage(c, t, now, Lone([], map["a" := d], map[]), n, attempts) && now <= at
    requires attempts < c.maxRetries
    ensures Stage(c, t + [Step(at, FailOp("q", "a", at))], at, Lone([], map[], map["a" := at]), n, attempts + 1)
  {
    var z := Run(c, t).queues["q"];
    assert EndLease(z, "a", false, at) == Lone([], map[], map["a" := at]);
    NextStage(c, t, now, z, n, attempts, Step(at, FailOp("q", "a", at)));
  }

  /** Requeueing the only retry, due. */
  lemma RequeueLone(c: Config, db: Db, at: int, d: int)
    requires db.queues["q"] == Lone([], map[], map["a" := d]) && d <= at && c.drainLimit >= 1
    ensures var db' := Apply(c, db, Step(at, RequeueOp("q", at)));
            db'.queues["q"] == Lone(["a"], map[], map[]) && db'.jobs == db.jobs
  {
    SingletonDue("a", d, at, c.drainLimit);
    assert Members(["a"]) == {"a"};
  }

  lemma RequeueStage(c: Config, t: Trace, now: int, n: nat, attempts: int, at: int, d: int)
    requires Stage(c, t, now, Lone([], map[], map["a" := d]), n, attempts) && now <= at && d <= at
    requires c.drainLimit >= 1
    ensures Stage(c, t + [Step(at, RequeueOp("q", at))], at, Lone(["a"], map[], map[]), n, attempts)
  {
    hide Run, Legal, Apply;
    RequeueLone(c, Run(c, t), at, d);
    NextStage(c, t, now, Lone([], map[], map["a" := d]), n, attempts, Step(at, RequeueOp("q", at)));
  }

  /** Appends a step that is no worker's call; it keeps a run in time. */
  lemma Quiet(c: Config, p: Calls, s: Step) returns (calls: Calls)
    requires InTime(c, p) && !IsWorkerCall(s.op)
    ensures calls == p + [Call(s, 0, 0)] && Steps(calls) == Steps(p) + [s] && InTime(c, calls)
  {
    hide Run, Legal, Grips;
    calls := p + [Call(s, 0, 0)];
    NextCall(c, p, Call(s, 0, 0));
  }

  lemma QuietStage(c: Config, p: Calls, s: Step, now: int, z: Queue, n: nat, attempts: int) returns (calls: Calls)
    requires InTime(c, p) && !IsWorkerCall(s.op) && Stage(c, Steps(p) + [s], now, z, n, attempts)
    ensures InTime(c, calls) && Stage(c, Steps(calls), now, z, n, attempts) && calls == p + [Call(s, 0, 0)]
  {
    hide Run, Legal, Grips, InTime, FencedRun;
    calls := Quiet(c, p, s);
  }

  lemma Reclaim(c: Config, p: Calls, now: int, n: nat, attempts: int, at: int, deadline: int) returns (calls: Calls)
    requires InTime(c, p) && Stage(c, Steps(p), now, Lone(["a"], map[], map[]), n, attempts)
    requires now <= at && deadline <= at + c.leaseTtl
    ensures InTime(c, calls) && Stage(c, Steps(calls), at, Lone([], map["a" := deadline], map[]), n + 1, attempts)
  {
    hide Run, Legal, Grips, InTime, FencedRun;
    ClaimStage(c, Steps(p), now, n, attempts, at, deadline);
    calls := QuietStage(c, p, Step(at, ClaimOp("q", 1, deadline)), at, Lone([], map["a" := deadline], map[]),
                        n + 1, attempts);
  }

  lemma EnqueueCall(c: Config) returns (p: Calls)
    ensures InTime(c, p) && Stage(c, Steps(p), 0, Lone(["a"], map[], map[]), 0, 0)
    ensures p == [Call(Step(0, EnqueueOp("a", "q", "", 0, "")), 0, 0)]
  {
    var t := EnqueueStage(c);
    p := Quiet(c, [], t[0]);
    assert Steps(p) == t;
  }

  /** A claim of the only job gives its claimer a handle. */
  lemma ClaimGrips(c: Config, p: Calls, call: Call, deadline: int)
    requires Stage(c, Steps(p), 0, Lone(["a"], map[], map[]), 0, 0) && call.step.op == ClaimOp("q", 1, deadline)
    ensures var h, grips := Handle("q", "a", 1), Grips(c, p + [call]);
            h in grips && grips[h].deadline == deadline
  {
    assert (p + [call])[..|p|] == p;
    NewHandleGrip(c, Steps(p), call.step.op);
  }

  lemma NewHandleGrip(c: Config, t: Trace, op: Op)
    requires Stage(c, t, 0, Lone(["a"], map[], map[]), 0, 0) && op.ClaimOp? && op == ClaimOp("q", 1, op.deadline)
    ensures var h := Handle("q", "a", 1); h in NewGrips(c, t, op) && NewGrips(c, t, op)[h].deadline == op.deadline
  {
    LoneClaim(Run(c, t).queues["q"], op.deadline);
    assert "a" in Claimed(Run(c, t).queues["q"], 1);
    assert NewHandle(c, t, "q", "a") == Handle("q", "a", 1);
  }

  /** Job "a" enqueued and claimed at time 0: its first handle is held. */
  lemma FirstClaim(c: Config) returns (p: Calls)
    requires c.leaseTtl > 0
    ensures InTime(c, p) && Stage(c, Steps(p), 0, Lone([], map["a" := c.leaseTtl], map[]), 1, 0)
    ensures Handle("q", "a", 1) in Grips(c, p) && Grips(c, p)[Handle("q", "a", 1)].deadline == c.leaseTtl
    ensures p == [Call(Step(0, EnqueueOp("a", "q", "", 0, "")), 0, 0),
                  Call(Step(0, ClaimOp("q", 1, c.leaseTtl)), 0, 0)]
  {
    hide Run, Legal, Grips, InTime;
    var before := EnqueueCall(c);
    var call := Call(Step(0, ClaimOp("q", 1, c.leaseTtl)), 0, 0);
    ClaimStage(c, Steps(before), 0, 0, 0, 0, c.leaseTtl);
    ClaimGrips(c, before, call, c.leaseTtl);
    p := before + [call];
    NextCall(c, before, call);
  }

  // ----- two runs ------------------------------------------------------------------------

  /** The first lease lapses, the job is reaped and claimed again, all at time leaseTtl. */
  lemma Lapsed(c: Config) returns (p: Calls)
    requires c.leaseTtl > 0 && c.drainLimit >= 1 && c.maxRetries >= 1
    ensures InTime(c, p) && Stage(c, Steps(p), c.leaseTtl, Lone([], map["a" := 2 * c.leaseTtl], map[]), 2, 1)
  {
    hide Run, Legal, Grips, InTime, FencedRun;
    var first := FirstClaim(c);
    ReapStage(c, Steps(first), 0, 1, 0, c.leaseTtl, c.leaseTtl);
    var reaped := QuietStage(c, first, Step(c.leaseTtl, ReapOp("q", c.leaseTtl)), c.leaseTtl,
                             Lone(["a"], map[], map[]), 1, 1);
    p := Reclaim(c, reaped, c.leaseTtl, 1, 1, c.leaseTtl, 2 * c.leaseTtl);
  }

  /** A renewal of the first lease, in time, at time 1. */
  lemma BeatenOnce(c: Config, p: Calls, call: Call)
    requires c.leaseTtl > 1 && InTime(c, p)
    requires Stage(c, Steps(p), 0, Lone([], map["a" := c.leaseTtl], map[]), 1, 0)
    requires Handle("q", "a", 1) in Grips(c, p) && Grips(c, p)[Handle("q", "a", 1)].deadline == c.leaseTtl
    requires call == Call(Step(1, RenewOp("q", "a", 1 + c.leaseTtl)), 1, 1)
    ensures InTime(c, p + [call])
    ensures Stage(c, Steps(p + [call]), 1, Lone([], map["a" := 1 + c.leaseTtl], map[]), 1, 0)
  {
    hide Run, Legal, Grips, InTime, FencedRun, Trails;
    RenewStage(c, Steps(p), 0, 1, 0, c.leaseTtl, 1, 1 + c.leaseTtl);
    NextCall(c, p, call);
  }

  /** The first lease is renewed in time, at time 1, and then lapses and is reaped. */
  lemma BeatenThenLapsed(c: Config) returns (p: Calls)
    requires c.leaseTtl > 1 && c.drainLimit >= 1 && c.maxRetries >= 1
    ensures InTime(c, p) && Stage(c, Steps(p), 1 + c.leaseTtl, Lone(["a"], map[], map[]), 1, 1)
    ensures |p| >= 2 && p[|p|-2] == Call(Step(1, RenewOp("q", "a", 1 + c.leaseTtl)), 1, 1)
    ensures p[|p|-1].step == Step(1 + c.leaseTtl, ReapOp("q", 1 + c.leaseTtl))
  {
    hide Run, Legal, Grips, InTime, FencedRun, Trails;
    var d := 1 + c.leaseTtl;
    var call := Call(Step(1, RenewOp("q", "a", d)), 1, 1);
    var claimed := FirstClaim(c);
    BeatenOnce(c, claimed, call);
    var beaten := claimed + [call];
    ReapStage(c, Steps(beaten), 1, 1, 0, d, d);
    p := QuietStage(c, beaten, Step(d, ReapOp("q", d)), d, Lone(["a"], map[], map[]), 1, 1);
  }

  /** An ack of the job while it is pending. */
  lemma UselessAck(c: Config, t: Trace, now: int, n: nat, attempts: int)
    requires Stage(c, t, now, Lone(["a"], map[], map[]), n, attempts)
    ensures var s := Step(now, AckOp("q", ["a"]));
            Stage(c, t + [s], now, Lone(["a"], map[], map[]), n, attempts) && Run(c, t + [s]) == Run(c, t)
  {
    var s := Step(now, AckOp("q", ["a"]));
    ReportChangesIff(c, Run(c, t), s);
    NextStage(c, t, now, Lone(["a"], map[], map[]), n, attempts, s);
    Extend(c, t, s);
  }

  /** Every handler starts at time 0. */
  function AtZero(h: Handle): int { 0 }

  /** A run on schedule: the job is claimed, renewed after one interval and acked, and a second
      renewal, sent before that, arrives last and finds nothing. */
  lemma PacedRun(c: Config, delay: int) returns (p: Calls)
    requires c.heartbeatDivisor >= 1 && delay >= 0 && Heartbeat.Interval(c) < c.leaseTtl
    ensures Legal(c, Steps(p)) && Heartbeat.Paced(c, Heartbeat.Interval(c), delay, AtZero, p)
    ensures var every := Heartbeat.Interval(c);
            p == [Call(Step(0, EnqueueOp("a", "q", "", 0, "")), 0, 0),
                  Call(Step(0, ClaimOp("q", 1, c.leaseTtl)), 0, 0),
                  Call(Step(every, RenewOp("q", "a", every + c.leaseTtl)), 1, 1),
                  Call(Step(every, AckOp("q", ["a"])), 1, 1),
                  Call(Step(every, RenewOp("q", "a", every + c.leaseTtl)), 1, 1)]
  {
    hide Run, Legal, Grips, InTime, FencedRun, Trails;
    var every := Heartbeat.Interval(c);
    var beat := Call(Step(every, RenewOp("q", "a", every + c.leaseTtl)), 1, 1);
    var ack := Call(Step(every, AckOp("q", ["a"])), 1, 1);
    var p1 := FirstClaim(c);
    PacedClaim(c, every, delay, p1);
    HeldBeat(c, every, delay, p1, beat, ack);
    PacedStep(c, every, delay, p1, beat);
    var p2 := p1 + [beat];
    PacedStep(c, every, delay, p2, ack);
    var p3 := p2 + [ack];
    TrailingBeat(c, every, delay, p3, ack, beat);
    PacedStep(c, every, delay, p3, beat);
    p := p3 + [beat];
  }

  /** The heartbeat and the ack are on schedule as long as the handle is held. */
  lemma HeldBeat(c: Config, every: int, delay: int, p: Calls, beat: Call, ack: Call)
    requires every >= 0 && delay >= 0 && Handle("q", "a", 1) in Grips(c, p)
    requires beat == Call(Step(every, RenewOp("q", "a", every + c.leaseTtl)), 1, 1)
    requires ack == Call(Step(every, AckOp("q", ["a"])), 1, 1)
    ensures Heartbeat.Beat(c, every, delay, AtZero, p, beat)
    ensures Heartbeat.Beat(c, every, delay, AtZero, p + [beat], ack)
  {
    hide Trails;
    assert (p + [beat])[..|p|] == p;
  }

  lemma TrailingBeat(c: Config, every: int, delay: int, p: Calls, ack: Call, beat: Call)
    requires p != [] && p[|p|-1] == ack && ack.step.op == AckOp("q", ["a"]) && ack.gen == beat.gen
    requires beat.step.op.RenewOp? && beat.step.op.queue == "q" && beat.step.op.id == "a"
    ensures Heartbeat.Beat(c, every, delay, AtZero, p, beat)
  {
    assert Covers(p[|p|-1], beat);
  }

  lemma PacedClaim(c: Config, every: int, delay: int, p: Calls)
    requires delay >= 0
    requires p == [Call(Step(0, EnqueueOp("a", "q", "", 0, "")), 0, 0),
                   Call(Step(0, ClaimOp("q", 1, c.leaseTtl)), 0, 0)]
    ensures Heartbeat.Paced(c, every, delay, AtZero, p)
  {
    var e: Calls := p[..1];
    assert p[..|p|-1] == e && e[..|e|-1] == [];
    assert Heartbeat.Paced(c, every, delay, AtZero, []);
    assert Heartbeat.Beat(c, every, delay, AtZero, [], e[0]);
    assert Heartbeat.Paced(c, every, delay, AtZero, e);
    assert Heartbeat.Beat(c, every, delay, AtZero, e, p[1]);
  }

  lemma PacedStep(c: Config, every: int, delay: int, p: Calls, call: Call)
    requires Heartbeat.Paced(c, every, delay, AtZero, p) && Heartbeat.Beat(c, every, delay, AtZero, p, call)
    requires Legal(c, Steps(p)) && p != [] && p[|p|-1].step.at <= call.step.at && Honest(c, call.step)
    requires IsWorkerCall(call.step.op)
    ensures Heartbeat.Paced(c, every, delay, AtZero, p + [call]) && Legal(c, Steps(p + [call]))
  {
    hide Heartbeat.Beat, InTime, Run;
    assert (p + [call])[..|p|] == p;
    StepsLast(p);
    NextCall(c, p, call);
  }

  lemma AckRemoves(c: Config, db: Db, at: int)
    requires "a" in db.queues["q"].leased
    ensures "a" !in Apply(c, db, Step(at, AckOp("q", ["a"]))).jobs
  {
    assert "a" in Acked(db.queues["q"], ["a"]);
  }

  lemma AckStage(c: Config, p: Calls, now: int, d: int, call: Call)
    requires InTime(c, p) && Stage(c, Steps(p), now, Lone([], map["a" := d], map[]), 2, 1)
    requires call == Call(Step(now, AckOp("q", ["a"])), 1, 0)
    ensures Legal(c, Steps(p + [call])) && "a" !in Run(c, Steps(p + [call])).jobs
    ensures FencedRun(c, p + [call]).db != Run(c, Steps(p + [call]))
  {
    hide Run, Legal, Apply, InTime, FencedRun;
    NextCall(c, p, call);
    ReportAgreesIff(c, p, call);
    AckRemoves(c, Run(c, Steps(p)), now);
  }

  /** Without timing the stores differ: a worker that lets its lease lapse can still ack the
      job away from the worker that claimed it next. */
  lemma StaleAckRemovesJob(c: Config) returns (p: Calls, call: Call)
    requires c.leaseTtl > 0 && c.drainLimit >= 1 && c.maxRetries >= 1
    ensures Legal(c, Steps(p + [call])) && InTime(c, p)
    ensures call.step.op == AckOp("q", ["a"]) && call.gen == 1 && Claims(c, Steps(p), "a") == 2
    ensures "a" !in Run(c, Steps(p + [call])).jobs
    ensures FencedRun(c, p + [call]).db != Run(c, Steps(p + [call]))
  {
    hide Run, Legal, Grips, InTime, FencedRun;
    p := Lapsed(c);
    call := Call(Step(c.leaseTtl, AckOp("q", ["a"])), 1, 0);
    AckStage(c, p, c.leaseTtl, 2 * c.leaseTtl, call);
  }

  /** The job claimed at time 0 and failed, in time, at time 1, to be retried at once. */
  lemma FailedOnce(c: Config) returns (p: Calls)
    requires c.leaseTtl > 10 && c.maxRetries >= 1
    ensures InTime(c, p) && Stage(c, Steps(p), 1, Lone([], map[], map["a" := 1]), 1, 1)
  {
    hide Run, Legal, Grips, InTime, FencedRun;
    var claimed := FirstClaim(c);
    var call := Call(Step(1, FailOp("q", "a", 1)), 1, 1);
    FailStage(c, Steps(claimed), 0, 1, 0, 1, c.leaseTtl);
    p := claimed + [call];
    NextCall(c, claimed, call);
  }

  lemma Requeued(c: Config) returns (p: Calls)
    requires c.leaseTtl > 10 && c.drainLimit >= 1 && c.maxRetries >= 1
    ensures InTime(c, p) && Stage(c, Steps(p), 2, Lone(["a"], map[], map[]), 1, 1)
  {
    hide Run, Legal, Grips, InTime, FencedRun;
    var failed := FailedOnce(c);
    RequeueStage(c, Steps(failed), 1, 1, 1, 2, 1);
    p := QuietStage(c, failed, Step(2, RequeueOp("q", 2)), 2, Lone(["a"], map[], map[]), 1, 1);
  }

  /** It is requeued at time 2 and claimed again at time 3. */
  lemma Reclaimed(c: Config) returns (p: Calls)
    requires c.leaseTtl > 10 && c.drainLimit >= 1 && c.maxRetries >= 1
    ensures InTime(c, p) && Stage(c, Steps(p), 3, Lone([], map["a" := 3 + c.leaseTtl], map[]), 2, 1)
  {
    hide Run, Legal, Grips, InTime, FencedRun;
    var requeued := Requeued(c);
    p := Reclaim(c, requeued, 2, 1, 1, 3, 3 + c.leaseTtl);
  }

  /** The fenced store refuses a renewal with an old token. */
  lemma FencedRefuses(c: Config, p: Calls, call: Call)
    requires Legal(c, Steps(p)) && InTime(c, p) && call.step.op.RenewOp?
    requires call.gen != Claims(c, Steps(p), call.step.op.id)
    ensures FencedRun(c, p + [call]) == FencedRun(c, p)
    ensures FencedRun(c, p).db == Run(c, Steps(p))
  {
    NextCall(c, p, call);
    FencingForFree(c, p);
    assert CalledId(call.step.op) == call.step.op.id;
    assert GenOf(FencedRun(c, p).gens, call.step.op.id) == Claims(c, Steps(p), call.step.op.id);
  }


  /** A deadline alone is not enough: a renewal in flight at a failure report must not outlive
      the retry time. Here the first worker fails the job well before its deadline, the job is
      retried and claimed again, and then a renewal the first worker had sent before failing
      reaches the store, still before that worker's deadline, and extends the second lease. */
  lemma LateRenewalExtends(c: Config) returns (p: Calls, call: Call)
    requires c.leaseTtl > 10 && c.drainLimit >= 1 && c.maxRetries >= 1
    ensures Legal(c, Steps(p + [call])) && InTime(c, p)
    ensures call == Call(Step(4, RenewOp("q", "a", 4 + c.leaseTtl)), 1, 1) && call.step.at < c.leaseTtl
    ensures Claims(c, Steps(p), "a") == 2
    ensures Run(c, Steps(p)).queues["q"].leased == map["a" := 3 + c.leaseTtl]
    ensures Run(c, Steps(p + [call])).queues["q"].leased == map["a" := 4 + c.leaseTtl]
    ensures FencedRun(c, p + [call]).db == Run(c, Steps(p))
  {
    hide Run, Legal, Grips, InTime, FencedRun;
    p := Reclaimed(c);
    call := Call(Step(4, RenewOp("q", "a", 4 + c.leaseTtl)), 1, 1);
    SnocSteps(p, call);
    FencedRefuses(c, p, call);
    RenewStage(c, Steps(p), 3, 2, 1, 3 + c.leaseTtl, 4, 4 + c.leaseTtl);
  }
}
