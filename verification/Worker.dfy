/** The SDK worker's handling of one job (process in sdk/go/cogsclient/client.go), and what the
    attempt number it echoes back means for the retry delays. */
module Worker {
  import opened Keys
  import M = Model
  import opened Lifecycle
  import Attempts
  import F = Fencing
  import Heartbeat
  import S = StaleCalls
  import Backoff
  import opened Storage
  import opened Api
  import opened Priority

  // ----- the attempt number a worker echoes ------------------------------------------------

  ghost predicate HeldSince(c: M.Config, t: M.Trace, k: nat, q: string, id: M.Id) {
    forall m | k <= m <= |t| :: Leases(c, t[..m], q, id)
  }

  lemma LeasedLook(c: M.Config, t: M.Trace, q: string, id: M.Id)
    requires M.Legal(c, t) && Leases(c, t, q, id)
    ensures id in M.Run(c, t).jobs && LeasedIn(Look(M.Run(c, t), id), q)
  {
    NoJobLostOrDuplicated(c, t);
    SoundAt(M.Run(c, t), q, id);
  }

  lemma SameLease(c: M.Config, s: M.Step, q: string, id: M.Id, v: View, v': View)
    requires Evolves(c, s, id, v, v') && LeasedIn(v, q) && LeasedIn(v', q)
    ensures v'.attempts == v.attempts
  {
  }

  /** As long as a lease is held the stored attempts do not change. */
  lemma {:induction false} HeldAttempts(c: M.Config, t: M.Trace, k: nat, q: string, id: M.Id)
    requires M.Legal(c, t) && k <= |t| && HeldSince(c, t, k, q, id)
    ensures id in M.Run(c, t).jobs && id in M.Run(c, t[..k]).jobs
    ensures M.Run(c, t).jobs[id].attempts == M.Run(c, t[..k]).jobs[id].attempts
    decreases |t|
  {
    hide M.Run, M.Legal;
    assert t[..|t|] == t;
    assert Leases(c, t[..|t|], q, id);
    LeasedLook(c, t, q, id);
    if k < |t| {
      var p := t[..|t|-1];
      Attempts.LegalPrefix(c, t, |t| - 1);
      HeldBefore(c, t, k, q, id);
      assert p[..k] == t[..k];
      HeldAttempts(c, p, k, q, id);
      assert Leases(c, t[..|p|], q, id);
      LeasedLook(c, p, q, id);
      RunEvolves(c, t, id);
      SameLease(c, t[|p|], q, id, Look(M.Run(c, p), id), Look(M.Run(c, t), id));
    }
  }

  lemma HeldBefore(c: M.Config, t: M.Trace, k: nat, q: string, id: M.Id)
    requires k < |t| && HeldSince(c, t, k, q, id)
    ensures HeldSince(c, t[..|t|-1], k, q, id)
  {
    var p := t[..|t|-1];
    forall m | k <= m <= |p| ensures Leases(c, p[..m], q, id) { assert p[..m] == t[..m]; }
  }

  /** What a worker was handed with a job stays the stored attempt count as long as the lease of
      that claim is held: the number it echoes in a failure report is the right one. */
  lemma EchoedAttempt(c: M.Config, u: M.Trace, t: M.Trace, queues: seq<string>, batch: int, deadline: int,
                      vs: seq<Visit>, jobs: seq<LeasedJob>, j: LeasedJob)
    requires M.Legal(c, u) && M.Legal(c, t) && Continues(u, t)
    requires Collected(c, u, queues, batch, deadline, vs, jobs) && j in jobs
    requires forall v, m | v in vs && HandsOut(c, v, j) && |After(v)| <= m <= |t| ::
               j.id in M.Run(c, t[..m]).queues[j.queue].leased
    ensures j.id in M.Run(c, t).jobs && M.Run(c, t).jobs[j.id].attempts == j.attempts
  {
    hide M.Run, M.Legal, HandsOut, HeldSince, Collected, After;
    var i := CollectedFrom(c, u, queues, batch, deadline, vs, jobs, j);
    var k := |After(vs[i])|;
    assert vs[i] in vs && After(vs[i]) == t[..k];
    HeldAll(c, t, k, j.queue, j.id);
    CollectedClaims(c, u, queues, batch, deadline, vs, jobs, i);
    HeldAttempts(c, t, k, j.queue, j.id);
    GrantedAttempts(c, vs[i], j);
  }

  lemma HeldAll(c: M.Config, t: M.Trace, k: nat, q: string, id: M.Id)
    requires forall m | k <= m <= |t| :: id in M.Run(c, t[..m]).queues[q].leased
    ensures HeldSince(c, t, k, q, id)
  {
    hide M.Run;
  }

  lemma CollectedClaims(c: M.Config, u: M.Trace, queues: seq<string>, batch: int, deadline: int, vs: seq<Visit>,
                        jobs: seq<LeasedJob>, i: nat)
    requires Collected(c, u, queues, batch, deadline, vs, jobs) && i < |vs|
    ensures vs[i].step.op.ClaimOp?
  {
    assert Asks(queues, batch, deadline, vs, i);
  }

  lemma GrantedAttempts(c: M.Config, v: Visit, j: LeasedJob)
    requires HandsOut(c, v, j) && v.step.op.ClaimOp?
    ensures j.id in M.Run(c, After(v)).jobs && M.Run(c, After(v)).jobs[j.id].attempts == j.attempts
  {
    Attempts.Extend(c, v.before, v.step);
  }

  /** An accepted failure report counts one attempt. */
  lemma FailCounts(c: M.Config, t: M.Trace, i: nat, q: string, id: M.Id)
    requires M.Legal(c, t) && i < |t| && t[i].op.FailOp? && t[i].op.queue == q && t[i].op.id == id
    requires Leases(c, t[..i], q, id)
    ensures id in M.Run(c, t[..i]).jobs && id in M.Run(c, t[..i + 1]).jobs
    ensures M.Run(c, t[..i + 1]).jobs[id].attempts == M.Run(c, t[..i]).jobs[id].attempts + 1
  {
    hide M.Run, M.Legal;
    var u := t[..i + 1];
    Attempts.LegalPrefix(c, t, i + 1);
    assert u[..i] == t[..i];
    LeasedLook(c, t[..i], q, id);
    RunEvolves(c, u, id);
  }

  lemma AttemptsGrow(c: M.Config, t: M.Trace, i: nat, j: nat, q: string, id: M.Id)
    requires M.Legal(c, t) && i < j < |t| && Leases(c, t[..i], q, id) && Leases(c, t[..j], q, id)
    requires t[i].op.FailOp? && t[i].op.queue == q && t[i].op.id == id
    ensures id in M.Run(c, t[..i]).jobs && id in M.Run(c, t[..j]).jobs
    ensures M.Run(c, t[..i]).jobs[id].attempts < M.Run(c, t[..j]).jobs[id].attempts
  {
    hide M.Run, M.Legal;
    var u, v := t[..i + 1], t[..j];
    FailCounts(c, t, i, q, id);
    Attempts.LegalPrefix(c, t, j);
    assert u == v[..|u|];
    NeverLess(c, u, v, q, id);
  }

  lemma NeverLess(c: M.Config, u: M.Trace, v: M.Trace, q: string, id: M.Id)
    requires M.Legal(c, v) && Continues(u, v) && id in M.Run(c, u).jobs && Leases(c, v, q, id)
    ensures id in M.Run(c, v).jobs && M.Run(c, u).jobs[id].attempts <= M.Run(c, v).jobs[id].attempts
  {
    LeasedLook(c, v, q, id);
    assert u == v[..|u|];
    Attempts.JobKept(c, v, |u|, id);
  }

  /** Of two accepted failure reports of one job that both echo the stored attempts, the later
      puts the retry at least as far from its clock sample, unless the earlier had reached the
      cap of twenty attempts. */
  lemma RetryDelaysGrow(c: M.Config, t: M.Trace, i: nat, j: nat, q: string, id: M.Id, s1: int, d1: int, s2: int,
                        d2: int)
    requires M.Legal(c, t) && i < j < |t| && Backoff.Jitter(d1) && Backoff.Jitter(d2)
    requires forall k | k in {i, j} ::
               && id in M.Run(c, t[..k]).queues[q].leased && id in M.Run(c, t[..k]).jobs
               && t[k].op.FailOp? && t[k].op.queue == q && t[k].op.id == id
    requires t[i].op.nextAt - s1 == Backoff.DelayMs(c.backoffBase, M.Run(c, t[..i]).jobs[id].attempts, d1)
    requires t[j].op.nextAt - s2 == Backoff.DelayMs(c.backoffBase, M.Run(c, t[..j]).jobs[id].attempts, d2)
    requires 0 <= c.backoffBase * 1_000_000 < 0x800_0000_0000
    requires 0 <= M.Run(c, t[..i]).jobs[id].attempts < 20
    ensures 0 <= t[i].op.nextAt - s1 <= t[j].op.nextAt - s2
  {
    hide M.Run, M.Legal;
    AttemptsGrow(c, t, i, j, q, id);
    var a, b := M.Run(c, t[..i]).jobs[id].attempts, M.Run(c, t[..j]).jobs[id].attempts;
    Backoff.DelayMsNeverShrinks(c.backoffBase, a, b, d1, d2);
  }

  // ----- process ---------------------------------------------------------------------------

  /** How process ends; `announced` says whether OnAck ran. */
  datatype Outcome = Abandoned | AckSent(status: Status, announced: bool) | FailSent(status: Status)

  /** What the answer to a report means. One to a failure tells of the lease. One to an ack
      does not: every delivered ack is announced, whether or not it removed the job. */
  ghost predicate Understood(c: M.Config, before: M.Trace, q: string, id: M.Id, report: Outcome, net: Net) {
    && (report.FailSent? ==>
          Tells(c, before, q, id, report.status) && (report.status.Broken? <==> !net.Delivered?))
    && (report.AckSent? ==> (report.status.Okay? <==> net.Delivered?) && (report.announced <==> net.Delivered?))
  }

  /** A worker that keeps its deadlines needs no telling: its ack removes the job. */
  lemma OnTimeAckRemoves(c: M.Config, p: F.Calls, call: F.Call)
    requires M.Legal(c, F.Steps(p + [call])) && F.InTime(c, p) && F.OnTime(c, p, call)
    requires call.step.op.AckOp? && |call.step.op.ids| == 1
    ensures Removes(c, F.Steps(p), call.step, call.step.op.ids[0])
  {
    hide M.Run, M.Legal, F.Grips;
    var calls, id, q := p + [call], call.step.op.ids[0], call.step.op.queue;
    assert calls[..|p|] == p;
    S.NextCall(c, p, call);
    F.AcceptedCall(c, calls);
    NoJobLostOrDuplicated(c, F.Steps(p));
    SoundAt(M.Run(c, F.Steps(p)), q, id);
    AckRemoves(c, F.Steps(p), call.step, id);
  }

  /** Any other may announce a job done that was not: a legal run in which it renews the job in
      time, the lease then lapses and is reaped, and its ack, answered 200, changes nothing;
      the job is handed out again. */
  lemma UntoldAck(c: M.Config) returns (p: F.Calls, ack: M.Step, again: M.Step)
    requires c.leaseTtl > 1 && c.drainLimit >= 1 && c.maxRetries >= 1
    ensures F.InTime(c, p) && M.Legal(c, F.Steps(p) + [ack] + [again])
    ensures |p| >= 2 && p[|p|-2] == F.Call(M.Step(1, M.RenewOp("q", "a", 1 + c.leaseTtl)), 1, 1)
    ensures p[|p|-1].step == M.Step(1 + c.leaseTtl, M.ReapOp("q", 1 + c.leaseTtl))
    ensures ack == M.Step(1 + c.leaseTtl, M.AckOp("q", ["a"]))
    ensures BatchReply(c, F.Steps(p), "q", ["a"], Delivered, Okay, 0)
    ensures Understood(c, F.Steps(p), "q", "a", AckSent(Okay, true), Delivered)
    ensures M.Run(c, F.Steps(p) + [ack]) == M.Run(c, F.Steps(p)) && "a" in M.Run(c, F.Steps(p)).jobs
    ensures Attempts.Claims(c, F.Steps(p), "a") == 1 && Attempts.Claims(c, F.Steps(p) + [ack] + [again], "a") == 2
  {
    hide M.Run, M.Legal, F.InTime, Attempts.Claims;
    p := S.BeatenThenLapsed(c);
    var d := 1 + c.leaseTtl;
    ack := M.Step(d, M.AckOp("q", ["a"]));
    again := M.Step(d, M.ClaimOp("q", 1, d + c.leaseTtl));
    S.UselessAck(c, F.Steps(p), d, 1, 1);
    S.ClaimStage(c, F.Steps(p) + [ack], d, 1, 1, d, d + c.leaseTtl);
    assert ValidQueueName("q");
  }

  /** The heartbeats of a handler that began at `start`, one every `every` milliseconds. */
  datatype Rhythm = Rhythm(start: int, every: int) {
    function Due(i: nat): int { start + (i + 1) * every }
  }

  /** The interval that the claim reply carries makes the rhythm the one under which the fencing
      results hold: heartbeat i + 1 is not sent before its time, and its server reads its clock
      after that. */
  lemma OnSchedule(c: M.Config, r: Rhythm, heartbeat: int, status: Status, t: M.Trace, m: nat, i: nat, q: string,
                   id: M.Id)
    requires c.heartbeatDivisor >= 1 && heartbeat == c.leaseTtl / c.heartbeatDivisor
    requires r.every == if heartbeat <= 0 then 1000 else heartbeat
    requires m < |t| && HeardAt(c, status, t, m, r.Due(i), q, id)
    ensures r.every == Heartbeat.Interval(c) && r.Due(i) == Heartbeat.SentAt(r.start, i + 1, Heartbeat.Interval(c))
    ensures Heartbeat.SentAt(r.start, i + 1, Heartbeat.Interval(c)) <= t[m].at
    ensures Heartbeat.SentAt(r.start, i + 1, Heartbeat.Interval(c)) <= t[m].op.deadline - c.leaseTtl
  {
  }

  /** Each heartbeat that was answered is a renewal of the job, made when it was due or later,
      to a full TTL after that, and answered by whether the lease was there. */
  ghost predicate Beaten(c: M.Config, sent: seq<Status>, net: nat -> Net, t: M.Trace, from: nat, r: Rhythm, q: string,
                         id: M.Id) {
    forall i: nat | i < |sent| && net(i).Delivered? :: Heard(c, sent[i], t, from, r.Due(i), q, id)
  }

  /** Some renewal of the job since step `from`, not before `earliest`, got this answer. */
  ghost predicate Heard(c: M.Config, status: Status, t: M.Trace, from: nat, earliest: int, q: string, id: M.Id) {
    exists m | from <= m < |t| :: HeardAt(c, status, t, m, earliest, q, id)
  }

  ghost predicate HeardAt(c: M.Config, status: Status, t: M.Trace, m: nat, earliest: int, q: string, id: M.Id)
    requires m < |t|
  {
    && t[m].op.RenewOp? && t[m].op.queue == q && t[m].op.id == id
    && earliest <= t[m].at && earliest + c.leaseTtl <= t[m].op.deadline
    && (status.Okay? ==> id in M.Run(c, t[..m]).queues[q].leased)
    && (status.Conflict? ==> id !in M.Run(c, t[..m]).queues[q].leased)
    && status in {Okay, Conflict}
  }

  /** Some renewal of the job since step `from` found no lease. */
  ghost predicate FoundGone(c: M.Config, t: M.Trace, from: nat, q: string, id: M.Id) {
    exists m | from <= m < |t| :: GoneAt(c, t, m, q, id)
  }

  ghost predicate GoneAt(c: M.Config, t: M.Trace, m: nat, q: string, id: M.Id)
    requires m < |t|
  {
    && t[m].op.RenewOp? && t[m].op.queue == q && t[m].op.id == id
    && id !in M.Run(c, t[..m]).queues[q].leased
  }

  lemma HeardLater(c: M.Config, status: Status, t: M.Trace, t': M.Trace, from: nat, earliest: int, q: string,
                   id: M.Id)
    requires Continues(t, t') && Heard(c, status, t, from, earliest, q, id)
    ensures Heard(c, status, t', from, earliest, q, id)
  {
    var m :| from <= m < |t| && HeardAt(c, status, t, m, earliest, q, id);
    assert t'[..m] == t[..m];
    assert HeardAt(c, status, t', m, earliest, q, id);
  }

  lemma BeatMore(c: M.Config, sent: seq<Status>, status: Status, net: nat -> Net, t: M.Trace, before: M.Trace,
                 t': M.Trace, from: nat, r: Rhythm, q: string, id: M.Id)
    requires Beaten(c, sent, net, t, from, r, q, id) && Continues(t, t')
    requires net(|sent|).Delivered? ==>
               && from <= |before| < |t'| && before <= t'
               && HeardAt(c, status, t', |before|, r.Due(|sent|), q, id)
    ensures Beaten(c, sent + [status], net, t', from, r, q, id)
  {
    hide HeardAt;
    var all := sent + [status];
    forall i: nat | i < |sent| + 1 && net(i).Delivered? ensures Heard(c, all[i], t', from, r.Due(i), q, id) {
      if i < |sent| { HeardLater(c, sent[i], t, t', from, r.Due(i), q, id); }
    }
  }

  /** One heartbeat, after one interval: what its answer says, and when it was due. */
  method Beat(store: Store, job: LeasedJob, every: nat, net: Net) returns (status: Status, ghost before: M.Trace)
    requires store.Valid() && ValidQueueName(job.queue)
    modifies store, store.redis
    ensures store.Valid() && Continues(old(store.trace), before) && Continues(old(store.trace), store.trace)
    ensures old(store.redis.clock) + every <= store.redis.clock
    ensures status.Broken? <==> !net.Delivered?
    ensures net.Delivered? ==>
              && |before| < |store.trace| && before <= store.trace
              && HeardAt(store.cfg, status, store.trace, |before|, old(store.redis.clock) + every, job.queue, job.id)
    ensures status.Conflict? ==> FoundGone(store.cfg, store.trace, |old(store.trace)|, job.queue, job.id)
    ensures OnlyRenews(store.trace, old(store.own), store.own, job.queue, job.id)
  {
    hide Recorded, M.Run, Tells;
    store.Sleep(every);
    ghost var own := store.own;
    status, before := HandleRenew(store, job.queue, job.id, net);
    assert store.own == Added(own, net, before);
    if !net.Lost? {
      assert store.trace[..|before|] == before;
      assert RenewsAt(store.trace, |before|, job.queue, job.id);
      assert status.Conflict? ==> GoneAt(store.cfg, store.trace, |before|, job.queue, job.id);
    }
  }

  /** The heartbeat goroutine: one renewal per interval, of a second when the server gave none,
      until one finds the lease gone. A renewal that fails for another reason is only logged. */
  method Beats(store: Store, job: LeasedJob, heartbeat: int, beats: nat, net: nat -> Net)
    returns (lost: bool, sent: seq<Status>)
    requires store.Valid() && ValidQueueName(job.queue)
    modifies store, store.redis
    ensures store.Valid() && Continues(old(store.trace), store.trace)
    ensures Beaten(store.cfg, sent, net, store.trace, |old(store.trace)|,
                   Rhythm(old(store.redis.clock), if heartbeat <= 0 then 1000 else heartbeat), job.queue, job.id)
    ensures OnlyRenews(store.trace, old(store.own), store.own, job.queue, job.id)
    ensures lost <==> Conflict in sent
    ensures lost ==> FoundGone(store.cfg, store.trace, |old(store.trace)|, job.queue, job.id)
    ensures !lost ==> |sent| == beats
    ensures store.redis.clock
            >= old(store.redis.clock) + |sent| * (if heartbeat <= 0 then 1000 else heartbeat)
  {
    hide Recorded, M.Run, Tells, HeardAt, OnlyRenews;
    var every := if heartbeat <= 0 then 1000 else heartbeat;
    ghost var r := Rhythm(store.redis.clock, every);
    sent := [];
    NoRenews(store.trace, store.own, job.queue, job.id);
    while |sent| < beats
      invariant |sent| <= beats && Conflict !in sent
      invariant store.Valid() && Continues(old(store.trace), store.trace)
      invariant Beaten(store.cfg, sent, net, store.trace, |old(store.trace)|, r, job.queue, job.id)
      invariant store.redis.clock >= r.start + |sent| * every
      invariant OnlyRenews(store.trace, old(store.own), store.own, job.queue, job.id)
      decreases beats - |sent|
    {
      ghost var t, own, now := store.trace, store.own, store.redis.clock;
      var status, before := Beat(store, job, every, net(|sent|));
      RenewsLater(t, store.trace, old(store.own), own, job.queue, job.id);
      RenewsMore(store.trace, old(store.own), own, store.own, job.queue, job.id);
      assert r.Due(|sent|) == r.start + |sent| * every + every <= now + every;
      if net(|sent|).Delivered? {
        Sooner(store.cfg, status, store.trace, |before|, now + every, r.Due(|sent|), job.queue, job.id);
      }
      BeatMore(store.cfg, sent, status, net, t, before, store.trace, |old(store.trace)|, r, job.queue, job.id);
      sent := sent + [status];
      if status == Conflict {
        GoneSince(store.cfg, store.trace, |t|, |old(store.trace)|, job.queue, job.id);
        return true, sent;
      }
    }
    return false, sent;
  }

  lemma Sooner(c: M.Config, status: Status, t: M.Trace, m: nat, at: int, earliest: int, q: string, id: M.Id)
    requires m < |t| && earliest <= at && HeardAt(c, status, t, m, at, q, id)
    ensures HeardAt(c, status, t, m, earliest, q, id)
  {
  }

  lemma GoneSince(c: M.Config, t: M.Trace, from: nat, earlier: nat, q: string, id: M.Id)
    requires earlier <= from && FoundGone(c, t, from, q, id)
    ensures FoundGone(c, t, earlier, q, id)
  {
  }

  lemma NoRenews(t: M.Trace, own: set<nat>, q: string, id: M.Id)
    ensures OnlyRenews(t, own, own, q, id)
  {
  }

  /** The own steps added are all renewals of the job. */
  ghost predicate OnlyRenews(t: M.Trace, own: set<nat>, own': set<nat>, q: string, id: M.Id) {
    forall k | k in own' - own :: RenewsAt(t, k, q, id)
  }

  predicate RenewsAt(t: M.Trace, k: nat, q: string, id: M.Id) {
    k < |t| && t[k].op.RenewOp? && t[k].op.queue == q && t[k].op.id == id
  }

  lemma RenewsLater(t: M.Trace, t': M.Trace, own: set<nat>, own': set<nat>, q: string, id: M.Id)
    requires Continues(t, t') && OnlyRenews(t, own, own', q, id)
    ensures OnlyRenews(t', own, own', q, id)
  {
    forall k | k in own' - own ensures RenewsAt(t', k, q, id) { assert RenewsAt(t, k, q, id); }
  }

  lemma RenewsMore(t: M.Trace, own: set<nat>, own1: set<nat>, own2: set<nat>, q: string, id: M.Id)
    requires OnlyRenews(t, own, own1, q, id) && OnlyRenews(t, own1, own2, q, id)
    ensures OnlyRenews(t, own, own2, q, id)
  {
    forall k | k in own2 - own ensures RenewsAt(t, k, q, id) {
      assert k in own1 - own || k in own2 - own1;
    }
  }

  lemma RenewsBut(t: M.Trace, own: set<nat>, own': set<nat>, p: nat, q: string, id: M.Id)
    requires OnlyRenews(t, own, own', q, id)
    ensures OnlyRenews(t, own + {p}, own' + {p}, q, id)
  {
    forall k | k in (own' + {p}) - (own + {p}) ensures RenewsAt(t, k, q, id) { assert k in own' - own; }
  }

  /** Renewals that run as the handler has ended; their answers come too late to be heard. */
  method Land(store: Store, job: LeasedJob, flights: seq<Net>)
    requires store.Valid() && ValidQueueName(job.queue)
    modifies store, store.redis
    ensures store.Valid() && Continues(old(store.trace), store.trace)
    ensures old(store.redis.clock) <= store.redis.clock
    ensures flights == [] ==> store.trace == old(store.trace) && store.own == old(store.own)
    ensures Arrives(flights) ==> Landed(store.trace, |old(store.trace)|, job.queue, job.id)
    ensures OnlyRenews(store.trace, old(store.own), store.own, job.queue, job.id)
  {
    hide Recorded, M.Run, Tells;
    for i := 0 to |flights|
      invariant store.Valid() && Continues(old(store.trace), store.trace)
      invariant old(store.redis.clock) <= store.redis.clock
      invariant i == 0 ==> store.trace == old(store.trace) && store.own == old(store.own)
      invariant Arrives(flights[..i]) ==> Landed(store.trace, |old(store.trace)|, job.queue, job.id)
      invariant OnlyRenews(store.trace, old(store.own), store.own, job.queue, job.id)
    {
      ghost var t, own := store.trace, store.own;
      var status, before := HandleRenew(store, job.queue, job.id, flights[i]);
      LandMore(t, before, store.trace, |old(store.trace)|, old(store.own), own, store.own, flights, i, job.queue,
               job.id);
    }
    assert flights[..|flights|] == flights;
  }

  /** Some request of these reaches the store. */
  predicate Arrives(flights: seq<Net>) { exists net | net in flights :: !net.Lost? }

  lemma LandMore(t: M.Trace, before: M.Trace, t': M.Trace, from: nat, own: set<nat>, own1: set<nat>, own2: set<nat>,
                 flights: seq<Net>, i: nat, q: string, id: M.Id)
    requires i < |flights| && from <= |t| && Continues(t, before) && Continues(t, t')
    requires Arrives(flights[..i]) ==> Landed(t, from, q, id)
    requires OnlyRenews(t, own, own1, q, id) && own2 == Added(own1, flights[i], before)
    requires !flights[i].Lost? ==> RenewsAt(t', |before|, q, id)
    ensures Arrives(flights[..i + 1]) ==> Landed(t', from, q, id)
    ensures OnlyRenews(t', own, own2, q, id)
  {
    assert flights[..i + 1] == flights[..i] + [flights[i]];
    RenewsLater(t, t', own, own1, q, id);
    RenewsMore(t', own, own1, own2, q, id);
    if Arrives(flights[..i]) {
      var m: nat :| from <= m && RenewsAt(t, m, q, id);
      assert RenewsAt(t', m, q, id);
    }
  }

  /** Some step since `from` renews the job. */
  ghost predicate Landed(t: M.Trace, from: nat, q: string, id: M.Id) {
    exists m: nat | from <= m :: RenewsAt(t, m, q, id)
  }

  /** What a report that was sent and reached the store did: an ack took the job away, and a
      failure gave it one more attempt and sent it to wait or to the dead, if it was leased in
      that queue; otherwise neither changed anything. */
  ghost predicate TakesEffect(c: M.Config, t: M.Trace, t': M.Trace, q: string, id: M.Id, succeeds: bool) {
    var db, db' := M.Run(c, t), M.Run(c, t');
    if id !in db.queues[q].leased then db' == db
    else if succeeds then id in db.jobs && id !in db'.jobs
    else
      && id in db.jobs && id in db'.jobs && db'.jobs[id].attempts == db.jobs[id].attempts + 1
      && id !in db'.queues[q].leased
      && (if db'.jobs[id].attempts > c.maxRetries then id in db'.queues[q].dead else id in db'.queues[q].retry)
  }

  lemma AckTakesEffect(c: M.Config, t: M.Trace, s: M.Step, q: string, id: M.Id)
    requires M.Legal(c, t + [s]) && s.op == M.AckOp(q, [id])
    ensures TakesEffect(c, t, t + [s], q, id, true)
  {
    Attempts.Extend(c, t, s);
    AckRemoves(c, t, s, id);
    if id !in M.Run(c, t).queues[q].leased { AckNothing(c, t, s); }
  }

  lemma FailTakesEffect(c: M.Config, t: M.Trace, s: M.Step, q: string, id: M.Id)
    requires M.Legal(c, t + [s]) && s.op.FailOp? && s.op.queue == q && s.op.id == id
    ensures TakesEffect(c, t, t + [s], q, id, false)
  {
    hide M.Run, M.Legal;
    EndingMeans(c, t, s);
  }

  /** One job: heartbeats while the handler runs, `beats` of them unless one is refused; then
      exactly one of three ends. It abandons the job exactly when a heartbeat was answered that
      the lease is gone; otherwise it sends an ack when the handler succeeded, and a failure
      echoing the attempts handed out with the job when it did not. Heartbeats in flight or
      still sent at that moment change nothing of this, and reach the store before the report
      (`early`) or after it (`late`). `reported` is the run right after the report. */
  method Process(store: Store, job: LeasedJob, heartbeat: int, beats: nat, succeeds: bool, draw: int,
                 net: nat -> Net, early: seq<Net>, late: seq<Net>, last: Net)
    returns (report: Outcome, sent: seq<Status>, ghost sampled: int, ghost before: M.Trace, ghost reported: M.Trace)
    requires store.Valid() && Backoff.Jitter(draw) && ValidQueueName(job.queue)
    modifies store, store.redis
    ensures store.Valid() && Continues(old(store.trace), before) && Continues(reported, store.trace)
    ensures Beaten(store.cfg, sent, net, reported, |old(store.trace)|,
                   Rhythm(old(store.redis.clock), if heartbeat <= 0 then 1000 else heartbeat), job.queue, job.id)
    ensures report.Abandoned? <==> Conflict in sent
    ensures report.Abandoned? ==> FoundGone(store.cfg, reported, |old(store.trace)|, job.queue, job.id)
    ensures report.Abandoned? ==> OnlyRenews(store.trace, old(store.own), store.own, job.queue, job.id)
    ensures !report.Abandoned? ==>
              && |sent| == beats && (report.AckSent? <==> succeeds)
              && Understood(store.cfg, before, job.queue, job.id, report, last)
              && OnlyRenews(store.trace, Added(old(store.own), last, before), store.own, job.queue, job.id)
    ensures !report.Abandoned? && last.Lost? ==> reported == before
    ensures !report.Abandoned? && !last.Lost? ==>
              && |reported| == |before| + 1 && before <= reported && old(store.redis.clock) <= sampled
              && (succeeds ==> reported[|before|].op == M.AckOp(job.queue, [job.id]))
              && (!succeeds ==>
                    && reported[|before|].op.FailOp? && reported[|before|].op.queue == job.queue
                    && reported[|before|].op.id == job.id
                    && RetriesWithin(reported[|before|].op, sampled, store.cfg.backoffBase, job.attempts))
              && TakesEffect(store.cfg, before, reported, job.queue, job.id, succeeds)
    ensures !report.Abandoned? && late == [] ==> store.trace == reported
    ensures !report.Abandoned? && Arrives(late) ==> Landed(store.trace, |reported|, job.queue, job.id)
  {
    hide Recorded, M.Run, Tells, Beaten, OnlyRenews, Landed, Arrives, Understood, TakesEffect, FoundGone, RetriesWithin;
    ghost var own, r := store.own, Rhythm(store.redis.clock, if heartbeat <= 0 then 1000 else heartbeat);
    var lost;
    lost, sent := Beats(store, job, heartbeat, beats, net);
    ghost var t := store.trace;
    before, reported, sampled := t, t, store.redis.clock;
    if lost {
      return Abandoned, sent, sampled, before, reported;
    }
    ghost var own1 := store.own;
    Land(store, job, early);
    ghost var t2, own2 := store.trace, store.own;
    report, sampled, before := Report(store, job, succeeds, draw, last);
    reported := store.trace;
    ghost var own3 := store.own;
    BeatenLater(store.cfg, sent, net, t, reported, |old(store.trace)|, r, job.queue, job.id);
    Land(store, job, late);
    AllRenews(t, t2, reported, store.trace, own, own1, own2, own3, store.own, last, before, job.queue, job.id);
  }

  lemma AllRenews(t1: M.Trace, t2: M.Trace, t3: M.Trace, t4: M.Trace,
                  own: set<nat>, own1: set<nat>, own2: set<nat>, own3: set<nat>, own4: set<nat>,
                  net: Net, before: M.Trace, q: string, id: M.Id)
    requires Continues(t1, t2) && Continues(t2, t3) && Continues(t3, t4)
    requires OnlyRenews(t1, own, own1, q, id) && OnlyRenews(t2, own1, own2, q, id)
    requires own3 == Added(own2, net, before) && OnlyRenews(t4, own3, own4, q, id)
    ensures OnlyRenews(t4, Added(own, net, before), own4, q, id)
  {
    hide OnlyRenews;
    RenewsLater(t1, t2, own, own1, q, id);
    RenewsMore(t2, own, own1, own2, q, id);
    RenewsLater(t2, t4, own, own2, q, id);
    RenewsBut(t4, own, own2, |before|, q, id);
    RenewsMore(t4, Added(own, net, before), own3, own4, q, id);
  }

  /** The one report of a job that was not abandoned. */
  method Report(store: Store, job: LeasedJob, succeeds: bool, draw: int, net: Net)
    returns (report: Outcome, ghost sampled: int, ghost before: M.Trace)
    requires store.Valid() && Backoff.Jitter(draw) && ValidQueueName(job.queue)
    modifies store, store.redis
    ensures store.Valid() && Continues(old(store.trace), before) && Continues(old(store.trace), store.trace)
    ensures !report.Abandoned? && (report.AckSent? <==> succeeds) && sampled == old(store.redis.clock)
    ensures Understood(store.cfg, before, job.queue, job.id, report, net)
    ensures net.Lost? ==> store.trace == before
    ensures !net.Lost? ==>
              && |store.trace| == |before| + 1 && before <= store.trace
              && (succeeds ==> store.trace[|before|].op == M.AckOp(job.queue, [job.id]))
              && (!succeeds ==>
                    && store.trace[|before|].op.FailOp? && store.trace[|before|].op.queue == job.queue
                    && store.trace[|before|].op.id == job.id
                    && RetriesWithin(store.trace[|before|].op, sampled, store.cfg.backoffBase, job.attempts))
              && TakesEffect(store.cfg, before, store.trace, job.queue, job.id, succeeds)
    ensures store.own == Added(old(store.own), net, before)
  {
    hide M.Run, M.Legal, Tells, TakesEffect, RetriesWithin;
    sampled := store.redis.clock;
    var status, acked, ending;
    if succeeds {
      status, acked, before := HandleAckBatch(store, job.queue, [job.id], net);
      if !net.Lost? { AckTakesEffect(store.cfg, before, store.trace[|before|], job.queue, job.id); }
      return AckSent(status, status in {Okay, Conflict}), sampled, before;
    }
    status, ending, before := HandleFail(store, job.queue, job.id, job.attempts, draw, net);
    DelayWithin(job.queue, job.id, sampled, store.cfg.backoffBase, job.attempts, draw);
    if !net.Lost? { FailTakesEffect(store.cfg, before, store.trace[|before|], job.queue, job.id); }
    return FailSent(status), sampled, before;
  }

  lemma BeatenLater(c: M.Config, sent: seq<Status>, net: nat -> Net, t: M.Trace, t': M.Trace, from: nat, r: Rhythm,
                    q: string, id: M.Id)
    requires Beaten(c, sent, net, t, from, r, q, id) && Continues(t, t')
    ensures Beaten(c, sent, net, t', from, r, q, id)
  {
    hide HeardAt;
    forall i: nat | i < |sent| && net(i).Delivered? ensures Heard(c, sent[i], t', from, r.Due(i), q, id) {
      HeardLater(c, sent[i], t, t', from, r.Due(i), q, id);
    }
  }
}
