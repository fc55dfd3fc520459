/** No early revocation and no early retry, whatever the reapers' clocks say. */
module Leases {
  import opened Ranking
  import opened Model
  import opened Lifecycle
  import opened Attempts
  import opened Draining

  /** The job is leased in q with a deadline no earlier than d. */
  predicate LeasedUntil(v: View, q: string, d: int) { LeasedIn(v, q) && v.spot.deadline >= d }

  /** The step neither acks nor fails the job in q nor renews it to before d. */
  predicate Spares(s: Step, q: string, id: Id, d: int) {
    match s.op
    case AckOp(queue, ids) => queue != q || id !in ids
    case FailOp(queue, i, _) => queue != q || i != id
    case RenewOp(queue, i, deadline) => queue != q || i != id || deadline >= d
    case _ => true
  }

  lemma StepKeepsLease(c: Config, s: Step, id: Id, v: View, v': View, q: string, d: int)
    requires Evolves(c, s, id, v, v') && Honest(c, s)
    requires LeasedUntil(v, q, d) && s.at < d && Spares(s, q, id, d)
    ensures LeasedUntil(v', q, d) && v'.attempts == v.attempts
  {
  }

  /** Once a claim or renewal has set deadline d, a run that stays before time d can end the
      lease only by an ack or a fail of that job, provided no renewal of it is executed with
      an earlier deadline. Reapers may pass any stale clock. */
  lemma {:induction false} NoEarlyRevocation(c: Config, t: Trace, k: nat, q: string, id: Id, d: int)
    requires Legal(c, t) && k <= |t|
    requires LeasedUntil(Look(Run(c, t[..k]), id), q, d)
    requires forall i | k <= i < |t| :: t[i].at < d && Spares(t[i], q, id, d)
    ensures LeasedUntil(Look(Run(c, t), id), q, d)
    ensures Look(Run(c, t), id).attempts == Look(Run(c, t[..k]), id).attempts
    decreases |t|
  {
    if k == |t| {
      assert t[..k] == t;
    } else {
      var p, s := t[..|t|-1], t[|t|-1];
      assert p[..k] == t[..k];
      assert forall i | k <= i < |p| :: p[i] == t[i];
      NoEarlyRevocation(c, p, k, q, id, d);
      RunEvolves(c, t, id);
      StepKeepsLease(c, s, id, Look(Run(c, p), id), Look(Run(c, t), id), q, d);
    }
  }

  /** A failed job stays in the retry set until its retry time: no step before that makes it
      pending or claims it, whatever clock the retry drains pass. */
  lemma {:induction false} NoEarlyRetry(c: Config, t: Trace, k: nat, q: string, id: Id, d: int)
    requires Legal(c, t) && k <= |t|
    requires var v := Look(Run(c, t[..k]), id); v.Present? && v.queue == q && v.spot == InRetry(d)
    requires forall i | k <= i < |t| :: t[i].at < d
    ensures Look(Run(c, t), id) == Look(Run(c, t[..k]), id)
    ensures Claims(c, t, id) == Claims(c, t[..k], id)
    decreases |t|
  {
    if k == |t| {
      assert t[..k] == t;
    } else {
      var p, s := t[..|t|-1], t[|t|-1];
      assert p[..k] == t[..k];
      assert forall i | k <= i < |p| :: p[i] == t[i];
      NoEarlyRetry(c, p, k, q, id, d);
      RunEvolves(c, t, id);
      ClaimCounts(c, Run(c, p), s, id);
    }
  }

  // ----- a lagging renewal shortens a lease ----------------------------------------------

  /** An enqueued job, claimed at time 0: the shortest run with a lease. */
  lemma ClaimedRun(c: Config, id: Id, q: string, deadline: int) returns (t: Trace)
    requires deadline <= c.leaseTtl
    ensures Legal(c, t) && t != [] && t[|t|-1].at == 0
    ensures Run(c, t).queues[q].leased == map[id := deadline] && Run(c, t).queues[q].retry == map[]
    ensures Look(Run(c, t), id) == Present(q, 0, InLeased(deadline))
    ensures Run(c, t).queues[q].pending == []
  {
    var s1, s2 := Step(0, EnqueueOp(id, q, "", 0, "")), Step(0, ClaimOp(q, 1, deadline));
    Extend(c, [], s1);
    var db1 := Run(c, [] + [s1]);
    assert db1 == Enqueue(EMPTY_DB, c.window, 0, id, q, "", 0, "");
    assert db1.queues[q] == Queue([id], map[], map[], []);
    Extend(c, [] + [s1], s2);
    t := [] + [s1] + [s2];
    assert Claimed(db1.queues[q], 1) == [id];
    assert Members([id]) == {id};
    assert Run(c, t).queues[q] == Queue([], map[id := deadline], map[], []);
  }

  /** Renewals are scripts like any other: one that runs later wins, whatever it writes. */
  lemma RenewedRun(c: Config, t: Trace, id: Id, q: string, at: int, deadline: int)
    requires Legal(c, t) && t != [] && t[|t|-1].at <= at && deadline <= at + c.leaseTtl
    requires id in Run(c, t).queues[q].leased && LeasedIn(Look(Run(c, t), id), q)
    ensures var t' := t + [Step(at, RenewOp(q, id, deadline))];
            && Legal(c, t')
            && Run(c, t').queues[q] == Run(c, t).queues[q].(leased := Run(c, t).queues[q].leased[id := deadline])
            && Look(Run(c, t'), id) == Look(Run(c, t), id).(spot := InLeased(deadline))
  {
    Extend(c, t, Step(at, RenewOp(q, id, deadline)));
  }

  /** When the only lease of a queue is due, a reap ends it. */
  lemma ReapedRun(c: Config, t: Trace, id: Id, q: string, at: int, d: int)
    requires Legal(c, t) && t != [] && t[|t|-1].at <= at && d <= at && c.drainLimit >= 1
    requires Run(c, t).queues[q].leased == map[id := d]
    ensures var t' := t + [Step(at, ReapOp(q, at))];
            && Legal(c, t')
            && Look(Run(c, t), id).Present?
            && Look(Run(c, t'), id) == Counted(c.maxRetries, Look(Run(c, t), id), InPending)
  {
    var db, s := Run(c, t), Step(at, ReapOp(q, at));
    var due := Due(db.queues[q].leased, at, c.drainLimit);
    Extend(c, t, s);
    NoJobLostOrDuplicated(c, t);
    FirstDue(db.queues[q].leased, at, c.drainLimit, id);
    assert due[0] in due && due[0] == id;
    SoundAt(db, q, id);
    ApplyReap(c, db, s);
    ReapEvolves(db, c.maxRetries, q, due, q, id);
  }

  /** Without that proviso the promise fails. In this legal run a renewal reports deadline 15
      at time 5; a second renewal, whose server read its clock at time 1, runs at time 6 and
      writes 11; nobody acks or fails the job, and it is reaped at time 12. */
  lemma LaggingRenewalRevokes(c: Config) returns (before: Trace, t: Trace)
    requires c.leaseTtl == 10 && c.drainLimit >= 1
    ensures t == before + [Step(6, RenewOp("q", "a", 11))] + [Step(12, ReapOp("q", 12))]
    ensures Legal(c, t) && before != [] && before[|before|-1] == Step(5, RenewOp("q", "a", 15))
    ensures LeasedUntil(Look(Run(c, before), "a"), "q", 15)
    ensures Look(Run(c, t), "a") == Counted(c.maxRetries, Present("q", 0, InLeased(11)), InPending)
  {
    var lagging;
    before, lagging := LaggingRun(c);
    ReapedRun(c, lagging, "a", "q", 12, 11);
    t := lagging + [Step(12, ReapOp("q", 12))];
  }

  lemma RenewedClaim(c: Config) returns (t: Trace)
    requires c.leaseTtl == 10
    ensures Legal(c, t) && t != [] && t[|t|-1] == Step(5, RenewOp("q", "a", 15))
    ensures Run(c, t).queues["q"].leased == map["a" := 15]
    ensures Look(Run(c, t), "a") == Present("q", 0, InLeased(15))
  {
    var claimed := ClaimedRun(c, "a", "q", 10);
    RenewedRun(c, claimed, "a", "q", 5, 15);
    t := claimed + [Step(5, RenewOp("q", "a", 15))];
  }

  lemma Overwritten(id: Id, x: int, y: int)
    ensures map[id := x][id := y] == map[id := y]
  {
  }

  lemma LaggingRun(c: Config) returns (before: Trace, t: Trace)
    requires c.leaseTtl == 10
    ensures t == before + [Step(6, RenewOp("q", "a", 11))]
    ensures Legal(c, t) && before != [] && before[|before|-1] == Step(5, RenewOp("q", "a", 15))
    ensures Look(Run(c, before), "a") == Present("q", 0, InLeased(15))
    ensures Run(c, t).queues["q"].leased == map["a" := 11]
    ensures Look(Run(c, t), "a") == Present("q", 0, InLeased(11))
  {
    before := RenewedClaim(c);
    RenewedRun(c, before, "a", "q", 6, 11);
    Overwritten("a", 15, 11);
    t := before + [Step(6, RenewOp("q", "a", 11))];
  }

  // ----- exactly when a lease can be revoked early ---------------------------------------

  /** From step k on everything runs before time d and spares the lease: any claims, reaps,
      drains, renewals to d or later, and reports on other jobs, by anyone with any clock. */
  predicate SparedSince(t: Trace, k: nat, q: string, id: Id, d: int) {
    forall i | k <= i < |t| :: t[i].at < d && Spares(t[i], q, id, d)
  }

  /** From step k on, only reaps of queue q, all before time d. */
  predicate ReapsSince(t: Trace, k: nat, q: string, d: int) {
    forall i | k <= i < |t| :: t[i].op.ReapOp? && t[i].op.queue == q && t[i].at < d
  }

  lemma ReapStep(c: Config, t: Trace, q: string, at: int)
    requires Legal(c, t) && (t != [] ==> t[|t|-1].at <= at)
    ensures var z := Run(c, t).queues[q].leased;
            var t' := t + [Step(at, ReapOp(q, at))];
            && Legal(c, t') && t'[|t'|-1].at == at
            && Run(c, t').queues[q].leased == z - Members(Due(z, at, c.drainLimit))
  {
    Extend(c, t, Step(at, ReapOp(q, at)));
    ApplyReap(c, Run(c, t), Step(at, ReapOp(q, at)));
  }

  /** Reaping often enough at a time when a lease is due ends it. */
  lemma {:induction false} ReapedEventually(c: Config, t: Trace, k: nat, q: string, id: Id, at: int) returns (u: Trace)
    requires Legal(c, t) && k <= |t| && t != [] && t[|t|-1].at <= at && c.drainLimit >= 1
    requires ReapsSince(t, k, q, at + 1)
    requires id in Run(c, t).queues[q].leased && Run(c, t).queues[q].leased[id] <= at
    ensures k <= |u| && u[..k] == t[..k] && Legal(c, u) && ReapsSince(u, k, q, at + 1)
    ensures id !in Run(c, u).queues[q].leased
    decreases |AheadOf(Run(c, t).queues[q].leased, id)|
  {
    hide Legal, Run;
    var z := Run(c, t).queues[q].leased;
    u := t + [Step(at, ReapOp(q, at))];
    ReapStep(c, t, q, at);
    assert u[..k] == t[..k];
    if id !in Due(z, at, c.drainLimit) {
      ReapAhead(z, at, c.drainLimit, id);
      u := ReapedEventually(c, u, k, q, id, at);
    }
  }

  /** `u` continues `t` before time d without an ack or a fail of the job or a renewal of it
      to before d, and the lease is gone all the same. */
  ghost predicate EndsLease(c: Config, t: Trace, u: Trace, q: string, id: Id, d: int) {
    && |t| <= |u| && u[..|t|] == t && Legal(c, u) && SparedSince(u, |t|, q, id, d)
    && id !in Run(c, u).queues[q].leased
  }

  ghost predicate Revocable(c: Config, t: Trace, q: string, id: Id, d: int) {
    exists u :: EndsLease(c, t, u, q, id, d)
  }

  lemma NotRevocable(c: Config, t: Trace, u: Trace, q: string, id: Id, d: int)
    requires LeasedUntil(Look(Run(c, t), id), q, d)
    ensures !EndsLease(c, t, u, q, id, d)
  {
    if EndsLease(c, t, u, q, id, d) {
      hide Run, Legal;
      NoEarlyRevocation(c, u, |t|, q, id, d);
      StillLeased(c, u, q, id, d);
    }
  }

  lemma StillLeased(c: Config, t: Trace, q: string, id: Id, d: int)
    requires Legal(c, t) && LeasedUntil(Look(Run(c, t), id), q, d)
    ensures id in Run(c, t).queues[q].leased
  {
  }

  lemma LeasedLook(c: Config, t: Trace, q: string, id: Id)
    requires Legal(c, t) && id in Run(c, t).queues[q].leased
    ensures LeasedUntil(Look(Run(c, t), id), q, Run(c, t).queues[q].leased[id])
  {
    NoJobLostOrDuplicated(c, t);
    SoundAt(Run(c, t), q, id);
  }

  /** Among all continuations before time d without an ack or a fail of the job, or a renewal
      of it to before d, some ends the lease if and only if its score is below d now. */
  lemma RevocableIff(c: Config, t: Trace, q: string, id: Id, d: int)
    requires Legal(c, t) && t != [] && t[|t|-1].at < d && c.drainLimit >= 1
    requires id in Run(c, t).queues[q].leased
    ensures Revocable(c, t, q, id, d) <==> Run(c, t).queues[q].leased[id] < d
  {
    hide Run, Legal, EndsLease;
    var score := Run(c, t).queues[q].leased[id];
    if score < d {
      var u := EndedBefore(c, t, q, id, d);
      assert EndsLease(c, t, u, q, id, d);
    } else {
      LeasedLook(c, t, q, id);
      forall u ensures !EndsLease(c, t, u, q, id, d) { NotRevocable(c, t, u, q, id, d); }
    }
  }

  lemma EndedBefore(c: Config, t: Trace, q: string, id: Id, d: int) returns (u: Trace)
    requires Legal(c, t) && t != [] && t[|t|-1].at < d && c.drainLimit >= 1
    requires id in Run(c, t).queues[q].leased && Run(c, t).queues[q].leased[id] < d
    ensures EndsLease(c, t, u, q, id, d)
  {
    hide Run, Legal;
    var score := Run(c, t).queues[q].leased[id];
    var at := if score < t[|t|-1].at then t[|t|-1].at else score;
    u := ReapedEventually(c, t, |t|, q, id, at);
    assert u[..|t|] == t;
  }

  /** The one thing that breaks a reported deadline d while the job is neither acked nor
      failed: a lease that is safe until d stops being so exactly by a renewal that writes
      less than d. */
  lemma RenewalShortensIff(c: Config, t: Trace, s: Step, q: string, id: Id, d: int)
    requires Legal(c, t + [s]) && t != [] && s.at < d && c.drainLimit >= 1
    requires s.op.RenewOp? && s.op.queue == q && s.op.id == id
    requires id in Run(c, t).queues[q].leased && !Revocable(c, t, q, id, d)
    ensures Revocable(c, t + [s], q, id, d) <==> s.op.deadline < d
  {
    var u := t + [s];
    Extend(c, t, s);
    assert Run(c, u).queues[q].leased[id] == s.op.deadline;
    RevocableIff(c, u, q, id, d);
  }

  /** No other step does: a lease that is safe until d stays so over any step before d that is
      no ack, fail or renewal of the job. */
  lemma OthersKeepPromise(c: Config, t: Trace, s: Step, q: string, id: Id, d: int)
    requires Legal(c, t + [s]) && t != [] && s.at < d && c.drainLimit >= 1 && Spares(s, q, id, d)
    requires id in Run(c, t).queues[q].leased && !Revocable(c, t, q, id, d)
    ensures id in Run(c, t + [s]).queues[q].leased && !Revocable(c, t + [s], q, id, d)
  {
    hide Run, Legal, Revocable;
    var u := t + [s];
    Extend(c, t, s);
    assert u[..|t|] == t;
    InTimeOrder(c, t, s);
    RevocableIff(c, t, q, id, d);
    LeasedLook(c, t, q, id);
    NoEarlyRevocation(c, u, |t|, q, id, d);
    StillLeased(c, u, q, id, d);
    RevocableIff(c, u, q, id, d);
  }

  lemma InTimeOrder(c: Config, t: Trace, s: Step)
    requires Legal(c, t + [s]) && t != []
    ensures t[|t|-1].at <= s.at
  {
    Extend(c, t, s);
  }
}
