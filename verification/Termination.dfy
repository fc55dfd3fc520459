/** Poison jobs terminate: with no new jobs and no renewals every job of a queue ends up
    acknowledged or dead, under any interleaving in which the background loops and some worker
    keep turning. */
module Termination {
  import opened Ranking
  import opened Model
  import opened Lifecycle
  import opened Accounting
  import opened Attempts
  import opened Draining

  // ----- the moves the jobs of a queue have left -------------------------------------------

  function PotentialSum(m: nat, db: Db, ids: seq<Id>): int {
    if ids == [] then 0
    else PotentialSum(m, db, ids[..|ids|-1]) + Potential(m, Look(db, ids[|ids|-1]))
  }

  lemma {:induction false} SumSpends(m: nat, db: Db, db': Db, ids: seq<Id>)
    requires forall id | id in ids :: Potential(m, Look(db', id)) <= Potential(m, Look(db, id))
    ensures PotentialSum(m, db', ids) <= PotentialSum(m, db, ids)
    ensures (exists id | id in ids :: Potential(m, Look(db', id)) < Potential(m, Look(db, id)))
            ==> PotentialSum(m, db', ids) < PotentialSum(m, db, ids)
  {
    if ids != [] {
      var n := |ids| - 1;
      assert ids == ids[..n] + [ids[n]];
      SumSpends(m, db, db', ids[..n]);
    }
  }

  lemma {:induction false} SumNonNegative(m: nat, db: Db, ids: seq<Id>)
    requires forall id | id in ids :: Potential(m, Look(db, id)) >= 0
    ensures PotentialSum(m, db, ids) >= 0
  {
    if ids != [] {
      assert ids[|ids|-1] in ids;
      SumNonNegative(m, db, ids[..|ids|-1]);
    }
  }

  lemma {:induction false} SumPositive(m: nat, db: Db, ids: seq<Id>, id: Id)
    requires forall x | x in ids :: Potential(m, Look(db, x)) >= 0
    requires PotentialSum(m, db, ids) <= 0 && id in ids
    ensures Potential(m, Look(db, id)) == 0
  {
    var n := |ids| - 1;
    assert ids == ids[..n] + [ids[n]];
    SumNonNegative(m, db, ids[..n]);
    assert Potential(m, Look(db, ids[n])) >= 0;
    if id in ids[..n] { SumPositive(m, db, ids[..n], id); }
  }

  lemma {:induction false} SumBounded(m: nat, db: Db, ids: seq<Id>, most: nat)
    requires forall id | id in ids :: Potential(m, Look(db, id)) <= most
    ensures PotentialSum(m, db, ids) <= |ids| * most
  {
    if ids != [] {
      assert ids[|ids|-1] in ids;
      SumBounded(m, db, ids[..|ids|-1], most);
      OneTimesMore(|ids| - 1, most);
    }
  }

  lemma OneTimesMore(n: int, most: int)
    ensures (n + 1) * most == n * most + most
  {
  }

  // ----- which steps move a job ------------------------------------------------------------

  lemma ReapIdsMove(db: Db, m: nat, q: string, due: seq<Id>, id: Id)
    requires Sound(db) && Distinct(due) && id in due && forall y | y in due :: y in db.queues[q].leased
    ensures Owns(db.jobs, q, id) && Moved(Look(db, id), Look(ReapIds(db, m, q, due), id))
  {
    SoundAt(db, q, id);
    ReapEvolves(db, m, q, due, q, id);
  }

  lemma ReapMoves(c: Config, db: Db, s: Step, q: string, x: Id)
    requires Sound(db) && c.drainLimit >= 1 && s.op.ReapOp? && s.op.queue == q
    requires x in db.queues[q].leased && db.queues[q].leased[x] <= s.op.now
    ensures exists id | Owns(db.jobs, q, id) :: Moved(Look(db, id), Look(Apply(c, db, s), id))
  {
    var due := Due(db.queues[q].leased, s.op.now, c.drainLimit);
    FirstDue(db.queues[q].leased, s.op.now, c.drainLimit, x);
    var id, db' := due[0], Apply(c, db, s);
    ApplyReap(c, db, s);
    ReapIdsMove(db, c.maxRetries, q, due, id);
    assert Owns(db.jobs, q, id) && Moved(Look(db, id), Look(db', id));
  }

  lemma ApplyRequeue(c: Config, db: Db, s: Step)
    requires s.op.RequeueOp?
    ensures Apply(c, db, s) == RequeueIds(db, s.op.queue, Due(db.queues[s.op.queue].retry, s.op.now, c.drainLimit))
  {
  }

  lemma RequeueIdsMove(db: Db, q: string, due: seq<Id>, id: Id)
    requires Sound(db) && Distinct(due) && id in due && forall y | y in due :: y in db.queues[q].retry
    ensures Owns(db.jobs, q, id) && Moved(Look(db, id), Look(RequeueIds(db, q, due), id))
  {
    SoundAt(db, q, id);
    RequeueEvolves(db, q, due, q, id);
  }

  lemma RequeueMoves(c: Config, db: Db, s: Step, q: string, x: Id)
    requires Sound(db) && c.drainLimit >= 1 && s.op.RequeueOp? && s.op.queue == q
    requires x in db.queues[q].retry && db.queues[q].retry[x] <= s.op.now
    ensures exists id | Owns(db.jobs, q, id) :: Moved(Look(db, id), Look(Apply(c, db, s), id))
  {
    var due := Due(db.queues[q].retry, s.op.now, c.drainLimit);
    FirstDue(db.queues[q].retry, s.op.now, c.drainLimit, x);
    var id, db' := due[0], Apply(c, db, s);
    ApplyRequeue(c, db, s);
    RequeueIdsMove(db, q, due, id);
    assert Owns(db.jobs, q, id) && Moved(Look(db, id), Look(db', id));
  }

  lemma ClaimMoves(c: Config, db: Db, s: Step, q: string)
    requires Sound(db) && s.op.ClaimOp? && s.op.queue == q && s.op.n >= 1 && db.queues[q].pending != []
    ensures exists id | Owns(db.jobs, q, id) :: Moved(Look(db, id), Look(Apply(c, db, s), id))
  {
    var id := Claimed(db.queues[q], s.op.n)[0];
    SoundAt(db, q, id);
    ClaimEvolves(db, q, s.op.n, s.op.deadline, q, id);
    assert Owns(db.jobs, q, id) && Moved(Look(db, id), Look(Apply(c, db, s), id));
  }

  // ----- runs without new jobs and renewals ------------------------------------------------

  /** Step i neither creates a job in queue q nor renews a lease of q. Anything else goes: acks,
      fails, claims, reaps and drains by anyone, new jobs in other queues. */
  ghost predicate Calm(c: Config, t: Trace, i: nat, q: string)
    requires i < |t|
  {
    CreatedBy(Run(c, t[..i]), t[i], q) == [] && !(t[i].op.RenewOp? && t[i].op.queue == q)
  }

  ghost predicate CalmSince(c: Config, t: Trace, k: nat, q: string) {
    forall i | k <= i < |t| :: Calm(c, t, i, q)
  }

  /** A step is calm if it enqueues into another queue, fires no schedule, and renews no lease of
      q. */
  lemma QuietIsCalm(c: Config, t: Trace, i: nat, q: string)
    requires i < |t| && !t[i].op.FireOp?
    requires t[i].op.EnqueueOp? || t[i].op.RenewOp? ==> t[i].op.queue != q
    ensures Calm(c, t, i, q)
  {
  }

  /** `ids` names every job of queue q, and only IDs that NewID has given. */
  ghost predicate Known(c: Config, t: Trace, q: string, ids: seq<Id>) {
    && (forall id | Owns(Run(c, t).jobs, q, id) :: id in ids)
    && (forall id | id in ids :: id in UsedJobs(t))
  }

  lemma {:induction false} NoneFired(db: Db, now: int, fs: seq<Firing>, q: string, id: Id)
    requires FiredInto(db, now, fs, q) == [] && Owns(Fire(db, now, fs).jobs, q, id)
    ensures Owns(db.jobs, q, id)
  {
    if fs != [] {
      var mid := Fire(db, now, fs[..|fs|-1]);
      assert Owns(mid.jobs, q, id);
      NoneFired(db, now, fs[..|fs|-1], q, id);
    }
  }

  lemma NoneEnqueued(c: Config, db: Db, s: Step, q: string, id: Id)
    requires s.op.EnqueueOp? && CreatedBy(db, s, q) == [] && Owns(Apply(c, db, s).jobs, q, id)
    ensures Owns(db.jobs, q, id)
  {
  }

  /** A job of q after a step that creates none there was one before it. */
  lemma OwnedBefore(c: Config, t: Trace, q: string, id: Id)
    requires Legal(c, t) && t != [] && Owns(Run(c, t).jobs, q, id)
    requires CreatedBy(Run(c, t[..|t|-1]), t[|t|-1], q) == []
    ensures Owns(Run(c, t[..|t|-1]).jobs, q, id)
  {
    var p, s := t[..|t|-1], t[|t|-1];
    if s.op.EnqueueOp? {
      NoneEnqueued(c, Run(c, p), s, q, id);
    } else if s.op.FireOp? {
      NoneFired(Run(c, p), s.op.now, s.op.firings, q, id);
    } else {
      RunEvolves(c, t, id);
      assert Evolves(c, s, id, Look(Run(c, p), id), Look(Run(c, t), id));
    }
  }

  lemma {:induction false} StillKnown(c: Config, t: Trace, k: nat, q: string, ids: seq<Id>)
    requires Legal(c, t) && k <= |t| && CalmSince(c, t, k, q) && Known(c, t[..k], q, ids)
    ensures Known(c, t, q, ids)
    decreases |t|
  {
    if k == |t| {
      assert t[..k] == t;
    } else {
      var p := t[..|t|-1];
      CalmBefore(c, t, k, q, |p|);
      assert p[..k] == t[..k];
      StillKnown(c, p, k, q, ids);
      assert Calm(c, t, |p|, q);
      forall id | Owns(Run(c, t).jobs, q, id) ensures id in ids { OwnedBefore(c, t, q, id); }
    }
  }

  lemma CalmBefore(c: Config, t: Trace, k: nat, q: string, j: nat)
    requires k <= j <= |t| && CalmSince(c, t, k, q)
    ensures CalmSince(c, t[..j], k, q)
  {
    forall i | k <= i < j ensures Calm(c, t[..j], i, q) {
      assert Calm(c, t, i, q);
      assert t[..j][..i] == t[..i];
    }
  }

  // ----- one step --------------------------------------------------------------------------

  lemma Affordable(c: Config, t: Trace, id: Id)
    requires Legal(c, t)
    ensures 0 <= Potential(c.maxRetries, Look(Run(c, t), id)) <= 3 * c.maxRetries + 3
    ensures Look(Run(c, t), id).Present? ==>
              Look(Run(c, t), id).spot.InDead? || Look(Run(c, t), id).attempts <= c.maxRetries
  {
    ClaimsMatchAttempts(c, t, id);
  }

  /** The last step of a run spends potential for each known job it moves, and leaves every
      other one exactly as it was, deadline and retry time included, if it renews none. */
  lemma LastStep(c: Config, t: Trace, q: string, id: Id)
    requires Legal(c, t) && t != [] && id in UsedJobs(t[..|t|-1])
    ensures var v, v' := Look(Run(c, t[..|t|-1]), id), Look(Run(c, t), id);
            && Potential(c.maxRetries, v') + Bit(Moved(v, v')) <= Potential(c.maxRetries, v)
            && (v.Present? && v.queue == q && !Moved(v, v') && !(t[|t|-1].op.RenewOp? && t[|t|-1].op.queue == q)
                ==> v' == v)
  {
    var p, s := t[..|t|-1], t[|t|-1];
    var v, v' := Look(Run(c, p), id), Look(Run(c, t), id);
    RunEvolves(c, t, id);
    Affordable(c, p, id);
    if v.Present? {
      MoveSpends(c, s, id, v, v');
    } else {
      assert id !in Members(NewJobs(s.op));
    }
  }

  ghost function Left(c: Config, t: Trace, ids: seq<Id>): int { PotentialSum(c.maxRetries, Run(c, t), ids) }

  lemma StepSpends(c: Config, t: Trace, q: string, ids: seq<Id>)
    requires Legal(c, t) && t != [] && Known(c, t[..|t|-1], q, ids)
    ensures Left(c, t, ids) <= Left(c, t[..|t|-1], ids)
    ensures (exists id | id in ids :: Moved(Look(Run(c, t[..|t|-1]), id), Look(Run(c, t), id)))
            ==> Left(c, t, ids) < Left(c, t[..|t|-1], ids)
  {
    var db, db', m := Run(c, t[..|t|-1]), Run(c, t), c.maxRetries;
    forall id | id in ids
      ensures Potential(m, Look(db', id)) + Bit(Moved(Look(db, id), Look(db', id))) <= Potential(m, Look(db, id))
    {
      LastStep(c, t, q, id);
    }
    SumSpends(m, db, db', ids);
  }

  // ----- a round ---------------------------------------------------------------------------

  lemma StuckStep(c: Config, t: Trace, q: string, ids: seq<Id>, id: Id)
    requires Legal(c, t) && t != [] && Known(c, t[..|t|-1], q, ids) && id in ids
    requires Owns(Run(c, t[..|t|-1]).jobs, q, id) && !(t[|t|-1].op.RenewOp? && t[|t|-1].op.queue == q)
    ensures Left(c, t, ids) < Left(c, t[..|t|-1], ids) || Look(Run(c, t), id) == Look(Run(c, t[..|t|-1]), id)
  {
    StepSpends(c, t, q, ids);
    LastStep(c, t, q, id);
  }

  /** Until the jobs spend potential, each known job of q stays exactly where it was. */
  lemma {:induction false} Stuck(c: Config, t: Trace, k: nat, q: string, ids: seq<Id>, id: Id)
    requires Legal(c, t) && k <= |t| && CalmSince(c, t, k, q) && Known(c, t[..k], q, ids)
    requires id in ids && Owns(Run(c, t[..k]).jobs, q, id)
    ensures Left(c, t, ids) < Left(c, t[..k], ids) || Look(Run(c, t), id) == Look(Run(c, t[..k]), id)
    decreases |t|
  {
    hide Run, Legal, Left;
    if k == |t| {
      assert t[..k] == t;
    } else {
      var p := t[..|t|-1];
      LegalPrefix(c, t, |t| - 1);
      CalmBefore(c, t, k, q, |p|);
      assert p[..k] == t[..k];
      Stuck(c, p, k, q, ids, id);
      StillKnown(c, p, k, q, ids);
      assert Calm(c, t, |p|, q);
      StepSpends(c, t, q, ids);
      NeverMore(c, p, k, q, ids);
      if Look(Run(c, p), id) == Look(Run(c, t[..k]), id) { StuckStep(c, t, q, ids, id); }
    }
  }

  lemma {:induction false} NeverMore(c: Config, t: Trace, k: nat, q: string, ids: seq<Id>)
    requires Legal(c, t) && k <= |t| && CalmSince(c, t, k, q) && Known(c, t[..k], q, ids)
    ensures Left(c, t, ids) <= Left(c, t[..k], ids)
    decreases |t|
  {
    if k == |t| {
      assert t[..k] == t;
    } else {
      var p := t[..|t|-1];
      CalmBefore(c, t, k, q, |p|);
      assert p[..k] == t[..k];
      NeverMore(c, p, k, q, ids);
      StillKnown(c, p, k, q, ids);
      StepSpends(c, t, q, ids);
    }
  }

  /** The step would move a job of q standing at `spot`: a reap or a retry drain with a clock
      at or past its score, or a claim. */
  predicate Serves(s: Step, q: string, spot: Spot) {
    match spot
    case InLeased(d) => s.op.ReapOp? && s.op.queue == q && s.op.now >= d
    case InRetry(d) => s.op.RequeueOp? && s.op.queue == q && s.op.now >= d
    case InPending => s.op.ClaimOp? && s.op.queue == q && s.op.n >= 1
    case InDead => true
  }

  lemma ServedMoves(c: Config, db: Db, s: Step, q: string, id: Id)
    requires Sound(db) && c.drainLimit >= 1 && Owns(db.jobs, q, id)
    requires !Look(db, id).spot.InDead? && Serves(s, q, Look(db, id).spot)
    ensures exists x | Owns(db.jobs, q, x) :: Moved(Look(db, x), Look(Apply(c, db, s), x))
  {
    SoundAt(db, q, id);
    match Look(db, id).spot
    case InLeased(_) => ReapMoves(c, db, s, q, id);
    case InRetry(_) => RequeueMoves(c, db, s, q, id);
    case InPending => ClaimMoves(c, db, s, q);
  }

  /** Steps i to j-1 serve every job of q where it stood at step i: the round holds a reap and
      a retry drain of q with clocks past the scores of its start, and a claim, in any order
      and with anything around them. */
  ghost predicate FairRound(c: Config, t: Trace, i: nat, j: nat, q: string)
    requires i <= j <= |t|
  {
    forall id | Owns(Run(c, t[..i]).jobs, q, id) :: Served(t, i, j, q, Look(Run(c, t[..i]), id).spot)
  }

  predicate Served(t: Trace, i: nat, j: nat, q: string, spot: Spot)
    requires i <= j <= |t|
  {
    spot.InDead? || exists r | i <= r < j :: Serves(t[r], q, spot)
  }

  /** The step that serves a job with potential left spends some, if none was spent before. */
  lemma ServiceSpends(c: Config, t: Trace, k: nat, q: string, ids: seq<Id>, id: Id)
    requires Legal(c, t) && k < |t| && CalmSince(c, t, k, q) && Known(c, t[..k], q, ids) && c.drainLimit >= 1
    requires id in ids && Owns(Run(c, t[..k]).jobs, q, id) && !Look(Run(c, t[..k]), id).spot.InDead?
    requires Serves(t[|t|-1], q, Look(Run(c, t[..k]), id).spot)
    ensures Left(c, t, ids) < Left(c, t[..k], ids)
  {
    hide Run, Legal, Left;
    var p := t[..|t|-1];
    LegalPrefix(c, t, |t| - 1);
    CalmBefore(c, t, k, q, |p|);
    assert p[..k] == t[..k];
    Stuck(c, p, k, q, ids, id);
    NeverMore(c, p, k, q, ids);
    StillKnown(c, p, k, q, ids);
    StepSpends(c, t, q, ids);
    if Look(Run(c, p), id) == Look(Run(c, t[..k]), id) { ServedStep(c, t, q, ids, id); }
  }

  lemma ServedStep(c: Config, t: Trace, q: string, ids: seq<Id>, id: Id)
    requires Legal(c, t) && t != [] && Known(c, t[..|t|-1], q, ids) && c.drainLimit >= 1
    requires Owns(Run(c, t[..|t|-1]).jobs, q, id) && !Look(Run(c, t[..|t|-1]), id).spot.InDead?
    requires Serves(t[|t|-1], q, Look(Run(c, t[..|t|-1]), id).spot)
    ensures Left(c, t, ids) < Left(c, t[..|t|-1], ids)
  {
    NoJobLostOrDuplicated(c, t[..|t|-1]);
    ServedMoves(c, Run(c, t[..|t|-1]), t[|t|-1], q, id);
    StepSpends(c, t, q, ids);
  }

  /** A fair round spends potential while there is any. */
  lemma RoundSpends(c: Config, t: Trace, i: nat, j: nat, q: string, ids: seq<Id>)
    requires Legal(c, t) && i <= j <= |t| && CalmSince(c, t, i, q) && Known(c, t[..i], q, ids) && c.drainLimit >= 1
    requires FairRound(c, t, i, j, q) && OnlyOf(c, t[..i], q, ids)
    ensures Left(c, t[..j], ids) <= Left(c, t[..i], ids) - (if Left(c, t[..i], ids) > 0 then 1 else 0)
  {
    hide Run, Legal, Left;
    var u := t[..j];
    LegalPrefix(c, t, j);
    CalmBefore(c, t, i, q, j);
    assert u[..i] == t[..i];
    NeverMore(c, u, i, q, ids);
    if Left(c, t[..i], ids) > 0 {
      LegalPrefix(c, t, i);
      var id := Restless(c, t[..i], q, ids);
      assert Served(t, i, j, q, Look(Run(c, t[..i]), id).spot);
      var r :| i <= r < j && Serves(t[r], q, Look(Run(c, t[..i]), id).spot);
      RoundServed(c, t, i, r, j, q, ids, id);
    }
  }

  lemma RoundServed(c: Config, t: Trace, i: nat, r: nat, j: nat, q: string, ids: seq<Id>, id: Id)
    requires Legal(c, t) && i <= r < j <= |t| && CalmSince(c, t, i, q) && Known(c, t[..i], q, ids) && c.drainLimit >= 1
    requires id in ids && Owns(Run(c, t[..i]).jobs, q, id) && !Look(Run(c, t[..i]), id).spot.InDead?
    requires Serves(t[r], q, Look(Run(c, t[..i]), id).spot)
    ensures Left(c, t[..j], ids) < Left(c, t[..i], ids)
  {
    hide Run, Legal, Left, Known, CalmSince;
    var u := t[..j];
    ServedSoFar(c, t, i, r, q, ids, id);
    LegalPrefix(c, t, j);
    CalmBefore(c, t, i, q, j);
    assert u[..r + 1] == t[..r + 1] && u[..i] == t[..i];
    AtEnd(c, u, i, r + 1, q, ids);
  }

  lemma ServedSoFar(c: Config, t: Trace, i: nat, r: nat, q: string, ids: seq<Id>, id: Id)
    requires Legal(c, t) && i <= r < |t| && CalmSince(c, t, i, q) && Known(c, t[..i], q, ids) && c.drainLimit >= 1
    requires id in ids && Owns(Run(c, t[..i]).jobs, q, id) && !Look(Run(c, t[..i]), id).spot.InDead?
    requires Serves(t[r], q, Look(Run(c, t[..i]), id).spot)
    ensures Left(c, t[..r + 1], ids) < Left(c, t[..i], ids)
  {
    hide Run, Legal, Left, Known, CalmSince;
    var v := t[..r + 1];
    LegalPrefix(c, t, r + 1);
    CalmBefore(c, t, i, q, r + 1);
    assert v[..i] == t[..i];
    ServiceSpends(c, v, i, q, ids, id);
  }

  lemma CalmLater(c: Config, t: Trace, i: nat, j: nat, q: string)
    requires i <= j && CalmSince(c, t, i, q)
    ensures CalmSince(c, t, j, q)
  {
  }

  /** Every listed job that still exists belongs to q. */
  ghost predicate OnlyOf(c: Config, t: Trace, q: string, ids: seq<Id>) {
    forall id | id in ids && id in Run(c, t).jobs :: Owns(Run(c, t).jobs, q, id)
  }

  lemma StillOnlyOf(c: Config, t: Trace, k: nat, q: string, ids: seq<Id>)
    requires Legal(c, t) && k <= |t| && Known(c, t[..k], q, ids) && OnlyOf(c, t[..k], q, ids)
    ensures OnlyOf(c, t, q, ids)
  {
    forall id | id in ids && id in Run(c, t).jobs ensures Owns(Run(c, t).jobs, q, id) {
      JobKept(c, t, k, id);
      if id !in Run(c, t[..k]).jobs { GoneForever(c, t, k, id); }
    }
  }

  /** While there is potential left some listed job is not dead. */
  lemma Restless(c: Config, t: Trace, q: string, ids: seq<Id>) returns (id: Id)
    requires Legal(c, t) && OnlyOf(c, t, q, ids) && Left(c, t, ids) > 0
    ensures id in ids && Owns(Run(c, t).jobs, q, id) && !Look(Run(c, t), id).spot.InDead?
  {
    id := SumHas(c.maxRetries, Run(c, t), ids);
  }

  lemma {:induction false} SumHas(m: nat, db: Db, ids: seq<Id>) returns (id: Id)
    requires PotentialSum(m, db, ids) > 0
    ensures id in ids && Potential(m, Look(db, id)) > 0
  {
    id := ids[|ids|-1];
    if Potential(m, Look(db, id)) <= 0 { id := SumHas(m, db, ids[..|ids|-1]); }
  }

  // ----- the theorem -----------------------------------------------------------------------

  /** `marks` cuts the run into fair rounds, the first of which starts at marks[0]. */
  ghost predicate FairRounds(c: Config, t: Trace, marks: seq<nat>, q: string) {
    && marks != [] && (forall r | 0 <= r < |marks| :: marks[r] <= |t|)
    && forall r | 0 < r < |marks| :: marks[r-1] <= marks[r] && FairRound(c, t, marks[r-1], marks[r], q)
  }

  lemma {:induction false} RoundsSpend(c: Config, t: Trace, marks: seq<nat>, q: string, ids: seq<Id>, n: nat)
    requires Legal(c, t) && c.drainLimit >= 1 && FairRounds(c, t, marks, q) && n < |marks|
    requires CalmSince(c, t, marks[0], q) && Known(c, t[..marks[0]], q, ids) && OnlyOf(c, t[..marks[0]], q, ids)
    ensures marks[0] <= marks[n]
    ensures Left(c, t[..marks[n]], ids) <= 0 || Left(c, t[..marks[n]], ids) <= Left(c, t[..marks[0]], ids) - n
    decreases n
  {
    hide Run, Legal, Left, FairRound;
    if n > 0 {
      var k, i := marks[0], marks[n-1];
      RoundsSpend(c, t, marks, q, ids, n - 1);
      var u := t[..i];
      LegalPrefix(c, t, i);
      CalmBefore(c, t, k, q, i);
      CalmLater(c, t, k, i, q);
      assert u[..k] == t[..k];
      StillKnown(c, u, k, q, ids);
      StillOnlyOf(c, u, k, q, ids);
      RoundSpends(c, t, i, marks[n], q, ids);
    }
  }

  /** A job that is no longer there was acknowledged. */
  lemma {:induction false} GoneIsAcked(c: Config, t: Trace, k: nat, q: string, id: Id)
    requires Legal(c, t) && k <= |t| && Owns(Run(c, t[..k]).jobs, q, id)
    ensures id in Run(c, t).jobs || id in AckedIds(c, t, q)
    decreases |t|
  {
    hide Run, Legal;
    if k == |t| {
      assert t[..k] == t;
    } else {
      var p := t[..|t|-1];
      LegalPrefix(c, t, |t| - 1);
      assert p[..k] == t[..k];
      GoneIsAcked(c, p, k, q, id);
      if id in Run(c, p).jobs {
        JobKept(c, p, k, id);
        LastAck(c, t, q, id);
      } else {
        NoReturn(c, t, p, k, id);
      }
    }
  }

  /** Only an ack removes a job. */
  lemma LastAck(c: Config, t: Trace, q: string, id: Id)
    requires Legal(c, t) && t != [] && Owns(Run(c, t[..|t|-1]).jobs, q, id)
    ensures id in Run(c, t).jobs || id in AckedBy(Run(c, t[..|t|-1]), t[|t|-1], q)
  {
    var p, s := t[..|t|-1], t[|t|-1];
    RunEvolves(c, t, id);
    assert Evolves(c, s, id, Look(Run(c, p), id), Look(Run(c, t), id));
    SoundAt(Run(c, p), q, id);
  }

  lemma SpentIsDead(c: Config, t: Trace, q: string, ids: seq<Id>, id: Id)
    requires Legal(c, t) && Left(c, t, ids) <= 0 && id in ids && Owns(Run(c, t).jobs, q, id)
    ensures id in Run(c, t).queues[q].dead
  {
    forall x | x in ids ensures Potential(c.maxRetries, Look(Run(c, t), x)) >= 0 { Affordable(c, t, x); }
    SumPositive(c.maxRetries, Run(c, t), ids, id);
    Affordable(c, t, id);
    NoJobLostOrDuplicated(c, t);
    SoundAt(Run(c, t), q, id);
  }

  /** Poison jobs terminate. From a moment on no job is created in the queue and none of its
      leases renewed; everything else may happen, by anyone: claims, acks, failures with any
      retry time, reaps, drains, work on other queues. Then as many fair rounds as its jobs
      have moves left leave every one of them acknowledged or dead. */
  lemma PoisonTerminates(c: Config, t: Trace, marks: seq<nat>, q: string, ids: seq<Id>)
    requires Legal(c, t) && c.drainLimit >= 1 && marks != [] && forall r | 0 <= r < |marks| :: marks[r] <= |t|
    requires forall r | 0 < r < |marks| :: marks[r-1] <= marks[r] && FairRound(c, t, marks[r-1], marks[r], q)
    requires forall i | marks[0] <= i < |t| :: Calm(c, t, i, q)
    requires Members(ids) == OwnSet(Run(c, t[..marks[0]]).jobs, q)
    requires |marks| > Left(c, t[..marks[0]], ids)
    ensures forall id | id in ids :: id in AckedIds(c, t, q) || id in Run(c, t).queues[q].dead
    ensures OwnSet(Run(c, t).jobs, q) <= Members(ids)
  {
    hide Run, Legal, Left, FairRound;
    var k, n := marks[0], |marks| - 1;
    Listed(c, t, k, q, ids);
    RoundsSpend(c, t, marks, q, ids, n);
    AtEnd(c, t, k, marks[n], q, ids);
    forall id | id in ids ensures id in AckedIds(c, t, q) || id in Run(c, t).queues[q].dead {
      Settled(c, t, k, q, ids, id);
    }
    AllListed(c, t, k, q, ids);
  }

  lemma Listed(c: Config, t: Trace, k: nat, q: string, ids: seq<Id>)
    requires Legal(c, t) && k <= |t| && Members(ids) == OwnSet(Run(c, t[..k]).jobs, q)
    ensures Known(c, t[..k], q, ids) && OnlyOf(c, t[..k], q, ids)
    ensures forall id | id in ids :: Owns(Run(c, t[..k]).jobs, q, id)
  {
    LegalPrefix(c, t, k);
    NoJobLostOrDuplicated(c, t[..k]);
    forall id ensures id in ids <==> Owns(Run(c, t[..k]).jobs, q, id) {
      assert id in Members(ids) <==> id in OwnSet(Run(c, t[..k]).jobs, q);
    }
  }

  lemma AtEnd(c: Config, t: Trace, k: nat, j: nat, q: string, ids: seq<Id>)
    requires Legal(c, t) && k <= j <= |t| && CalmSince(c, t, k, q) && Known(c, t[..k], q, ids)
    ensures Left(c, t, ids) <= Left(c, t[..j], ids)
  {
    hide Run, Legal, Left, Known, CalmSince;
    var u := t[..j];
    LegalPrefix(c, t, j);
    CalmBefore(c, t, k, q, j);
    CalmLater(c, t, k, j, q);
    assert u[..k] == t[..k];
    StillKnown(c, u, k, q, ids);
    NeverMore(c, t, j, q, ids);
  }

  lemma Settled(c: Config, t: Trace, k: nat, q: string, ids: seq<Id>, id: Id)
    requires Legal(c, t) && k <= |t| && id in ids && Owns(Run(c, t[..k]).jobs, q, id) && Left(c, t, ids) <= 0
    ensures id in AckedIds(c, t, q) || id in Run(c, t).queues[q].dead
  {
    hide Left;
    if id in Run(c, t).jobs {
      JobKept(c, t, k, id);
      SpentIsDead(c, t, q, ids, id);
    } else {
      GoneIsAcked(c, t, k, q, id);
    }
  }

  lemma AllListed(c: Config, t: Trace, k: nat, q: string, ids: seq<Id>)
    requires Legal(c, t) && k <= |t| && CalmSince(c, t, k, q) && Known(c, t[..k], q, ids)
    ensures OwnSet(Run(c, t).jobs, q) <= Members(ids)
  {
    StillKnown(c, t, k, q, ids);
  }

  /** The moves left are at most 3 * maxRetries + 3 per job of the queue. */
  lemma MovesLeft(c: Config, t: Trace, ids: seq<Id>)
    requires Legal(c, t)
    ensures Left(c, t, ids) <= |ids| * (3 * c.maxRetries + 3)
  {
    forall id | id in ids ensures Potential(c.maxRetries, Look(Run(c, t), id)) <= 3 * c.maxRetries + 3 {
      Affordable(c, t, id);
    }
    SumBounded(c.maxRetries, Run(c, t), ids, 3 * c.maxRetries + 3);
  }

  /** What the background loops and one worker do makes a round fair: a reap and a retry drain
      of the queue at clocks past its scores, and a claim, in any order. */
  lemma LoopsMakeRounds(c: Config, t: Trace, i: nat, j: nat, q: string, reap: nat, drain: nat, claim: nat)
    requires Legal(c, t) && i <= j <= |t| && i <= reap < j && i <= drain < j && i <= claim < j
    requires t[reap].op.ReapOp? && t[reap].op.queue == q
    requires forall x | x in Run(c, t[..i]).queues[q].leased :: Run(c, t[..i]).queues[q].leased[x] <= t[reap].op.now
    requires t[drain].op.RequeueOp? && t[drain].op.queue == q
    requires forall x | x in Run(c, t[..i]).queues[q].retry :: Run(c, t[..i]).queues[q].retry[x] <= t[drain].op.now
    requires t[claim].op.ClaimOp? && t[claim].op.queue == q && t[claim].op.n >= 1
    ensures FairRound(c, t, i, j, q)
  {
    LegalPrefix(c, t, i);
    NoJobLostOrDuplicated(c, t[..i]);
    forall id | Owns(Run(c, t[..i]).jobs, q, id) ensures Served(t, i, j, q, Look(Run(c, t[..i]), id).spot) {
      SoundAt(Run(c, t[..i]), q, id);
      var spot := Look(Run(c, t[..i]), id).spot;
      assert Serves(t[reap], q, spot) || Serves(t[drain], q, spot) || Serves(t[claim], q, spot);
    }
  }
}
