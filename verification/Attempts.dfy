/** Per-job accounting over whole runs: claims against attempts, acknowledgements at most
    once, and the bound on how often a job can move. */
module Attempts {
  import opened Ranking
  import opened Model
  import opened Lifecycle
  import opened Accounting

  // ----- claims against attempts ---------------------------------------------------------

  function ClaimedBy(db: Db, s: Step): seq<Id> {
    if s.op.ClaimOp? then Claimed(db.queues[s.op.queue], s.op.n) else []
  }

  /** How often a run has claimed `id`. */
  ghost function Claims(c: Config, t: Trace, id: Id): nat {
    if t == [] then 0 else Claims(c, t[..|t|-1], id) + multiset(ClaimedBy(Run(c, t[..|t|-1]), t[|t|-1]))[id]
  }

  /** A claim step claims a job exactly when it changes its view. */
  lemma ClaimCounts(c: Config, db: Db, s: Step, id: Id)
    requires Sound(db)
    ensures multiset(ClaimedBy(db, s))[id] == Bit(s.op.ClaimOp? && Look(Apply(c, db, s), id) != Look(db, id))
  {
    if s.op.ClaimOp? { ClaimEvolves(db, s.op.queue, s.op.n, s.op.deadline, s.op.queue, id); }
  }

  predicate Accounted(c: Config, used: set<Id>, id: Id, v: View, claims: nat) {
    && claims <= c.maxRetries + 1
    && (id !in used ==> claims == 0 && v.Absent?)
    && (v.Present? ==>
          && claims == v.attempts + Bit(v.spot.InLeased?)
          && (if v.spot.InDead? then v.attempts == c.maxRetries + 1 else 0 <= v.attempts <= c.maxRetries))
  }

  lemma StepAccounted(c: Config, used: set<Id>, s: Step, id: Id, v: View, v': View, claims: nat)
    requires Accounted(c, used, id, v, claims) && Members(NewJobs(s.op)) !! used
    requires Evolves(c, s, id, v, v')
    ensures Accounted(c, used + Members(NewJobs(s.op)), id, v', claims + Bit(s.op.ClaimOp? && v' != v))
  {
    if v'.Present? && v.Absent? { assert id in Members(NewJobs(s.op)); }
  }

  /** Over every run: a job has been claimed once per counted attempt, plus once if it is
      leased now. Jobs that are not dead have at most maxRetries attempts, dead ones exactly
      one more, and no job is ever claimed more than maxRetries + 1 times. */
  lemma {:induction false} ClaimsMatchAttempts(c: Config, t: Trace, id: Id)
    requires Legal(c, t)
    ensures Accounted(c, UsedJobs(t), id, Look(Run(c, t), id), Claims(c, t, id))
  {
    if t != [] {
      var p, s := t[..|t|-1], t[|t|-1];
      ClaimsMatchAttempts(c, p, id);
      RunEvolves(c, t, id);
      ClaimCounts(c, Run(c, p), s, id);
      StepAccounted(c, UsedJobs(p), s, id, Look(Run(c, p), id), Look(Run(c, t), id), Claims(c, p, id));
    }
  }

  // ----- prefixes and gone jobs ----------------------------------------------------------

  /** Extending a run by one step. */
  lemma Extend(c: Config, t: Trace, s: Step)
    ensures Run(c, t + [s]) == Apply(c, Run(c, t), s)
    ensures Legal(c, t + [s]) <==> Legal(c, t) && Fits(c, t, s)
    ensures UsedJobs(t + [s]) == UsedJobs(t) + Members(NewJobs(s.op))
  {
    var u := t + [s];
    assert u[..|u|-1] == t && u[|u|-1] == s;
  }

  lemma LegalLast(c: Config, t: Trace)
    requires Legal(c, t) && t != []
    ensures var p := t[..|t|-1]; Legal(c, p) && Fits(c, p, t[|t|-1])
  {
  }

  lemma {:induction false} LegalPrefix(c: Config, t: Trace, k: nat)
    requires Legal(c, t) && k <= |t|
    ensures Legal(c, t[..k])
    decreases |t|
  {
    if k < |t| {
      assert t[..|t|-1][..k] == t[..k];
      LegalPrefix(c, t[..|t|-1], k);
    } else {
      assert t[..k] == t;
    }
  }

  lemma {:induction false} UsedGrows(t: Trace, k: nat)
    requires k <= |t|
    ensures UsedJobs(t[..k]) <= UsedJobs(t)
    decreases |t|
  {
    if k < |t| {
      assert t[..|t|-1][..k] == t[..k];
      UsedGrows(t[..|t|-1], k);
    } else {
      assert t[..k] == t;
    }
  }

  lemma StaysGone(c: Config, t: Trace, p: Trace, id: Id)
    requires Legal(c, t) && t != [] && p == t[..|t|-1] && id in UsedJobs(p) && id !in Run(c, p).jobs
    ensures id !in Run(c, t).jobs && Claims(c, t, id) == Claims(c, p, id)
  {
    hide Run;
    var s := t[|t|-1];
    LegalLast(c, t);
    NoJobLostOrDuplicated(c, p);
    RunEvolves(c, t, id);
    assert t == p + [s];
    Extend(c, p, s);
    ClaimCounts(c, Run(c, p), s, id);
    assert id !in Members(NewJobs(s.op));
  }

  /** A job that once existed and is gone never comes back and is never claimed again. */
  lemma {:induction false} GoneForever(c: Config, t: Trace, k: nat, id: Id)
    requires Legal(c, t) && k <= |t|
    requires id in UsedJobs(t[..k]) && id !in Run(c, t[..k]).jobs
    ensures id !in Run(c, t).jobs
    ensures Claims(c, t, id) == Claims(c, t[..k], id)
    decreases |t|
  {
    if k == |t| {
      assert t[..k] == t;
    } else {
      hide Run, Legal, Claims;
      var p := t[..|t|-1];
      assert p[..k] == t[..k];
      LegalLast(c, t);
      GoneForever(c, p, k, id);
      UsedGrows(p, k);
      StaysGone(c, t, p, id);
    }
  }

  /** While a job exists it keeps its queue and its attempts never go down. */
  predicate Kept(v: View, v': View) {
    v.Present? && v'.Present? ==> v.queue == v'.queue && v.attempts <= v'.attempts
  }

  lemma EvolvesKept(c: Config, s: Step, id: Id, v: View, v': View)
    requires Evolves(c, s, id, v, v')
    ensures Kept(v, v')
  {
  }

  lemma {:induction false} JobKept(c: Config, t: Trace, k: nat, id: Id)
    requires Legal(c, t) && k <= |t|
    ensures Kept(Look(Run(c, t[..k]), id), Look(Run(c, t), id))
    decreases |t|
  {
    if k == |t| {
      assert t[..k] == t;
    } else {
      var p := t[..|t|-1];
      assert p[..k] == t[..k];
      RunEvolves(c, t, id);
      EvolvesKept(c, t[|t|-1], id, Look(Run(c, p), id), Look(Run(c, t), id));
      JobKept(c, p, k, id);
      if Look(Run(c, t[..k]), id).Present? && Look(Run(c, p), id).Absent? { NoReturn(c, t, p, k, id); }
    }
  }

  /** Once gone before the last step, still gone after it. */
  lemma NoReturn(c: Config, t: Trace, p: Trace, k: nat, id: Id)
    requires Legal(c, t) && t != [] && p == t[..|t|-1] && k <= |p| && id in Run(c, p[..k]).jobs && id !in Run(c, p).jobs
    ensures id !in Run(c, t).jobs
  {
    WasUsed(c, p, k, id);
    GoneForever(c, t, |p|, id);
  }

  lemma WasUsed(c: Config, p: Trace, k: nat, id: Id)
    requires Legal(c, p) && k <= |p| && id in Run(c, p[..k]).jobs
    ensures id in UsedJobs(p)
  {
    LegalPrefix(c, p, k);
    NoJobLostOrDuplicated(c, p[..k]);
    UsedGrows(p, k);
  }

  // ----- acknowledgements ----------------------------------------------------------------

  /** Every ID some ack has removed from queue q. */
  ghost function AckedIds(c: Config, t: Trace, q: string): set<Id> {
    if t == [] then {} else AckedIds(c, t[..|t|-1], q) + AckedBy(Run(c, t[..|t|-1]), t[|t|-1], q)
  }

  lemma {:induction false} AckedGone(c: Config, t: Trace, q: string, id: Id)
    requires Legal(c, t) && id in AckedIds(c, t, q)
    ensures id in UsedJobs(t) && id !in Run(c, t).jobs
  {
    var p, s := t[..|t|-1], t[|t|-1];
    NoJobLostOrDuplicated(c, p);
    NoJobLostOrDuplicated(c, t);
    if id in AckedIds(c, p, q) {
      AckedGone(c, p, q, id);
      assert t[..|p|] == p;
      GoneForever(c, t, |p|, id);
    } else {
      SoundAt(Run(c, p), q, id);
      assert Look(Run(c, t), id).Absent? by { RunEvolves(c, t, id); }
    }
  }

  /** Each job is acknowledged at most once: the counts returned by acks over a run add up
      to the number of distinct jobs removed. */
  lemma {:induction false} AckAtMostOnce(c: Config, t: Trace, q: string)
    requires Legal(c, t)
    ensures AckTotal(c, t, q) == |AckedIds(c, t, q)|
  {
    if t != [] {
      var p, s := t[..|t|-1], t[|t|-1];
      AckAtMostOnce(c, p, q);
      NoJobLostOrDuplicated(c, p);
      forall id | id in AckedIds(c, p, q) ensures id !in AckedBy(Run(c, p), s, q) {
        AckedGone(c, p, q, id);
        SoundAt(Run(c, p), q, id);
      }
    }
  }

  /** An acknowledged job is never claimed again, in any continuation of the run. */
  lemma AckedNeverClaimed(c: Config, t: Trace, k: nat, q: string, id: Id)
    requires Legal(c, t) && k <= |t| && id in AckedIds(c, t[..k], q)
    ensures id !in Run(c, t).jobs && Claims(c, t, id) == Claims(c, t[..k], id)
  {
    LegalPrefix(c, t, k);
    AckedGone(c, t[..k], q, id);
    GoneForever(c, t, k, id);
  }

  // ----- poison jobs terminate -----------------------------------------------------------

  function Rank(s: Spot): nat {
    match s
    case InLeased(_) => 0
    case InPending => 1
    case InRetry(_) => 2
    case InDead => 0
  }

  /** How many moves a job can still make. */
  function Potential(maxRetries: nat, v: View): int {
    if v.Absent? || v.spot.InDead? then 0 else 3 * (maxRetries - v.attempts) + 1 + Rank(v.spot)
  }

  predicate SameSpot(a: Spot, b: Spot) {
    a.InPending? == b.InPending? && a.InLeased? == b.InLeased? && a.InRetry? == b.InRetry?
  }

  /** The job was listed and has left its structure. */
  predicate Moved(v: View, v': View) { v.Present? && (v'.Absent? || !SameSpot(v.spot, v'.spot)) }

  ghost function MoveCount(c: Config, t: Trace, id: Id): nat {
    if t == [] then 0
    else MoveCount(c, t[..|t|-1], id) + Bit(Moved(Look(Run(c, t[..|t|-1]), id), Look(Run(c, t), id)))
  }

  /** Each claim of a job is one of its moves, and so is its removal. */
  lemma {:induction false} ClaimsAreMoves(c: Config, t: Trace, id: Id)
    requires Legal(c, t)
    ensures Claims(c, t, id) + Bit(id in UsedJobs(t) && id !in Run(c, t).jobs && Claims(c, t, id) > 0)
            <= MoveCount(c, t, id)
  {
    if t != [] {
      var p, s := t[..|t|-1], t[|t|-1];
      ClaimsAreMoves(c, p, id);
      NoJobLostOrDuplicated(c, p);
      RunEvolves(c, t, id);
      ClaimCounts(c, Run(c, p), s, id);
      ClaimsMatchAttempts(c, p, id);
    }
  }

  /** Every claim, ack, fail, reap and retry drain that moves a job spends potential. */
  lemma MoveSpends(c: Config, s: Step, id: Id, v: View, v': View)
    requires Evolves(c, s, id, v, v') && v.Present?
    requires v.spot.InDead? || v.attempts <= c.maxRetries
    ensures Potential(c.maxRetries, v') >= 0
    ensures Potential(c.maxRetries, v') + Bit(Moved(v, v')) <= Potential(c.maxRetries, v)
  {
  }

  /** A job makes at most 3 * maxRetries + 2 moves after it is created, in any run. */
  lemma {:induction false} MovesBounded(c: Config, t: Trace, id: Id)
    requires Legal(c, t)
    ensures 0 <= Potential(c.maxRetries, Look(Run(c, t), id))
    ensures MoveCount(c, t, id) + Potential(c.maxRetries, Look(Run(c, t), id)) <= 3 * c.maxRetries + 2
    ensures id !in UsedJobs(t) ==> MoveCount(c, t, id) == 0
  {
    if t != [] {
      var p, s := t[..|t|-1], t[|t|-1];
      var v, v' := Look(Run(c, p), id), Look(Run(c, t), id);
      MovesBounded(c, p, id);
      ClaimsMatchAttempts(c, p, id);
      RunEvolves(c, t, id);
      if v.Present? {
        MoveSpends(c, s, id, v, v');
      } else if v'.Present? {
        assert id in Members(NewJobs(s.op));
      }
    }
  }
}
