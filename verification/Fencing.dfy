/** The store checks membership by job ID only. In every run whose workers keep their
    deadlines it behaves exactly like a store that also checks a generation token per claim. */
module Fencing {
  import opened Ranking
  import opened Model
  import opened Lifecycle
  import opened Attempts

  /** One claim of one job: `gen` counts the claims of that job up to this one. */
  datatype Handle = Handle(queue: string, id: Id, gen: nat)

  /** A script call, with the generation and heartbeat number its caller carries. Neither is
      sent to the store; only renewals and reports use them. */
  datatype Call = Call(step: Step, gen: nat, tick: nat)

  type Calls = seq<Call>

  function Steps(calls: Calls): Trace {
    if calls == [] then [] else Steps(calls[..|calls|-1]) + [calls[|calls|-1].step]
  }

  /** The calls workers make for a job they hold; the SDK acks one job at a time. */
  predicate IsWorkerCall(op: Op) { op.RenewOp? || op.FailOp? || op.AckOp? }

  predicate SingleJob(op: Op) { op.AckOp? ==> |op.ids| == 1 }

  function CalledId(op: Op): Id
    requires IsWorkerCall(op) && SingleJob(op)
  {
    if op.AckOp? then op.ids[0] else op.id
  }

  function Caller(call: Call): Handle
    requires IsWorkerCall(call.step.op) && SingleJob(call.step.op)
  {
    Handle(call.step.op.queue, CalledId(call.step.op), call.gen)
  }

  // ----- the fenced store ----------------------------------------------------------------

  datatype Fenced = Fenced(db: Db, gens: map<Id, nat>)

  function GenOf(gens: map<Id, nat>, id: Id): nat { if id in gens then gens[id] else 0 }

  function BumpGens(gens: map<Id, nat>, ids: seq<Id>): map<Id, nat> {
    gens + map id | id in Members(ids) :: GenOf(gens, id) + 1
  }

  /** A store with tokens: claims issue a new generation, and a renewal, ack or fail is
      refused unless it carries the current one. */
  ghost function FencedApply(c: Config, f: Fenced, call: Call): Fenced {
    var op := call.step.op;
    if IsWorkerCall(op) && (SingleJob(op) ==> GenOf(f.gens, CalledId(op)) != call.gen) then f
    else Fenced(Apply(c, f.db, call.step), BumpGens(f.gens, ClaimedBy(f.db, call.step)))
  }

  ghost function FencedRun(c: Config, calls: Calls): Fenced {
    if calls == [] then Fenced(EMPTY_DB, map[])
    else FencedApply(c, FencedRun(c, calls[..|calls|-1]), calls[|calls|-1])
  }

  // ----- what workers hold ---------------------------------------------------------------

  /** A handle's last written deadline, the attempt count its claim returned, and the number
      of its last heartbeat that reached the store. */
  datatype Grip = Grip(deadline: int, attempts: int, tick: nat)

  /** The handles claimed and not yet reported, acked or failed. */
  ghost function Grips(c: Config, calls: Calls): map<Handle, Grip> {
    if calls == [] then map[]
    else
      var p, call := calls[..|calls|-1], calls[|calls|-1];
      var op := call.step.op;
      if op.ClaimOp? then Grips(c, p) + NewGrips(c, Steps(p), op)
      else if !IsWorkerCall(op) || !SingleJob(op) || Caller(call) !in Grips(c, p) then Grips(c, p)
      else if op.RenewOp? then
        Grips(c, p)[Caller(call) := Grips(c, p)[Caller(call)].(deadline := op.deadline, tick := call.tick)]
      else Grips(c, p) - {Caller(call)}
  }

  ghost function NewHandle(c: Config, t: Trace, q: string, id: Id): Handle { Handle(q, id, Claims(c, t, id) + 1) }

  ghost function NewGrips(c: Config, t: Trace, op: Op): map<Handle, Grip>
    requires op.ClaimOp?
  {
    var db := Run(c, t);
    var ids := Claimed(db.queues[op.queue], op.n);
    map h: Handle | h in (set id | id in ids :: NewHandle(c, t, op.queue, id)) ::
      Grip(op.deadline, if h.id in db.jobs then db.jobs[h.id].attempts else 0, 0)
  }

  /** A worker call comes from a handle that is still held, before that handle's deadline. */
  ghost predicate OnTime(c: Config, p: Calls, call: Call) {
    IsWorkerCall(call.step.op) ==>
      && SingleJob(call.step.op)
      && Caller(call) in Grips(c, p)
      && call.step.at < Grips(c, p)[Caller(call)].deadline
  }

  /** A worker's last word on a job: an ack or a failure. */
  predicate IsReport(op: Op) { op.FailOp? || (op.AckOp? && |op.ids| == 1) }

  /** Report `r` makes renewal `call` of the same handle harmless: it was an ack, or a failure
      whose retry time is still to come. */
  predicate Covers(r: Call, call: Call)
    requires call.step.op.RenewOp?
  {
    && IsReport(r.step.op) && Caller(r) == Caller(call)
    && (r.step.op.FailOp? ==> call.step.at < r.step.op.nextAt)
  }

  /** A renewal that runs after its worker's own report, as one in flight at that report may. */
  ghost predicate Trails(p: Calls, call: Call) {
    call.step.op.RenewOp? && exists i | 0 <= i < |p| :: Covers(p[i], call)
  }

  /** Every worker call runs before its handle's deadline, or is a renewal covered by the
      handle's report. */
  ghost predicate InTime(c: Config, calls: Calls) {
    calls == []
    || (InTime(c, calls[..|calls|-1])
        && (OnTime(c, calls[..|calls|-1], calls[|calls|-1]) || Trails(calls[..|calls|-1], calls[|calls|-1])))
  }

  /** A handle whose deadline lies after `now` holds the lease it believes it holds. */
  ghost predicate Secure(c: Config, t: Trace, now: int, h: Handle, g: Grip) {
    && h.gen <= Claims(c, t, h.id)
    && (now < g.deadline ==>
          Look(Run(c, t), h.id) == Present(h.queue, g.attempts, InLeased(g.deadline)) && Claims(c, t, h.id) == h.gen)
  }

  ghost predicate AllSecure(c: Config, calls: Calls, now: int) {
    forall h | h in Grips(c, calls) :: Secure(c, Steps(calls), now, h, Grips(c, calls)[h])
  }

  lemma StepsLast(calls: Calls)
    requires calls != []
    ensures Steps(calls) == Steps(calls[..|calls|-1]) + [calls[|calls|-1].step]
  {
  }

  /** A lease with time left is not ended by a step that is not a worker's call on that job. */
  lemma LeaseStays(c: Config, s: Step, id: Id, v: View, v': View)
    requires Evolves(c, s, id, v, v') && Honest(c, s)
    requires v.Present? && v.spot.InLeased? && s.at < v.spot.deadline
    requires IsWorkerCall(s.op) ==> SingleJob(s.op) && CalledId(s.op) != id
    ensures v' == v
  {
    assert s.op.AckOp? ==> id !in s.op.ids;
  }

  lemma StaysSecure(c: Config, p: Trace, s: Step, now: int, h: Handle, g: Grip)
    requires Legal(c, p + [s]) && now <= s.at && Secure(c, p, now, h, g)
    requires IsWorkerCall(s.op) ==> SingleJob(s.op) && (s.at < g.deadline ==> CalledId(s.op) != h.id)
    ensures Secure(c, p + [s], s.at, h, g)
  {
    Extend(c, p, s);
    NoJobLostOrDuplicated(c, p);
    ClaimCounts(c, Run(c, p), s, h.id);
    ClaimsStep(c, p, s, h.id);
    if s.at < g.deadline {
      StepSound(c, Run(c, p), s);
      LeaseStays(c, s, h.id, Look(Run(c, p), h.id), Look(Run(c, p + [s]), h.id));
    }
  }

  lemma ClaimsStep(c: Config, p: Trace, s: Step, id: Id)
    ensures Claims(c, p + [s], id) == Claims(c, p, id) + multiset(ClaimedBy(Run(c, p), s))[id]
  {
    var t := p + [s];
    assert t[..|t|-1] == p && t[|t|-1] == s;
  }

  /** A fresh claim makes a secure handle. */
  lemma NewSecure(c: Config, p: Trace, s: Step, h: Handle)
    requires Legal(c, p + [s]) && s.op.ClaimOp? && h in NewGrips(c, p, s.op)
    ensures Secure(c, p + [s], s.at, h, NewGrips(c, p, s.op)[h])
  {
    var db := Run(c, p);
    Extend(c, p, s);
    NoJobLostOrDuplicated(c, p);
    ClaimEvolves(db, s.op.queue, s.op.n, s.op.deadline, s.op.queue, h.id);
    ClaimsStep(c, p, s, h.id);
  }

  /** A worker's own call, made in time, finds its lease; a renewal keeps the handle secure. */
  lemma OwnCall(c: Config, p: Trace, s: Step, now: int, h: Handle, g: Grip)
    requires Legal(c, p + [s]) && now <= s.at < g.deadline && Secure(c, p, now, h, g)
    requires IsWorkerCall(s.op) && SingleJob(s.op) && CalledId(s.op) == h.id && s.op.queue == h.queue
    ensures LeasedIn(Look(Run(c, p), h.id), h.queue) && Claims(c, p, h.id) == h.gen
    ensures s.op.RenewOp? ==> Secure(c, p + [s], s.at, h, Grip(s.op.deadline, g.attempts, 0))
  {
    Extend(c, p, s);
    NoJobLostOrDuplicated(c, p);
    StepSound(c, Run(c, p), s);
    ClaimsStep(c, p, s, h.id);
    assert Evolves(c, s, h.id, Look(Run(c, p), h.id), Look(Run(c, p + [s]), h.id));
  }

  /** Two live handles of one job are the same handle. */
  lemma OneLiveHandle(c: Config, t: Trace, now: int, h: Handle, g: Grip, h': Handle, g': Grip)
    requires Secure(c, t, now, h, g) && Secure(c, t, now, h', g')
    requires h.id == h'.id && now < g.deadline && now < g'.deadline
    ensures h == h'
  {
  }

  lemma StepSecure(c: Config, calls: Calls, now: int)
    requires calls != [] && now <= calls[|calls|-1].step.at
    requires Legal(c, Steps(calls)) && AllSecure(c, calls[..|calls|-1], now)
    requires OnTime(c, calls[..|calls|-1], calls[|calls|-1]) || Idle(c, calls[..|calls|-1], calls[|calls|-1])
    ensures AllSecure(c, calls, calls[|calls|-1].step.at)
  {
    hide Run, Legal, Grips;
    forall h | h in Grips(c, calls) ensures Secure(c, Steps(calls), calls[|calls|-1].step.at, h, Grips(c, calls)[h]) {
      if OnTime(c, calls[..|calls|-1], calls[|calls|-1]) {
        HandleSecure(c, calls, now, h);
      } else {
        IdleSecure(c, calls, now, h);
      }
    }
  }

  /** A renewal that finds no lease, by a handle no longer held. */
  ghost predicate Idle(c: Config, p: Calls, call: Call) {
    && call.step.op.RenewOp?
    && call.step.op.id !in Run(c, Steps(p)).queues[call.step.op.queue].leased && Caller(call) !in Grips(c, p)
  }

  lemma IdleSecure(c: Config, calls: Calls, now: int, h: Handle)
    requires calls != [] && now <= calls[|calls|-1].step.at && AllSecure(c, calls[..|calls|-1], now)
    requires Idle(c, calls[..|calls|-1], calls[|calls|-1])
    requires h in Grips(c, calls)
    ensures Secure(c, Steps(calls), calls[|calls|-1].step.at, h, Grips(c, calls)[h])
  {
    var p, s := calls[..|calls|-1], calls[|calls|-1].step;
    StepsLast(calls);
    Extend(c, Steps(p), s);
    ClaimsStep(c, Steps(p), s, h.id);
  }

  lemma HandleSecure(c: Config, calls: Calls, now: int, h: Handle)
    requires calls != [] && now <= calls[|calls|-1].step.at
    requires Legal(c, Steps(calls)) && AllSecure(c, calls[..|calls|-1], now)
    requires OnTime(c, calls[..|calls|-1], calls[|calls|-1])
    requires h in Grips(c, calls)
    ensures Secure(c, Steps(calls), calls[|calls|-1].step.at, h, Grips(c, calls)[h])
  {
    var p, call := calls[..|calls|-1], calls[|calls|-1];
    var t, s, held := Steps(p), call.step, Grips(c, p);
    StepsLast(calls);
    if s.op.ClaimOp? {
      if h in NewGrips(c, t, s.op) { NewSecure(c, t, s, h); } else { StaysSecure(c, t, s, now, h, held[h]); }
    } else if IsWorkerCall(s.op) {
      var caller := Caller(call);
      if h == caller {
        OwnCall(c, t, s, now, h, held[h]);
      } else {
        if s.at < held[h].deadline && caller.id == h.id { OneLiveHandle(c, t, now, h, held[h], caller, held[caller]); }
        StaysSecure(c, t, s, now, h, held[h]);
      }
    } else {
      StaysSecure(c, t, s, now, h, held[h]);
    }
  }

  // ----- what an accepted report leaves ----------------------------------------------------

  /** An acked job is gone for good; a failed one waits for its retry time, or is dead. */
  predicate Over(r: Op, now: int, v: View, used: bool)
    requires IsReport(r)
  {
    if r.AckOp? then v.Absent? && used
    else now < r.nextAt ==> v.Present? && (v.spot == InRetry(r.nextAt) || v.spot.InDead?)
  }

  ghost predicate OverAt(c: Config, t: Trace, now: int, r: Op)
    requires IsReport(r)
  {
    Over(r, now, Look(Run(c, t), CalledId(r)), CalledId(r) in UsedJobs(t))
  }

  /** The reporting handle is not held and will never be again. */
  ghost predicate LetGo(c: Config, calls: Calls, h: Handle) {
    h !in Grips(c, calls) && h.gen <= Claims(c, Steps(calls), h.id)
  }

  ghost predicate AllOver(c: Config, calls: Calls, now: int) {
    forall i | 0 <= i < |calls| && IsReport(calls[i].step.op) ::
      OverAt(c, Steps(calls), now, calls[i].step.op) && LetGo(c, calls, Caller(calls[i]))
  }

  lemma StaysOver(c: Config, p: Trace, s: Step, now: int, r: Op)
    requires Legal(c, p + [s]) && now <= s.at && IsReport(r) && OverAt(c, p, now, r)
    ensures OverAt(c, p + [s], s.at, r)
  {
    Extend(c, p, s);
    NoJobLostOrDuplicated(c, p);
    StepSound(c, Run(c, p), s);
    assert Evolves(c, s, CalledId(r), Look(Run(c, p), CalledId(r)), Look(Run(c, p + [s]), CalledId(r)));
  }

  lemma StaysLetGo(c: Config, calls: Calls, h: Handle)
    requires calls != [] && LetGo(c, calls[..|calls|-1], h)
    ensures LetGo(c, calls, h)
  {
    StepsLast(calls);
    ClaimsStep(c, Steps(calls[..|calls|-1]), calls[|calls|-1].step, h.id);
  }

  /** The report itself, made before its handle's deadline. */
  lemma NowOver(c: Config, calls: Calls, now: int)
    requires calls != [] && now <= calls[|calls|-1].step.at
    requires Legal(c, Steps(calls)) && AllSecure(c, calls[..|calls|-1], now)
    requires OnTime(c, calls[..|calls|-1], calls[|calls|-1]) && IsReport(calls[|calls|-1].step.op)
    ensures OverAt(c, Steps(calls), calls[|calls|-1].step.at, calls[|calls|-1].step.op)
    ensures LetGo(c, calls, Caller(calls[|calls|-1]))
  {
    var p, call := calls[..|calls|-1], calls[|calls|-1];
    var t, s, h := Steps(p), call.step, Caller(call);
    StepsLast(calls);
    OwnCall(c, t, s, now, h, Grips(c, p)[h]);
    Extend(c, t, s);
    ClaimsStep(c, t, s, h.id);
    NoJobLostOrDuplicated(c, t);
    StepSound(c, Run(c, t), s);
    assert Evolves(c, s, h.id, Look(Run(c, t), h.id), Look(Run(c, t + [s]), h.id));
  }

  lemma StepOver(c: Config, calls: Calls, now: int)
    requires calls != [] && now <= calls[|calls|-1].step.at && Legal(c, Steps(calls))
    requires AllSecure(c, calls[..|calls|-1], now) && AllOver(c, calls[..|calls|-1], now)
    requires OnTime(c, calls[..|calls|-1], calls[|calls|-1]) || calls[|calls|-1].step.op.RenewOp?
    ensures AllOver(c, calls, calls[|calls|-1].step.at)
  {
    hide Run, Legal, Grips, OverAt, LetGo, OnTime, AllSecure;
    var p, s := calls[..|calls|-1], calls[|calls|-1].step;
    StepsLast(calls);
    forall i | 0 <= i < |calls| && IsReport(calls[i].step.op)
      ensures OverAt(c, Steps(calls), s.at, calls[i].step.op) && LetGo(c, calls, Caller(calls[i]))
    {
      if i < |p| {
        assert p[i] == calls[i];
        StaysOver(c, Steps(p), s, now, calls[i].step.op);
        StaysLetGo(c, calls, Caller(calls[i]));
      } else {
        NowOver(c, calls, now);
      }
    }
  }

  /** A renewal that trails an accepted report finds no lease. */
  lemma TrailsIdle(c: Config, p: Calls, now: int, call: Call)
    requires Legal(c, Steps(p)) && AllOver(c, p, now) && now <= call.step.at && Trails(p, call)
    ensures Idle(c, p, call)
  {
    var i :| 0 <= i < |p| && Covers(p[i], call);
    NoJobLostOrDuplicated(c, Steps(p));
    SoundAt(Run(c, Steps(p)), call.step.op.queue, call.step.op.id);
    assert OverAt(c, Steps(p), now, p[i].step.op) && LetGo(c, p, Caller(p[i]));
  }

  function LastTime(calls: Calls): int { if calls == [] then 0 else calls[|calls|-1].step.at }

  /** The time of the call before, if there is one. */
  lemma TimeBefore(c: Config, calls: Calls) returns (now: int)
    requires calls != [] && Legal(c, Steps(calls))
    ensures var p := calls[..|calls|-1]; Legal(c, Steps(p)) && (p != [] ==> now == LastTime(p))
    ensures now <= calls[|calls|-1].step.at
  {
    var p := calls[..|calls|-1];
    StepsLast(calls);
    Extend(c, Steps(p), calls[|calls|-1].step);
    if p != [] { StepsLast(p); }
    now := if p == [] then calls[|calls|-1].step.at else LastTime(p);
  }

  lemma {:induction false} InTimeSecure(c: Config, calls: Calls)
    requires Legal(c, Steps(calls)) && InTime(c, calls)
    ensures AllSecure(c, calls, LastTime(calls)) && AllOver(c, calls, LastTime(calls))
  {
    hide Run, Legal;
    if calls != [] {
      var p, call := calls[..|calls|-1], calls[|calls|-1];
      var now := TimeBefore(c, calls);
      InTimeSecure(c, p);
      InTimeStep(c, calls, now);
    }
  }

  lemma InTimeStep(c: Config, calls: Calls, now: int)
    requires calls != [] && now <= calls[|calls|-1].step.at && Legal(c, Steps(calls)) && InTime(c, calls)
    requires var p := calls[..|calls|-1]; Legal(c, Steps(p)) && (p != [] ==> now == LastTime(p))
    requires var p := calls[..|calls|-1]; AllSecure(c, p, LastTime(p)) && AllOver(c, p, LastTime(p))
    ensures AllSecure(c, calls, LastTime(calls)) && AllOver(c, calls, LastTime(calls))
  {
    hide Run, Legal, OnTime, Idle, OverAt, LetGo, Secure;
    var p, call := calls[..|calls|-1], calls[|calls|-1];
    NoneHeld(c, p, now);
    if !OnTime(c, p, call) { TrailsIdle(c, p, now, call); }
    StepSecure(c, calls, now);
    StepOver(c, calls, now);
  }

  /** Before the first call nothing is held or reported, at whatever time. */
  lemma NoneHeld(c: Config, p: Calls, now: int)
    requires AllSecure(c, p, LastTime(p)) && AllOver(c, p, LastTime(p)) && (p != [] ==> now == LastTime(p))
    ensures AllSecure(c, p, now) && AllOver(c, p, now)
  {
  }

  // ----- fencing for free ----------------------------------------------------------------

  ghost predicate Agrees(c: Config, calls: Calls) {
    && FencedRun(c, calls).db == Run(c, Steps(calls))
    && forall id :: GenOf(FencedRun(c, calls).gens, id) == Claims(c, Steps(calls), id)
  }

  /** What the ID-only store does with one more step is what the fenced one does, when the
      caller of a renewal or report is the latest claimer. */
  lemma SameStep(c: Config, f: Fenced, db: Db, call: Call)
    requires f.db == db
    requires IsWorkerCall(call.step.op) ==> SingleJob(call.step.op) && GenOf(f.gens, CalledId(call.step.op)) == call.gen
    ensures FencedApply(c, f, call)
            == Fenced(Apply(c, db, call.step), BumpGens(f.gens, ClaimedBy(db, call.step)))
  {
  }

  lemma SameGen(c: Config, gens: map<Id, nat>, t: Trace, s: Step, id: Id)
    requires Legal(c, t) && GenOf(gens, id) == Claims(c, t, id)
    ensures GenOf(BumpGens(gens, ClaimedBy(Run(c, t), s)), id) == Claims(c, t + [s], id)
  {
    ClaimsStep(c, t, s, id);
    NoJobLostOrDuplicated(c, t);
    ClaimCounts(c, Run(c, t), s, id);
    GenStep(c, gens, Run(c, t), s, id);
  }

  /** The latest call of a run in time carries the current generation. */
  lemma CurrentGen(c: Config, p: Calls, call: Call)
    requires Agrees(c, p) && Legal(c, Steps(p + [call])) && InTime(c, p + [call]) && IsWorkerCall(call.step.op)
    requires OnTime(c, p, call)
    ensures SingleJob(call.step.op) && GenOf(FencedRun(c, p).gens, CalledId(call.step.op)) == call.gen
  {
    assert (p + [call])[..|p|] == p;
    AcceptedCall(c, p + [call]);
  }

  /** A renewal that finds no lease changes nothing in either store. */
  lemma IdleStep(c: Config, f: Fenced, call: Call)
    requires call.step.op.RenewOp? && call.step.op.id !in f.db.queues[call.step.op.queue].leased
    ensures Apply(c, f.db, call.step) == f.db && FencedApply(c, f, call) == f && ClaimedBy(f.db, call.step) == []
  {
    assert BumpGens(f.gens, []) == f.gens;
  }

  lemma AgreesIdle(c: Config, p: Calls, call: Call)
    requires Agrees(c, p) && Idle(c, p, call)
    ensures Agrees(c, p + [call])
  {
    hide Grips, Run, Apply, FencedApply, Claims, ClaimedBy;
    var calls, f := p + [call], FencedRun(c, p);
    assert calls[..|p|] == p;
    StepsLast(calls);
    Extend(c, Steps(p), call.step);
    IdleStep(c, f, call);
    forall id ensures Claims(c, Steps(calls), id) == Claims(c, Steps(p), id) {
      ClaimsStep(c, Steps(p), call.step, id);
    }
  }

  lemma AgreesStep(c: Config, p: Calls, call: Call)
    requires Agrees(c, p) && Legal(c, Steps(p)) && Legal(c, Steps(p + [call])) && InTime(c, p + [call])
    requires InTime(c, p) && (OnTime(c, p, call) || Trails(p, call))
    ensures Agrees(c, p + [call])
  {
    hide Grips, Legal, Run, InTime, Claims, BumpGens, OnTime, Agrees, Trails;
    if OnTime(c, p, call) {
      AgreesOnTime(c, p, call);
    } else {
      assert (p + [call])[..|p|] == p;
      var now := TimeBefore(c, p + [call]);
      InTimeSecure(c, p);
      NoneHeld(c, p, now);
      TrailsIdle(c, p, now, call);
      AgreesIdle(c, p, call);
    }
  }

  lemma AgreesOnTime(c: Config, p: Calls, call: Call)
    requires Agrees(c, p) && Legal(c, Steps(p + [call])) && InTime(c, p + [call]) && OnTime(c, p, call)
    ensures Agrees(c, p + [call])
  {
    hide Grips, Legal, Run, InTime, Claims, BumpGens, OnTime;
    var calls, t, s, f := p + [call], Steps(p), call.step, FencedRun(c, p);
    assert calls[..|p|] == p;
    StepsLast(calls);
    Extend(c, t, s);
    if IsWorkerCall(s.op) { CurrentGen(c, p, call); }
    SameStep(c, f, Run(c, t), call);
    forall id ensures GenOf(FencedRun(c, calls).gens, id) == Claims(c, Steps(calls), id) {
      SameGen(c, f.gens, t, s, id);
    }
  }

  /** In every run whose worker calls are in time, the store without tokens goes through
      exactly the states of the fenced store: whoever changes something is the latest claimer. */
  lemma {:induction false} FencingForFree(c: Config, calls: Calls)
    requires Legal(c, Steps(calls)) && InTime(c, calls)
    ensures Agrees(c, calls)
  {
    if calls != [] {
      var p, call := calls[..|calls|-1], calls[|calls|-1];
      assert calls == p + [call];
      StepsLast(calls);
      Extend(c, Steps(p), call.step);
      FencingForFree(c, p);
      AgreesStep(c, p, call);
    }
  }

  lemma GenStep(c: Config, gens: map<Id, nat>, db: Db, s: Step, id: Id)
    requires multiset(ClaimedBy(db, s))[id] <= 1
    ensures GenOf(BumpGens(gens, ClaimedBy(db, s)), id) == GenOf(gens, id) + multiset(ClaimedBy(db, s))[id]
  {
    assert id in ClaimedBy(db, s) <==> id in multiset(ClaimedBy(db, s));
  }

  /** Every renewal, ack and fail made before its handle's deadline is accepted, comes from the
      latest claimer, and carries the attempt count the store has for the job. */
  lemma AcceptedCall(c: Config, calls: Calls)
    requires calls != [] && Legal(c, Steps(calls)) && InTime(c, calls)
    requires IsWorkerCall(calls[|calls|-1].step.op) && OnTime(c, calls[..|calls|-1], calls[|calls|-1])
    ensures var p, call := calls[..|calls|-1], calls[|calls|-1];
            var h := Caller(call);
            && h in Grips(c, p)
            && LeasedIn(Look(Run(c, Steps(p)), h.id), h.queue)
            && Claims(c, Steps(p), h.id) == h.gen == call.gen
            && Look(Run(c, Steps(p)), h.id).attempts == Grips(c, p)[h].attempts
  {
    var p, call := calls[..|calls|-1], calls[|calls|-1];
    var h := Caller(call);
    StepsLast(calls);
    Extend(c, Steps(p), call.step);
    InTimeSecure(c, p);
    if p != [] { StepsLast(p); }
    OwnCall(c, Steps(p), call.step, if p == [] then call.step.at else LastTime(p), h, Grips(c, p)[h]);
  }

  /** At most one live handle per job, in every run whose worker calls are in time. */
  lemma OneHolder(c: Config, calls: Calls, h: Handle, h': Handle)
    requires Legal(c, Steps(calls)) && InTime(c, calls)
    requires h in Grips(c, calls) && h' in Grips(c, calls) && h.id == h'.id
    requires LastTime(calls) < Grips(c, calls)[h].deadline && LastTime(calls) < Grips(c, calls)[h'].deadline
    ensures h == h'
  {
    InTimeSecure(c, calls);
    OneLiveHandle(c, Steps(calls), LastTime(calls), h, Grips(c, calls)[h], h', Grips(c, calls)[h']);
  }
}
