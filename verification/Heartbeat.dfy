/** The SDK's heartbeat schedule keeps worker calls in time. */
module Heartbeat {
  import opened Model
  import opened Fencing

  // ----- the schedule --------------------------------------------------------------------

  /** The interval the claim reply carries, and the worker's fallback of one second. */
  function Interval(c: Config): int
    requires c.heartbeatDivisor >= 1
  {
    var every := c.leaseTtl / c.heartbeatDivisor;
    if every <= 0 then 1000 else every
  }

  /** When heartbeat k of a handler that started at `start` is sent. */
  function SentAt(start: int, k: nat, every: int): int { start + k * every }

  /** What a worker's schedule says about one call. Processing starts within `delay` of the
      clock sample behind the claim's deadline. Heartbeat k is sent at start + k * every and
      reaches the store within `delay`; the server reads its clock after that send. At most
      one heartbeat in a row is lost. A report reaches the store within `delay` of the first
      heartbeat time after the handler returned. A heartbeat in flight at that report may run
      at any time after an ack, and up to the retry time after a failure. */
  ghost predicate Beat(c: Config, every: int, delay: int, start: Handle -> int, p: Calls, call: Call) {
    var op := call.step.op;
    if op.ClaimOp? then
      forall h | h in NewGrips(c, Steps(p), op) :: start(h) <= op.deadline - c.leaseTtl + delay
    else if Trails(p, call) then true
    else
      IsWorkerCall(op) ==>
        && SingleJob(op)
        && Caller(call) in Grips(c, p)
        && var h := Caller(call);
           && call.tick <= Grips(c, p)[h].tick + 2
           && call.step.at <= SentAt(start(h), call.tick, every) + delay
           && (op.RenewOp? ==> call.tick >= 1 && SentAt(start(h), call.tick, every) <= op.deadline - c.leaseTtl)
  }

  ghost predicate Paced(c: Config, every: int, delay: int, start: Handle -> int, calls: Calls) {
    calls == []
    || (Paced(c, every, delay, start, calls[..|calls|-1])
        && Beat(c, every, delay, start, calls[..|calls|-1], calls[|calls|-1]))
  }

  /** A handle's deadline is a full TTL after its last heartbeat, or after its claim. */
  ghost predicate Fresh(c: Config, every: int, delay: int, start: int, g: Grip) {
    g.deadline >= (if g.tick == 0 then start - delay else SentAt(start, g.tick, every)) + c.leaseTtl
  }

  lemma SentLater(start: int, j: nat, k: nat, every: int)
    requires k <= j + 2 && every >= 0
    ensures SentAt(start, k, every) <= SentAt(start, j, every) + 2 * every
  {
    assert (j + 2) * every == j * every + 2 * every;
    assert k * every <= (j + 2) * every;
  }

  ghost predicate AllFresh(c: Config, every: int, delay: int, start: Handle -> int, calls: Calls) {
    forall h | h in Grips(c, calls) :: Fresh(c, every, delay, start(h), Grips(c, calls)[h])
  }

  lemma NoneFresh(c: Config, every: int, delay: int, start: Handle -> int)
    ensures AllFresh(c, every, delay, start, [])
  {
  }

  lemma StepFresh(c: Config, every: int, delay: int, start: Handle -> int, calls: Calls, h: Handle)
    requires calls != [] && h in Grips(c, calls)
    requires AllFresh(c, every, delay, start, calls[..|calls|-1])
    requires Beat(c, every, delay, start, calls[..|calls|-1], calls[|calls|-1])
    requires Trails(calls[..|calls|-1], calls[|calls|-1]) ==>
               Caller(calls[|calls|-1]) !in Grips(c, calls[..|calls|-1])
    ensures Fresh(c, every, delay, start(h), Grips(c, calls)[h])
  {
    hide Trails;
  }

  /** A call on schedule runs before its handle's deadline, unless it trails a report. */
  lemma BeatOnTime(c: Config, every: int, delay: int, start: Handle -> int, p: Calls, call: Call)
    requires every >= 0 && delay >= 0 && 2 * every + 2 * delay < c.leaseTtl
    requires Beat(c, every, delay, start, p, call) && !Trails(p, call)
    requires AllFresh(c, every, delay, start, p)
    ensures OnTime(c, p, call)
  {
    hide Grips, Trails;
    if IsWorkerCall(call.step.op) {
      var h := Caller(call);
      SentLater(start(h), Grips(c, p)[h].tick, call.tick, every);
    }
  }

  /** The handle of a renewal that trails its report is not held any more. */
  lemma TrailsLetGo(c: Config, calls: Calls)
    requires calls != [] && Legal(c, Steps(calls)) && InTime(c, calls[..|calls|-1])
    requires Trails(calls[..|calls|-1], calls[|calls|-1])
    ensures Caller(calls[|calls|-1]) !in Grips(c, calls[..|calls|-1])
  {
    hide Run, Legal, Grips, Trails;
    var p := calls[..|calls|-1];
    var now := TimeBefore(c, calls);
    InTimeSecure(c, p);
    NoneHeld(c, p, now);
    TrailsIdle(c, p, now, calls[|calls|-1]);
  }

  /** If two intervals and two delays fit in a TTL, every call of every worker is made before
      its deadline or covered by its report, even when every other heartbeat is lost. */
  lemma {:induction false} PacedInTime(c: Config, every: int, delay: int, start: Handle -> int, calls: Calls)
    requires Legal(c, Steps(calls)) && Paced(c, every, delay, start, calls)
    requires every >= 0 && delay >= 0 && 2 * every + 2 * delay < c.leaseTtl
    ensures InTime(c, calls) && AllFresh(c, every, delay, start, calls)
  {
    hide Run, Legal, Grips, Beat, OnTime, Fresh, Trails;
    if calls == [] {
      NoneFresh(c, every, delay, start);
    } else {
      var p, call := calls[..|calls|-1], calls[|calls|-1];
      var now := TimeBefore(c, calls);
      PacedInTime(c, every, delay, start, p);
      if Trails(p, call) { TrailsLetGo(c, calls); } else { BeatOnTime(c, every, delay, start, p, call); }
      forall h | h in Grips(c, calls) ensures Fresh(c, every, delay, start(h), Grips(c, calls)[h]) {
        StepFresh(c, every, delay, start, calls, h);
      }
    }
  }

  /** The SDK's workers get fencing for free: when the heartbeat interval and the delays fit,
      the ID-only store goes through exactly the states of one with generation tokens. */
  lemma HeartbeatsFence(c: Config, delay: int, start: Handle -> int, calls: Calls)
    requires c.heartbeatDivisor >= 1 && delay >= 0 && 2 * Interval(c) + 2 * delay < c.leaseTtl
    requires Legal(c, Steps(calls)) && Paced(c, Interval(c), delay, start, calls)
    ensures InTime(c, calls) && Agrees(c, calls)
  {
    PacedInTime(c, Interval(c), delay, start, calls);
    FencingForFree(c, calls);
  }

  /** Any divisor of three or more leaves room for delays below a sixth of the TTL. */
  lemma DivisorLeavesRoom(c: Config, delay: int)
    requires c.heartbeatDivisor >= 3 && c.leaseTtl >= c.heartbeatDivisor && 6 * delay < c.leaseTtl
    ensures 2 * Interval(c) + 2 * delay < c.leaseTtl
  {
    DivisionBound(c.leaseTtl, c.heartbeatDivisor);
  }

  lemma DivisionBound(ttl: int, divisor: int)
    requires divisor >= 3 && ttl >= divisor
    ensures 1 <= ttl / divisor && 3 * (ttl / divisor) <= ttl
  {
    assert ttl / divisor * divisor <= ttl;
    assert 3 * (ttl / divisor) <= ttl / divisor * divisor;
    assert ttl / divisor >= 1;
  }
}
