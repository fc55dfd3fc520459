/** The HTTP handlers' own logic (internal/cogs/api.go): the long poll of handleClaim, how
    renew, ack and fail turn a lost lease into a conflict, and how the batch ack does not. */
module Api {
  import opened Keys
  import M = Model
  import opened Ranking
  import Lifecycle
  import Attempts
  import opened Priority
  import opened Storage
  import Backoff

  datatype ClaimAnswer =
    | Granted(jobs: seq<LeasedJob>, leaseTtl: int, heartbeatEvery: int)
    | Unprocessable
    | ServerError
    | ClientGone

  datatype Status = Okay | Conflict | Invalid | Broken

  predicate Acceptable(queues: seq<string>) { queues != [] && forall q | q in queues :: ValidQueueName(q) }

  /** The validation loop of handleClaim. */
  method Accepts(queues: seq<string>) returns (ok: bool)
    ensures ok <==> Acceptable(queues)
  {
    if |queues| == 0 {
      return false;
    }
    for i := 0 to |queues|
      invariant forall q | q in queues[..i] :: ValidQueueName(q)
    {
      if !ValidQueueName(queues[i]) {
        return false;
      }
      assert queues[..i + 1] == queues[..i] + [queues[i]];
    }
    assert queues[..|queues|] == queues;
    return true;
  }

  /** The long poll. An empty answer comes only once the clamped wait is over, from a claim
      that found every listed queue empty; a claim that hands out jobs ends it at once. Polls
      are at least 25 ms apart. `began` is when the last claim sampled the clock, `vs` its
      calls; `leaves` says after which poll the client is gone. */
  method HandleClaim(store: Store, queues: seq<string>, batch: int, waitMs: int,
                     net: nat -> nat -> Net, leaves: nat -> bool)
    returns (r: ClaimAnswer, ghost began: int, ghost vs: seq<Visit>, ghost polls: nat)
    requires store.Valid() && store.cfg.leaseTtl > 0 && store.cfg.heartbeatDivisor >= 1
    modifies store, store.redis
    ensures store.Valid() && Continues(old(store.trace), store.trace)
    ensures r.Unprocessable? <==> !Acceptable(queues)
    ensures r.Unprocessable? ==> store.trace == old(store.trace)
    ensures polls >= 1 ==> store.redis.clock - old(store.redis.clock) >= 25 * (polls - 1)
    ensures r.Granted? ==> polls >= 1
    ensures r.ServerError? ==> exists poll: nat, i: nat :: !net(poll)(i).Delivered?
    ensures r.ClientGone? ==> exists poll: nat :: leaves(poll)
    ensures r.Granted? ==>
              && old(store.redis.clock) <= began
              && Collected(store.cfg, store.trace, queues, Clamped(batch, store.cfg.maxClaimBatch),
                           began + store.cfg.leaseTtl, vs, r.jobs)
              && (r.jobs == [] ==>
                    store.redis.clock - old(store.redis.clock)
                    >= if waitMs > store.cfg.maxClaimWait then store.cfg.maxClaimWait else waitMs)
              && r.leaseTtl == store.cfg.leaseTtl && r.heartbeatEvery == store.cfg.leaseTtl / store.cfg.heartbeatDivisor
  {
    hide Recorded;
    began, vs, polls := store.redis.clock, [], 0;
    var acceptable := Accepts(queues);
    if !acceptable {
      return Unprocessable, began, vs, polls;
    }
    var wait := if waitMs > store.cfg.maxClaimWait then store.cfg.maxClaimWait else waitMs;
    var deadline := store.redis.clock + wait;
    var poll: nat := 0;
    while true
      invariant store.Valid() && Continues(old(store.trace), store.trace)
      invariant store.redis.clock - old(store.redis.clock) >= 25 * poll && polls == poll
      decreases deadline - store.redis.clock
    {
      began := store.redis.clock;
      var reply;
      reply, vs := store.Claim(queues, batch, net(poll));
      polls := poll + 1;
      if reply.Failed? {
        return ServerError, began, vs, polls;
      }
      if |reply.value| > 0 || store.redis.clock >= deadline {
        var every := store.cfg.leaseTtl / store.cfg.heartbeatDivisor;
        return Granted(reply.value, store.cfg.leaseTtl, every), began, vs, polls;
      }
      if leaves(poll) {
        return ClientGone, began, vs, polls;
      }
      store.Sleep(25);
      poll := poll + 1;
    }
  }

  // ----- a lease that is gone is a conflict ------------------------------------------------

  ghost predicate Leases(c: M.Config, t: M.Trace, queue: string, id: M.Id) { id in M.Run(c, t).queues[queue].leased }

  /** Answered 200 exactly when the lease was there as the script ran, 409 when it was not. */
  ghost predicate Tells(c: M.Config, before: M.Trace, queue: string, id: M.Id, status: Status) {
    && (status.Okay? ==> Leases(c, before, queue, id))
    && (status.Conflict? ==> !Leases(c, before, queue, id))
  }

  method HandleRenew(store: Store, queue: string, id: M.Id, net: Net) returns (status: Status, ghost before: M.Trace)
    requires store.Valid()
    modifies store, store.redis
    ensures store.Valid() && Continues(old(store.trace), store.trace)
    ensures status.Invalid? <==> !ValidQueueName(queue)
    ensures status.Broken? <==> ValidQueueName(queue) && !net.Delivered?
    ensures store.own == if status.Invalid? then old(store.own) else Added(old(store.own), net, before)
    ensures Tells(store.cfg, before, queue, id, status)
    ensures status.Okay? ==> id in M.Run(store.cfg, before).queues[queue].leased
    ensures status.Conflict? ==> id !in M.Run(store.cfg, before).queues[queue].leased
    ensures Continues(old(store.trace), before) && old(store.redis.clock) <= store.redis.clock
    ensures !status.Invalid? ==>
              Sent(net, before, store.trace, M.Step(store.redis.clock, M.RenewOp(queue, id,
                    old(store.redis.clock) + store.cfg.leaseTtl)))
  {
    hide Recorded, M.Run;
    before := store.trace;
    if !ValidQueueName(queue) {
      return Invalid, before;
    }
    var r;
    r, before := store.Renew(queue, id, net);
    status := if r.Failed? then Broken else if r.value.None? then Conflict else Okay;
  }

  method HandleAck(store: Store, queue: string, id: M.Id, net: Net) returns (status: Status, ghost before: M.Trace)
    requires store.Valid()
    modifies store, store.redis
    ensures store.Valid() && Continues(old(store.trace), store.trace)
    ensures status.Invalid? <==> !ValidQueueName(queue)
    ensures status.Broken? <==> ValidQueueName(queue) && !net.Delivered?
    ensures store.own == if status.Invalid? then old(store.own) else Added(old(store.own), net, before)
    ensures Tells(store.cfg, before, queue, id, status)
    ensures status.Okay? ==> id in M.Run(store.cfg, before).queues[queue].leased
    ensures status.Conflict? ==> id !in M.Run(store.cfg, before).queues[queue].leased
    ensures Continues(old(store.trace), before) && old(store.redis.clock) <= store.redis.clock
    ensures !status.Invalid? ==> Sent(net, before, store.trace, M.Step(store.redis.clock, M.AckOp(queue, [id])))
  {
    hide Recorded, M.Run;
    before := store.trace;
    if !ValidQueueName(queue) {
      return Invalid, before;
    }
    var r;
    r, before := store.Ack(queue, [id], net);
    AckOne(M.Run(store.cfg, before).queues[queue], id);
    status := if r.Failed? then Broken else if r.value == 0 then Conflict else Okay;
  }

  lemma AckOne(z: M.Queue, id: M.Id)
    ensures |M.Acked(z, [id])| == if id in z.leased then 1 else 0
  {
    assert M.Acked(z, [id]) == if id in z.leased then {id} else {};
  }

  // ----- a lease that is gone is no conflict for the batch ack ------------------------------

  /** What the batch endpoint answers: 200 to every delivered call, with the number removed. */
  ghost predicate BatchReply(c: M.Config, before: M.Trace, queue: string, ids: seq<M.Id>, net: Net,
                             status: Status, acked: nat) {
    && (status.Invalid? <==> !ValidQueueName(queue))
    && (status.Broken? <==> ValidQueueName(queue) && ids != [] && !net.Delivered?)
    && !status.Conflict?
    && (status.Okay? ==> acked == |M.Acked(M.Run(c, before).queues[queue], ids)|)
  }

  /** An empty list calls nothing. */
  method HandleAckBatch(store: Store, queue: string, ids: seq<M.Id>, net: Net)
    returns (status: Status, acked: nat, ghost before: M.Trace)
    requires store.Valid()
    modifies store, store.redis
    ensures store.Valid() && Continues(old(store.trace), store.trace)
    ensures BatchReply(store.cfg, before, queue, ids, net, status, acked)
    ensures !ValidQueueName(queue) ==> status.Invalid?
    ensures ValidQueueName(queue) && (net.Delivered? || ids == []) ==> status.Okay?
    ensures Continues(old(store.trace), before) && old(store.redis.clock) <= store.redis.clock
    ensures status.Invalid? || ids == [] ==> store.trace == before == old(store.trace) && store.own == old(store.own)
    ensures !status.Invalid? && ids != [] ==>
              && Sent(net, before, store.trace, M.Step(store.redis.clock, M.AckOp(queue, ids)))
              && store.own == Added(old(store.own), net, before)
  {
    hide Recorded, M.Run;
    before, acked := store.trace, 0;
    if !ValidQueueName(queue) {
      return Invalid, acked, before;
    }
    var r;
    r, before := store.Ack(queue, ids, net);
    if r.Failed? {
      return Broken, acked, before;
    }
    return Okay, r.value, before;
  }

  /** The step took away a job that was there. */
  ghost predicate Removes(c: M.Config, t: M.Trace, s: M.Step, id: M.Id) {
    id in M.Run(c, t).jobs && id !in M.Run(c, t + [s]).jobs
  }

  /** A batch ack answered 200 has removed a listed job if and only if it was leased in that
      queue as the script ran. The status is the same in either case; the count tells: it is
      the number of jobs removed, all that were listed exactly when it is their number, and
      when it is 0 nothing has changed. */
  lemma AckRemovesIff(c: M.Config, t: M.Trace, s: M.Step, net: Net, status: Status, acked: nat)
    requires M.Legal(c, t + [s]) && s.op.AckOp?
    requires BatchReply(c, t, s.op.queue, s.op.ids, net, status, acked) && status.Okay?
    ensures forall id | id in s.op.ids :: Removes(c, t, s, id) <==> Leases(c, t, s.op.queue, id)
    ensures acked == |set id | id in s.op.ids && Removes(c, t, s, id)|
    ensures acked == |Members(s.op.ids)| <==> forall id | id in s.op.ids :: Removes(c, t, s, id)
    ensures acked == 0 ==> M.Run(c, t + [s]) == M.Run(c, t)
  {
    hide M.Run, M.Legal;
    var gone := M.Acked(M.Run(c, t).queues[s.op.queue], s.op.ids);
    forall id | id in s.op.ids ensures Removes(c, t, s, id) <==> id in gone { AckRemoves(c, t, s, id); }
    assert forall id | id in s.op.ids :: id in gone <==> Leases(c, t, s.op.queue, id);
    assert gone == set id | id in s.op.ids && Removes(c, t, s, id);
    assert gone <= Members(s.op.ids);
    if acked == |Members(s.op.ids)| { SameSize(gone, Members(s.op.ids)); }
    if forall id | id in s.op.ids :: Removes(c, t, s, id) { assert gone == Members(s.op.ids); }
    if acked == 0 { AckNothing(c, t, s); }
  }

  lemma AckRemoves(c: M.Config, t: M.Trace, s: M.Step, id: M.Id)
    requires M.Legal(c, t + [s]) && s.op.AckOp? && id in s.op.ids
    ensures Removes(c, t, s, id) <==> id in M.Acked(M.Run(c, t).queues[s.op.queue], s.op.ids)
  {
    Attempts.Extend(c, t, s);
    Lifecycle.NoJobLostOrDuplicated(c, t);
    Lifecycle.SoundAt(M.Run(c, t), s.op.queue, id);
  }

  lemma SameSize<T>(a: set<T>, b: set<T>)
    requires a <= b && |a| == |b|
    ensures a == b
  {
    assert |b - a| == |b| - |a|;
  }

  lemma AckNothing(c: M.Config, t: M.Trace, s: M.Step)
    requires s.op.AckOp? && M.Acked(M.Run(c, t).queues[s.op.queue], s.op.ids) == {}
    ensures M.Run(c, t + [s]) == M.Run(c, t)
  {
    hide M.Run, M.Ack;
    Attempts.Extend(c, t, s);
    NoneAcked(M.Run(c, t), s.op.queue, s.op.ids);
  }

  lemma NoneAcked(db: M.Db, queue: string, ids: seq<M.Id>)
    requires M.Acked(db.queues[queue], ids) == {}
    ensures M.Ack(db, queue, ids) == db
  {
    var z := db.queues[queue];
    assert z.leased - {} == z.leased && db.jobs - {} == db.jobs;
    assert M.Ack(db, queue, ids).queues == db.queues;
  }

  method HandleFail(store: Store, queue: string, id: M.Id, attempt: int, draw: int, net: Net)
    returns (status: Status, ending: Ending, ghost before: M.Trace)
    requires store.Valid() && Backoff.Jitter(draw)
    modifies store, store.redis
    ensures store.Valid() && Continues(old(store.trace), store.trace)
    ensures status.Invalid? <==> !ValidQueueName(queue)
    ensures status.Broken? <==> ValidQueueName(queue) && !net.Delivered?
    ensures store.own == if status.Invalid? then old(store.own) else Added(old(store.own), net, before)
    ensures Tells(store.cfg, before, queue, id, status)
    ensures status.Okay? ==> id in M.Run(store.cfg, before).queues[queue].leased
    ensures status.Conflict? ==> id !in M.Run(store.cfg, before).queues[queue].leased
    ensures status.Okay? || status.Conflict? ==> ending == EndingOf(store.cfg, M.Run(store.cfg, before), queue, id)
    ensures Continues(old(store.trace), before) && old(store.redis.clock) <= store.redis.clock
    ensures !status.Invalid? ==>
              Sent(net, before, store.trace, M.Step(store.redis.clock, M.FailOp(queue, id,
                old(store.redis.clock) + Backoff.DelayMs(store.cfg.backoffBase, attempt, draw))))
  {
    hide Recorded, M.Run;
    before, ending := store.trace, Gone;
    if !ValidQueueName(queue) {
      return Invalid, ending, before;
    }
    var r;
    r, before := store.Fail(queue, id, attempt, draw, net);
    if r.Failed? {
      return Broken, ending, before;
    }
    return if r.value == Gone then Conflict else Okay, r.value, before;
  }
}
