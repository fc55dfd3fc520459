/** A server's campaign for leadership (Run, tryAcquire and release in
    internal/cogs/leader.go) as code over the store, tied to the election protocol: the ghost
    history is a possible run of the protocol, the lock in Redis is its lock, and this
    process's `held` flag is its belief in it. */
module Election {
  import opened Wrappers
  import M = Model
  import L = Leadership
  import opened Storage

  /** None of the steps from `from` on is by this process. */
  predicate Apart(me: string, h: L.History, from: nat) { forall k | from <= k < |h| :: h[k].event.me != me }

  /** From `from` on this process at most hears an answer. */
  predicate Passive(me: string, h: L.History, from: nat) {
    forall k | from <= k < |h| :: h[k].event.me != me || h[k].event in {L.Reply(me), L.NoReply(me)}
  }

  /** How often a process has asked for the lock or for more time. */
  function Sends(me: string, h: L.History): nat {
    if h == [] then 0
    else Sends(me, h[..|h|-1]) + if h[|h|-1].event in {L.Acquire(me), L.Renew(me)} then 1 else 0
  }

  predicate IsSend(me: string, h: L.History, k: nat)
    requires k < |h|
  {
    h[k].event in {L.Acquire(me), L.Renew(me)}
  }

  lemma {:induction false} SendsQuiet(me: string, h: L.History, n: nat)
    requires n <= |h| && forall k | n <= k < |h| :: !IsSend(me, h, k)
    ensures Sends(me, h) == Sends(me, h[..n])
    decreases |h|
  {
    if n == |h| {
      assert h[..n] == h;
    } else {
      var p := h[..|h|-1];
      assert p[..n] == h[..n];
      forall k | n <= k < |p| ensures !IsSend(me, p, k) { assert !IsSend(me, h, k); }
      SendsQuiet(me, p, n);
      assert !IsSend(me, h, |p|);
    }
  }

  /** Of the steps since `h` only step k asks for the lock. */
  lemma OneSend(me: string, h: L.History, h': L.History, k: nat)
    requires h <= h' && |h| <= k < |h'| && IsSend(me, h', k)
    requires forall i | |h| <= i < |h'| && i != k :: !IsSend(me, h', i)
    ensures Sends(me, h') == Sends(me, h) + 1
  {
    var u, v := h'[..k], h'[..k + 1];
    assert u[..|h|] == h && v[..k] == u && h'[..k + 1] == v;
    forall i | |h| <= i < |u| ensures !IsSend(me, u, i) { assert !IsSend(me, h', i); }
    SendsQuiet(me, u, |h|);
    SendsQuiet(me, h', k + 1);
  }

  /** How many of the first n requests are not lost. */
  function Reaching(net: nat -> Net, n: nat): nat {
    if n == 0 then 0 else Reaching(net, n - 1) + if net(n - 1).Lost? then 0 else 1
  }

  /** Command i, unless its request is lost, is step ks[i], not before tick i, and after the
      commands before it. */
  ghost predicate Ticked(me: string, h: L.History, from: nat, start: int, tick: nat, net: nat -> Net, ks: seq<nat>) {
    && (forall i | 0 <= i < |ks| && !net(i).Lost? ::
          from <= ks[i] < |h| && IsSend(me, h, ks[i]) && h[ks[i]].at >= start + i * tick)
    && (forall i, j | 0 <= i < j < |ks| && !net(i).Lost? && !net(j).Lost? :: ks[i] < ks[j])
  }

  lemma TickedMore(me: string, h: L.History, h': L.History, from: nat, start: int, tick: nat, net: nat -> Net,
                   ks: seq<nat>, k: nat)
    requires h <= h' && Ticked(me, h, from, start, tick, net, ks) && from <= |h|
    requires !net(|ks|).Lost? ==>
               |h| <= k < |h'| && IsSend(me, h', k) && h'[k].at >= start + |ks| * tick
    ensures Ticked(me, h', from, start, tick, net, ks + [k])
  {
    var more := ks + [k];
    forall i | 0 <= i < |more| && !net(i).Lost?
      ensures from <= more[i] < |h'| && IsSend(me, h', more[i]) && h'[more[i]].at >= start + i * tick
    {
      assert i < |ks| ==> more[i] == ks[i] && IsSend(me, h, ks[i]);
    }
  }

  /** What others do, and answers that come late, never make the lock one's own. */
  lemma {:induction false} NotMineLater(ttl: int, h: L.History, n: nat, me: string, now: int)
    requires L.Possible(ttl, h) && 0 < n <= |h| && Passive(me, h, n) && h[|h|-1].at <= now
    requires !L.Mine(L.Play(ttl, h[..n]).lock, h[n-1].at, me)
    ensures !L.Mine(L.Play(ttl, h).lock, now, me)
    decreases |h|
  {
    if n == |h| {
      assert h[..n] == h;
    } else {
      var p, m := h[..|h|-1], h[|h|-1];
      assert p[..n] == h[..n];
      NotMineLater(ttl, p, n, me, m.at);
      L.OnlyOwnLock(ttl, L.Play(ttl, p), m);
    }
  }

  class Leader {
    const store: Store
    const id: string
    var held: bool
    ghost var history: L.History

    ghost function Me(): L.Process
      reads this, store
    {
      L.Of(L.Play(store.cfg.lockTtl, history), id)
    }

    /** The history is a run of the protocol up to now, and Redis holds its lock. */
    ghost predicate Linked()
      reads this, store, store.redis
    {
      && store.Valid() && store.cfg.lockTtl >= 1
      && L.Possible(store.cfg.lockTtl, history)
      && L.Play(store.cfg.lockTtl, history).lock == store.redis.db.lock
      && (history != [] ==> history[|history|-1].at <= store.redis.clock)
    }

    ghost predicate Valid()
      reads this, store, store.redis
    {
      Linked() && Me().held == held && Me().waiting == L.Nothing
    }

    constructor (store: Store, id: string)
      requires store.Valid() && store.cfg.lockTtl >= 1 && store.redis.db.lock == None
      ensures Valid() && this.store == store && this.id == id && !held
    {
      this.store, this.id, held, history := store, id, false, [];
    }

    /** Other processes campaign, renew, release and crash, and time passes; nobody else acts
        under this process's ID. */
    method Others(ms: nat)
      requires Linked()
      modifies `history, store, store.redis
      ensures Linked() && old(history) <= history && Me() == old(Me()) && Apart(id, history, |old(history)|)
      ensures Continues(old(store.trace), store.trace) && old(store.redis.clock) + ms <= store.redis.clock
    {
      store.redis.clock := store.redis.clock + ms;
    }

    /** Appends one protocol step, whose effect on the lock Redis has already had. */
    ghost method Note(e: L.Event)
      requires store.Valid() && store.cfg.lockTtl >= 1 && L.Possible(store.cfg.lockTtl, history)
      requires history != [] ==> history[|history|-1].at <= store.redis.clock
      requires L.Enabled(L.Play(store.cfg.lockTtl, history), e)
      requires L.Next(store.cfg.lockTtl, L.Play(store.cfg.lockTtl, history), L.Moment(store.redis.clock, e)).lock
               == store.redis.db.lock
      modifies `history
      ensures Linked() && history == old(history) + [L.Moment(store.redis.clock, e)]
      ensures L.Play(store.cfg.lockTtl, history)
              == L.Next(store.cfg.lockTtl, L.Play(store.cfg.lockTtl, old(history)), L.Moment(store.redis.clock, e))
    {
      var m := L.Moment(store.redis.clock, e);
      L.Grow(store.cfg.lockTtl, history, m, L.Play(store.cfg.lockTtl, history));
      history := history + [m];
    }

    method RunRenew() returns (ok: int)
      requires store.Valid() && store.cfg.lockTtl >= 1
      modifies store`trace, store`own, store.redis
      ensures store.Valid() && store.redis.clock == old(store.redis.clock)
      ensures store.redis.db.lock == M.LockRenew(old(store.redis.db.lock), store.redis.clock, store.cfg.lockTtl, id)
      ensures ok == if L.Mine(old(store.redis.db.lock), store.redis.clock, id) then 1 else 0
    {
      ok := store.redis.RenewLock(id, store.cfg.lockTtl);
      store.Log(M.LockRenewOp(id));
    }

    method RunAcquire() returns (acquired: bool)
      requires store.Valid() && store.cfg.lockTtl >= 1
      modifies store`trace, store`own, store.redis
      ensures store.Valid() && store.redis.clock == old(store.redis.clock)
      ensures store.redis.db.lock == M.LockAcquire(old(store.redis.db.lock), store.redis.clock, store.cfg.lockTtl, id)
      ensures acquired <==> !M.Holds(old(store.redis.db.lock), store.redis.clock)
    {
      acquired := store.redis.AcquireLock(id, store.cfg.lockTtl);
      store.Log(M.LockAcquireOp(id));
    }

    method RunRelease()
      requires store.Valid()
      modifies store`trace, store`own, store.redis
      ensures store.Valid() && store.redis.clock == old(store.redis.clock)
      ensures store.redis.db.lock == M.LockRelease(old(store.redis.db.lock), store.redis.clock, id)
    {
      var n := store.redis.ReleaseLock(id);
      store.Log(M.LockReleaseOp(id));
    }

    /** The renewal script, one protocol step. */
    method SendRenew() returns (ok: int)
      requires Linked() && Me().waiting == L.Nothing && Me().held
      modifies `history, store`trace, store`own, store.redis
      ensures Linked() && history == old(history) + [L.Moment(store.redis.clock, L.Renew(id))]
      ensures ok == if L.Mine(old(store.redis.db.lock), store.redis.clock, id) then 1 else 0
      ensures Me().waiting == L.Renewing(ok == 1) && Me().held && store.redis.clock == old(store.redis.clock)
    {
      hide Recorded, L.Possible, L.Play, M.LockRenew;
      ok := RunRenew();
      Note(L.Renew(id));
    }

    method SendAcquire() returns (acquired: bool)
      requires Linked() && Me().waiting == L.Nothing && !Me().held
      modifies `history, store`trace, store`own, store.redis
      ensures Linked() && history == old(history) + [L.Moment(store.redis.clock, L.Acquire(id))]
      ensures acquired <==> !M.Holds(old(store.redis.db.lock), store.redis.clock)
      ensures Me().waiting == L.Acquiring(acquired) && !Me().held && store.redis.clock == old(store.redis.clock)
    {
      hide Recorded, L.Possible, L.Play, M.LockAcquire;
      acquired := RunAcquire();
      Note(L.Acquire(id));
    }

    method SendRelease(reached: bool)
      requires Linked() && Me().waiting == L.Nothing && Me().held
      modifies `history, store`trace, store`own, store.redis
      ensures Linked() && history == old(history) + [L.Moment(store.redis.clock, L.Release(id, reached))]
      ensures Me().waiting == L.Releasing(reached) && Me().held && store.redis.clock == old(store.redis.clock)
      ensures reached ==> !L.Mine(store.redis.db.lock, store.redis.clock, id)
    {
      hide Recorded, L.Possible, L.Play;
      if reached {
        RunRelease();
      }
      Note(L.Release(id, reached));
    }

    /** The reply arrives, or an error does. */
    ghost method Hear(answered: bool)
      requires Linked() && Me().waiting != L.Nothing
      modifies `history
      ensures Linked() && old(history) <= history && Me().waiting == L.Nothing
      ensures |history| == |old(history)| + 1 && history[|old(history)|].event in {L.Reply(id), L.NoReply(id)}
      ensures Me().held == if answered then L.Belief(old(Me())) else old(Me()).held && !old(Me()).waiting.Releasing?
    {
      Note(if answered then L.Reply(id) else L.NoReply(id));
    }

    /** One tick: renews when it believes it leads, campaigns otherwise. Step k of the history
        is the command. An error leaves the belief as it was; an answer makes it what held at
        that step. */
    method TryAcquire(net: Net) returns (ghost k: nat)
      requires Valid()
      modifies this, store, store.redis
      ensures Valid() && old(history) <= history && old(store.redis.clock) <= store.redis.clock
      ensures !net.Delivered? ==> held == old(held)
      ensures !net.Lost? ==>
                && |old(history)| <= k < |history| && history[k].at >= old(store.redis.clock)
                && history[k].event == if old(held) then L.Renew(id) else L.Acquire(id)
      ensures Sends(id, history) == Sends(id, old(history)) + if net.Lost? then 0 else 1
      ensures net.Delivered? ==> held == Won(history, k, old(held))
    {
      hide Recorded, L.Possible, L.Play, Sends;
      Others(0);
      assert history[..|old(history)|] == old(history);
      SendsQuiet(id, history, |old(history)|);
      k := |history|;
      ghost var h := history;
      if net.Lost? {
        return;
      }
      if held { RenewLock(net); } else { Campaign(net); }
      assert history[..k] == h;
    }

    /** What Redis answers to the command at step k. */
    ghost predicate Won(h: L.History, k: nat, renews: bool)
      requires k < |h|
      reads store
    {
      var lock := L.Play(store.cfg.lockTtl, h[..k]).lock;
      if renews then L.Mine(lock, h[k].at, id) else !M.Holds(lock, h[k].at)
    }

    method RenewLock(net: Net)
      requires Valid() && held && !net.Lost?
      modifies this, store, store.redis
      ensures Valid() && old(history) < history && history[|old(history)|].event == L.Renew(id)
      ensures Sends(id, history) == Sends(id, old(history)) + 1
      ensures old(store.redis.clock) <= history[|old(history)|].at && old(store.redis.clock) <= store.redis.clock
      ensures held <==> net.Unanswered? || L.Mine(old(store.redis.db.lock), history[|old(history)|].at, id)
    {
      hide Recorded, L.Possible, L.Play, Sends;
      var ok := SendRenew();
      Others(0);
      Hear(net.Delivered?);
      OneSend(id, old(history), history, |old(history)|);
      if net.Delivered? && ok == 0 {
        held := false;
      }
    }

    method Campaign(net: Net)
      requires Valid() && !held && !net.Lost?
      modifies this, store, store.redis
      ensures Valid() && old(history) < history && history[|old(history)|].event == L.Acquire(id)
      ensures Sends(id, history) == Sends(id, old(history)) + 1
      ensures old(store.redis.clock) <= history[|old(history)|].at && old(store.redis.clock) <= store.redis.clock
      ensures held <==> net.Delivered? && !M.Holds(old(store.redis.db.lock), history[|old(history)|].at)
    {
      hide Recorded, L.Possible, L.Play, Sends;
      var acquired := SendAcquire();
      Others(0);
      Hear(net.Delivered?);
      OneSend(id, old(history), history, |old(history)|);
      if net.Delivered? && acquired {
        held := true;
      }
    }

    /** The script first, the flag after: others may act in between. Once the script has run
        the lock is not this process's any more, so a peer need not wait out the TTL. */
    method Release(net: Net)
      requires Valid()
      modifies this, store, store.redis
      ensures Valid() && old(history) <= history && !held && old(store.redis.clock) <= store.redis.clock
      ensures Sends(id, history) == Sends(id, old(history))
      ensures old(held) && !net.Lost? ==> !L.Mine(store.redis.db.lock, store.redis.clock, id)
    {
      hide Recorded, L.Possible, L.Play, L.Mine, Passive;
      if held {
        Others(0);
        assert history[..|old(history)|] == old(history);
        SendsQuiet(id, history, |old(history)|);
        ReleaseHeld(net);
      }
    }

    method ReleaseHeld(net: Net)
      requires Valid() && held
      modifies this, store, store.redis
      ensures Valid() && old(history) <= history && !held && old(store.redis.clock) <= store.redis.clock
      ensures Sends(id, history) == Sends(id, old(history))
      ensures !net.Lost? ==> !L.Mine(store.redis.db.lock, store.redis.clock, id)
    {
      hide Recorded, L.Possible, L.Play, Sends, L.Mine, Passive;
      SendRelease(!net.Lost?);
      ghost var h := history;
      Others(0);
      Hear(net.Delivered?);
      held := false;
      assert history[..|old(history)|] == old(history);
      SendsQuiet(id, history, |old(history)|);
      OnlyHeard(h);
      if !net.Lost? { StaysReleased(h); }
    }

    /** Since `h` others acted, and then this process heard one answer. */
    lemma OnlyHeard(h: L.History)
      requires h <= history && |history| > |h| && Apart(id, history[..|history|-1], |h|)
      requires history[|history|-1].event in {L.Reply(id), L.NoReply(id)}
      ensures Passive(id, history, |h|)
    {
      forall k | |h| <= k < |history|
        ensures history[k].event.me != id || history[k].event in {L.Reply(id), L.NoReply(id)}
      {
        assert k < |history| - 1 ==> history[..|history|-1][k] == history[k];
      }
    }

    lemma StaysReleased(h: L.History)
      requires Linked() && h != [] && h <= history && Passive(id, history, |h|)
      requires !L.Mine(L.Play(store.cfg.lockTtl, h).lock, h[|h|-1].at, id)
      ensures !L.Mine(store.redis.db.lock, store.redis.clock, id)
    {
      hide Recorded, L.Play;
      assert history[..|h|] == h;
      NotMineLater(store.cfg.lockTtl, history, |h|, id, store.redis.clock);
    }

    /** The ticker period in milliseconds. */
    function TickMs(): nat
      reads store
    {
      L.Tick(store.cfg.lockTtl * 1_000_000) / 1_000_000
    }

    /** Waits for the next tick and campaigns. */
    method OnTick(tick: nat, net: Net) returns (ghost k: nat)
      requires Valid()
      modifies this, store, store.redis
      ensures Valid() && old(history) <= history && old(store.redis.clock) + tick <= store.redis.clock
      ensures !net.Lost? ==>
                && |old(history)| <= k < |history| && history[k].at >= old(store.redis.clock) + tick
                && IsSend(id, history, k)
      ensures Sends(id, history) == Sends(id, old(history)) + if net.Lost? then 0 else 1
    {
      hide Recorded, L.Possible, L.Play, Sends;
      Others(tick);
      assert history[..|old(history)|] == old(history);
      SendsQuiet(id, history, |old(history)|);
      k := TryAcquire(net);
    }

    /** Campaigns at once and then after every tick, until it is told to stop; then releases.
        Command i is step ks[i]; there are no others. */
    method Run(ticks: nat, net: nat -> Net, last: Net) returns (ghost led: bool, ghost ks: seq<nat>)
      requires Valid()
      modifies this, store, store.redis
      ensures Valid() && old(history) <= history && !held
      ensures |ks| == ticks + 1
      ensures TickMs() == if store.cfg.lockTtl < 300 then 100 else store.cfg.lockTtl / 3
      ensures Ticked(id, history, |old(history)|, old(store.redis.clock), TickMs(), net, ks)
      ensures Sends(id, history) == Sends(id, old(history)) + Reaching(net, ticks + 1)
      ensures store.redis.clock >= old(store.redis.clock) + ticks * TickMs()
      ensures led && !last.Lost? ==> !L.Mine(store.redis.db.lock, store.redis.clock, id)
    {
      hide Recorded, L.Possible, L.Play, L.Mine, Ticked, Sends;
      var tick := TickMs();
      ghost var k := TryAcquire(net(0));
      NoneTicked(old(history), old(store.redis.clock), tick, net);
      TickedMore(id, old(history), history, |old(history)|, old(store.redis.clock), tick, net, [], k);
      assert [] + [k] == [k];
      ks := [k];
      for i := 0 to ticks
        invariant Valid() && old(history) <= history && |ks| == i + 1
        invariant store.redis.clock >= old(store.redis.clock) + i * tick
        invariant Sends(id, history) == Sends(id, old(history)) + Reaching(net, i + 1)
        invariant Ticked(id, history, |old(history)|, old(store.redis.clock), tick, net, ks)
      {
        ghost var h := history;
        assert (i + 1) * tick == i * tick + tick;
        k := OnTick(tick, net(i + 1));
        TickedMore(id, h, history, |old(history)|, old(store.redis.clock), tick, net, ks, k);
        ks := ks + [k];
      }
      led := held;
      ghost var h := history;
      Release(last);
      TickedLater(h, |old(history)|, old(store.redis.clock), tick, net, ks);
    }

    lemma NoneTicked(h: L.History, start: int, tick: nat, net: nat -> Net)
      ensures Ticked(id, h, |h|, start, tick, net, [])
    {
    }

    lemma TickedLater(h: L.History, from: nat, start: int, tick: nat, net: nat -> Net, ks: seq<nat>)
      requires h <= history && Ticked(id, h, from, start, tick, net, ks)
      ensures Ticked(id, history, from, start, tick, net, ks)
    {
      forall i | 0 <= i < |ks| && !net(i).Lost?
        ensures from <= ks[i] < |history| && IsSend(id, history, ks[i]) && history[ks[i]].at >= start + i * tick
      {
        assert IsSend(id, h, ks[i]);
      }
    }
  }

  /** What the protocol proves of any server running this code: if its flag says it leads and
      its last successful command is less than a TTL old, Redis names it as the leader. */
  lemma HeldIsOwner(leader: Leader)
    requires leader.Valid() && leader.held
    requires L.Fresh(leader.store.cfg.lockTtl, leader.Me(), leader.store.redis.clock)
    ensures L.Mine(leader.store.redis.db.lock, leader.store.redis.clock, leader.id)
  {
    L.FreshAlways(leader.store.cfg.lockTtl, leader.history, leader.store.redis.clock);
  }
}
