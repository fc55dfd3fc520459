/** The scheduler (internal/cogs/scheduler.go): Create, Delete, and a Pass that reads the due
    schedules, reads each one's hash, and then fires what it found in one script, with other
    passes, deletions and everything else interleaving between any two commands. */
module Cron {
  import opened Wrappers
  import opened Ranking
  import M = Model
  import Scheduling
  import opened Scripts
  import opened Storage

  /** A cron expression's next time after a given one; None when it cannot be parsed. */
  type Clockwork = (string, int) -> Option<int>

  ghost predicate Forward(next: Clockwork) { forall spec, t | next(spec, t).Some? :: next(spec, t).value > t }

  datatype Creation = Created(id: M.Id, next: int) | InvalidCron | CreateFailed

  /** Due, readable and well formed: present with a cron expression that parses, ever since
      step `from`. */
  ghost predicate Readable(c: M.Config, next: Clockwork, t: M.Trace, from: nat, sid: M.Id) {
    forall m | from <= m <= |t| :: ReadableAt(c, next, t[..m], sid)
  }

  ghost predicate ReadableAt(c: M.Config, next: Clockwork, t: M.Trace, sid: M.Id) {
    var definitions := M.Run(c, t).definitions;
    sid in definitions && forall at :: next(definitions[sid].cron, at).Some?
  }

  /** A schedule whose hash was there all along with an expression that parses is readable. */
  lemma ReadableIf(c: M.Config, next: Clockwork, t: M.Trace, from: nat, sid: M.Id)
    requires forall m | from <= m <= |t| :: sid in M.Run(c, t[..m]).definitions
    requires forall m, at | from <= m <= |t| :: next(M.Run(c, t[..m]).definitions[sid].cron, at).Some?
    ensures Readable(c, next, t, from, sid)
  {
    hide M.Run;
  }

  lemma ReadableEarlier(c: M.Config, next: Clockwork, t: M.Trace, t': M.Trace, from: nat, sid: M.Id)
    requires Continues(t, t') && Readable(c, next, t', from, sid)
    ensures Readable(c, next, t, from, sid)
  {
    forall m | from <= m <= |t| ensures ReadableAt(c, next, t[..m], sid) {
      assert t[..m] == t'[..m];
    }
  }

  predicate Fired(quads: seq<M.Firing>, sid: M.Id) { exists f | f in quads :: f.schedule == sid }

  ghost predicate WasDropped(t: M.Trace, from: nat, sid: M.Id) {
    exists m | from <= m < |t| :: t[m].op == M.DropScheduleOp(sid)
  }

  /** Among the first n due schedules, those whose hash could not be read were dropped, live
      or not, unless the request to drop them was lost. */
  ghost predicate BrokenDropped(t: M.Trace, from: nat, due: seq<M.Id>, n: nat, broken: set<M.Id>, drops: nat -> Net)
    requires n <= |due|
  {
    forall i: nat | i < n && due[i] in broken && !drops(i).Lost? :: WasDropped(t, from, due[i])
  }

  lemma BrokenMore(t: M.Trace, t': M.Trace, from: nat, due: seq<M.Id>, n: nat, broken: set<M.Id>, drops: nat -> Net)
    requires n < |due| && Continues(t, t') && from <= |t| && BrokenDropped(t, from, due, n, broken, drops)
    requires due[n] in broken && !drops(n).Lost? ==> WasDropped(t', |t|, due[n])
    ensures BrokenDropped(t', from, due, n + 1, broken, drops)
  {
    forall i: nat | i < n + 1 && due[i] in broken && !drops(i).Lost? ensures WasDropped(t', from, due[i]) {
      if i < n { DroppedLater(t, t', from, due[i]); }
    }
  }

  lemma DroppedLater(t: M.Trace, t': M.Trace, from: nat, sid: M.Id)
    requires Continues(t, t') && WasDropped(t, from, sid)
    ensures WasDropped(t', from, sid)
  {
    var m :| from <= m < |t| && t[m].op == M.DropScheduleOp(sid);
    assert t'[m] == t[m];
  }

  lemma BrokenLater(t: M.Trace, t': M.Trace, from: nat, due: seq<M.Id>, n: nat, broken: set<M.Id>, drops: nat -> Net)
    requires n <= |due| && Continues(t, t') && BrokenDropped(t, from, due, n, broken, drops)
    ensures BrokenDropped(t', from, due, n, broken, drops)
  {
    forall i: nat | i < n && due[i] in broken && !drops(i).Lost? ensures WasDropped(t', from, due[i]) {
      DroppedLater(t, t', from, due[i]);
    }
  }

  /** Payload and next run, from the hash as it is after a run, at a time. */
  ghost function Usable(c: M.Config, next: Clockwork, t: M.Trace, sid: M.Id, at: int): Option<(string, int)> {
    var definitions := M.Run(c, t).definitions;
    if sid !in definitions then None
    else
      var first := next(definitions[sid].cron, at);
      if first.None? then None else Some((definitions[sid].payload, first.value))
  }

  /** The one own step added since step `from` drops the schedule. */
  ghost predicate DroppedAt(t: M.Trace, from: nat, own: set<nat>, own': set<nat>, sid: M.Id) {
    exists m | from <= m < |t| :: t[m].op == M.DropScheduleOp(sid) && own' == own + {m}
  }

  /** The own steps added only drop due schedules this pass could not use. */
  ghost predicate OnlyUnusable(c: M.Config, next: Clockwork, t: M.Trace, from: nat, due: seq<M.Id>, broken: set<M.Id>,
                               own: set<nat>, own': set<nat>) {
    own <= own' && forall k | k in own' - own :: UnusableDrop(c, next, t, from, due, broken, k)
  }

  ghost predicate UnusableDrop(c: M.Config, next: Clockwork, t: M.Trace, from: nat, due: seq<M.Id>, broken: set<M.Id>,
                               k: nat) {
    && k < |t| && t[k].op.DropScheduleOp? && t[k].op.id in due
    && (t[k].op.id in broken || !Readable(c, next, t, from, t[k].op.id))
  }

  lemma UnusableLater(c: M.Config, next: Clockwork, t: M.Trace, t': M.Trace, from: nat, due: seq<M.Id>,
                      broken: set<M.Id>, own: set<nat>, own': set<nat>)
    requires Continues(t, t') && OnlyUnusable(c, next, t, from, due, broken, own, own')
    ensures OnlyUnusable(c, next, t', from, due, broken, own, own')
  {
    forall k | k in own' - own ensures UnusableDrop(c, next, t', from, due, broken, k) {
      assert UnusableDrop(c, next, t, from, due, broken, k);
      if Readable(c, next, t', from, t[k].op.id) { ReadableEarlier(c, next, t, t', from, t[k].op.id); }
    }
  }

  lemma UnusableMore(c: M.Config, next: Clockwork, t: M.Trace, from: nat, due: seq<M.Id>, broken: set<M.Id>,
                     own: set<nat>, own1: set<nat>, own2: set<nat>, sid: M.Id)
    requires OnlyUnusable(c, next, t, from, due, broken, own, own1) && sid in due
    requires sid in broken || !Readable(c, next, t, from, sid)
    requires own2 == own1 || exists m | 0 <= m < |t| :: t[m].op == M.DropScheduleOp(sid) && own2 == own1 + {m}
    ensures OnlyUnusable(c, next, t, from, due, broken, own, own2)
  {
    forall k | k in own2 - own ensures UnusableDrop(c, next, t, from, due, broken, k) {
      if k in own1 - own { assert UnusableDrop(c, next, t, from, due, broken, k); }
    }
  }

  lemma Untouched(c: M.Config, next: Clockwork, t: M.Trace, from: nat, due: seq<M.Id>, broken: set<M.Id>,
                  own: set<nat>, ids: seq<M.Id>, now: int)
    ensures OnlyUnusable(c, next, t, from, due, broken, own, own) && Drawn([], ids, now)
  {
    assert M.FireIds([]) == [];
  }

  lemma NothingExamined(c: M.Config, next: Clockwork, t: M.Trace, from: nat, w: Span, due: seq<M.Id>,
                        broken: set<M.Id>, drops: nat -> Net)
    ensures Prepared(c, next, t, from, w, due, 0, broken, []) && BrokenDropped(t, from, due, 0, broken, drops)
  {
  }

  lemma DrawnWithin(quads: seq<M.Firing>, ids: seq<M.Id>, now: int)
    requires Drawn(quads, ids, now)
    ensures |quads| <= |ids|
  {
  }

  /** What Prepare found, in terms of the whole span. */
  lemma FoundUsable(c: M.Config, next: Clockwork, read: M.Trace, t: M.Trace, from: nat, w: Span, sid: M.Id, at: int)
    requires Continues(read, t) && from <= |read| && w.first <= at <= w.last
    ensures Usable(c, next, read, sid, at).None? ==> !Readable(c, next, t, from, sid)
    ensures Usable(c, next, read, sid, at).Some? ==>
              FromHash(c, next, t, from, w, sid, Usable(c, next, read, sid, at).value)
  {
    assert t[..|read|] == read;
    if Usable(c, next, read, sid, at).None? {
      Unreadable(c, next, read, t, from, sid, at);
    } else {
      Gives(c, next, read, from, w, sid, at);
      FromHashLater(c, next, read, t, from, w, w, sid, Usable(c, next, read, sid, at).value);
    }
  }

  /** From one clock reading to another. */
  datatype Span = Span(first: int, last: int)

  predicate Within(w: Span, w': Span) { w'.first <= w.first && w.last <= w'.last }

  /** The payload and next run come from the schedule's hash as it was during the pass, and the
      next run from the clock as it was then. */
  ghost predicate FromHash(c: M.Config, next: Clockwork, t: M.Trace, from: nat, w: Span, sid: M.Id,
                           found: (string, int)) {
    exists m, at | from <= m <= |t| && w.first <= at <= w.last :: HashGives(c, next, t[..m], sid, found, at)
  }

  ghost predicate HashGives(c: M.Config, next: Clockwork, t: M.Trace, sid: M.Id, found: (string, int), at: int) {
    var definitions := M.Run(c, t).definitions;
    sid in definitions && found.0 == definitions[sid].payload && next(definitions[sid].cron, at) == Some(found.1)
  }

  /** The quads prepared from the first n due schedules. */
  ghost predicate Prepared(c: M.Config, next: Clockwork, t: M.Trace, from: nat, w: Span, due: seq<M.Id>, n: nat,
                           broken: set<M.Id>, quads: seq<M.Firing>)
    requires n <= |due|
  {
    && (forall i | 0 <= i < n :: due[i] !in broken && Readable(c, next, t, from, due[i]) ==> Fired(quads, due[i]))
    && (forall f | f in quads ::
          f.schedule in due[..n] && FromHash(c, next, t, from, w, f.schedule, (f.payload, f.next)))
  }

  lemma FromHashLater(c: M.Config, next: Clockwork, t: M.Trace, t': M.Trace, from: nat, w: Span, w': Span, sid: M.Id,
                      found: (string, int))
    requires Continues(t, t') && Within(w, w') && FromHash(c, next, t, from, w, sid, found)
    ensures FromHash(c, next, t', from, w', sid, found)
  {
    var m, at :| from <= m <= |t| && w.first <= at <= w.last && HashGives(c, next, t[..m], sid, found, at);
    assert t[..m] == t'[..m];
  }

  /** New job IDs, taken in order from those NewID gives, and next runs that lie ahead. */
  predicate Drawn(quads: seq<M.Firing>, ids: seq<M.Id>, now: int) {
    && |quads| <= |ids| && M.FireIds(quads) == ids[..|quads|]
    && forall f | f in quads :: f.next > now
  }

  lemma PreparedMore(c: M.Config, next: Clockwork, t: M.Trace, t': M.Trace, from: nat, w: Span, w': Span,
                     due: seq<M.Id>, n: nat, broken: set<M.Id>, quads: seq<M.Firing>, more: seq<M.Firing>)
    requires n < |due| && Continues(t, t') && Within(w, w') && Prepared(c, next, t, from, w, due, n, broken, quads)
    requires more == [] ==> due[n] in broken || !Readable(c, next, t', from, due[n])
    requires more != [] ==> more == [more[0]] && more[0].schedule == due[n]
    requires more != [] ==> FromHash(c, next, t', from, w', due[n], (more[0].payload, more[0].next))
    ensures Prepared(c, next, t', from, w', due, n + 1, broken, quads + more)
  {
    var all := quads + more;
    forall f | f in quads ensures f in all {}
    forall i | 0 <= i < n + 1 && due[i] !in broken && Readable(c, next, t', from, due[i]) ensures Fired(all, due[i]) {
      if i < n {
        ReadableEarlier(c, next, t, t', from, due[i]);
        assert Fired(quads, due[i]);
        var f :| f in quads && f.schedule == due[i];
        assert f in all;
      } else {
        assert more[0] in all;
      }
    }
    var some := due[..n + 1];
    forall f | f in all ensures f.schedule in some && FromHash(c, next, t', from, w', f.schedule, (f.payload, f.next)) {
      if f in quads {
        assert f.schedule in due[..n];
        FromHashLater(c, next, t, t', from, w, w', f.schedule, (f.payload, f.next));
      } else {
        assert f == more[0] && some[n] == due[n];
      }
    }
  }

  lemma PreparedLater(c: M.Config, next: Clockwork, t: M.Trace, t': M.Trace, from: nat, w: Span, w': Span,
                      due: seq<M.Id>, broken: set<M.Id>, quads: seq<M.Firing>)
    requires Continues(t, t') && Within(w, w') && Prepared(c, next, t, from, w, due, |due|, broken, quads)
    ensures Prepared(c, next, t', from, w', due, |due|, broken, quads)
  {
    forall i | 0 <= i < |due| && due[i] !in broken && Readable(c, next, t', from, due[i]) ensures Fired(quads, due[i]) {
      ReadableEarlier(c, next, t, t', from, due[i]);
    }
    forall f | f in quads
      ensures f.schedule in due[..|due|] && FromHash(c, next, t', from, w', f.schedule, (f.payload, f.next))
    {
      FromHashLater(c, next, t, t', from, w, w', f.schedule, (f.payload, f.next));
    }
  }

  lemma DrawnFresh(quads: seq<M.Firing>, ids: seq<M.Id>, now: int, t: M.Trace)
    requires Drawn(quads, ids, now) && Distinct(ids) && Unused(t, Members(ids))
    ensures Distinct(M.FireIds(quads)) && Members(M.FireIds(quads)) !! M.UsedJobs(t)
  {
    assert forall x | x in ids[..|quads|] :: x in Members(ids);
  }

  lemma DrawnMore(quads: seq<M.Firing>, f: M.Firing, ids: seq<M.Id>, now: int)
    requires Drawn(quads, ids, now) && |quads| < |ids| && f.job == ids[|quads|] && f.next > now
    ensures Drawn(quads + [f], ids, now)
  {
    assert M.FireIds(quads + [f]) == M.FireIds(quads) + [f.job];
  }

  lemma Unreadable(c: M.Config, next: Clockwork, t: M.Trace, t': M.Trace, from: nat, sid: M.Id, at: int)
    requires Continues(t, t') && from <= |t|
    requires var definitions := M.Run(c, t).definitions;
             sid !in definitions || next(definitions[sid].cron, at).None?
    ensures !Readable(c, next, t', from, sid)
  {
    assert t'[..|t|] == t;
    assert !ReadableAt(c, next, t'[..|t|], sid);
  }

  lemma Gives(c: M.Config, next: Clockwork, t: M.Trace, from: nat, w: Span, sid: M.Id, at: int)
    requires from <= |t| && w.first <= at <= w.last
    requires sid in M.Run(c, t).definitions && next(M.Run(c, t).definitions[sid].cron, at).Some?
    ensures var d := M.Run(c, t).definitions[sid];
            FromHash(c, next, t, from, w, sid, (d.payload, next(d.cron, at).value))
  {
    var d := M.Run(c, t).definitions[sid];
    assert t[..|t|] == t;
    assert HashGives(c, next, t[..|t|], sid, (d.payload, next(d.cron, at).value), at);
  }

  lemma DropUses(t: M.Trace, s: M.Step)
    requires s.op.DropScheduleOp?
    ensures M.UsedJobs(t + [s]) == M.UsedJobs(t) && M.UsedSchedules(t + [s]) == M.UsedSchedules(t)
  {
    assert (t + [s])[..|t|] == t;
    assert M.NewJobs(s.op) == [];
  }

  /** The script's reply names the schedules fired, in order, each followed by its queue. */
  lemma {:induction false} FiredListIs(db: M.Db, now: int, fs: seq<M.Firing>)
    requires forall f | f in fs :: f.next > now
    ensures var list, fired := FiredList(db, now, fs), Scheduling.FiredQuads(db, now, fs);
            && |list| == 2 * |fired|
            && forall i | 0 <= i < |fired| ::
                 && list[2 * i] == fired[i].schedule && fired[i].schedule in db.definitions
                 && list[2 * i + 1] == db.definitions[fired[i].schedule].queue
  {
    if fs != [] {
      var p, f := fs[..|fs|-1], fs[|fs|-1];
      assert f in fs && forall g | g in p :: g in fs;
      FiredListIs(db, now, p);
      Scheduling.FireMembers(db, now, p, f.schedule);
      Scheduling.FiredExactly(db, now, p, f.schedule);
    }
  }

  class Scheduler {
    const store: Store
    const next: Clockwork

    ghost predicate Valid()
      reads store, store.redis
    {
      store.Valid() && Forward(next)
    }

    constructor (store: Store, next: Clockwork)
      requires store.Valid() && Forward(next)
      ensures Valid() && this.store == store && this.next == next
    {
      this.store, this.next := store, next;
    }

    /** `newId` is what NewID gives. Nothing is written when the expression does not parse or
        NewID fails. */
    method Create(queue: string, spec: string, payload: string, newId: Option<M.Id>, net: Net)
      returns (r: Creation, ghost before: M.Trace)
      requires Valid() && (newId.Some? ==> Unused(store.trace, {newId.value}))
      modifies store, store.redis
      ensures Valid() && Continues(old(store.trace), before)
      ensures r.InvalidCron? <==> next(spec, old(store.redis.clock)).None?
      ensures r.InvalidCron? || newId.None? ==> store.trace == old(store.trace) && !r.Created?
      ensures !r.InvalidCron? && newId.Some? ==>
                var at, now := next(spec, old(store.redis.clock)).value, old(store.redis.clock);
                var body := if payload == "" then "null" else payload;
                var definition := M.Schedule.Schedule(queue, spec, body, now, None);
                && r == (if net.Delivered? then Created(newId.value, at) else CreateFailed)
                && Sent(net, before, store.trace,
                        M.Step(store.redis.clock, M.AddScheduleOp(newId.value, definition, at)))
                && store.own == Added(old(store.own), net, before)
    {
      hide Recorded;
      before := store.trace;
      var now := store.redis.clock;
      var first := next(spec, now);
      if first.None? {
        return InvalidCron, before;
      }
      if newId.None? {
        return CreateFailed, before;
      }
      var definition := M.Schedule.Schedule(queue, spec, if payload == "" then "null" else payload, now, None);
      store.Others({newId.value});
      before := store.trace;
      if !net.Lost? {
        RunAdd(newId.value, definition, first.value);
      }
      return if net.Delivered? then Created(newId.value, first.value) else CreateFailed, before;
    }

    method RunAdd(id: M.Id, definition: M.Schedule, at: int)
      requires Valid() && id !in M.UsedSchedules(store.trace)
      modifies store`trace, store`own, store.redis
      ensures Valid() && store.redis.clock == old(store.redis.clock)
      ensures store.own == old(store.own) + {|old(store.trace)|}
      ensures store.trace == old(store.trace) + [M.Step(store.redis.clock, M.AddScheduleOp(id, definition, at))]
    {
      store.redis.AddSchedule(id, definition, at);
      store.Log(M.AddScheduleOp(id, definition, at));
    }

    method Delete(id: M.Id, net: Net) returns (ok: bool, ghost before: M.Trace)
      requires Valid()
      modifies store, store.redis
      ensures Valid() && Continues(old(store.trace), before)
      ensures Sent(net, before, store.trace, M.Step(store.redis.clock, M.DeleteScheduleOp(id)))
      ensures (ok <==> net.Delivered?) && store.own == Added(old(store.own), net, before)
    {
      hide Recorded;
      store.Others({});
      before := store.trace;
      if !net.Lost? {
        RunDelete(id);
      }
      ok := net.Delivered?;
    }

    method RunDelete(id: M.Id)
      requires Valid()
      modifies store`trace, store`own, store.redis
      ensures Valid() && store.redis.clock == old(store.redis.clock)
      ensures store.own == old(store.own) + {|old(store.trace)|}
      ensures store.trace == old(store.trace) + [M.Step(store.redis.clock, M.DeleteScheduleOp(id))]
    {
      store.redis.DeleteSchedule(id);
      store.Log(M.DeleteScheduleOp(id));
    }

    method RunDrop(id: M.Id)
      requires Valid()
      modifies store`trace, store`own, store.redis
      ensures Valid() && store.redis.clock == old(store.redis.clock)
      ensures store.own == old(store.own) + {|old(store.trace)|}
      ensures store.trace == old(store.trace) + [M.Step(store.redis.clock, M.DropScheduleOp(id))]
    {
      store.redis.DropSchedule(id);
      store.Log(M.DropScheduleOp(id));
    }

    method RunFire(now: int, quads: seq<M.Firing>) returns (fired: seq<string>)
      requires Valid() && now <= store.redis.clock && forall f | f in quads :: f.next > now
      requires Distinct(M.FireIds(quads)) && Members(M.FireIds(quads)) !! M.UsedJobs(store.trace)
      modifies store`trace, store`own, store.redis
      ensures Valid() && store.redis.clock == old(store.redis.clock)
      ensures store.own == old(store.own) + {|old(store.trace)|}
      ensures store.trace == old(store.trace) + [M.Step(store.redis.clock, M.FireOp(now, quads))]
      ensures fired == FiredList(M.Run(store.cfg, old(store.trace)), now, quads)
    {
      fired := store.redis.FireSchedules(now, quads);
      store.Log(M.FireOp(now, quads));
    }

    /** Drops an entry the pass could not use; a failure to do so is ignored. */
    method Drop(sid: M.Id, net: Net, ghost mine: set<M.Id>) returns (ghost before: M.Trace)
      requires Valid() && Unused(store.trace, mine)
      modifies store, store.redis
      ensures Valid() && Continues(old(store.trace), store.trace) && old(store.redis.clock) <= store.redis.clock
      ensures Unused(store.trace, mine)
      ensures Continues(old(store.trace), before)
      ensures Sent(net, before, store.trace, M.Step(store.redis.clock, M.DropScheduleOp(sid)))
      ensures store.own == Added(old(store.own), net, before)
    {
      hide Recorded;
      store.Others(mine);
      before := store.trace;
      if !net.Lost? {
        RunDrop(sid);
        DropUses(before, store.trace[|before|]);
      }
    }

    /** Reads one due schedule's hash, as it is after `read` at time `at`. It is usable exactly
        when the read does not fail, the hash is there and its expression parses. A usable one
        is left alone by this pass; any other is dropped. */
    method Prepare(sid: M.Id, broken: set<M.Id>, now: int, net: Net, ghost mine: set<M.Id>)
      returns (found: Option<(string, int)>, ghost read: M.Trace, ghost at: int)
      requires Valid() && Unused(store.trace, mine) && now <= store.redis.clock
      modifies store, store.redis
      ensures Valid() && Continues(old(store.trace), store.trace) && old(store.redis.clock) <= store.redis.clock
      ensures Unused(store.trace, mine)
      ensures Continues(old(store.trace), read) && Continues(read, store.trace)
      ensures old(store.redis.clock) <= at <= store.redis.clock
      ensures found == if sid in broken then None else Usable(store.cfg, next, read, sid, at)
      ensures found.Some? ==> found.value.1 > now && store.own == old(store.own)
      ensures found.None? && net.Lost? ==> store.own == old(store.own)
      ensures found.None? && !net.Lost? ==>
                DroppedAt(store.trace, |old(store.trace)|, old(store.own), store.own, sid)
    {
      hide Recorded;
      store.Others(mine);
      read, at := store.trace, store.redis.clock;
      var definition := ReadHash(sid);
      var first := if definition.Some? then next(definition.value.cron, store.redis.clock) else None;
      if sid in broken || first.None? {
        ghost var before := Drop(sid, net, mine);
        if !net.Lost? { assert store.trace[|before|].op == M.DropScheduleOp(sid); }
        return None, read, at;
      }
      return Some((definition.value.payload, first.value)), read, at;
    }

    method ReadHash(sid: M.Id) returns (definition: Option<M.Schedule>)
      requires Valid()
      ensures var definitions := M.Run(store.cfg, store.trace).definitions;
              definition == if sid in definitions then Some(definitions[sid]) else None
    {
      definition := store.redis.ReadSchedule(sid);
    }

    method ReadDue(now: int) returns (due: seq<M.Id>)
      requires Valid()
      ensures due == Due(M.Run(store.cfg, store.trace).schedules, now, store.cfg.drainLimit)
    {
      due := store.redis.DueSchedules(now, store.cfg.drainLimit);
    }

    /** One schedule more examined: what was found holds of the span, and what was dropped
        deserved it or could not be read. */
    lemma Examined(t: M.Trace, read: M.Trace, at: int, from: nat, w: Span, due: seq<M.Id>, n: nat, broken: set<M.Id>,
                   drops: nat -> Net, own: set<nat>, was: set<nat>, found: Option<(string, int)>)
      requires from <= |t| && n < |due| && Continues(t, read) && Continues(read, store.trace)
      requires w.first <= at <= w.last
      requires found == if due[n] in broken then None else Usable(store.cfg, next, read, due[n], at)
      requires BrokenDropped(t, from, due, n, broken, drops)
      requires OnlyUnusable(store.cfg, next, t, from, due, broken, own, was)
      requires found.Some? || drops(n).Lost? ==> store.own == was
      requires found.None? && !drops(n).Lost? ==> DroppedAt(store.trace, |t|, was, store.own, due[n])
      ensures found.None? ==> due[n] in broken || !Readable(store.cfg, next, store.trace, from, due[n])
      ensures found.Some? ==> FromHash(store.cfg, next, store.trace, from, w, due[n], found.value)
      ensures BrokenDropped(store.trace, from, due, n + 1, broken, drops)
      ensures OnlyUnusable(store.cfg, next, store.trace, from, due, broken, own, store.own)
    {
      hide M.Run;
      FoundUsable(store.cfg, next, read, store.trace, from, w, due[n], at);
      BrokenMore(t, store.trace, from, due, n, broken, drops);
      UnusableLater(store.cfg, next, t, store.trace, from, due, broken, own, was);
      if found.None? { UnusableMore(store.cfg, next, store.trace, from, due, broken, own, was, store.own, due[n]); }
    }

    /** Builds the quads, one per due schedule that can be used; false when NewID fails. */
    method PrepareAll(due: seq<M.Id>, ids: seq<M.Id>, broken: set<M.Id>, now: int, drops: nat -> Net, ghost from: nat)
      returns (ok: bool, quads: seq<M.Firing>)
      requires Valid() && Unused(store.trace, Members(ids)) && now <= store.redis.clock && from <= |store.trace|
      modifies store, store.redis
      ensures Valid() && Continues(old(store.trace), store.trace) && old(store.redis.clock) <= store.redis.clock
      ensures Unused(store.trace, Members(ids)) && Drawn(quads, ids, now)
      ensures ok ==>
                Prepared(store.cfg, next, store.trace, from, Span(now, store.redis.clock), due, |due|, broken, quads)
      ensures ok ==> BrokenDropped(store.trace, from, due, |due|, broken, drops)
      ensures OnlyUnusable(store.cfg, next, store.trace, from, due, broken, old(store.own), store.own)
      ensures !ok ==> |quads| == |ids|
    {
      hide Recorded, Prepared, BrokenDropped, OnlyUnusable, Drawn, Readable, FromHash, Usable, DroppedAt, Unused;
      quads := [];
      NothingExamined(store.cfg, next, store.trace, from, Span(now, store.redis.clock), due, broken, drops);
      Untouched(store.cfg, next, store.trace, from, due, broken, store.own, ids, now);
      for n := 0 to |due|
        invariant Valid() && Continues(old(store.trace), store.trace) && now <= store.redis.clock
        invariant old(store.redis.clock) <= store.redis.clock
        invariant Unused(store.trace, Members(ids)) && Drawn(quads, ids, now)
        invariant Prepared(store.cfg, next, store.trace, from, Span(now, store.redis.clock), due, n, broken, quads)
        invariant BrokenDropped(store.trace, from, due, n, broken, drops)
        invariant OnlyUnusable(store.cfg, next, store.trace, from, due, broken, old(store.own), store.own)
      {
        ghost var t, w := store.trace, Span(now, store.redis.clock);
        ghost var was := store.own;
        DrawnWithin(quads, ids, now);
        var found, read, at := Prepare(due[n], broken, now, drops(n), Members(ids));
        ghost var w' := Span(now, store.redis.clock);
        Examined(t, read, at, from, w', due, n, broken, drops, old(store.own), was, found);
        if found.None? {
          PreparedMore(store.cfg, next, t, store.trace, from, w, w', due, n, broken, quads, []);
          assert quads + [] == quads;
        } else if |quads| == |ids| {
          return false, quads;
        } else {
          var quad := M.Firing(due[n], ids[|quads|], found.value.0, found.value.1);
          assert found.value == (quad.payload, quad.next);
          PreparedMore(store.cfg, next, t, store.trace, from, w, w', due, n, broken, quads, [quad]);
          DrawnMore(quads, quad, ids, now);
          quads := quads + [quad];
        }
      }
      ok := true;
    }

    /** One pass. `ids` are what NewID gives, failing when they run out; reading the hash of a
        schedule in `broken` fails; the other arguments are what the connection does. The ghost
        results are the due schedules, the run at the moment they were read, the run before the
        script, and this process's own steps up to there. */
    method Pass(ids: seq<M.Id>, broken: set<M.Id>, listed: bool, drops: nat -> Net, net: Net)
      returns (r: Reply<seq<string>>, quads: seq<M.Firing>, ghost due: seq<M.Id>, ghost read: M.Trace,
               ghost before: M.Trace, ghost own: set<nat>)
      requires Valid() && Unused(store.trace, Members(ids)) && Distinct(ids)
      modifies store, store.redis
      ensures Valid() && Continues(old(store.trace), read) && Continues(read, store.trace)
      ensures due == Due(M.Run(store.cfg, read).schedules, old(store.redis.clock), store.cfg.drainLimit)
      ensures Drawn(quads, ids, old(store.redis.clock))
      ensures r.Ok? ==> Prepared(store.cfg, next, before, |read|, Span(old(store.redis.clock), store.redis.clock), due,
                                 |due|, broken, quads)
      ensures r.Ok? ==> BrokenDropped(before, |read|, due, |due|, broken, drops)
      ensures OnlyUnusable(store.cfg, next, before, |read|, due, broken, old(store.own), own)
      ensures r.Failed? ==> !listed || |quads| == |ids| || !net.Delivered?
      ensures r.Ok? ==> store.own == if quads == [] then own else own + {|before|}
      ensures r.Ok? && quads == [] ==> r.value == []
      ensures r.Ok? && quads != [] ==>
                && store.trace == before + [M.Step(store.redis.clock, M.FireOp(old(store.redis.clock), quads))]
                && r.value == FiredList(M.Run(store.cfg, before), old(store.redis.clock), quads)
    {
      hide Recorded, Prepared, BrokenDropped, OnlyUnusable, Drawn;
      var now := store.redis.clock;
      store.Others(Members(ids));
      read, before, quads, own := store.trace, store.trace, [], store.own;
      var dueNow := ReadDue(now);
      due := dueNow;
      Untouched(store.cfg, next, read, |read|, due, broken, own, ids, now);
      if !listed {
        return Failed, quads, due, read, before, own;
      }
      var ok;
      ok, quads := PrepareAll(dueNow, ids, broken, now, drops, |read|);
      ghost var t, w := store.trace, Span(now, store.redis.clock);
      store.Others(Members(ids));
      before, own := store.trace, store.own;
      UnusableLater(store.cfg, next, t, before, |read|, due, broken, old(store.own), own);
      if !ok {
        return Failed, quads, due, read, before, own;
      }
      PreparedLater(store.cfg, next, t, before, |read|, w, Span(now, store.redis.clock), due, broken, quads);
      BrokenLater(t, before, |read|, due, |due|, broken, drops);
      if quads == [] {
        return Ok([]), quads, due, read, before, own;
      }
      if net.Lost? {
        return Failed, quads, due, read, before, own;
      }
      var fired := FireDrawn(now, quads, ids);
      return if net.Delivered? then Ok(fired) else Failed, quads, due, read, before, own;
    }

    method FireDrawn(now: int, quads: seq<M.Firing>, ids: seq<M.Id>) returns (fired: seq<string>)
      requires Valid() && now <= store.redis.clock
      requires Drawn(quads, ids, now) && Distinct(ids) && Unused(store.trace, Members(ids))
      modifies store`trace, store`own, store.redis
      ensures Valid() && store.redis.clock == old(store.redis.clock)
      ensures store.own == old(store.own) + {|old(store.trace)|}
      ensures store.trace == old(store.trace) + [M.Step(store.redis.clock, M.FireOp(now, quads))]
      ensures fired == FiredList(M.Run(store.cfg, old(store.trace)), now, quads)
    {
      hide Recorded;
      DrawnFresh(quads, ids, now, store.trace);
      fired := RunFire(now, quads);
    }
  }
}
