/** The Lua scripts and MULTI blocks (internal/cogs/store.go, internal/cogs/scheduler.go) as
    the loops of Redis commands they are, run in place on the flat keyspace. Each is proved
    to have exactly the effect of one model function. */
module Scripts {
  import opened Wrappers
  import opened Keys
  import opened Ranking
  import opened Model
  import opened Redis
  import Accounting
  import Draining

  // ----- the scripts' steps on the model -------------------------------------------------

  lemma Twice(db: Db, q: string, x: Queue, y: Queue)
    ensures WithQueue(WithQueue(db, q, x), q, y) == WithQueue(db, q, y)
    ensures WithQueue(db, q, db.queues[q]) == db
  {
    assert db.queues[q := x][q := y] == db.queues[q := y];
    assert db.queues[q := db.queues[q]] == db.queues;
  }

  /** What a claim hands out for one job. */
  datatype Grant = Grant(id: Id, payload: string, attempts: int)

  /** A job's payload and attempts, or the defaults when it has no hash. */
  function Granted(jobs: map<Id, Job>, id: Id): Grant {
    if id in jobs then Grant(id, jobs[id].payload, jobs[id].attempts) else Grant(id, "", 0)
  }

  function GrantAll(jobs: map<Id, Job>, ids: seq<Id>): seq<Grant> {
    seq(|ids|, i requires 0 <= i < |ids| => Granted(jobs, ids[i]))
  }

  /** HMGET payload attempts. */
  function ReadJob(keys: Keyspace, id: Id): Grant
    requires JobAt(keys, JobKey(id))
  {
    var k := JobKey(id);
    if k in keys then Grant(id, keys[k].job.payload, keys[k].job.attempts) else Grant(id, "", 0)
  }

  /** Pop and lease: two commands, one change of the queue. */
  lemma PopAndLease(keys: Keyspace, db: Db, q: string, deadline: int)
    requires Represents(keys, db) && db.queues[q].pending != []
    ensures ListAt(keys, PendingKey(q)) && ScoresAt(Rpop(keys, PendingKey(q)).0, LeasedKey(q))
    ensures var (popped, id) := Rpop(keys, PendingKey(q));
            && id == Some(db.queues[q].pending[0])
            && Represents(Zadd(popped, LeasedKey(q), deadline, id.value),
                          WithQueue(db, q, Accounting.PopLease(db.queues[q], deadline)))
  {
    var z := db.queues[q];
    PopPending(keys, db, q);
    var (popped, id) := Rpop(keys, PendingKey(q));
    var z1 := z.(pending := z.pending[1..]);
    var db1 := WithQueue(db, q, z1);
    QueueTyped(popped, db1, q);
    PutLeased(popped, db1, q, z.leased[id.value := deadline]);
    Twice(db, q, z1, Accounting.PopLease(z, deadline));
  }

  /** One turn of the claim loop, and what it hands out. */
  function Turn(db: Db, q: string, deadline: int): (Db, Option<Grant>) {
    if db.queues[q].pending == [] then (db, None)
    else
      (WithQueue(db, q, Accounting.PopLease(db.queues[q], deadline)),
       Some(Granted(db.jobs, db.queues[q].pending[0])))
  }

  lemma GrantOneMore(jobs: map<Id, Job>, ids: seq<Id>, id: Id)
    ensures GrantAll(jobs, ids + [id]) == GrantAll(jobs, ids) + [Granted(jobs, id)]
  {
  }

  function ClaimReply(db: Db, q: string, n: int, deadline: int): (Db, seq<Grant>) {
    (WithQueue(db, q, ClaimQueue(db.queues[q], n, deadline)), GrantAll(db.jobs, Claimed(db.queues[q], n)))
  }

  /** A turn after a claim of k makes it a claim of k + 1. */
  lemma TurnAfterClaim(db: Db, q: string, deadline: int, k: nat, mid: Db)
    requires mid == WithQueue(db, q, ClaimQueue(db.queues[q], k, deadline))
    ensures var (last, grant) := Turn(mid, q, deadline);
            && last == WithQueue(db, q, ClaimQueue(db.queues[q], k + 1, deadline))
            && Claimed(db.queues[q], k + 1)
               == Claimed(db.queues[q], k) + (if grant.None? then [] else [grant.value.id])
            && (grant.Some? ==> grant.value == Granted(db.jobs, grant.value.id))
  {
    var zk := ClaimQueue(db.queues[q], k, deadline);
    Accounting.ClaimOneMore(db.queues[q], k, deadline);
    Twice(db, q, zk, Accounting.PopLease(zk, deadline));
    Twice(db, q, zk, zk);
  }

  lemma TurnReply(db: Db, q: string, deadline: int, k: nat, mid: Db, out: seq<Grant>, last: Db, grant: Option<Grant>)
    requires (mid, out) == ClaimReply(db, q, k, deadline) && (last, grant) == Turn(mid, q, deadline)
    ensures (last, if grant.None? then out else out + [grant.value]) == ClaimReply(db, q, k + 1, deadline)
  {
    TurnAfterClaim(db, q, deadline, k, mid);
    if grant.Some? { GrantOneMore(db.jobs, Claimed(db.queues[q], k), grant.value.id); }
  }

  /** A turn that finds the queue empty: the remaining ones would do nothing. */
  lemma TurnStops(db: Db, q: string, deadline: int, k: nat, n: int, mid: Db, out: seq<Grant>)
    requires k <= n && (mid, out) == ClaimReply(db, q, k, deadline) && mid.queues[q].pending == []
    ensures (mid, out) == ClaimReply(db, q, n, deadline)
  {
    ClaimExhausted(db.queues[q], k, n, deadline);
  }

  lemma ClaimExhausted(z: Queue, i: nat, n: int, deadline: int)
    requires i <= n && ClaimQueue(z, i, deadline).pending == []
    ensures ClaimQueue(z, n, deadline) == ClaimQueue(z, i, deadline) && Claimed(z, n) == Claimed(z, i)
  {
  }

  lemma ClaimNegative(db: Db, q: string, deadline: int, n: int)
    ensures n <= 0 ==> ClaimReply(db, q, n, deadline) == (db, [])
  {
    assert LeaseAll(db.queues[q].leased, db.queues[q].pending[..0], deadline) == db.queues[q].leased;
    Twice(db, q, db.queues[q], db.queues[q]);
  }

  /** Acknowledging one more ID. */
  lemma AckOneMore(keys: Keyspace, db: Db, q: string, ids: seq<Id>, id: Id)
    requires Represents(keys, Ack(db, q, ids))
    ensures ScoresAt(keys, LeasedKey(q))
    ensures var (removed, n) := Zrem(keys, LeasedKey(q), id);
            && (n == 1 || n == 0)
            && |Acked(db.queues[q], ids + [id])| == |Acked(db.queues[q], ids)| + n
            && Represents(if n == 1 then Put(removed, JobKey(id), None) else keys, Ack(db, q, ids + [id]))
  {
    var mid, z := Ack(db, q, ids), db.queues[q];
    var gone := Acked(z, ids);
    QueueTyped(keys, mid, q);
    var leased := z.leased - gone;
    if id in leased {
      PutLeased(keys, mid, q, leased - {id});
      var db1 := WithQueue(mid, q, mid.queues[q].(leased := leased - {id}));
      DeleteJob(Put(keys, LeasedKey(q), ScoresValue(leased - {id})), db1, id);
      AckGrows(db, q, ids, id);
    } else {
      assert Acked(z, ids + [id]) == gone;
    }
  }

  lemma AckNone(db: Db, q: string)
    ensures Ack(db, q, []) == db && Acked(db.queues[q], []) == {}
  {
    var z := db.queues[q];
    var gone := Acked(z, []);
    assert gone == {} && z.leased - gone == z.leased && db.jobs - gone == db.jobs;
    Twice(db, q, z, z);
  }

  lemma AckGrows(db: Db, q: string, ids: seq<Id>, id: Id)
    requires id in db.queues[q].leased && id !in ids
    ensures var mid, z := Ack(db, q, ids), db.queues[q];
            && Acked(z, ids + [id]) == Acked(z, ids) + {id}
            && id !in Acked(z, ids)
            && WithQueue(mid, q, mid.queues[q].(leased := mid.queues[q].leased - {id})).(jobs := mid.jobs - {id})
               == Ack(db, q, ids + [id])
  {
    var mid, z := Ack(db, q, ids), db.queues[q];
    assert Acked(z, ids + [id]) == Acked(z, ids) + {id};
    assert z.leased - Acked(z, ids) - {id} == z.leased - Acked(z, ids + [id]);
    assert db.jobs - Acked(z, ids) - {id} == db.jobs - Acked(z, ids + [id]);
    Twice(db, q, mid.queues[q], z.(leased := z.leased - Acked(z, ids + [id])));
  }

  /** The lease set loses one entry. */
  lemma Unlease(keys: Keyspace, db: Db, q: string, id: Id)
    requires Represents(keys, db)
    ensures ScoresAt(keys, LeasedKey(q))
    ensures var z, r := db.queues[q], Zrem(keys, LeasedKey(q), id);
            if id in z.leased then r.1 == 1 && Represents(r.0, WithQueue(db, q, z.(leased := z.leased - {id})))
            else r == (keys, 0)
  {
    QueueTyped(keys, db, q);
    PutLeased(keys, db, q, db.queues[q].leased - {id});
  }

  /** ZREM, HINCRBY, then LPUSH or ZADD: together they are a failure report. */
  lemma FailSteps(db: Db, maxRetries: nat, q: string, id: Id, nextAt: int)
    requires id in db.queues[q].leased
    ensures var z := db.queues[q];
            var z1 := z.(leased := z.leased - {id});
            var mid := WithQueue(db, q, z1).(jobs := db.jobs[id := Bumped(db.jobs, id)]);
            Fail(db, maxRetries, q, id, nextAt)
            == WithQueue(mid, q, if Spent(db.jobs, maxRetries, id) then z1.(dead := z.dead + [id])
                                 else z1.(retry := z.retry[id := nextAt]))
  {
    var z := db.queues[q];
    Twice(db, q, z.(leased := z.leased - {id}), EndLease(z, id, Spent(db.jobs, maxRetries, id), nextAt));
  }

  /** The body of the drain loop on one due entry. */
  function DrainOne(db: Db, bump: bool, maxRetries: nat, q: string, id: Id): Db {
    if bump then ReapIds(db, maxRetries, q, [id]) else RequeueIds(db, q, [id])
  }

  function DrainIds(db: Db, bump: bool, maxRetries: nat, q: string, ids: seq<Id>): Db {
    if bump then ReapIds(db, maxRetries, q, ids) else RequeueIds(db, q, ids)
  }

  function Requeued(db: Db, bump: bool, maxRetries: nat, ids: seq<Id>): seq<Id> {
    if bump then Survivors(db.jobs, maxRetries, ids) else ids
  }

  function Buried(db: Db, bump: bool, maxRetries: nat, ids: seq<Id>): seq<Id> {
    if bump then Casualties(db.jobs, maxRetries, ids) else []
  }

  lemma DrainNone(db: Db, bump: bool, maxRetries: nat, q: string)
    ensures DrainIds(db, bump, maxRetries, q, []) == db
  {
    var z := db.queues[q];
    assert z.leased - Members([]) == z.leased && z.retry - Members([]) == z.retry;
    assert z.pending + [] == z.pending && z.dead + [] == z.dead;
    assert BumpAll(db.jobs, []) == db.jobs;
    Twice(db, q, z, z);
  }

  lemma DrainMore(db: Db, bump: bool, maxRetries: nat, q: string, ids: seq<Id>, id: Id, mid: Db)
    requires id !in ids && mid == DrainIds(db, bump, maxRetries, q, ids)
    ensures DrainOne(mid, bump, maxRetries, q, id) == DrainIds(db, bump, maxRetries, q, ids + [id])
    ensures Spent(mid.jobs, maxRetries, id) <==> Spent(db.jobs, maxRetries, id)
    ensures DueIn(mid.queues[q], bump) == DueIn(db.queues[q], bump) - Members(ids)
  {
    if bump {
      assert Members(ids) !! Members([id]);
      Draining.ReapIdsJoin(db, maxRetries, q, ids, [id]);
      Draining.BumpJoin(db.jobs, ids, [id]);
      assert id in [id];
    } else {
      RequeueMore(db, q, ids, id);
    }
  }

  lemma RequeueMore(db: Db, q: string, ids: seq<Id>, id: Id)
    ensures RequeueIds(RequeueIds(db, q, ids), q, [id]) == RequeueIds(db, q, ids + [id])
  {
    var z := db.queues[q];
    var z1 := z.(retry := z.retry - Members(ids), pending := z.pending + ids);
    Draining.MinusMembers(z.retry, ids, [id]);
    Draining.Associates(z.pending, ids, [id]);
    Twice(db, q, z1, z1.(retry := z1.retry - Members([id]), pending := z1.pending + [id]));
  }

  lemma RepliesMore(db: Db, bump: bool, maxRetries: nat, ids: seq<Id>, id: Id)
    ensures Requeued(db, bump, maxRetries, ids + [id])
            == Requeued(db, bump, maxRetries, ids) + if bump && Spent(db.jobs, maxRetries, id) then [] else [id]
    ensures Buried(db, bump, maxRetries, ids + [id])
            == Buried(db, bump, maxRetries, ids) + if bump && Spent(db.jobs, maxRetries, id) then [id] else []
  {
    assert (ids + [id])[..|ids|] == ids;
  }

  /** Turn i of the drain loop: the entry is there, and moving it is draining one more. */
  lemma DrainStep(db: Db, bump: bool, maxRetries: nat, q: string, due: seq<Id>, i: nat, mid: Db)
    requires Distinct(due) && i < |due| && due[i] in DueIn(db.queues[q], bump)
    requires mid == DrainIds(db, bump, maxRetries, q, due[..i])
    ensures due[i] in DueIn(mid.queues[q], bump)
    ensures DrainOne(mid, bump, maxRetries, q, due[i]) == DrainIds(db, bump, maxRetries, q, due[..i + 1])
    ensures var dies := bump && Spent(mid.jobs, maxRetries, due[i]);
            && Requeued(db, bump, maxRetries, due[..i + 1])
               == Requeued(db, bump, maxRetries, due[..i]) + (if dies then [] else [due[i]])
            && Buried(db, bump, maxRetries, due[..i + 1])
               == Buried(db, bump, maxRetries, due[..i]) + (if dies then [due[i]] else [])
  {
    assert due[..i + 1] == due[..i] + [due[i]];
    DrainMore(db, bump, maxRetries, q, due[..i], due[i], mid);
    RepliesMore(db, bump, maxRetries, due[..i], due[i]);
  }

  /** ZREM, HINCRBY, then LPUSH: together they reap one lease. */
  lemma ReapSteps(db: Db, maxRetries: nat, q: string, id: Id)
    ensures var z := db.queues[q];
            var z1 := z.(leased := z.leased - {id});
            var mid := WithQueue(db, q, z1).(jobs := db.jobs[id := Bumped(db.jobs, id)]);
            ReapIds(db, maxRetries, q, [id])
            == WithQueue(mid, q, if Spent(db.jobs, maxRetries, id) then z1.(dead := z.dead + [id])
                                 else z1.(pending := z.pending + [id]))
  {
    var z, m := db.queues[q], maxRetries;
    assert Members([id]) == {id};
    assert BumpAll(db.jobs, [id]) == db.jobs[id := Bumped(db.jobs, id)];
    RepliesMore(db, true, m, [], id);
    assert [] + [id] == [id] && z.pending + [] == z.pending && z.dead + [] == z.dead;
    Twice(db, q, z.(leased := z.leased - {id}), ReapQueue(z, db.jobs, m, [id]));
  }

  lemma RequeueSteps(db: Db, q: string, id: Id)
    ensures var z := db.queues[q];
            var z1 := z.(retry := z.retry - {id});
            RequeueIds(db, q, [id]) == WithQueue(WithQueue(db, q, z1), q, z1.(pending := z.pending + [id]))
  {
    var z := db.queues[q];
    assert Members([id]) == {id};
    Twice(db, q, z.(retry := z.retry - {id}), z.(retry := z.retry - {id}, pending := z.pending + [id]));
  }

  /** What the schedule script returns: the schedules it fired, each with its queue. */
  function FiredList(db: Db, now: int, fs: seq<Firing>): seq<string> {
    if fs == [] then []
    else
      var mid, f := Fire(db, now, fs[..|fs|-1]), fs[|fs|-1];
      FiredList(db, now, fs[..|fs|-1])
      + if Fires(mid, now, f) then [f.schedule, mid.definitions[f.schedule].queue] else []
  }

  lemma FireMore(db: Db, now: int, fs: seq<Firing>, f: Firing, mid: Db)
    requires mid == Fire(db, now, fs)
    ensures Fire(db, now, fs + [f]) == FireOne(mid, now, f)
    ensures FiredList(db, now, fs + [f])
            == FiredList(db, now, fs)
               + if Fires(mid, now, f) then [f.schedule, mid.definitions[f.schedule].queue] else []
  {
    assert (fs + [f])[..|fs|] == fs;
  }

  /** A SCAN pattern "queue:*:suffix". */
  predicate Glob(k: string, suffix: string) {
    |k| >= 7 + |suffix| && k[..6] == "queue:" && k[|k|-1-|suffix|..] == ":" + suffix
  }

  method Listing(s: set<string>) returns (list: seq<string>)
    ensures Distinct(list) && Members(list) == s
  {
    list := [];
    var rest := s;
    while rest != {}
      invariant Distinct(list) && Members(list) !! rest && Members(list) + rest == s
      decreases |rest|
    {
      var x :| x in rest;
      list, rest := list + [x], rest - {x};
    }
  }

  class RedisServer {
    var keys: Keyspace
    var clock: int
    ghost var db: Db
    const slots: nat
    const slotOf: string -> nat

    ghost predicate Valid()
      reads this
    {
      Represents(keys, db)
    }

    constructor (now: int, slots: nat, slotOf: string -> nat)
      ensures Valid() && db == EMPTY_DB && clock == now && this.slots == slots && this.slotOf == slotOf
    {
      keys, clock, db := map[], now, EMPTY_DB;
      this.slots, this.slotOf := slots, slotOf;
      new;
      EmptyRepresents();
    }

    /** One turn: RPOP, ZADD, HMGET. */
    method PopLeaseRead(queue: string, deadline: int) returns (grant: Option<Grant>)
      requires Valid()
      modifies `keys, `db
      ensures Valid() && (db, grant) == Turn(old(db), queue, deadline)
    {
      PopPending(keys, db, queue);
      var (popped, id) := Rpop(keys, PendingKey(queue));
      if id.None? {
        return None;
      }
      PopAndLease(keys, db, queue, deadline);
      keys, db := Zadd(popped, LeasedKey(queue), deadline, id.value),
                  WithQueue(db, queue, Accounting.PopLease(db.queues[queue], deadline));
      JobTyped(keys, db, id.value);
      return Some(ReadJob(keys, id.value));
    }

    method Claim(queue: string, n: int, deadline: int) returns (out: seq<Grant>)
      requires Valid()
      modifies `keys, `db
      ensures Valid() && (db, out) == ClaimReply(old(db), queue, n, deadline)
    {
      ghost var before := db;
      out := [];
      ClaimNegative(before, queue, deadline, 0);
      ClaimNegative(before, queue, deadline, n);
      var i := 0;
      while i < n
        invariant 0 <= i && (i <= n || i == 0)
        invariant Valid() && (db, out) == ClaimReply(before, queue, i, deadline)
      {
        ghost var mid := db;
        var grant := PopLeaseRead(queue, deadline);
        if grant.None? {
          TurnStops(before, queue, deadline, i, n, mid, out);
          return;
        }
        TurnReply(before, queue, deadline, i, mid, out, db, grant);
        out := out + [grant.value];
        i := i + 1;
      }
    }

    method Enqueue(window: int, id: Id, queue: string, payload: string, created: int, idem: string)
      returns (flag: int, reply: string)
      requires Valid() && window >= 1
      modifies `keys, `db
      ensures Valid() && db == Model.Enqueue(old(db), window, clock, id, queue, payload, created, idem)
      ensures if Seen(old(db.markers), idem, clock) then flag == 0 && reply == old(db.markers[idem].text)
              else flag == 1 && reply == id
    {
      TextTyped(keys, db, idem);
      if idem != "" {
        var (marked, isNew) := SetNx(keys, IdemKey(idem), clock, id, 1000 * window);
        if !isNew {
          return 0, Get(keys, IdemKey(idem), clock).value;
        }
        PutMarker(keys, db, idem, Marker(id, clock + 1000 * window));
        keys, db := marked, db.(markers := db.markers[idem := Marker(id, clock + 1000 * window)]);
      }
      Create(id, Job.Job(payload, queue, 0, idem, created));
      return 1, id;
    }

    /** HSET of a new job hash, then LPUSH of its ID. */
    method Create(id: Id, job: Job)
      requires Valid()
      modifies `keys, `db
      ensures Valid() && db == AddJob(old(db), id, job)
    {
      JobTyped(keys, db, id);
      PutJob(keys, db, id, job);
      keys, db := HsetJob(keys, JobKey(id), job), db.(jobs := db.jobs[id := job]);
      var queue := job.queue;
      PushPending(keys, db, queue, id);
      keys, db := Lpush(keys, PendingKey(queue), id),
                  WithQueue(db, queue, db.queues[queue].(pending := db.queues[queue].pending + [id]));
    }

    method Renew(queue: string, id: Id, deadline: int) returns (ok: int)
      requires Valid()
      modifies `keys, `db
      ensures Valid() && db == Model.Renew(old(db), queue, id, deadline)
      ensures ok == if id in old(db.queues[queue].leased) then 1 else 0
    {
      QueueTyped(keys, db, queue);
      if id !in ScoresOf(keys, LeasedKey(queue)) {
        return 0;
      }
      PutLeased(keys, db, queue, db.queues[queue].leased[id := deadline]);
      keys, db := Zadd(keys, LeasedKey(queue), deadline, id), Model.Renew(db, queue, id, deadline);
      return 1;
    }

    method Ack(queue: string, ids: seq<Id>) returns (n: nat)
      requires Valid()
      modifies `keys, `db
      ensures Valid() && db == Model.Ack(old(db), queue, ids)
      ensures n == |Acked(old(db.queues[queue]), ids)|
    {
      ghost var before := db;
      AckNone(before, queue);
      n := 0;
      for i := 0 to |ids|
        invariant Valid() && db == Model.Ack(before, queue, ids[..i])
        invariant n == |Acked(before.queues[queue], ids[..i])|
      {
        AckOneMore(keys, before, queue, ids[..i], ids[i]);
        assert ids[..i + 1] == ids[..i] + [ids[i]];
        db := Model.Ack(before, queue, ids[..i + 1]);
        var (removed, one) := Zrem(keys, LeasedKey(queue), ids[i]);
        if one == 1 {
          n := n + 1;
          keys := Put(removed, JobKey(ids[i]), None);
        }
      }
      assert ids[..|ids|] == ids;
    }

    method Fail(queue: string, id: Id, nextAt: int, maxRetries: nat) returns (r: int)
      requires Valid()
      modifies `keys, `db
      ensures Valid() && db == Model.Fail(old(db), maxRetries, queue, id, nextAt)
      ensures r == if id !in old(db.queues[queue].leased) then -1
            else if Spent(old(db.jobs), maxRetries, id) then 2 else 1
    {
      ghost var before, z := db, db.queues[queue];
      var removed := RemoveLease(queue, id);
      if !removed {
        return -1;
      }
      FailSteps(before, maxRetries, queue, id, nextAt);
      var attempts := Bump(id);
      QueueTyped(keys, db, queue);
      if attempts > maxRetries {
        PushDead(keys, db, queue, id);
        keys, db := Lpush(keys, DeadKey(queue), id),
                    WithQueue(db, queue, db.queues[queue].(dead := z.dead + [id]));
        return 2;
      }
      PutRetry(keys, db, queue, z.retry[id := nextAt]);
      keys, db := Zadd(keys, RetryKey(queue), nextAt, id),
                  WithQueue(db, queue, db.queues[queue].(retry := z.retry[id := nextAt]));
      return 1;
    }

    /** HINCRBY attempts 1. */
    method Bump(id: Id) returns (attempts: int)
      requires Valid()
      modifies `keys, `db
      ensures Valid() && db == old(db).(jobs := old(db.jobs)[id := Bumped(old(db.jobs), id)])
      ensures attempts == Bumped(old(db.jobs), id).attempts
    {
      BumpJob(keys, db, id);
      var (bumped, count) := HincrAttempts(keys, JobKey(id));
      attempts := count;
      keys, db := bumped, db.(jobs := db.jobs[id := Bumped(db.jobs, id)]);
    }

    /** The body of the drain loop: ZREM, HINCRBY when attempts count, then LPUSH. */
    method Move(queue: string, id: Id, bump: bool, maxRetries: nat) returns (moved: bool, died: bool)
      requires Valid()
      modifies `keys, `db
      ensures Valid() && (moved <==> id in DueIn(old(db.queues[queue]), bump))
      ensures db == if moved then DrainOne(old(db), bump, maxRetries, queue, id) else old(db)
      ensures died <==> moved && bump && Spent(old(db.jobs), maxRetries, id)
    {
      ghost var before := db;
      if bump {
        moved := RemoveLease(queue, id);
      } else {
        moved := RemoveRetry(queue, id);
      }
      if !moved {
        return false, false;
      }
      var attempts := 0;
      if bump {
        ReapSteps(before, maxRetries, queue, id);
        attempts := Bump(id);
      } else {
        RequeueSteps(before, queue, id);
      }
      if bump && attempts > maxRetries {
        PushDead(keys, db, queue, id);
        keys, db := Lpush(keys, DeadKey(queue), id),
                    WithQueue(db, queue, db.queues[queue].(dead := db.queues[queue].dead + [id]));
        return true, true;
      }
      PushPending(keys, db, queue, id);
      keys, db := Lpush(keys, PendingKey(queue), id),
                  WithQueue(db, queue, db.queues[queue].(pending := db.queues[queue].pending + [id]));
      return true, false;
    }

    method RemoveLease(queue: string, id: Id) returns (removed: bool)
      requires Valid()
      modifies `keys, `db
      ensures Valid() && (removed <==> id in old(db.queues[queue].leased))
      ensures var z := old(db.queues[queue]);
              db == if removed then WithQueue(old(db), queue, z.(leased := z.leased - {id})) else old(db)
    {
      ghost var z := db.queues[queue];
      Unlease(keys, db, queue, id);
      var (rest, one) := Zrem(keys, LeasedKey(queue), id);
      removed := one == 1;
      keys, db := rest, if removed then WithQueue(db, queue, z.(leased := z.leased - {id})) else db;
    }

    method RemoveRetry(queue: string, id: Id) returns (removed: bool)
      requires Valid()
      modifies `keys, `db
      ensures Valid() && (removed <==> id in old(db.queues[queue].retry))
      ensures var z := old(db.queues[queue]);
              db == if removed then WithQueue(old(db), queue, z.(retry := z.retry - {id})) else old(db)
    {
      ghost var z := db.queues[queue];
      QueueTyped(keys, db, queue);
      PutRetry(keys, db, queue, z.retry - {id});
      var (rest, one) := Zrem(keys, RetryKey(queue), id);
      removed := one == 1;
      keys, db := rest, if removed then WithQueue(db, queue, z.(retry := z.retry - {id})) else db;
    }

    /** The drain loop over the entries read. */
    method MoveAll(queue: string, due: seq<Id>, bump: bool, maxRetries: nat)
      returns (requeued: seq<Id>, dead: seq<Id>)
      requires Valid() && Distinct(due) && forall x | x in due :: x in DueIn(db.queues[queue], bump)
      modifies `keys, `db
      ensures Valid() && db == DrainIds(old(db), bump, maxRetries, queue, due)
      ensures requeued == Requeued(old(db), bump, maxRetries, due) && dead == Buried(old(db), bump, maxRetries, due)
    {
      ghost var before := db;
      DrainNone(before, bump, maxRetries, queue);
      requeued, dead := [], [];
      for i := 0 to |due|
        invariant Valid() && db == DrainIds(before, bump, maxRetries, queue, due[..i])
        invariant requeued == Requeued(before, bump, maxRetries, due[..i])
        invariant dead == Buried(before, bump, maxRetries, due[..i])
      {
        DrainStep(before, bump, maxRetries, queue, due, i, db);
        var moved, died := Move(queue, due[i], bump, maxRetries);
        if moved {
          if died {
            dead := dead + [due[i]];
          } else {
            requeued := requeued + [due[i]];
          }
        }
      }
      assert due[..|due|] == due;
    }

    /** The drain script over the leased set (bump) or the retry set. */
    method Drain(queue: string, now: int, limit: int, bump: bool, maxRetries: nat)
      returns (requeued: seq<Id>, dead: seq<Id>)
      requires Valid()
      modifies `keys, `db
      ensures var due := Due(DueIn(old(db.queues[queue]), bump), now, limit);
              && Valid() && db == DrainIds(old(db), bump, maxRetries, queue, due)
              && requeued == Requeued(old(db), bump, maxRetries, due)
              && dead == Buried(old(db), bump, maxRetries, due)
    {
      QueueTyped(keys, db, queue);
      var due := RangeByScore(ScoresOf(keys, if bump then LeasedKey(queue) else RetryKey(queue)), now, limit);
      DueExact(DueIn(db.queues[queue], bump), now, limit);
      requeued, dead := MoveAll(queue, due, bump, maxRetries);
    }

    /** One quad: the due check, then the new job, the last run and the next run. */
    method FireQuad(now: int, f: Firing) returns (fired: seq<string>)
      requires Valid()
      modifies `keys, `db
      ensures Valid() && db == FireOne(old(db), now, f)
      ensures fired == if Fires(old(db), now, f) then [f.schedule, old(db.definitions)[f.schedule].queue] else []
    {
      ScheduleTyped(keys, db, f.schedule);
      var scores := ScoresOf(keys, SCHEDULES_KEY);
      if f.schedule !in scores || scores[f.schedule] > now || ScheduleKey(f.schedule) !in keys {
        return [];
      }
      var definition := keys[ScheduleKey(f.schedule)].definition;
      Create(f.job, Job.Job(f.payload, definition.queue, 0, "", now));
      ScheduleTyped(keys, db, f.schedule);
      var stamped := definition.(lastRun := Some(now));
      PutDefinition(keys, db, f.schedule, stamped);
      keys, db := Put(keys, ScheduleKey(f.schedule), Some(ScheduleHash(stamped))),
                  db.(definitions := db.definitions[f.schedule := stamped]);
      ScheduleTyped(keys, db, f.schedule);
      PutSchedules(keys, db, db.schedules[f.schedule := f.next]);
      keys, db := Zadd(keys, SCHEDULES_KEY, f.next, f.schedule),
                  db.(schedules := db.schedules[f.schedule := f.next]);
      return [f.schedule, definition.queue];
    }

    method FireSchedules(now: int, quads: seq<Firing>) returns (fired: seq<string>)
      requires Valid()
      modifies `keys, `db
      ensures Valid() && db == Fire(old(db), now, quads) && fired == FiredList(old(db), now, quads)
    {
      ghost var before := db;
      fired := [];
      for i := 0 to |quads|
        invariant Valid() && db == Fire(before, now, quads[..i])
        invariant fired == FiredList(before, now, quads[..i])
      {
        FireMore(before, now, quads[..i], quads[i], db);
        assert quads[..i + 1] == quads[..i] + [quads[i]];
        var some := FireQuad(now, quads[i]);
        fired := fired + some;
      }
      assert quads[..|quads|] == quads;
    }

    /** MULTI: HSET of the definition, ZADD of its next run. */
    method AddSchedule(id: Id, definition: Model.Schedule, next: int)
      requires Valid()
      modifies `keys, `db
      ensures Valid() && db == old(db).(definitions := old(db.definitions)[id := definition],
                                        schedules := old(db.schedules)[id := next])
    {
      ScheduleTyped(keys, db, id);
      PutDefinition(keys, db, id, definition);
      keys, db := Put(keys, ScheduleKey(id), Some(ScheduleHash(definition))),
                  db.(definitions := db.definitions[id := definition]);
      ScheduleTyped(keys, db, id);
      PutSchedules(keys, db, db.schedules[id := next]);
      keys, db := Zadd(keys, SCHEDULES_KEY, next, id), db.(schedules := db.schedules[id := next]);
    }

    /** ZREM of a schedule's entry alone. */
    method DropSchedule(id: Id)
      requires Valid()
      modifies `keys, `db
      ensures Valid() && db == old(db).(schedules := old(db.schedules) - {id})
    {
      ScheduleTyped(keys, db, id);
      PutSchedules(keys, db, db.schedules - {id});
      assert id !in db.schedules ==> db.schedules - {id} == db.schedules;
      keys, db := Zrem(keys, SCHEDULES_KEY, id).0, db.(schedules := db.schedules - {id});
    }

    /** MULTI: ZREM of the entry, DEL of the hash. */
    method DeleteSchedule(id: Id)
      requires Valid()
      modifies `keys, `db
      ensures Valid() && db == old(db).(schedules := old(db.schedules) - {id},
                                        definitions := old(db.definitions) - {id})
    {
      DropSchedule(id);
      DeleteDefinition(keys, db, id);
      keys, db := Put(keys, ScheduleKey(id), None), db.(definitions := db.definitions - {id});
    }

    method DueSchedules(now: int, limit: int) returns (due: seq<Id>)
      requires Valid()
      ensures due == Due(db.schedules, now, limit)
    {
      ScheduleTyped(keys, db, "");
      due := RangeByScore(ScoresOf(keys, SCHEDULES_KEY), now, limit);
    }

    /** HGETALL of a schedule; None for the empty reply. */
    method ReadSchedule(id: Id) returns (definition: Option<Model.Schedule>)
      requires Valid()
      ensures definition == if id in db.definitions then Some(db.definitions[id]) else None
    {
      ScheduleTyped(keys, db, id);
      return if ScheduleKey(id) in keys then Some(keys[ScheduleKey(id)].definition) else None;
    }

    /** SET NX PX on the leader key. */
    method AcquireLock(me: string, ttl: int) returns (acquired: bool)
      requires Valid() && ttl >= 1
      modifies `keys, `db
      ensures Valid() && db == old(db).(lock := LockAcquire(old(db.lock), clock, ttl, me))
      ensures acquired <==> !Holds(old(db.lock), clock)
    {
      TextTyped(keys, db, "");
      PutLock(keys, db, Some(Marker(me, clock + ttl)));
      var (marked, isNew) := SetNx(keys, LEADER_KEY, clock, me, ttl);
      keys, db := marked, db.(lock := LockAcquire(db.lock, clock, ttl, me));
      return isNew;
    }

    method RenewLock(me: string, ttl: int) returns (ok: int)
      requires Valid() && ttl >= 1
      modifies `keys, `db
      ensures Valid() && db == old(db).(lock := LockRenew(old(db.lock), clock, ttl, me))
      ensures ok == if Holds(old(db.lock), clock) && old(db.lock).value.text == me then 1 else 0
    {
      TextTyped(keys, db, "");
      if Get(keys, LEADER_KEY, clock) != Some(me) {
        return 0;
      }
      PutLock(keys, db, Some(Marker(me, clock + ttl)));
      keys, db := Pexpire(keys, LEADER_KEY, clock, ttl), db.(lock := Some(Marker(me, clock + ttl)));
      return 1;
    }

    method ReleaseLock(me: string) returns (n: int)
      requires Valid()
      modifies `keys, `db
      ensures Valid() && db == old(db).(lock := LockRelease(old(db.lock), clock, me))
      ensures n == if Holds(old(db.lock), clock) && old(db.lock).value.text == me then 1 else 0
    {
      TextTyped(keys, db, "");
      if Get(keys, LEADER_KEY, clock) != Some(me) {
        return 0;
      }
      PutLock(keys, db, None);
      keys, db := Put(keys, LEADER_KEY, None), db.(lock := None);
      return 1;
    }

    /** SCAN over a table of slots: each call lists the matching keys of one slot and names the
        next; 0 is the end. It may list other matching keys too, those of `also`, for SCAN
        promises only that a key that is there throughout is listed at least once. */
    method Scan(cursor: nat, suffix: string, also: string -> bool) returns (page: seq<string>, next: nat)
      requires cursor < slots
      ensures forall k :: k in page <==> k in keys && Glob(k, suffix) && (slotOf(k) % slots == cursor || also(k))
      ensures next == if cursor + 1 < slots then cursor + 1 else 0
    {
      var found := set k | k in keys && Glob(k, suffix) && (slotOf(k) % slots == cursor || also(k));
      page := Listing(found);
      assert forall k :: k in page <==> k in Members(page);
      next := if cursor + 1 < slots then cursor + 1 else 0;
    }
  }
}
