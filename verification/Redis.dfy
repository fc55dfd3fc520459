/** The flat Redis keyspace under the model: typed values at string keys, the commands the
    scripts use, and what it means for a keyspace to represent a model database. */
module Redis {
  import opened Wrappers
  import opened Keys
  import M = Model

  /** A list is kept head first. A hash is either a job's or a schedule's. A string has an
      expiry time and counts as absent from then on. */
  datatype Value =
    | List(items: seq<string>)
    | Scores(scores: map<string, int>)
    | JobHash(job: M.Job)
    | ScheduleHash(definition: M.Schedule)
    | Text(marker: M.Marker)

  type Keyspace = map<string, Value>

  // ----- commands ------------------------------------------------------------------------

  /** Redis answers WRONGTYPE unless the key is absent or holds the command's type. */
  predicate ListAt(keys: Keyspace, k: string) { k in keys ==> keys[k].List? }
  predicate ScoresAt(keys: Keyspace, k: string) { k in keys ==> keys[k].Scores? }
  predicate JobAt(keys: Keyspace, k: string) { k in keys ==> keys[k].JobHash? }
  predicate ScheduleAt(keys: Keyspace, k: string) { k in keys ==> keys[k].ScheduleHash? }
  predicate TextAt(keys: Keyspace, k: string) { k in keys ==> keys[k].Text? }

  function Put(keys: Keyspace, k: string, v: Option<Value>): Keyspace {
    if v.None? then keys - {k} else keys[k := v.value]
  }

  /** An empty list or sorted set is no key at all. */
  function ListValue(items: seq<string>): Option<Value> { if items == [] then None else Some(List(items)) }
  function ScoresValue(z: map<string, int>): Option<Value> { if z == map[] then None else Some(Scores(z)) }

  function Items(keys: Keyspace, k: string): seq<string>
    requires ListAt(keys, k)
  {
    if k in keys then keys[k].items else []
  }

  function ScoresOf(keys: Keyspace, k: string): map<string, int>
    requires ScoresAt(keys, k)
  {
    if k in keys then keys[k].scores else map[]
  }

  function Lpush(keys: Keyspace, k: string, x: string): Keyspace
    requires ListAt(keys, k)
  {
    Put(keys, k, ListValue([x] + Items(keys, k)))
  }

  function Rpop(keys: Keyspace, k: string): (Keyspace, Option<string>)
    requires ListAt(keys, k)
  {
    var items := Items(keys, k);
    if items == [] then (keys, None)
    else (Put(keys, k, ListValue(items[..|items|-1])), Some(items[|items|-1]))
  }

  function Zadd(keys: Keyspace, k: string, score: int, x: string): Keyspace
    requires ScoresAt(keys, k)
  {
    Put(keys, k, ScoresValue(ScoresOf(keys, k)[x := score]))
  }

  function Zrem(keys: Keyspace, k: string, x: string): (Keyspace, int)
    requires ScoresAt(keys, k)
  {
    var z := ScoresOf(keys, k);
    if x in z then (Put(keys, k, ScoresValue(z - {x})), 1) else (keys, 0)
  }

  function HsetJob(keys: Keyspace, k: string, job: M.Job): Keyspace
    requires JobAt(keys, k)
  {
    Put(keys, k, Some(JobHash(job)))
  }

  /** HINCRBY attempts 1 and its reply. */
  function HincrAttempts(keys: Keyspace, k: string): (Keyspace, int)
    requires JobAt(keys, k)
  {
    var job := if k in keys then keys[k].job.(attempts := keys[k].job.attempts + 1) else M.Job("", "", 1, "", 0);
    (Put(keys, k, Some(JobHash(job))), job.attempts)
  }

  /** GET at a time. */
  function Get(keys: Keyspace, k: string, at: int): Option<string>
    requires TextAt(keys, k)
  {
    if k in keys && M.Live(keys[k].marker, at) then Some(keys[k].marker.text) else None
  }

  /** SET NX with an expiry, in milliseconds, and whether it set. */
  function SetNx(keys: Keyspace, k: string, at: int, text: string, ttl: int): (Keyspace, bool)
    requires TextAt(keys, k)
  {
    if Get(keys, k, at).Some? then (keys, false)
    else (Put(keys, k, Some(Text(M.Marker(text, at + ttl)))), true)
  }

  function Pexpire(keys: Keyspace, k: string, at: int, ttl: int): Keyspace
    requires TextAt(keys, k) && Get(keys, k, at).Some?
  {
    Put(keys, k, Some(Text(keys[k].marker.(expireAt := at + ttl))))
  }

  // ----- representation ------------------------------------------------------------------

  function Reverse(s: seq<string>): seq<string> {
    if s == [] then [] else [s[|s|-1]] + Reverse(s[..|s|-1])
  }

  lemma ReversePush(s: seq<string>, x: string)
    ensures Reverse(s + [x]) == [x] + Reverse(s)
  {
    assert (s + [x])[..|s|] == s;
  }

  lemma {:induction false} ReversePop(s: seq<string>)
    requires s != []
    ensures var r := Reverse(s); r != [] && r[|r|-1] == s[0] && r[..|r|-1] == Reverse(s[1..])
  {
    var n := |s| - 1;
    if n > 0 {
      ReversePop(s[..n]);
      assert s[..n][1..] == s[1..][..n-1];
      assert Reverse(s[1..]) == [s[n]] + Reverse(s[1..][..n-1]);
      var r := Reverse(s[..n]);
      assert ([s[n]] + r)[..|r|] == [s[n]] + r[..|r|-1];
    }
  }

  lemma {:induction false} ReverseEmpty(s: seq<string>)
    ensures |Reverse(s)| == |s|
  {
    if s != [] { ReverseEmpty(s[..|s|-1]); }
  }

  function At(keys: Keyspace, k: Key): Option<Value> {
    if Render(k) in keys then Some(keys[Render(k)]) else None
  }

  /** What the model database says is stored under a key. */
  function Image(db: M.Db, k: Key): Option<Value> {
    match k
    case Job(id) => if id in db.jobs then Some(JobHash(db.jobs[id])) else None
    case Pending(q) => ListValue(Reverse(db.queues[q].pending))
    case Leased(q) => ScoresValue(db.queues[q].leased)
    case Retry(q) => ScoresValue(db.queues[q].retry)
    case Dead(q) => ListValue(Reverse(db.queues[q].dead))
    case Idem(key) => if key in db.markers then Some(Text(db.markers[key])) else None
    case Schedule(id) => if id in db.definitions then Some(ScheduleHash(db.definitions[id])) else None
    case Schedules => ScoresValue(db.schedules)
    case Leader => if db.lock.Some? then Some(Text(db.lock.value)) else None
  }

  predicate Agrees(keys: Keyspace, db: M.Db, k: Key) { At(keys, k) == Image(db, k) }

  /** The keyspace represents the database: every key of the layout holds its image. */
  ghost predicate Represents(keys: Keyspace, db: M.Db) { forall k: Key :: Agrees(keys, db, k) }

  lemma {:induction false} ReverseInjective(s: seq<string>, t: seq<string>)
    requires Reverse(s) == Reverse(t)
    ensures s == t
  {
    ReverseEmpty(s);
    ReverseEmpty(t);
    if s != [] {
      var n := |s| - 1;
      assert Reverse(s[..n]) == Reverse(s)[1..] == Reverse(t[..n]);
      ReverseInjective(s[..n], t[..n]);
      assert s == s[..n] + [s[n]] && t == t[..n] + [t[n]];
    }
  }

  lemma SameImage(keys: Keyspace, a: M.Db, b: M.Db, k: Key)
    requires Represents(keys, a) && Represents(keys, b)
    ensures Image(a, k) == Image(b, k)
  {
    assert Agrees(keys, a, k) && Agrees(keys, b, k);
  }

  lemma SameListed(s: seq<string>, t: seq<string>)
    requires ListValue(Reverse(s)) == ListValue(Reverse(t))
    ensures s == t
  {
    ReverseInjective(s, t);
  }

  lemma SameQueue(keys: Keyspace, a: M.Db, b: M.Db, q: string)
    requires Represents(keys, a) && Represents(keys, b)
    ensures a.queues[q] == b.queues[q]
  {
    SameImage(keys, a, b, Pending(q));
    SameImage(keys, a, b, Leased(q));
    SameImage(keys, a, b, Retry(q));
    SameImage(keys, a, b, Dead(q));
    SameListed(a.queues[q].pending, b.queues[q].pending);
    SameListed(a.queues[q].dead, b.queues[q].dead);
  }

  lemma SameHashes(keys: Keyspace, a: M.Db, b: M.Db, id: string)
    requires Represents(keys, a) && Represents(keys, b)
    ensures id in a.jobs <==> id in b.jobs
    ensures id in a.jobs ==> a.jobs[id] == b.jobs[id]
    ensures id in a.markers <==> id in b.markers
    ensures id in a.markers ==> a.markers[id] == b.markers[id]
    ensures id in a.definitions <==> id in b.definitions
    ensures id in a.definitions ==> a.definitions[id] == b.definitions[id]
  {
    SameImage(keys, a, b, Job(id));
    SameImage(keys, a, b, Idem(id));
    SameImage(keys, a, b, Schedule(id));
  }

  /** A keyspace represents one database only. */
  lemma RepresentsOne(keys: Keyspace, a: M.Db, b: M.Db)
    requires Represents(keys, a) && Represents(keys, b)
    ensures a == b
  {
    forall q ensures a.queues[q] == b.queues[q] { SameQueue(keys, a, b, q); }
    assert a.queues == b.queues;
    forall id { SameHashes(keys, a, b, id); }
    assert a.jobs == b.jobs && a.markers == b.markers && a.definitions == b.definitions;
    SameImage(keys, a, b, Schedules);
    SameImage(keys, a, b, Leader);
  }

  /** Writing one key changes one image: no other key of the layout renders to it. */
  lemma Rewrites(keys: Keyspace, db: M.Db, k: Key, v: Option<Value>, db': M.Db)
    requires Represents(keys, db) && Image(db', k) == v
    requires forall j: Key | j != k :: Image(db', j) == Image(db, j)
    ensures Represents(Put(keys, Render(k), v), db')
  {
    var keys' := Put(keys, Render(k), v);
    forall j: Key ensures Agrees(keys', db', j) {
      if j != k {
        if Render(j) == Render(k) { RenderInjective(j, k); }
        assert Agrees(keys, db, j);
      }
    }
  }

  function WithQueue(db: M.Db, q: string, z: M.Queue): M.Db { db.(queues := db.queues[q := z]) }

  lemma QueueTyped(keys: Keyspace, db: M.Db, q: string)
    requires Represents(keys, db)
    ensures ListAt(keys, PendingKey(q)) && Items(keys, PendingKey(q)) == Reverse(db.queues[q].pending)
    ensures ListAt(keys, DeadKey(q)) && Items(keys, DeadKey(q)) == Reverse(db.queues[q].dead)
    ensures ScoresAt(keys, LeasedKey(q)) && ScoresOf(keys, LeasedKey(q)) == db.queues[q].leased
    ensures ScoresAt(keys, RetryKey(q)) && ScoresOf(keys, RetryKey(q)) == db.queues[q].retry
  {
    assert Agrees(keys, db, Pending(q));
    assert Agrees(keys, db, Dead(q));
    assert Agrees(keys, db, Leased(q));
    assert Agrees(keys, db, Retry(q));
  }

  lemma JobTyped(keys: Keyspace, db: M.Db, id: string)
    requires Represents(keys, db)
    ensures JobAt(keys, JobKey(id)) && (JobKey(id) in keys <==> id in db.jobs)
    ensures id in db.jobs ==> keys[JobKey(id)].job == db.jobs[id]
  {
    assert Agrees(keys, db, Job(id));
  }

  lemma ScheduleTyped(keys: Keyspace, db: M.Db, id: string)
    requires Represents(keys, db)
    ensures ScheduleAt(keys, ScheduleKey(id)) && (ScheduleKey(id) in keys <==> id in db.definitions)
    ensures id in db.definitions ==> keys[ScheduleKey(id)].definition == db.definitions[id]
    ensures ScoresAt(keys, SCHEDULES_KEY) && ScoresOf(keys, SCHEDULES_KEY) == db.schedules
  {
    assert Agrees(keys, db, Schedule(id));
    assert Agrees(keys, db, Schedules);
  }

  lemma TextTyped(keys: Keyspace, db: M.Db, key: string)
    requires Represents(keys, db)
    ensures TextAt(keys, IdemKey(key)) && (IdemKey(key) in keys <==> key in db.markers)
    ensures key in db.markers ==> keys[IdemKey(key)].marker == db.markers[key]
    ensures TextAt(keys, LEADER_KEY) && (LEADER_KEY in keys <==> db.lock.Some?)
    ensures db.lock.Some? ==> keys[LEADER_KEY].marker == db.lock.value
  {
    assert Agrees(keys, db, Idem(key));
    assert Agrees(keys, db, Leader);
  }

  // ----- each command on each kind of key is one change of the model ----------------------

  lemma PutPending(keys: Keyspace, db: M.Db, q: string, pending: seq<string>)
    requires Represents(keys, db)
    ensures Represents(Put(keys, PendingKey(q), ListValue(Reverse(pending))),
                       WithQueue(db, q, db.queues[q].(pending := pending)))
  {
    Rewrites(keys, db, Pending(q), ListValue(Reverse(pending)), WithQueue(db, q, db.queues[q].(pending := pending)));
  }

  lemma PushPending(keys: Keyspace, db: M.Db, q: string, id: string)
    requires Represents(keys, db)
    ensures ListAt(keys, PendingKey(q))
    ensures var z := db.queues[q];
            Represents(Lpush(keys, PendingKey(q), id), WithQueue(db, q, z.(pending := z.pending + [id])))
  {
    QueueTyped(keys, db, q);
    ReversePush(db.queues[q].pending, id);
    PutPending(keys, db, q, db.queues[q].pending + [id]);
  }

  /** RPOP takes the oldest pending job, or nothing from an empty queue. */
  lemma PopPending(keys: Keyspace, db: M.Db, q: string)
    requires Represents(keys, db)
    ensures ListAt(keys, PendingKey(q))
    ensures var z, r := db.queues[q], Rpop(keys, PendingKey(q));
            if z.pending == [] then r == (keys, None)
            else r.1 == Some(z.pending[0]) && Represents(r.0, WithQueue(db, q, z.(pending := z.pending[1..])))
  {
    QueueTyped(keys, db, q);
    var pending := db.queues[q].pending;
    ReverseEmpty(pending);
    if pending != [] {
      ReversePop(pending);
      PutPending(keys, db, q, pending[1..]);
    }
  }

  lemma PutDead(keys: Keyspace, db: M.Db, q: string, dead: seq<string>)
    requires Represents(keys, db)
    ensures Represents(Put(keys, DeadKey(q), ListValue(Reverse(dead))), WithQueue(db, q, db.queues[q].(dead := dead)))
  {
    Rewrites(keys, db, Dead(q), ListValue(Reverse(dead)), WithQueue(db, q, db.queues[q].(dead := dead)));
  }

  lemma PushDead(keys: Keyspace, db: M.Db, q: string, id: string)
    requires Represents(keys, db)
    ensures ListAt(keys, DeadKey(q))
    ensures var z := db.queues[q];
            Represents(Lpush(keys, DeadKey(q), id), WithQueue(db, q, z.(dead := z.dead + [id])))
  {
    QueueTyped(keys, db, q);
    ReversePush(db.queues[q].dead, id);
    PutDead(keys, db, q, db.queues[q].dead + [id]);
  }

  lemma PutLeased(keys: Keyspace, db: M.Db, q: string, leased: map<string, int>)
    requires Represents(keys, db)
    ensures Represents(Put(keys, LeasedKey(q), ScoresValue(leased)), WithQueue(db, q, db.queues[q].(leased := leased)))
  {
    Rewrites(keys, db, Leased(q), ScoresValue(leased), WithQueue(db, q, db.queues[q].(leased := leased)));
  }

  lemma PutRetry(keys: Keyspace, db: M.Db, q: string, retry: map<string, int>)
    requires Represents(keys, db)
    ensures Represents(Put(keys, RetryKey(q), ScoresValue(retry)), WithQueue(db, q, db.queues[q].(retry := retry)))
  {
    Rewrites(keys, db, Retry(q), ScoresValue(retry), WithQueue(db, q, db.queues[q].(retry := retry)));
  }

  lemma PutJob(keys: Keyspace, db: M.Db, id: string, job: M.Job)
    requires Represents(keys, db)
    ensures Represents(Put(keys, JobKey(id), Some(JobHash(job))), db.(jobs := db.jobs[id := job]))
  {
    Rewrites(keys, db, Job(id), Some(JobHash(job)), db.(jobs := db.jobs[id := job]));
  }

  lemma BumpJob(keys: Keyspace, db: M.Db, id: string)
    requires Represents(keys, db)
    ensures JobAt(keys, JobKey(id))
    ensures var r := HincrAttempts(keys, JobKey(id));
            && r.1 == M.Bumped(db.jobs, id).attempts
            && Represents(r.0, db.(jobs := db.jobs[id := M.Bumped(db.jobs, id)]))
  {
    JobTyped(keys, db, id);
    PutJob(keys, db, id, M.Bumped(db.jobs, id));
  }

  lemma DeleteJob(keys: Keyspace, db: M.Db, id: string)
    requires Represents(keys, db)
    ensures Represents(Put(keys, JobKey(id), None), db.(jobs := db.jobs - {id}))
  {
    Rewrites(keys, db, Job(id), None, db.(jobs := db.jobs - {id}));
  }

  lemma PutMarker(keys: Keyspace, db: M.Db, key: string, m: M.Marker)
    requires Represents(keys, db)
    ensures Represents(Put(keys, IdemKey(key), Some(Text(m))), db.(markers := db.markers[key := m]))
  {
    Rewrites(keys, db, Idem(key), Some(Text(m)), db.(markers := db.markers[key := m]));
  }

  lemma PutSchedules(keys: Keyspace, db: M.Db, schedules: map<string, int>)
    requires Represents(keys, db)
    ensures Represents(Put(keys, SCHEDULES_KEY, ScoresValue(schedules)), db.(schedules := schedules))
  {
    Rewrites(keys, db, Schedules, ScoresValue(schedules), db.(schedules := schedules));
  }

  lemma PutDefinition(keys: Keyspace, db: M.Db, id: string, d: M.Schedule)
    requires Represents(keys, db)
    ensures Represents(Put(keys, ScheduleKey(id), Some(ScheduleHash(d))), db.(definitions := db.definitions[id := d]))
  {
    Rewrites(keys, db, Schedule(id), Some(ScheduleHash(d)), db.(definitions := db.definitions[id := d]));
  }

  lemma DeleteDefinition(keys: Keyspace, db: M.Db, id: string)
    requires Represents(keys, db)
    ensures Represents(Put(keys, ScheduleKey(id), None), db.(definitions := db.definitions - {id}))
  {
    Rewrites(keys, db, Schedule(id), None, db.(definitions := db.definitions - {id}));
  }

  lemma PutLock(keys: Keyspace, db: M.Db, lock: Option<M.Marker>)
    requires Represents(keys, db)
    ensures Represents(Put(keys, LEADER_KEY, if lock.Some? then Some(Text(lock.value)) else None), db.(lock := lock))
  {
    Rewrites(keys, db, Leader, if lock.Some? then Some(Text(lock.value)) else None, db.(lock := lock));
  }

  lemma EmptyRepresents()
    ensures Represents(map[], M.EMPTY_DB)
  {
  }
}
