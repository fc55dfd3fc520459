/** The Redis key layout (internal/cogs/job.go, internal/cogs/scheduler.go) and the way
    queue names are read back out of keys (internal/cogs/store.go). */
module Keys {

  /** Everything the service ever names by a Redis key. */
  datatype Key =
    | Job(id: string)
    | Pending(queue: string)
    | Leased(queue: string)
    | Retry(queue: string)
    | Dead(queue: string)
    | Idem(key: string)
    | Schedule(id: string)
    | Schedules
    | Leader

  function JobKey(id: string): string { "job:" + id }
  function PendingKey(queue: string): string { "queue:" + queue + ":pending" }
  function LeasedKey(queue: string): string { "queue:" + queue + ":leased" }
  function RetryKey(queue: string): string { "queue:" + queue + ":retry" }
  function DeadKey(queue: string): string { "queue:" + queue + ":dead" }
  function IdemKey(key: string): string { "idem:" + key }
  function ScheduleKey(id: string): string { "schedule:" + id }
  const SCHEDULES_KEY := "schedules"
  const LEADER_KEY := "cogs:leader"

  function Render(k: Key): string {
    match k
    case Job(id) => JobKey(id)
    case Pending(q) => PendingKey(q)
    case Leased(q) => LeasedKey(q)
    case Retry(q) => RetryKey(q)
    case Dead(q) => DeadKey(q)
    case Idem(key) => IdemKey(key)
    case Schedule(id) => ScheduleKey(id)
    case Schedules => SCHEDULES_KEY
    case Leader => LEADER_KEY
  }

  /** `s` without its first `front` and last `back` characters. */
  function Trim(s: string, front: nat, back: nat): string {
    if front + back <= |s| then s[front..|s|-back] else ""
  }

  /** Reads a rendered key back: the first character separates the families, and for the
      four queue structures the last two characters do. */
  function Parse(s: string): Key
    requires |s| >= 9 || (|s| > 0 && s[0] !in "qs")
  {
    if s == "" || s[0] == 'c' then Leader
    else if s[0] == 'j' then Job(Trim(s, 4, 0))
    else if s[0] == 'i' then Idem(Trim(s, 5, 0))
    else if s[0] !in "qs" then Leader
    else if s[0] == 's' then (if s[8] == ':' then Schedule(Trim(s, 9, 0)) else Schedules)
    else if s[|s|-1] == 'y' then Retry(Trim(s, 6, 6))
    else if s[|s|-1] == 'g' then Pending(Trim(s, 6, 8))
    else if s[|s|-2] == 'a' then Dead(Trim(s, 6, 5))
    else Leased(Trim(s, 6, 7))
  }

  lemma ParseRender(k: Key)
    ensures var s := Render(k); (|s| >= 9 || (|s| > 0 && s[0] !in "qs")) && Parse(s) == k
  {
    var s := Render(k);
    match k
    case Job(id) => assert s[4..] == id;
    case Idem(key) => assert s[5..] == key;
    case Schedule(id) => assert s[8] == ':' && s[9..] == id;
    case Pending(q) =>
      assert s[|s|-1] == ":pending"[7];
      assert s[6..|s|-8] == q;
    case Leased(q) =>
      assert s[|s|-1] == ":leased"[6] && s[|s|-2] == ":leased"[5];
      assert s[6..|s|-7] == q;
    case Retry(q) =>
      assert s[|s|-1] == ":retry"[5];
      assert s[6..|s|-6] == q;
    case Dead(q) =>
      assert s[|s|-1] == ":dead"[4] && s[|s|-2] == ":dead"[3];
      assert s[6..|s|-5] == q;
    case Schedules => assert s[8] == 's';
    case Leader =>
  }

  /** No two things share a key, whatever characters the queue names, job IDs, schedule IDs
      and idempotency keys contain: a name with ':' in it cannot collide either. */
  lemma RenderInjective(a: Key, b: Key)
    requires Render(a) == Render(b)
    ensures a == b
  {
    ParseRender(a);
    ParseRender(b);
  }

  // ----- queueFromKey --------------------------------------------------------------------

  predicate Prefixed(k: string) { |k| >= 6 && k[..6] == "queue:" }

  /** `rest` is q + ":" + last with no ':' in `last`. */
  predicate Splits(rest: string, q: string, last: string) { rest == q + ":" + last && ':' !in last }

  /** `q` is the part of `k` between "queue:" and the last ':'. */
  ghost predicate Names(k: string, q: string) { Prefixed(k) && exists last :: Splits(k[6..], q, last) }

  /** In a split the name ends at the last ':'. */
  lemma SplitAt(rest: string, q: string, last: string)
    requires Splits(rest, q, last)
    ensures |q| < |rest| && rest[|q|] == ':' && rest[..|q|] == q
    ensures forall j | |q| < j < |rest| :: rest[j] != ':'
  {
    forall j | |q| < j < |rest| ensures rest[j] != ':' { assert rest[j] == last[j - |q| - 1]; }
  }

  ghost function QueueOf(k: string): string {
    if exists q :: Names(k, q) then (var q :| Names(k, q); q) else ""
  }

  lemma QueueOfNames(k: string, q: string)
    requires Names(k, q)
    ensures QueueOf(k) == q
  {
    var q' := QueueOf(k);
    var last :| Splits(k[6..], q, last);
    var last' :| Splits(k[6..], q', last');
    SplitAt(k[6..], q, last);
    SplitAt(k[6..], q', last');
  }

  lemma NamesHasColon(k: string)
    ensures (exists q :: Names(k, q)) ==> |k| >= 7 && ':' in k[6..]
  {
    if q, last :| Prefixed(k) && Splits(k[6..], q, last) {
      SplitAt(k[6..], q, last);
    }
  }

  /** The backward loop of queueFromKey: cuts `rest` at its last ':'. */
  method CutAtLastColon(rest: string) returns (q: string, found: bool)
    ensures found ==> exists last :: Splits(rest, q, last)
    ensures !found ==> ':' !in rest && q == ""
  {
    var i := |rest| - 1;
    while i >= 0
      invariant -1 <= i < |rest|
      invariant ':' !in rest[i+1..]
    {
      if rest[i] == ':' {
        assert Splits(rest, rest[..i], rest[i+1..]);
        return rest[..i], true;
      }
      assert rest[i..] == [rest[i]] + rest[i+1..];
      i := i - 1;
    }
    assert rest[0..] == rest;
    return "", false;
  }

  method QueueFromKey(k: string) returns (q: string)
    ensures q == QueueOf(k)
  {
    NamesHasColon(k);
    if |k| < |"queue::"| || k[..6] != "queue:" {
      return "";
    }
    var found;
    q, found := CutAtLastColon(k[6..]);
    if found {
      QueueOfNames(k, q);
    }
  }

  /** queueFromKey inverts the pending, leased and retry keys of every queue. */
  lemma QueueOfKeys(q: string)
    ensures QueueOf(PendingKey(q)) == QueueOf(LeasedKey(q)) == QueueOf(RetryKey(q)) == q
  {
    QueueOfOne(PendingKey(q), q, "pending");
    QueueOfOne(LeasedKey(q), q, "leased");
    QueueOfOne(RetryKey(q), q, "retry");
  }

  lemma QueueOfOne(k: string, q: string, last: string)
    requires ':' !in last && k == "queue:" + q + (":" + last)
    ensures QueueOf(k) == q
  {
    assert k[6..] == q + ":" + last;
    assert Splits(k[6..], q, last);
    QueueOfNames(k, q);
  }

  // ----- names accepted at the HTTP boundary ---------------------------------------------

  predicate ValidQueueName(q: string) {
    q != "" && |q| <= 128 && forall c | c in q :: c !in ": \t\r\n{}"
  }

  /** A name of 1 to 128 characters is accepted unless one of seven characters is in it; the
      keys of an accepted name can be split at their second ':' as well as at their last. */
  lemma NameRules(q: string)
    ensures ValidQueueName(q) <==>
              && 1 <= |q| < 129 && ':' !in q && ' ' !in q && '\t' !in q && '\r' !in q && '\n' !in q
              && '{' !in q && '}' !in q
    ensures ValidQueueName(q) ==> |q| + 6 <= |PendingKey(q)| && ':' !in PendingKey(q)[6..6 + |q|]
  {
    assert PendingKey(q)[6..6 + |q|] == q;
  }
}
