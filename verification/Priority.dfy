/** A claim over several queues: what one script call per queue, each at its own moment and
    with anything happening in between, adds up to (Claim in internal/cogs/store.go). */
module Priority {
  import opened Ranking
  import opened Model
  import opened Lifecycle
  import Attempts
  import opened Scripts

  /** One script call: the run before it, its step, and what it handed out. */
  datatype Visit = Visit(before: Trace, step: Step, grants: seq<Grant>)

  function After(v: Visit): Trace { v.before + [v.step] }

  function Got(vs: seq<Visit>): nat { if vs == [] then 0 else Got(vs[..|vs|-1]) + |vs[|vs|-1].grants| }

  function Ids(grants: seq<Grant>): seq<Id> { seq(|grants|, i requires 0 <= i < |grants| => grants[i].id) }

  function AllIds(vs: seq<Visit>): seq<Id> {
    if vs == [] then [] else AllIds(vs[..|vs|-1]) + Ids(vs[|vs|-1].grants)
  }

  /** The call handed out the oldest pending jobs of its queue, with their own data. */
  ghost predicate Answered(c: Config, v: Visit) {
    var op, db := v.step.op, Run(c, v.before);
    op.ClaimOp? && v.grants == GrantAll(db.jobs, Claimed(db.queues[op.queue], op.n))
  }

  predicate Asks(queues: seq<string>, batch: int, deadline: int, vs: seq<Visit>, i: nat)
    requires i < |vs| <= |queues|
  {
    Got(vs[..i]) < batch && vs[i].step.op == ClaimOp(queues[i], batch - Got(vs[..i]), deadline)
  }

  ghost predicate AnsweredAt(c: Config, vs: seq<Visit>, i: nat)
    requires i < |vs|
  {
    Answered(c, vs[i])
  }

  /** The calls of one claim within a run: queue after queue, each asked for what is still
      missing, until the batch is full or the queues are exhausted. */
  ghost predicate Tour(c: Config, t: Trace, queues: seq<string>, batch: int, deadline: int, vs: seq<Visit>) {
    && |vs| <= |queues|
    && (forall i | 0 <= i < |vs| :: Asks(queues, batch, deadline, vs, i))
    && (forall i | 0 <= i < |vs| :: AnsweredAt(c, vs, i))
    && InOrder(t, vs)
  }

  predicate InOrder(t: Trace, vs: seq<Visit>) {
    && (forall i | 0 <= i < |vs| :: After(vs[i]) <= t)
    && (forall i, j | 0 <= i < j < |vs| :: After(vs[i]) <= vs[j].before)
  }

  /** The claim stopped where the code stops. */
  predicate Complete(queues: seq<string>, batch: int, vs: seq<Visit>) { |vs| < |queues| ==> Got(vs) >= batch }

  /** The queue was empty after its own call. */
  ghost predicate LeftEmpty(c: Config, v: Visit, q: string) { Run(c, After(v)).queues[q].pending == [] }

  lemma {:induction false} GotGrows(vs: seq<Visit>, i: nat, j: nat)
    requires i <= j <= |vs|
    ensures Got(vs[..i]) <= Got(vs[..j])
    decreases j
  {
    if i < j {
      assert vs[..j][..j-1] == vs[..j-1];
      GotGrows(vs, i, j - 1);
    }
  }

  lemma GotOneMore(vs: seq<Visit>, i: nat)
    requires i < |vs|
    ensures Got(vs[..i+1]) == Got(vs[..i]) + |vs[i].grants|
  {
    assert vs[..i+1][..i] == vs[..i];
  }

  ghost predicate Answers(c: Config, v: Visit, q: string, n: int, deadline: int) {
    v.step.op == ClaimOp(q, n, deadline) && Answered(c, v)
  }

  lemma ShortEmpties(c: Config, v: Visit, q: string, n: int, deadline: int)
    requires Answers(c, v, q, n, deadline) && |v.grants| < n
    ensures LeftEmpty(c, v, q)
  {
    Attempts.Extend(c, v.before, v.step);
  }

  lemma TourAt(c: Config, t: Trace, queues: seq<string>, batch: int, deadline: int, vs: seq<Visit>, i: nat)
    requires Tour(c, t, queues, batch, deadline, vs) && i < |vs|
    ensures i < |queues| && Got(vs[..i]) < batch && Answers(c, vs[i], queues[i], batch - Got(vs[..i]), deadline)
  {
    assert Asks(queues, batch, deadline, vs, i) && AnsweredAt(c, vs, i);
  }

  lemma StillShort(vs: seq<Visit>, i: nat, j: nat, batch: int)
    requires i < j <= |vs| && Got(vs[..j]) < batch
    ensures |vs[i].grants| < batch - Got(vs[..i])
  {
    GotOneMore(vs, i);
    GotGrows(vs, i + 1, j);
  }

  /** A claim never hands out more than the batch. */
  lemma TourFits(c: Config, t: Trace, queues: seq<string>, batch: nat, deadline: int, vs: seq<Visit>)
    requires Tour(c, t, queues, batch, deadline, vs)
    ensures Got(vs) <= batch
  {
    if vs != [] { TourAt(c, t, queues, batch, deadline, vs, |vs| - 1); }
  }

  lemma EmptiedWhenShort(c: Config, t: Trace, queues: seq<string>, batch: int, deadline: int, vs: seq<Visit>, i: nat,
                         j: nat)
    requires Tour(c, t, queues, batch, deadline, vs) && i < j <= |vs| && Got(vs[..j]) < batch
    ensures LeftEmpty(c, vs[i], queues[i])
  {
    TourAt(c, t, queues, batch, deadline, vs, i);
    StillShort(vs, i, j, batch);
    ShortEmpties(c, vs[i], queues[i], batch - Got(vs[..i]), deadline);
  }

  /** It goes on to a later queue only after every earlier one was emptied at its own call. */
  lemma PriorityOrder(c: Config, t: Trace, queues: seq<string>, batch: int, deadline: int, vs: seq<Visit>, i: nat,
                      j: nat)
    requires Tour(c, t, queues, batch, deadline, vs) && i < j < |vs|
    ensures LeftEmpty(c, vs[i], queues[i])
  {
    TourAt(c, t, queues, batch, deadline, vs, j);
    EmptiedWhenShort(c, t, queues, batch, deadline, vs, i, j);
  }

  /** It falls short of the batch only if every listed queue was emptied at its own call. */
  lemma ShortOnlyIfEmpty(c: Config, t: Trace, queues: seq<string>, batch: int, deadline: int, vs: seq<Visit>, i: nat)
    requires Tour(c, t, queues, batch, deadline, vs) && Complete(queues, batch, vs)
    requires Got(vs) < batch && i < |queues|
    ensures i < |vs| == |queues| && LeftEmpty(c, vs[i], queues[i])
  {
    assert vs[..|vs|] == vs;
    EmptiedWhenShort(c, t, queues, batch, deadline, vs, i, |vs|);
  }

  // ----- the IDs of one claim are distinct ------------------------------------------------

  lemma OnceDistinct(s: seq<Id>)
    requires forall x | x in s :: multiset(s)[x] == 1
    ensures Distinct(s)
  {
    forall i, j | 0 <= i < j < |s| ensures s[i] != s[j] {
      var a, b := s[..j], s[j..];
      assert s == a + b && a[i] == s[i] && b[0] == s[j];
      assert multiset(s)[s[j]] == multiset(a)[s[j]] + multiset(b)[s[j]];
      assert s[i] in multiset(a) && s[j] in multiset(b);
    }
  }

  /** Pending jobs are distinct and belong to their queue. */
  lemma PendingOwn(c: Config, t: Trace, q: string)
    requires Legal(c, t)
    ensures Distinct(Run(c, t).queues[q].pending)
    ensures forall x | x in Run(c, t).queues[q].pending :: Owns(Run(c, t).jobs, q, x)
  {
    NoJobLostOrDuplicated(c, t);
    var db := Run(c, t);
    PendingSound(db, q);
  }

  lemma PendingSound(db: Db, q: string)
    requires Sound(db)
    ensures Distinct(db.queues[q].pending)
    ensures forall x | x in db.queues[q].pending :: Owns(db.jobs, q, x)
  {
    var p := db.queues[q].pending;
    forall x | x in p ensures multiset(p)[x] == 1 && Owns(db.jobs, q, x) { SoundAt(db, q, x); }
    OnceDistinct(p);
  }

  /** What one call hands out: distinct jobs of that queue. */
  lemma VisitOwn(c: Config, v: Visit, q: string, n: int, deadline: int)
    requires Answers(c, v, q, n, deadline) && Legal(c, v.before)
    ensures Distinct(Ids(v.grants))
    ensures forall x | x in Ids(v.grants) :: Owns(Run(c, v.before).jobs, q, x)
  {
    PendingOwn(c, v.before, q);
    GrantIds(Run(c, v.before).jobs, Claimed(Run(c, v.before).queues[q], n));
  }

  lemma GrantIds(jobs: map<Id, Job>, ids: seq<Id>)
    ensures Ids(GrantAll(jobs, ids)) == ids
  {
  }

  lemma OwnerFixed(c: Config, u: Trace, t: Trace, id: Id, q: string, q': string)
    requires Legal(c, t) && u <= t && Owns(Run(c, u).jobs, q, id) && Owns(Run(c, t).jobs, q', id)
    ensures q == q'
  {
    assert u == t[..|u|];
    Attempts.JobKept(c, t, |u|, id);
  }

  /** Calls on different queues never hand out the same job, whatever happened in between. */
  lemma VisitsDisjoint(c: Config, v: Visit, q: string, n: int, w: Visit, q': string, n': int, deadline: int, x: Id)
    requires Answers(c, v, q, n, deadline) && Answers(c, w, q', n', deadline) && q != q'
    requires Legal(c, v.before) && Legal(c, w.before) && After(v) <= w.before
    ensures !(x in Ids(v.grants) && x in Ids(w.grants))
  {
    VisitOwn(c, v, q, n, deadline);
    VisitOwn(c, w, q', n', deadline);
    if x in Ids(v.grants) && x in Ids(w.grants) {
      OwnerFixed(c, v.before, w.before, x, q, q');
    }
  }

  lemma {:induction false} AllIdsFrom(vs: seq<Visit>, k: nat, x: Id)
    requires k <= |vs| && x in AllIds(vs[..k])
    ensures exists i | 0 <= i < k :: x in Ids(vs[i].grants)
    decreases k
  {
    assert vs[..k][..k-1] == vs[..k-1];
    if x !in Ids(vs[k-1].grants) { AllIdsFrom(vs, k - 1, x); }
  }

  lemma BeforeLegal(c: Config, t: Trace, v: Visit)
    requires Legal(c, t) && After(v) <= t
    ensures Legal(c, v.before)
  {
    assert t[..|v.before|] == v.before;
    Attempts.LegalPrefix(c, t, |v.before|);
  }

  /** Visit i, without the tour around it. */
  lemma TourVisit(c: Config, t: Trace, queues: seq<string>, batch: int, deadline: int, vs: seq<Visit>, i: nat)
    returns (v: Visit, q: string, n: int)
    requires Tour(c, t, queues, batch, deadline, vs) && i < |vs|
    ensures v == vs[i] && q == queues[i] && Answers(c, v, q, n, deadline) && After(v) <= t
  {
    TourAt(c, t, queues, batch, deadline, vs, i);
    v, q, n := vs[i], queues[i], batch - Got(vs[..i]);
  }

  lemma TourDisjoint(c: Config, t: Trace, queues: seq<string>, batch: int, deadline: int, vs: seq<Visit>, i: nat,
                     j: nat, x: Id)
    requires Legal(c, t) && Distinct(queues) && Tour(c, t, queues, batch, deadline, vs) && i < j < |vs|
    ensures !(x in Ids(vs[i].grants) && x in Ids(vs[j].grants))
  {
    var v, q, n := TourVisit(c, t, queues, batch, deadline, vs, i);
    var w, q', n' := TourVisit(c, t, queues, batch, deadline, vs, j);
    BeforeLegal(c, t, v);
    BeforeLegal(c, t, w);
    VisitsDisjoint(c, v, q, n, w, q', n', deadline, x);
  }

  lemma TourOwn(c: Config, t: Trace, queues: seq<string>, batch: int, deadline: int, vs: seq<Visit>, i: nat)
    requires Legal(c, t) && Tour(c, t, queues, batch, deadline, vs) && i < |vs|
    ensures Distinct(Ids(vs[i].grants))
  {
    var v, q, n := TourVisit(c, t, queues, batch, deadline, vs, i);
    BeforeLegal(c, t, v);
    VisitOwn(c, v, q, n, deadline);
  }

  /** The last call's jobs are none of the earlier ones. */
  lemma TourTail(c: Config, t: Trace, queues: seq<string>, batch: int, deadline: int, vs: seq<Visit>, n: nat, x: Id)
    requires Legal(c, t) && Distinct(queues) && Tour(c, t, queues, batch, deadline, vs) && n < |vs|
    requires x in AllIds(vs[..n])
    ensures x !in Ids(vs[n].grants)
  {
    AllIdsFrom(vs, n, x);
    var i :| 0 <= i < n && x in Ids(vs[i].grants);
    TourDisjoint(c, t, queues, batch, deadline, vs, i, n, x);
  }

  lemma JoinDistinct(a: seq<Id>, b: seq<Id>)
    requires Distinct(a) && Distinct(b) && Members(a) !! Members(b)
    ensures Distinct(a + b)
  {
    forall i, j | 0 <= i < j < |a + b| ensures (a + b)[i] != (a + b)[j] {
      if i < |a| <= j { assert (a + b)[i] in Members(a) && (a + b)[j] in Members(b); }
    }
  }

  /** When the queue names are distinct, so are all the IDs one claim hands out. */
  lemma {:induction false} DistinctTour(c: Config, t: Trace, queues: seq<string>, batch: int, deadline: int,
                                        vs: seq<Visit>, k: nat)
    requires Legal(c, t) && Distinct(queues) && Tour(c, t, queues, batch, deadline, vs) && k <= |vs|
    ensures Distinct(AllIds(vs[..k]))
    decreases k
  {
    if k > 0 {
      DistinctTour(c, t, queues, batch, deadline, vs, k - 1);
      TourOwn(c, t, queues, batch, deadline, vs, k - 1);
      var head, tail := AllIds(vs[..k-1]), Ids(vs[k-1].grants);
      forall x | x in head ensures x !in tail { TourTail(c, t, queues, batch, deadline, vs, k - 1, x); }
      JoinDistinct(head, tail);
      assert vs[..k][..k-1] == vs[..k-1];
    }
  }
}
