/** Idempotency keys over whole runs: within the window a key creates one job, whichever
    server, queue or later acknowledgement is involved. */
module Idempotency {
  import opened Wrappers
  import opened Model
  import opened Attempts

  /** What the enqueue script answers: whether it created a job, and the job's ID. */
  function EnqueueReply(db: Db, s: Step): (bool, Id)
    requires s.op.EnqueueOp?
  {
    if Seen(db.markers, s.op.idem, s.at) then (false, db.markers[s.op.idem].text) else (true, s.op.id)
  }

  /** The step creates a job under `key`. */
  predicate Creates(db: Db, s: Step, key: string) {
    s.op.EnqueueOp? && s.op.idem == key && EnqueueReply(db, s).0
  }

  datatype Creation = Creation(id: Id, at: int)

  /** The latest creation under `key` in a run. */
  ghost function Latest(c: Config, t: Trace, key: string): Option<Creation> {
    if t == [] then None
    else
      var s := t[|t|-1];
      if Creates(Run(c, t[..|t|-1]), s, key) then Some(Creation(s.op.id, s.at)) else Latest(c, t[..|t|-1], key)
  }

  lemma {:induction false} FireMarkers(db: Db, now: int, fs: seq<Firing>)
    ensures Fire(db, now, fs).markers == db.markers
  {
    if fs != [] { FireMarkers(db, now, fs[..|fs|-1]); }
  }

  lemma StepMarker(c: Config, db: Db, s: Step, key: string)
    requires key != ""
    ensures var m, m' := db.markers, Apply(c, db, s).markers;
            if Creates(db, s, key) then key in m' && m'[key] == Marker(s.op.id, s.at + 1000 * c.window)
            else (key in m' <==> key in m) && (key in m ==> m'[key] == m[key])
  {
    if s.op.FireOp? {
      FireMarkers(db, s.op.now, s.op.firings);
      MarkerFrame(c, db, s);
    } else if !s.op.EnqueueOp? {
      MarkerFrame(c, db, s);
    }
  }

  /** Only an enqueue writes a marker. */
  lemma MarkerFrame(c: Config, db: Db, s: Step)
    requires !s.op.EnqueueOp? && (s.op.FireOp? ==> Fire(db, s.op.now, s.op.firings).markers == db.markers)
    ensures Apply(c, db, s).markers == db.markers
  {
    if s.op.ReapOp? || s.op.RequeueOp? || s.op.FailOp? || s.op.RenewOp? { }
  }

  /** A key's marker is that of its latest creation and lasts one window. */
  lemma {:induction false} MarkerIsLatest(c: Config, t: Trace, key: string)
    requires key != ""
    ensures match Latest(c, t, key)
            case None => key !in Run(c, t).markers
            case Some(m) => key in Run(c, t).markers && Run(c, t).markers[key] == Marker(m.id, m.at + 1000 * c.window)
  {
    if t != [] {
      MarkerIsLatest(c, t[..|t|-1], key);
      StepMarker(c, Run(c, t[..|t|-1]), t[|t|-1], key);
    }
  }

  /** An enqueue with a key creates a job exactly when the key's latest creation, if any, is
      at least one window old; otherwise it answers that creation's ID and changes nothing. */
  lemma EnqueueDecides(c: Config, t: Trace, s: Step)
    requires s.op.EnqueueOp? && s.op.idem != ""
    ensures var latest := Latest(c, t, s.op.idem);
            var (created, id) := EnqueueReply(Run(c, t), s);
            && (created <==> latest.None? || s.at >= latest.value.at + 1000 * c.window)
            && (!created ==> id == latest.value.id && Apply(c, Run(c, t), s) == Run(c, t))
            && (created ==> id == s.op.id && Latest(c, t + [s], s.op.idem) == Some(Creation(id, s.at)))
  {
    MarkerIsLatest(c, t, s.op.idem);
    assert (t + [s])[..|t|] == t;
  }

  lemma LatestStep(c: Config, p: Trace, s: Step, key: string)
    requires Legal(c, p + [s])
    ensures Legal(c, p) && (p != [] ==> p[|p|-1].at <= s.at)
    ensures Latest(c, p + [s], key)
            == if Creates(Run(c, p), s, key) then Some(Creation(s.op.id, s.at)) else Latest(c, p, key)
  {
    Extend(c, p, s);
    assert (p + [s])[..|p|] == p;
  }

  lemma {:induction false} LatestIsLast(c: Config, t: Trace, i: nat, key: string)
    requires Legal(c, t) && i < |t| && Creates(Run(c, t[..i]), t[i], key)
    ensures Latest(c, t, key).Some? && t[i].at <= Latest(c, t, key).value.at <= t[|t|-1].at
    decreases |t|
  {
    hide Run, Legal, Latest;
    var p, s := t[..|t|-1], t[|t|-1];
    LegalLast(c, t);
    assert t == p + [s];
    LatestStep(c, p, s, key);
    if i < |p| {
      assert p[..i] == t[..i] && p[i] == t[i];
      LatestIsLast(c, p, i, key);
    } else {
      assert t[..i] == p;
    }
  }

  /** Two creations with the same nonempty key are at least one window apart. */
  lemma CreationsApart(c: Config, t: Trace, i: nat, j: nat, key: string)
    requires Legal(c, t) && i < j < |t| && key != ""
    requires Creates(Run(c, t[..i]), t[i], key) && Creates(Run(c, t[..j]), t[j], key)
    ensures t[j].at >= t[i].at + 1000 * c.window
  {
    var p := t[..j];
    LegalPrefix(c, t, j);
    assert p[..i] == t[..i];
    LatestIsLast(c, p, i, key);
    EnqueueDecides(c, p, t[j]);
  }

  /** A duplicate inside the window is answered with the first job's ID, in any later state of
      the run in which no newer creation happened, acked or not, from any queue. */
  lemma DuplicateAnswered(c: Config, t: Trace, i: nat, s: Step)
    requires Legal(c, t) && i < |t| && s.op.EnqueueOp? && s.op.idem != ""
    requires Creates(Run(c, t[..i]), t[i], s.op.idem)
    requires t[|t|-1].at <= s.at < t[i].at + 1000 * c.window
    ensures EnqueueReply(Run(c, t), s) == (false, t[i].op.id)
    ensures Apply(c, Run(c, t), s) == Run(c, t)
  {
    OnlyCreation(c, t, i, s.op.idem);
    EnqueueDecides(c, t, s);
  }

  lemma {:induction false} OnlyCreation(c: Config, t: Trace, i: nat, key: string)
    requires Legal(c, t) && i < |t| && key != "" && Creates(Run(c, t[..i]), t[i], key)
    requires t[|t|-1].at < t[i].at + 1000 * c.window
    ensures Latest(c, t, key) == Some(Creation(t[i].op.id, t[i].at))
    decreases |t|
  {
    hide Run, Legal, Latest;
    var p, s := t[..|t|-1], t[|t|-1];
    LegalLast(c, t);
    assert t == p + [s];
    LatestStep(c, p, s, key);
    if i < |p| {
      assert p[..i] == t[..i] && p[i] == t[i];
      OnlyCreation(c, p, i, key);
      if Creates(Run(c, p), s, key) { CreationsApart(c, t, i, |p|, key); }
    } else {
      assert t[..i] == p;
    }
  }
}
