/** The order of a Redis sorted set: by score, ties broken by member, and what
    ZRANGEBYSCORE key -inf now LIMIT 0 limit reads from it. */
module Ranking {

  /** `s` and `t` agree on their first i characters, and `s` then ends or is smaller. */
  predicate DiffersAt(s: string, t: string, i: int) {
    0 <= i <= |s| && i < |t| && s[..i] == t[..i] && (i == |s| || s[i] < t[i])
  }

  /** Strict lexicographic order on members, as Redis compares them. */
  predicate Before(s: string, t: string) {
    exists i | 0 <= i <= |s| :: DiffersAt(s, t, i)
  }

  lemma DiffersChain(s: string, t: string, u: string, i: int, j: int)
    requires DiffersAt(s, t, i) && DiffersAt(t, u, j)
    ensures Before(s, u)
  {
    var k := if i < j then i else j;
    assert forall n | 0 <= n < k :: s[..i][n] == t[..i][n] && t[..j][n] == u[..j][n];
    assert s[..k] == u[..k];
    assert i < j ==> t[..j][i] == u[..j][i];
    assert j < i ==> s[..i][j] == t[..i][j];
    assert DiffersAt(s, u, k);
  }

  lemma BeforeTransitive(s: string, t: string, u: string)
    requires Before(s, t) && Before(t, u)
    ensures Before(s, u)
  {
    var i :| DiffersAt(s, t, i);
    var j :| DiffersAt(t, u, j);
    DiffersChain(s, t, u, i, j);
  }

  lemma BeforeTotal(s: string, t: string)
    requires s != t
    ensures Before(s, t) || Before(t, s)
  {
    var i := 0;
    while i < |s| && i < |t| && s[i] == t[i]
      invariant i <= |s| && i <= |t| && s[..i] == t[..i]
    {
      assert s[..i+1] == s[..i] + [s[i]] && t[..i+1] == t[..i] + [t[i]];
      i := i + 1;
    }
    assert i < |s| || i < |t| by { assert s[..|s|] == s && t[..|t|] == t; }
    assert DiffersAt(s, t, i) || DiffersAt(t, s, i);
  }

  /** `a` comes strictly ahead of `b` in the sorted set `z`. */
  predicate Ahead(z: map<string, int>, a: string, b: string)
    requires a in z && b in z
  {
    z[a] < z[b] || (z[a] == z[b] && Before(a, b))
  }

  lemma AheadTransitive(z: map<string, int>, a: string, b: string, c: string)
    requires a in z && b in z && c in z && Ahead(z, a, b) && Ahead(z, b, c)
    ensures Ahead(z, a, c)
  {
    if Before(a, b) && Before(b, c) { BeforeTransitive(a, b, c); }
  }

  lemma AheadTotal(z: map<string, int>, a: string, b: string)
    requires a in z && b in z && a != b
    ensures Ahead(z, a, b) || Ahead(z, b, a)
  {
    BeforeTotal(a, b);
  }

  ghost predicate IsLeast(z: map<string, int>, m: string) {
    m in z && forall x | x in z && x != m :: Ahead(z, m, x)
  }

  lemma {:induction false} LeastExists(z: map<string, int>)
    requires z != map[]
    ensures exists m :: IsLeast(z, m)
    decreases |z|
  {
    var x :| x in z;
    var rest := z - {x};
    if rest == map[] {
      assert forall y | y in z && y != x :: y in rest;
      assert IsLeast(z, x);
    } else {
      assert rest.Keys == z.Keys - {x};
      assert |rest.Keys| < |z.Keys|;
      LeastExists(rest);
      var m :| IsLeast(rest, m);
      AheadTotal(z, m, x);
      if Ahead(z, m, x) {
        forall y | y in z && y != m ensures Ahead(z, m, y) {
          if y != x { assert Ahead(rest, m, y); }
        }
        assert IsLeast(z, m);
      } else {
        forall y | y in z && y != x ensures Ahead(z, x, y) {
          if y != m { assert Ahead(rest, m, y); AheadTransitive(z, x, m, y); }
        }
        assert IsLeast(z, x);
      }
    }
  }

  function Members(s: seq<string>): set<string> { set x | x in s }

  predicate Distinct(s: seq<string>) { forall i, j | 0 <= i < j < |s| :: s[i] != s[j] }

  predicate Sorted(z: map<string, int>, s: seq<string>) {
    && (forall x | x in s :: x in z)
    && (forall i, j | 0 <= i < j < |s| :: Ahead(z, s[i], s[j]))
  }

  /** `s` lists the members of `z` in order. */
  predicate IsRanking(z: map<string, int>, s: seq<string>) {
    Sorted(z, s) && forall x | x in z :: x in s
  }

  lemma RankingCons(z: map<string, int>, m: string, s: seq<string>)
    requires IsLeast(z, m) && IsRanking(z - {m}, s)
    ensures IsRanking(z, [m] + s)
  {
    var t := [m] + s;
    forall i, j | 0 <= i < j < |t| ensures t[i] in z && t[j] in z && Ahead(z, t[i], t[j]) {
      assert s[j-1] in z - {m};
      if i > 0 { assert Ahead(z - {m}, s[i-1], s[j-1]); }
    }
    forall x | x in z ensures x in t { assert x == m || x in z - {m}; }
    forall x | x in t ensures x in z { assert x == m || x in z - {m}; }
  }

  /** The members left once the first k are removed, in the same order. */
  lemma RankingTail(z: map<string, int>, s: seq<string>, k: nat)
    requires IsRanking(z, s) && k <= |s|
    ensures IsRanking(z - Members(s[..k]), s[k..])
  {
    var rest := z - Members(s[..k]);
    forall j | k <= j < |s| ensures s[j] in rest {
      forall i | 0 <= i < k ensures s[i] != s[j] { assert Ahead(z, s[i], s[j]); }
    }
    forall i, j | 0 <= i < j < |s[k..]| ensures Ahead(rest, s[k..][i], s[k..][j]) {
      assert Ahead(z, s[k+i], s[k+j]);
    }
    forall x | x in rest ensures x in s[k..] {
      assert x !in s[..k] && s == s[..k] + s[k..];
    }
  }

  lemma {:induction false} RankingExists(z: map<string, int>)
    ensures exists s :: IsRanking(z, s)
    decreases |z|
  {
    if z == map[] {
      assert IsRanking(z, []);
    } else {
      LeastExists(z);
      var m :| IsLeast(z, m);
      assert (z - {m}).Keys == z.Keys - {m};
      assert |(z - {m}).Keys| < |z.Keys|;
      RankingExists(z - {m});
      var s :| IsRanking(z - {m}, s);
      RankingCons(z, m, s);
    }
  }

  lemma {:induction false} DistinctCount(s: seq<string>)
    requires Distinct(s)
    ensures |Members(s)| == |s|
  {
    if s != [] {
      var n := |s| - 1;
      DistinctCount(s[..n]);
      assert s == s[..n] + [s[n]];
      assert Members(s) == Members(s[..n]) + {s[n]};
    }
  }

  lemma RankingDistinct(z: map<string, int>, s: seq<string>)
    requires IsRanking(z, s)
    ensures Distinct(s) && |s| == |z|
  {
    forall i, j | 0 <= i < j < |s| ensures s[i] != s[j] { assert Ahead(z, s[i], s[j]); }
    assert Members(s) == z.Keys;
    DistinctCount(s);
  }

  /** There is one ranking. */
  lemma {:induction false} RankingUnique(z: map<string, int>, s: seq<string>, t: seq<string>)
    requires IsRanking(z, s) && IsRanking(z, t)
    ensures s == t
    decreases |s|
  {
    RankingDistinct(z, s);
    RankingDistinct(z, t);
    if s != [] {
      assert s[0] in t && t[0] in s;
      var i :| 0 <= i < |t| && t[i] == s[0];
      var j :| 0 <= j < |s| && s[j] == t[0];
      assert i > 0 ==> Ahead(z, t[0], s[0]);
      assert j > 0 ==> Ahead(z, s[0], t[0]);
      if i > 0 && j > 0 { AheadTransitive(z, s[0], t[0], s[0]); }
      assert s[0] == t[0];
      RankingTail(z, s, 1);
      RankingTail(z, t, 1);
      assert Members(s[..1]) == Members(t[..1]) == {s[0]};
      RankingUnique(z - {s[0]}, s[1..], t[1..]);
    }
  }

  ghost function Ranked(z: map<string, int>): (s: seq<string>)
    ensures IsRanking(z, s)
  {
    RankingExists(z);
    var s :| IsRanking(z, s);
    s
  }

  // ----- the due prefix ------------------------------------------------------------------

  function DueMap(z: map<string, int>, now: int): map<string, int> {
    map x | x in z && z[x] <= now :: z[x]
  }

  /** How many of `n` entries LIMIT 0 limit returns; a negative limit returns all. */
  function Capped(limit: int, n: nat): nat {
    if limit < 0 || limit > n then n else limit
  }

  ghost function Due(z: map<string, int>, now: int, limit: int): seq<string> {
    var r := Ranked(DueMap(z, now));
    r[..Capped(limit, |r|)]
  }

  /** What one bounded read returns: distinct due members, in order, as many as the limit
      allows, and every due member left out comes after every member returned. */
  lemma DueExact(z: map<string, int>, now: int, limit: int)
    ensures var d := Due(z, now, limit);
            && Distinct(d)
            && |d| == Capped(limit, |DueMap(z, now)|)
            && (forall x | x in d :: x in z && z[x] <= now)
            && Sorted(z, d)
            && (forall x, y | x in d && y in z && z[y] <= now && y !in d :: Ahead(z, x, y))
  {
    var m := DueMap(z, now);
    var r := Ranked(m);
    var d := Due(z, now, limit);
    RankingDistinct(m, r);
    forall x | x in d ensures x in z && z[x] <= now { assert x in m; }
    forall i, j | 0 <= i < j < |d| ensures Ahead(z, d[i], d[j]) { assert Ahead(m, r[i], r[j]); }
    forall x, y | x in d && y in z && z[y] <= now && y !in d ensures Ahead(z, x, y) {
      assert y in m;
      PrefixAhead(m, r, |d|, x, y);
    }
  }

  lemma PrefixAhead(m: map<string, int>, r: seq<string>, n: nat, x: string, y: string)
    requires Sorted(m, r) && n <= |r| && x in r[..n] && y in r && y !in r[..n]
    ensures Ahead(m, x, y)
  {
    var i :| 0 <= i < n && r[..n][i] == x;
    assert y in r[n..] by { assert r == r[..n] + r[n..]; }
    var j :| 0 <= j < |r| - n && r[n..][j] == y;
    assert Ahead(m, r[i], r[n+j]);
  }

  lemma DueMapMinus(z: map<string, int>, now: int, gone: set<string>)
    ensures DueMap(z - gone, now) == DueMap(z, now) - gone
  {
  }

  /** After the first `a` due members are removed, the next read starts where it stopped. */
  lemma DueTail(z: map<string, int>, now: int, r: seq<string>, k: nat, b: nat)
    requires IsRanking(DueMap(z, now), r) && k <= |r|
    ensures Due(z - Members(r[..k]), now, b) == r[k..][..Capped(b, |r| - k)]
  {
    var rest := DueMap(z, now) - Members(r[..k]);
    DueMapMinus(z, now, Members(r[..k]));
    RankingTail(DueMap(z, now), r, k);
    RankingUnique(rest, r[k..], Ranked(rest));
  }

  /** A read of a + b is a read of a followed by a read of b from what is left. */
  lemma DueSplit(z: map<string, int>, now: int, a: nat, b: nat)
    ensures Due(z, now, a + b) == Due(z, now, a) + Due(z - Members(Due(z, now, a)), now, b)
  {
    var r := Ranked(DueMap(z, now));
    DueTail(z, now, r, Capped(a, |r|), b);
    SplitPrefix(r, a, b);
  }

  lemma SplitPrefix(r: seq<string>, a: nat, b: nat)
    ensures var k := Capped(a, |r|);
            r[..Capped(a + b, |r|)] == r[..k] + r[k..][..Capped(b, |r| - k)]
  {
  }

  lemma NextLeast(m: map<string, int>, r: seq<string>, k: nat, least: string)
    requires IsRanking(m, r) && k < |r| && IsLeast(m - Members(r[..k]), least)
    ensures least == r[k]
    ensures m - Members(r[..k+1]) == (m - Members(r[..k])) - {least}
  {
    var rest := m - Members(r[..k]);
    RankingTail(m, r, k);
    var j :| 0 <= j < |r[k..]| && r[k..][j] == least;
    if j > 0 {
      assert Ahead(rest, r[k..][0], least);
      assert Ahead(rest, least, r[k..][0]);
      AheadTransitive(rest, least, r[k..][0], least);
    }
    assert r[..k+1] == r[..k] + [r[k]];
    assert Members(r[..k+1]) == Members(r[..k]) + {r[k]};
  }

  lemma MoreLeft(m: map<string, int>, r: seq<string>, k: nat)
    requires IsRanking(m, r) && k < |m|
    ensures k < |r| == |m| && m - Members(r[..k]) != map[]
  {
    RankingDistinct(m, r);
    RankingTail(m, r, k);
    assert r[k..][0] in m - Members(r[..k]);
  }

  method FindLeast(z: map<string, int>) returns (m: string)
    requires z != map[]
    ensures IsLeast(z, m)
  {
    LeastExists(z);
    m :| m in z.Keys && forall x | x in z.Keys && x != m :: Ahead(z, m, x);
  }

  /** ZRANGEBYSCORE: repeatedly takes the least entry left among the due ones. */
  method RangeByScore(z: map<string, int>, now: int, limit: int) returns (due: seq<string>)
    ensures due == Due(z, now, limit)
  {
    var m := DueMap(z, now);
    ghost var r := Ranked(m);
    RankingDistinct(m, r);
    var n := Capped(limit, |m|);
    var rest := m;
    due := [];
    while |due| < n
      invariant |due| <= n
      invariant due == r[..|due|]
      invariant rest == m - Members(r[..|due|])
    {
      MoreLeft(m, r, |due|);
      var least := FindLeast(rest);
      NextLeast(m, r, |due|, least);
      rest := rest - {least};
      due := due + [least];
    }
  }
}
