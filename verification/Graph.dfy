/** Walks and routes in a directed graph given by its finite edge set.

    A route is written the way the router stores it: the start is left out, so `r` lists
    the nodes after the start. */
module Graph {
  import opened Orders

  function Prev<N>(s: N, r: seq<N>, i: nat): N
    requires i < |r|
  {
    if i == 0 then s else r[i - 1]
  }

  function End<N>(s: N, r: seq<N>): N {
    if r == [] then s else r[|r| - 1]
  }

  ghost predicate IsWalk<N>(g: set<(N, N)>, s: N, r: seq<N>) {
    forall i :: 0 <= i < |r| ==> (Prev(s, r, i), r[i]) in g
  }

  /** A walk that visits no node twice: a simple path. */
  ghost predicate IsRoute<N>(g: set<(N, N)>, s: N, r: seq<N>) {
    IsWalk(g, s, r) && s !in r && Distinct(r)
  }

  /** A nonempty route from `s` to `d` with at most `k` edges. */
  ghost predicate RouteTo<N>(g: set<(N, N)>, s: N, d: N, r: seq<N>, k: nat) {
    IsRoute(g, s, r) && 1 <= |r| <= k && End(s, r) == d
  }

  ghost predicate Symmetric<N>(g: set<(N, N)>) {
    forall e :: e in g ==> (e.1, e.0) in g
  }

  // ---- loop erasure ----

  lemma WalkSplice<N>(g: set<(N, N)>, s: N, r: seq<N>, i: nat, j: nat)
    requires IsWalk(g, s, r) && i < j < |r| && r[i] == r[j]
    ensures IsWalk(g, s, r[..i + 1] + r[j + 1..])
    ensures End(s, r[..i + 1] + r[j + 1..]) == End(s, r)
  {
    var t := r[..i + 1] + r[j + 1..];
    forall k | 0 <= k < |t| ensures (Prev(s, t, k), t[k]) in g {
      if k <= i {
        assert (Prev(s, r, k), r[k]) in g;
      } else {
        var m := k - i + j;
        assert t[k] == r[m];
        assert (Prev(s, r, m), r[m]) in g;
      }
    }
  }

  lemma WalkDrop<N>(g: set<(N, N)>, s: N, r: seq<N>, i: nat)
    requires IsWalk(g, s, r) && i < |r| && r[i] == s
    ensures IsWalk(g, s, r[i + 1..]) && End(s, r[i + 1..]) == End(s, r)
  {
    var t := r[i + 1..];
    forall k | 0 <= k < |t| ensures (Prev(s, t, k), t[k]) in g {
      assert (Prev(s, r, k + i + 1), r[k + i + 1]) in g;
    }
  }

  /** Cutting the loops out of a walk leaves a route between the same ends, no longer
      than the walk. */
  lemma {:induction false} LoopErasure<N(!new)>(g: set<(N, N)>, s: N, r: seq<N>) returns (t: seq<N>)
    requires IsWalk(g, s, r)
    ensures IsRoute(g, s, t) && End(s, t) == End(s, r) && |t| <= |r|
    decreases |r|
  {
    if s in r {
      var i :| 0 <= i < |r| && r[i] == s;
      WalkDrop(g, s, r, i);
      t := LoopErasure(g, s, r[i + 1..]);
    } else if Distinct(r) {
      t := r;
    } else {
      var i, j :| 0 <= i < j < |r| && r[i] == r[j];
      WalkSplice(g, s, r, i, j);
      t := LoopErasure(g, s, r[..i + 1] + r[j + 1..]);
    }
  }

  // ---- distance balls ----

  /** The nodes at graph distance at most `k` from `s`, computed level by level. */
  ghost function Ball<N>(g: set<(N, N)>, s: N, k: nat): set<N> {
    if k == 0 then {s}
    else Ball(g, s, k - 1) + set e | e in g && e.0 in Ball(g, s, k - 1) :: e.1
  }

  lemma {:induction false} BallToWalk<N(!new)>(g: set<(N, N)>, s: N, k: nat, d: N) returns (r: seq<N>)
    requires d in Ball(g, s, k)
    ensures IsWalk(g, s, r) && End(s, r) == d && |r| <= k
    decreases k
  {
    if k == 0 {
      r := [];
    } else if d in Ball(g, s, k - 1) {
      r := BallToWalk(g, s, k - 1, d);
    } else {
      var e :| e in g && e.0 in Ball(g, s, k - 1) && e.1 == d;
      var q := BallToWalk(g, s, k - 1, e.0);
      r := q + [d];
      forall i | 0 <= i < |r| ensures (Prev(s, r, i), r[i]) in g {
        if i < |q| { assert (Prev(s, q, i), q[i]) in g; } else { assert (Prev(s, r, i), r[i]) == e; }
      }
    }
  }

  lemma {:induction false} WalkToBall<N>(g: set<(N, N)>, s: N, r: seq<N>, k: nat)
    requires IsWalk(g, s, r) && |r| <= k
    ensures End(s, r) in Ball(g, s, k)
    decreases k
  {
    if k > 0 {
      if |r| == k {
        var q := r[..k - 1];
        assert IsWalk(g, s, q) by {
          forall i | 0 <= i < |q| ensures (Prev(s, q, i), q[i]) in g { assert (Prev(s, r, i), r[i]) in g; }
        }
        WalkToBall(g, s, q, k - 1);
        var e := (Prev(s, r, k - 1), r[k - 1]);
        assert e in g && e.0 == End(s, q);
      } else {
        WalkToBall(g, s, r, k - 1);
      }
    }
  }

  /** Bounded simple paths reach exactly the distance ball: this is why listing routes
      answers distance queries. */
  lemma {:induction false} RoutesReachBall<N(!new)>(g: set<(N, N)>, s: N, d: N, k: nat)
    ensures d in Ball(g, s, k) && d != s <==> exists r :: RouteTo(g, s, d, r, k)
  {
    if d in Ball(g, s, k) && d != s {
      var w := BallToWalk(g, s, k, d);
      var r := LoopErasure(g, s, w);
      assert RouteTo(g, s, d, r, k);
    }
    if r :| RouteTo(g, s, d, r, k) {
      WalkToBall(g, s, r, k);
    }
  }

  // ---- reversal ----

  /** The same path walked backwards from the other end. */
  function Backwards<N>(s: N, r: seq<N>): (t: seq<N>)
    ensures |t| == |r|
    ensures forall i :: 0 <= i < |r| ==> t[i] == Prev(s, r, |r| - 1 - i)
  {
    seq(|r|, i requires 0 <= i < |r| => Prev(s, r, |r| - 1 - i))
  }

  lemma BackwardsInvolution<N>(s: N, r: seq<N>)
    requires r != []
    ensures Backwards(End(s, r), Backwards(s, r)) == r
    ensures End(End(s, r), Backwards(s, r)) == s
  {
    var t := Backwards(s, r);
    var u := Backwards(End(s, r), t);
    forall i | 0 <= i < |r| ensures u[i] == r[i] {
      assert u[i] == Prev(End(s, r), t, |r| - 1 - i);
    }
  }

  lemma BackwardsStep<N>(g: set<(N, N)>, s: N, r: seq<N>, i: nat)
    requires Symmetric(g) && IsWalk(g, s, r) && i < |r|
    ensures (Prev(End(s, r), Backwards(s, r), i), Backwards(s, r)[i]) in g
  {
    var m := |r| - 1 - i;
    var e := (Prev(s, r, m), r[m]);
    assert e in g && (e.1, e.0) in g;
  }

  lemma BackwardsDistinct<N>(s: N, r: seq<N>)
    requires s !in r && Distinct(r) && r != []
    ensures Distinct(Backwards(s, r)) && End(s, r) !in Backwards(s, r)
  {
    var t := Backwards(s, r);
    forall i | 0 <= i < |t| ensures t[i] != End(s, r) {
      assert t[i] == Prev(s, r, |r| - 1 - i);
    }
    forall i, j | 0 <= i < j < |t| ensures t[i] != t[j] {
      assert t[i] == r[|r| - 2 - i];
      assert t[j] == Prev(s, r, |r| - 1 - j);
    }
  }

  /** In a symmetric graph the routes from `d` to `s` are the reversals of the routes
      from `s` to `d`. */
  lemma BackwardsIsRoute<N>(g: set<(N, N)>, s: N, d: N, r: seq<N>, k: nat)
    requires Symmetric(g) && RouteTo(g, s, d, r, k)
    ensures RouteTo(g, d, s, Backwards(s, r), k)
  {
    BackwardsInvolution(s, r);
    BackwardsDistinct(s, r);
    forall i | 0 <= i < |r| ensures (Prev(d, Backwards(s, r), i), Backwards(s, r)[i]) in g {
      BackwardsStep(g, s, r, i);
    }
  }

  // ---- renaming ----

  function Rename<M, N>(f: map<M, N>, r: seq<M>): (t: seq<N>)
    requires forall x :: x in r ==> x in f
    ensures |t| == |r| && forall i :: 0 <= i < |r| ==> t[i] == f[r[i]]
  {
    seq(|r|, i requires 0 <= i < |r| => f[r[i]])
  }

  ghost predicate Renames<M, N>(g: set<(M, M)>, h: set<(N, N)>, f: map<M, N>) {
    && (forall x, y :: x in f && y in f && f[x] == f[y] ==> x == y)
    && (forall x, y :: x in f && y in f ==> ((x, y) in g <==> (f[x], f[y]) in h))
  }

  lemma RenameWalk<M, N>(g: set<(M, M)>, h: set<(N, N)>, f: map<M, N>, s: M, r: seq<M>)
    requires s in f && (forall x :: x in r ==> x in f) && Renames(g, h, f)
    ensures IsWalk(g, s, r) <==> IsWalk(h, f[s], Rename(f, r))
  {
    var t := Rename(f, r);
    forall i | 0 <= i < |r|
      ensures (Prev(s, r, i), r[i]) in g <==> (Prev(f[s], t, i), t[i]) in h
    {
      assert Prev(s, r, i) in f && r[i] in f;
      assert Prev(f[s], t, i) == f[Prev(s, r, i)];
    }
  }

  lemma RenameDistinct<M, N>(f: map<M, N>, s: M, r: seq<M>)
    requires s in f && (forall x :: x in r ==> x in f)
    requires forall x, y :: x in f && y in f && f[x] == f[y] ==> x == y
    ensures s !in r && Distinct(r) <==> f[s] !in Rename(f, r) && Distinct(Rename(f, r))
  {
    var t := Rename(f, r);
    if s in r { var i :| 0 <= i < |r| && r[i] == s; assert t[i] == f[s]; }
    if f[s] in t { var i :| 0 <= i < |t| && t[i] == f[s]; assert r[i] == s; }
    if !Distinct(r) { var i, j :| 0 <= i < j < |r| && r[i] == r[j]; assert t[i] == t[j]; }
    if !Distinct(t) { var i, j :| 0 <= i < j < |t| && t[i] == t[j]; assert r[i] in f && r[j] in f; }
  }

  /** An injective renaming of nodes keeps routes, in both directions. */
  lemma RenameRoute<M, N>(g: set<(M, M)>, h: set<(N, N)>, f: map<M, N>, s: M, d: M, r: seq<M>, k: nat)
    requires s in f && d in f && (forall x :: x in r ==> x in f) && Renames(g, h, f)
    ensures RouteTo(g, s, d, r, k) <==> RouteTo(h, f[s], f[d], Rename(f, r), k)
  {
    RenameWalk(g, h, f, s, r);
    RenameDistinct(f, s, r);
  }
}
