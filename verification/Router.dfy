/** Queries over the route cache, and its refresh (pkg/dex/router/router.go). */
module Router {
  import opened Options
  import opened Orders
  import opened Graph
  import opened RouteTable
  import opened Routing

  // ---- what the finished cache promises ----

  lemma ListedIffRoute(routes: Routes, rows: Rows, k: nat, s: nat, d: nat, r: seq<nat>)
    requires RoutesFor(routes, rows, k) && s in rows
    ensures r in ListOf(routes, s, d) <==> RouteTo(IndexEdges(rows), s, d, r, k)
  {
    assert Count(routes, s, d, r) == if RouteTo(IndexEdges(rows), s, d, r, k) then 1 else 0;
  }

  /** The routes back are the routes there, reversed. */
  lemma RoutesMirror(routes: Routes, rows: Rows, k: nat, s: nat, d: nat, r: seq<nat>)
    requires RoutesFor(routes, rows, k) && Symmetric(IndexEdges(rows)) && s in rows
    ensures r in ListOf(routes, s, d) ==>
              d in rows && Backwards(s, r) in ListOf(routes, d, s) && Backwards(d, Backwards(s, r)) == r
  {
    ListedIffRoute(routes, rows, k, s, d, r);
    if r in ListOf(routes, s, d) {
      var g := IndexEdges(rows);
      var e := (Prev(s, r, |r| - 1), r[|r| - 1]);
      assert e in g && (e.1, e.0) in g;
      BackwardsIsRoute(g, s, d, r, k);
      BackwardsInvolution(s, r);
      ListedIffRoute(routes, rows, k, d, s, Backwards(s, r));
    }
  }

  /** Two runs of the search agree, whatever order they iterated over the maps in. */
  lemma CacheIsDetermined(a: Routes, b: Routes, rows: Rows, k: nat)
    requires RoutesFor(a, rows, k) && RoutesFor(b, rows, k)
    ensures a == b
  {
    forall s | s in rows ensures a[s] == b[s] {
      forall d: nat ensures ListOf(a, s, d) == ListOf(b, s, d) {
        forall r: seq<nat> ensures r in ListOf(a, s, d) <==> r in ListOf(b, s, d) {
          ListedIffRoute(a, rows, k, s, d, r);
          ListedIffRoute(b, rows, k, s, d, r);
        }
        SameMembersSameList(ListOf(a, s, d), ListOf(b, s, d));
      }
      forall d: nat ensures d in a[s] <==> d in b[s] {
        assert ListOf(a, s, d) == ListOf(b, s, d);
      }
      forall d: nat | d in a[s] ensures a[s][d] == b[s][d] {
        assert ListOf(a, s, d) == ListOf(b, s, d);
      }
    }
  }

  lemma SameMembersSameList(a: seq<seq<nat>>, b: seq<seq<nat>>)
    requires ShortlexSorted(a) && ShortlexSorted(b)
    requires forall r: seq<nat> :: r in a <==> r in b
    ensures a == b
  {
    var s: seq<seq<int>>, t: seq<seq<int>> := a, b;
    forall x: seq<int> ensures x in s <==> x in t {
      if x in s { var i :| 0 <= i < |a| && a[i] == x; assert a[i] in b; }
      if x in t { var i :| 0 <= i < |b| && b[i] == x; assert b[i] in a; }
    }
    ShortlexSortedUnique(s, t);
  }

  // ---- from indices to tokens ----

  lemma {:induction false} EdgeTokens(pairs: seq<Pair>)
    requires WellFormed(pairs)
    ensures forall e :: e in TokenEdges(pairs) ==> e.0 in TokenOrder(pairs) && e.1 in TokenOrder(pairs)
    ensures Symmetric(TokenEdges(pairs))
  {
    TokenOrderFacts(pairs);
  }

  lemma {:induction false} IndexRenames(rows: Rows, pairs: seq<Pair>, toAsset: map<nat, string>,
                                        toIndex: map<string, nat>)
    requires WellFormed(pairs) && IndexFor(toAsset, toIndex, TokenOrder(pairs))
    requires PairMapFor(rows, TokenOrder(pairs), pairs)
    ensures Renames(IndexEdges(rows), TokenEdges(pairs), toAsset)
    ensures Renames(TokenEdges(pairs), IndexEdges(rows), toIndex)
  {
    var order := TokenOrder(pairs);
    TokenOrderFacts(pairs);
    forall i: nat, j: nat | i < |order| && j < |order|
      ensures (i, j) in IndexEdges(rows) <==> (order[i], order[j]) in TokenEdges(pairs)
    {
      assert HasPair(rows, i, j) <==> LastContract(pairs, order[i], order[j]).Some?;
    }
    forall a, b | a in toIndex && b in toIndex
      ensures order[toIndex[a]] == a
      ensures (a, b) in TokenEdges(pairs) <==> (toIndex[a], toIndex[b]) in IndexEdges(rows)
    {
      var i :| 0 <= i < |order| && order[i] == a;
      var j :| 0 <= j < |order| && order[j] == b;
      assert toIndex[order[i]] == i && toIndex[order[j]] == j;
    }
  }

  lemma {:induction false} WalkTokens(pairs: seq<Pair>, s: string, r: seq<string>)
    requires WellFormed(pairs) && IsWalk(TokenEdges(pairs), s, r)
    ensures forall t :: t in r ==> t in TokenOrder(pairs)
    ensures r != [] ==> s in TokenOrder(pairs)
  {
    EdgeTokens(pairs);
    forall t | t in r ensures t in TokenOrder(pairs) {
      var i :| 0 <= i < |r| && r[i] == t;
      assert (Prev(s, r, i), r[i]) in TokenEdges(pairs);
    }
    if r != [] { assert (Prev(s, r, 0), r[0]) in TokenEdges(pairs); }
  }

  function Cap(maxHops: nat): nat {
    if maxHops > MAX_ROUTE_HOP_COUNT then MAX_ROUTE_HOP_COUNT else maxHops
  }

  /** The edge budget of a query for `hopCount` hops. */
  function Budget(hopCount: int, maxHops: nat): nat {
    if hopCount + 1 <= 0 then 0 else if hopCount < Cap(maxHops) then hopCount + 1 else Cap(maxHops) + 1
  }

  function Position(order: seq<string>, t: string): nat {
    if order == [] || order[0] == t then 0 else 1 + Position(order[1..], t)
  }

  /** The numbers of a route's tokens: their places in order of first mention. */
  function Numbers(pairs: seq<Pair>, r: seq<string>): (t: seq<nat>)
    ensures |t| == |r| && forall i :: 0 <= i < |r| ==> t[i] == Position(TokenOrder(pairs), r[i])
  {
    seq(|r|, i requires 0 <= i < |r| => Position(TokenOrder(pairs), r[i]))
  }

  lemma {:induction false} PositionAt(order: seq<string>, i: nat)
    requires Distinct(order) && i < |order|
    ensures Position(order, order[i]) == i
  {
    if i > 0 {
      assert order[0] != order[i];
      PositionAt(order[1..], i - 1);
    }
  }

  lemma {:induction false} PairedIff(rows: Rows, pairs: seq<Pair>, toAsset: map<nat, string>,
                                     toIndex: map<string, nat>, from: string)
    requires WellFormed(pairs) && IndexFor(toAsset, toIndex, TokenOrder(pairs))
    requires PairMapFor(rows, TokenOrder(pairs), pairs)
    ensures (exists t :: (from, t) in TokenEdges(pairs)) <==> from in toIndex && toIndex[from] in rows
  {
    IndexRenames(rows, pairs, toAsset, toIndex);
    EdgeTokens(pairs);
    if t :| (from, t) in TokenEdges(pairs) {
      var e := (from, t);
      assert e.0 in TokenOrder(pairs) && e.1 in TokenOrder(pairs);
      assert (toIndex[from], toIndex[t]) in IndexEdges(rows);
    }
    if from in toIndex && toIndex[from] in rows {
      var j :| j in rows[toIndex[from]];
      assert HasPair(rows, toIndex[from], j);
      assert (toIndex[from], j) in IndexEdges(rows);
      assert toAsset[toIndex[from]] == from by { IndexInverse(toAsset, toIndex, TokenOrder(pairs), from); }
      assert (from, toAsset[j]) in TokenEdges(pairs);
    }
  }

  lemma IndexInverse(toAsset: map<nat, string>, toIndex: map<string, nat>, order: seq<string>, t: string)
    requires IndexFor(toAsset, toIndex, order) && t in toIndex
    ensures toIndex[t] < |order| && order[toIndex[t]] == t && toAsset[toIndex[t]] == t
  {
    var i :| 0 <= i < |order| && order[i] == t;
    assert toIndex[order[i]] == i;
  }

  /** An index route stays inside the numbered tokens. */
  lemma IndexRouteKnown(rows: Rows, order: seq<string>, pairs: seq<Pair>, toAsset: map<nat, string>,
                        toIndex: map<string, nat>, s: nat, d: nat, r: seq<nat>, k: nat)
    requires WellFormed(pairs) && PairMapFor(rows, order, pairs) && IndexFor(toAsset, toIndex, order)
    requires RouteTo(IndexEdges(rows), s, d, r, k)
    ensures s in toAsset && d in toAsset && forall x :: x in r ==> x in toAsset
  {
    forall x | x in r ensures x in toAsset {
      var i :| 0 <= i < |r| && r[i] == x;
      assert (Prev(s, r, i), r[i]) in IndexEdges(rows);
      assert HasPair(rows, Prev(s, r, i), r[i]);
    }
    assert (Prev(s, r, 0), r[0]) in IndexEdges(rows);
    assert HasPair(rows, s, r[0]);
    assert r[|r| - 1] in r;
  }

  lemma {:induction false} TokenRouteToIndex(rows: Rows, pairs: seq<Pair>, toAsset: map<nat, string>,
                                             toIndex: map<string, nat>, from: string, to: string, r: seq<string>,
                                             k: nat)
    requires WellFormed(pairs) && IndexFor(toAsset, toIndex, TokenOrder(pairs))
    requires PairMapFor(rows, TokenOrder(pairs), pairs)
    requires RouteTo(TokenEdges(pairs), from, to, r, k)
    ensures from in toIndex && to in toIndex && (forall t :: t in r ==> t in toIndex)
    ensures RouteTo(IndexEdges(rows), toIndex[from], toIndex[to], Rename(toIndex, r), k)
    ensures Names(toAsset, Rename(toIndex, r)) == r && toIndex[from] in rows
  {
    IndexRenames(rows, pairs, toAsset, toIndex);
    WalkTokens(pairs, from, r);
    assert r[|r| - 1] in r;
    RenameRoute(TokenEdges(pairs), IndexEdges(rows), toIndex, from, to, r, k);
    NumbersNames(pairs, toAsset, toIndex, r);
    assert (Prev(from, r, 0), r[0]) in TokenEdges(pairs);
    PairedIff(rows, pairs, toAsset, toIndex, from);
  }

  lemma {:induction false} NumbersNames(pairs: seq<Pair>, toAsset: map<nat, string>, toIndex: map<string, nat>,
                                        r: seq<string>)
    requires IndexFor(toAsset, toIndex, TokenOrder(pairs)) && forall t :: t in r ==> t in toIndex
    ensures Names(toAsset, Rename(toIndex, r)) == r
  {
    forall i | 0 <= i < |r| ensures NameOf(toAsset, toIndex[r[i]]) == r[i] {
      assert r[i] in r;
      IndexInverse(toAsset, toIndex, TokenOrder(pairs), r[i]);
    }
  }

  lemma {:induction false} IndexRouteToToken(rows: Rows, pairs: seq<Pair>, toAsset: map<nat, string>,
                                             toIndex: map<string, nat>, s: nat, d: nat, r: seq<nat>, k: nat)
    requires WellFormed(pairs) && IndexFor(toAsset, toIndex, TokenOrder(pairs))
    requires PairMapFor(rows, TokenOrder(pairs), pairs)
    requires RouteTo(IndexEdges(rows), s, d, r, k)
    ensures RouteTo(TokenEdges(pairs), NameOf(toAsset, s), NameOf(toAsset, d), Names(toAsset, r), k)
    ensures Numbers(pairs, Names(toAsset, r)) == r
  {
    var order := TokenOrder(pairs);
    IndexRouteKnown(rows, order, pairs, toAsset, toIndex, s, d, r, k);
    assert Names(toAsset, r) == Rename(toAsset, r);
    assert RouteTo(TokenEdges(pairs), toAsset[s], toAsset[d], Rename(toAsset, r), k) by {
      IndexRenames(rows, pairs, toAsset, toIndex);
      RenameRoute(IndexEdges(rows), TokenEdges(pairs), toAsset, s, d, r, k);
    }
    NamesNumbers(pairs, toAsset, toIndex, r);
  }

  lemma {:induction false} NamesNumbers(pairs: seq<Pair>, toAsset: map<nat, string>, toIndex: map<string, nat>,
                                        r: seq<nat>)
    requires IndexFor(toAsset, toIndex, TokenOrder(pairs)) && forall x :: x in r ==> x in toAsset
    ensures Numbers(pairs, Names(toAsset, r)) == r
  {
    TokenOrderFacts(pairs);
    forall i | 0 <= i < |r| ensures Position(TokenOrder(pairs), NameOf(toAsset, r[i])) == r[i] {
      assert r[i] in r;
      PositionAt(TokenOrder(pairs), r[i]);
    }
  }

  lemma {:induction false} RouteByNames(routes: Routes, rows: Rows, pairs: seq<Pair>, toAsset: map<nat, string>,
                     toIndex: map<string, nat>, from: string, to: string, k: nat, r: seq<string>)
    requires WellFormed(pairs) && IndexFor(toAsset, toIndex, TokenOrder(pairs))
    requires PairMapFor(rows, TokenOrder(pairs), pairs) && RoutesFor(routes, rows, k)
    ensures RouteTo(TokenEdges(pairs), from, to, r, k) <==>
            (from in toIndex && to in toIndex && toIndex[from] in rows &&
             exists q: seq<nat> :: q in ListOf(routes, toIndex[from], toIndex[to]) && Names(toAsset, q) == r)
  {
    var order := TokenOrder(pairs);
    if RouteTo(TokenEdges(pairs), from, to, r, k) {
      TokenRouteToIndex(rows, pairs, toAsset, toIndex, from, to, r, k);
      ListedIffRoute(routes, rows, k, toIndex[from], toIndex[to], Rename(toIndex, r));
    }
    if from in toIndex && to in toIndex && toIndex[from] in rows {
      forall q: seq<nat> | q in ListOf(routes, toIndex[from], toIndex[to])
        ensures RouteTo(TokenEdges(pairs), from, to, Names(toAsset, q), k)
      {
        ListedIffRoute(routes, rows, k, toIndex[from], toIndex[to], q);
        IndexInverse(toAsset, toIndex, order, from);
        IndexInverse(toAsset, toIndex, order, to);
        IndexRouteToToken(rows, pairs, toAsset, toIndex, toIndex[from], toIndex[to], q, k);
      }
    }
  }

  ghost predicate NamesOf(toAsset: map<nat, string>, list: seq<seq<nat>>, arr: seq<seq<string>>) {
    |arr| == |list| && forall m :: 0 <= m < |arr| ==> arr[m] == Names(toAsset, list[m])
  }

  method NameRoutes(toAsset: map<nat, string>, routesIndexes: seq<seq<nat>>) returns (routesArr: seq<seq<string>>)
    ensures NamesOf(toAsset, routesIndexes, routesArr)
  {
    routesArr := [];
    for i := 0 to |routesIndexes|
      invariant |routesArr| == i
      invariant forall m :: 0 <= m < i ==> routesArr[m] == Names(toAsset, routesIndexes[m])
    {
      var hopAddresses := [];
      for m := 0 to |routesIndexes[i]|
        invariant hopAddresses == Names(toAsset, routesIndexes[i])[..m]
      {
        hopAddresses := hopAddresses + [NameOf(toAsset, routesIndexes[i][m])];
      }
      routesArr := routesArr + [hopAddresses];
    }
  }

  lemma {:induction false} ListedNumbers(routes: Routes, rows: Rows, pairs: seq<Pair>, toAsset: map<nat, string>,
                      toIndex: map<string, nat>, s: nat, d: nat, k: nat, q: seq<nat>)
    requires WellFormed(pairs) && IndexFor(toAsset, toIndex, TokenOrder(pairs))
    requires PairMapFor(rows, TokenOrder(pairs), pairs) && RoutesFor(routes, rows, k)
    requires s in rows && q in ListOf(routes, s, d)
    ensures Numbers(pairs, Names(toAsset, q)) == q
  {
    ListedIffRoute(routes, rows, k, s, d, q);
    IndexRouteToToken(rows, pairs, toAsset, toIndex, s, d, q, k);
  }

  // ---- tokens within a hop count ----

  ghost predicate Near(lists: map<nat, seq<seq<nat>>>, d: nat, hopCount: int) {
    d in lists && exists i :: 0 <= i < |lists[d]| && |lists[d][i]| <= hopCount + 1
  }

  ghost function NearNames(lists: map<nat, seq<seq<nat>>>, via: set<nat>, hopCount: int,
                           toAsset: map<nat, string>): set<string> {
    set d | d in via && Near(lists, d, hopCount) :: NameOf(toAsset, d)
  }

  method NearTokens(destMap: map<nat, seq<seq<nat>>>, hopCount: int, toAsset: map<nat, string>)
    returns (tokens: set<string>)
    ensures tokens == NearNames(destMap, destMap.Keys, hopCount, toAsset)
  {
    tokens := {};
    var rest := destMap.Keys;
    while rest != {}
      invariant rest <= destMap.Keys
      invariant tokens == NearNames(destMap, destMap.Keys - rest, hopCount, toAsset)
      decreases rest
    {
      var k :| k in rest;
      ghost var was, done := tokens, destMap.Keys - rest;
      rest := rest - {k};
      var list := destMap[k];
      for i := 0 to |list|
        invariant tokens == was +
            if exists m :: 0 <= m < i && |list[m]| <= hopCount + 1 then {NameOf(toAsset, k)} else {}
      {
        if |list[i]| > hopCount + 1 {
          continue;
        }
        tokens := tokens + {NameOf(toAsset, k)};
      }
      assert destMap.Keys - rest == done + {k};
    }
    assert destMap.Keys - rest == destMap.Keys;
  }

  /** The first string has the smaller character at the first difference, or is a proper prefix. */
  ghost predicate FirstDiffers(a: string, b: string) {
    exists m :: 0 <= m <= |a| && m < |b| && a[..m] == b[..m] && (m == |a| || a[m] < b[m])
  }

  /** `sort.Strings`: by the first difference of two strings. */
  method SortStrings(list: seq<string>) returns (sorted: seq<string>)
    requires Distinct(list)
    ensures forall t :: t in sorted <==> t in list
    ensures forall i, j :: 0 <= i < j < |sorted| ==>
              FirstDiffers(sorted[i], sorted[j])
  {
    StringIsOrder();
    SortBySorted(list, StringLess);
    sorted := SortBy(list, StringLess);
    assert forall t :: t in sorted <==> t in multiset(sorted);
    StringsDiffer(sorted);
  }

  lemma {:induction false} StringsDiffer(sorted: seq<string>)
    requires StrictlySorted(sorted, StringLess)
    ensures forall i, j :: 0 <= i < j < |sorted| ==>
              FirstDiffers(sorted[i], sorted[j])
  {
    forall i, j | 0 <= i < j < |sorted|
      ensures FirstDiffers(sorted[i], sorted[j])
    {
      StringFirstDifference(sorted[i], sorted[j]);
    }
  }

  /** The ball without its centre, in terms of routes. */
  lemma {:induction false} BallIsRoutes(pairs: seq<Pair>, from: string, hopCount: int, maxHops: nat, t: string)
    requires WellFormed(pairs)
    ensures t in Ball(TokenEdges(pairs), from, Budget(hopCount, maxHops)) && t != from <==>
            exists r: seq<string> :: TokenRoute(pairs, maxHops, from, t, r) && |r| <= hopCount + 1
  {
    var g, k := TokenEdges(pairs), Budget(hopCount, maxHops);
    RoutesReachBall(g, from, t, k);
    if r: seq<string> :| RouteTo(g, from, t, r, k) {
      assert TokenRoute(pairs, maxHops, from, t, r) && |r| <= hopCount + 1;
    }
    if r: seq<string> :| TokenRoute(pairs, maxHops, from, t, r) && |r| <= hopCount + 1 {
      assert RouteTo(g, from, t, r, k);
    }
  }

  method Members(tokens: set<string>) returns (list: seq<string>)
    ensures Distinct(list) && forall t :: t in list <==> t in tokens
  {
    list := [];
    var rest := tokens;
    while rest != {}
      invariant rest <= tokens && Distinct(list) && forall t :: t in list <==> t in tokens && t !in rest
      decreases rest
    {
      var t :| t in rest;
      rest := rest - {t};
      list := list + [t];
    }
  }

  /** The tokens named by short enough listed routes are the distance ball without its centre. */
  lemma {:induction false} NearIffBall(routes: Routes, rows: Rows, pairs: seq<Pair>, toAsset: map<nat, string>,
                    toIndex: map<string, nat>, from: string, hopCount: int, maxHops: nat)
    requires WellFormed(pairs) && IndexFor(toAsset, toIndex, TokenOrder(pairs))
    requires PairMapFor(rows, TokenOrder(pairs), pairs) && RoutesFor(routes, rows, Cap(maxHops) + 1)
    requires from in toIndex && toIndex[from] in rows
    ensures var lists := routes[toIndex[from]];
            forall t: string :: t in NearNames(lists, lists.Keys, hopCount, toAsset) <==>
              t in Ball(TokenEdges(pairs), from, Budget(hopCount, maxHops)) && t != from
  {
    var lists := routes[toIndex[from]];
    forall t: string
      ensures t in NearNames(lists, lists.Keys, hopCount, toAsset) <==>
        t in Ball(TokenEdges(pairs), from, Budget(hopCount, maxHops)) && t != from
    {
      if t in NearNames(lists, lists.Keys, hopCount, toAsset) {
        NearIsInBall(routes, rows, pairs, toAsset, toIndex, from, hopCount, maxHops, t);
      }
      if t in Ball(TokenEdges(pairs), from, Budget(hopCount, maxHops)) && t != from {
        BallIsNear(routes, rows, pairs, toAsset, toIndex, from, hopCount, maxHops, t);
      }
    }
  }

  lemma {:induction false} NearIsInBall(routes: Routes, rows: Rows, pairs: seq<Pair>, toAsset: map<nat, string>,
                     toIndex: map<string, nat>, from: string, hopCount: int, maxHops: nat, t: string)
    requires WellFormed(pairs) && IndexFor(toAsset, toIndex, TokenOrder(pairs))
    requires PairMapFor(rows, TokenOrder(pairs), pairs) && RoutesFor(routes, rows, Cap(maxHops) + 1)
    requires from in toIndex && toIndex[from] in rows
    requires t in NearNames(routes[toIndex[from]], routes[toIndex[from]].Keys, hopCount, toAsset)
    ensures t in Ball(TokenEdges(pairs), from, Budget(hopCount, maxHops)) && t != from
  {
    var s := toIndex[from];
    var lists := routes[s];
    var d: nat :| d in lists && Near(lists, d, hopCount) && NameOf(toAsset, d) == t;
    var i :| 0 <= i < |lists[d]| && |lists[d][i]| <= hopCount + 1;
    ListedIffRoute(routes, rows, Cap(maxHops) + 1, s, d, lists[d][i]);
    assert lists[d][i] in ListOf(routes, s, d);
    IndexRouteToToken(rows, pairs, toAsset, toIndex, s, d, lists[d][i], Budget(hopCount, maxHops));
    IndexInverse(toAsset, toIndex, TokenOrder(pairs), from);
    RoutesReachBall(TokenEdges(pairs), from, t, Budget(hopCount, maxHops));
  }

  lemma {:induction false} BallIsNear(routes: Routes, rows: Rows, pairs: seq<Pair>, toAsset: map<nat, string>,
                   toIndex: map<string, nat>, from: string, hopCount: int, maxHops: nat, t: string)
    requires WellFormed(pairs) && IndexFor(toAsset, toIndex, TokenOrder(pairs))
    requires PairMapFor(rows, TokenOrder(pairs), pairs) && RoutesFor(routes, rows, Cap(maxHops) + 1)
    requires from in toIndex && toIndex[from] in rows
    requires t in Ball(TokenEdges(pairs), from, Budget(hopCount, maxHops)) && t != from
    ensures t in NearNames(routes[toIndex[from]], routes[toIndex[from]].Keys, hopCount, toAsset)
  {
    RoutesReachBall(TokenEdges(pairs), from, t, Budget(hopCount, maxHops));
    var r :| RouteTo(TokenEdges(pairs), from, t, r, Budget(hopCount, maxHops));
    TokenRouteToIndex(rows, pairs, toAsset, toIndex, from, t, r, Budget(hopCount, maxHops));
    IndexInverse(toAsset, toIndex, TokenOrder(pairs), t);
    RouteMakesNear(routes, rows, maxHops, hopCount, toIndex[from], toIndex[t], Rename(toIndex, r));
  }

  lemma RouteMakesNear(routes: Routes, rows: Rows, maxHops: nat, hopCount: int, s: nat, d: nat, q: seq<nat>)
    requires RoutesFor(routes, rows, Cap(maxHops) + 1) && s in rows
    requires RouteTo(IndexEdges(rows), s, d, q, Budget(hopCount, maxHops))
    ensures Near(routes[s], d, hopCount)
  {
    ListedIffRoute(routes, rows, Cap(maxHops) + 1, s, d, q);
    var i :| 0 <= i < |routes[s][d]| && routes[s][d][i] == q;
  }

  predicate SameContracts(a: seq<Pair>, b: seq<Pair>) {
    |a| == |b| && forall i :: 0 <= i < |a| ==> a[i].contract == b[i].contract
  }

  /** A swap route between two tokens within the configured number of hops. */
  ghost predicate TokenRoute(pairs: seq<Pair>, maxHops: nat, from: string, to: string, r: seq<string>)
    requires WellFormed(pairs)
  {
    RouteTo(TokenEdges(pairs), from, to, r, Cap(maxHops) + 1)
  }

  /** The index routes the cache lists between two tokens. */
  function Listed(routes: Routes, toIndex: map<string, nat>, from: string, to: string): seq<seq<nat>> {
    if from in toIndex && to in toIndex then ListOf(routes, toIndex[from], toIndex[to]) else []
  }

  /** Shorter routes first; of two equally long ones that with the token mentioned earlier at
      the first difference. */
  ghost predicate InOrder(pairs: seq<Pair>, arr: seq<seq<string>>) {
    forall i, j :: 0 <= i < j < |arr| ==>
      && |arr[i]| <= |arr[j]|
      && (|arr[i]| == |arr[j]| ==>
            exists m :: 0 <= m < |arr[i]| && arr[i][..m] == arr[j][..m] && MentionedBefore(pairs, arr[i][m], arr[j][m]))
  }

  lemma {:induction false} ShortlexIsMention(pairs: seq<Pair>, a: seq<string>, b: seq<string>)
    requires ShortlexLess(Numbers(pairs, a), Numbers(pairs, b))
    requires forall t :: t in a || t in b ==> t in TokenOrder(pairs)
    ensures |a| <= |b|
    ensures |a| == |b| ==>
      exists m :: 0 <= m < |a| && a[..m] == b[..m] && MentionedBefore(pairs, a[m], b[m])
  {
    var x, y := Numbers(pairs, a), Numbers(pairs, b);
    ShortlexFirstDifference(x, y);
    if |a| == |b| {
      var m :| 0 <= m < |x| && x[..m] == y[..m] && x[m] < y[m];
      forall i | 0 <= i < m ensures a[i] == b[i] {
        assert x[..m][i] == y[..m][i] && a[i] in a && b[i] in b;
        PositionOf(TokenOrder(pairs), a[i]);
        PositionOf(TokenOrder(pairs), b[i]);
      }
      assert a[..m] == b[..m] && a[m] in a && b[m] in b;
      PositionOf(TokenOrder(pairs), a[m]);
      PositionOf(TokenOrder(pairs), b[m]);
      OrderIsMention(pairs, x[m], y[m]);
    }
  }

  lemma {:induction false} PositionOf(order: seq<string>, t: string)
    requires t in order
    ensures Position(order, t) < |order| && order[Position(order, t)] == t
  {
    if order[0] != t { PositionOf(order[1..], t); }
  }

  lemma {:induction false} ShortlexIsInOrder(pairs: seq<Pair>, g: set<(string, string)>, from: string, to: string,
                                             k: nat, arr: seq<seq<string>>)
    requires WellFormed(pairs) && g == TokenEdges(pairs)
    requires forall r: seq<string> :: r in arr ==> RouteTo(g, from, to, r, k)
    requires forall i, j :: 0 <= i < j < |arr| ==> ShortlexLess(Numbers(pairs, arr[i]), Numbers(pairs, arr[j]))
    ensures InOrder(pairs, arr)
  {
    forall i, j | 0 <= i < j < |arr|
      ensures |arr[i]| <= |arr[j]|
      ensures |arr[i]| == |arr[j]| ==>
        exists m :: 0 <= m < |arr[i]| && arr[i][..m] == arr[j][..m] && MentionedBefore(pairs, arr[i][m], arr[j][m])
    {
      assert arr[i] in arr && arr[j] in arr;
      WalkTokens(pairs, from, arr[i]);
      WalkTokens(pairs, from, arr[j]);
      ShortlexIsMention(pairs, arr[i], arr[j]);
    }
  }

  /** Naming the listed routes gives exactly the token routes, in order. */
  lemma {:induction false} RoutesAnswer(routes: Routes, rows: Rows, pairs: seq<Pair>, toAsset: map<nat, string>,
                     toIndex: map<string, nat>, from: string, to: string, maxHops: nat, arr: seq<seq<string>>)
    requires WellFormed(pairs) && IndexFor(toAsset, toIndex, TokenOrder(pairs))
    requires PairMapFor(rows, TokenOrder(pairs), pairs) && RoutesFor(routes, rows, Cap(maxHops) + 1)
    requires NamesOf(toAsset, Listed(routes, toIndex, from, to), arr)
    ensures forall r: seq<string> :: r in arr <==> TokenRoute(pairs, maxHops, from, to, r)
    ensures forall i, j :: 0 <= i < j < |arr| ==> ShortlexLess(Numbers(pairs, arr[i]), Numbers(pairs, arr[j]))
    ensures InOrder(pairs, arr)
  {
    var k, list := Cap(maxHops) + 1, Listed(routes, toIndex, from, to);
    forall r: seq<string> ensures r in arr <==> TokenRoute(pairs, maxHops, from, to, r) {
      RouteByNames(routes, rows, pairs, toAsset, toIndex, from, to, k, r);
      NamedIn(toAsset, list, arr, r);
    }
    forall i, j | 0 <= i < j < |arr| ensures ShortlexLess(Numbers(pairs, arr[i]), Numbers(pairs, arr[j])) {
      var s, d := toIndex[from], toIndex[to];
      ListedNumbers(routes, rows, pairs, toAsset, toIndex, s, d, k, list[i]);
      ListedNumbers(routes, rows, pairs, toAsset, toIndex, s, d, k, list[j]);
    }
    ShortlexIsInOrder(pairs, TokenEdges(pairs), from, to, k, arr);
  }

  lemma NamedIn(toAsset: map<nat, string>, list: seq<seq<nat>>, arr: seq<seq<string>>, r: seq<string>)
    requires NamesOf(toAsset, list, arr)
    ensures r in arr <==> exists q: seq<nat> :: q in list && Names(toAsset, q) == r
  {
    if r in arr {
      var i :| 0 <= i < |arr| && arr[i] == r;
      assert list[i] in list;
    }
    if q: seq<nat> :| q in list && Names(toAsset, q) == r {
      var i :| 0 <= i < |list| && list[i] == q;
      assert arr[i] == r;
    }
  }

  /** The rows of the finished lists are exactly the token routes. */
  lemma {:induction false} RowsAreTokenRoutes(routes: Routes, rows: Rows, pairs: seq<Pair>, toAsset: map<nat, string>,
                                              toIndex: map<string, nat>, maxHops: nat, row: RouteRow)
    requires WellFormed(pairs) && IndexFor(toAsset, toIndex, TokenOrder(pairs))
    requires PairMapFor(rows, TokenOrder(pairs), pairs) && RoutesFor(routes, rows, Cap(maxHops) + 1)
    ensures HasRow(toAsset, routes, row) <==>
            row.hopCount == |row.key.route| - 1 &&
            TokenRoute(pairs, maxHops, row.key.asset0, row.key.asset1, row.key.route)
  {
    var k, key := Cap(maxHops) + 1, row.key;
    if HasRow(toAsset, routes, row) {
      var s: nat, d: nat, r: seq<nat> :| r in ListOf(routes, s, d) && row == RowFor(toAsset, s, d, r);
      ListedIffRoute(routes, rows, k, s, d, r);
      IndexRouteToToken(rows, pairs, toAsset, toIndex, s, d, r, k);
    }
    if row.hopCount == |key.route| - 1 && TokenRoute(pairs, maxHops, key.asset0, key.asset1, key.route) {
      RouteByNames(routes, rows, pairs, toAsset, toIndex, key.asset0, key.asset1, k, key.route);
      var q: seq<nat> :| q in ListOf(routes, toIndex[key.asset0], toIndex[key.asset1]) &&
          Names(toAsset, q) == key.route;
      IndexInverse(toAsset, toIndex, TokenOrder(pairs), key.asset0);
      IndexInverse(toAsset, toIndex, TokenOrder(pairs), key.asset1);
      assert row == RowFor(toAsset, toIndex[key.asset0], toIndex[key.asset1], q);
    }
  }

  /** The table has gained exactly the routes over these pairs, and lost none. */
  ghost predicate Stored(before: map<RouteKey, int>, after: map<RouteKey, int>, pairs: seq<Pair>, maxHops: nat)
    requires WellFormed(pairs)
  {
    && (forall key :: key in after <==> key in before || TokenRoute(pairs, maxHops, key.asset0, key.asset1, key.route))
    && (forall key :: key in after ==> after[key] == if key in before then before[key] else |key.route| - 1)
  }

  lemma {:induction false} WroteIsStored(before: map<RouteKey, int>, after: map<RouteKey, int>, routes: Routes,
                                         rows: Rows, pairs: seq<Pair>, toAsset: map<nat, string>,
                                         toIndex: map<string, nat>, maxHops: nat)
    requires WellFormed(pairs) && IndexFor(toAsset, toIndex, TokenOrder(pairs))
    requires PairMapFor(rows, TokenOrder(pairs), pairs) && RoutesFor(routes, rows, Cap(maxHops) + 1)
    requires Wrote(before, after, toAsset, routes)
    ensures Stored(before, after, pairs, maxHops)
  {
    forall key
      ensures key in after <==> key in before || TokenRoute(pairs, maxHops, key.asset0, key.asset1, key.route)
      ensures key in after ==> after[key] == if key in before then before[key] else |key.route| - 1
    {
      RowsAreTokenRoutes(routes, rows, pairs, toAsset, toIndex, maxHops, RouteRow(key, |key.route| - 1));
      if key in after {
        RowsAreTokenRoutes(routes, rows, pairs, toAsset, toIndex, maxHops, RouteRow(key, after[key]));
      }
    }
  }

  lemma {:induction false} OneStepWalk(g: set<(string, string)>, s: string, x: string)
    ensures IsWalk(g, s, [x]) ==> (s, x) in g
  {
    if IsWalk(g, s, [x]) { assert (Prev(s, [x], 0), [x][0]) in g; }
  }

  /** A pair that changes its assets under the same contract is not noticed. */
  lemma {:induction false} AssetChangeIsMissed()
    ensures var before, after := [Pair("c", ["a", "b"])], [Pair("c", ["a", "x"])];
            && SameContracts(before, after) && WellFormed(before) && WellFormed(after)
            && TokenRoute(after, 0, "a", "x", ["x"]) && !TokenRoute(before, 0, "a", "x", ["x"])
  {
    var before, after := [Pair("c", ["a", "b"])], [Pair("c", ["a", "x"])];
    assert ("a", "x") in TokenEdges(after) by { assert after[0] in after; }
    assert ("a", "x") !in TokenEdges(before);
    assert Prev("a", ["x"], 0) == "a";
    OneStepWalk(TokenEdges(before), "a", "x");
  }

  /** `FetchFailed`: the pairs could not be read. `WriteFailed`: the routes could not be
      written. `Blocked`: the call waits for the mutex for ever. */
  datatype Refresh = Refreshed | FetchFailed | WriteFailed | Blocked

  class RouterImpl {
    const maxHopCount: nat
    const repo: SrcRepo?
    var cachedPairs: seq<Pair>
    var routeInfo: RouteInfo?
    var locked: bool

    ghost predicate Valid()
      reads this, routeInfo
    {
      if routeInfo == null then cachedPairs == []
      else routeInfo.Valid(cachedPairs) && routeInfo.maxHopCount == Cap(maxHopCount)
    }

    /** `repo` is null when the configuration does not write routes. */
    constructor (maxHops: nat, repo: SrcRepo?)
      ensures Valid() && maxHopCount == maxHops && this.repo == repo && cachedPairs == [] && !locked
    {
      maxHopCount, this.repo, cachedPairs, routeInfo, locked := maxHops, repo, [], null, false;
    }

    method ShouldUpdate(pairs: seq<Pair>) returns (should: bool)
      ensures should <==> !SameContracts(cachedPairs, pairs)
      ensures should <==>
                |cachedPairs| != |pairs| || exists i :: 0 <= i < |pairs| && cachedPairs[i].contract != pairs[i].contract
    {
      if |cachedPairs| != |pairs| {
        return true;
      }
      for idx := 0 to |pairs|
        invariant forall i :: 0 <= i < idx ==> cachedPairs[i].contract == pairs[i].contract
      {
        if pairs[idx].contract != cachedPairs[idx].contract {
          return true;
        }
      }
      return false;
    }

    /** Refreshes the cache from the fetched pairs; `None` is a failed fetch.  A list with
        the same contracts keeps the cached one, so the cache is current unless a contract
        changed its assets.  A failed write keeps the cache and never gives the mutex back. */
    method Update(fetched: Option<seq<Pair>>) returns (res: Refresh)
      requires Valid() && (fetched.Some? ==> WellFormed(fetched.value))
      modifies this`cachedPairs, this`routeInfo, this`locked, repo
      ensures Valid() && (res.FetchFailed? <==> fetched.None?)
      ensures res.Blocked? <==> fetched.Some? && old(locked)
      ensures locked <==> old(locked) || res.WriteFailed?
      ensures !res.Refreshed? ==> cachedPairs == old(cachedPairs) && routeInfo == old(routeInfo)
      ensures res.WriteFailed? ==> repo != null && !repo.healthy && !SameContracts(old(cachedPairs), fetched.value)
      ensures res.Refreshed? && SameContracts(old(cachedPairs), fetched.value) ==>
                cachedPairs == old(cachedPairs) && routeInfo == old(routeInfo)
      ensures res.Refreshed? && !SameContracts(old(cachedPairs), fetched.value) ==> cachedPairs == fetched.value
      ensures res.Refreshed? ==>
                (cachedPairs == fetched.value <==>
                 !SameContracts(old(cachedPairs), fetched.value) || old(cachedPairs) == fetched.value)
      ensures res.Refreshed? ==>
                |cachedPairs| == |fetched.value| &&
                forall i :: 0 <= i < |cachedPairs| ==> cachedPairs[i].contract == fetched.value[i].contract
      ensures repo != null ==>
                if res.Refreshed? && !SameContracts(old(cachedPairs), fetched.value)
                then Stored(old(repo.rows), repo.rows, fetched.value, maxHopCount)
                else repo.rows == old(repo.rows)
    {
      if fetched.None? {
        return FetchFailed;
      }
      var pairs := fetched.value;
      if locked {
        return Blocked;
      }
      locked := true;
      var should := ShouldUpdate(pairs);
      if should {
        var rebuilt := Rebuild(pairs);
        if !rebuilt {
          return WriteFailed;
        }
      }
      locked := false;
      return Refreshed;
    }

    /** A new cache for the pairs, unless its routes cannot be written. */
    method Rebuild(pairs: seq<Pair>) returns (ok: bool)
      requires Valid() && WellFormed(pairs)
      modifies this`cachedPairs, this`routeInfo, repo
      ensures Valid()
      ensures ok ==> cachedPairs == pairs && (repo != null ==> Stored(old(repo.rows), repo.rows, pairs, maxHopCount))
      ensures !ok ==> cachedPairs == old(cachedPairs) && routeInfo == old(routeInfo)
      ensures !ok ==> repo != null && !repo.healthy && repo.rows == old(repo.rows)
    {
      var ri := NewRouteInfo(pairs, maxHopCount, repo);
      if ri == null {
        return false;
      }
      if repo != null {
        WroteIsStored(old(repo.rows), repo.rows, ri.routesMap, ri.initialPairMap, pairs, ri.indexToAsset,
                      ri.assetToIndex, maxHopCount);
      }
      routeInfo, cachedPairs := ri, pairs;
      return true;
    }

    /** The tokens one can swap `from` into: exactly the other tokens at graph distance at
        most `hopCount + 1`, capped by the configured maximum, in string order. */
    method TokensFrom(from: string, hopCount: int) returns (tokens: Option<seq<string>>)
      requires Valid() && WellFormed(cachedPairs)
      ensures tokens.Some? <==> exists t :: (from, t) in TokenEdges(cachedPairs)
      ensures tokens.Some? ==>
                forall i, j :: 0 <= i < j < |tokens.value| ==> FirstDiffers(tokens.value[i], tokens.value[j])
      ensures tokens.Some? ==> forall t: string :: t in tokens.value <==>
                t in Ball(TokenEdges(cachedPairs), from, Budget(hopCount, maxHopCount)) && t != from
      ensures tokens.Some? ==> forall t: string :: t in tokens.value <==>
                exists r: seq<string> :: TokenRoute(cachedPairs, maxHopCount, from, t, r) && |r| <= hopCount + 1
    {
      var near := TokensNear(from, hopCount);
      if near.None? {
        return None;
      }
      var list := Members(near.value);
      var sorted := SortStrings(list);
      forall t: string
        ensures t in sorted <==>
                exists r: seq<string> :: TokenRoute(cachedPairs, maxHopCount, from, t, r) && |r| <= hopCount + 1
      {
        BallIsRoutes(cachedPairs, from, hopCount, maxHopCount, t);
      }
      return Some(sorted);
    }

    /** The tokens the cache lists near enough. */
    method TokensNear(from: string, hopCount: int) returns (tokens: Option<set<string>>)
      requires Valid() && WellFormed(cachedPairs)
      ensures tokens.Some? <==> exists t :: (from, t) in TokenEdges(cachedPairs)
      ensures tokens.Some? ==> forall t: string :: t in tokens.value <==>
                t in Ball(TokenEdges(cachedPairs), from, Budget(hopCount, maxHopCount)) && t != from
    {
      if routeInfo == null {
        return None;
      }
      ghost var pairs := cachedPairs;
      var toAsset, toIndex, routes := routeInfo.indexToAsset, routeInfo.assetToIndex, routeInfo.routesMap;
      ghost var rows := routeInfo.initialPairMap;
      PairedIff(rows, pairs, toAsset, toIndex, from);
      if from !in toIndex || toIndex[from] !in routes {
        return None;
      }
      var destMap := routes[toIndex[from]];
      var tokenMap := NearTokens(destMap, hopCount, toAsset);
      NearIffBall(routes, rows, pairs, toAsset, toIndex, from, hopCount, maxHopCount);
      return Some(tokenMap);
    }

    /** All routes between two tokens, shortest first, then by the numbers of their tokens. */
    method Routes(from: string, to: string) returns (found: Option<seq<seq<string>>>)
      requires Valid() && WellFormed(cachedPairs)
      ensures found.Some? <==> exists r: seq<string> :: TokenRoute(cachedPairs, maxHopCount, from, to, r)
      ensures found.Some? ==> forall r: seq<string> ::
                r in found.value <==> TokenRoute(cachedPairs, maxHopCount, from, to, r)
      ensures found.Some? ==> var arr := found.value; forall i, j :: 0 <= i < j < |arr| ==>
                && |arr[i]| <= |arr[j]|
                && (|arr[i]| == |arr[j]| ==> exists m ::
                      0 <= m < |arr[i]| && arr[i][..m] == arr[j][..m] &&
                      MentionedBefore(cachedPairs, arr[i][m], arr[j][m]))
    {
      found := NamedRoutes(from, to);
    }

    method NamedRoutes(from: string, to: string) returns (found: Option<seq<seq<string>>>)
      requires Valid() && WellFormed(cachedPairs)
      ensures found.Some? <==> exists r: seq<string> :: TokenRoute(cachedPairs, maxHopCount, from, to, r)
      ensures found.Some? ==> forall r: seq<string> ::
                r in found.value <==> TokenRoute(cachedPairs, maxHopCount, from, to, r)
      ensures found.Some? ==> InOrder(cachedPairs, found.value)
    {
      if routeInfo == null {
        return None;
      }
      var toAsset, toIndex, routes := routeInfo.indexToAsset, routeInfo.assetToIndex, routeInfo.routesMap;
      var rows := routeInfo.initialPairMap;
      var routesArr := [];
      if from !in toIndex || to !in toIndex || toIndex[from] !in rows ||
          ListOf(routes, toIndex[from], toIndex[to]) == [] {
        RoutesAnswer(routes, rows, cachedPairs, toAsset, toIndex, from, to, maxHopCount, routesArr);
        return None;
      }
      routesArr := NameRoutes(toAsset, ListOf(routes, toIndex[from], toIndex[to]));
      RoutesAnswer(routes, rows, cachedPairs, toAsset, toIndex, from, to, maxHopCount, routesArr);
      assert routesArr[0] in routesArr;
      return Some(routesArr);
    }
  }

  /** Two refreshes: after one whose write failed the next one never returns. */
  method RefreshTwice(router: RouterImpl, first: seq<Pair>, second: Option<seq<Pair>>) returns (a: Refresh, b: Refresh)
    requires router.Valid() && !router.locked && WellFormed(first) && (second.Some? ==> WellFormed(second.value))
    modifies router, router.repo
    ensures a.Refreshed? || a.WriteFailed?
    ensures a.WriteFailed? && second.Some? ==> b.Blocked? && router.locked
    ensures a.WriteFailed? ==> router.cachedPairs == old(router.cachedPairs)
    ensures a.Refreshed? && second.Some? ==> !b.Blocked?
  {
    a := router.Update(Some(first));
    b := router.Update(second);
  }
}
