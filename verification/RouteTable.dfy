/** The table of routes that the cache writes when it is rebuilt (pkg/dex/router/repository.go). */
module RouteTable {

  /** The routes by their numbers: from, to, list. */
  type Routes = map<nat, map<nat, seq<seq<nat>>>>

  function ListOf(routes: Routes, s: nat, d: nat): seq<seq<nat>> {
    if s in routes && d in routes[s] then routes[s][d] else []
  }

  /** The name of an index; a missing key reads as the empty string, as a Go map does. */
  function NameOf(toAsset: map<nat, string>, i: nat): string {
    if i in toAsset then toAsset[i] else ""
  }

  function Names(toAsset: map<nat, string>, r: seq<nat>): (t: seq<string>)
    ensures |t| == |r| && forall i :: 0 <= i < |r| ==> t[i] == NameOf(toAsset, r[i])
  {
    seq(|r|, i requires 0 <= i < |r| => NameOf(toAsset, r[i]))
  }

  /** What makes a row of the table unique. */
  datatype RouteKey = RouteKey(asset0: string, asset1: string, route: seq<string>)

  datatype RouteRow = RouteRow(key: RouteKey, hopCount: int)

  function RowFor(toAsset: map<nat, string>, s: nat, d: nat, r: seq<nat>): RouteRow {
    RouteRow(RouteKey(NameOf(toAsset, s), NameOf(toAsset, d), Names(toAsset, r)), |r| - 1)
  }

  /** A list of the map has the row. */
  ghost predicate HasRow(toAsset: map<nat, string>, routes: Routes, row: RouteRow) {
    exists s: nat, d: nat, r: seq<nat> :: r in ListOf(routes, s, d) && row == RowFor(toAsset, s, d, r)
  }

  /** The lists from `s` to one of `ds` have the row. */
  ghost predicate HasRowFrom(toAsset: map<nat, string>, s: nat, lists: map<nat, seq<seq<nat>>>, ds: set<nat>,
                             row: RouteRow)
  {
    exists d: nat, r: seq<nat> :: d in ds && d in lists && r in lists[d] && row == RowFor(toAsset, s, d, r)
  }

  /** The rows of one list. */
  method RowsOfList(toAsset: map<nat, string>, s: nat, d: nat, list: seq<seq<nat>>) returns (dbRoutes: seq<RouteRow>)
    ensures |dbRoutes| == |list|
    ensures forall i :: 0 <= i < |list| ==> dbRoutes[i] == RowFor(toAsset, s, d, list[i])
  {
    dbRoutes := [];
    for i := 0 to |list|
      invariant |dbRoutes| == i
      invariant forall m :: 0 <= m < i ==> dbRoutes[m] == RowFor(toAsset, s, d, list[m])
    {
      dbRoutes := dbRoutes + [RowFor(toAsset, s, d, list[i])];
    }
  }

  /** The rows of the lists from one token. */
  method RowsFrom(toAsset: map<nat, string>, s: nat, lists: map<nat, seq<seq<nat>>>) returns (dbRoutes: seq<RouteRow>)
    ensures forall row :: row in dbRoutes <==> HasRowFrom(toAsset, s, lists, lists.Keys, row)
  {
    dbRoutes := [];
    var rest := lists.Keys;
    while rest != {}
      invariant rest <= lists.Keys
      invariant forall row :: row in dbRoutes <==> HasRowFrom(toAsset, s, lists, lists.Keys - rest, row)
      decreases rest
    {
      var d :| d in rest;
      ghost var was, done := dbRoutes, lists.Keys - rest;
      rest := rest - {d};
      var rows := RowsOfList(toAsset, s, d, lists[d]);
      dbRoutes := dbRoutes + rows;
      OneMoreList(toAsset, s, lists, done, d, was, rows);
      assert lists.Keys - rest == done + {d};
    }
    assert lists.Keys - rest == lists.Keys;
  }

  lemma OneMoreList(toAsset: map<nat, string>, s: nat, lists: map<nat, seq<seq<nat>>>, done: set<nat>, d: nat,
                    was: seq<RouteRow>, rows: seq<RouteRow>)
    requires d in lists && |rows| == |lists[d]|
    requires forall i :: 0 <= i < |rows| ==> rows[i] == RowFor(toAsset, s, d, lists[d][i])
    requires forall row :: row in was <==> HasRowFrom(toAsset, s, lists, done, row)
    ensures forall row :: row in was + rows <==> HasRowFrom(toAsset, s, lists, done + {d}, row)
  {
    forall row ensures row in was + rows <==> HasRowFrom(toAsset, s, lists, done + {d}, row) {
      if row in rows {
        var i :| 0 <= i < |rows| && rows[i] == row;
        assert lists[d][i] in lists[d];
      }
      if HasRowFrom(toAsset, s, lists, done + {d}, row) {
        var e: nat, r: seq<nat> :| e in done + {d} && e in lists && r in lists[e] && row == RowFor(toAsset, s, e, r);
        if e == d {
          var i :| 0 <= i < |lists[d]| && lists[d][i] == r;
          assert rows[i] == row;
        }
      }
    }
  }

  ghost predicate HasRowOf(toAsset: map<nat, string>, routes: Routes, ss: set<nat>, row: RouteRow) {
    exists s: nat :: s in ss && s in routes && HasRowFrom(toAsset, s, routes[s], routes[s].Keys, row)
  }

  lemma HasRowIsOf(toAsset: map<nat, string>, routes: Routes, row: RouteRow)
    ensures HasRow(toAsset, routes, row) <==> HasRowOf(toAsset, routes, routes.Keys, row)
  {
    if HasRow(toAsset, routes, row) {
      var s: nat, d: nat, r: seq<nat> :| r in ListOf(routes, s, d) && row == RowFor(toAsset, s, d, r);
      assert HasRowFrom(toAsset, s, routes[s], routes[s].Keys, row);
    }
    if HasRowOf(toAsset, routes, routes.Keys, row) {
      var s: nat :| s in routes && HasRowFrom(toAsset, s, routes[s], routes[s].Keys, row);
      var d: nat, r: seq<nat> :| d in routes[s] && r in routes[s][d] && row == RowFor(toAsset, s, d, r);
      assert r in ListOf(routes, s, d);
    }
  }

  /** Lists with the same routes have the same rows. */
  lemma SameListsSameRows(toAsset: map<nat, string>, a: Routes, b: Routes)
    requires forall s: nat, d: nat, r: seq<nat> :: r in ListOf(a, s, d) <==> r in ListOf(b, s, d)
    ensures forall row :: HasRow(toAsset, a, row) <==> HasRow(toAsset, b, row)
  {
  }

  /** All rows of the map. */
  method RowsOf(toAsset: map<nat, string>, routes: Routes) returns (dbRoutes: seq<RouteRow>)
    ensures forall row :: row in dbRoutes <==> HasRow(toAsset, routes, row)
  {
    dbRoutes := [];
    var rest := routes.Keys;
    while rest != {}
      invariant rest <= routes.Keys
      invariant forall row :: row in dbRoutes <==> HasRowOf(toAsset, routes, routes.Keys - rest, row)
      decreases rest
    {
      var s :| s in rest;
      ghost var was, done := dbRoutes, routes.Keys - rest;
      rest := rest - {s};
      assert routes.Keys - rest == done + {s};
      var rows := RowsFrom(toAsset, s, routes[s]);
      dbRoutes := dbRoutes + rows;
    }
    assert routes.Keys - rest == routes.Keys;
    forall row ensures row in dbRoutes <==> HasRow(toAsset, routes, row) { HasRowIsOf(toAsset, routes, row); }
  }

  /** After a write: every old row as it was, and the rows of the map under new keys. */
  ghost predicate Wrote(before: map<RouteKey, int>, after: map<RouteKey, int>, toAsset: map<nat, string>,
                        routes: Routes) {
    && (forall key :: key in before ==> key in after && after[key] == before[key])
    && (forall row :: HasRow(toAsset, routes, row) ==> row.key in after)
    && (forall key :: key in after && key !in before ==> HasRow(toAsset, routes, RouteRow(key, after[key])))
  }

  /** The route table of one chain; `rows` gives the stored hop counts. A healthy one does
      not fail. */
  class SrcRepo {
    var rows: map<RouteKey, int>
    const healthy: bool

    constructor (healthy: bool)
      ensures rows == map[] && this.healthy == healthy
    {
      rows, this.healthy := map[], healthy;
    }

    /** Inserts all routes in one transaction; a route that is stored already is left alone. */
    method UpdateRoutes(toAsset: map<nat, string>, routes: Routes) returns (ok: bool)
      modifies this
      ensures !ok ==> rows == old(rows)
      ensures ok ==> Wrote(old(rows), rows, toAsset, routes)
      ensures healthy ==> ok
    {
      var dbRoutes := RowsOf(toAsset, routes);
      if !healthy {
        if * { return false; }
      }
      for i := 0 to |dbRoutes|
        invariant forall key :: key in old(rows) ==> key in rows && rows[key] == old(rows)[key]
        invariant forall m :: 0 <= m < i ==> dbRoutes[m].key in rows
        invariant forall key :: key in rows && key !in old(rows) ==> RouteRow(key, rows[key]) in dbRoutes
      {
        assert dbRoutes[i] in dbRoutes;
        if dbRoutes[i].key !in rows {
          rows := rows[dbRoutes[i].key := dbRoutes[i].hopCount];
        }
      }
      return true;
    }
  }
}
