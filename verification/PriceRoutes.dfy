/** How the price worker keeps up with the route table (updatePriceRoute of
    pkg/dex/price/price.go, LatestRouteUpdateTimestamp and Route of
    pkg/dex/price/repository.go). */
module PriceRoutes {
  import opened RouteTable

  /** A stored route's hop count and the time it was stored. */
  datatype Stamp = Stamp(hopCount: int, createdAt: nat)

  type Table = map<RouteKey, Stamp>

  /** Stored rows keep their stamps and stay; new ones come in. */
  ghost predicate Grows(before: Table, after: Table) {
    forall key :: key in before ==> key in after && after[key] == before[key]
  }

  /** The least time of a row, 0 for no row. */
  ghost predicate IsEarliest(table: Table, ts: nat) {
    && (table == map[] ==> ts == 0)
    && (table != map[] ==> exists key :: key in table && table[key].createdAt == ts)
    && (forall key :: key in table ==> ts <= table[key].createdAt)
  }

  /** Rows are stored after 1970. */
  ghost predicate Dated(table: Table) {
    forall key :: key in table ==> table[key].createdAt > 0
  }

  /** The rows whose routes end at a token. */
  function Ending(table: Table, token: string): Table {
    map key | key in table && key.asset1 == token :: table[key]
  }

  method LatestRouteUpdateTimestamp(table: Table) returns (ts: nat)
    ensures IsEarliest(table, ts)
  {
    ts := 0;
    var rest := table.Keys;
    while rest != {}
      invariant rest <= table.Keys
      invariant rest == table.Keys ==> ts == 0
      invariant rest != table.Keys ==> exists key :: key in table && table[key].createdAt == ts
      invariant forall key :: key in table && key !in rest ==> ts <= table[key].createdAt
      decreases rest
    {
      var key :| key in rest;
      if rest == table.Keys || table[key].createdAt < ts {
        ts := table[key].createdAt;
      }
      rest := rest - {key};
    }
    assert table != map[] ==> exists key :: key in table;
  }

  /** What one refresh sees: the table, and whether its two reads succeed. */
  datatype Refresh = Refresh(table: Table, readsTime: bool, readsRoutes: bool)

  /** The routes in memory and the time they stand for; before any, a time before 1970. */
  datatype Loaded = Loaded(routes: Table, updatedAt: int)

  const NOTHING := Loaded(map[], -1)

  /** One refresh: the routes are read again only when the least time has grown; a failed read
      leaves none. */
  ghost predicate Steps(s: Loaded, r: Refresh, token: string, t: Loaded) {
    exists ts: nat :: IsEarliest(r.table, ts) && StepsAt(s, r, token, ts, t)
  }

  predicate StepsAt(s: Loaded, r: Refresh, token: string, ts: nat, t: Loaded) {
    t ==
      if !r.readsTime || ts <= s.updatedAt then s
      else if r.readsRoutes then Loaded(Ending(r.table, token), ts)
      else s.(routes := map[])
  }

  class PriceRouteCache {
    const priceToken: string
    var priceRoutes: Table
    var latestRouteUpdatedTimestamp: int

    constructor (priceToken: string)
      ensures this.priceToken == priceToken && Now() == NOTHING
    {
      this.priceToken, priceRoutes, latestRouteUpdatedTimestamp := priceToken, map[], -1;
    }

    function Now(): Loaded
      reads this
    {
      Loaded(priceRoutes, latestRouteUpdatedTimestamp)
    }

    method UpdatePriceRoute(r: Refresh) returns (ok: bool)
      modifies this
      ensures Steps(old(Now()), r, priceToken, Now())
      ensures ok ==> r.readsTime
      ensures r.readsTime && r.readsRoutes ==> ok
    {
      if !r.readsTime {
        ghost var ts0 := LatestOf(r.table);
        assert StepsAt(Now(), r, priceToken, ts0, Now());
        return false;
      }
      var ts := LatestRouteUpdateTimestamp(r.table);
      if ts > latestRouteUpdatedTimestamp {
        priceRoutes := map[];
        if !r.readsRoutes {
          assert StepsAt(old(Now()), r, priceToken, ts, Now());
          return false;
        }
        priceRoutes := Ending(r.table, priceToken);
        latestRouteUpdatedTimestamp := ts;
      }
      assert StepsAt(old(Now()), r, priceToken, ts, Now());
      return true;
    }
  }

  lemma {:induction false} EarliestExists(table: Table, keys: set<RouteKey>) returns (ts: nat)
    requires keys <= table.Keys && keys != {}
    ensures exists key :: key in keys && table[key].createdAt == ts
    ensures forall key :: key in keys ==> ts <= table[key].createdAt
    decreases keys
  {
    var key :| key in keys;
    ts := table[key].createdAt;
    if keys != {key} {
      var least := EarliestExists(table, keys - {key});
      if least < ts { ts := least; }
    }
  }

  lemma LatestOf(table: Table) returns (ts: nat)
    ensures IsEarliest(table, ts)
  {
    ts := 0;
    if table != map[] {
      assert table.Keys != {} by { var key :| key in table; }
      ts := EarliestExists(table, table.Keys);
    }
  }

  /** A process: its states, one refresh after the other, over a table that only grows. */
  ghost predicate IsRun(states: seq<Loaded>, rs: seq<Refresh>, token: string) {
    && |states| == |rs| + 1 && states[0] == NOTHING
    && (forall i :: 0 <= i < |rs| ==> Dated(rs[i].table) && Steps(states[i], rs[i], token, states[i + 1]))
    && (forall i, j :: 0 <= i < j < |rs| ==> Grows(rs[i].table, rs[j].table))
  }

  /** The refresh at `k` read the routes of a table that had some. */
  ghost predicate Loads(states: seq<Loaded>, rs: seq<Refresh>, k: nat)
    requires k < |rs| && |states| == |rs| + 1
  {
    rs[k].table != map[] && rs[k].readsTime && rs[k].readsRoutes && states[k].updatedAt <= 0
  }

  /** Before a non-empty table was read, nothing stands in memory but an empty table's routes. */
  lemma {:induction false} NothingBefore(states: seq<Loaded>, rs: seq<Refresh>, token: string, n: nat)
    requires IsRun(states, rs, token) && n <= |rs|
    requires forall k: nat :: k < n ==> !Loads(states, rs, k)
    ensures states[n].updatedAt <= 0 && states[n].routes == map[]
  {
    if n > 0 {
      NothingBefore(states, rs, token, n - 1);
      assert Steps(states[n - 1], rs[n - 1], token, states[(n - 1) + 1]);
      assert !Loads(states, rs, n - 1);
      assert Ending(map[], token) == map[];
    }
  }

  /** After that the routes never change again: the least time of a growing table cannot grow. */
  lemma {:induction false} RoutesStay(states: seq<Loaded>, rs: seq<Refresh>, token: string, k: nat, n: nat)
    requires IsRun(states, rs, token) && k < n <= |rs| && Loads(states, rs, k)
    ensures states[n].routes == Ending(rs[k].table, token)
    ensures states[n].updatedAt > 0 && IsEarliest(rs[k].table, states[n].updatedAt)
    decreases n
  {
    assert Steps(states[n - 1], rs[n - 1], token, states[(n - 1) + 1]);
    if n > k + 1 {
      RoutesStay(states, rs, token, k, n - 1);
      EarliestFalls(rs[k].table, rs[n - 1].table, states[n - 1].updatedAt);
    }
  }

  lemma {:induction false} EarliestFalls(before: Table, after: Table, ts: nat)
    requires Grows(before, after) && before != map[] && IsEarliest(before, ts)
    ensures forall later: nat :: IsEarliest(after, later) ==> later <= ts
  {
    var key :| key in before && before[key].createdAt == ts;
    assert key in after;
  }

  /** The routes in memory are those of the table exactly when no route to the token has been
      stored since the first read of a table that had some. */
  lemma {:induction false} CurrentIff(states: seq<Loaded>, rs: seq<Refresh>, token: string, k: nat, n: nat)
    requires IsRun(states, rs, token) && k < n <= |rs| && Loads(states, rs, k)
    ensures states[n].routes == Ending(rs[n - 1].table, token) <==>
            forall key :: key in rs[n - 1].table && key.asset1 == token ==> key in rs[k].table
  {
    RoutesStay(states, rs, token, k, n);
    var first, last := rs[k].table, rs[n - 1].table;
    assert Grows(first, last);
    if forall key :: key in last && key.asset1 == token ==> key in first {
      assert Ending(first, token) == Ending(last, token);
    } else {
      var key :| key in last && key.asset1 == token && key !in first;
      assert key in Ending(last, token) && key !in Ending(first, token);
    }
  }

  function Hops(table: Table): map<RouteKey, int> {
    map key | key in table :: table[key].hopCount
  }

  /** The rows after a write of routes, the new ones stamped with its time. */
  function Stamped(before: Table, rows: map<RouteKey, int>, now: nat): Table {
    map key | key in rows :: if key in before then before[key] else Stamp(rows[key], now)
  }

  /** Every write of the route cache lets the table grow. */
  lemma {:induction false} WriteGrows(before: Table, rows: map<RouteKey, int>, toAsset: map<nat, string>,
                                      routes: Routes, now: nat)
    requires Wrote(Hops(before), rows, toAsset, routes)
    ensures Grows(before, Stamped(before, rows, now)) && Hops(Stamped(before, rows, now)) == rows
  {
    assert forall key :: key in before <==> key in Hops(before);
  }

  /** A route stored after the first read is not seen. */
  lemma {:induction false} LaterRouteIsMissed(states: seq<Loaded>)
    requires var key, other := RouteKey("t", "p", ["p"]), RouteKey("u", "p", ["p"]);
             IsRun(states, [Refresh(map[key := Stamp(0, 5)], true, true),
                            Refresh(map[key := Stamp(0, 5), other := Stamp(0, 9)], true, true)], "p")
    ensures states[2].routes == map[RouteKey("t", "p", ["p"]) := Stamp(0, 5)]
  {
    var key, other := RouteKey("t", "p", ["p"]), RouteKey("u", "p", ["p"]);
    var rs := [Refresh(map[key := Stamp(0, 5)], true, true),
               Refresh(map[key := Stamp(0, 5), other := Stamp(0, 9)], true, true)];
    assert key in rs[0].table;
    assert Loads(states, rs, 0);
    RoutesStay(states, rs, "p", 0, 2);
  }
}
