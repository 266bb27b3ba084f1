/** Regrouping of attributes before matching, and the single-value map taken from a match
    (pkg/eventlog/util.go). */
module Regrouping {
  import opened Results
  import opened Orders
  import opened EventLog

  // ---- the order of the filter keys ----

  /** The rank of a key: its last place in the filter. */
  function Rank(filter: seq<string>, key: string): nat {
    if filter == [] then 0
    else if filter[|filter| - 1] == key then |filter| - 1
    else Rank(filter[..|filter| - 1], key)
  }

  lemma {:induction false} RankAt(filter: seq<string>, key: string)
    requires key in filter
    ensures Rank(filter, key) < |filter| && filter[Rank(filter, key)] == key
  {
    var n := |filter| - 1;
    if filter[n] != key {
      assert filter == filter[..n] + [filter[n]];
      RankAt(filter[..n], key);
    }
  }

  function ByRank(filter: seq<string>): (Attribute, Attribute) -> bool {
    (a: Attribute, b: Attribute) => Rank(filter, a.key) < Rank(filter, b.key)
  }

  function SortGroup(filter: seq<string>, group: seq<Attribute>): (r: seq<Attribute>)
    ensures multiset(r) == multiset(group)
  {
    SortBy(group, ByRank(filter))
  }

  ghost predicate KnownKeys(filter: seq<string>, s: seq<Attribute>) {
    forall i :: 0 <= i < |s| ==> s[i].key in filter
  }

  ghost predicate DistinctKeys(s: seq<Attribute>) {
    forall i, j :: 0 <= i < j < |s| ==> s[i].key != s[j].key
  }

  /** A group has one order by rank, so any sort gives this result. */
  lemma SortedGroupIsUnique(filter: seq<string>, group: seq<Attribute>, r: seq<Attribute>)
    requires KnownKeys(filter, group) && DistinctKeys(group)
    requires (forall x :: x in r <==> x in group) && StrictlySorted(r, ByRank(filter))
    ensures r == SortGroup(filter, group)
  {
    forall i, j | 0 <= i < j < |group|
      ensures ByRank(filter)(group[i], group[j]) || ByRank(filter)(group[j], group[i])
    {
      RankAt(filter, group[i].key);
      RankAt(filter, group[j].key);
    }
    SortBySorted(group, ByRank(filter));
    var t := SortGroup(filter, group);
    forall x ensures x in r <==> x in t {
      assert x in group <==> x in multiset(group);
      assert x in t <==> x in multiset(t);
    }
    StrictlySortedUnique(r, t, ByRank(filter));
  }

  // ---- regrouping ----

  function Select(filter: seq<string>, attrs: seq<Attribute>): seq<Attribute> {
    if attrs == [] then [] else
      Select(filter, attrs[..|attrs| - 1]) +
      if attrs[|attrs| - 1].key in filter then [attrs[|attrs| - 1]] else []
  }

  predicate HasKey(group: seq<Attribute>, key: string) {
    exists i :: 0 <= i < |group| && group[i].key == key
  }

  /** Takes the attributes one by one: a repeated key closes the open group, a full group
      closes itself, and closing a group emits it in rank order. */
  function Regroup(filter: seq<string>, group: seq<Attribute>, rest: seq<Attribute>): seq<Attribute>
    decreases |rest|
  {
    if rest == [] then SortGroup(filter, group)
    else if HasKey(group, rest[0].key) then SortGroup(filter, group) + Push(filter, [], rest)
    else Push(filter, group, rest)
  }

  function Push(filter: seq<string>, group: seq<Attribute>, rest: seq<Attribute>): seq<Attribute>
    requires rest != []
    decreases |rest|, 0
  {
    if |group| + 1 == |filter| then SortGroup(filter, group + [rest[0]]) + Regroup(filter, [], rest[1..])
    else Regroup(filter, group + [rest[0]], rest[1..])
  }

  lemma {:induction false} RegroupKeepsAttributes(filter: seq<string>, group: seq<Attribute>, rest: seq<Attribute>)
    ensures multiset(Regroup(filter, group, rest)) == multiset(group) + multiset(rest)
    decreases |rest|
  {
    if rest != [] {
      assert rest == [rest[0]] + rest[1..];
      var g := if HasKey(group, rest[0].key) then [] else group;
      RegroupKeepsAttributes(filter, [], rest[1..]);
      RegroupKeepsAttributes(filter, g + [rest[0]], rest[1..]);
    }
  }

  /** Sorting keeps exactly the attributes with a key of the filter, each as often as it occurs. */
  lemma {:induction false} SortingKeepsKeys(filter: seq<string>, attrs: seq<Attribute>, a: Attribute)
    ensures multiset(Regroup(filter, [], Select(filter, attrs)))[a] ==
            if exists i :: 0 <= i < |filter| && filter[i] == a.key then multiset(attrs)[a] else 0
  {
    RegroupKeepsAttributes(filter, [], Select(filter, attrs));
    SelectCounts(filter, attrs, a);
  }

  lemma {:induction false} SelectCounts(filter: seq<string>, attrs: seq<Attribute>, a: Attribute)
    ensures multiset(Select(filter, attrs))[a] == if a.key in filter then multiset(attrs)[a] else 0
  {
    if attrs != [] {
      var n := |attrs| - 1;
      assert attrs == attrs[..n] + [attrs[n]];
      SelectCounts(filter, attrs[..n], a);
    }
  }

  method KeepKeys(attrs: seq<Attribute>, filter: seq<string>) returns (filtered: seq<Attribute>)
    ensures filtered == Select(filter, attrs)
  {
    filtered := [];
    for i := 0 to |attrs|
      invariant filtered == Select(filter, attrs[..i])
    {
      assert attrs[..i + 1][..i] == attrs[..i];
      if attrs[i].key in filter {
        filtered := filtered + [attrs[i]];
      }
    }
    assert attrs[..|attrs|] == attrs;
  }

  /** One turn of the loop of `SortAttributes`. */
  method TakeAttribute(filter: seq<string>, sorted0: seq<Attribute>, group0: seq<Attribute>, seen0: set<string>,
                       attr: Attribute, ghost rest: seq<Attribute>)
    returns (sorted: seq<Attribute>, group: seq<Attribute>, seen: set<string>)
    requires forall k :: k in seen0 <==> HasKey(group0, k)
    ensures forall k :: k in seen <==> HasKey(group, k)
    ensures sorted + Regroup(filter, group, rest) == sorted0 + Regroup(filter, group0, [attr] + rest)
  {
    sorted, group, seen := sorted0, group0, seen0;
    RegroupStep(filter, sorted0, group0, attr, rest);
    if attr.key in seen {
      sorted := sorted + SortGroup(filter, group);
      group, seen := [], {};
    }
    PushStep(filter, sorted, group, attr, rest);
    HasKeyAppend(group, attr);
    group := group + [attr];
    seen := seen + {attr.key};
    if |group| == |filter| {
      sorted := sorted + SortGroup(filter, group);
      group, seen := [], {};
    }
  }

  /** `seen` is a Go map from key to true; here the set of its keys. */
  method SortAttributes(attrs: seq<Attribute>, filter: seq<string>) returns (r: Result<seq<Attribute>, string>)
    ensures r.Err? <==> filter == []
    ensures r.Ok? ==> r.value == Regroup(filter, [], Select(filter, attrs))
  {
    if filter == [] {
      return Err("filter must be provided");
    }
    var filtered := KeepKeys(attrs, filter);
    var sorted, group, seen := [], [], {};
    ghost var goal := Regroup(filter, [], filtered);
    assert filtered[0..] == filtered;
    for i := 0 to |filtered|
      invariant forall k :: k in seen <==> HasKey(group, k)
      invariant goal == sorted + Regroup(filter, group, filtered[i..])
    {
      assert filtered[i..] == [filtered[i]] + filtered[i + 1..];
      sorted, group, seen := TakeAttribute(filter, sorted, group, seen, filtered[i], filtered[i + 1..]);
    }
    if |group| > 0 {
      sorted := sorted + SortGroup(filter, group);
    }
    assert sorted + [] == sorted;
    return Ok(sorted);
  }

  lemma HasKeyAppend(g: seq<Attribute>, a: Attribute)
    ensures forall k :: HasKey(g + [a], k) <==> HasKey(g, k) || k == a.key
  {
    assert (g + [a])[|g|] == a;
    forall k | HasKey(g, k) ensures HasKey(g + [a], k) {
      var i :| 0 <= i < |g| && g[i].key == k;
      assert (g + [a])[i].key == k;
    }
  }

  lemma {:induction false} RegroupStep(filter: seq<string>, sorted: seq<Attribute>, group: seq<Attribute>,
                                       a: Attribute, rest: seq<Attribute>)
    ensures sorted + Regroup(filter, group, [a] + rest) ==
            if HasKey(group, a.key) then sorted + SortGroup(filter, group) + Push(filter, [], [a] + rest)
            else sorted + Push(filter, group, [a] + rest)
  {
  }

  lemma {:induction false} PushStep(filter: seq<string>, sorted: seq<Attribute>, group: seq<Attribute>, a: Attribute,
                                    rest: seq<Attribute>)
    ensures sorted + Push(filter, group, [a] + rest) ==
            if |group| + 1 == |filter| then sorted + SortGroup(filter, group + [a]) + Regroup(filter, [], rest)
            else sorted + Regroup(filter, group + [a], rest)
  {
    assert ([a] + rest)[1..] == rest;
  }

  // ---- the single-value map of a match ----

  datatype AmbiguousEvent = AmbiguousEvent(contract: string, action: string, key: string,
                                           values: seq<string>, msgIndex: int)

  function ItemsOf(res: MatchedResult, key: string): MatchedResult {
    if res == [] then [] else
      ItemsOf(res[..|res| - 1], key) + if res[|res| - 1].key == key then [res[|res| - 1]] else []
  }

  function Values(items: MatchedResult): (v: seq<string>)
    ensures |v| == |items| && forall i :: 0 <= i < |v| ==> v[i] == items[i].value
  {
    seq(|items|, i requires 0 <= i < |items| => items[i].value)
  }

  function FirstValue(res: MatchedResult, keys: seq<string>): string {
    if res == [] then "" else if res[0].key in keys then res[0].value else FirstValue(res[1..], keys)
  }

  /** The items under a key are those of the match that have it, in order. */
  lemma {:induction false} ItemsOfAre(res: MatchedResult, key: string) returns (places: seq<nat>)
    ensures |places| == |ItemsOf(res, key)|
    ensures forall k :: 0 <= k < |places| ==>
              places[k] < |res| && res[places[k]].key == key && ItemsOf(res, key)[k] == res[places[k]]
    ensures forall k, l :: 0 <= k < l < |places| ==> places[k] < places[l]
    ensures forall i :: 0 <= i < |res| && res[i].key == key ==> i in places
  {
    if res == [] {
      places := [];
    } else {
      var n := |res| - 1;
      var before := ItemsOfAre(res[..n], key);
      places := before + if res[n].key == key then [n] else [];
      forall i | 0 <= i < |res| && res[i].key == key ensures i in places {
        if i < n { assert res[..n][i] == res[i] && i in before; } else { assert places[|before|] == n; }
      }
    }
  }

  method FirstResultValue(res: MatchedResult, keys: seq<string>) returns (v: string)
    ensures v == FirstValue(res, keys)
    ensures (forall i :: 0 <= i < |res| ==> res[i].key !in keys) ==> v == ""
    ensures forall i :: 0 <= i < |res| && res[i].key in keys && (forall j :: 0 <= j < i ==> res[j].key !in keys) ==>
              v == res[i].value
  {
    for i := 0 to |res|
      invariant FirstValue(res, keys) == FirstValue(res[i..], keys)
      invariant forall j :: 0 <= j < i ==> res[j].key !in keys
    {
      assert res[i..][1..] == res[i + 1..];
      for j := 0 to |keys|
        invariant res[i].key !in keys[..j]
      {
        assert keys[..j + 1] == keys[..j] + [keys[j]];
        if res[i].key == keys[j] {
          return res[i].value;
        }
      }
      assert keys[..|keys|] == keys;
    }
    return "";
  }

  /** The meaning of a single-value map: it fails exactly when a consumed key is repeated in
      the match, naming the first such key of the list with all its values; otherwise it maps
      each consumed key that occurs to its only item. */
  ghost predicate IsItemMap(res: MatchedResult, consumedKeys: seq<string>,
                            r: Result<map<string, MatchedItem>, AmbiguousEvent>)
  {
    match r
    case Ok(m) =>
      && (forall k :: k in consumedKeys ==> |ItemsOf(res, k)| <= 1)
      && (forall k :: k in m <==> k in consumedKeys && |ItemsOf(res, k)| == 1)
      && (forall k :: k in m ==> ItemsOf(res, k) == [m[k]])
    case Err(e) =>
      exists n :: 0 <= n < |consumedKeys| && FirstRepeated(res, consumedKeys, n) && e == Ambiguity(res, consumedKeys[n])
  }

  ghost predicate FirstRepeated(res: MatchedResult, keys: seq<string>, n: nat)
    requires n < |keys|
  {
    |ItemsOf(res, keys[n])| > 1 && forall m :: 0 <= m < n ==> |ItemsOf(res, keys[m])| <= 1
  }

  function Ambiguity(res: MatchedResult, key: string): AmbiguousEvent {
    var items := ItemsOf(res, key);
    AmbiguousEvent(FirstValue(res, ["_contract_address", "contract_address"]), FirstValue(res, ["action"]),
                   key, Values(items), if items == [] then 0 else items[0].msgIndex)
  }

  method CollectItems(res: MatchedResult, consumedKeys: seq<string>) returns (items: map<string, MatchedResult>)
    ensures forall k :: k in consumedKeys ==> ItemsOf(res, k) == if k in items then items[k] else []
  {
    items := map[];
    for i := 0 to |res|
      invariant forall k :: k in consumedKeys ==> ItemsOf(res[..i], k) == if k in items then items[k] else []
      invariant forall k :: k in items ==> k in consumedKeys
    {
      assert res[..i + 1][..i] == res[..i];
      if res[i].key !in consumedKeys {
        continue;
      }
      var kept := if res[i].key in items then items[res[i].key] else [];
      items := items[res[i].key := kept + [res[i]]];
    }
    assert res[..|res|] == res;
  }

  /** The first `n` consumed keys are single or absent, and the map has the single ones. */
  ghost predicate SingleSoFar(res: MatchedResult, keys: seq<string>, n: nat, result: map<string, MatchedItem>)
    requires n <= |keys|
  {
    && (forall m :: 0 <= m < n ==> |ItemsOf(res, keys[m])| <= 1)
    && (forall m :: 0 <= m < n && |ItemsOf(res, keys[m])| == 1 ==> keys[m] in result)
    && (forall k :: k in result ==> k in keys && ItemsOf(res, k) == [result[k]])
  }

  lemma {:induction false} SingleStep(res: MatchedResult, keys: seq<string>, n: nat, result: map<string, MatchedItem>)
    requires n < |keys| && SingleSoFar(res, keys, n, result) && |ItemsOf(res, keys[n])| <= 1
    ensures var items := ItemsOf(res, keys[n]);
            SingleSoFar(res, keys, n + 1, if |items| == 1 then result[keys[n] := items[0]] else result)
  {
    var key, items := keys[n], ItemsOf(res, keys[n]);
    if |items| == 1 {
      SingleAdded(res, keys, n, result, key, items[0]);
    }
  }

  lemma {:induction false} SingleAdded(res: MatchedResult, keys: seq<string>, n: nat, result: map<string, MatchedItem>,
                                       key: string, item: MatchedItem)
    requires n < |keys| && keys[n] == key && SingleSoFar(res, keys, n, result) && ItemsOf(res, key) == [item]
    ensures SingleSoFar(res, keys, n + 1, result[key := item])
  {
    var more := result[key := item];
    assert key in keys;
    forall k | k in more ensures k in keys && ItemsOf(res, k) == [more[k]] {
      if k != key { assert more[k] == result[k]; }
    }
  }

  lemma SingleAll(res: MatchedResult, keys: seq<string>, result: map<string, MatchedItem>)
    requires SingleSoFar(res, keys, |keys|, result)
    ensures IsItemMap(res, keys, Ok(result))
  {
    forall k | k in keys ensures |ItemsOf(res, k)| <= 1 && (|ItemsOf(res, k)| == 1 ==> k in result) {
      var m :| 0 <= m < |keys| && keys[m] == k;
    }
  }

  method ResultToItemMapForKeys(res: MatchedResult, consumedKeys: seq<string>)
    returns (r: Result<map<string, MatchedItem>, AmbiguousEvent>)
    ensures IsItemMap(res, consumedKeys, r)
    ensures r.Err? ==>
              && r.error.key in consumedKeys && |ItemsOf(res, r.error.key)| > 1
              && r.error.values == seq(|ItemsOf(res, r.error.key)|, i requires 0 <= i < |ItemsOf(res, r.error.key)| =>
                                         ItemsOf(res, r.error.key)[i].value)
              && r.error.msgIndex == ItemsOf(res, r.error.key)[0].msgIndex
              && r.error.contract == FirstValue(res, ["_contract_address", "contract_address"])
              && r.error.action == FirstValue(res, ["action"])
  {
    var items := CollectItems(res, consumedKeys);
    var result: map<string, MatchedItem> := map[];
    for n := 0 to |consumedKeys|
      invariant SingleSoFar(res, consumedKeys, n, result)
    {
      var key := consumedKeys[n];
      var matches := if key in items then items[key] else [];
      assert matches == ItemsOf(res, key);
      if |matches| <= 1 { SingleStep(res, consumedKeys, n, result); }
      if |matches| > 1 {
        var contract := FirstResultValue(res, ["_contract_address", "contract_address"]);
        var action := FirstResultValue(res, ["action"]);
        assert FirstRepeated(res, consumedKeys, n);
        return Err(AmbiguousEvent(contract, action, key, Values(matches), matches[0].msgIndex));
      }
      if |matches| == 1 {
        result := result[key := matches[0]];
      }
    }
    SingleAll(res, consumedKeys, result);
    return Ok(result);
  }
}
