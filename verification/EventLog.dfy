/** The rule matcher over event attributes (pkg/eventlog/finder.go, rule.go). */
module EventLog {
  datatype Attribute = Attribute(key: string, value: string, msgIndex: int)

  datatype MatchedItem = MatchedItem(key: string, value: string, msgIndex: int)

  type MatchedResult = seq<MatchedItem>

  /** A nil filter, a string to equal, or a predicate on the value. */
  datatype Filter = Any | Equals(v: string) | Where(p: string -> bool)

  datatype RuleItem = RuleItem(key: string, filter: Filter) {
    predicate Match(a: Attribute) {
      key == a.key &&
      match filter
      case Any => true
      case Equals(v) => v == a.value
      case Where(p) => p(a.value)
    }
  }

  datatype Rule = Rule(logType: string, items: seq<RuleItem>, until: string)

  const MSG_INDEX := "msg_index"
  const TOKEN_ID := "token_id"

  predicate ShouldSkipKey(key: string) {
    key == MSG_INDEX || key == TOKEN_ID
  }

  function Item(a: Attribute): MatchedItem {
    MatchedItem(a.key, a.value, a.msgIndex)
  }

  // ---- leftmost-greedy specification, on suffixes of the attribute list ----

  datatype Opening = NoOpening | Opening(items: MatchedResult, rest: seq<Attribute>)

  function Prepend(m: MatchedResult, o: Opening): Opening {
    if o.NoOpening? then NoOpening else Opening(m + o.items, o.rest)
  }

  /** Matches the rule items one after the other from the head of `s`.  One skip key may
      be passed over before each item, when enough attributes are left; `msgIndex` is the
      message of the item before, -1 at first. */
  function Open(items: seq<RuleItem>, s: seq<Attribute>, msgIndex: int): Opening
    requires |items| <= |s|
    decreases |items|
  {
    if items == [] then Opening([], s) else
      var t := if ShouldSkipKey(s[0].key) && |items| < |s| then s[1..] else s;
      if !items[0].Match(t[0]) || (msgIndex != -1 && t[0].msgIndex != msgIndex) then NoOpening
      else Prepend([Item(t[0])], Open(items[1..], t[1..], t[0].msgIndex))
  }

  /** The items up to the `until` key, skip keys left out. */
  function Tail(until: string, s: seq<Attribute>): MatchedResult {
    if s == [] || s[0].key == until then []
    else if ShouldSkipKey(s[0].key) then Tail(until, s[1..])
    else [Item(s[0])] + Tail(until, s[1..])
  }

  function After(until: string, s: seq<Attribute>): (r: seq<Attribute>)
    ensures |r| <= |s|
  {
    if s == [] || s[0].key == until then s else After(until, s[1..])
  }

  lemma {:induction false} AfterIsSuffix(until: string, s: seq<Attribute>)
    ensures After(until, s) == s[|s| - |After(until, s)|..]
  {
    if s != [] && s[0].key != until { AfterIsSuffix(until, s[1..]); }
  }

  lemma {:induction false} OpenSize(items: seq<RuleItem>, s: seq<Attribute>, msgIndex: int)
    requires |items| <= |s|
    ensures var o := Open(items, s, msgIndex);
            o.Opening? ==> |o.items| == |items| && |o.rest| + |items| <= |s|
    decreases |items|
  {
    if items != [] {
      var t := if ShouldSkipKey(s[0].key) && |items| < |s| then s[1..] else s;
      OpenSize(items[1..], t[1..], t[0].msgIndex);
    }
  }

  lemma {:induction false} OpenIsSuffix(items: seq<RuleItem>, s: seq<Attribute>, msgIndex: int)
    requires |items| <= |s|
    ensures var o := Open(items, s, msgIndex);
            o.Opening? ==> |o.rest| <= |s| && o.rest == s[|s| - |o.rest|..]
    decreases |items|
  {
    if items != [] {
      var t := if ShouldSkipKey(s[0].key) && |items| < |s| then s[1..] else s;
      OpenIsSuffix(items[1..], t[1..], t[0].msgIndex);
    }
  }

  function Scan(rule: Rule, s: seq<Attribute>): seq<MatchedResult>
    requires rule.items != []
    decreases |s|
  {
    if |s| < |rule.items| then [] else
      match Open(rule.items, s, -1)
      case NoOpening => Scan(rule, s[1..])
      case Opening(m, rest) =>
        OpenSize(rule.items, s, -1);
        [Whole(rule, m, rest)] + Scan(rule, Next(rule, rest))
  }

  /** The whole match: the opening and, when the rule has an `until` key, the tail. */
  function Whole(rule: Rule, m: MatchedResult, rest: seq<Attribute>): MatchedResult {
    if rule.until == "" then m else m + Tail(rule.until, rest)
  }

  /** Where the scan goes on. */
  function Next(rule: Rule, rest: seq<Attribute>): (r: seq<Attribute>)
    ensures |r| <= |rest|
  {
    if rule.until == "" then rest else After(rule.until, rest)
  }

  // ---- the code ----

  /** A result of the comparison: fewer items than the rule has when nothing opens here, else
      the opening and where it ends. */
  ghost predicate IsOpening(items: seq<RuleItem>, start: nat, attrs: seq<Attribute>, matched: MatchedResult, next: nat)
    requires start + |items| <= |attrs| && next <= |attrs|
  {
    match Open(items, attrs[start..], -1)
    case NoOpening => |matched| < |items|
    case Opening(m, rest) => matched == m && |m| == |items| && rest == attrs[next..] && start + |m| <= next
  }

  /** Compares exactly as many attributes as the rule has items. */
  method FindMatchingSubseq(rule: Rule, start: nat, attrs: seq<Attribute>) returns (matched: MatchedResult, next: nat)
    requires start + |rule.items| <= |attrs|
    ensures next <= |attrs| && IsOpening(rule.items, start, attrs, matched, next)
  {
    var attrIdx := start;
    var size := |rule.items|;
    matched := [];
    var i := 0;
    var msgIndex := -1;
    ghost var goal := Open(rule.items, attrs[start..], -1);
    while i < size
      invariant start <= attrIdx && Greedy(goal, rule.items, attrs, i, attrIdx, msgIndex, matched)
    {
      ghost var was := attrIdx;
      if ShouldSkipKey(attrs[attrIdx + i].key) && attrIdx + size < |attrs| {
        attrIdx := attrIdx + 1;
      }
      GreedyStep(goal, rule.items, attrs, i, was, attrIdx, msgIndex, matched);
      var a := attrs[attrIdx + i];
      if !rule.items[i].Match(a) || (msgIndex != -1 && a.msgIndex != msgIndex) {
        return matched, attrIdx + i;
      }
      msgIndex := a.msgIndex;
      matched := matched + [Item(a)];
      i := i + 1;
    }
    return matched, attrIdx + i;
  }

  lemma Slice<T>(s: seq<T>, i: nat)
    requires i < |s|
    ensures s[i..][0] == s[i] && s[i..][1..] == s[i + 1..]
  {
  }

  lemma PrependTwice(m: MatchedResult, x: MatchedItem, o: Opening)
    ensures Prepend(m, Prepend([x], o)) == Prepend(m + [x], o)
  {
    if o.Opening? { assert m + ([x] + o.items) == m + [x] + o.items; }
  }

  /** One step of the opening, by indices into the whole list. */
  lemma OpenAt(items: seq<RuleItem>, attrs: seq<Attribute>, i: nat, was: nat, now: nat, msgIndex: int)
    requires i < |items| && was + |items| <= |attrs|
    requires now == if ShouldSkipKey(attrs[was + i].key) && was + |items| < |attrs| then was + 1 else was
    ensures var a := attrs[now + i];
            Open(items[i..], attrs[was + i..], msgIndex) ==
            if !items[i].Match(a) || (msgIndex != -1 && a.msgIndex != msgIndex) then NoOpening
            else Prepend([Item(a)], Open(items[i + 1..], attrs[now + i + 1..], a.msgIndex))
  {
    Slice(items, i);
    Slice(attrs, was + i);
    Slice(attrs, now + i);
  }

  /** What is matched, and what still has to be opened. */
  ghost predicate Greedy(goal: Opening, items: seq<RuleItem>, attrs: seq<Attribute>, i: nat, at: nat, msgIndex: int,
                         matched: MatchedResult)
  {
    && i <= |items| && at + |items| <= |attrs| && |matched| == i
    && goal == Prepend(matched, Open(items[i..], attrs[at + i..], msgIndex))
  }

  lemma GreedyStep(goal: Opening, items: seq<RuleItem>, attrs: seq<Attribute>, i: nat, was: nat, now: nat,
                   msgIndex: int, matched: MatchedResult)
    requires i < |items| && Greedy(goal, items, attrs, i, was, msgIndex, matched)
    requires now == if ShouldSkipKey(attrs[was + i].key) && was + |items| < |attrs| then was + 1 else was
    ensures var a := attrs[now + i];
            if !items[i].Match(a) || (msgIndex != -1 && a.msgIndex != msgIndex) then goal == NoOpening
            else Greedy(goal, items, attrs, i + 1, now, a.msgIndex, matched + [Item(a)])
  {
    OpenAt(items, attrs, i, was, now, msgIndex);
    var a := attrs[now + i];
    PrependTwice(matched, Item(a), Open(items[i + 1..], attrs[now + i + 1..], a.msgIndex));
  }

  lemma {:induction false} TailAt(until: string, attrs: seq<Attribute>, i: nat)
    requires i <= |attrs|
    ensures i == |attrs| || attrs[i].key == until ==>
        Tail(until, attrs[i..]) == [] && After(until, attrs[i..]) == attrs[i..]
    ensures i < |attrs| && attrs[i].key != until ==>
              && After(until, attrs[i..]) == After(until, attrs[i + 1..])
              && Tail(until, attrs[i..]) ==
                   (if ShouldSkipKey(attrs[i].key) then [] else [Item(attrs[i])]) + Tail(until, attrs[i + 1..])
  {
    if i < |attrs| { Slice(attrs, i); }
  }

  lemma {:induction false} TailStep(until: string, attrs: seq<Attribute>, i: nat, m: MatchedResult)
    requires i < |attrs| && attrs[i].key != until
    ensures m + Tail(until, attrs[i..]) ==
            (if ShouldSkipKey(attrs[i].key) then m else m + [Item(attrs[i])]) + Tail(until, attrs[i + 1..])
  {
    TailAt(until, attrs, i);
  }

  /** Extends a match up to the rule's `until` key; `last` is the index before it. */
  method AppendUntil(rule: Rule, start: nat, opening: MatchedResult, attrs: seq<Attribute>)
    returns (matched: MatchedResult, last: int)
    requires start <= |attrs|
    ensures start - 1 <= last < |attrs|
    ensures matched == Whole(rule, opening, attrs[start..]) && attrs[last + 1..] == Next(rule, attrs[start..])
  {
    var attrIdx := start;
    matched := opening;
    if rule.until != "" {
      ghost var tail, rest := Tail(rule.until, attrs[start..]), After(rule.until, attrs[start..]);
      while attrIdx < |attrs| && attrs[attrIdx].key != rule.until
        invariant start <= attrIdx <= |attrs|
        invariant opening + tail == matched + Tail(rule.until, attrs[attrIdx..])
        invariant rest == After(rule.until, attrs[attrIdx..])
      {
        TailAt(rule.until, attrs, attrIdx);
        TailStep(rule.until, attrs, attrIdx, matched);
        if !ShouldSkipKey(attrs[attrIdx].key) {
          matched := matched + [Item(attrs[attrIdx])];
        }
        attrIdx := attrIdx + 1;
      }
      TailAt(rule.until, attrs, attrIdx);
      assert matched + [] == matched;
    }
    last := attrIdx - 1;
  }

  /** The scan; a rule without items would never advance, so one item is demanded. */
  method FindFromAttrs(rule: Rule, attrs: seq<Attribute>) returns (results: seq<MatchedResult>)
    requires rule.items != []
    ensures results == Scan(rule, attrs)
  {
    results := [];
    var size := |rule.items|;
    if size > |attrs| {
      return;
    }
    var i: int := 0;
    assert attrs[0..] == attrs;
    while i + size <= |attrs|
      invariant 0 <= i <= |attrs|
      invariant results + Scan(rule, attrs[i..]) == Scan(rule, attrs)
      decreases |attrs| - i
    {
      var found, matched, after := MatchAt(rule, i, attrs);
      if !found {
        i := i + 1;
        continue;
      }
      assert results + ([matched] + Scan(rule, attrs[after..])) == results + [matched] + Scan(rule, attrs[after..]);
      results := results + [matched];
      i := after;
    }
  }

  /** One round of the scan: a whole match at `start` and the index behind it, if there is one. */
  method MatchAt(rule: Rule, start: nat, attrs: seq<Attribute>)
      returns (found: bool, matched: MatchedResult, after: nat)
    requires rule.items != [] && start + |rule.items| <= |attrs|
    ensures !found ==> Scan(rule, attrs[start..]) == Scan(rule, attrs[start + 1..])
    ensures found ==>
      start < after <= |attrs| && Scan(rule, attrs[start..]) == [matched] + Scan(rule, attrs[after..])
  {
    var opening, next := FindMatchingSubseq(rule, start, attrs);
    ScanAt(rule, attrs, start, opening, next);
    if |opening| != |rule.items| {
      return false, [], 0;
    }
    var whole, last := AppendUntil(rule, next, opening, attrs);
    return true, whole, last + 1;
  }

  lemma {:induction false} ScanAt(rule: Rule, attrs: seq<Attribute>, i: nat, opening: MatchedResult, next: nat)
    requires rule.items != [] && i + |rule.items| <= |attrs| && next <= |attrs|
    requires IsOpening(rule.items, i, attrs, opening, next)
    ensures |opening| != |rule.items| ==> Scan(rule, attrs[i..]) == Scan(rule, attrs[i + 1..])
    ensures |opening| == |rule.items| ==>
      i < next && Scan(rule, attrs[i..]) == [Whole(rule, opening, attrs[next..])] +
          Scan(rule, Next(rule, attrs[next..]))
  {
    assert attrs[i..][1..] == attrs[i + 1..];
    OpenSize(rule.items, attrs[i..], -1);
  }

  /** The results of the logs of the rule's type, one log after the other: `cuts` says where the
      results of each log begin and end. */
  method FindFromLogs(rule: Rule, logs: seq<(string, seq<Attribute>)>)
    returns (results: seq<MatchedResult>, ghost cuts: seq<nat>)
    requires rule.items != []
    ensures results == ScanLogs(rule, logs)
    ensures |cuts| == |logs| + 1 && cuts[0] == 0 && cuts[|logs|] == |results|
    ensures forall i :: 0 <= i < |logs| ==> CutAt(rule, logs, results, cuts, i)
  {
    results, cuts := [], [0];
    for i := 0 to |logs|
      invariant results == ScanLogs(rule, logs[..i])
      invariant |cuts| == i + 1 && cuts[0] == 0 && cuts[i] == |results|
      invariant forall k :: 0 <= k < i ==> CutAt(rule, logs, results, cuts, k)
    {
      assert logs[..i + 1][..i] == logs[..i];
      ghost var was, before := results, cuts;
      if rule.logType == logs[i].0 {
        var matched := FindFromAttrs(rule, logs[i].1);
        results := results + matched;
      }
      cuts := cuts + [|results|];
      forall k | 0 <= k < i + 1 ensures CutAt(rule, logs, results, cuts, k) {
        if k < i { CutStays(rule, logs, was, before, results, cuts, k); }
      }
    }
    assert logs[..|logs|] == logs;
  }

  /** Between its cuts stand the results of a log, if it has the rule's type, and nothing else. */
  ghost predicate CutAt(rule: Rule, logs: seq<(string, seq<Attribute>)>, results: seq<MatchedResult>, cuts: seq<nat>,
                        k: nat)
    requires rule.items != []
  {
    && k < |logs| && k + 1 < |cuts| && cuts[k] <= cuts[k + 1] <= |results|
    && results[cuts[k]..cuts[k + 1]] == if logs[k].0 == rule.logType then Scan(rule, logs[k].1) else []
  }

  lemma CutStays(rule: Rule, logs: seq<(string, seq<Attribute>)>, was: seq<MatchedResult>, before: seq<nat>,
                 results: seq<MatchedResult>, cuts: seq<nat>, k: nat)
    requires rule.items != [] && was <= results && before <= cuts && CutAt(rule, logs, was, before, k)
    ensures CutAt(rule, logs, results, cuts, k)
  {
    assert results[cuts[k]..cuts[k + 1]] == was[before[k]..before[k + 1]];
  }

  function ScanLogs(rule: Rule, logs: seq<(string, seq<Attribute>)>): seq<MatchedResult>
    requires rule.items != []
  {
    if logs == [] then [] else
      var log := logs[|logs| - 1];
      ScanLogs(rule, logs[..|logs| - 1]) + if log.0 == rule.logType then Scan(rule, log.1) else []
  }

  // ---- what a result list says about the attributes ----

  /** Where one match lies: its items at `pos`, its tail from `mid` to `end`. */
  datatype Span = Span(start: nat, mid: nat, end: nat, pos: seq<nat>)

  /** Rule items matched in order at increasing places, skip keys in the gaps, one message
      throughout (-1 stands for an unknown message). */
  ghost predicate Opens(items: seq<RuleItem>, attrs: seq<Attribute>, start: nat, pos: seq<nat>, msgIndex: int) {
    if items == [] then pos == [] else
      && pos != [] && pos[0] < |attrs| && InReach(attrs, start, pos[0])
      && items[0].Match(attrs[pos[0]])
      && (msgIndex == -1 || attrs[pos[0]].msgIndex == msgIndex)
      && Opens(items[1..], attrs, pos[0] + 1, pos[1..], attrs[pos[0]].msgIndex)
  }

  function ItemsAt(attrs: seq<Attribute>, pos: seq<nat>): MatchedResult {
    if pos == [] then [] else
      (if pos[0] < |attrs| then [Item(attrs[pos[0]])] else []) + ItemsAt(attrs, pos[1..])
  }

  predicate InReach(attrs: seq<Attribute>, from: nat, to: nat) {
    to == from || (to == from + 1 && from < |attrs| && ShouldSkipKey(attrs[from].key))
  }

  /** Where the comparison may look for the `k`-th item, and under which message. */
  function From(start: nat, pos: seq<nat>, k: nat): nat
    requires k <= |pos|
  {
    if k == 0 then start else pos[k - 1] + 1
  }

  predicate Fits(item: RuleItem, a: Attribute) {
    && a.key == item.key
    && (item.filter.Equals? ==> a.value == item.filter.v)
    && (item.filter.Where? ==> item.filter.p(a.value))
  }

  /** One place of an opening: the key and the filter of the item, a step over at most one
      `msg_index` or `token_id`, and the message of the place before, if that is known. */
  predicate PlaceFits(items: seq<RuleItem>, attrs: seq<Attribute>, start: nat, pos: seq<nat>, msgIndex: int, k: nat)
    requires k < |items| == |pos|
  {
    var m := if k == 0 then msgIndex else if pos[k - 1] < |attrs| then attrs[pos[k - 1]].msgIndex else -1;
    && pos[k] < |attrs| && Fits(items[k], attrs[pos[k]])
    && (pos[k] == From(start, pos, k) ||
        (pos[k] == From(start, pos, k) + 1 && attrs[From(start, pos, k)].key in ["msg_index", "token_id"]))
    && (m == -1 || attrs[pos[k]].msgIndex == m)
  }

  /** An opening, place by place. */
  lemma {:induction false} OpensPlaces(items: seq<RuleItem>, attrs: seq<Attribute>, start: nat, pos: seq<nat>,
                                       msgIndex: int)
    ensures Opens(items, attrs, start, pos, msgIndex) <==>
            |pos| == |items| && forall k :: 0 <= k < |items| ==> PlaceFits(items, attrs, start, pos, msgIndex, k)
    decreases |items|
  {
    if items != [] && |pos| == |items| {
      if PlaceFits(items, attrs, start, pos, msgIndex, 0) {
        var rest, places, m, from := items[1..], pos[1..], attrs[pos[0]].msgIndex, pos[0] + 1;
        OpensPlaces(rest, attrs, from, places, m);
        forall k | 0 <= k < |rest|
          ensures PlaceFits(rest, attrs, from, places, m, k) <==> PlaceFits(items, attrs, start, pos, msgIndex, k + 1)
        {
          assert places[k] == pos[k + 1] && rest[k] == items[k + 1];
        }
        if forall k :: 0 <= k < |rest| ==> PlaceFits(rest, attrs, from, places, m, k) {
          forall k | 0 <= k < |items| ensures PlaceFits(items, attrs, start, pos, msgIndex, k) {
            if k > 0 { assert PlaceFits(rest, attrs, from, places, m, k - 1); }
          }
        }
        if forall k :: 0 <= k < |items| ==> PlaceFits(items, attrs, start, pos, msgIndex, k) {
          forall k | 0 <= k < |rest| ensures PlaceFits(rest, attrs, from, places, m, k) {
            assert PlaceFits(items, attrs, start, pos, msgIndex, k + 1);
          }
        }
      }
    } else if items != [] && pos != [] {
      OpensLength(items, attrs, start, pos, msgIndex);
    }
  }

  lemma {:induction false} OpensLength(items: seq<RuleItem>, attrs: seq<Attribute>, start: nat, pos: seq<nat>,
                                       msgIndex: int)
    ensures Opens(items, attrs, start, pos, msgIndex) ==> |pos| == |items|
    decreases |items|
  {
    if items != [] && pos != [] && pos[0] < |attrs| {
      OpensLength(items[1..], attrs, pos[0] + 1, pos[1..], attrs[pos[0]].msgIndex);
    }
  }

  /** The items reported for an opening are the attributes at its places. */
  lemma {:induction false} ItemsAtAre(attrs: seq<Attribute>, pos: seq<nat>)
    requires forall k :: 0 <= k < |pos| ==> pos[k] < |attrs|
    ensures |ItemsAt(attrs, pos)| == |pos|
    ensures forall k :: 0 <= k < |pos| ==>
              var (m, a) := (ItemsAt(attrs, pos)[k], attrs[pos[k]]);
              m.key == a.key && m.value == a.value && m.msgIndex == a.msgIndex
  {
    if pos != [] {
      ItemsAtAre(attrs, pos[1..]);
      var all := ItemsAt(attrs, pos);
      assert all == [Item(attrs[pos[0]])] + ItemsAt(attrs, pos[1..]);
      forall k | 0 <= k < |pos|
        ensures all[k].key == attrs[pos[k]].key && all[k].value == attrs[pos[k]].value &&
                all[k].msgIndex == attrs[pos[k]].msgIndex
      {
        if k > 0 { assert all[k] == ItemsAt(attrs, pos[1..])[k - 1] && pos[1..][k - 1] == pos[k]; }
      }
    }
  }

  ghost predicate IsMatch(rule: Rule, attrs: seq<Attribute>, sp: Span, m: MatchedResult)
    requires rule.items != []
  {
    && Opens(rule.items, attrs, sp.start, sp.pos, -1)
    && sp.start < sp.mid == Behind(sp.start, sp.pos) <= sp.end <= |attrs|
    && m == ItemsAt(attrs, sp.pos) + Shown(attrs[sp.mid..sp.end])
    && (if rule.until == "" then sp.end == sp.mid else
          && (forall i :: sp.mid <= i < sp.end ==> attrs[i].key != rule.until)
          && (sp.end < |attrs| ==> attrs[sp.end].key == rule.until))
  }

  /** The place just behind the last item. */
  function Behind(start: nat, pos: seq<nat>): nat
    decreases |pos|
  {
    if pos == [] then start else Behind(pos[0] + 1, pos[1..])
  }

  /** The items of a stretch of attributes, skip keys left out. */
  function Shown(s: seq<Attribute>): MatchedResult {
    if s == [] then [] else (if ShouldSkipKey(s[0].key) then [] else [Item(s[0])]) + Shown(s[1..])
  }

  ghost predicate PlainItems(items: seq<RuleItem>) {
    forall i :: 0 <= i < |items| ==> !ShouldSkipKey(items[i].key)
  }

  /** The items match from a place on: the code opens there or, for items that are not skip
      keys, there are places that match them in order at all. */
  ghost predicate Occurs(items: seq<RuleItem>, attrs: seq<Attribute>, p: nat) {
    || (p + |items| <= |attrs| && Open(items, attrs[p..], -1).Opening?)
    || (PlainItems(items) && exists pos: seq<nat> :: Opens(items, attrs, p, pos, -1))
  }

  /** The rule's items occur at none of the places from `lo` to `hi`. */
  ghost predicate NoneOpens(rule: Rule, attrs: seq<Attribute>, lo: nat, hi: nat) {
    forall p: nat :: lo <= p < hi ==> !Occurs(rule.items, attrs, p)
  }

  lemma {:induction false} OpensFits(items: seq<RuleItem>, attrs: seq<Attribute>, start: nat, pos: seq<nat>,
                                     msgIndex: int)
    requires Opens(items, attrs, start, pos, msgIndex)
    ensures |pos| == |items| && (items != [] ==> start <= pos[0] && pos[0] + |items| <= |attrs|)
  {
    if items != [] { OpensFits(items[1..], attrs, pos[0] + 1, pos[1..], attrs[pos[0]].msgIndex); }
  }

  /** The code misses no opening: places that match plain items in order are found. */
  lemma {:induction false} OpensGiveOpening(items: seq<RuleItem>, attrs: seq<Attribute>, start: nat, pos: seq<nat>,
                                            msgIndex: int)
    requires PlainItems(items) && start + |items| <= |attrs| && Opens(items, attrs, start, pos, msgIndex)
    ensures Open(items, attrs[start..], msgIndex).Opening?
  {
    if items != [] {
      var p := pos[0];
      OpensFits(items, attrs, start, pos, msgIndex);
      assert !ShouldSkipKey(attrs[p].key);
      OpenAt(items, attrs, 0, start, p, msgIndex);
      assert items[0..] == items;
      OpensGiveOpening(items[1..], attrs, p + 1, pos[1..], attrs[p].msgIndex);
    }
  }

  lemma {:induction false} NotOpenNotOccurs(items: seq<RuleItem>, attrs: seq<Attribute>, p: nat)
    requires items != [] && (p + |items| <= |attrs| ==> Open(items, attrs[p..], -1).NoOpening?)
    ensures !Occurs(items, attrs, p)
  {
    if PlainItems(items) {
      if pos: seq<nat> :| Opens(items, attrs, p, pos, -1) {
        OpensFits(items, attrs, p, pos, -1);
        OpensGiveOpening(items, attrs, p, pos, -1);
      }
    }
  }

  /** The matches in order, disjoint, with nothing that opens between them or after the last. */
  ghost predicate Tiles(rule: Rule, attrs: seq<Attribute>, from: nat, spans: seq<Span>, results: seq<MatchedResult>)
    requires rule.items != []
    decreases |spans|
  {
    |spans| == |results| &&
    if spans == [] then NoneOpens(rule, attrs, from, |attrs|) else
      && from <= spans[0].start && NoneOpens(rule, attrs, from, spans[0].start)
      && IsMatch(rule, attrs, spans[0], results[0])
      && Tiles(rule, attrs, spans[0].end, spans[1..], results[1..])
  }

  lemma {:induction false} OpensCons(items: seq<RuleItem>, attrs: seq<Attribute>, start: nat, p: nat, msgIndex: int,
                                     q: seq<nat>)
    requires items != [] && p < |attrs| && InReach(attrs, start, p) && items[0].Match(attrs[p])
    requires msgIndex == -1 || attrs[p].msgIndex == msgIndex
    requires Opens(items[1..], attrs, p + 1, q, attrs[p].msgIndex)
    ensures Opens(items, attrs, start, [p] + q, msgIndex)
    ensures ItemsAt(attrs, [p] + q) == [Item(attrs[p])] + ItemsAt(attrs, q)
    ensures Behind(start, [p] + q) == Behind(p + 1, q)
  {
    assert ([p] + q)[1..] == q;
  }

  /** Where the first item of an opening is matched. */
  lemma OpenHead(items: seq<RuleItem>, attrs: seq<Attribute>, start: nat, msgIndex: int) returns (p: nat)
    requires items != [] && start + |items| <= |attrs| && Open(items, attrs[start..], msgIndex).Opening?
    ensures p + |items| <= |attrs| && InReach(attrs, start, p) && items[0].Match(attrs[p])
    ensures msgIndex == -1 || attrs[p].msgIndex == msgIndex
    ensures Open(items, attrs[start..], msgIndex) ==
            Prepend([Item(attrs[p])], Open(items[1..], attrs[p + 1..], attrs[p].msgIndex))
  {
    p := if ShouldSkipKey(attrs[start].key) && start + |items| < |attrs| then start + 1 else start;
    OpenAt(items, attrs, 0, start, p, msgIndex);
    assert items[0..] == items;
  }

  lemma {:induction false} OpenPositions(items: seq<RuleItem>, attrs: seq<Attribute>, start: nat, msgIndex: int)
    returns (pos: seq<nat>)
    requires start + |items| <= |attrs| && Open(items, attrs[start..], msgIndex).Opening?
    ensures Opens(items, attrs, start, pos, msgIndex) && |pos| == |items|
    ensures var o := Open(items, attrs[start..], msgIndex);
            o.items == ItemsAt(attrs, pos) && Behind(start, pos) <= |attrs| && o.rest == attrs[Behind(start, pos)..]
    decreases |items|
  {
    if items == [] {
      pos := [];
    } else {
      var p := OpenHead(items, attrs, start, msgIndex);
      var q := OpenPositions(items[1..], attrs, p + 1, attrs[p].msgIndex);
      pos := [p] + q;
      OpensCons(items, attrs, start, p, msgIndex, q);
      assert Behind(start, pos) == Behind(p + 1, q);
    }
  }

  lemma {:induction false} UntilKeys(until: string, s: seq<Attribute>)
    ensures var k := |s| - |After(until, s)|;
            (forall i :: 0 <= i < k ==> s[i].key != until) && (k < |s| ==> s[k].key == until)
  {
    if s != [] && s[0].key != until {
      UntilKeys(until, s[1..]);
      var k := |s| - |After(until, s)|;
      assert forall i :: 1 <= i < k ==> s[i] == s[1..][i - 1];
    }
  }

  lemma {:induction false} TailShown(until: string, s: seq<Attribute>)
    ensures Tail(until, s) == Shown(s[..|s| - |After(until, s)|])
  {
    if s != [] && s[0].key != until {
      TailShown(until, s[1..]);
      var k := |s| - |After(until, s)|;
      assert s[..k][1..] == s[1..][..k - 1];
    }
  }

  lemma {:induction false} UntilAt(until: string, attrs: seq<Attribute>, mid: nat)
    requires mid <= |attrs|
    ensures var end := |attrs| - |After(until, attrs[mid..])|;
            && mid <= end <= |attrs|
            && (forall i :: mid <= i < end ==> attrs[i].key != until)
            && (end < |attrs| ==> attrs[end].key == until)
  {
    UntilKeys(until, attrs[mid..]);
    assert forall i :: mid <= i < |attrs| ==> attrs[i] == attrs[mid..][i - mid];
  }

  lemma MatchHere(rule: Rule, attrs: seq<Attribute>, from: nat) returns (sp: Span)
    requires rule.items != [] && from + |rule.items| <= |attrs|
    requires Open(rule.items, attrs[from..], -1).Opening?
    ensures var o := Open(rule.items, attrs[from..], -1);
            && sp.start == from && sp.end <= |attrs|
            && attrs[sp.end..] == Next(rule, o.rest)
            && IsMatch(rule, attrs, sp, Whole(rule, o.items, o.rest))
  {
    var o := Open(rule.items, attrs[from..], -1);
    OpenSize(rule.items, attrs[from..], -1);
    var pos := OpenPositions(rule.items, attrs, from, -1);
    var mid := Behind(from, pos);
    var end := TailSpan(rule, attrs, mid, o.items);
    sp := Span(from, mid, end, pos);
  }

  lemma TailSpan(rule: Rule, attrs: seq<Attribute>, mid: nat, m: MatchedResult) returns (end: nat)
    requires mid <= |attrs|
    ensures mid <= end <= |attrs| && attrs[end..] == Next(rule, attrs[mid..])
    ensures Whole(rule, m, attrs[mid..]) == m + Shown(attrs[mid..end])
    ensures rule.until == "" ==> end == mid
    ensures rule.until != "" ==>
      (forall i :: mid <= i < end ==> attrs[i].key != rule.until) && (end < |attrs| ==> attrs[end].key == rule.until)
  {
    if rule.until == "" {
      end := mid;
      assert attrs[mid..mid] == [] && m + [] == m;
    } else {
      end := UntilSpan(rule.until, attrs, mid);
    }
  }

  lemma UntilSpan(until: string, attrs: seq<Attribute>, mid: nat) returns (end: nat)
    requires mid <= |attrs|
    ensures mid <= end <= |attrs| && attrs[end..] == After(until, attrs[mid..])
    ensures Tail(until, attrs[mid..]) == Shown(attrs[mid..end])
    ensures (forall i :: mid <= i < end ==> attrs[i].key != until) && (end < |attrs| ==> attrs[end].key == until)
  {
    var rest := attrs[mid..];
    var k := |rest| - |After(until, rest)|;
    end := mid + k;
    AfterIsSuffix(until, rest);
    TailShown(until, rest);
    assert attrs[mid..end] == rest[..k] && attrs[end..] == rest[k..];
    UntilAt(until, attrs, mid);
  }

  /** Every result list is a leftmost-greedy tiling of the attribute list. */
  lemma {:induction false} ScanTiles(rule: Rule, attrs: seq<Attribute>, from: nat) returns (spans: seq<Span>)
    requires rule.items != [] && from <= |attrs|
    ensures Tiles(rule, attrs, from, spans, Scan(rule, attrs[from..]))
    decreases |attrs| - from
  {
    var s, n := attrs[from..], |rule.items|;
    if |s| < n {
      spans := [];
      forall p: nat | from <= p < |attrs| ensures !Occurs(rule.items, attrs, p) {
        NotOpenNotOccurs(rule.items, attrs, p);
      }
    } else {
      var o := Open(rule.items, s, -1);
      assert s[1..] == attrs[from + 1..];
      OpenSize(rule.items, s, -1);
      if o.NoOpening? {
        spans := ScanTiles(rule, attrs, from + 1);
        NotOpenNotOccurs(rule.items, attrs, from);
      } else {
        var sp := MatchHere(rule, attrs, from);
        var more := ScanTiles(rule, attrs, sp.end);
        spans := [sp] + more;
        assert Scan(rule, s) == [Whole(rule, o.items, o.rest)] + Scan(rule, attrs[sp.end..]);
      }
    }
  }
}
