/** Skip keys in a log: which scattered ones a rule cannot see (shouldSkipKey in
    pkg/eventlog/finder.go). */
module SkipKeys {
  import opened EventLog

  /** The attributes that are not skip keys. */
  function Strip(s: seq<Attribute>): (r: seq<Attribute>)
    ensures |r| <= |s|
    ensures forall i :: 0 <= i < |r| ==> !ShouldSkipKey(r[i].key)
  {
    if s == [] then [] else if ShouldSkipKey(s[0].key) then Strip(s[1..]) else [s[0]] + Strip(s[1..])
  }

  predicate IsPlain(a: Attribute) {
    !ShouldSkipKey(a.key)
  }

  /** A match may go on from `a` to `b`: the message is unknown or stays the same. */
  predicate Linked(a: Attribute, b: Attribute) {
    a.msgIndex == -1 || a.msgIndex == b.msgIndex
  }

  predicate SkipsBetween(s: seq<Attribute>, i: int, k: int)
    requires -1 <= i && k <= |s|
  {
    forall j :: i < j < k ==> ShouldSkipKey(s[j].key)
  }

  /** Two or more skip keys stand between neighbours that a match could join. */
  ghost predicate LinkedGap(s: seq<Attribute>, i: int, k: int) {
    && 0 <= i && i + 2 < k < |s| && IsPlain(s[i]) && IsPlain(s[k]) && SkipsBetween(s, i, k) && Linked(s[i], s[k])
  }

  ghost predicate NoLinkedGap(s: seq<Attribute>) {
    forall i, k :: !LinkedGap(s, i, k)
  }

  predicate PlainRule(rule: Rule) {
    rule.items != [] && !ShouldSkipKey(rule.until) &&
    forall i :: 0 <= i < |rule.items| ==> !ShouldSkipKey(rule.items[i].key)
  }

  // ---- without linked gaps, skip keys are invisible ----

  lemma SuffixNoLinkedGap(s: seq<Attribute>, d: nat)
    requires NoLinkedGap(s) && d <= |s|
    ensures NoLinkedGap(s[d..])
  {
    if i, k :| LinkedGap(s[d..], i, k) {
      assert forall j :: 0 <= j < |s| - d ==> s[d..][j] == s[d + j];
      forall j | i + d < j < k + d ensures ShouldSkipKey(s[j].key) { assert s[d..][j - d] == s[j]; }
      assert LinkedGap(s, i + d, k + d);
    }
  }

  /** Where the first plain attribute is. */
  lemma {:induction false} FirstPlain(s: seq<Attribute>) returns (k: nat)
    requires Strip(s) != []
    ensures k < |s| && IsPlain(s[k]) && s[k] == Strip(s)[0] && SkipsBetween(s, -1, k)
    ensures Strip(s) == [s[k]] + Strip(s[k + 1..])
  {
    if IsPlain(s[0]) {
      k := 0;
    } else {
      k := FirstPlain(s[1..]);
      k := k + 1;
      assert s[1..][k..] == s[k + 1..];
      assert forall j :: 0 < j < k ==> s[1..][j - 1] == s[j];
    }
  }

  predicate TwoSkips(s: seq<Attribute>) {
    |s| >= 2 && ShouldSkipKey(s[0].key) && ShouldSkipKey(s[1].key)
  }

  /** The comparison gets over at most one skip key, so two of them must not stand before an
      attribute it would take. */
  predicate HeadReached(items: seq<RuleItem>, s: seq<Attribute>, msgIndex: int) {
    TwoSkips(s) && items != [] && Strip(s) != [] ==> msgIndex != -1 && Strip(s)[0].msgIndex != msgIndex
  }

  lemma BehindIsReached(items: seq<RuleItem>, s: seq<Attribute>, d: nat)
    requires NoLinkedGap(s) && d < |s| && IsPlain(s[d])
    ensures HeadReached(items, s[d + 1..], s[d].msgIndex)
  {
    var rest := s[d + 1..];
    if TwoSkips(rest) && Strip(rest) != [] {
      var k := FirstPlain(rest);
      assert rest[0] == s[d + 1] && rest[1] == s[d + 2] && rest[k] == s[d + 1 + k];
      forall j | d < j < d + 1 + k ensures ShouldSkipKey(s[j].key) { assert rest[j - d - 1] == s[j]; }
      assert !LinkedGap(s, d, d + 1 + k);
    }
  }

  function StripOpening(o: Opening): Opening {
    if o.NoOpening? then NoOpening else Opening(o.items, Strip(o.rest))
  }

  /** Opening a match sees through skip keys; it fails when too few other attributes are left. */
  lemma {:induction false} OpenStrip(items: seq<RuleItem>, s: seq<Attribute>, msgIndex: int)
    requires PlainItems(items) && NoLinkedGap(s) && |items| <= |s| && HeadReached(items, s, msgIndex)
    ensures StripOpening(Open(items, s, msgIndex)) ==
            if |items| <= |Strip(s)| then Open(items, Strip(s), msgIndex) else NoOpening
    decreases |items|
  {
    if items != [] && !TwoSkips(s) {
      var d := if ShouldSkipKey(s[0].key) && |items| < |s| then 1 else 0;
      if IsPlain(s[d]) {
        if d == 1 { assert s[1..][1..] == s[2..]; }
        assert Strip(s) == [s[d]] + Strip(s[d + 1..]);
        BehindIsReached(items[1..], s, d);
        SuffixNoLinkedGap(s, d + 1);
        OpenStrip(items[1..], s[d + 1..], s[d].msgIndex);
      } else {
        assert d == 0 && |Strip(s)| < |items|;
      }
    }
  }

  lemma {:induction false} TailStrip(until: string, s: seq<Attribute>)
    requires !ShouldSkipKey(until)
    ensures Tail(until, Strip(s)) == Tail(until, s)
    ensures After(until, Strip(s)) == Strip(After(until, s))
  {
    if s != [] && s[0].key != until { TailStrip(until, s[1..]); }
    if s != [] && !ShouldSkipKey(s[0].key) { assert Strip(s)[1..] == Strip(s[1..]); }
  }

  lemma {:induction false} StripBehindMatch(rule: Rule, s: seq<Attribute>)
    requires PlainRule(rule) && NoLinkedGap(s) && |rule.items| <= |s| && Open(rule.items, s, -1).Opening?
    ensures var o := Open(rule.items, s, -1);
            && NoLinkedGap(Next(rule, o.rest))
            && Whole(rule, o.items, Strip(o.rest)) == Whole(rule, o.items, o.rest)
            && Next(rule, Strip(o.rest)) == Strip(Next(rule, o.rest))
  {
    var o := Open(rule.items, s, -1);
    TailStrip(rule.until, o.rest);
    OpenIsSuffix(rule.items, s, -1);
    SuffixNoLinkedGap(s, |s| - |o.rest|);
    NextIsSuffix(rule, o.rest);
    SuffixNoLinkedGap(o.rest, |o.rest| - |Next(rule, o.rest)|);
  }

  lemma NextIsSuffix(rule: Rule, rest: seq<Attribute>)
    ensures Next(rule, rest) == rest[|rest| - |Next(rule, rest)|..]
  {
    AfterIsSuffix(rule.until, rest);
  }

  /** Scattered `msg_index` and `token_id` attributes without a linked gap change no result of
      any rule that does not itself name them. */
  lemma {:induction false} SkipKeysInvisible(rule: Rule, s: seq<Attribute>)
    requires PlainRule(rule) && NoLinkedGap(s)
    ensures Scan(rule, s) == Scan(rule, Strip(s))
    decreases |s|
  {
    if |s| >= |rule.items| {
      var o := Open(rule.items, s, -1);
      OpenSize(rule.items, s, -1);
      if TwoSkips(s) {
        SuffixNoLinkedGap(s, 1);
        SkipKeysInvisible(rule, s[1..]);
        assert o.NoOpening?;
      } else {
        OpenStrip(rule.items, s, -1);
        if o.NoOpening? {
          SuffixNoLinkedGap(s, 1);
          SkipKeysInvisible(rule, s[1..]);
          if !ShouldSkipKey(s[0].key) { assert Strip(s)[1..] == Strip(s[1..]); }
        } else {
          StripBehindMatch(rule, s);
          SkipKeysInvisible(rule, Next(rule, o.rest));
        }
      }
    }
  }

  // ---- a linked gap is visible to some rule ----

  lemma {:induction false} StripConcat(a: seq<Attribute>, b: seq<Attribute>)
    ensures Strip(a + b) == Strip(a) + Strip(b)
  {
    if a == [] {
      assert a + b == b;
    } else {
      assert (a + b)[1..] == a[1..] + b;
      StripConcat(a[1..], b);
    }
  }

  lemma StripCut(s: seq<Attribute>, a: nat, b: nat, c: nat)
    requires a <= b <= c <= |s|
    ensures Strip(s[a..c]) == Strip(s[a..b]) + Strip(s[b..c])
  {
    assert s[a..c] == s[a..b] + s[b..c];
    StripConcat(s[a..b], s[b..c]);
  }

  lemma StripOne(s: seq<Attribute>, i: nat)
    requires i < |s| && IsPlain(s[i])
    ensures Strip(s[i..i + 1]) == [s[i]]
  {
    assert s[i..i + 1] == [s[i]];
    assert Strip([]) == [];
  }

  lemma {:induction false} StripSkips(s: seq<Attribute>, i: nat, k: nat)
    requires i <= k <= |s| && SkipsBetween(s, i - 1, k)
    ensures Strip(s[i..k]) == []
    decreases k - i
  {
    if i < k {
      StripSkips(s, i + 1, k);
      assert s[i..k][1..] == s[i + 1..k];
    }
  }

  lemma {:induction false} StripBehindSkips(s: seq<Attribute>, a: nat, b: nat, c: nat)
    requires a <= b <= c <= |s| && SkipsBetween(s, a - 1, b)
    ensures Strip(s[a..c]) == Strip(s[b..c])
  {
    StripCut(s, a, b, c);
    StripSkips(s, a, b);
  }

  /** What opens in a log opens in the log without its skip keys. */
  lemma {:induction false} OpenThroughStrip(items: seq<RuleItem>, s: seq<Attribute>, msgIndex: int)
    requires PlainItems(items) && |items| <= |s| && Open(items, s, msgIndex).Opening?
    ensures var o := Open(items, s, msgIndex);
            |items| <= |Strip(s)| && Open(items, Strip(s), msgIndex) == Opening(o.items, Strip(o.rest))
    decreases |items|
  {
    if items != [] {
      var d := if ShouldSkipKey(s[0].key) && |items| < |s| then 1 else 0;
      if d == 1 { assert s[1..][1..] == s[2..]; }
      assert Strip(s) == [s[d]] + Strip(s[d + 1..]);
      OpenThroughStrip(items[1..], s[d + 1..], s[d].msgIndex);
    }
  }

  predicate AllPlain(s: seq<Attribute>) {
    forall i :: 0 <= i < |s| ==> IsPlain(s[i])
  }

  /** Without skip keys an opening takes one attribute per item. */
  lemma {:induction false} OpenTakesItems(items: seq<RuleItem>, s: seq<Attribute>, msgIndex: int)
    requires AllPlain(s) && |items| <= |s| && Open(items, s, msgIndex).Opening?
    ensures Open(items, s, msgIndex).rest == s[|items|..]
    decreases |items|
  {
    if items != [] {
      OpenTakesItems(items[1..], s[1..], s[0].msgIndex);
      assert s[1..][|items| - 1..] == s[|items|..];
    }
  }

  /** One step of the count of matches of a rule without an `until` key. */
  lemma {:induction false} CountStep(rule: Rule, s: seq<Attribute>)
    requires rule.items != [] && rule.until == ""
    ensures |s| < |rule.items| ==> |Scan(rule, s)| == 0
    ensures |s| >= |rule.items| ==>
              var o := Open(rule.items, s, -1);
              |Scan(rule, s)| == if o.NoOpening? then |Scan(rule, s[1..])| else 1 + |Scan(rule, o.rest)|
  {
  }

  /** Matches all have the same length, so starting later never finds more of them. */
  lemma {:induction false} StartingLaterFindsLess(rule: Rule, s: seq<Attribute>, d: nat)
    requires rule.items != [] && rule.until == "" && AllPlain(s) && d <= |s|
    ensures |Scan(rule, s)| >= |Scan(rule, s[d..])|
    decreases |s|, 1, 0
  {
    var n := |rule.items|;
    CountStep(rule, s);
    if d == 0 {
      assert s[0..] == s;
    } else if |s| < n {
      CountStep(rule, s[d..]);
    } else if Open(rule.items, s, -1).NoOpening? {
      StartingLaterFindsLess(rule, s[1..], d - 1);
      assert s[1..][d - 1..] == s[d..];
    } else {
      OpenTakesItems(rule.items, s, -1);
      if d >= n {
        StartingLaterFindsLess(rule, s[n..], d - n);
        assert s[n..][d - n..] == s[d..];
      } else {
        AtMostOneMore(rule, s, d);
      }
    }
  }

  /** Inside a match at most one match more begins than behind it. */
  lemma {:induction false} AtMostOneMore(rule: Rule, s: seq<Attribute>, d: nat)
    requires rule.items != [] && rule.until == "" && AllPlain(s) && 0 < d <= |rule.items| <= |s|
    ensures |Scan(rule, s[d..])| <= 1 + |Scan(rule, s[|rule.items|..])|
    decreases |s|, 0, |rule.items| - d
  {
    var n := |rule.items|;
    var x := s[d..];
    CountStep(rule, x);
    if d < n && |x| >= n {
      if Open(rule.items, x, -1).NoOpening? {
        assert x[1..] == s[d + 1..];
        AtMostOneMore(rule, s, d + 1);
      } else {
        OpenTakesItems(rule.items, x, -1);
        assert x[n..] == s[n..][d..];
        StartingLaterFindsLess(rule, s[n..], d);
      }
    }
  }

  /** Skip keys never add a match. */
  lemma {:induction false} SkipKeysNeverAdd(rule: Rule, s: seq<Attribute>)
    requires PlainRule(rule) && rule.until == ""
    ensures |Scan(rule, s)| <= |Scan(rule, Strip(s))|
    decreases |s|
  {
    CountStep(rule, s);
    if |s| >= |rule.items| {
      CountStep(rule, Strip(s));
      if Open(rule.items, s, -1).Opening? {
        OpenThroughStrip(rule.items, s, -1);
        OpenSize(rule.items, s, -1);
        SkipKeysNeverAdd(rule, Open(rule.items, s, -1).rest);
      } else {
        SkipKeysNeverAdd(rule, s[1..]);
        StripTail(rule, s);
      }
    }
  }

  lemma {:induction false} StripTail(rule: Rule, s: seq<Attribute>)
    requires rule.items != [] && rule.until == "" && s != []
    ensures |Scan(rule, Strip(s[1..]))| <= |Scan(rule, Strip(s))|
  {
    if IsPlain(s[0]) {
      assert Strip(s)[1..] == Strip(s[1..]);
      StartingLaterFindsLess(rule, Strip(s), 1);
    }
  }

  // ---- places a match cannot cross ----

  /** No step of a match goes from before `x` to `x` or behind it. */
  ghost predicate Barrier(s: seq<Attribute>, x: nat) {
    forall c, d :: !Crosses(s, x, c, d)
  }

  ghost predicate Crosses(s: seq<Attribute>, x: nat, c: int, d: int) {
    && 0 <= c < x <= d < |s| && InReach(s, c + 1, d)
    && IsPlain(s[c]) && IsPlain(s[d]) && Linked(s[c], s[d])
  }

  lemma {:induction false} OpensStops(items: seq<RuleItem>, s: seq<Attribute>, p: nat, pos: seq<nat>, msgIndex: int,
                                      x: nat)
    requires PlainItems(items) && Opens(items, s, p, pos, msgIndex) && pos != [] && pos[0] < x && Barrier(s, x)
    ensures Behind(p, pos) <= x
  {
    if |items| > 1 {
      var rest := pos[1..];
      assert Opens(items[1..], s, pos[0] + 1, rest, s[pos[0]].msgIndex);
      assert items[1..][0].Match(s[rest[0]]) && items[0].Match(s[pos[0]]);
      assert !Crosses(s, x, pos[0], rest[0]);
      OpensStops(items[1..], s, pos[0] + 1, rest, s[pos[0]].msgIndex, x);
    }
  }

  /** The places of an opening are plain attributes before its end. */
  lemma {:induction false} OpensCount(items: seq<RuleItem>, s: seq<Attribute>, p: nat, pos: seq<nat>, msgIndex: int,
                                      b: nat)
    requires PlainItems(items) && Opens(items, s, p, pos, msgIndex) && p <= Behind(p, pos) <= b <= |s|
    ensures |items| <= |Strip(s[p..b])|
  {
    if items != [] {
      var q := pos[0];
      OpensForward(items[1..], s, q + 1, pos[1..], s[q].msgIndex);
      OpensCount(items[1..], s, q + 1, pos[1..], s[q].msgIndex, b);
      StripCut(s, p, q, b);
      StripCut(s, q, q + 1, b);
      StripOne(s, q);
    }
  }

  lemma {:induction false} OpensForward(items: seq<RuleItem>, s: seq<Attribute>, p: nat, pos: seq<nat>, msgIndex: int)
    requires Opens(items, s, p, pos, msgIndex)
    ensures p <= Behind(p, pos)
  {
    if items != [] { OpensForward(items[1..], s, pos[0] + 1, pos[1..], s[pos[0]].msgIndex); }
  }

  lemma GapIsBarrier(s: seq<Attribute>, i: nat, k: nat)
    requires LinkedGap(s, i, k)
    ensures Barrier(s, i + 1)
  {
  }

  // ---- the linked run around a gap ----

  ghost predicate LinkedRun(t: seq<Attribute>) {
    forall j: nat :: LinkedAt(t, j)
  }

  predicate LinkedAt(t: seq<Attribute>, j: nat) {
    j + 1 < |t| ==> Linked(t[j], t[j + 1])
  }

  lemma {:induction false} RunsJoin(a: seq<Attribute>, b: seq<Attribute>)
    requires a != [] && b != [] && LinkedRun(a) && LinkedRun(b) && Linked(a[|a| - 1], b[0])
    ensures LinkedRun(a + b)
  {
    var t := a + b;
    forall j: nat ensures LinkedAt(t, j) {
      if j + 1 < |a| {
        assert LinkedAt(a, j);
      } else if j >= |a| {
        assert LinkedAt(b, j - |a|);
      }
    }
  }

  /** Linked runs on the two sides of skip keys make one run. */
  lemma {:induction false} RunsMeet(s: seq<Attribute>, e: nat, i: nat, k: nat, f: nat)
    requires e <= i < k < f <= |s| && IsPlain(s[i]) && IsPlain(s[k]) && SkipsBetween(s, i, k) && Linked(s[i], s[k])
    requires var a, b := Strip(s[e..i + 1]), Strip(s[k..f]);
             a != [] && b != [] && LinkedRun(a) && LinkedRun(b) && a[|a| - 1] == s[i] && b[0] == s[k]
    ensures Strip(s[e..f]) == Strip(s[e..i + 1]) + Strip(s[k..f]) && LinkedRun(Strip(s[e..f]))
  {
    StripCut(s, e, i + 1, f);
    StripBehindSkips(s, i + 1, k, f);
    RunsJoin(Strip(s[e..i + 1]), Strip(s[k..f]));
  }

  lemma {:induction false} OneIsRun(a: Attribute)
    ensures LinkedRun([a])
  {
    forall j: nat ensures LinkedAt([a], j) {}
  }

  /** Where the nearest plain attribute before `i` is not linked to it, no match crosses. */
  lemma {:induction false} UnlinkedIsBarrier(s: seq<Attribute>, c: int, i: nat)
    requires i < |s| && IsPlain(s[i]) && -1 <= c < i && SkipsBetween(s, c, i)
    requires c >= 0 ==> IsPlain(s[c]) && !Linked(s[c], s[i])
    ensures Barrier(s, i)
  {
  }

  /** The start of the linked run that ends at `i`. */
  lemma {:induction false} LeftEnd(s: seq<Attribute>, i: nat) returns (e: nat)
    requires i < |s| && IsPlain(s[i])
    ensures e <= i && IsPlain(s[e]) && Barrier(s, e)
    ensures var t := Strip(s[e..i + 1]); t != [] && LinkedRun(t) && t[|t| - 1] == s[i]
    decreases i
  {
    var c := PlainBefore(s, i);
    StripOne(s, i);
    OneIsRun(s[i]);
    if c < 0 || !Linked(s[c], s[i]) {
      e := i;
      UnlinkedIsBarrier(s, c, i);
    } else {
      e := LeftEnd(s, c);
      RunsMeet(s, e, c, i, i + 1);
    }
  }

  /** The nearest plain attribute before `i`, -1 if there is none. */
  lemma {:induction false} PlainBefore(s: seq<Attribute>, i: nat) returns (c: int)
    requires i <= |s|
    ensures -1 <= c < i && (c >= 0 ==> IsPlain(s[c])) && SkipsBetween(s, c, i)
    decreases i
  {
    if i == 0 {
      c := -1;
    } else if IsPlain(s[i - 1]) {
      c := i - 1;
    } else {
      c := PlainBefore(s, i - 1);
    }
  }

  /** The nearest plain attribute from `i` on, the length if there is none. */
  lemma {:induction false} PlainFrom(s: seq<Attribute>, i: nat) returns (d: nat)
    requires i <= |s|
    ensures i <= d <= |s| && (d < |s| ==> IsPlain(s[d])) && SkipsBetween(s, i - 1, d)
    decreases |s| - i
  {
    if i == |s| || IsPlain(s[i]) {
      d := i;
    } else {
      d := PlainFrom(s, i + 1);
    }
  }

  /** The end of the linked run that starts at `k`. */
  lemma {:induction false} RightEnd(s: seq<Attribute>, k: nat) returns (f: nat)
    requires k < |s| && IsPlain(s[k])
    ensures k < f <= |s| && IsPlain(s[f - 1]) && Barrier(s, f)
    ensures var t := Strip(s[k..f]); t != [] && LinkedRun(t) && t[0] == s[k]
    decreases |s| - k
  {
    var d := PlainFrom(s, k + 1);
    StripOne(s, k);
    OneIsRun(s[k]);
    if d == |s| || !Linked(s[k], s[d]) {
      f := k + 1;
    } else {
      f := RightEnd(s, d);
      RunsMeet(s, k, k, d, f);
    }
  }

  /** The rule that asks for exactly these attributes. */
  function RuleFor(t: seq<Attribute>): Rule {
    Rule("", ItemsFor(t), "")
  }

  function ItemsFor(t: seq<Attribute>): (items: seq<RuleItem>)
    ensures |items| == |t| && forall i :: 0 <= i < |t| ==> items[i] == RuleItem(t[i].key, Equals(t[i].value))
  {
    seq(|t|, i requires 0 <= i < |t| => RuleItem(t[i].key, Equals(t[i].value)))
  }

  lemma {:induction false} RunOpens(t: seq<Attribute>, rest: seq<Attribute>, msgIndex: int)
    requires AllPlain(t) && LinkedRun(t) && (t != [] ==> msgIndex == -1 || t[0].msgIndex == msgIndex)
    ensures Open(ItemsFor(t), t + rest, msgIndex).Opening? && Open(ItemsFor(t), t + rest, msgIndex).rest == rest
    decreases |t|
  {
    if t == [] {
      assert t + rest == rest;
    } else {
      assert (t + rest)[1..] == t[1..] + rest && ItemsFor(t)[1..] == ItemsFor(t[1..]);
      forall j: nat ensures LinkedAt(t[1..], j) { assert LinkedAt(t, j + 1); }
      assert t[1..] != [] ==> LinkedAt(t, 0);
      RunOpens(t[1..], rest, t[0].msgIndex);
    }
  }

  /** An opening that starts before a barrier has no more items than plain attributes up to it. */
  lemma {:induction false} OpeningEndsAtBarrier(items: seq<RuleItem>, s: seq<Attribute>, p: nat, pos: seq<nat>, x: nat)
    requires items != [] && PlainItems(items) && Opens(items, s, p, pos, -1) && pos[0] < x <= |s| && Barrier(s, x)
    ensures |items| <= |Strip(s[p..x])|
  {
    OpensForward(items, s, p, pos, -1);
    OpensStops(items, s, p, pos, -1, x);
    OpensCount(items, s, p, pos, -1, x);
  }

  lemma {:induction false} OpeningFromItsFirst(items: seq<RuleItem>, s: seq<Attribute>, p: nat, pos: seq<nat>)
    requires items != [] && Opens(items, s, p, pos, -1)
    ensures Opens(items, s, pos[0], pos, -1)
  {
  }

  /** The first place of an opening is plain, so it is not inside a gap. */
  lemma {:induction false} OpeningAvoidsGap(items: seq<RuleItem>, s: seq<Attribute>, p: nat, pos: seq<nat>, i: nat,
                                            k: nat)
    requires items != [] && PlainItems(items) && Opens(items, s, p, pos, -1) && LinkedGap(s, i, k)
    ensures pos[0] <= i || k <= pos[0]
  {
    assert items[0].Match(s[pos[0]]);
  }

  /** What opens inside the run of a gap stays on one side of the gap. */
  lemma {:induction false} OpeningInRunIsShort(s: seq<Attribute>, items: seq<RuleItem>, e: nat, i: nat, k: nat,
                                               f: nat, p: nat)
    requires LinkedGap(s, i, k) && e <= i && k < f <= |s| && IsPlain(s[f - 1]) && Barrier(s, f) && e <= p < f
    requires items != [] && PlainItems(items) && p + |items| <= |s| && Open(items, s[p..], -1).Opening?
    ensures |items| <= |Strip(s[e..i + 1])| || |items| <= |Strip(s[k..f])|
  {
    var pos := OpenPositions(items, s, p, -1);
    ShortLeft(items, s, e, i, k, p, pos);
    ShortRight(items, s, i, k, f, p, pos);
  }

  lemma {:induction false} ShortLeft(items: seq<RuleItem>, s: seq<Attribute>, e: nat, i: nat, k: nat, p: nat,
                                     pos: seq<nat>)
    requires LinkedGap(s, i, k) && e <= p && items != [] && PlainItems(items) && Opens(items, s, p, pos, -1)
    ensures pos[0] <= i ==> |items| <= |Strip(s[e..i + 1])|
  {
    if pos[0] <= i {
      GapIsBarrier(s, i, k);
      ShortBeforeBarrier(items, s, e, p, pos, i + 1);
    }
  }

  lemma {:induction false} ShortRight(items: seq<RuleItem>, s: seq<Attribute>, i: nat, k: nat, f: nat, p: nat,
                                      pos: seq<nat>)
    requires LinkedGap(s, i, k) && k < f <= |s| && IsPlain(s[f - 1]) && Barrier(s, f) && p < f
    requires items != [] && PlainItems(items) && Opens(items, s, p, pos, -1)
    ensures pos[0] > i ==> |items| <= |Strip(s[k..f])|
  {
    if pos[0] > i {
      OpeningAvoidsGap(items, s, p, pos, i, k);
      FirstBeforeEnd(items, s, p, pos, f);
      OpeningFromItsFirst(items, s, p, pos);
      ShortBeforeBarrier(items, s, k, pos[0], pos, f);
    }
  }

  lemma {:induction false} ShortBeforeBarrier(items: seq<RuleItem>, s: seq<Attribute>, e: nat, p: nat, pos: seq<nat>,
                                              x: nat)
    requires items != [] && PlainItems(items) && Opens(items, s, p, pos, -1) && pos[0] < x <= |s| && Barrier(s, x)
    requires e <= p
    ensures |items| <= |Strip(s[e..x])|
  {
    assert p < x;
    OpeningEndsAtBarrier(items, s, p, pos, x);
    StripCut(s, e, p, x);
  }

  /** The comparison skips at most one attribute, and that a skip key. */
  lemma {:induction false} FirstBeforeEnd(items: seq<RuleItem>, s: seq<Attribute>, p: nat, pos: seq<nat>, f: nat)
    requires items != [] && Opens(items, s, p, pos, -1) && p < f <= |s| && IsPlain(s[f - 1])
    ensures pos[0] < f
  {
  }

  /** In the log with the gap the rule for the whole run opens nowhere in the run. */
  lemma {:induction false} NothingOpensInRun(s: seq<Attribute>, items: seq<RuleItem>, e: nat, i: nat, k: nat, f: nat,
                                             p: nat)
    requires LinkedGap(s, i, k) && e <= i && k < f <= |s| && IsPlain(s[f - 1]) && Barrier(s, f) && e <= p < f
    requires items != [] && PlainItems(items) && p + |items| <= |s|
    ensures Open(items, s[p..], -1).Opening? ==> |items| <= |Strip(s[e..i + 1])| || |items| <= |Strip(s[k..f])|
  {
    if Open(items, s[p..], -1).Opening? {
      OpeningInRunIsShort(s, items, e, i, k, f, p);
    }
  }

  lemma {:induction false} ScanSkipsTo(rule: Rule, s: seq<Attribute>, e: nat, f: nat)
    requires rule.items != [] && rule.until == "" && e <= f <= |s|
    requires forall p: nat :: e <= p < f && p + |rule.items| <= |s| ==> Open(rule.items, s[p..], -1).NoOpening?
    ensures Scan(rule, s[e..]) == Scan(rule, s[f..])
    decreases f - e
  {
    if e < f {
      ScanSkipsTo(rule, s, e + 1, f);
      assert s[e..][1..] == s[e + 1..];
    }
  }

  /** From the start of the run on, the gap costs a match. */
  lemma {:induction false} GapCostsMatch(s: seq<Attribute>, e: nat, i: nat, k: nat, f: nat)
    requires LinkedGap(s, i, k) && e <= i && k < f <= |s| && IsPlain(s[e]) && IsPlain(s[f - 1]) && Barrier(s, f)
    requires LinkedRun(Strip(s[e..f])) && |Strip(s[e..f])| > |Strip(s[e..i + 1])| && |Strip(s[e..f])| > |Strip(s[k..f])|
    ensures var rule := RuleFor(Strip(s[e..f]));
            PlainRule(rule) && |Scan(rule, s[e..])| < |Scan(rule, Strip(s[e..]))|
  {
    var run := Strip(s[e..f]);
    var rule := RuleFor(run);
    assert PlainItems(rule.items);
    forall p: nat | e <= p < f && p + |rule.items| <= |s| ensures Open(rule.items, s[p..], -1).NoOpening? {
      NothingOpensInRun(s, rule.items, e, i, k, f, p);
    }
    ScanSkipsTo(rule, s, e, f);
    SkipKeysNeverAdd(rule, s[f..]);
    StripCut(s, e, f, |s|);
    assert s[e..|s|] == s[e..] && s[f..|s|] == s[f..];
    RunOpens(run, Strip(s[f..]), -1);
    CountStep(rule, Strip(s[e..]));
  }

  /** What is lost behind a barrier is lost from any place before it. */
  lemma {:induction false} LossIsKept(rule: Rule, s: seq<Attribute>, p: nat, e: nat)
    requires PlainRule(rule) && rule.until == "" && p <= e < |s| && IsPlain(s[e]) && Barrier(s, e)
    requires e + |rule.items| <= |s| ==> Open(rule.items, s[e..], -1).NoOpening?
    requires |Scan(rule, s[e..])| < |Scan(rule, Strip(s[e..]))|
    ensures |Scan(rule, s[p..])| < |Scan(rule, Strip(s[p..]))|
    decreases e - p
  {
    if p < e {
      var v := s[p..];
      assert v[1..] == s[p + 1..];
      CountStep(rule, Strip(s[e..]));
      assert |v| >= |rule.items|;
      CountStep(rule, v);
      CountStep(rule, Strip(v));
      if Open(rule.items, v, -1).Opening? {
        var q := OpeningEndsBefore(rule.items, s, p, e);
        OpenThroughStrip(rule.items, v, -1);
        LossIsKept(rule, s, q, e);
      } else {
        LossIsKept(rule, s, p + 1, e);
        StripTail(rule, v);
      }
    }
  }

  lemma {:induction false} OpeningEndsBefore(items: seq<RuleItem>, s: seq<Attribute>, p: nat, e: nat) returns (q: nat)
    requires items != [] && PlainItems(items) && p < e < |s| && IsPlain(s[e]) && Barrier(s, e) && p + |items| <= |s|
    requires e + |items| <= |s| ==> Open(items, s[e..], -1).NoOpening?
    requires Open(items, s[p..], -1).Opening?
    ensures p < q <= e && Open(items, s[p..], -1).rest == s[q..]
  {
    var pos := OpenPositions(items, s, p, -1);
    OpensFits(items, s, p, pos, -1);
    if pos[0] == e {
      assert Opens(items, s, e, pos, -1);
      OpensGiveOpening(items, s, e, pos, -1);
    }
    OpensStops(items, s, p, pos, -1, e);
    OpensForward(items[1..], s, pos[0] + 1, pos[1..], s[pos[0]].msgIndex);
    q := Behind(p, pos);
  }

  /** A linked gap hides a match from the rule for the linked run around it. */
  lemma {:induction false} LinkedGapIsVisible(s: seq<Attribute>, i: nat, k: nat) returns (rule: Rule)
    requires LinkedGap(s, i, k)
    ensures PlainRule(rule) && |Scan(rule, s)| < |Scan(rule, Strip(s))|
  {
    var e := LeftEnd(s, i);
    var f := RightEnd(s, k);
    var run := Strip(s[e..f]);
    rule := RuleFor(run);
    RunsMeet(s, e, i, k, f);
    GapCostsMatch(s, e, i, k, f);
    if e + |rule.items| <= |s| { NothingOpensInRun(s, rule.items, e, i, k, f, e); }
    LossIsKept(rule, s, 0, e);
    assert s[0..] == s;
  }

  /** Exactly the logs without a linked gap look to every rule as if they had no skip keys. */
  lemma {:induction false} InvisibleIffNoLinkedGap(s: seq<Attribute>)
    ensures (forall rule: Rule :: PlainRule(rule) ==> Scan(rule, s) == Scan(rule, Strip(s))) <==> NoLinkedGap(s)
  {
    if NoLinkedGap(s) {
      forall rule: Rule | PlainRule(rule) ensures Scan(rule, s) == Scan(rule, Strip(s)) { SkipKeysInvisible(rule, s); }
    } else {
      var i, k :| LinkedGap(s, i, k);
      var rule := LinkedGapIsVisible(s, i, k);
    }
  }

  /** Two skip keys side by side can hide a match, so the condition on them is needed. */
  lemma AdjacentSkipsHideMatch()
    ensures var a, b, x := Attribute("a", "1", 0), Attribute("b", "2", 0), Attribute(MSG_INDEX, "0", 0);
            var rule := Rule("wasm", [RuleItem("a", Any), RuleItem("b", Any)], "");
            PlainRule(rule) && Scan(rule, [a, b]) != [] && Scan(rule, [a, x, x, b]) == []
  {
    var a, b, x := Attribute("a", "1", 0), Attribute("b", "2", 0), Attribute(MSG_INDEX, "0", 0);
    var rule := Rule("wasm", [RuleItem("a", Any), RuleItem("b", Any)], "");
    assert rule.items[1..] == [RuleItem("b", Any)];
    assert [a, b][1..] == [b];
    assert Open(rule.items[1..], [b], 0) == Prepend([Item(b)], Open([], [], 0));
    assert Open(rule.items, [a, b], -1).Opening?;
    assert [a, x, x, b][1..] == [x, x, b] && [x, x, b][1..] == [x, b] && [x, b][1..] == [b];
    assert Open(rule.items[1..], [x, x, b], 0) == NoOpening;
    assert Open(rule.items, [a, x, x, b], -1) == NoOpening;
    assert Open(rule.items, [x, x, b], -1) == NoOpening;
    assert Open(rule.items, [x, b], -1) == NoOpening;
    assert Scan(rule, [a, x, x, b]) == Scan(rule, [x, x, b]);
    assert Scan(rule, [x, x, b]) == Scan(rule, [x, b]);
    assert Scan(rule, [x, b]) == Scan(rule, [b]);
  }
}
