/** Native transfer logs: normalise, match, and read back what the chain emitted
    (pkg/dex/logfinder.go, parser/dex/mapper.go). */
module Transfers {
  import opened Options
  import opened Results
  import opened EventLog
  import opened Regrouping

  const AMOUNT := "amount"
  const RECIPIENT := "recipient"
  const SENDER := "sender"
  const TRANSFER_KEYS: seq<string> := [AMOUNT, RECIPIENT, SENDER]

  /** One transfer record.  A multi-send output has no sender. */
  datatype Transfer = Transfer(amount: Attribute, recipient: Attribute, sender: Option<Attribute>)

  predicate WellFormed(t: Transfer) {
    && t.amount.key == AMOUNT && t.recipient.key == RECIPIENT
    && t.amount.msgIndex == t.recipient.msgIndex
    && (t.sender.Some? ==> t.sender.value.key == SENDER)
  }

  function Canon(t: Transfer): seq<Attribute> {
    [t.amount, t.recipient] + if t.sender.Some? then [t.sender.value] else []
  }

  /** `e` lists the attributes of `t`, each once, in any order. */
  ghost predicate Lists(e: seq<Attribute>, t: Transfer) {
    && WellFormed(t)
    && |e| == |Canon(t)| && DistinctKeys(e)
    && forall x :: x in e <==> x in Canon(t)
  }

  ghost predicate Emitted(es: seq<seq<Attribute>>, ts: seq<Transfer>) {
    |es| == |ts| && forall i :: 0 <= i < |ts| ==> Lists(es[i], ts[i])
  }

  function Flatten(es: seq<seq<Attribute>>): seq<Attribute> {
    if es == [] then [] else es[0] + Flatten(es[1..])
  }

  function Canons(ts: seq<Transfer>): seq<Attribute> {
    if ts == [] then [] else Canon(ts[0]) + Canons(ts[1..])
  }

  /** No pair set means that every recipient is taken. */
  function CreateTransferRule(pairs: Option<set<string>>): Rule {
    var filter := if pairs.None? then Any else Where(v => v in pairs.value);
    Rule("transfer", [RuleItem(AMOUNT, Any), RuleItem(RECIPIENT, filter)], AMOUNT)
  }

  predicate Taken(pairs: Option<set<string>>, t: Transfer) {
    pairs.Some? ==> t.recipient.value in pairs.value
  }

  /** The matches a reader of the records expects. */
  function Expected(pairs: Option<set<string>>, ts: seq<Transfer>): seq<MatchedResult> {
    if ts == [] then [] else
      (if Taken(pairs, ts[0]) then [Shown(Canon(ts[0]))] else []) + Expected(pairs, ts[1..])
  }

  /** One more record is one more match if its recipient is asked for: its amount and recipient, and
      its sender if it has one. */
  lemma {:induction false} ExpectedMore(pairs: Option<set<string>>, t: Transfer, ts: seq<Transfer>)
    requires WellFormed(t)
    ensures Expected(pairs, []) == []
    ensures Expected(pairs, [t] + ts) ==
            (if pairs.Some? && t.recipient.value !in pairs.value then []
             else [[Item(t.amount), Item(t.recipient)] + if t.sender.Some? then [Item(t.sender.value)] else []])
            + Expected(pairs, ts)
  {
    assert ([t] + ts)[1..] == ts;
    CanonItems(t);
  }

  method NormalizeTransferAttrs(attrs: seq<Attribute>) returns (sorted: seq<Attribute>)
    ensures sorted == Regroup(TRANSFER_KEYS, [], Select(TRANSFER_KEYS, attrs))
  {
    var r := SortAttributes(attrs, TRANSFER_KEYS);
    sorted := r.value;
  }

  method FindTransfers(pairs: Option<set<string>>, attrs: seq<Attribute>) returns (results: seq<MatchedResult>)
    ensures results == Found(pairs, attrs)
  {
    var sorted := NormalizeTransferAttrs(attrs);
    results := FindFromAttrs(CreateTransferRule(pairs), sorted);
  }

  ghost function Found(pairs: Option<set<string>>, attrs: seq<Attribute>): seq<MatchedResult> {
    Scan(CreateTransferRule(pairs), Regroup(TRANSFER_KEYS, [], Select(TRANSFER_KEYS, attrs)))
  }

  // ---- normalising ----

  lemma KeyRanks()
    ensures Rank(TRANSFER_KEYS, AMOUNT) == 0 && Rank(TRANSFER_KEYS, RECIPIENT) == 1 && Rank(TRANSFER_KEYS, SENDER) == 2
  {
    assert TRANSFER_KEYS[..2] == [AMOUNT, RECIPIENT] && [AMOUNT, RECIPIENT][..1] == [AMOUNT];
    assert Rank([AMOUNT], AMOUNT) == 0;
    assert Rank([AMOUNT, RECIPIENT], AMOUNT) == 0;
  }

  /** A group that holds one record comes out in canonical order. */
  lemma GroupIsCanon(e: seq<Attribute>, t: Transfer)
    requires Lists(e, t)
    ensures SortGroup(TRANSFER_KEYS, e) == Canon(t)
  {
    forall i | 0 <= i < |e| ensures e[i].key in TRANSFER_KEYS { assert e[i] in Canon(t); }
    KeyRanks();
    SortedGroupIsUnique(TRANSFER_KEYS, e, Canon(t));
  }

  /** Without a sender of its own, a record takes the sender that opens the next record. */
  ghost predicate Steals(es: seq<seq<Attribute>>, ts: seq<Transfer>, k: nat)
    requires Emitted(es, ts)
  {
    k + 1 < |ts| && ts[k].sender.None? && es[k + 1] != [] && es[k + 1][0].key == SENDER
  }

  lemma RobbedEmission(es: seq<seq<Attribute>>, ts: seq<Transfer>)
    requires Emitted(es, ts) && Steals(es, ts, 0)
    ensures Emitted([es[1][1..]] + es[2..], [ts[1].(sender := None)] + ts[2..])
    ensures ts[1].sender == Some(es[1][0])
  {
    Robbed(es[1], ts[1]);
  }

  lemma Robbed(e: seq<Attribute>, t: Transfer)
    requires Lists(e, t) && e != [] && e[0].key == SENDER
    ensures t.sender == Some(e[0]) && Lists(e[1..], t.(sender := None))
  {
    assert e[0] in Canon(t);
    forall x ensures x in e[1..] <==> x in Canon(t.(sender := None)) {
      assert x in e <==> x == e[0] || x in e[1..];
      if x in e[1..] {
        var i :| 0 <= i < |e[1..]| && e[1..][i] == x;
        assert e[i + 1].key != e[0].key;
      }
    }
  }

  /** The records as the normaliser groups them. */
  ghost function Drift(es: seq<seq<Attribute>>, ts: seq<Transfer>): (r: seq<Transfer>)
    requires Emitted(es, ts)
    ensures |r| == |ts|
    decreases |ts|
  {
    if ts == [] then [] else if Steals(es, ts, 0) then
      RobbedEmission(es, ts);
      [ts[0].(sender := Some(es[1][0]))] + Drift([es[1][1..]] + es[2..], [ts[1].(sender := None)] + ts[2..])
    else [ts[0]] + Drift(es[1..], ts[1..])
  }

  lemma {:induction false} RegroupPush(g: seq<Attribute>, a: Attribute, rest: seq<Attribute>)
    requires !HasKey(g, a.key) && |g| <= 2
    ensures Regroup(TRANSFER_KEYS, g, [a] + rest) ==
            if |g| == 2 then SortGroup(TRANSFER_KEYS, g + [a]) + Regroup(TRANSFER_KEYS, [], rest)
            else Regroup(TRANSFER_KEYS, g + [a], rest)
  {
    assert ([a] + rest)[1..] == rest;
  }

  lemma {:induction false} RegroupTwo(a: Attribute, b: Attribute, rest: seq<Attribute>)
    requires a.key != b.key
    ensures Regroup(TRANSFER_KEYS, [], [a, b] + rest) == Regroup(TRANSFER_KEYS, [a, b], rest)
  {
    assert [a, b] + rest == [a] + ([b] + rest);
    assert [] + [a] == [a] && [a] + [b] == [a, b];
    RegroupPush([], a, [b] + rest);
    RegroupPush([a], b, rest);
  }

  lemma {:induction false} RegroupThree(a: Attribute, b: Attribute, c: Attribute, rest: seq<Attribute>)
    requires a.key != b.key && a.key != c.key && b.key != c.key
    ensures Regroup(TRANSFER_KEYS, [], [a, b, c] + rest) ==
            SortGroup(TRANSFER_KEYS, [a, b, c]) + Regroup(TRANSFER_KEYS, [], rest)
  {
    assert [a, b, c] + rest == [a, b] + ([c] + rest) && [a, b] + [c] == [a, b, c];
    RegroupTwo(a, b, [c] + rest);
    RegroupPush([a, b], c, rest);
  }

  /** The first record's attributes, taken into an empty group. */
  lemma {:induction false} RegroupRecord(e: seq<Attribute>, t: Transfer, rest: seq<Attribute>)
    requires Lists(e, t)
    ensures t.sender.Some? ==> Regroup(TRANSFER_KEYS, [], e + rest) == Canon(t) + Regroup(TRANSFER_KEYS, [], rest)
    ensures t.sender.None? ==> Regroup(TRANSFER_KEYS, [], e + rest) == Regroup(TRANSFER_KEYS, e, rest)
  {
    assert DistinctKeys(e);
    if t.sender.Some? {
      assert e == [e[0], e[1], e[2]];
      RegroupThree(e[0], e[1], e[2], rest);
      assert SortGroup(TRANSFER_KEYS, e) == Canon(t) by { GroupIsCanon(e, t); }
    } else {
      assert e == [e[0], e[1]];
      RegroupTwo(e[0], e[1], rest);
    }
  }

  lemma {:induction false} CanonsCons(t: Transfer, ts: seq<Transfer>)
    ensures Canons([t] + ts) == Canon(t) + Canons(ts)
  {
    assert ([t] + ts)[1..] == ts;
  }

  /** A record that keeps its own attributes. */
  lemma {:induction false} KeepStep(es: seq<seq<Attribute>>, ts: seq<Transfer>)
    requires Emitted(es, ts) && ts != [] && !Steals(es, ts, 0)
    requires Regroup(TRANSFER_KEYS, [], Flatten(es[1..])) == Canons(Drift(es[1..], ts[1..]))
    ensures Regroup(TRANSFER_KEYS, [], Flatten(es)) == Canons(Drift(es, ts))
  {
    var e, t, rest := es[0], ts[0], Flatten(es[1..]);
    RegroupRecord(e, t, rest);
    CanonsCons(t, Drift(es[1..], ts[1..]));
    if t.sender.None? {
      GroupIsCanon(e, t);
      if |ts| > 1 {
        assert es[1..][0] == es[1] && rest == es[1] + Flatten(es[1..][1..]);
        assert ts[1].amount in es[1];
        KeyRepeats(e, t, es[1], ts[1]);
        assert rest[0] == es[1][0];
      }
    }
  }

  lemma {:induction false} RobbedFlatten(es: seq<seq<Attribute>>, es': seq<seq<Attribute>>)
    requires |es| > 1 && es[1] != [] && es' == [es[1][1..]] + es[2..]
    ensures Flatten(es) == es[0] + Flatten(es[1..]) && Flatten(es[1..]) == [es[1][0]] + Flatten(es')
  {
    assert es[1..][1..] == es[2..] && es'[1..] == es[2..];
    assert es[1] == [es[1][0]] + es[1][1..];
  }

  /** A record that takes over the next one's sender. */
  lemma {:induction false} StealStep(es: seq<seq<Attribute>>, ts: seq<Transfer>, es': seq<seq<Attribute>>,
                                     ts': seq<Transfer>)
    requires Emitted(es, ts) && Steals(es, ts, 0)
    requires es' == [es[1][1..]] + es[2..] && ts' == [ts[1].(sender := None)] + ts[2..] && Emitted(es', ts')
    requires Regroup(TRANSFER_KEYS, [], Flatten(es')) == Canons(Drift(es', ts'))
    ensures Regroup(TRANSFER_KEYS, [], Flatten(es)) == Canons(Drift(es, ts))
  {
    var e, t, x := es[0], ts[0], es[1][0];
    RobbedFlatten(es, es');
    RegroupRecord(e, t, Flatten(es[1..]));
    GroupPlusSender(e, t, x);
    RegroupPush(e, x, Flatten(es'));
    CanonsCons(t.(sender := Some(x)), Drift(es', ts'));
  }

  lemma {:induction false} NormalizeGivesDrift(es: seq<seq<Attribute>>, ts: seq<Transfer>)
    requires Emitted(es, ts)
    ensures Regroup(TRANSFER_KEYS, [], Flatten(es)) == Canons(Drift(es, ts))
    decreases |ts|
  {
    if ts == [] {
      assert SortGroup(TRANSFER_KEYS, []) == [];
    } else if Steals(es, ts, 0) {
      var es', ts' := [es[1][1..]] + es[2..], [ts[1].(sender := None)] + ts[2..];
      RobbedEmission(es, ts);
      NormalizeGivesDrift(es', ts');
      StealStep(es, ts, es', ts');
    } else {
      NormalizeGivesDrift(es[1..], ts[1..]);
      KeepStep(es, ts);
    }
  }

  lemma GroupPlusSender(e: seq<Attribute>, t: Transfer, x: Attribute)
    requires Lists(e, t) && t.sender.None? && x.key == SENDER
    ensures !HasKey(e, SENDER) && |e| == 2
    ensures SortGroup(TRANSFER_KEYS, e + [x]) == Canon(t.(sender := Some(x)))
  {
    forall i | 0 <= i < |e| ensures e[i].key != SENDER { assert e[i] in Canon(t); }
    GroupIsCanon(e + [x], t.(sender := Some(x)));
  }

  lemma KeyRepeats(e: seq<Attribute>, t: Transfer, f: seq<Attribute>, u: Transfer)
    requires Lists(e, t) && Lists(f, u) && f[0].key != SENDER
    ensures HasKey(e, f[0].key)
  {
    assert f[0] in Canon(u);
    assert t.amount in e && t.recipient in e;
  }

  // ---- matching ----

  lemma {:induction false} ShownOne(a: Attribute, rest: seq<Attribute>)
    requires !ShouldSkipKey(a.key)
    ensures Shown([a] + rest) == [Item(a)] + Shown(rest)
  {
    assert ([a] + rest)[1..] == rest;
  }

  lemma CanonItems(t: Transfer)
    requires WellFormed(t)
    ensures Shown(Canon(t)) ==
            [Item(t.amount), Item(t.recipient)] + if t.sender.Some? then [Item(t.sender.value)] else []
    ensures Shown([t.amount, t.recipient]) == [Item(t.amount), Item(t.recipient)]
    ensures t.sender.Some? ==> Shown([t.sender.value]) == [Item(t.sender.value)]
  {
    var tail := if t.sender.Some? then [t.sender.value] else [];
    if t.sender.Some? { ShownOne(t.sender.value, []); assert [t.sender.value] + [] == [t.sender.value]; }
    ShownOne(t.recipient, tail);
    ShownOne(t.amount, [t.recipient] + tail);
    assert Canon(t) == [t.amount] + ([t.recipient] + tail);
    ShownOne(t.recipient, []);
    ShownOne(t.amount, [t.recipient]);
    assert [t.recipient] + [] == [t.recipient];
  }

  lemma {:induction false} OpenTransfer(pairs: Option<set<string>>, t: Transfer, rest: seq<Attribute>)
    requires WellFormed(t)
    ensures Open(CreateTransferRule(pairs).items, [t.amount, t.recipient] + rest, -1) ==
            if Taken(pairs, t) then Opening(Shown([t.amount, t.recipient]), rest) else NoOpening
  {
    var items, s := CreateTransferRule(pairs).items, [t.amount, t.recipient] + rest;
    assert s[1..] == [t.recipient] + rest && s[1..][1..] == rest;
    assert items[1..][1..] == [];
    assert Open(items[1..][1..], rest, t.recipient.msgIndex) == Opening([], rest);
    CanonItems(t);
  }

  lemma {:induction false} ScanPasses(pairs: Option<set<string>>, a: Attribute, rest: seq<Attribute>)
    requires a.key == RECIPIENT || a.key == SENDER
    ensures Scan(CreateTransferRule(pairs), [a] + rest) == Scan(CreateTransferRule(pairs), rest)
  {
    assert ([a] + rest)[1..] == rest;
  }

  lemma {:induction false} TailOfTransfer(t: Transfer, rest: seq<Attribute>)
    requires WellFormed(t) && (rest == [] || rest[0].key == AMOUNT)
    ensures var s := if t.sender.Some? then [t.sender.value] else [];
            Tail(AMOUNT, s + rest) == Shown(s) && After(AMOUNT, s + rest) == rest
  {
    if t.sender.Some? {
      assert ([t.sender.value] + rest)[1..] == rest;
    } else {
      assert [] + rest == rest;
    }
  }

  lemma {:induction false} ScanCanons(pairs: Option<set<string>>, ts: seq<Transfer>)
    requires forall i :: 0 <= i < |ts| ==> WellFormed(ts[i])
    ensures Scan(CreateTransferRule(pairs), Canons(ts)) == Expected(pairs, ts)
  {
    if ts != [] {
      ScanCanons(pairs, ts[1..]);
      assert Canons(ts) == Canon(ts[0]) + Canons(ts[1..]);
      ScanCanon(pairs, ts[0], Canons(ts[1..]));
    }
  }

  /** One record in front of others. */
  lemma {:induction false} ScanCanon(pairs: Option<set<string>>, t: Transfer, rest: seq<Attribute>)
    requires WellFormed(t) && (rest == [] || rest[0].key == AMOUNT)
    ensures Scan(CreateTransferRule(pairs), Canon(t) + rest) ==
            (if Taken(pairs, t) then [Shown(Canon(t))] else []) + Scan(CreateTransferRule(pairs), rest)
  {
    if Taken(pairs, t) {
      ScanTaken(pairs, t, rest);
    } else {
      ScanLeft(pairs, t, rest);
    }
  }

  function SenderOf(t: Transfer): seq<Attribute> {
    if t.sender.Some? then [t.sender.value] else []
  }

  lemma {:induction false} ScanTaken(pairs: Option<set<string>>, t: Transfer, rest: seq<Attribute>)
    requires WellFormed(t) && (rest == [] || rest[0].key == AMOUNT) && Taken(pairs, t)
    ensures Scan(CreateTransferRule(pairs), Canon(t) + rest) ==
            [Shown(Canon(t))] + Scan(CreateTransferRule(pairs), rest)
  {
    var behind := SenderOf(t) + rest;
    assert Canon(t) + rest == [t.amount, t.recipient] + behind;
    OpenTransfer(pairs, t, behind);
    TailOfTransfer(t, rest);
    CanonItems(t);
    assert Shown(Canon(t)) == Shown([t.amount, t.recipient]) + Shown(SenderOf(t));
  }

  lemma {:induction false} ScanLeft(pairs: Option<set<string>>, t: Transfer, rest: seq<Attribute>)
    requires WellFormed(t) && !Taken(pairs, t)
    ensures Scan(CreateTransferRule(pairs), Canon(t) + rest) == Scan(CreateTransferRule(pairs), rest)
  {
    var behind := SenderOf(t) + rest;
    var s := [t.amount, t.recipient] + behind;
    assert Canon(t) + rest == s && s[1..] == [t.recipient] + behind;
    OpenTransfer(pairs, t, behind);
    ScanPasses(pairs, t.recipient, behind);
    if t.sender.Some? { ScanPasses(pairs, t.sender.value, rest); } else { assert behind == rest; }
  }

  // ---- the two together ----

  lemma {:induction false} DriftWellFormed(es: seq<seq<Attribute>>, ts: seq<Transfer>)
    requires Emitted(es, ts)
    ensures forall i :: 0 <= i < |ts| ==> WellFormed(Drift(es, ts)[i])
    decreases |ts|
  {
    if ts != [] {
      if Steals(es, ts, 0) {
        RobbedEmission(es, ts);
        DriftWellFormed([es[1][1..]] + es[2..], [ts[1].(sender := None)] + ts[2..]);
      } else {
        DriftWellFormed(es[1..], ts[1..]);
      }
    }
  }

  /** What the finder returns for every log made of transfer records, whatever other
      attributes are mixed in: one match per record with an accepted recipient, in order. */
  lemma {:induction false} TransfersFound(pairs: Option<set<string>>, attrs: seq<Attribute>, es: seq<seq<Attribute>>,
                                          ts: seq<Transfer>)
    requires Emitted(es, ts) && Select(TRANSFER_KEYS, attrs) == Flatten(es)
    ensures Found(pairs, attrs) == Expected(pairs, Drift(es, ts))
  {
    NormalizeGivesDrift(es, ts);
    DriftWellFormed(es, ts);
    ScanCanons(pairs, Drift(es, ts));
  }

  lemma {:induction false} DriftIsIdentity(es: seq<seq<Attribute>>, ts: seq<Transfer>)
    requires Emitted(es, ts)
    ensures (forall k: nat :: !Steals(es, ts, k)) ==> Drift(es, ts) == ts
    ensures (exists k: nat :: Steals(es, ts, k)) ==>
              exists k: nat :: k < |ts| && ts[k].sender.None? && Drift(es, ts)[k].sender.Some?
    decreases |ts|
  {
    if ts != [] {
      if Steals(es, ts, 0) {
        assert Drift(es, ts)[0].sender.Some?;
      } else {
        DriftIsIdentity(es[1..], ts[1..]);
        StealsLater(es, ts);
        if m: nat :| m < |ts[1..]| && ts[1..][m].sender.None? && Drift(es[1..], ts[1..])[m].sender.Some? {
          assert ts[m + 1].sender.None? && Drift(es, ts)[m + 1].sender.Some?;
        }
      }
    }
  }

  lemma {:induction false} StealsLater(es: seq<seq<Attribute>>, ts: seq<Transfer>)
    requires Emitted(es, ts) && ts != [] && !Steals(es, ts, 0) && Emitted(es[1..], ts[1..])
    ensures (exists k: nat :: Steals(es, ts, k)) <==> exists k: nat :: Steals(es[1..], ts[1..], k)
  {
    if k: nat :| Steals(es, ts, k) { assert Steals(es[1..], ts[1..], k - 1); }
    if k: nat :| Steals(es[1..], ts[1..], k) { assert Steals(es, ts, k + 1); }
  }

  lemma {:induction false} ExpectedAll(ts: seq<Transfer>)
    ensures |Expected(None, ts)| == |ts| && forall k :: 0 <= k < |ts| ==> Expected(None, ts)[k] == Shown(Canon(ts[k]))
  {
    if ts != [] { ExpectedAll(ts[1..]); }
  }

  lemma CanonLength(t: Transfer)
    requires WellFormed(t)
    ensures |Shown(Canon(t))| == if t.sender.Some? then 3 else 2
  {
    CanonItems(t);
  }

  /** The parser takes every recipient, and then the records come back exactly if and only
      if no record that opens with its sender directly follows a record without one. */
  lemma {:induction false} TransfersRecovered(attrs: seq<Attribute>, es: seq<seq<Attribute>>, ts: seq<Transfer>)
    requires Emitted(es, ts) && Select(TRANSFER_KEYS, attrs) == Flatten(es)
    ensures Found(None, attrs) == Expected(None, ts) <==> forall k: nat :: !Steals(es, ts, k)
  {
    TransfersFound(None, attrs, es, ts);
    DriftIsIdentity(es, ts);
    if exists k: nat :: Steals(es, ts, k) {
      var k: nat :| k < |ts| && ts[k].sender.None? && Drift(es, ts)[k].sender.Some?;
      DriftWellFormed(es, ts);
      ExpectedAll(ts);
      ExpectedAll(Drift(es, ts));
      CanonLength(ts[k]);
      CanonLength(Drift(es, ts)[k]);
      assert Expected(None, ts)[k] != Expected(None, Drift(es, ts))[k];
    }
  }

  // ---- a log that does not come back ----

  /** A record with values `amount`, `to` and, unless empty, `from`. */
  function Sent(amount: string, to: string, from: string): (t: Transfer)
    ensures WellFormed(t)
  {
    Transfer(Attribute(AMOUNT, amount, 0), Attribute(RECIPIENT, to, 0),
             if from == "" then None else Some(Attribute(SENDER, from, 0)))
  }

  /** Two outputs of a multi-send, then a transfer whose sender comes first. */
  const MultiSend: seq<Transfer> := [Sent("1", "a", ""), Sent("2", "b", ""), Sent("3", "c", "s")]

  function SenderFirst(t: Transfer): (e: seq<Attribute>)
    requires WellFormed(t)
    ensures Lists(e, t)
  {
    SenderOf(t) + [t.amount, t.recipient]
  }

  function MultiSendLog(): (es: seq<seq<Attribute>>)
    ensures Emitted(es, MultiSend)
  {
    [SenderFirst(MultiSend[0]), SenderFirst(MultiSend[1]), SenderFirst(MultiSend[2])]
  }

  lemma {:induction false} MultiSendDrifts()
    ensures Drift(MultiSendLog(), MultiSend) == [Sent("1", "a", ""), Sent("2", "b", "s"), Sent("3", "c", "")]
  {
    var es, ts := MultiSendLog(), MultiSend;
    assert es[0] == [ts[0].amount, ts[0].recipient] && es[1] == [ts[1].amount, ts[1].recipient];
    assert es[2] == [ts[2].sender.value, ts[2].amount, ts[2].recipient];
    var es2, ts2 := [es[2][1..]], [ts[2].(sender := None)];
    assert [es[1..][1][1..]] + es[1..][2..] == es2 && [ts[1..][1].(sender := None)] + ts[1..][2..] == ts2;
    assert Drift(es2[1..], ts2[1..]) == [];
    assert Drift(es2, ts2) == [ts2[0]];
    assert Steals(es[1..], ts[1..], 0);
    assert Drift(es[1..], ts[1..]) == [ts[1].(sender := Some(es[2][0]))] + Drift(es2, ts2);
  }

  lemma {:induction false} OnlyTransferKeys(s: seq<Attribute>)
    requires forall i :: 0 <= i < |s| ==> s[i].key in TRANSFER_KEYS
    ensures Select(TRANSFER_KEYS, s) == s
  {
    if s != [] { OnlyTransferKeys(s[..|s| - 1]); }
  }

  /** The sender of the transfer is reported for the second output. */
  lemma {:induction false} MultiSendTakesSender()
    ensures Found(None, Flatten(MultiSendLog())) ==
            [Shown(Canon(Sent("1", "a", ""))), Shown(Canon(Sent("2", "b", "s"))), Shown(Canon(Sent("3", "c", "")))]
    ensures Found(None, Flatten(MultiSendLog())) != Expected(None, MultiSend)
  {
    var es := MultiSendLog();
    assert Flatten(es) == es[0] + (es[1] + (es[2] + []));
    OnlyTransferKeys(Flatten(es));
    MultiSendDrifts();
    TransfersFound(None, Flatten(es), es, MultiSend);
    ExpectedAll(Drift(es, MultiSend));
    assert Steals(es, MultiSend, 1);
    TransfersRecovered(Flatten(es), es, MultiSend);
  }

  /** Reading a recovered match is never ambiguous, and gives the record's own values. */
  lemma TransferValues(t: Transfer, r: Result<map<string, MatchedItem>, AmbiguousEvent>)
    requires WellFormed(t) && IsItemMap(Shown(Canon(t)), [SENDER, RECIPIENT, AMOUNT], r)
    ensures r.Ok? && AMOUNT in r.value && RECIPIENT in r.value
    ensures r.value[AMOUNT] == Item(t.amount) && r.value[RECIPIENT] == Item(t.recipient)
    ensures SENDER in r.value <==> t.sender.Some?
    ensures t.sender.Some? ==> r.value[SENDER] == Item(t.sender.value)
  {
    var keys := [SENDER, RECIPIENT, AMOUNT];
    assert keys[0] == SENDER && keys[1] == RECIPIENT && keys[2] == AMOUNT;
    forall key ensures |ItemsOf(Shown(Canon(t)), key)| <= 1 { RecordItems(t, key); }
    NeverAmbiguous(Shown(Canon(t)), keys, r);
    RecordItems(t, SENDER);
    RecordItems(t, RECIPIENT);
    RecordItems(t, AMOUNT);
    ItemUnder(Shown(Canon(t)), keys, r.value, 0);
    ItemUnder(Shown(Canon(t)), keys, r.value, 1);
    ItemUnder(Shown(Canon(t)), keys, r.value, 2);
  }

  lemma {:induction false} NeverAmbiguous(res: MatchedResult, keys: seq<string>,
                                          r: Result<map<string, MatchedItem>, AmbiguousEvent>)
    requires IsItemMap(res, keys, r) && forall key :: |ItemsOf(res, key)| <= 1
    ensures r.Ok?
  {
  }

  lemma {:induction false} ItemUnder(res: MatchedResult, keys: seq<string>, m: map<string, MatchedItem>, n: nat)
    requires IsItemMap(res, keys, Ok(m)) && n < |keys|
    ensures keys[n] in m <==> |ItemsOf(res, keys[n])| == 1
    ensures keys[n] in m ==> m[keys[n]] == ItemsOf(res, keys[n])[0]
  {
    assert keys[n] in keys;
  }

  /** The items of a record under a key. */
  lemma {:induction false} RecordItems(t: Transfer, key: string)
    requires WellFormed(t)
    ensures ItemsOf(Shown(Canon(t)), key) ==
      if key == AMOUNT then [Item(t.amount)] else if key == RECIPIENT then [Item(t.recipient)]
      else if key == SENDER && t.sender.Some? then [Item(t.sender.value)] else []
  {
    CanonItems(t);
    var one, two := [Item(t.amount)], [Item(t.amount), Item(t.recipient)];
    assert two[..1] == one && one[..0] == [];
    assert ItemsOf(one, key) == if key == AMOUNT then one else [];
    assert ItemsOf(two, key) == ItemsOf(one, key) + if key == RECIPIENT then [Item(t.recipient)] else [];
    if t.sender.Some? {
      var res := Shown(Canon(t));
      assert res[..2] == two && res[2] == Item(t.sender.value);
    } else {
      assert Shown(Canon(t)) == two;
    }
  }
}
