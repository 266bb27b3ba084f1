/** Quarantine of transactions that could not be parsed unambiguously
    (parser/dex/quarantine.go, and parseStage of parser/dex/dex.go). */
module Quarantine {
  import opened Options
  import opened EventLog

  datatype RawTx = RawTx(hash: string, timestamp: int, logs: seq<(string, seq<Attribute>)>)

  /** The parsed output is stored as it is; its fields play no part here. */
  type ParsedTx = string

  /** Wrapping keeps the kind of the innermost error and adds to the text. */
  datatype ParseError = Ambiguous(contract: string, action: string, text: string) | Other(text: string)

  datatype ParseQuarantine = ParseQuarantine(
    height: nat, hash: string, stage: string, contract: string, action: string, error: string, rawTx: RawTx)

  /** What ParseTxs gives for one raw transaction. */
  datatype ParseOutcome =
    | Parsed(txs: seq<ParsedTx>)
    | Partial(txs: seq<ParsedTx>, quarantine: ParseQuarantine)
    | Failed(err: ParseError)

  const PARTIAL_PREFIX := "partial_"
  const CREATE_PAIR := "create_pair"

  predicate IsPartialQuarantineStage(stage: string) {
    PARTIAL_PREFIX <= stage
  }

  ghost predicate ContainsCreatePair(tx: RawTx) {
    exists i, j :: 0 <= i < |tx.logs| && 0 <= j < |tx.logs[i].1| && IsCreatePair(tx.logs[i].1[j])
  }

  predicate IsCreatePair(a: Attribute) {
    a.key == "action" && a.value == CREATE_PAIR
  }

  method RawTxContainsCreatePair(tx: RawTx) returns (found: bool)
    ensures found <==> ContainsCreatePair(tx)
  {
    for i := 0 to |tx.logs|
      invariant forall m, j :: 0 <= m < i && 0 <= j < |tx.logs[m].1| ==> !IsCreatePair(tx.logs[m].1[j])
    {
      for j := 0 to |tx.logs[i].1|
        invariant forall m :: 0 <= m < j ==> !IsCreatePair(tx.logs[i].1[m])
      {
        if tx.logs[i].1[j].key == "action" && tx.logs[i].1[j].value == CREATE_PAIR {
          return true;
        }
      }
    }
    return false;
  }

  // ---- the stage of a full quarantine ----

  predicate PartAt(text: string, part: string, i: nat) {
    i + |part| <= |text| && text[i..i + |part|] == part
  }

  predicate Contains(text: string, part: string) {
    exists i :: 0 <= i <= |text| && PartAt(text, part, i)
  }

  /** The marker of a stage in an error text is the stage behind "ParseTxs ". */
  const STAGES: seq<string> := ["create_pair", "pair_action", "initial_provide", "wasm_transfer", "tax_payment",
                                "sort_transfer_attrs", "transfer", "burn"]

  /** The stage of the first marker found; never one of the partial stages, so the stage
      alone tells full quarantines from partial ones. */
  method ParseStage(text: string) returns (stage: string)
    ensures !IsPartialQuarantineStage(stage)
    ensures if exists n :: 0 <= n < |STAGES| && Contains(text, "ParseTxs " + STAGES[n])
            then exists n :: 0 <= n < |STAGES| && Contains(text, "ParseTxs " + STAGES[n]) && stage == STAGES[n] &&
                   forall m :: 0 <= m < n ==> !Contains(text, "ParseTxs " + STAGES[m])
            else stage == "unknown"
  {
    for n := 0 to |STAGES|
      invariant forall m :: 0 <= m < n ==> !Contains(text, "ParseTxs " + STAGES[m])
    {
      if Contains(text, "ParseTxs " + STAGES[n]) {
        StagesAreFull(n);
        return STAGES[n];
      }
    }
    assert "unknown"[0] != PARTIAL_PREFIX[0];
    return "unknown";
  }

  lemma StagesAreFull(n: nat)
    requires n < |STAGES|
    ensures !IsPartialQuarantineStage(STAGES[n])
  {
    assert STAGES[1][1] == 'a' && STAGES[1][2] == 'i' && PARTIAL_PREFIX[2] == 'r';
    assert n != 1 ==> STAGES[n][0] != 'p';
  }

  // ---- the recorder of partial quarantines ----

  ghost predicate IsPartialOf(q: ParseQuarantine, tx: RawTx, height: nat) {
    && q.hash == tx.hash && q.height == height && q.rawTx == tx
    && IsPartialQuarantineStage(q.stage) && !ContainsCreatePair(tx)
  }

  class PartialQuarantineRecorder {
    const tx: RawTx
    const height: nat
    const containsCreatePair: bool
    var quarantine: Option<ParseQuarantine>

    ghost predicate Valid()
      reads this
    {
      && (containsCreatePair <==> ContainsCreatePair(tx))
      && (quarantine.Some? ==> IsPartialOf(quarantine.value, tx, height))
    }

    constructor (tx: RawTx, height: nat)
      ensures Valid() && quarantine == None && this.tx == tx && this.height == height
    {
      var found := RawTxContainsCreatePair(tx);
      this.tx, this.height, containsCreatePair, quarantine := tx, height, found, None;
    }

    /** Accepts an ambiguity of a transaction without create_pair; the first one is kept. */
    method Record(stage: string, err: ParseError) returns (recorded: bool)
      requires Valid()
      modifies this
      ensures Valid()
      ensures recorded <==> err.Ambiguous? && !ContainsCreatePair(tx)
      ensures quarantine ==
              if recorded && old(quarantine).None?
              then Some(ParseQuarantine(height, tx.hash, PARTIAL_PREFIX + stage, err.contract, err.action, err.text,
                                        tx))
              else old(quarantine)
    {
      if !err.Ambiguous? || containsCreatePair {
        return false;
      }
      if quarantine.None? {
        quarantine := Some(ParseQuarantine(height, tx.hash, PARTIAL_PREFIX + stage, err.contract, err.action,
                                           err.text, tx));
      }
      return true;
    }

    /** How ParseTxs ends: with the output alone, or with the output and the quarantine. */
    method Finish(parsedTxs: seq<ParsedTx>) returns (outcome: ParseOutcome)
      requires Valid()
      ensures outcome == if quarantine.None? then Parsed(parsedTxs) else Partial(parsedTxs, quarantine.value)
      ensures outcome.Partial? ==> IsPartialOf(outcome.quarantine, tx, height)
    {
      if quarantine.None? {
        return Parsed(parsedTxs);
      }
      return Partial(parsedTxs, quarantine.value);
    }
  }
}
