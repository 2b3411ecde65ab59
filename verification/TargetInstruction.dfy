/** The target-instruction canonicaliser (artifacts/artifact_contract_v3.py). Timestamps are instants in
    microseconds; an attached score, rate or time may be missing or unreadable. */
module TargetInstruction {
  import opened Basics
  import opened Sorting

  datatype Number = Absent | NotNumeric | Number(value: real)

  datatype Time = NoTime | NotATime | At(instant: int)

  datatype Row = Row(
    instrument: string, targetWeight: Number, currency: string, score: Number,
    fxRateToBase: Number, fxAvailableAt: Time, fxQuoteId: Option<string>)

  datatype Timing = Timing(asOf: Time, signal: Time, produced: Time, validFrom: Time, tradeNotBefore: Time, validUntil: Time)

  /** What a producer sends. An empty text is a missing one, except where only its presence matters. */
  datatype Instruction = Instruction(
    schemaVersion: string, instructionType: string, targetSemantics: Option<string>, omittedInstrumentPolicy: Option<string>,
    baseCurrency: string, valuationBasis: string, calendarId: string, calendarSha: string, policySha: string,
    timing: Timing, maxGrossExposure: Number, maxAbsNetExposure: Number, fxMaxAgeSeconds: Number,
    cashWeight: Number, cashWeightDelta: Number, supersedesArtifactId: string, targets: seq<Row>)

  datatype InstructionType = TARGETS | CASH_ONLY | NO_SIGNAL | REVOKE

  datatype Semantics = FULL_SNAPSHOT | DELTA

  datatype OmittedPolicy = ZERO_TARGET | UNCHANGED

  datatype Times = Times(asOf: int, signal: int, produced: int, validFrom: int, tradeNotBefore: int, validUntil: int)

  /** Everything but the target rows and what depends on them. */
  datatype Header = Header(
    kind: InstructionType, baseCurrency: string, valuationBasis: string, calendarId: string, calendarSha: string,
    policySha: string, times: Times, maxGross: real, maxNet: real, fxMaxAge: int)

  datatype FxEvidence = FxEvidence(rate: real, availableAt: int, quoteId: string)

  datatype Item = Item(instrument: string, weight: real, currency: string, score: Option<real>, fx: Option<FxEvidence>)

  datatype Exposure = Exposure(gross: Option<real>, net: Option<real>, grossDelta: Option<real>, netDelta: Option<real>)

  datatype Canonical = Canonical(
    header: Header, semantics: Option<Semantics>, omitted: OmittedPolicy, cashWeight: Option<real>, cashWeightDelta: Option<real>,
    supersedes: Option<string>, targets: seq<Item>, exposure: Exposure)

  const SCHEMA_VERSION := "3.0"
  const TOLERANCE: real := 0.000000000001

  // ----- fields

  predicate IsHex(c: char) { '0' <= c <= '9' || 'a' <= c <= 'f' }

  predicate IsSha(s: string) { |s| == 64 && forall i :: 0 <= i < |s| ==> IsHex(s[i]) }

  predicate IsArtifactId(s: string) { |s| >= 4 && s[..4] == "art_" && IsSha(s[4..]) }

  predicate IsCurrency(s: string) { |s| == 3 && forall i :: 0 <= i < |s| ==> 'A' <= s[i] <= 'Z' }

  predicate IsInstrumentStart(c: char) { 'A' <= c <= 'Z' || '0' <= c <= '9' }

  predicate IsInstrumentId(s: string) {
    && 2 <= |s| <= 96 && IsInstrumentStart(s[0])
    && forall i :: 1 <= i < |s| ==> IsInstrumentStart(s[i]) || s[i] in "._:-"
  }

  function Text(value: string, field: string): Result<string> {
    if Trim(value) == "" then Err(field + " is required") else Ok(Trim(value))
  }

  function Sha(value: string, field: string): Result<string> {
    var digest :- Text(value, field);
    if !IsSha(digest) then Err(field + " must be 64 lowercase hex characters") else Ok(digest)
  }

  function Currency(value: string, field: string): Result<string> {
    var text :- Text(value, field);
    if !IsCurrency(Upper(text)) then Err(field + " must be a 3-letter currency code") else Ok(Upper(text))
  }

  function Instrument(value: string): Result<string> {
    var text :- Text(value, "target.instrument");
    if !IsInstrumentId(Upper(text)) then Err("target.instrument is not a provider-neutral identity") else Ok(Upper(text))
  }

  function Numeric(value: Number, field: string): Result<real> {
    if value.Number? then Ok(value.value) else Err(field + " must be numeric")
  }

  function Instant(value: Time, field: string): Result<int> {
    match value
    case At(instant) => Ok(instant)
    case NoTime => Err(field + " is required")
    case NotATime => Err(field + " must be ISO-8601")
  }

  function KindOf(text: string): Result<InstructionType> {
    if text == "TARGETS" then Ok(TARGETS)
    else if text == "CASH_ONLY" then Ok(CASH_ONLY)
    else if text == "NO_SIGNAL" then Ok(NO_SIGNAL)
    else if text == "REVOKE" then Ok(REVOKE)
    else Err("unsupported instructionType")
  }

  function SemanticsOf(value: Option<string>): Option<Semantics> {
    if value.None? then None
    else if Trim(value.value) == "FULL_SNAPSHOT" then Some(FULL_SNAPSHOT)
    else if Trim(value.value) == "DELTA" then Some(DELTA)
    else None
  }

  function OmittedOf(value: Option<string>): Option<OmittedPolicy> {
    if value.None? then None
    else if Trim(value.value) == "ZERO_TARGET" then Some(ZERO_TARGET)
    else if Trim(value.value) == "UNCHANGED" then Some(UNCHANGED)
    else None
  }

  /** `int` of a float: truncation toward zero. */
  function Truncate(x: real): int { if x >= 0.0 then x.Floor else -(-x).Floor }

  // ----- the header

  function ReadTimes(timing: Timing): Result<Times> {
    var asOf :- Instant(timing.asOf, "timing.asOfTime");
    var signal :- Instant(timing.signal, "timing.signalTime");
    var produced :- Instant(timing.produced, "timing.producedAt");
    var validFrom :- Instant(timing.validFrom, "timing.validFrom");
    var tradeNotBefore :- Instant(timing.tradeNotBefore, "timing.tradeNotBefore");
    var validUntil :- Instant(timing.validUntil, "timing.validUntil");
    Ok(Times(asOf, signal, produced, validFrom, tradeNotBefore, validUntil))
  }

  /** The first timing rule that fails, if any; the observer's rules apply only when there is one. */
  function TimesRefusal(t: Times, observedAt: Option<int>): Option<string> {
    if !(t.asOf <= t.signal <= t.produced) then Some("requires asOfTime <= signalTime <= producedAt")
    else if !(t.signal <= t.validFrom <= t.tradeNotBefore < t.validUntil)
    then Some("requires signalTime <= validFrom <= tradeNotBefore < validUntil")
    else if observedAt.Some? && t.produced > observedAt.value then Some("producedAt is in the future")
    else if observedAt.Some? && t.validUntil < observedAt.value then Some("target instruction is expired")
    else None
  }

  function ReadIdentity(i: Instruction): Result<(InstructionType, string, string, string, string, string)> {
    if i.schemaVersion != SCHEMA_VERSION then Err("target instruction schemaVersion must be 3.0")
    else
      var kind :- KindOf(Trim(i.instructionType));
      var baseCurrency :- Currency(i.baseCurrency, "baseCurrency");
      var valuationBasis :- Text(i.valuationBasis, "valuationBasis");
      var calendarId :- Text(i.calendarId, "calendar.calendarId");
      var calendarSha :- Sha(i.calendarSha, "calendar.versionSha256");
      var policySha :- Sha(i.policySha, "policy.strategyPolicySha256");
      Ok((kind, baseCurrency, valuationBasis, calendarId, calendarSha, policySha))
  }

  function ReadRisk(i: Instruction): Result<(real, real, int)> {
    var maxGross :- Numeric(i.maxGrossExposure, "risk.maxGrossExposure");
    var maxNet :- Numeric(i.maxAbsNetExposure, "risk.maxAbsNetExposure");
    if maxGross <= 0.0 || maxNet < 0.0 || maxNet > maxGross then Err("risk exposure limits are invalid")
    else
      var age :- Numeric(i.fxMaxAgeSeconds, "fx.maxAgeSeconds");
      if Truncate(age) <= 0 then Err("fx.maxAgeSeconds must be positive") else Ok((maxGross, maxNet, Truncate(age)))
  }

  function ReadHeader(i: Instruction, observedAt: Option<int>): Result<Header> {
    var id :- ReadIdentity(i);
    var times :- ReadTimes(i.timing);
    var refusal := TimesRefusal(times, observedAt);
    if refusal.Some? then Err(refusal.value)
    else
      var risk :- ReadRisk(i);
      Ok(Header(id.0, id.1, id.2, id.3, id.4, id.5, times, risk.0, risk.1, risk.2))
  }

  // ----- the target rows

  function ReadFx(h: Header, row: Row): Result<FxEvidence> {
    var rate :- Numeric(row.fxRateToBase, "fxRateToBase");
    if rate <= 0.0 then Err("fxRateToBase must be positive")
    else
      var available :- Instant(row.fxAvailableAt, "fxAvailableAt");
      if available > h.times.asOf then Err("FX evidence is future information")
      else if h.times.asOf - available > h.fxMaxAge * 1000000 then Err("FX evidence is stale")
      else
        var quoteId :- Text(if row.fxQuoteId.Some? then row.fxQuoteId.value else "", "fxQuoteId");
        Ok(FxEvidence(rate, available, quoteId))
  }

  /** A row once its instrument is known. */
  function ReadItem(h: Header, instrument: string, row: Row): Result<Item> {
    var weight :- Numeric(row.targetWeight, "targetWeight");
    if weight < -1.0 || weight > 1.0 then Err("targetWeight must be between -1 and 1")
    else
      var currency :- Currency(row.currency, "currency");
      var score :- (if row.score.Absent? then Ok(None) else if row.score.Number? then Ok(Some(row.score.value)) else Err("score must be numeric"));
      if currency == h.baseCurrency then
        if !row.fxRateToBase.Absent? || !row.fxAvailableAt.NoTime? || row.fxQuoteId.Some?
        then Err("target must not attach base-currency FX evidence")
        else Ok(Item(instrument, weight, currency, score, None))
      else if row.fxRateToBase.Absent? || row.fxAvailableAt.NoTime? || row.fxQuoteId.None?
      then Err("target requires explicit FX valuation evidence")
      else
        var fx :- ReadFx(h, row);
        Ok(Item(instrument, weight, currency, score, Some(fx)))
  }

  datatype Scanned = Scanned(items: seq<Item>, gross: real, net: real)

  predicate HasInstrument(items: seq<Item>, instrument: string) {
    exists i :: 0 <= i < |items| && items[i].instrument == instrument
  }

  function ScanRow(h: Header, before: Scanned, row: Row): Result<Scanned> {
    var instrument :- Instrument(row.instrument);
    if HasInstrument(before.items, instrument) then Err("duplicate target instrument")
    else
      var item :- ReadItem(h, instrument, row);
      Ok(Scanned(before.items + [item], before.gross + Abs(item.weight), before.net + item.weight))
  }

  /** The row loop: rows in order, each instrument at most once. */
  function Scan(h: Header, rows: seq<Row>): Result<Scanned> {
    if rows == [] then Ok(Scanned([], 0.0, 0.0))
    else
      var before :- Scan(h, rows[..|rows| - 1]);
      ScanRow(h, before, rows[|rows| - 1])
  }

  lemma ScanNext(h: Header, rows: seq<Row>, i: nat)
    requires i < |rows|
    ensures Scan(h, rows[..i + 1]) == if Scan(h, rows[..i]).Err? then Scan(h, rows[..i]) else ScanRow(h, Scan(h, rows[..i]).value, rows[i])
  {
    hide ScanRow;
    assert rows[..i + 1][..i] == rows[..i];
  }

  method ScanTargets(h: Header, rows: seq<Row>) returns (r: Result<Scanned>)
    ensures r == Scan(h, rows)
  {
    hide Instrument, ReadItem, Scan, HasInstrument, Abs;
    var targets: seq<Item> := [];
    var seen: set<string> := {};
    var gross, net := 0.0, 0.0;
    NothingScanned(h, rows);
    for i := 0 to |rows|
      invariant Scan(h, rows[..i]) == Ok(Scanned(targets, gross, net))
      invariant forall name :: name in seen <==> HasInstrument(targets, name)
    {
      var row := rows[i];
      ScanNext(h, rows, i);
      var instrument := Instrument(row.instrument);
      if instrument.Err? {
        ScanStopped(h, rows, i + 1);
        return Err(instrument.reason);
      }
      if instrument.value in seen {
        ScanStopped(h, rows, i + 1);
        return Err("duplicate target instrument");
      }
      var item := ReadItem(h, instrument.value, row);
      if item.Err? {
        ScanStopped(h, rows, i + 1);
        return Err(item.reason);
      }
      ItemKeepsInstrument(h, instrument.value, row);
      AddedInstrument(targets, item.value);
      seen := seen + {instrument.value};
      gross := gross + Abs(item.value.weight);
      net := net + item.value.weight;
      targets := targets + [item.value];
    }
    assert rows[..|rows|] == rows;
    r := Ok(Scanned(targets, gross, net));
  }

  lemma NothingScanned(h: Header, rows: seq<Row>)
    ensures Scan(h, rows[..0]) == Ok(Scanned([], 0.0, 0.0))
    ensures forall name :: !HasInstrument([], name)
  {}

  lemma ItemKeepsInstrument(h: Header, instrument: string, row: Row)
    ensures ReadItem(h, instrument, row).Ok? ==> ReadItem(h, instrument, row).value.instrument == instrument
  {}

  lemma AddedInstrument(items: seq<Item>, item: Item)
    ensures forall name :: HasInstrument(items + [item], name) <==> HasInstrument(items, name) || name == item.instrument
  {
    forall name ensures HasInstrument(items + [item], name) <==> HasInstrument(items, name) || name == item.instrument {
      assert (items + [item])[|items|] == item;
      if HasInstrument(items, name) {
        var i :| 0 <= i < |items| && items[i].instrument == name;
        assert (items + [item])[i].instrument == name;
      }
    }
  }

  lemma {:induction false} ScanStopped(h: Header, rows: seq<Row>, n: nat)
    requires n <= |rows| && Scan(h, rows[..n]).Err?
    ensures Scan(h, rows) == Scan(h, rows[..n])
    decreases |rows|
  {
    hide ScanRow;
    if n == |rows| {
      assert rows[..n] == rows;
    } else {
      assert rows[..|rows| - 1][..n] == rows[..n];
      ScanStopped(h, rows[..|rows| - 1], n);
    }
  }

  // ----- the whole instruction

  predicate ItemLe(a: Item, b: Item) { StringLe(a.instrument, b.instrument) }

  function ReadSupersedes(value: string): Result<Option<string>> {
    if Trim(value) == "" then Ok(None)
    else if !IsArtifactId(Trim(value)) then Err("supersedesArtifactId must be art_<64 lowercase hex>")
    else Ok(Some(Trim(value)))
  }

  function FullExposure(s: Scanned): Exposure { Exposure(Some(s.gross), Some(s.net), None, None) }

  function DeltaExposure(s: Scanned): Exposure { Exposure(None, None, Some(s.gross), Some(s.net)) }

  function FinishTargets(i: Instruction, h: Header, s: Scanned, supersedes: Option<string>): Result<Canonical> {
    if s.items == [] then Err("TARGETS requires target rows")
    else if SemanticsOf(i.targetSemantics).None? || OmittedOf(i.omittedInstrumentPolicy).None? then Err("invalid target semantics")
    else if SemanticsOf(i.targetSemantics).value == FULL_SNAPSHOT then
      if OmittedOf(i.omittedInstrumentPolicy).value != ZERO_TARGET then Err("FULL_SNAPSHOT requires ZERO_TARGET omission semantics")
      else
        var cash :- Numeric(i.cashWeight, "cashWeight");
        if !(0.0 <= cash <= 1.0) || !i.cashWeightDelta.Absent? then Err("FULL_SNAPSHOT requires cashWeight in [0,1] and no cashWeightDelta")
        else if s.gross > h.maxGross + TOLERANCE || Abs(s.net) > h.maxNet + TOLERANCE then Err("full snapshot exceeds risk exposure limits")
        else Ok(Canonical(h, Some(FULL_SNAPSHOT), ZERO_TARGET, Some(cash), None, supersedes, Sort(ItemLe, s.items), FullExposure(s)))
    else if OmittedOf(i.omittedInstrumentPolicy).value != UNCHANGED then Err("DELTA requires UNCHANGED omission semantics")
    else if !i.cashWeight.Absent? then Err("DELTA must not define cashWeight")
    else
      var delta :- Numeric(i.cashWeightDelta, "cashWeightDelta");
      if !(-1.0 <= delta <= 1.0) then Err("cashWeightDelta must be between -1 and 1")
      else Ok(Canonical(h, Some(DELTA), UNCHANGED, None, Some(delta), supersedes, Sort(ItemLe, s.items), DeltaExposure(s)))
  }

  function FinishCashOnly(i: Instruction, h: Header, s: Scanned, supersedes: Option<string>): Result<Canonical> {
    if s.items != [] then Err("CASH_ONLY must not contain target rows")
    else
      var cash :- Numeric(i.cashWeight, "cashWeight");
      if Abs(cash - 1.0) > TOLERANCE || !i.cashWeightDelta.Absent? then Err("CASH_ONLY requires cashWeight=1 and no cashWeightDelta")
      else Ok(Canonical(h, Some(FULL_SNAPSHOT), ZERO_TARGET, Some(cash), None, supersedes, Sort(ItemLe, s.items), FullExposure(s)))
  }

  predicate CarriesInstructions(i: Instruction, s: Scanned) {
    s.items != [] || i.targetSemantics.Some? || !i.cashWeight.Absent? || !i.cashWeightDelta.Absent?
  }

  function Finish(i: Instruction, h: Header, s: Scanned): Result<Canonical> {
    var supersedes :- ReadSupersedes(i.supersedesArtifactId);
    match h.kind
    case TARGETS => FinishTargets(i, h, s, supersedes)
    case CASH_ONLY => FinishCashOnly(i, h, s, supersedes)
    case NO_SIGNAL =>
      if CarriesInstructions(i, s) then Err("NO_SIGNAL must not contain targets, target semantics, or cash instructions")
      else if supersedes.Some? then Err("NO_SIGNAL must not supersede an earlier target")
      else Ok(Canonical(h, None, UNCHANGED, None, None, supersedes, Sort(ItemLe, s.items), FullExposure(s)))
    case REVOKE =>
      if CarriesInstructions(i, s) then Err("REVOKE must not contain targets, target semantics, or cash instructions")
      else if supersedes.None? then Err("REVOKE requires supersedesArtifactId")
      else Ok(Canonical(h, None, UNCHANGED, None, None, supersedes, Sort(ItemLe, s.items), FullExposure(s)))
  }

  function Canonicalize(i: Instruction, observedAt: Option<int>): Result<Canonical> {
    var h :- ReadHeader(i, observedAt);
    var s :- Scan(h, i.targets);
    Finish(i, h, s)
  }

  /** `assert_target_instruction_executable_at`. */
  function ExecutableAt(i: Instruction, at: int): Result<Canonical> {
    var c :- Canonicalize(i, Some(at));
    if c.header.kind == NO_SIGNAL || c.header.kind == REVOKE then Err("a control instruction, not an execution target")
    else if at < c.header.times.tradeNotBefore then Err("target instruction is not executable yet")
    else Ok(c)
  }

  method CanonicalizeTargetInstructionV3(i: Instruction, observedAt: Option<int>) returns (r: Result<Canonical>)
    ensures r == Canonicalize(i, observedAt)
  {
    var h := ReadHeader(i, observedAt);
    if h.Err? {
      return Err(h.reason);
    }
    var s := ScanTargets(h.value, i.targets);
    if s.Err? {
      return Err(s.reason);
    }
    r := Finish(i, h.value, s.value);
  }

  // ----- the canonical form as an instruction

  function Maybe(value: Option<real>): Number { if value.Some? then Number(value.value) else Absent }

  function AsRow(item: Item): Row {
    match item.fx
    case None => Row(item.instrument, Number(item.weight), item.currency, Maybe(item.score), Absent, NoTime, None)
    case Some(fx) =>
      Row(item.instrument, Number(item.weight), item.currency, Maybe(item.score), Number(fx.rate), At(fx.availableAt), Some(fx.quoteId))
  }

  function AsRows(items: seq<Item>): (rows: seq<Row>)
    ensures |rows| == |items| && forall k :: 0 <= k < |items| ==> rows[k] == AsRow(items[k])
  {
    seq(|items|, k requires 0 <= k < |items| => AsRow(items[k]))
  }

  function KindText(kind: InstructionType): string {
    match kind
    case TARGETS => "TARGETS"
    case CASH_ONLY => "CASH_ONLY"
    case NO_SIGNAL => "NO_SIGNAL"
    case REVOKE => "REVOKE"
  }

  function SemanticsText(s: Option<Semantics>): Option<string> {
    match s
    case None => None
    case Some(FULL_SNAPSHOT) => Some("FULL_SNAPSHOT")
    case Some(DELTA) => Some("DELTA")
  }

  function OmittedText(o: OmittedPolicy): string { if o.ZERO_TARGET? then "ZERO_TARGET" else "UNCHANGED" }

  function AsInstruction(c: Canonical): Instruction {
    var h, t := c.header, c.header.times;
    Instruction(
      SCHEMA_VERSION, KindText(h.kind), SemanticsText(c.semantics), Some(OmittedText(c.omitted)),
      h.baseCurrency, h.valuationBasis, h.calendarId, h.calendarSha, h.policySha,
      Timing(At(t.asOf), At(t.signal), At(t.produced), At(t.validFrom), At(t.tradeNotBefore), At(t.validUntil)),
      Number(h.maxGross), Number(h.maxNet), Number(h.fxMaxAge as real),
      Maybe(c.cashWeight), Maybe(c.cashWeightDelta), if c.supersedes.Some? then c.supersedes.value else "", AsRows(c.targets))
  }
}
