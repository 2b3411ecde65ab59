/** Which instructions the canonicaliser accepts, and what every field of the canonical form says about the
    instruction it came from (artifacts/artifact_contract_v3.py). */
module InstructionMeaning {
  import opened Basics
  import opened Sorting
  import opened TargetInstruction
  import opened TargetInstructionProofs

  // ----- the header

  predicate IsKind(text: string, kind: InstructionType) {
    match kind
    case TARGETS => text == "TARGETS"
    case CASH_ONLY => text == "CASH_ONLY"
    case NO_SIGNAL => text == "NO_SIGNAL"
    case REVOKE => text == "REVOKE"
  }

  predicate IdentityReads(i: Instruction, h: Header) {
    && i.schemaVersion == "3.0" && IsKind(Trim(i.instructionType), h.kind)
    && h.baseCurrency == Upper(Trim(i.baseCurrency)) && IsCurrency(h.baseCurrency)
    && h.valuationBasis == Trim(i.valuationBasis) != ""
    && h.calendarId == Trim(i.calendarId) != ""
    && h.calendarSha == Trim(i.calendarSha) && IsSha(h.calendarSha)
    && h.policySha == Trim(i.policySha) && IsSha(h.policySha)
  }

  predicate TimesRead(i: Instruction, t: Times) {
    && i.timing == Timing(At(t.asOf), At(t.signal), At(t.produced), At(t.validFrom), At(t.tradeNotBefore), At(t.validUntil))
    && t.asOf <= t.signal <= t.produced
    && t.signal <= t.validFrom <= t.tradeNotBefore < t.validUntil
  }

  /** Produced in the observer's past and not expired. */
  predicate ObservedInTime(t: Times, observedAt: Option<int>) {
    observedAt.Some? ==> t.produced <= observedAt.value <= t.validUntil
  }

  /** Limits in order, and a whole number of seconds, at least one, cut down from what was given. */
  predicate RiskReads(i: Instruction, h: Header) {
    && i.maxGrossExposure == Number(h.maxGross) && i.maxAbsNetExposure == Number(h.maxNet)
    && 0.0 <= h.maxNet <= h.maxGross && h.maxGross > 0.0
    && i.fxMaxAgeSeconds.Number? && h.fxMaxAge >= 1
    && h.fxMaxAge as real <= i.fxMaxAgeSeconds.value < h.fxMaxAge as real + 1.0
  }

  lemma IdentityExactlyWhen(i: Instruction, h: Header)
    ensures ReadIdentity(i) == Ok((h.kind, h.baseCurrency, h.valuationBasis, h.calendarId, h.calendarSha, h.policySha))
       <==> IdentityReads(i, h)
  {
    hide Trim, Upper, IsCurrency, IsSha;
    ShaIsNotBlank();
    CurrencyIsNotBlank(i.baseCurrency);
  }

  /** The patterns of the fields: three capital letters; sixty-four lower-case hexadecimal digits; the same behind
      "art_"; two to ninety-six capitals, digits and separators that do not begin with a separator. */
  lemma PatternsExactlyWhen(s: string)
    ensures IsCurrency(s) <==> |s| == 3 && forall c :: c in s ==> 'A' <= c <= 'Z'
    ensures IsSha(s) <==> |s| == 64 && forall c :: c in s ==> c in "0123456789abcdef"
    ensures IsArtifactId("art_" + s) <==> IsSha(s)
    ensures IsInstrumentId(s) <==> 2 <= |s| <= 96 && s[0] !in "._:-" && forall c :: c in s ==> 'A' <= c <= 'Z' || '0' <= c <= '9' || c in "._:-"
  {
    hide IsCurrency, IsSha, IsInstrumentId, IsArtifactId;
    CurrencyPattern(s);
    ShaPattern(s);
    ArtifactPattern(s);
    InstrumentPattern(s);
  }

  lemma CurrencyPattern(s: string)
    ensures IsCurrency(s) <==> |s| == 3 && forall c :: c in s ==> 'A' <= c <= 'Z'
  {
    assert forall i :: 0 <= i < |s| ==> s[i] in s;
  }

  lemma ShaPattern(s: string)
    ensures IsSha(s) <==> |s| == 64 && forall c :: c in s ==> c in "0123456789abcdef"
  {
    forall c ensures IsHex(c) <==> c in "0123456789abcdef" {
      HexDigit(c);
    }
    hide IsHex;
    assert forall i :: 0 <= i < |s| ==> s[i] in s;
  }

  lemma HexDigit(c: char)
    ensures IsHex(c) <==> c in "0123456789abcdef"
  {}

  lemma ArtifactPattern(s: string)
    ensures IsArtifactId("art_" + s) <==> IsSha(s)
  {
    hide IsSha;
    assert ("art_" + s)[4..] == s && ("art_" + s)[..4] == "art_";
  }

  lemma InstrumentPattern(s: string)
    ensures IsInstrumentId(s) <==> 2 <= |s| <= 96 && s[0] !in "._:-" && forall c :: c in s ==> 'A' <= c <= 'Z' || '0' <= c <= '9' || c in "._:-"
  {
    assert forall i :: 0 <= i < |s| ==> s[i] in s;
  }

  lemma ShaIsNotBlank()
    ensures !IsSha("") && !IsInstrumentId("") && !IsCurrency("")
  {}

  lemma CurrencyIsNotBlank(value: string)
    ensures Trim(value) == "" ==> Upper(Trim(value)) == ""
  {
    hide Trim;
  }

  lemma TimesExactlyWhen(i: Instruction, t: Times, observedAt: Option<int>)
    ensures ReadTimes(i.timing) == Ok(t) && TimesRefusal(t, observedAt).None? <==> TimesRead(i, t) && ObservedInTime(t, observedAt)
  {}

  lemma RiskExactlyWhen(i: Instruction, h: Header)
    ensures ReadRisk(i) == Ok((h.maxGross, h.maxNet, h.fxMaxAge)) <==> RiskReads(i, h)
  {
    if i.fxMaxAgeSeconds.Number? {
      TruncatedExactlyWhen(i.fxMaxAgeSeconds.value, h.fxMaxAge);
    }
  }

  lemma TruncatedExactlyWhen(x: real, n: int)
    ensures Truncate(x) == n > 0 <==> n >= 1 && n as real <= x < n as real + 1.0
  {}

  predicate HeaderReads(i: Instruction, h: Header, observedAt: Option<int>) {
    IdentityReads(i, h) && TimesRead(i, h.times) && ObservedInTime(h.times, observedAt) && RiskReads(i, h)
  }

  lemma HeaderExactlyWhen(i: Instruction, h: Header, observedAt: Option<int>)
    ensures ReadHeader(i, observedAt) == Ok(h) <==> HeaderReads(i, h, observedAt)
  {
    hide ReadIdentity, ReadTimes, TimesRefusal, ReadRisk, IdentityReads, TimesRead, ObservedInTime, RiskReads;
    IdentityExactlyWhen(i, h);
    TimesExactlyWhen(i, h.times, observedAt);
    RiskExactlyWhen(i, h);
  }

  // ----- a target row

  /** The evidence is the row's own: a positive rate, not later than the as-of time nor older than allowed. */
  predicate FxReads(h: Header, row: Row, fx: FxEvidence) {
    && row.fxRateToBase == Number(fx.rate) && fx.rate > 0.0
    && row.fxAvailableAt == At(fx.availableAt) && fx.availableAt <= h.times.asOf <= fx.availableAt + h.fxMaxAge * 1000000
    && row.fxQuoteId.Some? && fx.quoteId == Trim(row.fxQuoteId.value) != ""
  }

  /** The item carries the row's instrument, weight, currency and score, and FX evidence exactly for a foreign
      currency. */
  predicate RowReads(h: Header, row: Row, item: Item) {
    && item.instrument == Upper(Trim(row.instrument)) && IsInstrumentId(item.instrument)
    && row.targetWeight == Number(item.weight) && -1.0 <= item.weight <= 1.0
    && item.currency == Upper(Trim(row.currency)) && IsCurrency(item.currency)
    && row.score == (if item.score.Some? then Number(item.score.value) else Absent)
    && (if item.currency == h.baseCurrency then
          item.fx.None? && row.fxRateToBase.Absent? && row.fxAvailableAt.NoTime? && row.fxQuoteId.None?
        else item.fx.Some? && FxReads(h, row, item.fx.value))
  }

  lemma FxExactlyWhen(h: Header, row: Row, fx: FxEvidence)
    requires row.fxQuoteId.Some?
    ensures ReadFx(h, row) == Ok(fx) <==> FxReads(h, row, fx)
  {
    hide Trim;
  }

  lemma RowExactlyWhen(h: Header, row: Row, item: Item)
    ensures ReadRow(h, row) == Ok(item) <==> RowReads(h, row, item)
  {
    hide Trim, Upper, IsCurrency, IsInstrumentId, ReadFx;
    ShaIsNotBlank();
    CurrencyIsNotBlank(row.instrument);
    CurrencyIsNotBlank(row.currency);
    if row.fxQuoteId.Some? && item.fx.Some? {
      FxExactlyWhen(h, row, item.fx.value);
    }
  }

  // ----- the four instruction types

  function Given(value: Option<real>): Number { if value.Some? then Number(value.value) else Absent }

  predicate SupersedesReads(i: Instruction, c: Canonical) {
    var id := Trim(i.supersedesArtifactId);
    if c.supersedes.None? then id == "" else c.supersedes.value == id && IsArtifactId(id)
  }

  predicate IsText(value: Option<string>, text: string) { value.Some? && Trim(value.value) == text }

  /** A snapshot names what it does with omitted names and how much cash it holds; a delta changes cash. */
  predicate TargetsRead(i: Instruction, c: Canonical, gross: real, net: real) {
    match c.semantics
    case None => false
    case Some(FULL_SNAPSHOT) =>
      && IsText(i.targetSemantics, "FULL_SNAPSHOT") && IsText(i.omittedInstrumentPolicy, "ZERO_TARGET") && c.omitted == ZERO_TARGET
      && c.cashWeight.Some? && 0.0 <= c.cashWeight.value <= 1.0 && c.cashWeightDelta.None?
      && gross <= c.header.maxGross + 0.000000000001
      && -c.header.maxNet - 0.000000000001 <= net <= c.header.maxNet + 0.000000000001
    case Some(DELTA) =>
      && IsText(i.targetSemantics, "DELTA") && IsText(i.omittedInstrumentPolicy, "UNCHANGED") && c.omitted == UNCHANGED
      && c.cashWeight.None? && c.cashWeightDelta.Some? && -1.0 <= c.cashWeightDelta.value <= 1.0
  }

  predicate BodyReads(i: Instruction, c: Canonical, gross: real, net: real) {
    && SupersedesReads(i, c)
    && i.cashWeight == Given(c.cashWeight) && i.cashWeightDelta == Given(c.cashWeightDelta)
    && c.exposure == (if c.semantics == Some(DELTA) then Exposure(None, None, Some(gross), Some(net))
                      else Exposure(Some(gross), Some(net), None, None))
    && match c.header.kind
       case TARGETS => c.targets != [] && TargetsRead(i, c, gross, net)
       case CASH_ONLY =>
         && c.targets == [] && c.semantics == Some(FULL_SNAPSHOT) && c.omitted == ZERO_TARGET && c.cashWeightDelta.None?
         && c.cashWeight.Some? && 0.999999999999 <= c.cashWeight.value <= 1.000000000001
       case NO_SIGNAL => ControlReads(i, c) && c.supersedes.None?
       case REVOKE => ControlReads(i, c) && c.supersedes.Some?
  }

  /** A control instruction carries nothing to trade. */
  predicate ControlReads(i: Instruction, c: Canonical) {
    && c.targets == [] && c.semantics.None? && i.targetSemantics.None? && c.omitted == UNCHANGED
    && c.cashWeight.None? && c.cashWeightDelta.None?
  }

  lemma SupersedesExactlyWhen(i: Instruction, c: Canonical)
    ensures ReadSupersedes(i.supersedesArtifactId) == Ok(c.supersedes) <==> SupersedesReads(i, c)
  {
    hide Trim, IsSha;
  }

  lemma TextExactlyWhen(value: Option<string>)
    ensures SemanticsOf(value) == Some(FULL_SNAPSHOT) <==> IsText(value, "FULL_SNAPSHOT")
    ensures SemanticsOf(value) == Some(DELTA) <==> IsText(value, "DELTA")
    ensures OmittedOf(value) == Some(ZERO_TARGET) <==> IsText(value, "ZERO_TARGET")
    ensures OmittedOf(value) == Some(UNCHANGED) <==> IsText(value, "UNCHANGED")
  {
    hide Trim;
  }

  lemma FinishTargetsExactlyWhen(i: Instruction, h: Header, s: Scanned, c: Canonical)
    requires c.header == h && c.targets == Sort(ItemLe, s.items) && (c.targets == [] <==> s.items == []) && h.kind == TARGETS
    requires SupersedesReads(i, c)
    ensures FinishTargets(i, h, s, c.supersedes) == Ok(c) <==> BodyReads(i, c, s.gross, s.net)
  {
    hide SemanticsOf, OmittedOf, IsText, Sort, SupersedesReads;
    TextExactlyWhen(i.targetSemantics);
    TextExactlyWhen(i.omittedInstrumentPolicy);
  }

  lemma FinishCashOnlyExactlyWhen(i: Instruction, h: Header, s: Scanned, c: Canonical)
    requires c.header == h && c.targets == Sort(ItemLe, s.items) && (c.targets == [] <==> s.items == []) && h.kind == CASH_ONLY
    requires SupersedesReads(i, c)
    ensures FinishCashOnly(i, h, s, c.supersedes) == Ok(c) <==> BodyReads(i, c, s.gross, s.net)
  {
    hide Sort, SupersedesReads;
  }

  lemma SupersedesKept(i: Instruction, h: Header, s: Scanned, supersedes: Option<string>)
    ensures var r := FinishTargets(i, h, s, supersedes); r.Ok? ==> r.value.supersedes == supersedes
    ensures var r := FinishCashOnly(i, h, s, supersedes); r.Ok? ==> r.value.supersedes == supersedes
  {
    hide Sort, SemanticsOf, OmittedOf, Abs;
  }

  lemma FinishExactlyWhen(i: Instruction, h: Header, s: Scanned, c: Canonical)
    requires c.header == h && c.targets == Sort(ItemLe, s.items) && (c.targets == [] <==> s.items == [])
    ensures Finish(i, h, s) == Ok(c) <==> BodyReads(i, c, s.gross, s.net)
  {
    hide Sort, FinishTargets, FinishCashOnly, SupersedesReads, TargetsRead, ReadSupersedes, IsText;
    SupersedesExactlyWhen(i, c);
    var supersedes := ReadSupersedes(i.supersedesArtifactId);
    if supersedes.Ok? {
      SupersedesKept(i, h, s, supersedes.value);
    }
    if SupersedesReads(i, c) {
      if h.kind == TARGETS {
        FinishTargetsExactlyWhen(i, h, s, c);
      } else if h.kind == CASH_ONLY {
        FinishCashOnlyExactlyWhen(i, h, s, c);
      }
    }
  }

  // ----- the whole instruction

  /** The items are the rows, one by one. */
  ghost predicate RowsRead(h: Header, rows: seq<Row>, items: seq<Item>) {
    |items| == |rows| && forall k :: 0 <= k < |rows| ==> RowReads(h, rows[k], items[k])
  }

  /** The canonical targets are the rows of the instruction, sorted by instrument, none named twice. */
  ghost predicate ListsRows(h: Header, rows: seq<Row>, targets: seq<Item>) {
    && DistinctInstruments(targets) && Sorted(ItemLe, targets)
    && exists items :: RowsRead(h, rows, items) && multiset(items) == multiset(targets)
  }

  lemma ReadItems(h: Header, rows: seq<Row>, items: seq<Item>)
    ensures RowsRead(h, rows, items) <==> Readable(h, rows) && items == Items(h, rows)
  {
    hide ReadRow, RowReads;
    forall k | 0 <= k < |rows| && k < |items| ensures RowReads(h, rows[k], items[k]) <==> ReadRow(h, rows[k]) == Ok(items[k]) {
      RowExactlyWhen(h, rows[k], items[k]);
    }
  }

  lemma ListedItems(h: Header, rows: seq<Row>, items: seq<Item>, targets: seq<Item>)
    requires RowsRead(h, rows, items) && multiset(items) == multiset(targets) && DistinctInstruments(targets) && Sorted(ItemLe, targets)
    ensures Scan(h, rows) == Ok(Totals(items)) && targets == Sort(ItemLe, items) && (targets == [] <==> items == [])
    ensures Totals(items).gross == Totals(targets).gross && Totals(items).net == Totals(targets).net && Totals(items).items == items
  {
    hide Scan, ReadRow, RowReads, Totals, ItemLe, Sort;
    ReadItems(h, rows, items);
    DistinctPermutation(targets, items);
    ScanExactlyWhen(h, rows);
    ItemLeOrder();
    DistinctHasNoTies(targets);
    SortSorted(ItemLe, targets);
    SortPermutation(ItemLe, targets, items);
    TotalsPermutation(items, targets);
    TotalsItems(items);
    assert |multiset(items)| == |multiset(targets)|;
  }

  lemma SortedItems(h: Header, rows: seq<Row>)
    requires Scan(h, rows).Ok?
    ensures ListsRows(h, rows, Sort(ItemLe, Scan(h, rows).value.items))
    ensures RowsRead(h, rows, Scan(h, rows).value.items)
  {
    hide Scan, ReadRow, RowReads, Totals, ItemLe, Sort;
    ScanExactlyWhen(h, rows);
    var items := Items(h, rows);
    TotalsItems(items);
    ReadItems(h, rows, items);
    ItemLeOrder();
    SortCorrect(ItemLe, items);
    DistinctPermutation(items, Sort(ItemLe, items));
  }

  /** The canonical form of an instruction is the one whose header, rows and type read as the instruction says, whose
      targets are its rows sorted by instrument, and whose exposures are their sums; an instruction without such a
      form is refused. */
  lemma CanonicalExactlyWhen(i: Instruction, observedAt: Option<int>, c: Canonical)
    ensures Canonicalize(i, observedAt) == Ok(c)
      <==> HeaderReads(i, c.header, observedAt) && ListsRows(c.header, i.targets, c.targets)
           && BodyReads(i, c, Sum(AbsWeights(c.targets)), Sum(Weights(c.targets)))
  {
    hide ReadHeader, HeaderReads, Scan, Finish, BodyReads, ListsRows, Sort, Sum;
    HeaderExactlyWhen(i, c.header, observedAt);
    if Canonicalize(i, observedAt) == Ok(c) {
      var s := Scan(ReadHeader(i, observedAt).value, i.targets).value;
      FinishKeepsHeader(i, ReadHeader(i, observedAt).value, s, c);
      SortedItems(c.header, i.targets);
      BodyOfItems(i, c.header, s, c);
    }
    if HeaderReads(i, c.header, observedAt) && ListsRows(c.header, i.targets, c.targets) {
      AcceptedItems(i, c);
    }
  }

  lemma BodyOfItems(i: Instruction, h: Header, s: Scanned, c: Canonical)
    requires c.header == h && Scan(h, i.targets) == Ok(s) && c.targets == Sort(ItemLe, s.items)
    ensures Finish(i, h, s) == Ok(c) <==> BodyReads(i, c, Sum(AbsWeights(c.targets)), Sum(Weights(c.targets)))
  {
    hide Scan, Finish, BodyReads, ItemLe, Sort, Sum, RowsRead;
    SortedItems(h, i.targets);
    var items := s.items;
    ItemLeOrder();
    SortCorrect(ItemLe, items);
    ListedItems(h, i.targets, items, c.targets);
    FinishExactlyWhen(i, h, s, c);
  }

  lemma AcceptedItems(i: Instruction, c: Canonical)
    requires ListsRows(c.header, i.targets, c.targets)
    ensures Scan(c.header, i.targets).Ok?
    ensures Finish(i, c.header, Scan(c.header, i.targets).value) == Ok(c)
       <==> BodyReads(i, c, Sum(AbsWeights(c.targets)), Sum(Weights(c.targets)))
  {
    hide Scan, Finish, BodyReads, ItemLe, Sort, Sum, RowsRead, Totals;
    var items :| RowsRead(c.header, i.targets, items) && multiset(items) == multiset(c.targets);
    ListedItems(c.header, i.targets, items, c.targets);
    BodyOfItems(i, c.header, Totals(items), c);
  }
}
