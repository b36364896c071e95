/** The nested form of a payload: its sections carry the fields of a flat record, and it validates to that record. */
module Project1Nested {
  import opened Values
  import opened Text
  import opened Project1Records
  import opened Project1Listing
  import opened Project1Contract
  import opened Project1NormalForm

  /** The fields a nested payload has beside its sections. */
  predicate KeptAtTop(f: Field) {
    || f.EventId? || f.ContractVersion? || f.SourceId? || f.CorrelationId? || f.UserId? || f.TenantId? || f.EventType?
    || f.Timestamp? || f.Mtf?
    || f.SignalSection? || f.InstrumentSection? || f.TradeSetupSection? || f.ProvenanceSection?
  }

  /** n is a trading signal in the nested form that carries the values of the flat record s: each in its section, the
      time as an ISO-8601 text of the same instant, the metadata as provenance. */
  ghost predicate Nests(n: Record, s: Record, host: Host) {
    && Get(n, SignalSection).Obj? && Get(n, InstrumentSection).Obj? && Get(n, TradeSetupSection).Obj?
    && (forall f | !KeptAtTop(f) :: f !in n)
    && InSignal(Section(n, SignalSection), s)
    && InInstrument(Section(n, InstrumentSection), s)
    && InSetup(Section(n, TradeSetupSection), s)
    && Get(s, Metadata) == Obj(Section(n, ProvenanceSection))
    && Quiet(Section(n, ProvenanceSection))
    && Get(n, EventType) == Str("TRADING_SIGNAL") && AtTop(n, s, host) && Get(s, Timeframe) != Str("")
  }

  ghost predicate InSignal(signal: map<string, Json>, s: Record) {
    && Entry(signal, "publication_id") == Get(s, PublicationId) && Entry(signal, "signal_id") == Get(s, SignalId)
    && Entry(signal, "decision_id") == Get(s, DecisionId) && Entry(signal, "candidate_id") == Get(s, CandidateId)
    && Entry(signal, "research_evidence_id") == Get(s, ResearchEvidenceId)
    && Entry(signal, "research_fingerprint") == Get(s, ResearchFingerprint)
    && Entry(signal, "canonical_live_decision_fingerprint") == Get(s, CanonicalLiveDecisionFingerprint)
    && Entry(signal, "runtime_authorization_fingerprint") == Get(s, RuntimeAuthorizationFingerprint)
    && Entry(signal, "lifecycle_state") == Get(s, LifecycleState)
    && Entry(signal, "decision") == Get(s, SignalType) && "signal_label" !in signal
    && Entry(signal, "strategy") == Get(s, StrategyName)
    && Entry(signal, "strategy_version") == Get(s, StrategyVersion)
    && Entry(signal, "confidence") == Get(s, Confidence)
    && Entry(signal, "operational_stability_score") == Get(s, OperationalStabilityScore)
    && "stability_score" !in signal
  }

  ghost predicate InInstrument(instrument: map<string, Json>, s: Record) {
    && Entry(instrument, "symbol") == Get(s, Symbol) && Entry(instrument, "interval") == Get(s, Timeframe)
    && "timeframe" !in instrument
  }

  ghost predicate InSetup(setup: map<string, Json>, s: Record) {
    && Entry(setup, "entry_price") == Get(s, EntryPrice) && Entry(setup, "stop_loss") == Get(s, StopLoss)
    && Entry(setup, "tp1") == Get(s, TakeProfit1) && Entry(setup, "tp2") == Get(s, TakeProfit2)
    && Entry(setup, "tp3") == Get(s, TakeProfit3)
    && "take_profit_1" !in setup && "take_profit_2" !in setup && "take_profit_3" !in setup
    && Entry(setup, "risk_reward_ratio") == Get(s, RiskRewardRatio)
    && Entry(setup, "trailing_stop") == Get(s, TrailingStop)
    && Entry(setup, "requested_quantity") == Get(s, RequestedQuantity) && "quantity" !in setup
    && Entry(setup, "invalidation_condition") == Get(s, InvalidationCondition)
  }

  /** The provenance holds no lineage of its own. */
  ghost predicate Quiet(provenance: map<string, Json>) {
    && "research_evidence_id" !in provenance && "research_fingerprint" !in provenance
    && "canonical_live_decision_fingerprint" !in provenance && "runtime_authorization_fingerprint" !in provenance
    && "strategy_version" !in provenance
  }

  ghost predicate AtTop(n: Record, s: Record, host: Host) {
    && Get(n, EventId) == Get(s, EventId) && Get(n, Mtf) == Get(s, Mtf)
    && ContractVersion in n && n[ContractVersion] == Get(s, ContractVersion)
    && SourceId in n && n[SourceId] == Get(s, SourceId)
    && Get(n, CorrelationId) == Get(s, CorrelationId) && Get(n, UserId) == Get(s, UserId)
    && Get(n, TenantId) == Get(s, TenantId)
    && Timestamp in n && NonBlank(n[Timestamp]) && Get(s, Timestamp).Num?
    && ParseIso(n[Timestamp].s, host.clock) == Some(Get(s, Timestamp).r)
  }

  /** What validation reads from a record that it gives back unchanged. */
  ghost predicate Fixed(s: Record, host: Host) {
    Accepted(s, host) && Canonical(s, host) == s && Flat(s) && Settled(s)
  }

  lemma FixedPoint(s: Record, host: Host)
    requires Validated(s, host) == Valid(s)
    ensures Fixed(s, host)
  {
    hide Validated; hide Accepted; hide Canonical; hide Settled; hide Flat;
    ValidIsAccepted(s, host);
    CanonicalIsFlat(s, host);
    FixedIsSettled(s, host);
  }

  lemma NotAtTop(n: Record, s: Record, host: Host, f: Field)
    requires Nests(n, s, host) && !KeptAtTop(f)
    ensures f !in n && Get(n, f).Null?
  {
  }

  /** A text or nothing. */
  predicate TextOrNone(j: Json) {
    j.Null? || (j.Str? && j.s != "")
  }

  lemma OrNull(j: Json)
    ensures TextOrNone(j) ==> Or(j, Null) == j && Or(Or(j, Null), Null) == j && Or(Or(Or(j, Null), Null), Null) == j
    ensures Or(Null, j) == j
    ensures NonBlank(j) ==> TextOrNone(j) && forall k :: Or(j, k) == j
  {
    assert Strip("") == "";
  }

  lemma SameIdentities(n: Record, s: Record, host: Host)
    requires Nests(n, s, host) && Flat(s)
    requires NonBlank(Get(s, EventId)) && NonBlank(Get(s, PublicationId)) && NonBlank(Get(s, SignalId))
    ensures PublicationOf(n) == PublicationOf(s) && EventOf(n) == EventOf(s) && SignalIdOf(n) == SignalIdOf(s)
    ensures IntegrationOf(n) == IntegrationOf(s)
  {
    hide Get; hide Flat; hide Section; hide Or; hide NonBlank; hide TextOrNone;
    FlatSections(s);
    IdentitiesNotAtTop(n, s, host);
    NestedIdentities(n, s, host);
    hide Nests;
    OrNull(Get(s, EventId));
    OrNull(Get(s, PublicationId));
    OrNull(Get(s, SignalId));
  }

  lemma NestedIdentities(n: Record, s: Record, host: Host)
    requires Nests(n, s, host)
    ensures var signal := Section(n, SignalSection);
      && Entry(signal, "publication_id") == Get(s, PublicationId) && Entry(signal, "signal_id") == Get(s, SignalId)
      && Get(n, EventId) == Get(s, EventId)
  {
    hide InInstrument; hide InSetup; hide Quiet; hide Get; hide Section;
  }

  lemma IdentitiesNotAtTop(n: Record, s: Record, host: Host)
    requires Nests(n, s, host)
    ensures Get(n, PublicationId).Null? && Get(n, SignalId).Null?
  {
    hide Nests; hide Get;
    NotAtTop(n, s, host, PublicationId);
    NotAtTop(n, s, host, SignalId);
  }

  lemma SameText(n: Record, s: Record, host: Host, f: Field)
    requires Nests(n, s, host) && Flat(s) && SingleText(f) && TextOrNone(Get(s, f))
    ensures LineageOf(n, f) == Get(s, f)
  {
    hide Get; hide Flat; hide PublicationOf; hide EventOf; hide IntegrationOf; hide SignalIdOf; hide Section;
    hide InInstrument; hide InSetup; hide AtTop;
    SingleTextIsNested(f);
    NotAtTop(n, s, host, f);
  }

  lemma SingleTextIsNested(f: Field)
    requires SingleText(f)
    ensures !KeptAtTop(f)
  {
  }

  lemma LineageTexts(s: Record, host: Host, f: Field)
    requires Canonical(s, host) == s && SingleText(f) && Get(s, f) != Str("")
    ensures TextOrNone(Get(s, f))
  {
    hide Canonical; hide Get; hide LineageOf; hide GroupOf; hide Strip;
    SingleTextGroup(f);
    InLineage(s, host, f);
  }

  /** Identities and lineage come out the same. */
  lemma LineageSame(n: Record, s: Record, host: Host, f: Field)
    requires Nests(n, s, host) && Fixed(s, host) && GroupOf(f).LineageGroup?
    ensures LineageSlot(n, host, f) == LineageSlot(s, host, f)
  {
    hide Nests; hide Canonical; hide Accepted; hide Flat; hide GroupOf; hide Get; hide PublicationOf; hide EventOf;
    hide SignalIdOf; hide IntegrationOf; hide NonBlank; hide Stripped; hide TextOrNull; hide Traced; hide InSection;
    FixedIdentities(s, host);
    if SingleText(f) {
      OptionalText(f);
      LineageTexts(s, host, f);
      SameText(n, s, host, f);
      FlatLineage(s, f);
    } else {
      LineageFields(f);
      SameIdentities(n, s, host);
    }
  }

  lemma OptionalText(f: Field)
    requires SingleText(f)
    ensures f in OPTIONAL_TEXTS
  {
  }

  /** The identities of a record that validates to itself are not blank. */
  lemma FixedIdentities(s: Record, host: Host)
    requires Fixed(s, host)
    ensures NonBlank(Get(s, EventId)) && NonBlank(Get(s, PublicationId)) && NonBlank(Get(s, SignalId))
    ensures IdentityErrors(s) == []
  {
    hide Canonical; hide Flat; hide Errors; hide VersionOf; hide RatioOf; hide FloatOf; hide NonBlank; hide Get;
    hide PublicationOf; hide EventOf; hide SignalIdOf; hide IdentityErrors; hide TextOrNull; hide Stripped;
    hide CommandErrors; hide LifecycleErrors; hide SignalErrors; hide EpochOf; hide PriceErrors; hide ScoreErrors;
    hide TrailingErrors; hide MtfErrors;
    NoErrors(s, host);
    IdentityFixed(s, s, host);
    PublicationGet(s, host);
  }

  /** In the nested form each detail is read from its section. */
  lemma SameDetails(n: Record, s: Record, host: Host)
    requires Nests(n, s, host) && DetailTexts(s)
    ensures SymbolOf(n) == Get(s, Symbol) && TimeframeOf(n) == Get(s, Timeframe)
    ensures RawDecisionOf(n) == Get(s, SignalType) && LifecycleOf(n) == Get(s, LifecycleState)
    ensures StrategyOf(n) == Get(s, StrategyName) && StrategyVersionOf(n) == Get(s, StrategyVersion)
    ensures InvalidationOf(n) == Get(s, InvalidationCondition)
  {
    hide Get; hide Section; hide Or; hide TextOrNone; hide NonBlank;
    assert DetailField(Symbol) && DetailField(Timeframe) && DetailField(SignalType) && DetailField(LifecycleState)
        && DetailField(StrategyName) && DetailField(StrategyVersion) && DetailField(InvalidationCondition);
    DetailsNotAtTop(n, s, host);
    NestedDetails(n, s, host);
    hide Nests;
    OrNull(Get(s, Symbol)); OrNull(Get(s, Timeframe)); OrNull(Get(s, SignalType)); OrNull(Get(s, LifecycleState));
    OrNull(Get(s, StrategyName)); OrNull(Get(s, StrategyVersion)); OrNull(Get(s, InvalidationCondition));
  }

  lemma NestedDetails(n: Record, s: Record, host: Host)
    requires Nests(n, s, host)
    ensures var signal, instrument := Section(n, SignalSection), Section(n, InstrumentSection);
      && Entry(instrument, "symbol") == Get(s, Symbol) && Entry(instrument, "interval") == Get(s, Timeframe)
      && Entry(instrument, "timeframe").Null? && Entry(signal, "decision") == Get(s, SignalType)
      && Entry(signal, "lifecycle_state") == Get(s, LifecycleState) && Entry(signal, "strategy") == Get(s, StrategyName)
      && Entry(signal, "strategy_version") == Get(s, StrategyVersion) && Entry(signal, "signal_label").Null?
      && Entry(Section(n, ProvenanceSection), "strategy_version").Null?
      && Entry(Section(n, TradeSetupSection), "invalidation_condition") == Get(s, InvalidationCondition)
  {
    hide Get; hide Section; hide AtTop;
  }

  predicate DetailField(f: Field) {
    || f.Symbol? || f.Timeframe? || f.SignalType? || f.LifecycleState? || f.StrategyName? || f.StrategyVersion?
    || f.InvalidationCondition?
  }

  ghost predicate DetailTexts(s: Record) {
    forall f | DetailField(f) :: TextOrNone(Get(s, f))
  }

  lemma DetailsNotAtTop(n: Record, s: Record, host: Host)
    requires Nests(n, s, host)
    ensures Get(n, Symbol).Null? && Get(n, Timeframe).Null? && Get(n, SignalType).Null? && Get(n, Action).Null?
    ensures Get(n, LifecycleState).Null? && Get(n, StrategyName).Null? && Get(n, StrategyId).Null?
    ensures Get(n, StrategyVersion).Null? && Get(n, InvalidationCondition).Null?
  {
    hide Nests; hide Get;
    NotAtTop(n, s, host, Symbol); NotAtTop(n, s, host, Timeframe); NotAtTop(n, s, host, SignalType);
    NotAtTop(n, s, host, Action); NotAtTop(n, s, host, LifecycleState); NotAtTop(n, s, host, StrategyName);
    NotAtTop(n, s, host, StrategyId); NotAtTop(n, s, host, StrategyVersion);
    NotAtTop(n, s, host, InvalidationCondition);
  }

  /** And each number. */
  lemma SameNumbers(n: Record, s: Record, host: Host)
    requires Nests(n, s, host) && Flat(s)
    ensures RatioOf(n) == RatioOf(s) && ConfidenceOf(n) == ConfidenceOf(s) && StabilityOf(n) == StabilityOf(s)
    ensures QuantityOf(n) == QuantityOf(s)
  {
    FlatNumbers(s);
    NumbersNotAtTop(n, s, host);
    hide Get; hide Section; hide Flat; hide AtTop;
  }

  lemma NumbersNotAtTop(n: Record, s: Record, host: Host)
    requires Nests(n, s, host)
    ensures Get(n, RiskRewardRatio).Null? && Get(n, Confidence).Null? && Get(n, StabilityScore).Null?
    ensures Get(n, Quantity).Null? && OperationalStabilityScore !in n && RequestedQuantity !in n
  {
    hide Nests; hide Get;
    NotAtTop(n, s, host, RiskRewardRatio); NotAtTop(n, s, host, Confidence); NotAtTop(n, s, host, StabilityScore);
    NotAtTop(n, s, host, Quantity); NotAtTop(n, s, host, OperationalStabilityScore);
    NotAtTop(n, s, host, RequestedQuantity);
  }

  lemma SamePrice(n: Record, s: Record, host: Host, f: Field)
    requires Nests(n, s, host) && f in PRICES && PriceAllowed(Get(s, f))
    ensures PriceOf(n, f) == Get(s, f)
  {
    hide Get; hide Section;
    PriceIsNested(f);
    NotAtTop(n, s, host, f);
    NestedPrices(n, s, host);
    hide Nests; hide InSetup;
    if f.EntryPrice? || f.StopLoss? { LevelSame(n, s, f); } else { TargetSame(n, s, f); }
  }

  lemma LevelSame(n: Record, s: Record, f: Field)
    requires InSetup(Section(n, TradeSetupSection), s) && (f.EntryPrice? || f.StopLoss?) && Get(n, f).Null?
    ensures PriceOf(n, f) == Get(s, f)
  {
    hide Section; hide Get;
  }

  lemma TargetSame(n: Record, s: Record, f: Field)
    requires InSetup(Section(n, TradeSetupSection), s) && (f.TakeProfit1? || f.TakeProfit2? || f.TakeProfit3?)
    requires Get(n, f).Null? && PriceAllowed(Get(s, f))
    ensures PriceOf(n, f) == Get(s, f)
  {
    hide Section; hide Get;
  }

  lemma NestedPrices(n: Record, s: Record, host: Host)
    requires Nests(n, s, host)
    ensures InSetup(Section(n, TradeSetupSection), s)
  {
    hide InSignal; hide InInstrument; hide InSetup; hide Quiet; hide AtTop; hide Get; hide Section;
  }

  lemma PriceIsNested(f: Field)
    requires f in PRICES
    ensures !KeptAtTop(f) && (f.EntryPrice? || f.StopLoss? || f.TakeProfit1? || f.TakeProfit2? || f.TakeProfit3?)
  {
  }

  lemma HeaderSame(n: Record, s: Record, host: Host, f: Field)
    requires Nests(n, s, host) && Fixed(s, host) && GroupOf(f).HeaderGroup?
    ensures HeaderSlot(n, host, f) == HeaderSlot(s, host, f)
    ensures EpochOf(n, host).Some? && VersionOf(n, host) == VersionOf(s, host)
  {
    hide GroupOf; hide Strip; hide Canonical; hide Accepted; hide Flat; hide Settled; hide Get;
    SameHeader(n, s, host);
    HeaderFieldsAre(f);
    hide Nests; hide EpochOf; hide VersionOf;
  }

  lemma SameHeader(n: Record, s: Record, host: Host)
    requires Nests(n, s, host) && Fixed(s, host)
    ensures EpochOf(n, host) == EpochOf(s, host) && EpochOf(n, host).Some? && VersionOf(n, host) == VersionOf(s, host)
    ensures SourceId in n && SourceId in s && n[SourceId] == s[SourceId]
    ensures Get(n, CorrelationId) == Get(s, CorrelationId) && Get(n, UserId) == Get(s, UserId)
    ensures Get(n, TenantId) == Get(s, TenantId)
  {
    hide Canonical; hide Accepted; hide Flat; hide Settled; hide InSignal; hide InInstrument; hide InSetup; hide Quiet;
    HeaderIsHeld(s, host);
    AcceptedEpoch(s, host);
    EpochReads(n, s, host);
    hide ParseIso; hide NonBlank; hide EpochOf; hide Strip;
  }

  lemma HeaderIsHeld(s: Record, host: Host)
    requires Canonical(s, host) == s
    ensures SourceId in s && ContractVersion in s
  {
    hide Canonical; hide HeaderSlot;
    InHeader(s, host, SourceId);
    InHeader(s, host, ContractVersion);
  }

  lemma EpochReads(n: Record, s: Record, host: Host)
    requires IsNested(n) && Timestamp in n && NonBlank(n[Timestamp]) && Get(s, Timestamp).Num?
    requires ParseIso(n[Timestamp].s, host.clock) == Some(Get(s, Timestamp).r)
    ensures EpochOf(n, host) == Some(Get(s, Timestamp).r)
  {
    hide IsNested; hide NonBlank; hide ParseIso; hide Get;
  }

  lemma FixedDetails(s: Record, host: Host)
    requires Fixed(s, host) && Get(s, Timeframe) != Str("")
    ensures DetailTexts(s) && LifecycleErrors(s, host) == []
  {
    hide Canonical; hide Flat; hide Errors; hide VersionOf; hide RatioOf; hide FloatOf; hide NonBlank; hide Get;
    hide CommandErrors; hide LifecycleErrors; hide SignalErrors; hide EpochOf; hide PriceErrors; hide ScoreErrors;
    hide TrailingErrors; hide MtfErrors; hide IdentityErrors; hide DetailTexts;
    NoErrors(s, host);
    LifecycleIsNotEmpty(s, s, host);
    DecisionFixed(s, host);
    DetailsAreTexts(s, host);
  }

  lemma DetailsAreTexts(s: Record, host: Host)
    requires Canonical(s, host) == s && Settled(s) && Get(s, LifecycleState) != Str("")
    requires Get(s, Timeframe) != Str("") && NonBlank(Get(s, SignalType))
    ensures DetailTexts(s)
  {
    assert Strip("") == "";
    hide Canonical; hide Get; hide GroupOf; hide Strip; hide OneOf;
    forall f | DetailField(f)
      ensures TextOrNone(Get(s, f))
    {
      DetailFieldGroup(f);
      DetailTextOrNull(s, s, host, f);
      if f.StrategyName? || f.StrategyVersion? || f.InvalidationCondition? { StrategyIsOptional(f); }
    }
  }

  lemma DetailFieldGroup(f: Field)
    requires DetailField(f)
    ensures GroupOf(f).DetailGroup?
  {
  }

  lemma StrategyIsOptional(f: Field)
    requires f.StrategyName? || f.StrategyVersion? || f.InvalidationCondition?
    ensures f in OPTIONAL_TEXTS
  {
  }

  lemma NestedEmits(n: Record, s: Record, host: Host)
    requires Nests(n, s, host)
    ensures Emits(n, host) && CommandErrors(n, host) == []
  {
    hide Get; hide InSignal; hide InInstrument; hide InSetup; hide Quiet; hide AtTop; hide IsNested;
    NotAtTop(n, s, host, CommandType);
    TradingSignalEmits(n, host);
    hide Nests;
  }

  lemma TradingSignalEmits(n: Record, host: Host)
    requires Get(n, CommandType).Null? && Get(n, EventType) == Str("TRADING_SIGNAL")
    ensures Emits(n, host) && OneOf(EventTypeOf(n), ALLOWED_EVENT_TYPES)
  {
    hide Get;
    assert ALLOWED_EVENT_TYPES[0] == "TRADING_SIGNAL";
  }

  lemma DetailSame(n: Record, s: Record, host: Host, f: Field)
    requires Nests(n, s, host) && Fixed(s, host)
    ensures DetailOf(n, host, f) == DetailOf(s, host, f) && LifecycleErrors(n, host) == LifecycleErrors(s, host)
    ensures SignalErrors(n, host) == SignalErrors(s, host)
  {
    hide Accepted; hide Canonical; hide Settled; hide Flat; hide Get; hide Emits; hide Strip; hide Upper; hide Nests;
    hide Lower; hide Dashed; hide NonBlank; hide SymbolOf; hide TimeframeOf; hide RawDecisionOf; hide LifecycleOf;
    hide DecisionOf; hide SignalErrors;
    hide StrategyOf; hide StrategyVersionOf; hide InvalidationOf; hide Spell;
    SourcesSame(n, s, host);
    NestedEmits(n, s, host);
    CanonicalEmits(s, host);
    hide CommandErrors; hide EventTypeOf; hide CommandOf; hide Truthy;
    DecisionsSame(n, s, host);
  }

  lemma DecisionsSame(n: Record, s: Record, host: Host)
    requires RawDecisionOf(n) == RawDecisionOf(s) && Emits(n, host) && Emits(s, host) && SymbolOf(n) == SymbolOf(s)
    ensures DecisionOf(n, host) == DecisionOf(s, host) && SignalErrors(n, host) == SignalErrors(s, host)
  {
    hide RawDecisionOf; hide Emits; hide NonBlank; hide Strip; hide Lower; hide Dashed; hide SymbolOf;
  }

  lemma SourcesSame(n: Record, s: Record, host: Host)
    requires Nests(n, s, host) && Fixed(s, host)
    ensures SymbolOf(n) == SymbolOf(s) && TimeframeOf(n) == TimeframeOf(s) && RawDecisionOf(n) == RawDecisionOf(s)
    ensures LifecycleOf(n) == LifecycleOf(s) && StrategyOf(n) == StrategyOf(s)
    ensures StrategyVersionOf(n) == StrategyVersionOf(s) && InvalidationOf(n) == InvalidationOf(s)
  {
    hide Accepted; hide Canonical; hide Settled; hide Flat; hide Get; hide DetailTexts; hide SymbolOf; hide TimeframeOf;
    hide RawDecisionOf; hide LifecycleOf; hide StrategyOf; hide StrategyVersionOf; hide InvalidationOf; hide Truthy;
    TimeframeGiven(n, s, host);
    hide Nests;
    FixedDetails(s, host);
    SameDetails(n, s, host);
    FlatDetails(s);
    TextsAreTruthy(s);
  }

  lemma TimeframeGiven(n: Record, s: Record, host: Host)
    requires Nests(n, s, host)
    ensures Get(s, Timeframe) != Str("")
  {
  }

  lemma TextsAreTruthy(s: Record)
    requires DetailTexts(s)
    ensures forall f: Field | f.SignalType? || f.LifecycleState? || f.StrategyName? || f.StrategyVersion? ::
      Get(s, f).Null? || Truthy(Get(s, f))
  {
    hide Get;
    forall f: Field | f.SignalType? || f.LifecycleState? || f.StrategyName? || f.StrategyVersion?
      ensures Get(s, f).Null? || Truthy(Get(s, f))
    {
      assert DetailField(f);
    }
  }

  lemma NumberSame(n: Record, s: Record, host: Host, f: Field)
    requires Nests(n, s, host) && Fixed(s, host) && GroupOf(f).NumberGroup?
    ensures NumberSlot(n, host, f) == NumberSlot(s, host, f)
  {
    hide Nests; hide Accepted; hide Canonical; hide Settled; hide Flat; hide Get; hide PriceOf; hide GroupOf;
    hide RatioOf; hide ConfidenceOf; hide StabilityOf; hide QuantityOf; hide FloatOf; hide PriceAllowed;
    NumberFields(f);
    SameNumbers(n, s, host);
    if f in PRICES {
      AcceptedBounds(s, host);
      SamePrice(n, s, host, f);
      FlatPrice(s, f);
    }
  }

  lemma ObjectsSame(n: Record, s: Record, host: Host)
    requires Nests(n, s, host) && Fixed(s, host)
    ensures TrailingOf(n) == TrailingOf(s) && Get(n, Mtf) == Get(s, Mtf) && MetadataFor(n) == MetadataFor(s)
  {
    hide Accepted; hide Canonical; hide Settled; hide Flat;
    ObjectsNotAtTop(n, s, host);
    FlatObjects(s);
    TrailingIsTruthy(s, host);
    NestedObjects(n, s, host);
    hide Nests; hide Get; hide Truthy;
  }

  lemma ObjectsNotAtTop(n: Record, s: Record, host: Host)
    requires Nests(n, s, host)
    ensures Get(n, TrailingStop).Null? && Get(n, Metadata).Null? && Get(n, ProvenanceType).Null? && IsLive !in n
    ensures Get(n, Source).Null?
  {
    hide Nests; hide Get;
    NotAtTop(n, s, host, TrailingStop); NotAtTop(n, s, host, Metadata); NotAtTop(n, s, host, ProvenanceType);
    NotAtTop(n, s, host, IsLive); NotAtTop(n, s, host, Source);
  }

  lemma TrailingIsTruthy(s: Record, host: Host)
    requires Canonical(s, host) == s
    ensures Get(s, TrailingStop).Null? || Truthy(Get(s, TrailingStop))
  {
    hide Canonical; hide TrailingOf; hide Get;
    InObjects(s, host, TrailingStop);
    if TrailingOf(s).Obj? {
      assert "distance" in TrailingDict(TrailingOf(s).entries);
    }
  }

  lemma NestedObjects(n: Record, s: Record, host: Host)
    requires Nests(n, s, host) && Get(n, Metadata).Null? && Get(n, ProvenanceType).Null? && IsLive !in n
    requires Get(n, Source).Null?
    ensures Entry(Section(n, TradeSetupSection), "trailing_stop") == Get(s, TrailingStop) && Get(n, Mtf) == Get(s, Mtf)
    ensures MetadataFor(n) == MetadataOf(s)
  {
    hide InSignal; hide InInstrument; hide Quiet; hide Get; hide Section;
    assert Get(s, Metadata) == Obj(Section(n, ProvenanceSection));
    assert InSetup(Section(n, TradeSetupSection), s) && AtTop(n, s, host);
    hide Nests;
    MetadataReads(n, s);
  }

  lemma MetadataReads(n: Record, s: Record)
    requires Get(n, Metadata).Null? && Get(n, ProvenanceType).Null? && IsLive !in n && Get(n, Source).Null?
    requires Get(s, Metadata) == Obj(Section(n, ProvenanceSection))
    ensures MetadataFor(n) == MetadataOf(s)
  {
    hide Get; hide Section;
    assert MetadataOf(n) + Section(n, ProvenanceSection) == Section(n, ProvenanceSection);
  }

  lemma SlotSame(n: Record, s: Record, host: Host, f: Field)
    requires Nests(n, s, host) && Fixed(s, host)
    ensures Slot(n, host, f) == Slot(s, host, f)
  {
    hide Nests; hide Fixed; hide GroupOf; hide LineageSlot; hide HeaderSlot; hide NumberSlot; hide DetailOf; hide Cased;
    hide Strip; hide TrailingOf; hide MetadataFor; hide TrailingDict; hide MtfDict; hide Get;
    match GroupOf(f)
    case LineageGroup => LineageSame(n, s, host, f);
    case HeaderGroup => HeaderSame(n, s, host, f);
    case DetailGroup => DetailSame(n, s, host, f);
    case NumberGroup => NumberSame(n, s, host, f);
    case ObjectGroup =>
      ObjectsSame(n, s, host);
      ObjectFields(f);
    case NoGroup =>
  }

  lemma NestedIsAccepted(n: Record, s: Record, host: Host)
    requires Nests(n, s, host) && Fixed(s, host)
    ensures Accepted(n, host)
  {
    hide Nests; hide Canonical; hide Settled; hide Flat; hide Get; hide PriceOf; hide GroupOf; hide NonBlank;
    hide RatioOf; hide ConfidenceOf; hide StabilityOf; hide QuantityOf; hide FloatOf; hide PriceAllowed; hide Errors;
    hide VersionOf; hide EpochOf; hide CommandErrors; hide LifecycleErrors; hide SignalErrors; hide PriceErrors;
    hide TrailingOf; hide IntegrationOf; hide SignalIdOf; hide TrailingAllowed; hide MtfAllowed; hide ShareAllowed;
    NoErrors(s, host);
    NoErrors(n, host);
    NestedEmits(n, s, host);
    FixedIdentities(s, host);
    SameIdentities(n, s, host);
    DetailSame(n, s, host, Symbol);
    SameHeader(n, s, host);
    SameNumbers(n, s, host);
    NestedPricesAllowed(n, s, host);
    ObjectsSame(n, s, host);
  }

  lemma NestedPricesAllowed(n: Record, s: Record, host: Host)
    requires Nests(n, s, host) && Fixed(s, host)
    ensures PriceErrors(n, PRICES) == []
  {
    hide Nests; hide Accepted; hide Canonical; hide Settled; hide Flat; hide Get; hide PriceOf; hide PriceAllowed;
    AcceptedBounds(s, host);
    forall f | f in PRICES
      ensures PriceAllowed(PriceOf(n, f))
    {
      SamePrice(n, s, host, f);
    }
    PricesAllowed(n, PRICES);
  }

  /** A nested payload that carries the values of a canonical record validates to exactly that record: the two forms of
      the contract agree, section by section and key by key. */
  lemma NestedValidatesToFlat(n: Record, s: Record, host: Host)
    requires Validated(s, host) == Valid(s) && Nests(n, s, host)
    ensures Validated(n, host) == Valid(s)
  {
    FixedPoint(s, host);
    NestedIsAccepted(n, s, host);
    forall f
      ensures Slot(n, host, f) == Slot(s, host, f)
    {
      SlotSame(n, s, host, f);
    }
    SameSlots(n, s, host);
    hide Canonical; hide Nests; hide Settled; hide Flat; hide Slot; hide Errors; hide VersionOf; hide RatioOf;
    hide FloatOf;
  }
}
