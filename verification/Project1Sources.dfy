/** Where every value of an accepted record comes from: the payload's own fields when it is flat, and its sections when
    it is nested. */
module Project1Sources {
  import opened Values
  import opened Text
  import opened Project1Records
  import opened Project1Listing
  import opened Project1Contract
  import opened Project1NormalForm

  /** The payload has none of the four sections. */
  predicate NoSections(raw: Record) {
    && !Get(raw, SignalSection).Obj? && !Get(raw, InstrumentSection).Obj?
    && !Get(raw, TradeSetupSection).Obj? && !Get(raw, ProvenanceSection).Obj?
  }

  /** A text as it is kept: stripped. A value that is not a text is spelled out first. */
  function Kept(j: Json, host: Host): Json {
    Str(Strip(if j.Str? then j.s else host.show(j)))
  }

  /** The first of two values that says anything. */
  function Either(a: Json, b: Json): Json {
    if Truthy(a) then a else b
  }

  /** Every price, score and quantity is the payload's own. */
  predicate NumbersOfFlat(raw: Record, rec: Record) {
    && Get(rec, EntryPrice) == Get(raw, EntryPrice) && Get(rec, StopLoss) == Get(raw, StopLoss)
    && Get(rec, TakeProfit1) == Get(raw, TakeProfit1) && Get(rec, TakeProfit2) == Get(raw, TakeProfit2)
    && Get(rec, TakeProfit3) == Get(raw, TakeProfit3) && Get(rec, Confidence) == Get(raw, Confidence)
    && Get(rec, OperationalStabilityScore)
       == (if OperationalStabilityScore in raw then raw[OperationalStabilityScore] else Get(raw, StabilityScore))
    && ((Get(raw, RiskRewardRatio).Num? || Get(raw, RiskRewardRatio).Null?) ==>
          Get(rec, RiskRewardRatio) == Get(raw, RiskRewardRatio))
    && (var quantity := if RequestedQuantity in raw then raw[RequestedQuantity] else Get(raw, Quantity);
        (quantity.Num? || quantity.Null?) ==> Get(rec, RequestedQuantity) == quantity)
    && (Get(raw, Timestamp).Num? ==> Get(rec, Timestamp) == Get(raw, Timestamp))
  }

  /** Every descriptive text is the payload's own, stripped and cased. */
  predicate TextsOfFlat(raw: Record, rec: Record) {
    && (Get(raw, Symbol).Str? ==> Get(rec, Symbol) == Str(Upper(Strip(Get(raw, Symbol).s))))
    && (Get(raw, LifecycleState).Str? && Get(raw, LifecycleState).s != "" ==>
          Get(rec, LifecycleState) == Str(Upper(Strip(Get(raw, LifecycleState).s))))
    && (Get(raw, Timeframe).Str? ==> Get(rec, Timeframe) == Str(Strip(Get(raw, Timeframe).s)))
    && (var name := Either(Get(raw, StrategyName), Get(raw, StrategyId));
        name.Str? ==> Get(rec, StrategyName) == Str(Strip(name.s)))
    && (Get(raw, StrategyVersion).Str? && Get(raw, StrategyVersion).s != "" ==>
          Get(rec, StrategyVersion) == Str(Strip(Get(raw, StrategyVersion).s)))
    && (Get(raw, InvalidationCondition).Str? && Get(raw, InvalidationCondition).s != "" ==>
          Get(rec, InvalidationCondition) == Str(Strip(Get(raw, InvalidationCondition).s)))
    && (var decision := Either(Get(raw, SignalType), Get(raw, Action));
        decision.Str? && Lower(Strip(decision.s)) in ["buy", "sell", "hold", "no-signal", "no-trade"] ==>
          Get(rec, SignalType) == Str(Lower(Strip(decision.s))))
  }

  /** A lineage text that the payload has is kept, stripped; one that it lacks is null. */
  predicate KeptOrNull(raw: Record, rec: Record, f: Field, host: Host) {
    Get(rec, f) == if Truthy(Get(raw, f)) then Kept(Get(raw, f), host) else Null
  }

  /** The ids and the lineage are the payload's own; a missing publication id is the event's or the integration's, a
      missing event id the integration's. */
  predicate IdsOfFlat(raw: Record, rec: Record, host: Host) {
    var event := Either(Get(raw, EventId), Get(raw, IntegrationId));
    var publication := Either(Get(raw, PublicationId), event);
    && Get(rec, SignalId) == Kept(Get(raw, SignalId), host)
    && Get(rec, PublicationId) == (if Truthy(publication) then Kept(publication, host) else Null)
    && Get(rec, EventId) == (if Truthy(event) then Kept(event, host) else Null)
    && Get(rec, IntegrationId) == Kept(Either(publication, Get(raw, SignalId)), host)
    && KeptOrNull(raw, rec, DecisionId, host) && KeptOrNull(raw, rec, CandidateId, host)
    && KeptOrNull(raw, rec, ResearchEvidenceId, host) && KeptOrNull(raw, rec, ResearchFingerprint, host)
    && KeptOrNull(raw, rec, CanonicalLiveDecisionFingerprint, host)
    && KeptOrNull(raw, rec, RuntimeAuthorizationFingerprint, host)
    && Get(rec, UserId) == Get(raw, UserId) && Get(rec, TenantId) == Get(raw, TenantId)
    && Get(rec, CorrelationId) == Get(raw, CorrelationId)
  }

  /** The trailing stop is the payload's: its distance and prices as they are, and whether it is active. */
  predicate TrailingOfFlat(raw: Record, rec: Record) {
    if Get(raw, TrailingStop).Obj? then TrailingKept(Get(raw, TrailingStop).entries, Get(rec, TrailingStop))
    else Get(rec, TrailingStop).Null?
  }

  predicate TrailingKept(e: map<string, Json>, kept: Json) {
    && kept.Obj?
    && Entry(kept.entries, "distance") == Entry(e, "distance")
    && Entry(kept.entries, "activation_price") == Entry(e, "activation_price")
    && Entry(kept.entries, "trailing_stop_loss") == Entry(e, "trailing_stop_loss")
    && Entry(kept.entries, "is_active") == Bool(Truthy(Entry(e, "is_active")))
  }

  /** An accepted flat payload gives a record that carries its values, each in its own field. */
  lemma FlatPayloadIsKept(raw: Record, host: Host)
    requires NoSections(raw) && Validated(raw, host).Valid?
    ensures var rec := Validated(raw, host).record;
      NumbersOfFlat(raw, rec) && TextsOfFlat(raw, rec) && IdsOfFlat(raw, rec, host) && TrailingOfFlat(raw, rec)
  {
    hide NumbersOfFlat; hide TextsOfFlat; hide IdsOfFlat; hide TrailingOfFlat; hide Canonical;
    NoErrors(raw, host);
    AcceptedFlatNumbers(raw, host);
    AcceptedFlatTexts(raw, host);
    AcceptedFlatIds(raw, host);
    AcceptedFlatTrailing(raw, host);
  }

  lemma FlatPrices(raw: Record)
    requires NoSections(raw)
    ensures PriceOf(raw, EntryPrice) == Get(raw, EntryPrice) && PriceOf(raw, StopLoss) == Get(raw, StopLoss)
    ensures PriceOf(raw, TakeProfit1) == Get(raw, TakeProfit1) && PriceOf(raw, TakeProfit2) == Get(raw, TakeProfit2)
    ensures PriceOf(raw, TakeProfit3) == Get(raw, TakeProfit3)
    ensures RatioOf(raw) == Get(raw, RiskRewardRatio) && ConfidenceOf(raw) == Get(raw, Confidence)
    ensures StabilityOf(raw)
         == if OperationalStabilityScore in raw then raw[OperationalStabilityScore] else Get(raw, StabilityScore)
    ensures QuantityOf(raw) == if RequestedQuantity in raw then raw[RequestedQuantity] else Get(raw, Quantity)
  {
  }

  predicate IsPrice(f: Field) {
    f.EntryPrice? || f.StopLoss? || f.TakeProfit1? || f.TakeProfit2? || f.TakeProfit3?
  }

  lemma PriceIsKept(raw: Record, host: Host, f: Field)
    requires IsPrice(f)
    ensures Get(Canonical(raw, host), f) == PriceOf(raw, f)
  {
    hide Canonical; hide PriceOf; hide Get;
    InNumbers(raw, host, f);
  }

  lemma ScoresAreKept(raw: Record, host: Host)
    ensures Get(Canonical(raw, host), Confidence) == ConfidenceOf(raw)
    ensures Get(Canonical(raw, host), OperationalStabilityScore) == StabilityOf(raw)
  {
    hide Canonical; hide ConfidenceOf; hide StabilityOf; hide Get;
    InNumbers(raw, host, Confidence);
    InNumbers(raw, host, OperationalStabilityScore);
  }

  lemma RatioIsKept(raw: Record, host: Host)
    ensures RatioOf(raw).Num? || RatioOf(raw).Null? ==> Get(Canonical(raw, host), RiskRewardRatio) == RatioOf(raw)
  {
    hide Canonical; hide RatioOf; hide Get;
    InNumbers(raw, host, RiskRewardRatio);
  }

  lemma QuantityIsKept(raw: Record, host: Host)
    ensures QuantityOf(raw).Num? || QuantityOf(raw).Null? ==>
      Get(Canonical(raw, host), RequestedQuantity) == QuantityOf(raw)
  {
    hide Canonical; hide QuantityOf; hide Get;
    InNumbers(raw, host, RequestedQuantity);
  }

  lemma AcceptedFlatNumbers(raw: Record, host: Host)
    requires NoSections(raw) && EpochOf(raw, host).Some?
    ensures NumbersOfFlat(raw, Canonical(raw, host))
  {
    hide Canonical; hide PriceOf; hide RatioOf; hide ConfidenceOf; hide StabilityOf; hide QuantityOf; hide Get;
    FlatPrices(raw);
    PriceIsKept(raw, host, EntryPrice); PriceIsKept(raw, host, StopLoss); PriceIsKept(raw, host, TakeProfit1);
    PriceIsKept(raw, host, TakeProfit2); PriceIsKept(raw, host, TakeProfit3);
    ScoresAreKept(raw, host);
    RatioIsKept(raw, host);
    QuantityIsKept(raw, host);
    FlatTime(raw, host);
  }

  lemma FlatTime(raw: Record, host: Host)
    requires NoSections(raw) && EpochOf(raw, host).Some?
    ensures Get(raw, Timestamp).Num? ==> Get(Canonical(raw, host), Timestamp) == Get(raw, Timestamp)
  {
    hide Canonical;
    InHeader(raw, host, Timestamp);
  }

  lemma FlatTexts(raw: Record)
    requires NoSections(raw)
    ensures SymbolOf(raw) == Get(raw, Symbol) && TimeframeOf(raw) == Get(raw, Timeframe)
    ensures LifecycleOf(raw) == Either(Get(raw, LifecycleState), Null)
    ensures StrategyOf(raw) == Either(Get(raw, StrategyName), Get(raw, StrategyId))
    ensures StrategyVersionOf(raw) == Either(Get(raw, StrategyVersion), Null)
    ensures InvalidationOf(raw) == Get(raw, InvalidationCondition)
    ensures RawDecisionOf(raw) == Either(Get(raw, SignalType), Get(raw, Action))
    ensures TrailingOf(raw) == Get(raw, TrailingStop)
  {
  }

  predicate IsDetail(f: Field) {
    || f.Symbol? || f.LifecycleState? || f.Timeframe? || f.StrategyName? || f.StrategyVersion?
    || f.InvalidationCondition?
  }

  /** A descriptive text is kept, stripped and cased. */
  lemma DetailIsKept(raw: Record, host: Host, f: Field)
    requires IsDetail(f)
    ensures var j := DetailOf(raw, host, f);
      j.Str? ==> Get(Canonical(raw, host), f)
                 == Str(if f.Symbol? || f.LifecycleState? then Upper(Strip(j.s)) else Strip(j.s))
  {
    hide Canonical; hide DetailOf; hide Get; hide Strip; hide Upper;
    InDetail(raw, host, f);
  }

  lemma NamedDetails(raw: Record, host: Host)
    ensures DetailOf(raw, host, Symbol) == SymbolOf(raw) && DetailOf(raw, host, LifecycleState) == LifecycleOf(raw)
    ensures DetailOf(raw, host, Timeframe) == TimeframeOf(raw) && DetailOf(raw, host, StrategyName) == StrategyOf(raw)
    ensures DetailOf(raw, host, StrategyVersion) == StrategyVersionOf(raw)
    ensures Truthy(InvalidationOf(raw)) ==> DetailOf(raw, host, InvalidationCondition) == InvalidationOf(raw)
  {
    hide SymbolOf; hide TimeframeOf; hide LifecycleOf; hide StrategyOf; hide StrategyVersionOf; hide InvalidationOf;
    hide DecisionOf; hide Truthy;
  }

  lemma AcceptedFlatTexts(raw: Record, host: Host)
    requires NoSections(raw)
    ensures TextsOfFlat(raw, Canonical(raw, host))
  {
    hide Canonical; hide SymbolOf; hide TimeframeOf; hide LifecycleOf; hide StrategyOf; hide StrategyVersionOf;
    hide InvalidationOf; hide RawDecisionOf; hide DecisionOf; hide Get; hide Strip; hide Lower; hide Upper;
    hide DetailOf;
    FlatTexts(raw);
    NamedDetails(raw, host);
    DetailIsKept(raw, host, Symbol); DetailIsKept(raw, host, LifecycleState); DetailIsKept(raw, host, Timeframe);
    DetailIsKept(raw, host, StrategyName); DetailIsKept(raw, host, StrategyVersion);
    DetailIsKept(raw, host, InvalidationCondition);
    DecisionIsKept(raw, host);
  }

  /** A decision that is one of the five words is kept, whatever command it comes with. */
  lemma DecisionIsKept(raw: Record, host: Host)
    ensures var d := RawDecisionOf(raw);
      d.Str? && Lower(Strip(d.s)) in ["buy", "sell", "hold", "no-signal", "no-trade"] ==>
        Get(Canonical(raw, host), SignalType) == Str(Lower(Strip(d.s)))
  {
    hide RawDecisionOf; hide Canonical; hide Get; hide Emits;
    var d := RawDecisionOf(raw);
    SignalTypeGet(raw, host);
    if d.Str? && Lower(Strip(d.s)) in ["buy", "sell", "hold", "no-signal", "no-trade"] {
      SignalTypesArePlain(Lower(Strip(d.s)));
      PlainIsDashed(Lower(Strip(d.s)));
      PlainIsFixed(Lower(Strip(d.s)));
      LowerIsNotBlank(d.s);
    }
    hide Strip; hide Lower; hide Dashed;
  }

  lemma PlainIsDashed(s: string)
    requires Plain(s)
    ensures Dashed(s) == s
  {
  }

  lemma LowerIsNotBlank(s: string)
    ensures Lower(Strip(s)) != "" ==> !Blank(s)
  {
    hide Strip;
  }

  lemma FlatIds(raw: Record)
    requires NoSections(raw)
    ensures var event := Either(Get(raw, EventId), Get(raw, IntegrationId));
      && EventOf(raw) == event && PublicationOf(raw) == Either(Get(raw, PublicationId), event)
      && SignalIdOf(raw) == Get(raw, SignalId)
      && Truthy(IntegrationOf(raw)) == Truthy(Either(Either(Get(raw, PublicationId), event), Get(raw, SignalId)))
      && IntegrationOf(raw) == Either(Either(Get(raw, PublicationId), event), Get(raw, SignalId))
    ensures forall f | f in {DecisionId, CandidateId, ResearchEvidenceId, ResearchFingerprint,
                             CanonicalLiveDecisionFingerprint, RuntimeAuthorizationFingerprint} ::
      LineageOf(raw, f) == Get(raw, f)
  {
  }

  predicate IsLineage(f: Field) {
    || f.DecisionId? || f.CandidateId? || f.ResearchEvidenceId? || f.ResearchFingerprint?
    || f.CanonicalLiveDecisionFingerprint? || f.RuntimeAuthorizationFingerprint? || f.PublicationId? || f.EventId?
  }

  /** A lineage text is kept, stripped, or null. */
  lemma LineageIsKept(raw: Record, host: Host, f: Field)
    requires IsLineage(f)
    ensures var j := LineageOf(raw, f); Get(Canonical(raw, host), f) == if Truthy(j) then Kept(j, host) else Null
  {
    hide Canonical; hide LineageOf; hide Get; hide Strip;
    InLineage(raw, host, f);
  }

  lemma IdIsKept(raw: Record, host: Host)
    ensures Get(Canonical(raw, host), IntegrationId) == Kept(IntegrationOf(raw), host)
    ensures Get(Canonical(raw, host), SignalId) == Kept(SignalIdOf(raw), host)
  {
    hide Canonical; hide IntegrationOf; hide SignalIdOf; hide Get; hide Strip;
    InLineage(raw, host, IntegrationId);
    InLineage(raw, host, SignalId);
  }

  lemma CallerIsKept(raw: Record, host: Host)
    ensures Get(Canonical(raw, host), UserId) == Get(raw, UserId)
    ensures Get(Canonical(raw, host), TenantId) == Get(raw, TenantId)
    ensures Get(Canonical(raw, host), CorrelationId) == Get(raw, CorrelationId)
  {
    hide Canonical; hide Get;
    InHeader(raw, host, UserId);
    InHeader(raw, host, TenantId);
    InHeader(raw, host, CorrelationId);
  }

  lemma AcceptedFlatIds(raw: Record, host: Host)
    requires NoSections(raw)
    ensures IdsOfFlat(raw, Canonical(raw, host), host)
  {
    hide Canonical; hide PublicationOf; hide EventOf; hide SignalIdOf; hide IntegrationOf; hide Get; hide Kept;
    hide Truthy; hide LineageOf;
    FlatIds(raw);
    NamedLineage(raw);
    IdIsKept(raw, host);
    LineageIsKept(raw, host, PublicationId); LineageIsKept(raw, host, EventId);
    LineageIsKept(raw, host, DecisionId); LineageIsKept(raw, host, CandidateId);
    LineageIsKept(raw, host, ResearchEvidenceId); LineageIsKept(raw, host, ResearchFingerprint);
    LineageIsKept(raw, host, CanonicalLiveDecisionFingerprint);
    LineageIsKept(raw, host, RuntimeAuthorizationFingerprint);
    CallerIsKept(raw, host);
  }

  lemma NamedLineage(raw: Record)
    ensures LineageOf(raw, PublicationId) == PublicationOf(raw) && LineageOf(raw, EventId) == EventOf(raw)
  {
  }

  /** A trailing stop that is an object is kept. */
  lemma TrailingIsKept(raw: Record, host: Host)
    ensures var kept := Get(Canonical(raw, host), TrailingStop);
      if TrailingOf(raw).Obj? then TrailingKept(TrailingOf(raw).entries, kept) else kept.Null?
  {
    hide Canonical; hide TrailingOf; hide Get; hide TrailingDict; hide TrailingKept;
    InObjects(raw, host, TrailingStop);
    if TrailingOf(raw).Obj? { DictIsKept(TrailingOf(raw).entries); }
  }

  lemma DictIsKept(e: map<string, Json>)
    ensures TrailingKept(e, Obj(TrailingDict(e)))
  {
    assert TRAILING_KEYS == {"distance", "activation_price", "is_active", "trailing_stop_loss"};
  }

  lemma AcceptedFlatTrailing(raw: Record, host: Host)
    requires NoSections(raw)
    ensures TrailingOfFlat(raw, Canonical(raw, host))
  {
    hide Canonical; hide TrailingOf; hide Get; hide TrailingKept;
    FlatTexts(raw);
    TrailingIsKept(raw, host);
  }

  /** The entries of a section, none if it is not there. */
  function Entries(raw: Record, section: Field): map<string, Json> {
    if Get(raw, section).Obj? then Get(raw, section).entries else map[]
  }

  /** A price is the section's if it has that key, else the payload's own. */
  predicate Sourced(kept: Json, section: map<string, Json>, key: string, own: Json) {
    kept == if key in section then section[key] else own
  }

  predicate NumberIfAny(kept: Json, given: Json) {
    given.Num? || given.Null? ==> kept == given
  }

  /** Prices, ratio, scores and quantity come from the trade setup and signal sections, key by key, and from the payload
      where those are silent. */
  predicate NumbersOfPayload(raw: Record, rec: Record) {
    var setup, signal := Entries(raw, TradeSetupSection), Entries(raw, SignalSection);
    && Sourced(Get(rec, EntryPrice), setup, "entry_price", Get(raw, EntryPrice))
    && Sourced(Get(rec, StopLoss), setup, "stop_loss", Get(raw, StopLoss))
    && Get(rec, TakeProfit1)
       == Either(Entry(setup, "tp1"), Either(Entry(setup, "take_profit_1"), Get(raw, TakeProfit1)))
    && Get(rec, TakeProfit2)
       == Either(Entry(setup, "tp2"), Either(Entry(setup, "take_profit_2"), Get(raw, TakeProfit2)))
    && Get(rec, TakeProfit3)
       == Either(Entry(setup, "tp3"), Either(Entry(setup, "take_profit_3"), Get(raw, TakeProfit3)))
    && Sourced(Get(rec, Confidence), signal, "confidence", Get(raw, Confidence))
    && (if "operational_stability_score" in signal then
          Get(rec, OperationalStabilityScore) == signal["operational_stability_score"]
        else
          Sourced(Get(rec, OperationalStabilityScore), signal, "stability_score",
                  if OperationalStabilityScore in raw then raw[OperationalStabilityScore]
                  else Get(raw, StabilityScore)))
    && NumberIfAny(Get(rec, RiskRewardRatio),
                   if "risk_reward_ratio" in setup then setup["risk_reward_ratio"] else Get(raw, RiskRewardRatio))
    && NumberIfAny(Get(rec, RequestedQuantity),
                   if "requested_quantity" in setup then setup["requested_quantity"]
                   else if "quantity" in setup then setup["quantity"]
                   else if RequestedQuantity in raw then raw[RequestedQuantity] else Get(raw, Quantity))
  }

  predicate TextIfAny(kept: Json, given: Json, text: string) {
    given.Str? && given.s != "" ==> kept == Str(text)
  }

  function TextOfJson(j: Json): string {
    if j.Str? then j.s else ""
  }

  /** Symbol and timeframe come from the instrument section, strategy and decision from the signal section, the version
      also from the provenance, and each from the payload where those say nothing. */
  predicate TextsOfPayload(raw: Record, rec: Record) {
    var setup, signal := Entries(raw, TradeSetupSection), Entries(raw, SignalSection);
    var instrument, provenance := Entries(raw, InstrumentSection), Entries(raw, ProvenanceSection);
    var symbol := Either(Entry(instrument, "symbol"), Get(raw, Symbol));
    var timeframe :=
      Either(Entry(instrument, "interval"), Either(Entry(instrument, "timeframe"), Get(raw, Timeframe)));
    var lifecycle := Either(Get(raw, LifecycleState), Entry(signal, "lifecycle_state"));
    var strategy := Either(Entry(signal, "strategy"), Either(Get(raw, StrategyName), Get(raw, StrategyId)));
    var version := Either(Entry(signal, "strategy_version"),
                          Either(Get(raw, StrategyVersion), Entry(provenance, "strategy_version")));
    var invalidation := Either(Entry(setup, "invalidation_condition"), Get(raw, InvalidationCondition));
    var decision := Either(Entry(signal, "decision"),
                           Either(Entry(signal, "signal_label"), Either(Get(raw, SignalType), Get(raw, Action))));
    && TextIfAny(Get(rec, Symbol), symbol, Upper(Strip(TextOfJson(symbol))))
    && TextIfAny(Get(rec, Timeframe), timeframe, Strip(TextOfJson(timeframe)))
    && TextIfAny(Get(rec, LifecycleState), lifecycle, Upper(Strip(TextOfJson(lifecycle))))
    && TextIfAny(Get(rec, StrategyName), strategy, Strip(TextOfJson(strategy)))
    && TextIfAny(Get(rec, StrategyVersion), version, Strip(TextOfJson(version)))
    && TextIfAny(Get(rec, InvalidationCondition), invalidation, Strip(TextOfJson(invalidation)))
    && (Lower(Strip(TextOfJson(decision))) in ["buy", "sell", "hold", "no-signal", "no-trade"] ==>
          Get(rec, SignalType) == Str(Lower(Strip(TextOfJson(decision)))))
  }

  predicate KeptAs(kept: Json, given: Json, host: Host) {
    kept == if Truthy(given) then Kept(given, host) else Null
  }

  /** The ids and the lineage come from the signal section, the research and authorization fingerprints also from the
      provenance, and each from the payload where those say nothing; only the publication id is the payload's first. */
  predicate IdsOfPayload(raw: Record, rec: Record, host: Host) {
    var signal, provenance := Entries(raw, SignalSection), Entries(raw, ProvenanceSection);
    var event := Either(Get(raw, EventId), Get(raw, IntegrationId));
    var publication := Either(Get(raw, PublicationId), Either(Entry(signal, "publication_id"), event));
    && Get(rec, SignalId) == Kept(Either(Entry(signal, "signal_id"), Get(raw, SignalId)), host)
    && KeptAs(Get(rec, PublicationId), publication, host) && KeptAs(Get(rec, EventId), event, host)
    && KeptAs(Get(rec, DecisionId),
              if "decision_id" in signal then signal["decision_id"] else Get(raw, DecisionId), host)
    && KeptAs(Get(rec, CandidateId),
              if "candidate_id" in signal then signal["candidate_id"] else Get(raw, CandidateId), host)
    && KeptAs(Get(rec, ResearchEvidenceId),
              Either(Entry(signal, "research_evidence_id"),
                     Either(Entry(provenance, "research_evidence_id"), Get(raw, ResearchEvidenceId))), host)
    && KeptAs(Get(rec, ResearchFingerprint),
              Either(Entry(signal, "research_fingerprint"),
                     Either(Entry(provenance, "research_fingerprint"), Get(raw, ResearchFingerprint))), host)
    && KeptAs(Get(rec, CanonicalLiveDecisionFingerprint),
              Either(Entry(signal, "canonical_live_decision_fingerprint"),
                     Either(Entry(provenance, "canonical_live_decision_fingerprint"),
                            Get(raw, CanonicalLiveDecisionFingerprint))), host)
    && KeptAs(Get(rec, RuntimeAuthorizationFingerprint),
              Either(Entry(signal, "runtime_authorization_fingerprint"),
                     Either(Entry(provenance, "runtime_authorization_fingerprint"),
                            Get(raw, RuntimeAuthorizationFingerprint))), host)
  }

  /** The trailing stop comes from the trade setup, or else from the payload. */
  predicate TrailingOfPayload(raw: Record, rec: Record) {
    var trailing := Either(Entry(Entries(raw, TradeSetupSection), "trailing_stop"), Get(raw, TrailingStop));
    if trailing.Obj? then TrailingKept(trailing.entries, Get(rec, TrailingStop)) else Get(rec, TrailingStop).Null?
  }

  /** The time of the event: the payload's, or else the signal's; in a nested payload it is a date. */
  predicate TimeOfPayload(raw: Record, rec: Record, host: Host) {
    var time := if Timestamp in raw then raw[Timestamp] else Entry(Entries(raw, SignalSection), "timestamp");
    && (time.Str? && host.clock.instant(Strip(time.s)).Some? ==>
          Get(rec, Timestamp) == Num(host.clock.instant(Strip(time.s)).value))
    && (NoSections(raw) && time.Num? ==> Get(rec, Timestamp) == time)
  }

  /** Every accepted payload, nested or flat, gives a record that carries what its sections hold, key by key, and the
      payload's own values where they hold nothing. */
  lemma PayloadIsKept(raw: Record, host: Host)
    requires Validated(raw, host).Valid?
    ensures var rec := Validated(raw, host).record;
      && NumbersOfPayload(raw, rec) && TextsOfPayload(raw, rec) && IdsOfPayload(raw, rec, host)
      && TrailingOfPayload(raw, rec) && TimeOfPayload(raw, rec, host)
  {
    hide NumbersOfPayload; hide TextsOfPayload; hide IdsOfPayload; hide TrailingOfPayload; hide TimeOfPayload;
    hide Canonical;
    AcceptedNumbers(raw, host);
    AcceptedTexts(raw, host);
    AcceptedLineage(raw, host);
    AcceptedTrailing(raw, host);
    AcceptedMoment(raw, host);
  }

  lemma PricesRead(raw: Record)
    ensures var setup := Entries(raw, TradeSetupSection);
      && Sourced(PriceOf(raw, EntryPrice), setup, "entry_price", Get(raw, EntryPrice))
      && Sourced(PriceOf(raw, StopLoss), setup, "stop_loss", Get(raw, StopLoss))
      && PriceOf(raw, TakeProfit1)
         == Either(Entry(setup, "tp1"), Either(Entry(setup, "take_profit_1"), Get(raw, TakeProfit1)))
      && PriceOf(raw, TakeProfit2)
         == Either(Entry(setup, "tp2"), Either(Entry(setup, "take_profit_2"), Get(raw, TakeProfit2)))
      && PriceOf(raw, TakeProfit3)
         == Either(Entry(setup, "tp3"), Either(Entry(setup, "take_profit_3"), Get(raw, TakeProfit3)))
  {
    hide Get; hide Truthy;
  }

  lemma AcceptedNumbers(raw: Record, host: Host)
    ensures NumbersOfPayload(raw, Canonical(raw, host))
  {
    hide Canonical; hide PriceOf; hide Get; hide Truthy; hide Either;
    PricesRead(raw);
    PriceIsKept(raw, host, EntryPrice); PriceIsKept(raw, host, StopLoss); PriceIsKept(raw, host, TakeProfit1);
    PriceIsKept(raw, host, TakeProfit2); PriceIsKept(raw, host, TakeProfit3);
    ScoresAreKept(raw, host);
    RatioIsKept(raw, host);
    QuantityIsKept(raw, host);
  }

  lemma TextsRead(raw: Record)
    ensures var setup, signal := Entries(raw, TradeSetupSection), Entries(raw, SignalSection);
      var instrument, provenance := Entries(raw, InstrumentSection), Entries(raw, ProvenanceSection);
      && SymbolOf(raw) == Either(Entry(instrument, "symbol"), Get(raw, Symbol))
      && TimeframeOf(raw)
         == Either(Entry(instrument, "interval"), Either(Entry(instrument, "timeframe"), Get(raw, Timeframe)))
      && LifecycleOf(raw) == Either(Get(raw, LifecycleState), Entry(signal, "lifecycle_state"))
      && StrategyOf(raw) == Either(Entry(signal, "strategy"), Either(Get(raw, StrategyName), Get(raw, StrategyId)))
      && StrategyVersionOf(raw)
         == Either(Entry(signal, "strategy_version"),
                   Either(Get(raw, StrategyVersion), Entry(provenance, "strategy_version")))
      && InvalidationOf(raw) == Either(Entry(setup, "invalidation_condition"), Get(raw, InvalidationCondition))
      && RawDecisionOf(raw)
         == Either(Entry(signal, "decision"),
                   Either(Entry(signal, "signal_label"), Either(Get(raw, SignalType), Get(raw, Action))))
      && TrailingOf(raw) == Either(Entry(setup, "trailing_stop"), Get(raw, TrailingStop))
  {
    hide Get; hide Truthy;
  }

  lemma AcceptedTexts(raw: Record, host: Host)
    ensures TextsOfPayload(raw, Canonical(raw, host))
  {
    hide Canonical; hide SymbolOf; hide TimeframeOf; hide LifecycleOf; hide StrategyOf; hide StrategyVersionOf;
    hide InvalidationOf; hide RawDecisionOf; hide DecisionOf; hide Get; hide Strip; hide Lower; hide Upper;
    hide DetailOf; hide Either; hide Entries;
    TextsRead(raw);
    NamedDetails(raw, host);
    DetailIsKept(raw, host, Symbol); DetailIsKept(raw, host, LifecycleState); DetailIsKept(raw, host, Timeframe);
    DetailIsKept(raw, host, StrategyName); DetailIsKept(raw, host, StrategyVersion);
    DetailIsKept(raw, host, InvalidationCondition);
    DecisionIsKept(raw, host);
    NothingIsNoDecision();
  }

  lemma NothingIsNoDecision()
    ensures Lower(Strip("")) == ""
  {
  }

  lemma LineageReadFromSignal(raw: Record)
    ensures var signal := Entries(raw, SignalSection);
      var event := Either(Get(raw, EventId), Get(raw, IntegrationId));
      && EventOf(raw) == event
      && PublicationOf(raw) == Either(Get(raw, PublicationId), Either(Entry(signal, "publication_id"), event))
      && SignalIdOf(raw) == Either(Entry(signal, "signal_id"), Get(raw, SignalId))
      && LineageOf(raw, DecisionId) == (if "decision_id" in signal then signal["decision_id"] else Get(raw, DecisionId))
      && LineageOf(raw, CandidateId)
         == (if "candidate_id" in signal then signal["candidate_id"] else Get(raw, CandidateId))
  {
    hide Get; hide Truthy;
  }

  lemma LineageTraced(raw: Record)
    ensures var signal, provenance := Entries(raw, SignalSection), Entries(raw, ProvenanceSection);
      && LineageOf(raw, ResearchEvidenceId)
         == Either(Entry(signal, "research_evidence_id"),
                   Either(Entry(provenance, "research_evidence_id"), Get(raw, ResearchEvidenceId)))
      && LineageOf(raw, ResearchFingerprint)
         == Either(Entry(signal, "research_fingerprint"),
                   Either(Entry(provenance, "research_fingerprint"), Get(raw, ResearchFingerprint)))
      && LineageOf(raw, CanonicalLiveDecisionFingerprint)
         == Either(Entry(signal, "canonical_live_decision_fingerprint"),
                   Either(Entry(provenance, "canonical_live_decision_fingerprint"),
                          Get(raw, CanonicalLiveDecisionFingerprint)))
      && LineageOf(raw, RuntimeAuthorizationFingerprint)
         == Either(Entry(signal, "runtime_authorization_fingerprint"),
                   Either(Entry(provenance, "runtime_authorization_fingerprint"),
                          Get(raw, RuntimeAuthorizationFingerprint)))
  {
    hide Get; hide Truthy;
  }

  lemma AcceptedLineage(raw: Record, host: Host)
    ensures IdsOfPayload(raw, Canonical(raw, host), host)
  {
    hide Canonical; hide PublicationOf; hide EventOf; hide SignalIdOf; hide IntegrationOf; hide Get; hide Kept;
    hide Truthy; hide LineageOf; hide Either; hide Entries;
    LineageReadFromSignal(raw);
    LineageTraced(raw);
    NamedLineage(raw);
    IdIsKept(raw, host);
    LineageIsKept(raw, host, PublicationId); LineageIsKept(raw, host, EventId);
    LineageIsKept(raw, host, DecisionId); LineageIsKept(raw, host, CandidateId);
    LineageIsKept(raw, host, ResearchEvidenceId); LineageIsKept(raw, host, ResearchFingerprint);
    LineageIsKept(raw, host, CanonicalLiveDecisionFingerprint);
    LineageIsKept(raw, host, RuntimeAuthorizationFingerprint);
  }

  lemma AcceptedTrailing(raw: Record, host: Host)
    ensures TrailingOfPayload(raw, Canonical(raw, host))
  {
    hide Canonical; hide TrailingOf; hide Get; hide Either; hide Truthy; hide Entries; hide TrailingKept;
    TextsRead(raw);
    TrailingIsKept(raw, host);
  }

  lemma AcceptedMoment(raw: Record, host: Host)
    requires Validated(raw, host).Valid?
    ensures TimeOfPayload(raw, Canonical(raw, host), host)
  {
    hide Canonical; hide Strip; hide CommandErrors; hide IdentityErrors; hide LifecycleErrors; hide SignalErrors;
    hide PriceErrors; hide ScoreErrors; hide TrailingErrors; hide MtfErrors; hide VersionOf; hide RatioOf; hide FloatOf;
    NoErrors(raw, host);
    InHeader(raw, host, Timestamp);
  }
}
