/** The Project 1 contract boundary: an incoming payload, nested or flat, is refused with every reason or turned into
    one canonical flat record. */
module Project1Contract {
  import opened Values
  import opened Text
  import opened Project1Records
  import opened Project1Listing

  /** What `float` makes of a value. */
  datatype Float = Finite(r: real) | NotFinite

  /** What the surroundings supply: the clock with its date reader, `str` of values that are not strings, and `float` of
      texts. */
  datatype Host = Host(clock: Clock, show: Json -> string, numeral: string -> Option<Float>)

  datatype Error =
    | UnsupportedVersion | BadCommand | MissingSections | NoIntegrationId | NoSignalId | BadLifecycle | NoSymbol
    | NoDecision | BadDecision | BadTimestamp | BadPrice(field: Field) | BadConfidence | BadStability
    | TrailingNotObject | BadTrailing | MtfNotObject | BadMtf

  datatype Verdict = Valid(record: Record) | Invalid(errors: seq<Error>) | Raised

  const SUPPORTED_CONTRACT_VERSIONS := ["1.0", "1.0.0", "v1.0"]
  const ALLOWED_COMMAND_TYPES := ["EMIT_SIGNAL", "UPDATE_LIFECYCLE", "UPDATE_TRAILING_STOP", "HEARTBEAT"]
  const ALLOWED_EVENT_TYPES :=
    ["TRADING_SIGNAL", "EMIT_SIGNAL", "UPDATE_LIFECYCLE", "UPDATE_TRAILING_STOP", "HEARTBEAT"]
  const ALLOWED_SIGNAL_TYPES := ["buy", "sell", "hold", "no-signal", "no-trade"]
  const ALLOWED_LIFECYCLE_STATES := ["STAGED", "ACTIVE", "UPDATED", "CANCELLED", "EXPIRED", "REJECTED", "EXECUTED"]

  /** `str(value)` */
  function Spell(j: Json, host: Host): string {
    if j.Str? then j.s else host.show(j)
  }

  predicate NonBlank(j: Json) {
    j.Str? && !Blank(j.s)
  }

  predicate OneOf(j: Json, words: seq<string>) {
    j.Str? && j.s in words
  }

  /** `raw.get(section) if isinstance(raw.get(section), dict) else {}` */
  function Section(raw: Record, f: Field): map<string, Json> {
    if Get(raw, f).Obj? then Get(raw, f).entries else map[]
  }

  predicate IsNested(raw: Record) {
    || Get(raw, SignalSection).Obj? || Get(raw, InstrumentSection).Obj?
    || Get(raw, TradeSetupSection).Obj? || Get(raw, ProvenanceSection).Obj?
  }

  /** `section[key] if key in section else raw.get(field)` */
  function InSection(section: map<string, Json>, key: string, raw: Record, f: Field): Json {
    if key in section then section[key] else Get(raw, f)
  }

  function VersionOf(raw: Record, host: Host): string {
    Strip(if ContractVersion in raw then Spell(raw[ContractVersion], host) else "1.0")
  }

  function EventTypeOf(raw: Record): Json {
    Or(Or(Get(raw, EventType), Get(raw, CommandType)), Str("TRADING_SIGNAL"))
  }

  function CommandOf(raw: Record, host: Host): Json {
    var event := EventTypeOf(raw);
    var emits := OneOf(event, ["TRADING_SIGNAL", "EMIT_SIGNAL"]);
    Or(Get(raw, CommandType), Str(if emits then "EMIT_SIGNAL" else Spell(event, host)))
  }

  predicate Emits(raw: Record, host: Host) {
    OneOf(CommandOf(raw, host), ["EMIT_SIGNAL", "TRADING_SIGNAL"])
  }

  function PublicationOf(raw: Record): Json {
    Or(Or(Or(Get(raw, PublicationId), Entry(Section(raw, SignalSection), "publication_id")), Get(raw, EventId)),
       Get(raw, IntegrationId))
  }

  function EventOf(raw: Record): Json {
    Or(Get(raw, EventId), Get(raw, IntegrationId))
  }

  function SignalIdOf(raw: Record): Json {
    Or(Entry(Section(raw, SignalSection), "signal_id"), Get(raw, SignalId))
  }

  function IntegrationOf(raw: Record): Json {
    Or(Or(PublicationOf(raw), EventOf(raw)), SignalIdOf(raw))
  }

  /** The signal section, then the provenance section, then the top level. */
  function Traced(raw: Record, key: string, f: Field): Json {
    Or(Or(Entry(Section(raw, SignalSection), key), Entry(Section(raw, ProvenanceSection), key)), Get(raw, f))
  }

  function LifecycleOf(raw: Record): Json {
    Or(Get(raw, LifecycleState), Entry(Section(raw, SignalSection), "lifecycle_state"))
  }

  function SymbolOf(raw: Record): Json {
    Or(Entry(Section(raw, InstrumentSection), "symbol"), Get(raw, Symbol))
  }

  function TimeframeOf(raw: Record): Json {
    var instrument := Section(raw, InstrumentSection);
    Or(Or(Entry(instrument, "interval"), Entry(instrument, "timeframe")), Get(raw, Timeframe))
  }

  function RawDecisionOf(raw: Record): Json {
    var signal := Section(raw, SignalSection);
    Or(Or(Or(Entry(signal, "decision"), Entry(signal, "signal_label")), Get(raw, SignalType)), Get(raw, Action))
  }

  /** `.replace("_", "-").replace(" ", "-")` */
  function Dashed(s: string): (r: string)
    ensures |r| == |s|
  {
    seq(|s|, i requires 0 <= i < |s| => if s[i] == '_' || s[i] == ' ' then '-' else s[i])
  }

  /** The decision, normalised when it is checked. */
  function DecisionOf(raw: Record, host: Host): Json {
    var d := RawDecisionOf(raw);
    if Emits(raw, host) && NonBlank(d) && Dashed(Lower(Strip(d.s))) in ALLOWED_SIGNAL_TYPES
    then Str(Dashed(Lower(Strip(d.s)))) else d
  }

  function RawTimestampOf(raw: Record): Json {
    if Timestamp in raw then raw[Timestamp] else Entry(Section(raw, SignalSection), "timestamp")
  }

  /** Seconds since the epoch, for a text or in a nested payload read as ISO-8601; None when refused. */
  function EpochOf(raw: Record, host: Host): Option<real> {
    var t := RawTimestampOf(raw);
    if IsNested(raw) || t.Str? then if NonBlank(t) then ParseIso(t.s, host.clock) else None
    else if t.Num? && 0.0 <= t.r <= host.clock.now + 5.0 then Some(t.r)
    else None
  }

  function PriceOf(raw: Record, f: Field): Json {
    var setup := Section(raw, TradeSetupSection);
    match f
    case EntryPrice => InSection(setup, "entry_price", raw, f)
    case StopLoss => InSection(setup, "stop_loss", raw, f)
    case TakeProfit1 => Or(Or(Entry(setup, "tp1"), Entry(setup, "take_profit_1")), Get(raw, f))
    case TakeProfit2 => Or(Or(Entry(setup, "tp2"), Entry(setup, "take_profit_2")), Get(raw, f))
    case TakeProfit3 => Or(Or(Entry(setup, "tp3"), Entry(setup, "take_profit_3")), Get(raw, f))
    case _ => Null
  }

  const PRICES: seq<Field> := [EntryPrice, StopLoss, TakeProfit1, TakeProfit2, TakeProfit3]

  predicate PriceAllowed(j: Json) {
    j.Null? || (j.Num? && j.r > 0.0)
  }

  predicate ShareAllowed(j: Json) {
    j.Null? || (j.Num? && 0.0 <= j.r <= 1.0)
  }

  function RatioOf(raw: Record): Json {
    InSection(Section(raw, TradeSetupSection), "risk_reward_ratio", raw, RiskRewardRatio)
  }

  function ConfidenceOf(raw: Record): Json {
    InSection(Section(raw, SignalSection), "confidence", raw, Confidence)
  }

  function StabilityOf(raw: Record): Json {
    var signal := Section(raw, SignalSection);
    if "operational_stability_score" in signal then signal["operational_stability_score"]
    else if "stability_score" in signal then signal["stability_score"]
    else if OperationalStabilityScore in raw then raw[OperationalStabilityScore]
    else Get(raw, StabilityScore)
  }

  function StrategyOf(raw: Record): Json {
    Or(Or(Entry(Section(raw, SignalSection), "strategy"), Get(raw, StrategyName)), Get(raw, StrategyId))
  }

  function StrategyVersionOf(raw: Record): Json {
    Or(Or(Entry(Section(raw, SignalSection), "strategy_version"), Get(raw, StrategyVersion)),
       Entry(Section(raw, ProvenanceSection), "strategy_version"))
  }

  function TrailingOf(raw: Record): Json {
    Or(Entry(Section(raw, TradeSetupSection), "trailing_stop"), Get(raw, TrailingStop))
  }

  /** `Project1TrailingStopConfig` accepts the entries. */
  predicate TrailingAllowed(e: map<string, Json>) {
    && Entry(e, "distance").Num? && Entry(e, "distance").r > 0.0
    && PriceAllowed(Entry(e, "activation_price")) && PriceAllowed(Entry(e, "trailing_stop_loss"))
  }

  const TRAILING_KEYS := {"distance", "activation_price", "is_active", "trailing_stop_loss"}

  function TrailingDict(e: map<string, Json>): map<string, Json> {
    map k | k in TRAILING_KEYS :: if k == "is_active" then Bool(Truthy(Entry(e, k))) else Entry(e, k)
  }

  function QuantityOf(raw: Record): Json {
    var setup := Section(raw, TradeSetupSection);
    if "requested_quantity" in setup then setup["requested_quantity"]
    else if "quantity" in setup then setup["quantity"]
    else if RequestedQuantity in raw then raw[RequestedQuantity]
    else Get(raw, Quantity)
  }

  function InvalidationOf(raw: Record): Json {
    Or(Entry(Section(raw, TradeSetupSection), "invalidation_condition"), Get(raw, InvalidationCondition))
  }

  /** `float(value)`; None when it raises. */
  function FloatOf(j: Json, host: Host): Option<Json> {
    match j
    case Num(_) => Some(j)
    case Infinite => Some(j)
    case Bool(b) => Some(Num(if b then 1.0 else 0.0))
    case Str(s) =>
      (match host.numeral(s)
       case None => None
       case Some(Finite(r)) => Some(Num(r))
       case Some(NotFinite) => Some(Infinite))
    case _ => None
  }

  /** One entry of the metadata that is filled from the top level when it is not there. */
  function Completed(meta: map<string, Json>, key: string, top: Option<Json>): map<string, Json> {
    if key !in meta && top.Some? then meta[key := top.value] else meta
  }

  function TruthyAt(raw: Record, f: Field): Option<Json> {
    if Truthy(Get(raw, f)) then Some(Get(raw, f)) else None
  }

  function PresentAt(raw: Record, f: Field): Option<Json> {
    if f in raw then Some(raw[f]) else None
  }

  /** The record's metadata: the payload's own, overlaid with its provenance, completed from the top level. */
  function MetadataFor(raw: Record): map<string, Json> {
    var own := MetadataOf(raw) + Section(raw, ProvenanceSection);
    Completed(Completed(Completed(own, "provenance_type", TruthyAt(raw, ProvenanceType)),
                        "is_live", PresentAt(raw, IsLive)),
              "source", TruthyAt(raw, Source))
  }

  const MTF_TIMEFRAMES := ["5m", "15m", "30m", "1H", "4H", "1D"]
  const MTF_CLASSIFICATIONS := ["ALIGNED", "COUNTER_TREND", "INSUFFICIENT_CONTEXT", "NO_TRADE", "NEUTRAL", "MIXED"]
  const MTF_DIRECTIONS := ["buy", "sell", "hold", "no-signal", "no-trade", "neutral"]

  const MTF_SIGNAL_TEXTS := {
    "symbol", "timeframe", "direction", "decision_id", "signal_id", "strategy_name", "strategy_version",
    "candidate_id", "evidence_id", "experiment_fingerprint", "canonical_live_decision_fingerprint",
    "authorization_fingerprint", "constituent_fingerprint"}

  const MTF_SIGNAL_KEYS := MTF_SIGNAL_TEXTS + {"decision_timestamp", "market_timestamp", "provenance"}

  /** `Project1MTFSignal` accepts the entries. */
  predicate MtfSignalAllowed(e: map<string, Json>) {
    && (forall k | k in MTF_SIGNAL_TEXTS :: NonBlank(Entry(e, k)))
    && OneOf(Entry(e, "timeframe"), MTF_TIMEFRAMES)
    && Entry(e, "direction").Str? && Lower(Entry(e, "direction").s) in MTF_DIRECTIONS
    && !Entry(e, "decision_timestamp").Null? && !Entry(e, "market_timestamp").Null?
    && Entry(e, "provenance").Obj? && Truthy(Entry(e, "provenance"))
  }

  function MtfSignalDict(j: Json): Json {
    if j.Obj? then Obj(map k | k in MTF_SIGNAL_KEYS :: Entry(j.entries, k)) else j
  }

  const MTF_KEYS := {
    "symbol", "local_timeframe", "participating_timeframes", "signals", "alignment_count", "alignment_coverage",
    "classification", "higher_timeframe_context", "constituent_fingerprints", "matching_signal_count",
    "available_signal_count", "intelligence_fingerprint", "star_representation"}

  /** `raw_mtf.get(key, ())` */
  function ListAt(e: map<string, Json>, k: string): Json {
    if k in e then e[k] else Arr([])
  }

  /** A JSON number that is an integer. */
  predicate Whole(j: Json) {
    j.Num? && j.r == j.r.Floor as real
  }

  /** `Project1MTFConfig` accepts the entries. */
  predicate MtfAllowed(e: map<string, Json>) {
    && NonBlank(Entry(e, "symbol"))
    && OneOf(Entry(e, "local_timeframe"), MTF_TIMEFRAMES)
    && ListAt(e, "participating_timeframes").Arr?
    && (forall t | t in ListAt(e, "participating_timeframes").items :: OneOf(t, MTF_TIMEFRAMES))
    && ListAt(e, "signals").Arr?
    && (forall s | s in ListAt(e, "signals").items :: s.Obj? && MtfSignalAllowed(s.entries))
    && Whole(Entry(e, "alignment_count")) && Entry(e, "alignment_count").r >= 0.0
    && Whole(Entry(e, "alignment_coverage")) && 1.0 <= Entry(e, "alignment_coverage").r <= 6.0
    && OneOf(Entry(e, "classification"), MTF_CLASSIFICATIONS)
    && (Entry(e, "higher_timeframe_context").Null? || Entry(e, "higher_timeframe_context").Obj?)
    && ListAt(e, "constituent_fingerprints").Arr?
  }

  function MtfSlot(e: map<string, Json>, k: string): Json {
    if k == "signals" then
      (match ListAt(e, k)
       case Arr(items) => Arr(seq(|items|, i requires 0 <= i < |items| => MtfSignalDict(items[i])))
       case j => j)
    else if k == "participating_timeframes" || k == "constituent_fingerprints" then ListAt(e, k)
    else Entry(e, k)
  }

  /** The validated MTF object as a dictionary. */
  function MtfDict(e: map<string, Json>): map<string, Json> {
    map k | k in MTF_KEYS :: MtfSlot(e, k)
  }

  /** `str(j).strip() if j else None` */
  function TextOrNull(j: Json, host: Host): Json {
    if Truthy(j) then Str(Strip(Spell(j, host))) else Null
  }

  /** A field set only when its value is not None. */
  function Unless(j: Json, v: Json): Option<Json> {
    if j.Null? then None else Some(v)
  }

  function Stripped(j: Json, host: Host): Json {
    Str(Strip(Spell(j, host)))
  }

  /** Where an identity or lineage text comes from in a payload. */
  function LineageOf(raw: Record, f: Field): Json {
    match f
    case IntegrationId => IntegrationOf(raw)
    case PublicationId => PublicationOf(raw)
    case EventId => EventOf(raw)
    case SignalId => SignalIdOf(raw)
    case DecisionId => InSection(Section(raw, SignalSection), "decision_id", raw, f)
    case CandidateId => InSection(Section(raw, SignalSection), "candidate_id", raw, f)
    case ResearchEvidenceId => Traced(raw, "research_evidence_id", f)
    case ResearchFingerprint => Traced(raw, "research_fingerprint", f)
    case CanonicalLiveDecisionFingerprint => Traced(raw, "canonical_live_decision_fingerprint", f)
    case _ => Traced(raw, "runtime_authorization_fingerprint", f)
  }

  function LineageSlot(raw: Record, host: Host, f: Field): Option<Json> {
    if f.IntegrationId? || f.SignalId? then Some(Stripped(LineageOf(raw, f), host))
    else Some(TextOrNull(LineageOf(raw, f), host))
  }

  function HeaderSlot(raw: Record, host: Host, f: Field): Option<Json> {
    match f
    case SourceId => Some(Str(Strip(if f in raw then Spell(raw[f], host) else "project1_engine")))
    case ContractVersion => Some(Str(VersionOf(raw, host)))
    case CommandType => Some(Str("EMIT_SIGNAL"))
    case Timestamp => Some(match EpochOf(raw, host) case Some(t) => Num(t) case None => Null)
    case _ => Some(Get(raw, f))
  }

  /** Where a descriptive text comes from in a payload; None counts as absent. */
  function DetailOf(raw: Record, host: Host, f: Field): Json {
    match f
    case Symbol => SymbolOf(raw)
    case SignalType => DecisionOf(raw, host)
    case LifecycleState => LifecycleOf(raw)
    case StrategyName => StrategyOf(raw)
    case StrategyVersion => StrategyVersionOf(raw)
    case Timeframe => TimeframeOf(raw)
    case _ => if Truthy(InvalidationOf(raw)) then InvalidationOf(raw) else Null
  }

  /** The case a text is kept in. */
  function Cased(f: Field, s: string): string {
    if f.Symbol? || f.LifecycleState? then Upper(s) else if f.SignalType? then Lower(s) else s
  }

  function DetailSlot(raw: Record, host: Host, f: Field): Option<Json> {
    var j := DetailOf(raw, host, f);
    Unless(j, Str(Cased(f, Strip(Spell(j, host)))))
  }

  function NumberSlot(raw: Record, host: Host, f: Field): Option<Json> {
    match f
    case RiskRewardRatio => FloatOf(RatioOf(raw), host)
    case Confidence => Unless(ConfidenceOf(raw), ConfidenceOf(raw))
    case OperationalStabilityScore => Unless(StabilityOf(raw), StabilityOf(raw))
    case RequestedQuantity => FloatOf(QuantityOf(raw), host)
    case _ => Unless(PriceOf(raw, f), PriceOf(raw, f))
  }

  function ObjectSlot(raw: Record, f: Field): Option<Json> {
    match f
    case TrailingStop =>
      var t := TrailingOf(raw);
      if t.Obj? then Some(Obj(TrailingDict(t.entries))) else None
    case Mtf => if Get(raw, f).Obj? then Some(Obj(MtfDict(Get(raw, f).entries))) else None
    case _ => Some(Obj(MetadataFor(raw)))
  }

  datatype Group = LineageGroup | HeaderGroup | DetailGroup | NumberGroup | ObjectGroup | NoGroup

  /** The part of the canonical record a field belongs to; it has no other fields. */
  function GroupOf(f: Field): Group {
    match f
    case IntegrationId | PublicationId | EventId | SignalId | DecisionId | CandidateId | ResearchEvidenceId
       | ResearchFingerprint | CanonicalLiveDecisionFingerprint | RuntimeAuthorizationFingerprint => LineageGroup
    case SourceId | ContractVersion | CommandType | Timestamp | CorrelationId | UserId | TenantId => HeaderGroup
    case Symbol | SignalType | LifecycleState | StrategyName | StrategyVersion | Timeframe
       | InvalidationCondition => DetailGroup
    case EntryPrice | StopLoss | TakeProfit1 | TakeProfit2 | TakeProfit3 | RiskRewardRatio | Confidence
       | OperationalStabilityScore | RequestedQuantity => NumberGroup
    case TrailingStop | Mtf | Metadata => ObjectGroup
    case _ => NoGroup
  }

  /** What the canonical record holds in a field; None when it lacks the field. */
  function Slot(raw: Record, host: Host, f: Field): Option<Json> {
    match GroupOf(f)
    case LineageGroup => LineageSlot(raw, host, f)
    case HeaderGroup => HeaderSlot(raw, host, f)
    case DetailGroup => DetailSlot(raw, host, f)
    case NumberGroup => NumberSlot(raw, host, f)
    case ObjectGroup => ObjectSlot(raw, f)
    case NoGroup => None
  }

  /** The canonical record: every field that has a value. */
  function Canonical(raw: Record, host: Host): Record {
    map f: Field | Slot(raw, host, f).Some? :: Slot(raw, host, f).value
  }

  function When(c: bool, e: Error): seq<Error> {
    if c then [e] else []
  }

  function SignalErrors(raw: Record, host: Host): seq<Error> {
    var d := RawDecisionOf(raw);
    if !Emits(raw, host) then []
    else When(!NonBlank(SymbolOf(raw)), NoSymbol)
         + (if !NonBlank(d) then [NoDecision]
            else When(Dashed(Lower(Strip(d.s))) !in ALLOWED_SIGNAL_TYPES, BadDecision))
  }

  function PriceErrors(raw: Record, fields: seq<Field>): seq<Error> {
    if fields == [] then []
    else
      var n := |fields| - 1;
      PriceErrors(raw, fields[..n]) + When(!PriceAllowed(PriceOf(raw, fields[n])), BadPrice(fields[n]))
  }

  function TrailingErrors(raw: Record): seq<Error> {
    match TrailingOf(raw)
    case Null => []
    case Obj(e) => When(!TrailingAllowed(e), BadTrailing)
    case _ => [TrailingNotObject]
  }

  function MtfErrors(raw: Record): seq<Error> {
    match Get(raw, Mtf)
    case Null => []
    case Obj(e) => When(!MtfAllowed(e), BadMtf)
    case _ => [MtfNotObject]
  }

  function LifecycleErrors(raw: Record, host: Host): seq<Error> {
    var l := LifecycleOf(raw);
    When(!l.Null? && Upper(Strip(Spell(l, host))) !in ALLOWED_LIFECYCLE_STATES, BadLifecycle)
  }

  function CommandErrors(raw: Record, host: Host): seq<Error> {
    When(!OneOf(CommandOf(raw, host), ALLOWED_COMMAND_TYPES) && !OneOf(EventTypeOf(raw), ALLOWED_EVENT_TYPES),
         BadCommand)
    + When(Emits(raw, host) && IsNested(raw)
           && (Get(raw, SignalSection).Null? || Get(raw, InstrumentSection).Null? || Get(raw, TradeSetupSection).Null?),
           MissingSections)
  }

  function IdentityErrors(raw: Record): seq<Error> {
    When(!NonBlank(IntegrationOf(raw)), NoIntegrationId) + When(!NonBlank(SignalIdOf(raw)), NoSignalId)
  }

  function ScoreErrors(raw: Record): seq<Error> {
    When(!ShareAllowed(ConfidenceOf(raw)), BadConfidence) + When(!ShareAllowed(StabilityOf(raw)), BadStability)
  }

  /** Every reason to refuse a payload of a supported version, in the order they are found. */
  function Errors(raw: Record, host: Host): seq<Error> {
    CommandErrors(raw, host) + IdentityErrors(raw) + LifecycleErrors(raw, host) + SignalErrors(raw, host)
    + When(EpochOf(raw, host).None?, BadTimestamp) + PriceErrors(raw, PRICES) + ScoreErrors(raw)
    + TrailingErrors(raw) + MtfErrors(raw)
  }

  /** `validate_project1_contract_payload`; the risk-reward ratio is converted unchecked, so that can raise. */
  function Validated(raw: Record, host: Host): Verdict {
    if VersionOf(raw, host) !in SUPPORTED_CONTRACT_VERSIONS then Invalid([UnsupportedVersion])
    else if Errors(raw, host) != [] then Invalid(Errors(raw, host))
    else if !RatioOf(raw).Null? && FloatOf(RatioOf(raw), host).None? then Raised
    else Valid(Canonical(raw, host))
  }

  lemma NumberFields(f: Field)
    requires GroupOf(f).NumberGroup?
    ensures f in PRICES || f.RiskRewardRatio? || f.Confidence? || f.OperationalStabilityScore? || f.RequestedQuantity?
  {
    assert PRICES[0] == EntryPrice && PRICES[1] == StopLoss && PRICES[2] == TakeProfit1 && PRICES[3] == TakeProfit2
        && PRICES[4] == TakeProfit3;
  }

  lemma HeaderFieldsAre(f: Field)
    requires GroupOf(f).HeaderGroup?
    ensures || f.SourceId? || f.ContractVersion? || f.CommandType? || f.Timestamp? || f.CorrelationId? || f.UserId?
            || f.TenantId?
  {
  }
}
