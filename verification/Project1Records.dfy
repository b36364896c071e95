/** The Project 1 integration record: a dictionary of known fields, its identities and its authoritative content. */
module Project1Records {
  import opened Values
  import opened Keys

  /** The dictionary keys the platform uses in payloads and records. */
  datatype Field =
    | IntegrationId | PublicationId | EventId | SignalId | DecisionId
    | CanonicalLiveDecisionFingerprint | CandidateId | ResearchEvidenceId
    | StrategyName | StrategyId | StrategyVersion
    | ResearchFingerprint | RuntimeAuthorizationFingerprint
    | Symbol | SignalType | Action | Timeframe
    | EntryPrice | StopLoss | TakeProfit1 | TakeProfit2 | TakeProfit3 | RiskRewardRatio
    | Confidence | OperationalStabilityScore | StabilityScore
    | TrailingStop | InvalidationCondition | Mtf | Metadata
    | RequestedQuantity | Quantity
    | UserId | TenantId | CorrelationId | SourceId
    | ContractVersion | CommandType | EventType
    | LifecycleState | LifecycleReason | Timestamp | ProducedAt | CreatedAt | UpdatedAt
    | SignalSection | InstrumentSection | TradeSetupSection | ProvenanceSection
    | ProvenanceType | IsLive | Source

  type Record = map<Field, Json>

  /** `rec.get(field)` */
  function Get(rec: Record, f: Field): Json {
    if f in rec then rec[f] else Null
  }

  const AUTHORITATIVE_CONTENT_KEYS: seq<Field> :=
    [ PublicationId, EventId, SignalId, DecisionId, CanonicalLiveDecisionFingerprint, CandidateId,
      ResearchEvidenceId, StrategyName, ResearchFingerprint, RuntimeAuthorizationFingerprint,
      StrategyVersion, Symbol, SignalType, Timeframe, EntryPrice, StopLoss, TakeProfit1, TakeProfit2,
      TakeProfit3, Confidence, OperationalStabilityScore, TrailingStop, InvalidationCondition, Mtf,
      Metadata ]

  /** The two records agree on every authoritative field. */
  predicate SameContent(a: Record, b: Record) {
    forall k | k in AUTHORITATIVE_CONTENT_KEYS :: Get(a, k) == Get(b, k)
  }

  /** `_are_contents_identical` */
  method AreContentsIdentical(a: Record, b: Record) returns (same: bool)
    ensures same == SameContent(a, b)
  {
    var i := 0;
    while i < |AUTHORITATIVE_CONTENT_KEYS|
      invariant 0 <= i <= |AUTHORITATIVE_CONTENT_KEYS|
      invariant forall j | 0 <= j < i :: Get(a, AUTHORITATIVE_CONTENT_KEYS[j]) == Get(b, AUTHORITATIVE_CONTENT_KEYS[j])
    {
      if Get(a, AUTHORITATIVE_CONTENT_KEYS[i]) != Get(b, AUTHORITATIVE_CONTENT_KEYS[i]) {
        return false;
      }
      i := i + 1;
    }
    return true;
  }

  predicate AllSameContent(recs: seq<Record>) {
    forall i | 0 <= i < |recs| :: SameContent(recs[0], recs[i])
  }

  /** `_all_records_identical_content` */
  method AllRecordsIdenticalContent(recs: seq<Record>) returns (same: bool)
    ensures same == AllSameContent(recs)
  {
    if |recs| <= 1 {
      return true;
    }
    var i := 1;
    while i < |recs|
      invariant 1 <= i <= |recs|
      invariant forall j | 0 <= j < i :: SameContent(recs[0], recs[j])
    {
      var identical := AreContentsIdentical(recs[0], recs[i]);
      if !identical {
        return false;
      }
      i := i + 1;
    }
    return true;
  }

  /** The three identities a record can carry. */
  datatype IdKind = ByPublication | ByEvent | BySignal

  function IdField(kind: IdKind): Field {
    match kind
    case ByPublication => PublicationId
    case ByEvent => EventId
    case BySignal => SignalId
  }

  /** An identity of the record, "" when it has none of that kind. */
  function Id(rec: Record, kind: IdKind): string {
    TextOf(Get(rec, IdField(kind)))
  }

  /** The owner under which a record is indexed: `rec.get("user_id") or "global"`. */
  function Owner(rec: Record): string {
    var u := TextOf(Get(rec, UserId));
    if u == "" then "global" else u
  }

  function KeyOf(rec: Record, kind: IdKind): string {
    Key(Owner(rec), Id(rec, kind))
  }

  /** `_user_matches` */
  predicate UserMatches(rec: Record, user: Option<string>, allowSystem: bool) {
    || user.None?
    || Get(rec, UserId) == Str(user.value)
    || (allowSystem && Get(rec, UserId) in {Str("system"), Str("p1_service_ingest"), Str("global")})
  }

  /** What the verdict of an ingest depends on: owner, integration id and authoritative content. */
  ghost predicate SameCore(a: Record, b: Record) {
    && SameContent(a, b)
    && Get(a, UserId) == Get(b, UserId)
    && Get(a, IntegrationId) == Get(b, IntegrationId)
  }

  lemma SameContentSameIds(a: Record, b: Record)
    requires SameContent(a, b)
    ensures forall kind :: Get(a, IdField(kind)) == Get(b, IdField(kind)) && Id(a, kind) == Id(b, kind)
  {
    assert AUTHORITATIVE_CONTENT_KEYS[0] == PublicationId && AUTHORITATIVE_CONTENT_KEYS[1] == EventId
        && AUTHORITATIVE_CONTENT_KEYS[2] == SignalId;
    forall kind
      ensures Get(a, IdField(kind)) == Get(b, IdField(kind))
    {
      assert IdField(kind) in AUTHORITATIVE_CONTENT_KEYS;
    }
  }
}
