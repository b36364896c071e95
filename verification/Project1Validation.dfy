/** The validator as the code runs it: errors are appended check by check, and only a payload without errors has its
    canonical record filled in, field by field. */
module Project1Validation {
  import opened Values
  import opened Text
  import opened Project1Records
  import opened Project1Listing
  import opened Project1Contract

  /** The fields of the canonical record, group by group. */
  const LINEAGE_FIELDS: seq<Field> :=
    [ IntegrationId, PublicationId, EventId, SignalId, DecisionId, CandidateId, ResearchEvidenceId,
      ResearchFingerprint, CanonicalLiveDecisionFingerprint, RuntimeAuthorizationFingerprint ]

  const HEADER_FIELDS: seq<Field> :=
    [ SourceId, ContractVersion, CommandType, Timestamp, CorrelationId, UserId, TenantId ]

  const DETAIL_FIELDS: seq<Field> :=
    [ Symbol, SignalType, LifecycleState, StrategyName, StrategyVersion, Timeframe, InvalidationCondition ]

  const SCORE_FIELDS: seq<Field> := [RiskRewardRatio, Confidence, OperationalStabilityScore, RequestedQuantity]

  const OBJECT_FIELDS: seq<Field> :=
    [ TrailingStop, Mtf, Metadata ]

  const CANONICAL_FIELDS: seq<Field> :=
    LINEAGE_FIELDS + HEADER_FIELDS + DETAIL_FIELDS + PRICES + SCORE_FIELDS + OBJECT_FIELDS

  lemma LineageIsWritten(f: Field)
    requires GroupOf(f).LineageGroup?
    ensures f in LINEAGE_FIELDS
  {
    LineageFieldsAre(f);
    hide GroupOf;
    var fs := LINEAGE_FIELDS;
    assert fs[0] == IntegrationId && fs[1] == PublicationId && fs[2] == EventId && fs[3] == SignalId;
    assert fs[4] == DecisionId && fs[5] == CandidateId && fs[6] == ResearchEvidenceId && fs[7] == ResearchFingerprint;
    assert fs[8] == CanonicalLiveDecisionFingerprint && fs[9] == RuntimeAuthorizationFingerprint;
  }

  lemma LineageFieldsAre(f: Field)
    requires GroupOf(f).LineageGroup?
    ensures || f.IntegrationId? || f.PublicationId? || f.EventId? || f.SignalId? || f.DecisionId? || f.CandidateId?
            || f.ResearchEvidenceId? || f.ResearchFingerprint? || f.CanonicalLiveDecisionFingerprint?
            || f.RuntimeAuthorizationFingerprint?
  {
  }

  lemma HeaderIsWritten(f: Field)
    requires GroupOf(f).HeaderGroup?
    ensures f in HEADER_FIELDS
  {
    HeaderFieldsAre(f);
    hide GroupOf;
    var fs := HEADER_FIELDS;
    assert fs[0] == SourceId && fs[1] == ContractVersion && fs[2] == CommandType && fs[3] == Timestamp;
    assert fs[4] == CorrelationId && fs[5] == UserId && fs[6] == TenantId;
  }

  lemma DetailIsWritten(f: Field)
    requires GroupOf(f).DetailGroup?
    ensures f in DETAIL_FIELDS
  {
    var fs := DETAIL_FIELDS;
    assert fs[0] == Symbol && fs[1] == SignalType && fs[2] == LifecycleState && fs[3] == StrategyName && fs[4]
        == StrategyVersion && fs[5] == Timeframe && fs[6] == InvalidationCondition;
  }

  lemma NumberIsWritten(f: Field)
    requires GroupOf(f).NumberGroup?
    ensures f in PRICES || f in SCORE_FIELDS
  {
    NumberFields(f);
    hide GroupOf;
    assert SCORE_FIELDS[0] == RiskRewardRatio && SCORE_FIELDS[1] == Confidence
        && SCORE_FIELDS[2] == OperationalStabilityScore && SCORE_FIELDS[3] == RequestedQuantity;
  }

  lemma ObjectIsWritten(f: Field)
    requires GroupOf(f).ObjectGroup?
    ensures f in OBJECT_FIELDS
  {
    var fs := OBJECT_FIELDS;
    assert fs[0] == TrailingStop && fs[1] == Mtf && fs[2] == Metadata;
  }

  /** Every field that belongs to a group is written. */
  lemma EveryFieldIsWritten(f: Field)
    requires !GroupOf(f).NoGroup?
    ensures f in CANONICAL_FIELDS
  {
    hide GroupOf;
    match GroupOf(f)
    case LineageGroup => LineageIsWritten(f);
    case HeaderGroup => HeaderIsWritten(f);
    case DetailGroup => DetailIsWritten(f);
    case NumberGroup => NumberIsWritten(f);
    case ObjectGroup => ObjectIsWritten(f);
  }

  method CollectErrors(raw: Record, host: Host) returns (errors: seq<Error>)
    ensures errors == Errors(raw, host)
  {
    hide CommandErrors; hide IdentityErrors; hide LifecycleErrors; hide SignalErrors; hide EpochOf; hide PriceErrors;
    hide ScoreErrors; hide TrailingErrors; hide MtfErrors;
    errors := CollectCommandErrors(raw, host);
    var more := CollectIdentityErrors(raw, host);
    errors := errors + more;
    more := CollectSignalErrors(raw, host);
    errors := errors + more;
    if EpochOf(raw, host).None? {
      errors := errors + [BadTimestamp];
    }
    more := CollectPriceErrors(raw);
    errors := errors + more;
    more := CollectScoreErrors(raw);
    errors := errors + more;
    more := CollectObjectErrors(raw);
    errors := errors + more;
  }

  method CollectCommandErrors(raw: Record, host: Host) returns (errors: seq<Error>)
    ensures errors == CommandErrors(raw, host)
  {
    hide CommandOf; hide EventTypeOf; hide Emits; hide IsNested; hide OneOf; hide Get;
    errors := [];
    if !OneOf(CommandOf(raw, host), ALLOWED_COMMAND_TYPES) && !OneOf(EventTypeOf(raw), ALLOWED_EVENT_TYPES) {
      errors := errors + [BadCommand];
    }
    if Emits(raw, host) {
      if IsNested(raw) && (Get(raw, SignalSection).Null? || Get(raw, InstrumentSection).Null?
                           || Get(raw, TradeSetupSection).Null?) {
        errors := errors + [MissingSections];
      }
    }
  }

  method CollectIdentityErrors(raw: Record, host: Host) returns (errors: seq<Error>)
    ensures errors == IdentityErrors(raw) + LifecycleErrors(raw, host)
  {
    hide IntegrationOf; hide SignalIdOf; hide LifecycleOf; hide NonBlank; hide Upper; hide Strip; hide Spell;
    errors := [];
    if !NonBlank(IntegrationOf(raw)) {
      errors := errors + [NoIntegrationId];
    }
    if !NonBlank(SignalIdOf(raw)) {
      errors := errors + [NoSignalId];
    }
    var lifecycle := LifecycleOf(raw);
    if !lifecycle.Null? {
      if Upper(Strip(Spell(lifecycle, host))) !in ALLOWED_LIFECYCLE_STATES {
        errors := errors + [BadLifecycle];
      }
    }
  }

  method CollectPriceErrors(raw: Record) returns (errors: seq<Error>)
    ensures errors == PriceErrors(raw, PRICES)
  {
    hide PriceOf; hide PriceAllowed;
    errors := [];
    for n := 0 to |PRICES|
      invariant errors == PriceErrors(raw, PRICES[..n])
    {
      assert PRICES[..n + 1][..n] == PRICES[..n];
      if !PriceAllowed(PriceOf(raw, PRICES[n])) {
        errors := errors + [BadPrice(PRICES[n])];
      }
    }
    assert PRICES[..|PRICES|] == PRICES;
  }

  method CollectScoreErrors(raw: Record) returns (errors: seq<Error>)
    ensures errors == ScoreErrors(raw)
  {
    hide ConfidenceOf; hide StabilityOf;
    errors := [];
    if !ShareAllowed(ConfidenceOf(raw)) {
      errors := errors + [BadConfidence];
    }
    if !ShareAllowed(StabilityOf(raw)) {
      errors := errors + [BadStability];
    }
  }

  method CollectObjectErrors(raw: Record) returns (errors: seq<Error>)
    ensures errors == TrailingErrors(raw) + MtfErrors(raw)
  {
    hide TrailingOf; hide TrailingAllowed; hide MtfAllowed; hide Get;
    errors := [];
    var trailing := TrailingOf(raw);
    if !trailing.Null? {
      if !trailing.Obj? {
        errors := errors + [TrailingNotObject];
      } else if !TrailingAllowed(trailing.entries) {
        errors := errors + [BadTrailing];
      }
    }
    var mtf := Get(raw, Mtf);
    if !mtf.Null? {
      if !mtf.Obj? {
        errors := errors + [MtfNotObject];
      } else if !MtfAllowed(mtf.entries) {
        errors := errors + [BadMtf];
      }
    }
  }

  method CollectSignalErrors(raw: Record, host: Host) returns (errors: seq<Error>)
    ensures errors == SignalErrors(raw, host)
  {
    hide Emits; hide SymbolOf; hide RawDecisionOf; hide Lower; hide Strip; hide Dashed;
    errors := [];
    if Emits(raw, host) {
      if !NonBlank(SymbolOf(raw)) {
        errors := errors + [NoSymbol];
      }
      var decision := RawDecisionOf(raw);
      if !NonBlank(decision) {
        errors := errors + [NoDecision];
      } else if Dashed(Lower(Strip(decision.s))) !in ALLOWED_SIGNAL_TYPES {
        errors := errors + [BadDecision];
      }
    }
  }

  /** `validate_project1_contract_payload` */
  method ValidatePayload(raw: Record, host: Host) returns (verdict: Verdict)
    ensures verdict == Validated(raw, host)
  {
    hide Errors; hide VersionOf; hide Slot; hide RatioOf; hide FloatOf; hide GroupOf;
    if VersionOf(raw, host) !in SUPPORTED_CONTRACT_VERSIONS {
      return Invalid([UnsupportedVersion]);
    }
    var errors := CollectErrors(raw, host);
    if errors != [] {
      return Invalid(errors);
    }
    var ratio := RatioOf(raw);
    if !ratio.Null? && FloatOf(ratio, host).None? {
      return Raised;
    }
    var sanitized: Record := map[];
    for n := 0 to |CANONICAL_FIELDS|
      invariant forall f :: f in sanitized <==> f in CANONICAL_FIELDS[..n] && Slot(raw, host, f).Some?
      invariant forall f | f in sanitized :: sanitized[f] == Slot(raw, host, f).value
    {
      var field := CANONICAL_FIELDS[n];
      assert CANONICAL_FIELDS[..n + 1] == CANONICAL_FIELDS[..n] + [field];
      var value := Slot(raw, host, field);
      if value.Some? {
        sanitized := sanitized[field := value.value];
      }
    }
    assert CANONICAL_FIELDS[..|CANONICAL_FIELDS|] == CANONICAL_FIELDS;
    forall f | Slot(raw, host, f).Some?
      ensures f in CANONICAL_FIELDS
    {
      SlotHasGroup(raw, host, f);
      EveryFieldIsWritten(f);
    }
    assert sanitized == Canonical(raw, host);
    return Valid(sanitized);
  }

  lemma SlotHasGroup(raw: Record, host: Host, f: Field)
    requires Slot(raw, host, f).Some?
    ensures !GroupOf(f).NoGroup?
  {
  }
}
