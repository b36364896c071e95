/** Validating a record that validation produced gives the same record, and what that takes of the payload. */
module Project1NormalForm {
  import opened Values
  import opened Text
  import opened Project1Records
  import opened Project1Listing
  import opened Project1Contract

  /** The payload is accepted. */
  predicate Accepted(raw: Record, host: Host) {
    && VersionOf(raw, host) in SUPPORTED_CONTRACT_VERSIONS && Errors(raw, host) == []
    && (RatioOf(raw).Null? || FloatOf(RatioOf(raw), host).Some?)
  }

  /** Texts a payload may leave out. */
  const OPTIONAL_TEXTS: set<Field> := {
    DecisionId, CandidateId, ResearchEvidenceId, ResearchFingerprint, CanonicalLiveDecisionFingerprint,
    RuntimeAuthorizationFingerprint, StrategyName, StrategyVersion, InvalidationCondition}

  /** The event id is there, the optional texts are absent or not empty, and the record says which signal on which
      symbol it is. */
  predicate Settled(s: Record) {
    && NonBlank(Get(s, EventId)) && NonBlank(Get(s, Symbol)) && OneOf(Get(s, SignalType), ALLOWED_SIGNAL_TYPES)
    && forall f | f in OPTIONAL_TEXTS :: Get(s, f) != Str("")
  }

  lemma CanonicalGet(raw: Record, host: Host, f: Field)
    ensures var s, v := Canonical(raw, host), Slot(raw, host, f);
      && (f in s <==> v.Some?)
      && Get(s, f) == match v case Some(j) => j case None => Null
  {
    hide Slot;
  }

  /** A section, or a field that only payloads have. */
  predicate PayloadOnly(f: Field) {
    || f.SignalSection? || f.InstrumentSection? || f.TradeSetupSection? || f.ProvenanceSection? || f.EventType?
    || f.Action? || f.StrategyId? || f.StabilityScore? || f.Quantity? || f.ProvenanceType? || f.IsLive? || f.Source?
  }

  predicate Flat(s: Record) {
    forall f | PayloadOnly(f) :: f !in s && Get(s, f).Null?
  }

  lemma PayloadOnlyHasNoGroup(f: Field)
    requires PayloadOnly(f)
    ensures GroupOf(f).NoGroup?
  {
  }

  /** The canonical record is flat. */
  lemma CanonicalIsFlat(raw: Record, host: Host)
    ensures Flat(Canonical(raw, host))
  {
    hide LineageSlot; hide HeaderSlot; hide DetailSlot; hide NumberSlot; hide ObjectSlot; hide Canonical; hide GroupOf;
    forall f | PayloadOnly(f)
      ensures f !in Canonical(raw, host) && Get(Canonical(raw, host), f).Null?
    {
      CanonicalGet(raw, host, f);
      PayloadOnlyHasNoGroup(f);
    }
  }

  predicate Plain(s: string) {
    s != "" && forall i | 0 <= i < |s| :: 'a' <= s[i] <= 'z' || s[i] == '-'
  }

  lemma PlainIsFixed(s: string)
    requires Plain(s)
    ensures Trimmed(s) && Lower(Strip(s)) == s && Dashed(Lower(Strip(s))) == s && !Blank(s)
  {
    TrimmedEnds(s);
    assert Lower(s) == s;
    assert Dashed(s) == s;
  }

  lemma SignalTypesArePlain(s: string)
    requires s in ALLOWED_SIGNAL_TYPES
    ensures Plain(s)
  {
  }

  lemma NoErrors(raw: Record, host: Host)
    ensures Errors(raw, host) == [] <==>
      && CommandErrors(raw, host) == [] && IdentityErrors(raw) == [] && LifecycleErrors(raw, host) == []
      && SignalErrors(raw, host) == [] && EpochOf(raw, host).Some? && PriceErrors(raw, PRICES) == []
      && ScoreErrors(raw) == [] && TrailingErrors(raw) == [] && MtfErrors(raw) == []
  {
    hide CommandErrors; hide IdentityErrors; hide LifecycleErrors; hide SignalErrors; hide EpochOf; hide PriceErrors;
    hide ScoreErrors; hide TrailingErrors; hide MtfErrors;
  }

  lemma {:induction false} PricesAllowed(raw: Record, fields: seq<Field>)
    ensures PriceErrors(raw, fields) == [] <==> forall f | f in fields :: PriceAllowed(PriceOf(raw, f))
  {
    hide PriceOf; hide PriceAllowed;
    if fields != [] {
      var n := |fields| - 1;
      PricesAllowed(raw, fields[..n]);
      assert fields == fields[..n] + [fields[n]];
    }
  }

  /** What an accepted payload's prices, scores and time satisfy. */
  lemma AcceptedBounds(raw: Record, host: Host)
    requires Accepted(raw, host)
    ensures var s := Canonical(raw, host);
      && (forall f | f in PRICES :: PriceAllowed(Get(s, f)))
      && ShareAllowed(Get(s, Confidence)) && ShareAllowed(Get(s, OperationalStabilityScore))
      && Get(s, Timestamp).Num? && 0.0 <= Get(s, Timestamp).r <= host.clock.now + 5.0
      && NonBlank(Get(s, IntegrationId)) && NonBlank(Get(s, SignalId))
  {
    hide CommandErrors; hide LifecycleErrors; hide SignalErrors; hide TrailingErrors; hide MtfErrors; hide Canonical;
    hide EpochOf; hide RatioOf; hide FloatOf; hide VersionOf; hide IdentityErrors; hide ScoreErrors; hide Errors;
    NoErrors(raw, host);
    AcceptedPrices(raw, host);
    AcceptedScores(raw, host);
    AcceptedTime(raw, host);
    AcceptedIds(raw, host);
  }

  lemma AcceptedPrices(raw: Record, host: Host)
    requires PriceErrors(raw, PRICES) == []
    ensures forall f | f in PRICES :: PriceAllowed(Get(Canonical(raw, host), f))
  {
    hide PriceOf; hide Canonical; hide GroupOf;
    PricesAllowed(raw, PRICES);
    forall f | f in PRICES
      ensures PriceAllowed(Get(Canonical(raw, host), f))
    {
      PriceGroup(f);
      InNumbers(raw, host, f);
    }
  }

  lemma PriceGroup(f: Field)
    requires f in PRICES
    ensures GroupOf(f).NumberGroup? && !f.RiskRewardRatio? && !f.Confidence? && !f.OperationalStabilityScore?
            && !f.RequestedQuantity?
  {
  }

  lemma AcceptedScores(raw: Record, host: Host)
    requires ScoreErrors(raw) == []
    ensures ShareAllowed(Get(Canonical(raw, host), Confidence))
    ensures ShareAllowed(Get(Canonical(raw, host), OperationalStabilityScore))
  {
    hide Canonical; hide ConfidenceOf; hide StabilityOf;
    InNumbers(raw, host, Confidence);
    InNumbers(raw, host, OperationalStabilityScore);
  }

  lemma EpochBounds(raw: Record, host: Host)
    requires EpochOf(raw, host).Some?
    ensures 0.0 <= EpochOf(raw, host).value <= host.clock.now + 5.0
  {
    hide IsNested; hide RawTimestampOf; hide NonBlank;
  }

  lemma AcceptedTime(raw: Record, host: Host)
    requires EpochOf(raw, host).Some?
    ensures var t := Get(Canonical(raw, host), Timestamp);
      t == Num(EpochOf(raw, host).value) && 0.0 <= t.r <= host.clock.now + 5.0
  {
    hide Canonical; hide EpochOf;
    InHeader(raw, host, Timestamp);
    EpochBounds(raw, host);
  }

  lemma AcceptedIds(raw: Record, host: Host)
    requires IdentityErrors(raw) == []
    ensures NonBlank(Get(Canonical(raw, host), IntegrationId)) && NonBlank(Get(Canonical(raw, host), SignalId))
  {
    assert NonBlank(IntegrationOf(raw)) && NonBlank(SignalIdOf(raw));
    hide Canonical; hide IntegrationOf; hide SignalIdOf; hide Strip;
    InLineage(raw, host, IntegrationId);
    InLineage(raw, host, SignalId);
    StripIsTrimmed(IntegrationOf(raw).s);
    StripIsTrimmed(SignalIdOf(raw).s);
  }

  function ValueOf(o: Option<Json>): Json {
    match o case Some(j) => j case None => Null
  }

  lemma InLineage(raw: Record, host: Host, f: Field)
    requires GroupOf(f).LineageGroup?
    ensures Get(Canonical(raw, host), f) == ValueOf(LineageSlot(raw, host, f))
  {
    hide LineageSlot; hide HeaderSlot; hide DetailSlot; hide NumberSlot; hide ObjectSlot;
    hide Canonical; hide GroupOf;
    CanonicalGet(raw, host, f);
  }

  lemma InHeader(raw: Record, host: Host, f: Field)
    requires GroupOf(f).HeaderGroup?
    ensures f in Canonical(raw, host) && Get(Canonical(raw, host), f) == ValueOf(HeaderSlot(raw, host, f))
  {
    hide LineageSlot; hide DetailSlot; hide NumberSlot; hide ObjectSlot;
    hide Canonical; hide GroupOf;
    CanonicalGet(raw, host, f);
  }

  lemma InDetail(raw: Record, host: Host, f: Field)
    requires GroupOf(f).DetailGroup?
    ensures Get(Canonical(raw, host), f) == ValueOf(DetailSlot(raw, host, f))
  {
    hide LineageSlot; hide HeaderSlot; hide DetailSlot; hide NumberSlot; hide ObjectSlot;
    hide Canonical; hide GroupOf;
    CanonicalGet(raw, host, f);
  }

  lemma InNumbers(raw: Record, host: Host, f: Field)
    requires GroupOf(f).NumberGroup?
    ensures Get(Canonical(raw, host), f) == ValueOf(NumberSlot(raw, host, f))
    ensures f in Canonical(raw, host) <==> NumberSlot(raw, host, f).Some?
  {
    hide LineageSlot; hide HeaderSlot; hide DetailSlot; hide NumberSlot; hide ObjectSlot;
    hide Canonical; hide GroupOf;
    CanonicalGet(raw, host, f);
  }

  lemma InObjects(raw: Record, host: Host, f: Field)
    requires GroupOf(f).ObjectGroup?
    ensures Get(Canonical(raw, host), f) == ValueOf(ObjectSlot(raw, f))
  {
    hide LineageSlot; hide HeaderSlot; hide DetailSlot; hide NumberSlot; hide ObjectSlot;
    hide Canonical; hide GroupOf;
    CanonicalGet(raw, host, f);
  }

  lemma TextOrNullTwice(j: Json, host: Host)
    requires TextOrNull(j, host) != Str("")
    ensures TextOrNull(TextOrNull(j, host), host) == TextOrNull(j, host)
  {
    StripIsTrimmed(Spell(j, host));
  }

  /** Lineage texts that are read from one place. */
  predicate SingleText(f: Field) {
    || f.DecisionId? || f.CandidateId? || f.ResearchEvidenceId? || f.ResearchFingerprint?
    || f.CanonicalLiveDecisionFingerprint? || f.RuntimeAuthorizationFingerprint?
  }

  /** In a flat record they are read from their own fields. */
  lemma FlatLineage(s: Record, f: Field)
    requires Flat(s) && (SingleText(f) || f.SignalId?)
    ensures LineageOf(s, f) == Get(s, f)
  {
    hide Get; hide Flat; hide PublicationOf; hide EventOf; hide IntegrationOf;
    FlatSections(s);
    TracedInFlat(s, f);
  }

  lemma TracedInFlat(s: Record, f: Field)
    requires Section(s, SignalSection) == map[] && Section(s, ProvenanceSection) == map[]
    ensures forall key :: Traced(s, key, f) == Get(s, f)
  {
    hide Get;
  }

  lemma FlatSections(s: Record)
    requires Flat(s)
    ensures Section(s, SignalSection) == map[] && Section(s, InstrumentSection) == map[]
    ensures Section(s, TradeSetupSection) == map[] && Section(s, ProvenanceSection) == map[] && !IsNested(s)
  {
    hide Get;
    assert PayloadOnly(SignalSection) && PayloadOnly(InstrumentSection);
    assert PayloadOnly(TradeSetupSection) && PayloadOnly(ProvenanceSection);
  }

  lemma SingleTextFixed(s: Record, raw: Record, host: Host, f: Field)
    requires s == Canonical(raw, host) && Flat(s) && SingleText(f) && Get(s, f) != Str("")
    ensures LineageSlot(s, host, f) == LineageSlot(raw, host, f)
  {
    hide Canonical; hide Flat; hide LineageOf; hide TextOrNull; hide Get; hide GroupOf;
    SingleTextGroup(f);
    InLineage(raw, host, f);
    FlatLineage(s, f);
    TextOrNullTwice(LineageOf(raw, f), host);
  }

  lemma SingleTextGroup(f: Field)
    requires SingleText(f)
    ensures GroupOf(f).LineageGroup? && !f.IntegrationId? && !f.SignalId?
  {
  }

  /** What the identities of an accepted payload with a named event come out as. */
  lemma IdentitiesOf(raw: Record, host: Host)
    requires IdentityErrors(raw) == [] && NonBlank(TextOrNull(EventOf(raw), host))
    ensures NonBlank(PublicationOf(raw)) && IntegrationOf(raw) == PublicationOf(raw) && NonBlank(SignalIdOf(raw))
    ensures TextOrNull(PublicationOf(raw), host) == Stripped(IntegrationOf(raw), host)
  {
    assert Strip("") == "";
    hide Strip;
  }

  lemma IdentityFixed(s: Record, raw: Record, host: Host)
    requires s == Canonical(raw, host) && Flat(s) && IdentityErrors(raw) == [] && NonBlank(Get(s, EventId))
    ensures PublicationOf(s) == TextOrNull(PublicationOf(raw), host) == IntegrationOf(s)
    ensures EventOf(s) == TextOrNull(EventOf(raw), host) && SignalIdOf(s) == Stripped(SignalIdOf(raw), host)
    ensures NonBlank(PublicationOf(s)) && NonBlank(EventOf(s)) && NonBlank(SignalIdOf(s))
  {
    assert Strip("") == "";
    hide Canonical; hide Strip; hide GroupOf; hide Get; hide Flat;
    PublicationGet(raw, host);
    IdentitiesOf(raw, host);
    FlatSections(s);
    StripIsTrimmed(PublicationOf(raw).s);
    StripIsTrimmed(SignalIdOf(raw).s);
  }

  lemma PublicationGet(raw: Record, host: Host)
    ensures var s := Canonical(raw, host);
      && Get(s, PublicationId) == TextOrNull(PublicationOf(raw), host)
      && Get(s, EventId) == TextOrNull(EventOf(raw), host)
      && Get(s, SignalId) == Stripped(SignalIdOf(raw), host)
  {
    hide Canonical; hide Get; hide TextOrNull; hide Stripped;
    InLineage(raw, host, PublicationId);
    InLineage(raw, host, EventId);
    InLineage(raw, host, SignalId);
  }

  /** The header is the same again. */
  lemma HeaderFixed(s: Record, raw: Record, host: Host, f: Field)
    requires s == Canonical(raw, host) && Flat(s) && GroupOf(f).HeaderGroup? && EpochOf(raw, host).Some?
    ensures HeaderSlot(s, host, f) == HeaderSlot(raw, host, f)
  {
    hide Canonical; hide GroupOf; hide Strip; hide EpochOf; hide Flat; hide VersionOf;
    InHeader(raw, host, f);
    match f
    case Timestamp => EpochFixed(s, raw, host);
    case ContractVersion => VersionFixed(s, raw, host);
    case SourceId => StripIsTrimmed(if f in raw then Spell(raw[f], host) else "project1_engine");
    case _ =>
  }

  lemma VersionFixed(s: Record, raw: Record, host: Host)
    requires ContractVersion in s && s[ContractVersion] == Str(VersionOf(raw, host))
    ensures VersionOf(s, host) == VersionOf(raw, host)
  {
    StripIsTrimmed(if ContractVersion in raw then Spell(raw[ContractVersion], host) else "1.0");
  }

  lemma EpochFixed(s: Record, raw: Record, host: Host)
    requires Flat(s) && EpochOf(raw, host).Some? && Timestamp in s && s[Timestamp] == Num(EpochOf(raw, host).value)
    ensures EpochOf(s, host) == EpochOf(raw, host)
  {
    EpochBounds(raw, host);
    FlatSections(s);
  }

  /** In a flat record each detail is read from its own field. */
  lemma FlatDetails(s: Record)
    requires Flat(s)
    ensures SymbolOf(s) == Get(s, Symbol) && TimeframeOf(s) == Get(s, Timeframe)
    ensures RawDecisionOf(s) == if Truthy(Get(s, SignalType)) then Get(s, SignalType) else Null
    ensures LifecycleOf(s) == if Truthy(Get(s, LifecycleState)) then Get(s, LifecycleState) else Null
    ensures StrategyOf(s) == if Truthy(Get(s, StrategyName)) then Get(s, StrategyName) else Null
    ensures StrategyVersionOf(s) == if Truthy(Get(s, StrategyVersion)) then Get(s, StrategyVersion) else Null
    ensures InvalidationOf(s) == Get(s, InvalidationCondition)
  {
    FlatSections(s);
    assert PayloadOnly(Action) && PayloadOnly(StrategyId);
    hide Truthy;
  }

  /** A canonical record is an emit command. */
  lemma CanonicalEmits(raw: Record, host: Host)
    ensures CommandOf(Canonical(raw, host), host) == Str("EMIT_SIGNAL")
    ensures EventTypeOf(Canonical(raw, host)) == Str("EMIT_SIGNAL")
    ensures Emits(Canonical(raw, host), host)
  {
    hide Canonical; hide Get;
    CanonicalIsFlat(raw, host);
    CommandGet(raw, host);
    assert PayloadOnly(EventType);
  }

  lemma CommandGet(raw: Record, host: Host)
    ensures Get(Canonical(raw, host), CommandType) == Str("EMIT_SIGNAL")
  {
    hide Canonical; hide Get;
    InHeader(raw, host, CommandType);
  }

  lemma CasedTwice(f: Field, s: string)
    ensures Cased(f, Strip(Cased(f, Strip(s)))) == Cased(f, Strip(s))
  {
    UpperStripTwice(s);
    LowerStripTwice(s);
    StripIsTrimmed(s);
  }

  /** A detail read from its own field comes out as it is. */
  lemma DetailTwice(s: Record, raw: Record, host: Host, f: Field)
    requires s == Canonical(raw, host) && GroupOf(f).DetailGroup? && DetailOf(s, host, f) == Get(s, f)
    ensures DetailSlot(s, host, f) == DetailSlot(raw, host, f)
  {
    hide Canonical; hide Strip; hide Get; hide GroupOf; hide DetailOf; hide Cased;
    InDetail(raw, host, f);
    CasedTwice(f, Spell(DetailOf(raw, host, f), host));
  }

  lemma DetailsFixed(s: Record, raw: Record, host: Host, f: Field)
    requires s == Canonical(raw, host) && Flat(s) && GroupOf(f).DetailGroup? && LifecycleErrors(raw, host) == []
    requires OneOf(Get(s, SignalType), ALLOWED_SIGNAL_TYPES)
    requires f.StrategyName? || f.StrategyVersion? || f.InvalidationCondition? ==> Get(s, f) != Str("")
    ensures DetailSlot(s, host, f) == DetailSlot(raw, host, f)
  {
    hide Canonical; hide GroupOf; hide Flat; hide Strip; hide DetailSlot; hide LifecycleErrors;
    LifecycleIsNotEmpty(s, raw, host);
    DecisionFixed(s, host);
    FlatDetails(s);
    DetailTextOrNull(s, raw, host, f);
    DetailFields(f);
    assert DetailOf(s, host, f) == Get(s, f);
    DetailTwice(s, raw, host, f);
  }

  lemma DetailTextOrNull(s: Record, raw: Record, host: Host, f: Field)
    requires s == Canonical(raw, host) && GroupOf(f).DetailGroup?
    ensures Get(s, f).Null? || Get(s, f).Str?
  {
    hide Canonical; hide GroupOf; hide DetailOf; hide Cased; hide Strip;
    InDetail(raw, host, f);
  }

  lemma DetailFields(f: Field)
    requires GroupOf(f).DetailGroup?
    ensures f.Symbol? || f.SignalType? || f.LifecycleState? || f.StrategyName? || f.StrategyVersion? || f.Timeframe?
            || f.InvalidationCondition?
  {
  }

  lemma LifecycleIsNotEmpty(s: Record, raw: Record, host: Host)
    requires s == Canonical(raw, host) && Flat(s) && LifecycleErrors(raw, host) == []
    ensures Get(s, LifecycleState) != Str("") && LifecycleErrors(s, host) == []
  {
    LifecycleGet(raw, host);
    FlatDetails(s);
    LifecycleWord(LifecycleOf(raw), host);
    hide Canonical; hide Strip; hide Upper; hide Get; hide Flat;
  }

  lemma LifecycleGet(raw: Record, host: Host)
    ensures Get(Canonical(raw, host), LifecycleState)
            == if LifecycleOf(raw).Null? then Null else Str(Upper(Strip(Spell(LifecycleOf(raw), host))))
  {
    hide Canonical; hide Strip; hide Upper; hide Get; hide LifecycleOf; hide SymbolOf; hide DecisionOf; hide StrategyOf;
    hide StrategyVersionOf; hide TimeframeOf; hide InvalidationOf;
    InDetail(raw, host, LifecycleState);
  }

  lemma LifecycleWord(j: Json, host: Host)
    ensures var w := Upper(Strip(Spell(j, host)));
      && Upper(Strip(w)) == w && (w in ALLOWED_LIFECYCLE_STATES ==> w != "")
  {
    UpperStripTwice(Spell(j, host));
  }

  /** In a canonical record a decision of an allowed kind is read back as it is. */
  lemma DecisionFixed(s: Record, host: Host)
    requires Flat(s) && OneOf(Get(s, SignalType), ALLOWED_SIGNAL_TYPES)
    ensures RawDecisionOf(s) == Get(s, SignalType) && DecisionOf(s, host) == Get(s, SignalType)
    ensures NonBlank(Get(s, SignalType)) && Dashed(Lower(Strip(Get(s, SignalType).s))) == Get(s, SignalType).s
  {
    FlatDetails(s);
    SignalTypesArePlain(Get(s, SignalType).s);
    PlainIsFixed(Get(s, SignalType).s);
    hide Strip; hide Lower; hide Dashed; hide Emits; hide Get; hide Flat;
  }

  /** In a flat record each number is read from its own field. */
  lemma FlatNumbers(s: Record)
    requires Flat(s)
    ensures RatioOf(s) == Get(s, RiskRewardRatio) && ConfidenceOf(s) == Get(s, Confidence)
    ensures StabilityOf(s) == Get(s, OperationalStabilityScore) && QuantityOf(s) == Get(s, RequestedQuantity)
  {
    FlatSections(s);
    assert PayloadOnly(StabilityScore) && PayloadOnly(Quantity);
  }

  lemma FlatPrice(s: Record, f: Field)
    requires Flat(s) && f in PRICES
    ensures PriceOf(s, f) == Get(s, f)
  {
    FlatSections(s);
    hide Get;
  }

  lemma FloatTwice(j: Json, host: Host)
    ensures FloatOf(ValueOf(FloatOf(j, host)), host) == FloatOf(j, host)
  {
  }

  lemma NumbersFixed(s: Record, raw: Record, host: Host, f: Field)
    requires s == Canonical(raw, host) && Flat(s) && GroupOf(f).NumberGroup?
    ensures NumberSlot(s, host, f) == NumberSlot(raw, host, f)
  {
    hide Canonical; hide Get; hide PriceOf; hide RatioOf; hide ConfidenceOf; hide StabilityOf; hide QuantityOf;
    hide FloatOf; hide Flat; hide GroupOf;
    InNumbers(raw, host, f);
    FlatNumbers(s);
    if f in PRICES { FlatPrice(s, f); }
    FloatTwice(RatioOf(raw), host);
    FloatTwice(QuantityOf(raw), host);
    NumberFields(f);
  }

  lemma TrailingTwice(e: map<string, Json>)
    ensures TrailingDict(TrailingDict(e)) == TrailingDict(e)
    ensures TrailingAllowed(e) ==> TrailingAllowed(TrailingDict(e))
  {
    hide PriceAllowed;
    var d := TrailingDict(e);
    assert "distance" in TRAILING_KEYS && "activation_price" in TRAILING_KEYS && "is_active" in TRAILING_KEYS
        && "trailing_stop_loss" in TRAILING_KEYS;
    assert forall k | k in TRAILING_KEYS && k != "is_active" :: Entry(d, k) == Entry(e, k);
    assert Entry(d, "is_active") == Bool(Truthy(Entry(e, "is_active")));
  }

  lemma MtfSignalTwice(j: Json)
    requires j.Obj? && MtfSignalAllowed(j.entries)
    ensures MtfSignalDict(j).Obj? && MtfSignalAllowed(MtfSignalDict(j).entries)
    ensures MtfSignalDict(MtfSignalDict(j)) == MtfSignalDict(j)
  {
    hide NonBlank; hide Truthy; hide Lower;
    var d := MtfSignalDict(j).entries;
    assert forall k | k in MTF_SIGNAL_KEYS :: Entry(d, k) == Entry(j.entries, k);
    assert "timeframe" in MTF_SIGNAL_TEXTS && "direction" in MTF_SIGNAL_TEXTS;
    assert "decision_timestamp" in MTF_SIGNAL_KEYS && "market_timestamp" in MTF_SIGNAL_KEYS
        && "provenance" in MTF_SIGNAL_KEYS;
  }

  /** A validated MTF object is valid and comes out as it is. */
  lemma MtfTwice(e: map<string, Json>)
    requires MtfAllowed(e)
    ensures MtfAllowed(MtfDict(e)) && MtfDict(MtfDict(e)) == MtfDict(e)
  {
    var d := MtfDict(e);
    MtfKeys(e);
    var items := ListAt(e, "signals").items;
    var again := ListAt(d, "signals").items;
    hide MtfSignalAllowed; hide MtfSignalDict; hide NonBlank; hide Whole;
    forall i | 0 <= i < |items|
      ensures again[i].Obj? && MtfSignalAllowed(again[i].entries) && MtfSignalDict(again[i]) == again[i]
    {
      assert items[i] in items;
      MtfSignalTwice(items[i]);
    }
    assert seq(|again|, i requires 0 <= i < |again| => MtfSignalDict(again[i])) == again;
    forall k | k in MTF_KEYS
      ensures MtfSlot(d, k) == MtfSlot(e, k)
    {
    }
  }

  lemma MtfKeys(e: map<string, Json>)
    ensures var d := MtfDict(e);
      && (forall k | k in MTF_KEYS :: k in d && d[k] == MtfSlot(e, k))
      && {"symbol", "local_timeframe", "participating_timeframes", "signals", "alignment_count", "alignment_coverage",
          "classification", "higher_timeframe_context", "constituent_fingerprints"} <= MTF_KEYS
  {
  }

  lemma ObjectsFixed(s: Record, raw: Record, host: Host, f: Field)
    requires s == Canonical(raw, host) && Flat(s) && GroupOf(f).ObjectGroup?
    requires TrailingErrors(raw) == [] && MtfErrors(raw) == []
    ensures ObjectSlot(s, f) == ObjectSlot(raw, f)
  {
    hide Canonical; hide GroupOf; hide TrailingOf; hide TrailingDict; hide TrailingAllowed; hide MtfAllowed;
    hide MtfDict; hide MetadataFor; hide Flat;
    InObjects(raw, host, f);
    FlatObjects(s);
    if f.TrailingStop? && TrailingOf(raw).Obj? { TrailingTwice(TrailingOf(raw).entries); }
    if f.Mtf? && Get(raw, f).Obj? { MtfTwice(Get(raw, f).entries); }
    ObjectFields(f);
  }

  lemma ObjectFields(f: Field)
    requires GroupOf(f).ObjectGroup?
    ensures f.TrailingStop? || f.Mtf? || f.Metadata?
  {
  }

  lemma FlatObjects(s: Record)
    requires Flat(s)
    ensures TrailingOf(s) == Get(s, TrailingStop) && MetadataFor(s) == MetadataOf(s)
  {
    FlatSections(s);
    assert PayloadOnly(ProvenanceType) && PayloadOnly(IsLive) && PayloadOnly(Source);
    assert TruthyAt(s, ProvenanceType).None? && PresentAt(s, IsLive).None? && TruthyAt(s, Source).None?;
    hide Flat; hide Get; hide Truthy; hide TruthyAt; hide PresentAt;
    assert MetadataOf(s) + map[] == MetadataOf(s);
  }

  lemma ObjectErrorsFixed(s: Record, raw: Record, host: Host)
    requires s == Canonical(raw, host) && Flat(s) && TrailingErrors(raw) == [] && MtfErrors(raw) == []
    ensures TrailingErrors(s) == [] && MtfErrors(s) == []
  {
    hide Canonical; hide TrailingOf; hide TrailingDict; hide TrailingAllowed; hide MtfAllowed; hide MtfDict; hide Flat;
    hide MetadataFor; hide Get;
    InObjects(raw, host, TrailingStop);
    InObjects(raw, host, Mtf);
    FlatObjects(s);
    if TrailingOf(raw).Obj? { TrailingTwice(TrailingOf(raw).entries); }
    if Get(raw, Mtf).Obj? { MtfTwice(Get(raw, Mtf).entries); }
  }

  /** Every field of a settled canonical record is the same again. */
  lemma SlotFixed(raw: Record, host: Host, f: Field)
    requires Accepted(raw, host) && Settled(Canonical(raw, host))
    ensures Slot(Canonical(raw, host), host, f) == Slot(raw, host, f)
  {
    hide Canonical; hide GroupOf; hide Flat; hide LineageSlot; hide HeaderSlot; hide DetailSlot; hide NumberSlot;
    hide ObjectSlot; hide Errors; hide VersionOf; hide RatioOf; hide FloatOf; hide EpochOf; hide LifecycleErrors;
    hide TrailingErrors; hide MtfErrors; hide IdentityErrors; hide CommandErrors; hide SignalErrors; hide PriceErrors;
    hide ScoreErrors;
    var s := Canonical(raw, host);
    CanonicalIsFlat(raw, host);
    NoErrors(raw, host);
    match GroupOf(f)
    case LineageGroup => LineageFixed(s, raw, host, f);
    case HeaderGroup => HeaderFixed(s, raw, host, f);
    case DetailGroup => DetailsFixed(s, raw, host, f);
    case NumberGroup => NumbersFixed(s, raw, host, f);
    case ObjectGroup => ObjectsFixed(s, raw, host, f);
    case NoGroup =>
  }

  lemma LineageFixed(s: Record, raw: Record, host: Host, f: Field)
    requires s == Canonical(raw, host) && Flat(s) && GroupOf(f).LineageGroup? && IdentityErrors(raw) == []
    requires NonBlank(Get(s, EventId)) && (SingleText(f) ==> Get(s, f) != Str(""))
    ensures LineageSlot(s, host, f) == LineageSlot(raw, host, f)
  {
    hide Canonical; hide Flat; hide GroupOf; hide Get; hide PublicationOf; hide EventOf; hide SignalIdOf; hide NonBlank;
    hide IdentityErrors;
    if SingleText(f) {
      SingleTextFixed(s, raw, host, f);
    } else {
      LineageFields(f);
      IdentityFixed(s, raw, host);
      IdentityAgain(s, raw, host, f);
    }
  }

  lemma LineageFields(f: Field)
    requires GroupOf(f).LineageGroup? && !SingleText(f)
    ensures f.IntegrationId? || f.PublicationId? || f.EventId? || f.SignalId?
  {
  }

  lemma IdentityAgain(s: Record, raw: Record, host: Host, f: Field)
    requires f.IntegrationId? || f.PublicationId? || f.EventId? || f.SignalId?
    requires IdentityErrors(raw) == [] && NonBlank(TextOrNull(EventOf(raw), host))
    requires PublicationOf(s) == TextOrNull(PublicationOf(raw), host) == IntegrationOf(s)
    requires EventOf(s) == TextOrNull(EventOf(raw), host) && SignalIdOf(s) == Stripped(SignalIdOf(raw), host)
    ensures LineageSlot(s, host, f) == LineageSlot(raw, host, f)
  {
    IdentitiesOf(raw, host);
    StripIsTrimmed(Spell(PublicationOf(raw), host));
    StripIsTrimmed(Spell(EventOf(raw), host));
    StripIsTrimmed(Spell(SignalIdOf(raw), host));
    assert Strip("") == "";
    hide PublicationOf; hide EventOf; hide SignalIdOf; hide IntegrationOf; hide Strip;
  }

  lemma RatioFixed(s: Record, raw: Record, host: Host)
    requires s == Canonical(raw, host) && Flat(s)
    ensures RatioOf(s).Null? || FloatOf(RatioOf(s), host).Some?
  {
    hide Canonical; hide Flat; hide RatioOf; hide Get; hide ConfidenceOf; hide StabilityOf; hide QuantityOf;
    hide PriceOf;
    InNumbers(raw, host, RiskRewardRatio);
    FlatNumbers(s);
    FloatTwice(RatioOf(raw), host);
  }

  lemma CommandFixed(s: Record, raw: Record, host: Host)
    requires s == Canonical(raw, host) && Flat(s)
    ensures CommandErrors(s, host) == []
  {
    hide Canonical; hide CommandOf; hide EventTypeOf; hide Emits;
    CanonicalEmits(raw, host);
    FlatSections(s);
  }

  lemma BoundsFixed(s: Record, raw: Record, host: Host)
    requires s == Canonical(raw, host) && Flat(s) && Accepted(raw, host)
    ensures PriceErrors(s, PRICES) == [] && ScoreErrors(s) == [] && EpochOf(s, host).Some?
  {
    AcceptedBounds(raw, host);
    hide Canonical; hide Flat; hide Accepted; hide PriceOf; hide Get; hide EpochOf; hide NonBlank;
    FlatNumbers(s);
    forall f | f in PRICES
      ensures PriceAllowed(PriceOf(s, f))
    {
      FlatPrice(s, f);
    }
    PricesAllowed(s, PRICES);
    AcceptedEpoch(raw, host);
    EpochFixed(s, raw, host);
  }

  lemma AcceptedEpoch(raw: Record, host: Host)
    requires Accepted(raw, host)
    ensures var s := Canonical(raw, host);
      EpochOf(raw, host).Some? && Timestamp in s && s[Timestamp] == Num(EpochOf(raw, host).value)
  {
    hide CommandErrors; hide LifecycleErrors; hide SignalErrors; hide TrailingErrors; hide MtfErrors; hide Canonical;
    hide EpochOf; hide RatioOf; hide FloatOf; hide VersionOf; hide IdentityErrors; hide ScoreErrors; hide Errors;
    hide PriceErrors;
    NoErrors(raw, host);
    TimestampGet(raw, host);
  }

  lemma TimestampGet(raw: Record, host: Host)
    requires EpochOf(raw, host).Some?
    ensures var s := Canonical(raw, host); Timestamp in s && s[Timestamp] == Num(EpochOf(raw, host).value)
  {
    hide Canonical; hide EpochOf;
    InHeader(raw, host, Timestamp);
  }

  /** A settled canonical record is accepted. */
  lemma SettledIsAccepted(raw: Record, host: Host)
    requires Accepted(raw, host) && Settled(Canonical(raw, host))
    ensures Accepted(Canonical(raw, host), host)
  {
    var s := Canonical(raw, host);
    hide Canonical; hide Errors; hide CommandErrors; hide LifecycleErrors; hide SignalErrors; hide EpochOf; hide Flat;
    hide PriceErrors; hide ScoreErrors; hide TrailingErrors; hide MtfErrors; hide RatioOf; hide FloatOf; hide VersionOf;
    hide NonBlank; hide IdentityErrors; hide Get;
    CanonicalIsFlat(raw, host);
    NoErrors(raw, host);
    NoErrors(s, host);
    CommandFixed(s, raw, host);
    IdentitiesAccepted(s, raw, host);
    LifecycleIsNotEmpty(s, raw, host);
    SignalAccepted(s, raw, host);
    BoundsFixed(s, raw, host);
    ObjectErrorsFixed(s, raw, host);
    RatioFixed(s, raw, host);
    HeaderVersion(raw, host);
    VersionFixed(s, raw, host);
  }

  lemma HeaderVersion(raw: Record, host: Host)
    ensures var s := Canonical(raw, host); ContractVersion in s && s[ContractVersion] == Str(VersionOf(raw, host))
  {
    hide Canonical; hide VersionOf;
    InHeader(raw, host, ContractVersion);
  }

  lemma IdentitiesAccepted(s: Record, raw: Record, host: Host)
    requires s == Canonical(raw, host) && Flat(s) && IdentityErrors(raw) == [] && NonBlank(Get(s, EventId))
    ensures IdentityErrors(s) == []
  {
    IdentityFixed(s, raw, host);
    hide Canonical; hide Flat; hide PublicationOf; hide EventOf; hide SignalIdOf; hide NonBlank;
  }

  lemma SignalAccepted(s: Record, raw: Record, host: Host)
    requires s == Canonical(raw, host) && Flat(s) && NonBlank(Get(s, Symbol))
    requires OneOf(Get(s, SignalType), ALLOWED_SIGNAL_TYPES)
    ensures SignalErrors(s, host) == []
  {
    FlatDetails(s);
    DecisionFixed(s, host);
    CanonicalEmits(raw, host);
    hide Canonical; hide Flat; hide NonBlank; hide Strip; hide Emits; hide Get; hide Dashed; hide Lower;
  }

  /** The canonical record of an accepted payload validates to itself when it is settled. */
  lemma SettledIsFixed(raw: Record, host: Host)
    requires Accepted(raw, host) && Settled(Canonical(raw, host))
    ensures Validated(Canonical(raw, host), host) == Valid(Canonical(raw, host))
  {
    hide Canonical; hide Errors; hide VersionOf; hide RatioOf; hide FloatOf; hide Settled;
    SettledIsAccepted(raw, host);
    CanonicalTwice(raw, host);
  }

  lemma CanonicalTwice(raw: Record, host: Host)
    requires Accepted(raw, host) && Settled(Canonical(raw, host))
    ensures Canonical(Canonical(raw, host), host) == Canonical(raw, host)
  {
    hide Slot; hide Accepted; hide Settled; hide Canonical;
    forall f
      ensures Slot(Canonical(raw, host), host, f) == Slot(raw, host, f)
    {
      SlotFixed(raw, host, f);
    }
    SameSlots(Canonical(raw, host), raw, host);
  }

  lemma SameSlots(a: Record, b: Record, host: Host)
    requires forall f :: Slot(a, host, f) == Slot(b, host, f)
    ensures Canonical(a, host) == Canonical(b, host)
  {
    hide Slot;
  }

  /** A canonical record that validates to itself is settled. */
  lemma FixedIsSettled(raw: Record, host: Host)
    requires Accepted(raw, host) && Validated(Canonical(raw, host), host) == Valid(Canonical(raw, host))
    ensures Settled(Canonical(raw, host))
  {
    var s := Canonical(raw, host);
    ValidIsAccepted(s, host);
    CanonicalIsFlat(raw, host);
    hide Validated; hide Accepted; hide Canonical; hide Flat; hide NonBlank; hide OneOf; hide Get;
    FixedEvent(s, raw, host);
    FixedSignal(s, raw, host);
    forall f | f in OPTIONAL_TEXTS
      ensures Get(s, f) != Str("")
    {
      FixedText(s, host, f);
    }
  }

  lemma ValidIsAccepted(s: Record, host: Host)
    requires Validated(s, host) == Valid(s)
    ensures Accepted(s, host) && Canonical(s, host) == s
  {
    hide Canonical; hide Errors; hide VersionOf; hide RatioOf; hide FloatOf;
  }

  lemma FixedText(s: Record, host: Host, f: Field)
    requires Flat(s) && Canonical(s, host) == s && f in OPTIONAL_TEXTS
    ensures Get(s, f) != Str("")
  {
    hide Canonical; hide Flat; hide Get; hide GroupOf; hide LineageOf; hide StrategyOf; hide StrategyVersionOf;
    hide InvalidationOf; hide Cased;
    OptionalFields(f);
    if SingleText(f) {
      SingleTextGroup(f);
      InLineage(s, host, f);
      FlatLineage(s, f);
    } else {
      StrategyGroup(f);
      InDetail(s, host, f);
      FlatDetails(s);
    }
  }

  lemma OptionalFields(f: Field)
    requires f in OPTIONAL_TEXTS
    ensures SingleText(f) || f.StrategyName? || f.StrategyVersion? || f.InvalidationCondition?
  {
  }

  lemma StrategyGroup(f: Field)
    requires f.StrategyName? || f.StrategyVersion? || f.InvalidationCondition?
    ensures GroupOf(f).DetailGroup?
  {
  }

  lemma FixedEvent(s: Record, raw: Record, host: Host)
    requires s == Canonical(raw, host) && Accepted(raw, host) && Canonical(s, host) == s
    ensures NonBlank(Get(s, EventId))
  {
    hide Canonical; hide Accepted; hide Get; hide TextOrNull; hide EventOf; hide Stripped; hide NonBlank;
    AcceptedBounds(raw, host);
    PublicationGet(raw, host);
    PublicationGet(s, host);
    EventReads(s);
    EventOfFixed(Get(s, EventId), Get(s, IntegrationId), EventOf(raw), EventOf(s), host);
  }

  lemma EventReads(s: Record)
    ensures EventOf(s) == Or(Get(s, EventId), Get(s, IntegrationId))
  {
  }

  lemma EventOfFixed(event: Json, integration: Json, first: Json, second: Json, host: Host)
    requires event == TextOrNull(first, host) == TextOrNull(second, host) && NonBlank(integration)
    requires second == Or(event, integration)
    ensures NonBlank(event)
  {
    StripIsTrimmed(Spell(first, host));
    assert Strip("") == "";
    hide Strip;
  }

  lemma FixedSignal(s: Record, raw: Record, host: Host)
    requires s == Canonical(raw, host) && Flat(s) && Accepted(s, host) && Canonical(s, host) == s
    ensures NonBlank(Get(s, Symbol)) && OneOf(Get(s, SignalType), ALLOWED_SIGNAL_TYPES)
  {
    CanonicalEmits(raw, host);
    NoErrors(s, host);
    FlatDetails(s);
    SignalTypeGet(s, host);
    var d := RawDecisionOf(s);
    assert NonBlank(SymbolOf(s)) && NonBlank(d);
    var w := Dashed(Lower(Strip(d.s)));
    SignalTypesArePlain(w);
    PlainIsFixed(w);
    hide Canonical; hide Accepted; hide Get; hide Flat; hide Errors; hide Strip; hide Lower; hide Dashed; hide Emits;
  }

  lemma SignalTypeGet(s: Record, host: Host)
    ensures var d := DecisionOf(s, host);
      Get(Canonical(s, host), SignalType) == if d.Null? then Null else Str(Lower(Strip(Spell(d, host))))
  {
    hide Canonical; hide Strip; hide Lower; hide Get; hide LifecycleOf; hide SymbolOf; hide DecisionOf; hide StrategyOf;
    hide StrategyVersionOf; hide TimeframeOf; hide InvalidationOf;
    InDetail(s, host, SignalType);
  }

  /** Validation gives a normal form exactly when the record it gives is settled: validating the canonical record of an
      accepted payload again, with the same clock, yields that very record. */
  lemma CanonicalIsNormalForm(raw: Record, host: Host)
    requires Validated(raw, host).Valid?
    ensures var s := Validated(raw, host).record;
      Validated(s, host) == Valid(s) <==> Settled(s)
  {
    var s := Validated(raw, host).record;
    AcceptedPayload(raw, host);
    hide Validated; hide Accepted; hide Canonical; hide Settled;
    if Settled(s) { SettledIsFixed(raw, host); }
    if Validated(s, host) == Valid(s) { FixedIsSettled(raw, host); }
  }

  lemma AcceptedPayload(raw: Record, host: Host)
    requires Validated(raw, host).Valid?
    ensures Accepted(raw, host) && Validated(raw, host) == Valid(Canonical(raw, host))
  {
    hide Canonical; hide Errors; hide VersionOf; hide RatioOf; hide FloatOf;
  }

  /** The payload names its event, and every optional text it gives is not blank. */
  predicate Named(raw: Record, host: Host) {
    && Truthy(EventOf(raw)) && !Blank(Spell(EventOf(raw), host))
    && (forall f | SingleText(f) && Truthy(LineageOf(raw, f)) :: !Blank(Spell(LineageOf(raw, f), host)))
    && (forall f | f in [StrategyName, StrategyVersion, InvalidationCondition] && !DetailOf(raw, host, f).Null? ::
          !Blank(Spell(DetailOf(raw, host, f), host)))
  }

  /** An accepted emit payload normalises to itself exactly when it names its event and leaves no optional text
      blank. */
  lemma EmitPayloadNormalises(raw: Record, host: Host)
    requires Validated(raw, host).Valid? && Emits(raw, host)
    ensures var s := Validated(raw, host).record;
      Validated(s, host) == Valid(s) <==> Named(raw, host)
  {
    AcceptedPayload(raw, host);
    CanonicalIsNormalForm(raw, host);
    hide Validated; hide Canonical; hide Accepted; hide Settled; hide Named; hide Emits;
    EmitIsSettled(raw, host);
  }

  /** A text comes out empty exactly when it is given and blank. */
  lemma EmptyText(j: Json, host: Host)
    ensures TextOrNull(j, host) == Str("") <==> Truthy(j) && Blank(Spell(j, host))
    ensures NonBlank(TextOrNull(j, host)) <==> Truthy(j) && !Blank(Spell(j, host))
  {
    StripIsTrimmed(Spell(j, host));
    assert Strip("") == "";
  }

  lemma EmitIsSettled(raw: Record, host: Host)
    requires Accepted(raw, host) && Emits(raw, host)
    ensures Settled(Canonical(raw, host)) <==> Named(raw, host)
  {
    hide Canonical; hide Accepted; hide Emits; hide Get; hide NonBlank; hide Blank; hide Strip; hide EventOf;
    hide LineageOf; hide DetailOf; hide OneOf; hide Spell; hide TextOrNull;
    var s := Canonical(raw, host);
    EmittedSignal(raw, host);
    PublicationGet(raw, host);
    EmptyText(EventOf(raw), host);
    forall f | SingleText(f)
      ensures f in OPTIONAL_TEXTS
      ensures Get(s, f) == Str("") <==> Truthy(LineageOf(raw, f)) && Blank(Spell(LineageOf(raw, f), host))
    {
      SingleTextGroup(f);
      InLineage(raw, host, f);
      EmptyText(LineageOf(raw, f), host);
    }
    forall f | f in [StrategyName, StrategyVersion, InvalidationCondition]
      ensures f in OPTIONAL_TEXTS
      ensures Get(s, f) == Str("") <==> !DetailOf(raw, host, f).Null? && Blank(Spell(DetailOf(raw, host, f), host))
    {
      DetailEmpty(raw, host, f);
    }
    forall f | f in OPTIONAL_TEXTS
      ensures SingleText(f) || f in [StrategyName, StrategyVersion, InvalidationCondition]
    {
      OptionalFields(f);
    }
  }

  lemma DetailEmpty(raw: Record, host: Host, f: Field)
    requires f in [StrategyName, StrategyVersion, InvalidationCondition]
    ensures Get(Canonical(raw, host), f) == Str("") <==>
            !DetailOf(raw, host, f).Null? && Blank(Spell(DetailOf(raw, host, f), host))
  {
    hide Canonical; hide Get; hide DetailOf; hide Strip; hide Spell; hide GroupOf;
    StrategyGroup(f);
    InDetail(raw, host, f);
  }

  /** An accepted emit payload names its symbol and an allowed decision. */
  lemma EmittedSignal(raw: Record, host: Host)
    requires Accepted(raw, host) && Emits(raw, host)
    ensures NonBlank(Get(Canonical(raw, host), Symbol))
    ensures OneOf(Get(Canonical(raw, host), SignalType), ALLOWED_SIGNAL_TYPES)
  {
    hide CommandErrors; hide LifecycleErrors; hide TrailingErrors; hide MtfErrors; hide Canonical; hide EpochOf;
    hide RatioOf; hide FloatOf; hide VersionOf; hide IdentityErrors; hide ScoreErrors; hide Errors; hide PriceErrors;
    hide SymbolOf; hide RawDecisionOf; hide Emits; hide Get; hide Strip; hide Lower; hide Upper; hide Dashed;
    NoErrors(raw, host);
    SymbolGet(raw, host);
    SignalTypeGet(raw, host);
    var d := RawDecisionOf(raw);
    assert NonBlank(SymbolOf(raw)) && NonBlank(d);
    var w := Dashed(Lower(Strip(d.s)));
    SignalTypesArePlain(w);
    PlainIsFixed(w);
    UpperStripTwice(SymbolOf(raw).s);
  }

  lemma SymbolGet(raw: Record, host: Host)
    ensures Get(Canonical(raw, host), Symbol)
            == if SymbolOf(raw).Null? then Null else Str(Upper(Strip(Spell(SymbolOf(raw), host))))
  {
    hide Canonical; hide Strip; hide Upper; hide Get; hide LifecycleOf; hide SymbolOf; hide DecisionOf; hide StrategyOf;
    hide StrategyVersionOf; hide TimeframeOf; hide InvalidationOf;
    InDetail(raw, host, Symbol);
  }
}
