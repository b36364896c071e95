/** Exactly which payloads the contract boundary accepts, word by word. */
module Project1Acceptance {
  import opened Values
  import opened Text
  import opened Project1Records
  import opened Project1Listing
  import opened Project1Contract
  import opened Project1NormalForm
  import opened Project1Sources
  import opened Project1Objects

  /** One of the three versions of the contract; a payload that names none has the first. */
  predicate KnownVersion(raw: Record, host: Host) {
    var version := if ContractVersion in raw then Kept(raw[ContractVersion], host) else Str("1.0");
    Word(version, "1.0") || Word(version, "1.0.0") || Word(version, "v1.0")
  }

  function EventNamed(raw: Record): Json {
    Either(Get(raw, EventType), Either(Get(raw, CommandType), Str("TRADING_SIGNAL")))
  }

  predicate Announces(event: Json) {
    Word(event, "TRADING_SIGNAL") || Word(event, "EMIT_SIGNAL")
  }

  predicate Commands(command: Json) {
    || Word(command, "EMIT_SIGNAL") || Word(command, "UPDATE_LIFECYCLE") || Word(command, "UPDATE_TRAILING_STOP")
    || Word(command, "HEARTBEAT")
  }

  /** The command named, or the one its event stands for. */
  function CommandNamed(raw: Record, host: Host): Json {
    var event := EventNamed(raw);
    Either(Get(raw, CommandType),
           Str(if Announces(event) then "EMIT_SIGNAL" else if event.Str? then event.s else host.show(event)))
  }

  /** A known command, or a known event. */
  predicate KnownCommand(raw: Record, host: Host) {
    Commands(CommandNamed(raw, host)) || Commands(EventNamed(raw)) || Word(EventNamed(raw), "TRADING_SIGNAL")
  }

  predicate EmitsSignal(raw: Record, host: Host) {
    Announces(CommandNamed(raw, host))
  }

  /** A signal that is emitted in sections has all three of them. */
  predicate SectionsThere(raw: Record) {
    !Get(raw, SignalSection).Null? && !Get(raw, InstrumentSection).Null? && !Get(raw, TradeSetupSection).Null?
  }

  predicate Identified(raw: Record) {
    var signal := Entries(raw, SignalSection);
    var signalId := Either(Entry(signal, "signal_id"), Get(raw, SignalId));
    var event := Either(Get(raw, EventId), Get(raw, IntegrationId));
    var publication := Either(Get(raw, PublicationId), Either(Entry(signal, "publication_id"), event));
    Says(Either(Either(publication, event), signalId)) && Says(signalId)
  }

  predicate KnownLifecycle(raw: Record, host: Host) {
    var state := Either(Get(raw, LifecycleState), Entry(Entries(raw, SignalSection), "lifecycle_state"));
    state.Null?
    || var name := Upper(Strip(if state.Str? then state.s else host.show(state)));
       || name == "STAGED" || name == "ACTIVE" || name == "UPDATED" || name == "CANCELLED" || name == "EXPIRED"
       || name == "REJECTED" || name == "EXECUTED"
  }

  /** An emitted signal names its symbol and one of the five decisions, in any case and with any separator. */
  predicate Decided(raw: Record) {
    var signal := Entries(raw, SignalSection);
    var symbol := Either(Entry(Entries(raw, InstrumentSection), "symbol"), Get(raw, Symbol));
    var decision := Either(Entry(signal, "decision"),
                           Either(Entry(signal, "signal_label"), Either(Get(raw, SignalType), Get(raw, Action))));
    && Says(symbol) && Says(decision)
    && var d := Dashed(Lower(Strip(decision.s)));
       d == "buy" || d == "sell" || d == "hold" || d == "no-signal" || d == "no-trade"
  }

  /** Its time is a date in the past, or in a payload without sections a number of seconds; five seconds of skew are
      allowed. */
  predicate Dated(raw: Record, host: Host) {
    var time := if Timestamp in raw then raw[Timestamp] else Entry(Entries(raw, SignalSection), "timestamp");
    || (Says(time) && var t := host.clock.instant(Strip(time.s)); t.Some? && 0.0 <= t.value <= host.clock.now + 5.0)
    || (NoSections(raw) && time.Num? && 0.0 <= time.r <= host.clock.now + 5.0)
  }

  predicate PriceOrNone(j: Json) {
    j.Null? || (j.Num? && j.r > 0.0)
  }

  predicate ShareOrNone(j: Json) {
    j.Null? || (j.Num? && 0.0 <= j.r <= 1.0)
  }

  /** No price that is not positive. */
  predicate Priced(raw: Record) {
    var setup := Entries(raw, TradeSetupSection);
    && PriceOrNone(if "entry_price" in setup then setup["entry_price"] else Get(raw, EntryPrice))
    && PriceOrNone(if "stop_loss" in setup then setup["stop_loss"] else Get(raw, StopLoss))
    && PriceOrNone(Either(Entry(setup, "tp1"), Either(Entry(setup, "take_profit_1"), Get(raw, TakeProfit1))))
    && PriceOrNone(Either(Entry(setup, "tp2"), Either(Entry(setup, "take_profit_2"), Get(raw, TakeProfit2))))
    && PriceOrNone(Either(Entry(setup, "tp3"), Either(Entry(setup, "take_profit_3"), Get(raw, TakeProfit3))))
  }

  /** No score outside the unit interval, and a ratio that can be read as a number if there is one. */
  predicate Scored(raw: Record, host: Host) {
    var setup, signal := Entries(raw, TradeSetupSection), Entries(raw, SignalSection);
    && ShareOrNone(if "confidence" in signal then signal["confidence"] else Get(raw, Confidence))
    && ShareOrNone(if "operational_stability_score" in signal then signal["operational_stability_score"]
                   else if "stability_score" in signal then signal["stability_score"]
                   else if OperationalStabilityScore in raw then raw[OperationalStabilityScore]
                   else Get(raw, StabilityScore))
    && var ratio := if "risk_reward_ratio" in setup then setup["risk_reward_ratio"] else Get(raw, RiskRewardRatio);
       ratio.Null? || ratio.Num? || ratio.Infinite? || ratio.Bool? || (ratio.Str? && host.numeral(ratio.s).Some?)
  }

  /** A trailing stop is an object with a positive distance and no price that is not positive. */
  predicate Trails(raw: Record) {
    var trailing := Either(Entry(Entries(raw, TradeSetupSection), "trailing_stop"), Get(raw, TrailingStop));
    trailing.Null?
    || (&& trailing.Obj?
        && Entry(trailing.entries, "distance").Num? && Entry(trailing.entries, "distance").r > 0.0
        && PriceOrNone(Entry(trailing.entries, "activation_price"))
        && PriceOrNone(Entry(trailing.entries, "trailing_stop_loss")))
  }

  predicate Framed(raw: Record) {
    Get(raw, Mtf).Null? || (Get(raw, Mtf).Obj? && FramesThere(Get(raw, Mtf).entries))
  }

  /** A payload is accepted exactly when all of this holds of it. */
  lemma AcceptedExactly(raw: Record, host: Host)
    ensures Validated(raw, host).Valid? <==>
      && KnownVersion(raw, host) && KnownCommand(raw, host)
      && (EmitsSignal(raw, host) && !NoSections(raw) ==> SectionsThere(raw))
      && Identified(raw) && KnownLifecycle(raw, host) && (EmitsSignal(raw, host) ==> Decided(raw))
      && Dated(raw, host) && Priced(raw) && Scored(raw, host) && Trails(raw) && Framed(raw)
  {
    hide KnownVersion; hide KnownCommand; hide EmitsSignal; hide SectionsThere; hide Identified; hide KnownLifecycle;
    hide Decided; hide Dated; hide Priced; hide Scored; hide Trails; hide Framed; hide Canonical; hide VersionOf;
    hide CommandErrors; hide IdentityErrors; hide LifecycleErrors; hide SignalErrors; hide EpochOf; hide PriceErrors;
    hide ScoreErrors; hide TrailingErrors; hide MtfErrors; hide Errors; hide RatioOf; hide FloatOf; hide NoSections;
    NoErrors(raw, host);
    VersionIs(raw, host);
    CommandIs(raw, host);
    IdentityIs(raw);
    LifecycleIs(raw, host);
    SignalIs(raw, host);
    TimeIs(raw, host);
    PricesAre(raw);
    ScoresAre(raw, host);
    TrailingIs(raw);
    MtfIs(raw);
  }

  lemma VersionIs(raw: Record, host: Host)
    ensures VersionOf(raw, host) in SUPPORTED_CONTRACT_VERSIONS <==> KnownVersion(raw, host)
  {
    PlainVersion();
    hide Strip;
  }

  lemma PlainVersion()
    ensures Strip("1.0") == "1.0"
  {
    TrimmedEnds("1.0");
  }

  lemma NamedAlike(raw: Record, host: Host)
    ensures EventTypeOf(raw) == EventNamed(raw) && CommandOf(raw, host) == CommandNamed(raw, host)
    ensures Emits(raw, host) <==> EmitsSignal(raw, host)
  {
    hide Get;
  }

  lemma CommandIs(raw: Record, host: Host)
    ensures CommandErrors(raw, host) == [] <==>
      KnownCommand(raw, host) && (EmitsSignal(raw, host) && !NoSections(raw) ==> SectionsThere(raw))
  {
    NamedAlike(raw, host);
    hide Get; hide EventNamed; hide CommandNamed; hide CommandOf; hide EventTypeOf;
  }

  lemma IdentityIs(raw: Record)
    ensures IdentityErrors(raw) == [] <==> Identified(raw)
  {
    LineageReadFromSignal(raw);
    hide Get; hide EventOf; hide PublicationOf; hide SignalIdOf; hide Strip; hide LineageOf;
  }

  lemma LifecycleIs(raw: Record, host: Host)
    ensures LifecycleErrors(raw, host) == [] <==> KnownLifecycle(raw, host)
  {
    TextsRead(raw);
    hide Get; hide LifecycleOf; hide Strip; hide Upper; hide Either; hide Entries;
  }

  lemma SignalIs(raw: Record, host: Host)
    ensures SignalErrors(raw, host) == [] <==> (EmitsSignal(raw, host) ==> Decided(raw))
  {
    TextsRead(raw);
    NamedAlike(raw, host);
    hide Get; hide SymbolOf; hide RawDecisionOf; hide Strip; hide Lower; hide Dashed; hide Either; hide Entries;
    hide Emits; hide EmitsSignal;
  }

  lemma TimeIs(raw: Record, host: Host)
    ensures EpochOf(raw, host).Some? <==> Dated(raw, host)
  {
    hide Strip;
  }

  lemma PricesAre(raw: Record)
    ensures PriceErrors(raw, PRICES) == [] <==> Priced(raw)
  {
    PricesAllowed(raw, PRICES);
    FivePrices(raw);
    PricesRead(raw);
    hide PriceOf; hide Get; hide Either; hide Entries; hide PriceErrors;
  }

  lemma FivePrices(raw: Record)
    ensures (forall f | f in PRICES :: PriceAllowed(PriceOf(raw, f))) <==>
      && PriceAllowed(PriceOf(raw, EntryPrice)) && PriceAllowed(PriceOf(raw, StopLoss))
      && PriceAllowed(PriceOf(raw, TakeProfit1)) && PriceAllowed(PriceOf(raw, TakeProfit2))
      && PriceAllowed(PriceOf(raw, TakeProfit3))
  {
    hide PriceOf; hide PriceAllowed;
    assert PRICES[0] == EntryPrice && PRICES[1] == StopLoss && PRICES[2] == TakeProfit1 && PRICES[3] == TakeProfit2
        && PRICES[4] == TakeProfit3;
  }

  lemma ScoresAre(raw: Record, host: Host)
    ensures ScoreErrors(raw) == [] && (RatioOf(raw).Null? || FloatOf(RatioOf(raw), host).Some?) <==> Scored(raw, host)
  {
    hide Get;
  }

  lemma TrailingIs(raw: Record)
    ensures TrailingErrors(raw) == [] <==> Trails(raw)
  {
    TextsRead(raw);
    hide Get; hide TrailingOf; hide Either; hide Entries;
  }

  lemma MtfIs(raw: Record)
    ensures MtfErrors(raw) == [] <==> Framed(raw)
  {
    hide Get; hide MtfAllowed; hide FramesThere;
    if Get(raw, Mtf).Obj? { FramesExactly(Get(raw, Mtf).entries); }
  }
}
