/** The order intent: a value that its constructor normalises, its lifecycle, and the dictionary it is stored as. */
module OrderIntents {
  import opened Values
  import opened Text
  import C = CanonicalForm

  datatype LifecycleState = STAGED | REJECTED | CANCELLED | EXPIRED

  /** Where the intent comes from: ten of its twenty authoritative fields. */
  datatype Lineage = Lineage(
    publication: Option<string>, signal: Option<string>, decision: Option<string>, fingerprint: Option<string>,
    candidate: Option<string>, evidence: Option<string>, strategy: Option<string>,
    researchFingerprint: Option<string>, runtimeFingerprint: Option<string>, strategyVersion: Option<string>)

  datatype Terms = Terms(
    price: Option<real>, quantity: Option<real>, stopLoss: Option<real>,
    takeProfit1: Option<real>, takeProfit2: Option<real>, takeProfit3: Option<real>)

  /** An intent, or the arguments its constructor is called with. The trailing stop is a dictionary. */
  datatype Intent = Intent(
    id: string, authorization: Option<string>, user: string, symbol: string, direction: string, key: string,
    created: real, state: LifecycleState, orderType: string, terms: Terms, timeInForce: Option<string>,
    reason: Option<string>, lineage: Lineage, trailingStop: Option<seq<C.Entry>>, invalidation: Option<string>)

  /** Absent, or not blank. */
  predicate Filled(o: Option<string>) {
    o.Some? ==> !Blank(o.value)
  }

  predicate Positive(o: Option<real>) {
    o.Some? ==> o.value > 0.0
  }

  function StripAll(o: Option<string>): Option<string> {
    match o case None => None case Some(s) => Some(Strip(s))
  }

  predicate LineageFilled(l: Lineage) {
    && Filled(l.publication) && Filled(l.signal) && Filled(l.decision) && Filled(l.fingerprint) && Filled(l.candidate)
    && Filled(l.evidence) && Filled(l.strategy) && Filled(l.researchFingerprint) && Filled(l.runtimeFingerprint)
    && Filled(l.strategyVersion)
  }

  function StripLineage(l: Lineage): Lineage {
    Lineage(StripAll(l.publication), StripAll(l.signal), StripAll(l.decision), StripAll(l.fingerprint),
            StripAll(l.candidate), StripAll(l.evidence), StripAll(l.strategy), StripAll(l.researchFingerprint),
            StripAll(l.runtimeFingerprint), StripAll(l.strategyVersion))
  }

  predicate TermsPositive(t: Terms) {
    && Positive(t.price) && Positive(t.quantity) && Positive(t.stopLoss)
    && Positive(t.takeProfit1) && Positive(t.takeProfit2) && Positive(t.takeProfit3)
  }

  /** The constructor accepts the arguments; otherwise it raises ValueError. */
  predicate Acceptable(raw: Intent) {
    && !Blank(raw.id) && Filled(raw.authorization) && !Blank(raw.user) && !Blank(raw.symbol)
    && Lower(Strip(raw.direction)) in ["buy", "sell"]
    && !Blank(raw.key) && raw.created >= 0.0
    && Lower(Strip(raw.orderType)) in ["market", "limit", "stop"]
    && TermsPositive(raw.terms) && Filled(raw.timeInForce) && Filled(raw.reason)
    && LineageFilled(raw.lineage) && Filled(raw.invalidation)
  }

  function Normalised(raw: Intent): Intent {
    Intent(Strip(raw.id), StripAll(raw.authorization), Strip(raw.user), Upper(Strip(raw.symbol)),
           Lower(Strip(raw.direction)), Strip(raw.key), raw.created, raw.state, Lower(Strip(raw.orderType)), raw.terms,
           match raw.timeInForce case None => None case Some(t) => Some(Upper(Strip(t))),
           StripAll(raw.reason), StripLineage(raw.lineage), raw.trailingStop, StripAll(raw.invalidation))
  }

  /** `OrderIntent(...)` */
  function Built(raw: Intent): Option<Intent> {
    if Acceptable(raw) then Some(Normalised(raw)) else None
  }

  /** What the constructor returns unchanged. */
  predicate Normal(i: Intent) {
    Acceptable(i) && Normalised(i) == i
  }

  lemma StripAllTwice(o: Option<string>)
    ensures StripAll(StripAll(o)) == StripAll(o) && (Filled(o) ==> Filled(StripAll(o)))
  {
    if o.Some? { StripIsTrimmed(o.value); }
  }

  lemma StripLineageTwice(l: Lineage)
    ensures StripLineage(StripLineage(l)) == StripLineage(l)
    ensures LineageFilled(l) ==> LineageFilled(StripLineage(l))
  {
    hide StripAll; hide Filled;
    StripAllTwice(l.publication); StripAllTwice(l.signal); StripAllTwice(l.decision); StripAllTwice(l.fingerprint);
    StripAllTwice(l.candidate); StripAllTwice(l.evidence); StripAllTwice(l.strategy);
    StripAllTwice(l.researchFingerprint); StripAllTwice(l.runtimeFingerprint); StripAllTwice(l.strategyVersion);
  }

  /** What the constructor returns is in normal form: building it again changes nothing. */
  lemma BuiltIsNormal(raw: Intent)
    requires Acceptable(raw)
    ensures Normal(Normalised(raw)) && Built(Normalised(raw)) == Built(raw)
  {
    hide StripLineage; hide LineageFilled; hide StripAll; hide Filled; hide Strip; hide TermsPositive;
    hide Upper; hide Lower;
    StripIsTrimmed(raw.id); StripIsTrimmed(raw.user); StripIsTrimmed(raw.key);
    StripAllTwice(raw.authorization); StripAllTwice(raw.reason); StripAllTwice(raw.invalidation);
    UpperStripTwice(raw.symbol); LowerStripTwice(raw.direction); LowerStripTwice(raw.orderType);
    StripLineageTwice(raw.lineage);
    TimeInForceTwice(raw.timeInForce);
  }

  lemma TimeInForceTwice(o: Option<string>)
    ensures o.Some? ==> Upper(Strip(Upper(Strip(o.value)))) == Upper(Strip(o.value))
    ensures o.Some? && Filled(o) ==> Filled(Some(Upper(Strip(o.value))))
  {
    if o.Some? { UpperStripTwice(o.value); }
  }

  /** `dict(x) if x else None` */
  function NonEmpty(trailing: Option<seq<C.Entry>>): Option<seq<C.Entry>> {
    if trailing == Some([]) then None else trailing
  }

  predicate Terminal(s: LifecycleState) {
    !s.STAGED?
  }

  /** `validate_lifecycle_transition` */
  predicate LegalTransition(from: LifecycleState, to: LifecycleState) {
    from.STAGED? && to in [REJECTED, CANCELLED, EXPIRED]
  }

  /** `with_lifecycle_state`; None is ValueError. */
  function WithState(i: Intent, to: LifecycleState, reason: Option<string>): Option<Intent> {
    if !LegalTransition(i.state, to) then None
    else
      Built(Moved(i, to, reason))
  }

  function Moved(i: Intent, to: LifecycleState, reason: Option<string>): Intent {
    var why := if reason.Some? && reason.value != "" then reason else i.reason;
    i.(state := to, reason := why, trailingStop := NonEmpty(i.trailingStop))
  }

  /** What no transition and no reload changes. */
  function Lasting(i: Intent): Intent {
    i.(state := STAGED, reason := None, trailingStop := NonEmpty(i.trailingStop))
  }

  /** A transition leaves STAGED for good and touches nothing else but the reason, and an empty trailing stop. */
  lemma TransitionMeaning(i: Intent, to: LifecycleState, reason: Option<string>)
    requires Normal(i)
    ensures WithState(i, to, reason).Some? <==>
      i.state.STAGED? && Terminal(to) && (reason.Some? && reason.value != "" ==> !Blank(reason.value))
    ensures WithState(i, to, reason).Some? ==>
      var j := WithState(i, to, reason).value;
      && Normal(j) && j.state == to && Lasting(j) == Lasting(i)
      && j.reason == (if reason.Some? && reason.value != "" then Some(Strip(reason.value)) else i.reason)
      && forall again, why :: WithState(j, again, why).None?
  {
    hide StripLineage; hide LineageFilled; hide Strip; hide TermsPositive; hide Upper; hide Lower;
    if LegalTransition(i.state, to) {
      var raw := Moved(i, to, reason);
      if Acceptable(raw) { BuiltIsNormal(raw); }
    }
  }

  /** The columns of the dictionary an intent is written as. */
  datatype Column =
    | IdC | AuthorizationC | UserC | SymbolC | DirectionC | OrderTypeC
    | PriceC | QuantityC | StopLossC | TakeProfit1C | TakeProfit2C | TakeProfit3C
    | TimeInForceC | KeyC | CreatedC | StateC | IsStagedC | IsTerminalC | ReasonC
    | PublicationC | SignalC | DecisionC | FingerprintC | CandidateC | EvidenceC | StrategyC
    | ResearchFingerprintC | RuntimeFingerprintC | StrategyVersionC | TrailingStopC | InvalidationC

  datatype Cell = Nothing | Text(s: string) | Number(r: real) | Flag(b: bool) | Nested(entries: seq<C.Entry>) | Listing

  type Row = map<Column, Cell>

  function TextCell(o: Option<string>): Cell {
    match o case None => Nothing case Some(s) => Text(s)
  }

  function NumberCell(o: Option<real>): Cell {
    match o case None => Nothing case Some(r) => Number(r)
  }

  function StateName(s: LifecycleState): string {
    match s
    case STAGED => "STAGED"
    case REJECTED => "REJECTED"
    case CANCELLED => "CANCELLED"
    case EXPIRED => "EXPIRED"
  }

  function StateNamed(s: string): Option<LifecycleState> {
    if s == "STAGED" then Some(STAGED)
    else if s == "REJECTED" then Some(REJECTED)
    else if s == "CANCELLED" then Some(CANCELLED)
    else if s == "EXPIRED" then Some(EXPIRED)
    else None
  }

  function CellOf(i: Intent, c: Column): Cell {
    match c
    case IdC => Text(i.id)
    case AuthorizationC => TextCell(i.authorization)
    case UserC => Text(i.user)
    case SymbolC => Text(i.symbol)
    case DirectionC => Text(i.direction)
    case OrderTypeC => Text(i.orderType)
    case PriceC => NumberCell(i.terms.price)
    case QuantityC => NumberCell(i.terms.quantity)
    case StopLossC => NumberCell(i.terms.stopLoss)
    case TakeProfit1C => NumberCell(i.terms.takeProfit1)
    case TakeProfit2C => NumberCell(i.terms.takeProfit2)
    case TakeProfit3C => NumberCell(i.terms.takeProfit3)
    case TimeInForceC => TextCell(i.timeInForce)
    case KeyC => Text(i.key)
    case CreatedC => Number(i.created)
    case StateC => Text(StateName(i.state))
    case IsStagedC => Flag(i.state.STAGED?)
    case IsTerminalC => Flag(Terminal(i.state))
    case ReasonC => TextCell(i.reason)
    case PublicationC => TextCell(i.lineage.publication)
    case SignalC => TextCell(i.lineage.signal)
    case DecisionC => TextCell(i.lineage.decision)
    case FingerprintC => TextCell(i.lineage.fingerprint)
    case CandidateC => TextCell(i.lineage.candidate)
    case EvidenceC => TextCell(i.lineage.evidence)
    case StrategyC => TextCell(i.lineage.strategy)
    case ResearchFingerprintC => TextCell(i.lineage.researchFingerprint)
    case RuntimeFingerprintC => TextCell(i.lineage.runtimeFingerprint)
    case StrategyVersionC => TextCell(i.lineage.strategyVersion)
    case TrailingStopC => (match NonEmpty(i.trailingStop) case None => Nothing case Some(es) => Nested(es))
    case InvalidationC => TextCell(i.invalidation)
  }

  /** `to_dict` */
  function ToRow(i: Intent): Row {
    map c: Column | true :: CellOf(i, c)
  }

  /** How Python's `float` reads a text. */
  type Numerals = string -> Option<real>

  function TextAt(d: Row, c: Column): Option<string> {
    if c in d && d[c].Text? then Some(d[c].s) else None
  }

  /** `d.get(c)` passed to an optional text argument: None is a value the constructor refuses. */
  function MaybeTextAt(d: Row, c: Column): Option<Option<string>> {
    if c !in d || d[c].Nothing? then Some(None)
    else if d[c].Text? then Some(Some(d[c].s))
    else None
  }

  /** `float(cell)` */
  function Float(cell: Cell, numerals: Numerals): Option<real> {
    match cell
    case Number(r) => Some(r)
    case Flag(b) => Some(if b then 1.0 else 0.0)
    case Text(s) => numerals(s)
    case _ => None
  }

  function MaybeNumberAt(d: Row, c: Column, numerals: Numerals): Option<Option<real>> {
    if c !in d || d[c].Nothing? then Some(None)
    else (match Float(d[c], numerals) case Some(r) => Some(Some(r)) case None => None)
  }

  function StateAt(d: Row): Option<LifecycleState> {
    if StateC !in d then Some(STAGED) else if d[StateC].Text? then StateNamed(d[StateC].s) else None
  }

  function TermsAt(d: Row, numerals: Numerals): Option<Terms> {
    var price :- MaybeNumberAt(d, PriceC, numerals);
    var quantity :- MaybeNumberAt(d, QuantityC, numerals);
    var stopLoss :- MaybeNumberAt(d, StopLossC, numerals);
    var takeProfit1 :- MaybeNumberAt(d, TakeProfit1C, numerals);
    var takeProfit2 :- MaybeNumberAt(d, TakeProfit2C, numerals);
    var takeProfit3 :- MaybeNumberAt(d, TakeProfit3C, numerals);
    Some(Terms(price, quantity, stopLoss, takeProfit1, takeProfit2, takeProfit3))
  }

  function LineageAt(d: Row): Option<Lineage> {
    var publication :- MaybeTextAt(d, PublicationC);
    var signal :- MaybeTextAt(d, SignalC);
    var decision :- MaybeTextAt(d, DecisionC);
    var fingerprint :- MaybeTextAt(d, FingerprintC);
    var candidate :- MaybeTextAt(d, CandidateC);
    var evidence :- MaybeTextAt(d, EvidenceC);
    var strategy :- MaybeTextAt(d, StrategyC);
    var researchFingerprint :- MaybeTextAt(d, ResearchFingerprintC);
    var runtimeFingerprint :- MaybeTextAt(d, RuntimeFingerprintC);
    var strategyVersion :- MaybeTextAt(d, StrategyVersionC);
    Some(Lineage(publication, signal, decision, fingerprint, candidate, evidence, strategy, researchFingerprint,
                 runtimeFingerprint, strategyVersion))
  }

  /** `from_dict`; None is an exception. */
  function FromRow(d: Row, numerals: Numerals): Option<Intent> {
    var id :- TextAt(d, IdC);
    var authorization :- MaybeTextAt(d, AuthorizationC);
    var user :- TextAt(d, UserC);
    var symbol :- TextAt(d, SymbolC);
    var direction :- TextAt(d, DirectionC);
    var key :- TextAt(d, KeyC);
    var created :- Float(if CreatedC in d then d[CreatedC] else Nothing, numerals);
    var state :- StateAt(d);
    var orderType :- if OrderTypeC in d then TextAt(d, OrderTypeC) else Some("market");
    var terms :- TermsAt(d, numerals);
    var timeInForce :- MaybeTextAt(d, TimeInForceC);
    var reason :- MaybeTextAt(d, ReasonC);
    var lineage :- LineageAt(d);
    var trailing := if TrailingStopC in d && d[TrailingStopC].Nested? then Some(d[TrailingStopC].entries) else None;
    var invalidation :- MaybeTextAt(d, InvalidationC);
    Built(Intent(id, authorization, user, symbol, direction, key, created, state, orderType, terms, timeInForce,
                 reason, lineage, trailing, invalidation))
  }

  /** Every intent read from a dictionary is in normal form. */
  lemma FromRowIsNormal(d: Row, numerals: Numerals)
    ensures FromRow(d, numerals).Some? ==> Normal(FromRow(d, numerals).value)
  {
    forall raw | Acceptable(raw)
      ensures Normal(Normalised(raw))
    {
      BuiltIsNormal(raw);
    }
    hide Acceptable; hide Normalised; hide LineageAt; hide TermsAt;
  }

  /** What an intent reads back as: an empty trailing stop is written as null. */
  function Restored(i: Intent): Intent {
    i.(trailingStop := NonEmpty(i.trailingStop))
  }

  lemma OptionBack(i: Intent, c: Column, o: Option<string>)
    requires CellOf(i, c) == TextCell(o)
    ensures MaybeTextAt(ToRow(i), c) == Some(o)
  {
    hide CellOf;
  }

  lemma TextBack(i: Intent, c: Column, s: string)
    requires CellOf(i, c) == Text(s)
    ensures TextAt(ToRow(i), c) == Some(s)
  {
    hide CellOf;
  }

  lemma NumberBack(i: Intent, c: Column, o: Option<real>, numerals: Numerals)
    requires CellOf(i, c) == NumberCell(o)
    ensures MaybeNumberAt(ToRow(i), c, numerals) == Some(o)
  {
    hide CellOf;
  }

  lemma TermsRoundTrip(i: Intent, numerals: Numerals)
    ensures TermsAt(ToRow(i), numerals) == Some(i.terms)
  {
    hide ToRow; hide MaybeNumberAt; hide TextCell; hide NumberCell;
    NumberBack(i, PriceC, i.terms.price, numerals); NumberBack(i, QuantityC, i.terms.quantity, numerals);
    NumberBack(i, StopLossC, i.terms.stopLoss, numerals); NumberBack(i, TakeProfit1C, i.terms.takeProfit1, numerals);
    NumberBack(i, TakeProfit2C, i.terms.takeProfit2, numerals);
    NumberBack(i, TakeProfit3C, i.terms.takeProfit3, numerals);
  }

  lemma LineageCells(i: Intent)
    ensures var d, l := ToRow(i), i.lineage;
      && MaybeTextAt(d, PublicationC) == Some(l.publication) && MaybeTextAt(d, SignalC) == Some(l.signal)
      && MaybeTextAt(d, DecisionC) == Some(l.decision) && MaybeTextAt(d, FingerprintC) == Some(l.fingerprint)
      && MaybeTextAt(d, CandidateC) == Some(l.candidate)
  {
    hide ToRow; hide MaybeTextAt; hide TextCell; hide NumberCell;
    OptionBack(i, PublicationC, i.lineage.publication); OptionBack(i, SignalC, i.lineage.signal);
    OptionBack(i, DecisionC, i.lineage.decision); OptionBack(i, FingerprintC, i.lineage.fingerprint);
    OptionBack(i, CandidateC, i.lineage.candidate);
  }

  lemma MoreLineageCells(i: Intent)
    ensures var d, l := ToRow(i), i.lineage;
      && MaybeTextAt(d, EvidenceC) == Some(l.evidence) && MaybeTextAt(d, StrategyC) == Some(l.strategy)
      && MaybeTextAt(d, ResearchFingerprintC) == Some(l.researchFingerprint)
      && MaybeTextAt(d, RuntimeFingerprintC) == Some(l.runtimeFingerprint)
      && MaybeTextAt(d, StrategyVersionC) == Some(l.strategyVersion)
  {
    hide ToRow; hide MaybeTextAt; hide TextCell; hide NumberCell;
    OptionBack(i, EvidenceC, i.lineage.evidence); OptionBack(i, StrategyC, i.lineage.strategy);
    OptionBack(i, ResearchFingerprintC, i.lineage.researchFingerprint);
    OptionBack(i, RuntimeFingerprintC, i.lineage.runtimeFingerprint);
    OptionBack(i, StrategyVersionC, i.lineage.strategyVersion);
  }

  lemma LineageRoundTrip(i: Intent)
    ensures LineageAt(ToRow(i)) == Some(i.lineage)
  {
    hide ToRow; hide MaybeTextAt; hide CellOf;
    LineageCells(i);
    MoreLineageCells(i);
  }

  lemma TextsRoundTrip(i: Intent)
    ensures var d := ToRow(i);
      && TextAt(d, IdC) == Some(i.id) && TextAt(d, UserC) == Some(i.user) && TextAt(d, SymbolC) == Some(i.symbol)
      && TextAt(d, DirectionC) == Some(i.direction) && TextAt(d, KeyC) == Some(i.key)
      && TextAt(d, OrderTypeC) == Some(i.orderType)
  {
    hide ToRow; hide TextAt; hide TextCell; hide NumberCell;
    TextBack(i, IdC, i.id); TextBack(i, UserC, i.user); TextBack(i, SymbolC, i.symbol);
    TextBack(i, DirectionC, i.direction); TextBack(i, KeyC, i.key); TextBack(i, OrderTypeC, i.orderType);
  }

  lemma OptionsRoundTrip(i: Intent)
    ensures var d := ToRow(i);
      && MaybeTextAt(d, AuthorizationC) == Some(i.authorization) && MaybeTextAt(d, TimeInForceC) == Some(i.timeInForce)
      && MaybeTextAt(d, ReasonC) == Some(i.reason) && MaybeTextAt(d, InvalidationC) == Some(i.invalidation)
  {
    hide ToRow; hide MaybeTextAt; hide TextCell; hide NumberCell;
    OptionBack(i, AuthorizationC, i.authorization); OptionBack(i, TimeInForceC, i.timeInForce);
    OptionBack(i, ReasonC, i.reason); OptionBack(i, InvalidationC, i.invalidation);
  }

  /** Writing an intent as a dictionary and reading it back restores it. */
  lemma RowRoundTrip(i: Intent, numerals: Numerals)
    requires Normal(i)
    ensures FromRow(ToRow(i), numerals) == Some(Restored(i)) && Normal(Restored(i))
  {
    hide TermsAt; hide LineageAt; hide TextAt; hide MaybeTextAt; hide Normal; hide Built;
    TermsRoundTrip(i, numerals);
    LineageRoundTrip(i);
    TextsRoundTrip(i);
    OptionsRoundTrip(i);
    RestoredIsNormal(i);
    var d := ToRow(i);
    assert StateAt(d) == Some(i.state) && Float(d[CreatedC], numerals) == Some(i.created);
    assert OrderTypeC in d;
    assert NonEmpty(i.trailingStop) == if d[TrailingStopC].Nested? then Some(d[TrailingStopC].entries) else None;
  }

  lemma RestoredIsNormal(i: Intent)
    requires Normal(i)
    ensures Normal(Restored(i)) && Built(Restored(i)) == Some(Restored(i)) && Lasting(Restored(i)) == Lasting(i)
  {
  }

  /** Each field is written under its own column. */
  lemma RowColumns(i: Intent)
    ensures var d := ToRow(i);
      && d[IdC] == Text(i.id) && d[UserC] == Text(i.user) && d[KeyC] == Text(i.key) && d[SymbolC] == Text(i.symbol)
      && d[DirectionC] == Text(i.direction) && d[OrderTypeC] == Text(i.orderType) && d[CreatedC] == Number(i.created)
      && (d[PriceC] == if i.terms.price.Some? then Number(i.terms.price.value) else Nothing)
      && (d[QuantityC] == if i.terms.quantity.Some? then Number(i.terms.quantity.value) else Nothing)
      && (d[StopLossC] == if i.terms.stopLoss.Some? then Number(i.terms.stopLoss.value) else Nothing)
      && (d[TakeProfit1C] == if i.terms.takeProfit1.Some? then Number(i.terms.takeProfit1.value) else Nothing)
      && (d[TakeProfit2C] == if i.terms.takeProfit2.Some? then Number(i.terms.takeProfit2.value) else Nothing)
      && (d[TakeProfit3C] == if i.terms.takeProfit3.Some? then Number(i.terms.takeProfit3.value) else Nothing)
    ensures match i.state
      case STAGED => ToRow(i)[StateC] == Text("STAGED")
      case REJECTED => ToRow(i)[StateC] == Text("REJECTED")
      case CANCELLED => ToRow(i)[StateC] == Text("CANCELLED")
      case EXPIRED => ToRow(i)[StateC] == Text("EXPIRED")
  {
  }

  predicate WrittenText(c: Cell, o: Option<string>) {
    match o case None => c == Nothing case Some(s) => c == Text(s)
  }

  lemma RowLineage(i: Intent)
    ensures var d, l := ToRow(i), i.lineage;
      && WrittenText(d[AuthorizationC], i.authorization) && WrittenText(d[TimeInForceC], i.timeInForce)
      && WrittenText(d[ReasonC], i.reason) && WrittenText(d[InvalidationC], i.invalidation)
      && WrittenText(d[PublicationC], l.publication) && WrittenText(d[SignalC], l.signal)
      && WrittenText(d[DecisionC], l.decision)
  {
  }

  lemma RowResearch(i: Intent)
    ensures var d, l := ToRow(i), i.lineage;
      && WrittenText(d[FingerprintC], l.fingerprint)
      && WrittenText(d[CandidateC], l.candidate) && WrittenText(d[EvidenceC], l.evidence)
      && WrittenText(d[StrategyC], l.strategy) && WrittenText(d[ResearchFingerprintC], l.researchFingerprint)
      && WrittenText(d[RuntimeFingerprintC], l.runtimeFingerprint)
      && WrittenText(d[StrategyVersionC], l.strategyVersion)
  {
  }
}
