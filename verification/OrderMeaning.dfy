/** What the calls of the order intent service do, read off their arguments: exactly when an intent is staged or moved,
    and what it then carries. */
module OrderMeaning {
  import opened Values
  import opened Text
  import opened OrderIntents
  import opened OrderShelf
  import opened OrderBook
  import opened OrderRuns
  import opened OrderHistories
  import opened OrderReplay
  import T = OrderRestarts

  /** A user is shown the intents of an id that are his own, an administrator all. */
  lemma GetExactly(b: Book, user: User, id: string, i: Intent)
    requires Sound(b)
    ensures Get(b, user, id) == Some(i) <==>
            i in Intents(b) && i.id == Strip(id) && (user.admin || i.user == user.id)
  {
    hide Coherent; hide DistinctIds; hide Strip; hide Upper; hide Lower; hide StripLineage;
    if i in Intents(b) { FindOnly(Intents(b), i); }
  }

  /** The transition that the call asks for can be made of the intent. */
  predicate CanMove(op: Op, i: Intent) {
    && op.TransitionOp? && op.user.Some? && op.authorized && i.id == Strip(op.target)
    && (op.user.value.admin || i.user == op.user.value.id) && i.state.STAGED?
    && (Spells(op.to, REJECTED) || Spells(op.to, CANCELLED) || Spells(op.to, EXPIRED))
    && (op.reason.Some? && op.reason.value != "" ==> !Blank(op.reason.value))
  }

  /** An intent is moved exactly when an authorized caller who may see it asks for a terminal state of a STAGED intent,
      with no reason or one that is not blank; it then differs in state, reason and an empty trailing stop only, as
      asked. */
  lemma TransitionExactly(b: Book, op: Op)
    requires Sound(b) && Lawful(b, op) && op.TransitionOp?
    ensures Apply(b, op).reply.Moved? <==> exists i :: i in Intents(b) && CanMove(op, i)
    ensures forall i | i in Intents(b) && CanMove(op, i) ::
      var j := Apply(b, op).reply.intent; Lasting(j) == Lasting(i) && AsAsked(op, i, j)
  {
    hide Coherent; hide Normal; hide WithState; hide Upper; hide Strip; hide DistinctIds; hide Put; hide Saved;
    hide Refuses; hide Get; hide Lasting; hide Spells; hide WhyHidden;
    forall i | i in Intents(b) && CanMove(op, i)
      ensures Apply(b, op).reply.Moved?
      ensures var j := Apply(b, op).reply.intent; Lasting(j) == Lasting(i) && AsAsked(op, i, j)
    {
      CanMoveMoves(b, op, i);
    }
    if Apply(b, op).reply.Moved? { MovedCouldMove(b, op); }
  }

  lemma CanMoveMoves(b: Book, op: Op, i: Intent)
    requires Sound(b) && Lawful(b, op) && i in Intents(b) && CanMove(op, i)
    ensures Apply(b, op).reply.Moved?
    ensures var j := Apply(b, op).reply.intent; Lasting(j) == Lasting(i) && AsAsked(op, i, j)
  {
    hide Coherent; hide Normal; hide WithState; hide Upper; hide Strip; hide DistinctIds; hide Put; hide Saved;
    hide Refuses; hide Get; hide Lasting; hide WhyHidden;
    GetExactly(b, op.user.value, op.target, i);
    var to := if Spells(op.to, REJECTED) then REJECTED else if Spells(op.to, CANCELLED) then CANCELLED else EXPIRED;
    NameSpells(op.to, to);
    TransitionMeaning(i, to, op.reason);
    NormalIdIsNotBlank(i);
    var j := WithState(i, to, op.reason).value;
    LastingIdentity(i, j);
    MoveKeepsSound(b, i, j);
  }

  lemma NormalIdIsNotBlank(i: Intent)
    requires Normal(i)
    ensures i.id != ""
  {
    hide Strip; hide Upper; hide Lower; hide StripLineage;
  }

  lemma MovedCouldMove(b: Book, op: Op)
    requires Sound(b) && Lawful(b, op) && op.TransitionOp? && Apply(b, op).reply.Moved?
    ensures exists i :: i in Intents(b) && CanMove(op, i)
  {
    hide Coherent; hide Normal; hide WithState; hide Upper; hide Strip; hide DistinctIds; hide Put; hide Saved;
    hide Refuses; hide Get; hide Lasting; hide WhyHidden;
    var i := Get(b, op.user.value, op.target).value;
    GetExactly(b, op.user.value, op.target, i);
    var to := StateNamed(Upper(op.to)).value;
    NameSpells(op.to, to);
    TransitionMeaning(i, to, op.reason);
    assert CanMove(op, i);
  }

  /** The chosen symbol: the order's own if it names one, else the setup's. */
  predicate ChosenSymbol(o: Order, a: Authorization, symbol: string) {
    if o.symbol.Some? && !Blank(o.symbol.value) then symbol == Upper(Strip(o.symbol.value))
    else a.setup.Some? && symbol == Upper(Strip(a.setup.value.symbol))
  }

  /** The intent's prices are the setup's, or none without a setup. */
  predicate SetupTerms(setup: Option<Setup>, t: Terms) {
    match setup
    case None =>
      t.price.None? && t.stopLoss.None? && t.takeProfit1.None? && t.takeProfit2.None? && t.takeProfit3.None?
    case Some(s) =>
      && t.price == Some(s.price) && t.stopLoss == Some(s.stopLoss) && t.takeProfit1 == Some(s.takeProfit1)
      && t.takeProfit2 == Some(s.takeProfit2) && t.takeProfit3 == Some(s.takeProfit3)
  }

  /** An ordinary intent carries its authorization's trade and its order's terms, and no publication. */
  lemma OrderIntentCarriesTheOrder(b: Book, op: Op)
    requires Sound(b) && Lawful(b, op) && op.CreateOp? && Apply(b, op).reply.Staged?
    ensures op.user.Some? && op.authorized && op.authorization.Some? && op.authorization.value.granted
    ensures var i, o, a := Apply(b, op).reply.intent, op.order, op.authorization.value;
      && i.id == op.id && i.user == op.user.value.id && i.key == Strip(o.key) && i.created == o.created
      && SetupTerms(a.setup, i.terms) && i.terms.quantity == o.quantity
      && i.orderType == Lower(Strip(o.orderType))
      && i.timeInForce == (if o.timeInForce.Some? then Some(Upper(Strip(o.timeInForce.value))) else None)
      && ChosenSymbol(o, a, i.symbol) && i.direction == (if a.setup.Some? then a.setup.value.direction else a.action)
      && i.authorization == Some(Strip(a.id)) && i.state == STAGED && i.reason.None?
      && i.lineage.publication.None? && i.lineage.signal.None? && i.lineage.decision.None?
      && i.trailingStop.None? && i.invalidation.None?
  {
    hide Sound; hide Upper; hide Strip; hide Put; hide Saved; hide Refuses; hide ForKey; hide Acceptable; hide Find;
    hide FreshId;
    UserAndIdAreClean(b, op);
    StripIsTrimmed(op.order.key);
    DirectionsAreClean();
    UpperIsIdempotent(op.order.symbol);
  }

  lemma UserAndIdAreClean(b: Book, op: Op)
    requires Lawful(b, op) && op.CreateOp?
    ensures Trimmed(op.id) && op.id != "" && (op.user.Some? ==> Trimmed(op.user.value.id) && op.user.value.id != "")
  {
    hide Find;
  }

  lemma DirectionsAreClean()
    ensures Lower(Strip("buy")) == "buy" && Lower(Strip("sell")) == "sell"
  {
    TrimmedEnds("buy");
    TrimmedEnds("sell");
    assert Lower("buy") == "buy" && Lower("sell") == "sell";
  }

  lemma UpperIsIdempotent(o: Option<string>)
    ensures o.Some? ==> Upper(Strip(Upper(Strip(o.value)))) == Upper(Strip(o.value)) && (!Blank(o.value) ==>
              Upper(Strip(o.value)) != "" && !Blank(Upper(Strip(o.value))))
  {
    if o.Some? {
      UpperStripTwice(o.value);
      assert |Upper(Strip(o.value))| == |Strip(o.value)|;
    }
  }

  /** The order can be placed under its authorization. */
  predicate Placeable(op: Op) {
    && op.CreateOp? && op.user.Some? && op.authorized && !Blank(op.order.key)
    && op.authorization.Some? && op.authorization.value.granted
    && var o, a := op.order, op.authorization.value;
       && (if o.symbol.Some? && !Blank(o.symbol.value) then true else a.setup.Some? && !Blank(a.setup.value.symbol))
       && (if a.setup.Some? then a.setup.value.direction else a.action) in ["buy", "sell"]
       && !Blank(a.id) && o.created >= 0.0 && Lower(Strip(o.orderType)) in ["market", "limit", "stop"]
       && (o.quantity.Some? ==> o.quantity.value > 0.0)
       && (o.timeInForce.Some? ==> !Blank(o.timeInForce.value))
       && (a.setup.Some? ==>
             var s := a.setup.value;
             && s.price > 0.0 && s.stopLoss > 0.0
             && s.takeProfit1 > 0.0 && s.takeProfit2 > 0.0 && s.takeProfit3 > 0.0)
  }

  /** An ordinary creation stages its intent exactly when the order can be placed and its key leads to no intent. */
  lemma CreateStagesExactly(b: Book, op: Op)
    requires Sound(b) && Lawful(b, op) && op.CreateOp?
    ensures Apply(b, op).reply.Staged? <==>
              Placeable(op) && ForKey(b, op.user.value.id, Strip(op.order.key)).None?
  {
    hide Sound; hide Upper; hide Strip; hide Lower; hide ForKey; hide Store; hide Normalised; hide Acceptable;
    hide Placeable; hide FreshId; hide OrderSymbol; hide OrderDirection; hide OrderDraft;
    CreateAllowed(b, op);
    UserAndIdAreClean(b, op);
    if op.authorization.Some? && op.user.Some? && !Blank(op.order.key) { PlaceableIsAcceptable(op); }
    if Placeable(op) { PlaceableParts(op); }
    if op.user.Some? && op.authorization.Some? {
      StoreOutcomes(b, Normalised(OrderDraft(op.order, op.authorization.value, op.user.value.id, op.id)),
                    op.user.value.id, Strip(op.order.key));
    }
  }

  lemma StoreOutcomes(b: Book, i: Intent, user: string, key: string)
    ensures Store(b, i, user, key).reply in {Staged(i), Raised}
  {
    hide Put; hide Saved; hide Refuses;
  }

  lemma PlaceableParts(op: Op)
    requires Placeable(op)
    ensures op.CreateOp? && op.user.Some? && op.authorized && !Blank(op.order.key)
    ensures op.authorization.Some? && op.authorization.value.granted
  {
  }

  lemma PlaceableIsAcceptable(op: Op)
    requires op.CreateOp? && op.user.Some? && op.authorization.Some? && !Blank(op.order.key)
    requires Trimmed(op.id) && op.id != "" && Trimmed(op.user.value.id) && op.user.value.id != ""
    ensures var o, a := op.order, op.authorization.value;
      Placeable(op) <==>
        && op.authorized && a.granted && OrderSymbol(o, a) != "" && OrderDirection(a) in ["buy", "sell"]
        && Acceptable(OrderDraft(o, a, op.user.value.id, op.id))
  {
    hide Upper; hide Strip; hide Lower;
    DirectionsAreClean();
    UpperIsIdempotent(op.order.symbol);
    StripIsTrimmed(op.order.key);
    EmptyIsBlank();
  }

  lemma EmptyIsBlank()
    ensures Blank("")
  {
  }

  predicate Spelled(o: Option<string>) {
    o.Some? && !Blank(o.value)
  }

  predicate PositiveIfAny(o: Option<real>) {
    o.Some? ==> o.value > 0.0
  }

  /** The record has its whole lineage; version and condition of invalidation may be missing but not blank. */
  predicate WholeLineage(r: Publication) {
    && Spelled(r.lineage.publication) && Spelled(r.lineage.signal) && Spelled(r.lineage.decision)
    && Spelled(r.lineage.fingerprint) && Spelled(r.lineage.candidate) && Spelled(r.lineage.evidence)
    && Spelled(if r.lineage.strategy.Some? && r.lineage.strategy.value != "" then r.lineage.strategy
               else r.strategyName)
    && Spelled(r.lineage.researchFingerprint) && Spelled(r.lineage.runtimeFingerprint)
    && (r.lineage.strategyVersion.None? || Spelled(r.lineage.strategyVersion))
    && (r.invalidation.None? || Spelled(r.invalidation))
  }

  /** A symbol, an actionable direction, and no price or quantity that is not positive. */
  ghost predicate WholeTrade(r: Publication, now: real) {
    && Spelled(r.symbol)
    && (var d := if r.signalType.Some? && r.signalType.value != "" then r.signalType else r.direction;
        d.Some? && (Lower(Strip(d.value)) == "buy" || Lower(Strip(d.value)) == "sell"))
    && PositiveIfAny(r.price) && PositiveIfAny(r.stopLoss) && PositiveIfAny(r.takeProfit1)
    && PositiveIfAny(r.takeProfit2) && PositiveIfAny(r.takeProfit3)
    && PositiveIfAny(if r.requestedQuantity.Some? then r.requestedQuantity.value else r.quantity)
    && (if r.timestamp.Some? && r.timestamp.value != 0.0 then r.timestamp.value else now) >= 0.0
  }

  /** An authorized user asks for an intent of a record that can have one. */
  ghost predicate Recordable(op: Op) {
    && op.CanonicalOp? && op.user.Some? && op.authorized && !Blank(op.publication) && op.resolved.Some?
    && WholeLineage(op.resolved.value) && WholeTrade(op.resolved.value, op.now)
  }

  lemma RecordableAsks(op: Op)
    requires Recordable(op)
    ensures Asks(op)
  {
    hide Lower; hide Strip;
  }

  lemma RecordableIsAcceptable(op: Op)
    requires Asks(op) && Named(op.user) && Trimmed(op.id) && op.id != ""
    requires Trimmed(op.resolved.value.lineage.publication.value)
    ensures Recordable(op) <==> Acceptable(DraftOf(op))
  {
    var r := op.resolved.value;
    hide WholeLineage; hide WholeTrade; hide LineageFilled; hide TermsPositive; hide KeyAsked; hide Draft;
    PublicationPresent(r);
    DraftKey(op);
    KeyAskedIsNotEmpty(op);
    DraftTexts(op);
    LineageIsWhole(op);
    TradeIsWhole(op);
    hide Complete; hide Strip; hide Lower; hide Upper; hide Normalised;
  }

  /** The draft's identifiers and optional texts. */
  lemma DraftTexts(op: Op)
    requires Asks(op)
    ensures var d := DraftOf(op);
      && d.id == op.id && d.user == op.user.value.id && d.authorization.None? && d.timeInForce.None?
      && d.reason.None? && d.orderType == "market" && Lower(Strip("market")) == "market"
      && d.invalidation == op.resolved.value.invalidation
      && !Blank(d.symbol) && Lower(Strip(d.direction)) == d.direction
      && (d.direction == "buy" || d.direction == "sell")
  {
    DraftIsClean(op);
    MarketIsMarket();
    UpperStripTwice(op.resolved.value.symbol.value);
    hide Upper; hide Lower; hide Strip; hide CanonicalKey; hide LineageComplete;
  }

  lemma LineageIsWhole(op: Op)
    requires Asks(op)
    ensures WholeLineage(op.resolved.value) <==> LineageFilled(DraftOf(op).lineage) && Filled(DraftOf(op).invalidation)
  {
    hide Upper; hide Lower; hide Strip; hide CanonicalKey; hide Actionable;
  }

  lemma TradeIsWhole(op: Op)
    requires Asks(op)
    ensures WholeTrade(op.resolved.value, op.now) <==> TermsPositive(DraftOf(op).terms) && DraftOf(op).created >= 0.0
  {
    hide Upper; hide Lower; hide Strip; hide CanonicalKey; hide LineageComplete;
  }

  lemma KeyAskedIsNotEmpty(op: Op)
    requires Asks(op)
    ensures KeyAsked(op) != ""
  {
    hide Strip;
  }

  /** The user has no intent for the publication, and none with the key asked for. */
  ghost predicate Untaken(b: Book, op: Op)
    requires Asks(op)
  {
    forall i | i in Intents(b) && i.user == op.user.value.id ::
      i.lineage.publication != Some(Strip(op.publication)) && i.key != KeyAsked(op)
  }

  /** A canonical creation stages its intent exactly when the record can be staged, its publication has no intent of the
      user yet, and no intent of his has the key asked for: the caller's, or one that names the user and the
      publication. */
  lemma CanonicalStagesExactly(b: Book, op: Op)
    requires Sound(b) && KeySound(b) && Lawful(b, op) && op.CanonicalOp?
    ensures Recordable(op) ==> Asks(op)
    ensures Apply(b, op).reply.Staged? <==> Recordable(op) && Untaken(b, op)
  {
    hide Sound; hide KeySound; hide Apply; hide Acceptable; hide Recordable; hide Complete; hide Draft; hide KeyAsked;
    hide Strip; hide Lawful; hide Asks; hide Untaken;
    if Recordable(op) { RecordableAsks(op); }
    if Apply(b, op).reply.Staged? {
      StagedIsRecordable(b, op);
      StagedIsOpen(b, op);
    } else if Recordable(op) {
      KnownAsks(b, op);
      RecordableIsAcceptable(op);
      UnstagedIsTaken(b, op);
    }
  }

  lemma KnownAsks(b: Book, op: Op)
    requires Lawful(b, op) && Asks(op)
    ensures op.user.Some? && Named(op.user) && Trimmed(op.id) && op.id != ""
    ensures Trimmed(op.resolved.value.lineage.publication.value) && DraftOf(op).key == KeyAsked(op)
  {
    hide Complete; hide Strip; hide Find; hide Draft; hide KeyAsked;
    StripIsTrimmed(op.publication);
    DraftKey(op);
  }

  lemma StagedIsRecordable(b: Book, op: Op)
    requires Sound(b) && Lawful(b, op) && op.CanonicalOp? && Apply(b, op).reply.Staged?
    ensures Recordable(op) && Asks(op) && DraftOf(op).key == KeyAsked(op)
  {
    hide Sound; hide Apply; hide Lawful; hide Acceptable; hide Recordable; hide Complete; hide Draft; hide KeyAsked;
    hide Strip; hide Find; hide Normalised;
    StagedMeaning(b, op);
    KnownAsks(b, op);
    RecordableIsAcceptable(op);
  }

  lemma StagedIsOpen(b: Book, op: Op)
    requires Sound(b) && KeySound(b) && Lawful(b, op) && Asks(op) && Apply(b, op).reply.Staged?
    requires DraftOf(op).key == KeyAsked(op)
    ensures Untaken(b, op)
  {
    hide Sound; hide KeySound; hide Apply; hide Lawful; hide Complete; hide Draft; hide KeyAsked; hide Strip;
    forall i | i in Intents(b)
      ensures IdentityOf(i) != Some((op.user.value.id, Strip(op.publication)))
    {
      T.AlreadyHeld(b, op, i);
    }
    forall i | i in Intents(b)
      ensures PairOf(i) != (op.user.value.id, KeyAsked(op))
    {
      if PairOf(i) == (op.user.value.id, KeyAsked(op)) { T.KeyIsTaken(b, op, i); }
    }
  }

  /** When nothing is staged for such a record, the publication or the key is taken. */
  lemma UnstagedIsTaken(b: Book, op: Op)
    requires Sound(b) && KeySound(b) && Lawful(b, op) && Asks(op) && !Apply(b, op).reply.Staged?
    requires Acceptable(DraftOf(op)) && DraftOf(op).key == KeyAsked(op)
    ensures !Untaken(b, op)
  {
    hide Sound; hide KeySound; hide Acceptable; hide Complete; hide Draft; hide KeyAsked; hide Strip; hide CreateFrom;
    hide LineageComplete; hide Actionable; hide ForPublication; hide FreshId;
    StripIsTrimmed(op.publication);
    var u, r := op.user.value.id, op.resolved.value;
    CompleteParts(r);
    ForPublicationFinds(b, u, Strip(op.publication));
    if ForPublication(b, u, Strip(op.publication)).None? {
      StepAllowed(b, op);
      OpenReplies(b, u, r, CanonicalKey(op.key, u, Strip(op.publication)), op.id, op.now);
      var holder := T.TakenMeaning(b, op);
    }
  }

  lemma CompleteParts(r: Publication)
    requires Complete(r)
    ensures LineageComplete(LineageOf(r)) && Present(r.symbol) && Actionable(r)
  {
  }

  lemma OpenReplies(b: Book, user: string, r: Publication, key: string, id: string, now: real)
    requires Complete(r) && Acceptable(Draft(r, user, key, id, now))
    requires r.lineage.publication.Some? && ForPublication(b, user, r.lineage.publication.value).None?
    ensures var reply := CreateFrom(b, user, r, key, id, now).reply;
      reply.Staged? || reply.Raised? || reply == Refused(KeyTaken)
  {
    hide LineageComplete; hide Actionable; hide Acceptable; hide Draft; hide ForPublication; hide Normalised;
    hide Put; hide Saved; hide Refuses;
  }

  /** Why a call is refused. */
  ghost predicate RefusedFor(b: Book, op: Op, why: Refusal) {
    match why
    case Unauthorized =>
      || Caller(op).None? || (op.CanonicalOp? && !op.authorized) || (op.CreateOp? && !op.authorized)
      || (op.TransitionOp? && (!op.authorized || !SeesTarget(b, op)))
    case BlankPublication => op.CanonicalOp? && Blank(op.publication)
    case NoRecord => op.CanonicalOp? && op.resolved.None?
    case MissingLineage => op.CanonicalOp? && op.resolved.Some? && !MandatoryLineage(op.resolved.value)
    case BadSymbol =>
      if op.CanonicalOp? then op.resolved.Some? && !Spelled(op.resolved.value.symbol)
      else op.CreateOp? && !Spelled(op.order.symbol)
    case BadDirection => op.CanonicalOp? || op.CreateOp?
    case IntegrityConflict =>
      op.CanonicalOp? && op.user.Some?
      && (exists i :: i in Intents(b) && IdentityOf(i) == Some((op.user.value.id, Strip(op.publication))))
    case KeyTaken =>
      op.CanonicalOp? && op.user.Some?
      && (forall i | i in Intents(b) :: IdentityOf(i) != Some((op.user.value.id, Strip(op.publication))))
    case NotConstructed => op.CanonicalOp? || op.CreateOp?
    case BlankKey => op.CreateOp? && Blank(op.order.key)
    case NotAuthorized => op.CreateOp? && (op.authorization.None? || !op.authorization.value.granted)
    case BlankId => op.TransitionOp? && Blank(op.target)
    case NotFound => op.RestartOp? || (op.TransitionOp? && !SeesTarget(b, op))
    case IllegalTransition => op.TransitionOp? && SeesTarget(b, op)
  }

  predicate MandatoryLineage(r: Publication) {
    && Spelled(r.lineage.publication) && Spelled(r.lineage.signal) && Spelled(r.lineage.decision)
    && Spelled(r.lineage.fingerprint) && Spelled(r.lineage.candidate) && Spelled(r.lineage.evidence)
    && Spelled(if r.lineage.strategy.Some? && r.lineage.strategy.value != "" then r.lineage.strategy
               else r.strategyName)
    && Spelled(r.lineage.researchFingerprint) && Spelled(r.lineage.runtimeFingerprint)
  }

  /** The caller may see the intent he names. */
  ghost predicate SeesTarget(b: Book, op: Op)
    requires op.TransitionOp?
  {
    op.user.Some?
    && (exists i ::
          i in Intents(b) && i.id == Strip(op.target) && (op.user.value.admin || i.user == op.user.value.id))
  }

  /** A refusal gives the reason there is. */
  lemma RefusalMeaning(b: Book, op: Op)
    requires Sound(b) && Lawful(b, op) && Apply(b, op).reply.Refused?
    ensures RefusedFor(b, op, Apply(b, op).reply.why)
  {
    hide Sound; hide Apply; hide Lawful; hide RefusedFor;
    match op
    case CanonicalOp(_, _, _, _, _, _, _) => CanonicalRefusal(b, op);
    case CreateOp(_, _, _, _, _) => CreateRefusal(b, op);
    case TransitionOp(_, _, _, _, _) => TransitionRefusal(b, op);
    case RestartOp(_) => RestartRefusal(b, op);
  }

  lemma RestartRefusal(b: Book, op: Op)
    requires op.RestartOp?
    ensures Apply(b, op).reply.Refused? && RefusedFor(b, op, Apply(b, op).reply.why)
  {
  }

  lemma CanonicalRefusal(b: Book, op: Op)
    requires Sound(b) && Lawful(b, op) && op.CanonicalOp? && Apply(b, op).reply.Refused?
    ensures RefusedFor(b, op, Apply(b, op).reply.why)
  {
    hide Sound; hide Strip; hide Actionable; hide FreshId; hide CreateFrom; hide ForPublication;
    if op.user.Some? && op.authorized && !Blank(op.publication) && op.resolved.Some? {
      var u, r := op.user.value.id, op.resolved.value;
      StripIsTrimmed(op.publication);
      ForPublicationFinds(b, u, Strip(op.publication));
      if LineageComplete(LineageOf(r)) && Present(r.symbol) && Actionable(r) {
        PublicationPresent(r);
        CreateFromRefusal(b, u, r, CanonicalKey(op.key, u, r.lineage.publication.value), op.id, op.now);
      }
    }
  }

  lemma CreateFromRefusal(b: Book, user: string, r: Publication, key: string, id: string, now: real)
    requires Complete(r) && r.lineage.publication.Some?
    requires CreateFrom(b, user, r, key, id, now).reply.Refused?
    ensures var why := CreateFrom(b, user, r, key, id, now).reply.why;
      var found := ForPublication(b, user, r.lineage.publication.value);
      (why == IntegrityConflict && found.Some?) || (why == KeyTaken && found.None?) || why == NotConstructed
  {
    hide LineageComplete; hide Actionable; hide Draft; hide ForPublication; hide Built; hide Put; hide Saved;
    hide Refuses; hide IntentContent; hide DraftContent; hide KeyBelongsElsewhere;
  }

  lemma CreateRefusal(b: Book, op: Op)
    requires op.CreateOp? && Apply(b, op).reply.Refused?
    ensures RefusedFor(b, op, Apply(b, op).reply.why)
  {
    hide Built; hide OrderDraft; hide Put; hide Saved; hide Refuses; hide ForKey; hide Strip; hide Upper;
    UpperIsIdempotent(op.order.symbol);
  }

  lemma TransitionRefusal(b: Book, op: Op)
    requires Sound(b) && op.TransitionOp? && Apply(b, op).reply.Refused?
    ensures RefusedFor(b, op, Apply(b, op).reply.why)
  {
    hide Coherent; hide Normal; hide DistinctIds; hide Put; hide Saved; hide Refuses; hide Get; hide WithState;
    hide Upper; hide Strip; hide Find; hide Lasting;
    if op.user.Some? {
      forall i
        ensures Get(b, op.user.value, op.target) == Some(i) <==>
                i in Intents(b) && i.id == Strip(op.target) && (op.user.value.admin || i.user == op.user.value.id)
      {
        GetExactly(b, op.user.value, op.target, i);
      }
    }
  }
}
