/** The order intent service as functions on its state: creation from a publication with replay and conflict checks,
    ordinary creation, and lifecycle transitions. */
module OrderBook {
  import opened Values
  import opened Text
  import opened OrderIntents
  import opened OrderShelf
  import C = CanonicalForm

  /** A user id is trimmed and not empty: the user's constructor strips it. */
  datatype User = User(id: string, admin: bool)

  /** The service's own maps, and the repository behind it if there is one. */
  datatype Book = Book(memory: seq<Intent>, keys: map<(string, string), string>, shelf: Option<Shelf>)

  /** A publication record as the gateway resolves it. The trailing stop may be any value; requestedQuantity tells
      whether that key is present, and then its value. */
  datatype Publication = Publication(
    lineage: Lineage, strategyName: Option<string>, symbol: Option<string>, signalType: Option<string>,
    direction: Option<string>, price: Option<real>, stopLoss: Option<real>, takeProfit1: Option<real>,
    takeProfit2: Option<real>, takeProfit3: Option<real>, requestedQuantity: Option<Option<real>>,
    quantity: Option<real>, trailingStop: Option<C.Tree>, invalidation: Option<string>, timestamp: Option<real>)

  datatype Refusal =
    | Unauthorized | BlankPublication | NoRecord | MissingLineage | BadSymbol | BadDirection | IntegrityConflict
    | KeyTaken | NotConstructed | BlankKey | NotAuthorized | BlankId | NotFound | IllegalTransition

  datatype Reply =
    | Existing(intent: Intent)
    | Staged(intent: Intent)
    | Moved(intent: Intent)
    | Refused(why: Refusal)
    | Raised

  datatype Outcome = Outcome(book: Book, reply: Reply)

  /** The twenty fields on which a replay is compared. */
  datatype Content = Content(lineage: Lineage, symbol: string, direction: string, terms: Terms,
                             trailing: Option<C.Canon>, invalidation: Option<string>)

  function CanonicalTrailing(trailing: Option<seq<C.Entry>>): Option<C.Canon> {
    match trailing case None => None case Some(es) => Some(C.Canonical(C.Dict(es)))
  }

  /** `_extract_canonical_content_tuple` of an intent, which goes through its dictionary. */
  function IntentContent(i: Intent): Content {
    Content(i.lineage, i.symbol, i.direction, i.terms, CanonicalTrailing(NonEmpty(i.trailingStop)), i.invalidation)
  }

  /** The same of the values calculated from a publication. */
  function DraftContent(draft: Intent): Content {
    Content(draft.lineage, draft.symbol, draft.direction, draft.terms, CanonicalTrailing(draft.trailingStop),
            draft.invalidation)
  }

  /** `a or b` on optional texts. */
  function OrText(a: Option<string>, b: Option<string>): Option<string> {
    if a.Some? && a.value != "" then a else b
  }

  predicate Present(o: Option<string>) {
    o.Some? && !Blank(o.value)
  }

  function LineageOf(r: Publication): Lineage {
    r.lineage.(strategy := OrText(r.lineage.strategy, r.strategyName))
  }

  predicate LineageComplete(l: Lineage) {
    && Present(l.publication) && Present(l.signal) && Present(l.decision) && Present(l.fingerprint)
    && Present(l.candidate) && Present(l.evidence) && Present(l.strategy) && Present(l.researchFingerprint)
    && Present(l.runtimeFingerprint)
  }

  function DirectionOf(r: Publication): Option<string> {
    OrText(r.signalType, r.direction)
  }

  predicate Actionable(r: Publication) {
    DirectionOf(r).Some? && Lower(Strip(DirectionOf(r).value)) in ["buy", "sell"]
  }

  function TermsOf(r: Publication): Terms {
    Terms(r.price, if r.requestedQuantity.Some? then r.requestedQuantity.value else r.quantity, r.stopLoss,
          r.takeProfit1, r.takeProfit2, r.takeProfit3)
  }

  /** The constructor arguments for the canonical intent of a record. */
  function Draft(r: Publication, user: string, key: string, id: string, now: real): Intent
    requires Present(r.symbol) && Actionable(r)
  {
    Intent(id, None, user, Upper(Strip(r.symbol.value)), Lower(Strip(DirectionOf(r).value)), key,
           if r.timestamp.Some? && r.timestamp.value != 0.0 then r.timestamp.value else now,
           STAGED, "market", TermsOf(r), None, None, LineageOf(r),
           if r.trailingStop.Some? && r.trailingStop.value.Dict? then Some(r.trailingStop.value.entries) else None,
           r.invalidation)
  }

  /** The key of a canonical intent: the caller's, or one made from the publication. */
  function CanonicalKey(key: Option<string>, user: string, publication: string): string {
    if Present(key) then Strip(key.value) else "idemp_pub_" + user + "_" + publication
  }

  /** The first intent in memory of a user for a publication. */
  function FirstFor(intents: seq<Intent>, user: string, publication: string): (r: Option<Intent>)
    ensures r.Some? ==> r.value in intents && IdentityOf(r.value) == Some((user, publication))
    ensures r.None? ==> forall i | i in intents :: IdentityOf(i) != Some((user, publication))
  {
    if intents == [] then None
    else if IdentityOf(intents[0]) == Some((user, publication)) then Some(intents[0])
    else FirstFor(intents[1..], user, publication)
  }

  /** The user's intent for a publication, from the repository when there is one. */
  function ForPublication(b: Book, user: string, publication: string): Option<Intent> {
    if b.shelf.Some? then ByPublication(b.shelf.value, user, publication)
    else FirstFor(b.memory, user, publication)
  }

  predicate KeyBelongsElsewhere(b: Book, user: string, key: string, publication: string) {
    (user, key) in b.keys &&
    var holder := Find(b.memory, b.keys[(user, key)]);
    holder.Some? && holder.value.lineage.publication != Some(publication)
  }

  /** Storing a new intent: in memory, then in the repository, which may raise. */
  function Store(b: Book, i: Intent, user: string, key: string): Outcome {
    var kept := b.(memory := Put(b.memory, i), keys := b.keys[(user, key) := i.id]);
    if b.shelf.None? then Outcome(kept, Staged(i))
    else if Refuses(b.shelf.value, i) then Outcome(kept, Raised)
    else Outcome(kept.(shelf := Some(Saved(b.shelf.value, i))), Staged(i))
  }

  /** `create_canonical_order_intent_from_publication`, given what the gateway resolves. */
  function CreateCanonical(b: Book, user: Option<User>, authorized: bool, publication: string,
                           resolved: Option<Publication>, key: Option<string>, id: string, now: real): Outcome
  {
    if user.None? || !authorized then Outcome(b, Refused(Unauthorized))
    else if Blank(publication) then Outcome(b, Refused(BlankPublication))
    else if resolved.None? then Outcome(b, Refused(NoRecord))
    else
      var u, r := user.value.id, resolved.value;
      if !LineageComplete(LineageOf(r)) then Outcome(b, Refused(MissingLineage))
      else if !Present(r.symbol) then Outcome(b, Refused(BadSymbol))
      else if !Actionable(r) then Outcome(b, Refused(BadDirection))
      else CreateFrom(b, u, r, CanonicalKey(key, u, r.lineage.publication.value), id, now)
  }

  /** The rest of it, for a complete record. */
  function CreateFrom(b: Book, user: string, r: Publication, key: string, id: string, now: real): Outcome
    requires LineageComplete(LineageOf(r)) && Present(r.symbol) && Actionable(r)
  {
    var p := r.lineage.publication.value;
    var draft := Draft(r, user, key, id, now);
    var existing := ForPublication(b, user, p);
    if existing.Some? then
      if IntentContent(existing.value) == DraftContent(draft) then Outcome(b, Existing(existing.value))
      else Outcome(b, Refused(IntegrityConflict))
    else if KeyBelongsElsewhere(b, user, key, p) then Outcome(b, Refused(KeyTaken))
    else if Built(draft).None? then Outcome(b, Refused(NotConstructed))
    else Store(b, Built(draft).value, user, key)
  }

  datatype Setup = Setup(symbol: string, direction: string, price: real, stopLoss: real, takeProfit1: real,
                         takeProfit2: real, takeProfit3: real)

  /** An autonomous authorization; its id is made from its timestamp and strategy. */
  datatype Authorization = Authorization(granted: bool, id: string, setup: Option<Setup>, action: string)

  /** `create_order_intent`'s other arguments. */
  datatype Order = Order(key: string, symbol: Option<string>, orderType: string, quantity: Option<real>,
                         timeInForce: Option<string>, created: real)

  function OrderSymbol(o: Order, a: Authorization): string {
    if Present(o.symbol) then Upper(Strip(o.symbol.value))
    else if a.setup.Some? then a.setup.value.symbol else ""
  }

  function OrderDirection(a: Authorization): string {
    if a.setup.Some? then a.setup.value.direction else a.action
  }

  function OrderDraft(o: Order, a: Authorization, user: string, id: string): Intent {
    var terms := match a.setup
      case None => Terms(None, o.quantity, None, None, None, None)
      case Some(s) => Terms(Some(s.price), o.quantity, Some(s.stopLoss), Some(s.takeProfit1), Some(s.takeProfit2),
                            Some(s.takeProfit3));
    Intent(id, Some(a.id), user, OrderSymbol(o, a), OrderDirection(a), Strip(o.key), o.created, STAGED,
           o.orderType, terms, o.timeInForce, None,
           Lineage(None, None, None, None, None, None, None, None, None, None), None, None)
  }

  /** The user's intent for an idempotency key, from the repository when there is one. */
  function ForKey(b: Book, user: string, key: string): Option<Intent> {
    if b.shelf.Some? then ByKey(b.shelf.value, user, key)
    else if (user, key) in b.keys then Find(b.memory, b.keys[(user, key)]) else None
  }

  /** `create_order_intent` */
  function Create(b: Book, user: Option<User>, authorized: bool, a: Option<Authorization>, o: Order, id: string)
    : Outcome
  {
    if user.None? || !authorized then Outcome(b, Refused(Unauthorized))
    else if Blank(o.key) then Outcome(b, Refused(BlankKey))
    else
      var u, key := user.value.id, Strip(o.key);
      var existing := ForKey(b, u, key);
      if existing.Some? then Outcome(b, Existing(existing.value))
      else if a.None? || !a.value.granted then Outcome(b, Refused(NotAuthorized))
      else if OrderSymbol(o, a.value) == "" then Outcome(b, Refused(BadSymbol))
      else if OrderDirection(a.value) !in ["buy", "sell"] then Outcome(b, Refused(BadDirection))
      else
        var made := Built(OrderDraft(o, a.value, u, id));
        if made.None? then Outcome(b, Refused(NotConstructed)) else Store(b, made.value, u, key)
  }

  /** `get_order_intent`: None is a refusal. */
  function Get(b: Book, user: User, id: string): Option<Intent> {
    var clean := Strip(id);
    if clean == "" then None
    else
      var found := if b.shelf.Some? then ById(b.shelf.value, clean, if user.admin then None else Some(user.id))
                   else Find(b.memory, clean);
      if found.Some? && !user.admin && found.value.user != user.id then None else found
  }

  /** Why an intent is not given out: it does not exist, or in memory it exists and is another user's. */
  function WhyHidden(b: Book, user: User, id: string): Refusal {
    if b.shelf.None? && Find(b.memory, Strip(id)).Some? then Unauthorized else NotFound
  }

  /** `transition_order_intent_state`; the target is a state's name in any case. */
  function Transition(b: Book, user: Option<User>, authorized: bool, id: string, target: string,
                      reason: Option<string>): Outcome
  {
    if user.None? || !authorized then Outcome(b, Refused(Unauthorized))
    else if Blank(id) then Outcome(b, Refused(BlankId))
    else
      var found := Get(b, user.value, id);
      if found.None? then Outcome(b, Refused(WhyHidden(b, user.value, id)))
      else
        var to := StateNamed(Upper(target));
        if to.None? then Outcome(b, Refused(IllegalTransition))
        else
          var moved := WithState(found.value, to.value, reason);
          if moved.None? then Outcome(b, Refused(IllegalTransition))
          else
            var kept := b.(memory := Put(b.memory, moved.value));
            if b.shelf.None? then Outcome(kept, Moved(moved.value))
            else if Refuses(b.shelf.value, moved.value) then Outcome(kept, Raised)
            else Outcome(kept.(shelf := Some(Saved(b.shelf.value, moved.value))), Moved(moved.value))
  }

  /** A call whose outcome is to be written to the repository's file: when the write fails the exception goes through,
      and what was already changed in memory stays changed. */
  function Written(out: Outcome, writable: bool): Outcome {
    if writable || out.book.shelf.None? || !(out.reply.Staged? || out.reply.Moved?) then out
    else Outcome(out.book, Raised)
  }

  /** A calculated record that a replay recognises: its texts are trimmed and its trailing stop is not an empty
      dictionary. */
  predicate Steady(draft: Intent) {
    && StripLineage(draft.lineage) == draft.lineage
    && StripAll(draft.invalidation) == draft.invalidation
    && draft.trailingStop != Some([])
  }

  /** The intent made from a record compares equal to that record, through any transition and reload, exactly when the
      record's texts are trimmed and its trailing stop is not an empty dictionary. */
  lemma ReplayRecognises(draft: Intent, i: Intent)
    requires Acceptable(draft) && Upper(Strip(draft.symbol)) == draft.symbol
    requires Lower(Strip(draft.direction)) == draft.direction && Lasting(i) == Lasting(Normalised(draft))
    ensures IntentContent(i) == DraftContent(draft) <==> Steady(draft)
  {
    hide Acceptable; hide Strip; hide Upper; hide Lower; hide C.Canonical; hide StripLineage; hide StripAll;
    var n := Normalised(draft);
    assert i.lineage == Lasting(i).lineage == n.lineage && i.symbol == Lasting(i).symbol == n.symbol;
    assert i.direction == Lasting(i).direction == n.direction && i.terms == Lasting(i).terms == n.terms;
    assert i.invalidation == Lasting(i).invalidation == n.invalidation;
    assert NonEmpty(i.trailingStop) == Lasting(i).trailingStop == NonEmpty(draft.trailingStop);
  }

  /** Two records compare equal exactly when they agree on every field, trailing stops being compared as nested maps in
      which a list of pairs in key order counts as the dictionary it spells. */
  lemma RecordsCompare(a: Intent, b: Intent)
    requires a.trailingStop.Some? ==> C.WellFormed(C.Dict(a.trailingStop.value))
    requires b.trailingStop.Some? ==> C.WellFormed(C.Dict(b.trailingStop.value))
    ensures DraftContent(a) == DraftContent(b) <==>
      && a.lineage == b.lineage && a.symbol == b.symbol && a.direction == b.direction && a.terms == b.terms
      && a.invalidation == b.invalidation
      && (a.trailingStop.Some? <==> b.trailingStop.Some?)
      && (a.trailingStop.Some? && b.trailingStop.Some? ==>
            C.Meaning(C.Reading(C.Dict(a.trailingStop.value))) == C.Meaning(C.Reading(C.Dict(b.trailingStop.value))))
  {
    hide C.Canonical; hide C.Meaning; hide C.WellFormed; hide C.Reading;
    if a.trailingStop.Some? && b.trailingStop.Some? {
      C.CanonicalFormDecidesEquality(C.Dict(a.trailingStop.value), C.Dict(b.trailingStop.value));
    }
  }
}
