/** Runs of the order intent service: one intent per publication, exact keys, at most one transition per intent, and
    stable replays. */
module OrderRuns {
  import opened Values
  import opened Text
  import opened OrderIntents
  import opened OrderShelf
  import opened OrderBook
  import L = OrderLoading
  import Keys

  datatype Op =
    | CanonicalOp(user: Option<User>, authorized: bool, publication: string, resolved: Option<Publication>,
                  key: Option<string>, id: string, now: real)
    | CreateOp(user: Option<User>, authorized: bool, authorization: Option<Authorization>, order: Order, id: string)
    | TransitionOp(user: Option<User>, authorized: bool, target: string, to: string, reason: Option<string>)
    | RestartOp(numerals: Numerals)

  function Apply(b: Book, op: Op): Outcome {
    match op
    case CanonicalOp(user, authorized, publication, resolved, key, id, now) =>
      CreateCanonical(b, user, authorized, publication, resolved, key, id, now)
    case CreateOp(user, authorized, a, o, id) => Create(b, user, authorized, a, o, id)
    case TransitionOp(user, authorized, target, to, reason) => Transition(b, user, authorized, target, to, reason)
    case RestartOp(numerals) => Outcome(Restart(b, numerals), Refused(NotFound))
  }

  /** A new service over the repository's file: nothing in memory, the shelf as loaded. */
  function Restart(b: Book, numerals: Numerals): Book {
    match b.shelf
    case None => b
    case Some(s) => Book([], map[], Some(Load(Flushed(s), numerals)))
  }

  /** The intents the service answers from. */
  function Intents(b: Book): seq<Intent> {
    if b.shelf.Some? then b.shelf.value.intents else b.memory
  }

  predicate Named(user: Option<User>) {
    user.Some? ==> Trimmed(user.value.id) && user.value.id != ""
  }

  ghost predicate FreshId(b: Book, id: string) {
    Trimmed(id) && id != "" && Find(Intents(b), id).None? && Find(b.memory, id).None?
  }

  /** What surrounds the service guarantees: users are named, new ids are new, and the gateway resolves a publication
      to a record of exactly that publication. */
  ghost predicate Lawful(b: Book, op: Op) {
    match op
    case CanonicalOp(user, _, publication, resolved, _, id, now) =>
      && Named(user) && FreshId(b, id)
      && (resolved.Some? ==> resolved.value.lineage.publication == Some(Strip(publication)))
    case CreateOp(user, _, _, _, id) => Named(user) && FreshId(b, id)
    case TransitionOp(user, _, _, _, _) => Named(user)
    case RestartOp(_) => b.shelf.Some?
  }

  ghost function Run(b: Book, ops: seq<Op>): Book {
    if ops == [] then b else Apply(Run(b, ops[..|ops| - 1]), ops[|ops| - 1]).book
  }

  ghost predicate LawfulRun(b: Book, ops: seq<Op>) {
    ops != [] ==> LawfulRun(b, ops[..|ops| - 1]) && Lawful(Run(b, ops[..|ops| - 1]), ops[|ops| - 1])
  }

  /** A service just made, without a repository or with an empty one. */
  predicate Fresh(b: Book) {
    b.memory == [] && b.keys == map[] && (b.shelf.Some? ==> b.shelf.value == EMPTY_SHELF)
  }

  /** Ids are distinct, intents are in normal form, no user has two intents for one publication, and the repository's
      map by publication is exactly its intents' identities. */
  ghost predicate Sound(b: Book) {
    && DistinctIds(Intents(b))
    && (forall i | i in Intents(b) :: Normal(i))
    && (forall i, j | i in Intents(b) && j in Intents(b) && IdentityOf(i).Some? && IdentityOf(i) == IdentityOf(j) ::
          i == j)
    && (b.shelf.Some? ==> Coherent(b.shelf.value))
  }

  lemma CoherentIsSound(b: Book)
    requires b.shelf.Some? && Coherent(b.shelf.value)
    ensures Sound(b)
  {
    hide Normal;
    forall i, j | i in Intents(b) && j in Intents(b) && IdentityOf(i).Some? && IdentityOf(i) == IdentityOf(j)
      ensures i == j
    {
      FindOnly(Intents(b), i);
      FindOnly(Intents(b), j);
    }
  }

  /** The lookup by publication finds the one intent there is. */
  lemma ForPublicationFinds(b: Book, user: string, p: string)
    requires Sound(b) && Trimmed(user) && user != "" && Trimmed(p) && p != ""
    ensures var found := ForPublication(b, user, p);
      && (found.Some? ==> found.value in Intents(b) && IdentityOf(found.value) == Some((user, p)))
      && forall i | i in Intents(b) && IdentityOf(i) == Some((user, p)) :: found == Some(i)
  {
    hide Normal;
    if b.shelf.Some? { CoherentLookup(b.shelf.value, user, p); }
  }

  lemma RefusalHasOwner(s: Shelf, i: Intent) returns (j: Intent)
    requires Coherent(s) && Refuses(s, i)
    ensures j in s.intents && IdentityOf(j).Some? && IdentityOf(j) == IdentityOf(i)
  {
    j :| j in s.intents && j.id == s.publications[IdentityOf(i).value] && IdentityOf(j) == IdentityOf(i);
  }

  /** Storing a normal intent under a new id and an identity nobody has keeps the book sound and does not raise. */
  lemma StoreKeepsSound(b: Book, i: Intent, user: string, key: string)
    requires Sound(b) && Normal(i) && Find(Intents(b), i.id).None?
    requires forall j | j in Intents(b) && IdentityOf(j).Some? :: IdentityOf(j) != IdentityOf(i)
    ensures Sound(Store(b, i, user, key).book) && Store(b, i, user, key).reply == Staged(i)
    ensures Intents(Store(b, i, user, key).book) == Intents(b) + [i]
  {
    hide Normal;
    PutNew(Intents(b), i);
    if b.shelf.Some? {
      var s := b.shelf.value;
      if Refuses(s, i) { var j := RefusalHasOwner(s, i); }
      SaveKeepsCoherent(s, i);
      CoherentIsSound(Store(b, i, user, key).book);
    } else {
      PutMembers(b.memory, i);
    }
  }

  /** Replacing an intent by one of the same id and identity keeps the book sound and does not raise. */
  lemma MoveKeepsSound(b: Book, i: Intent, j: Intent)
    requires Sound(b) && i in Intents(b) && Normal(j) && j.id == i.id && IdentityOf(j) == IdentityOf(i)
    ensures b.shelf.None? ==> Sound(b.(memory := Put(b.memory, j)))
    ensures b.shelf.Some? ==> !Refuses(b.shelf.value, j) && Coherent(Saved(b.shelf.value, j))
  {
    hide Normal;
    PutMembers(Intents(b), j);
    forall k | k in Intents(b) && k.id == j.id
      ensures k == i
    {
      FindOnly(Intents(b), i);
      FindOnly(Intents(b), k);
    }
    if b.shelf.Some? {
      assert !Refuses(b.shelf.value, j);
      SaveKeepsCoherent(b.shelf.value, j);
    }
  }

  function Caller(op: Op): Option<User> {
    match op
    case CanonicalOp(user, _, _, _, _, _, _) => user
    case CreateOp(user, _, _, _, _) => user
    case TransitionOp(user, _, _, _, _) => user
    case RestartOp(_) => None
  }

  /** Whose intent a reply may carry: the caller's own for the publication asked for; whatever the lookup of the
      caller's key finds; a new one of the caller's; the one asked for, if it is the caller's or he is an
      administrator. */
  ghost predicate Answers(b: Book, op: Op, reply: Reply) {
    var caller := Caller(op);
    match reply
    case Existing(i) =>
      && caller.Some?
      && if op.CanonicalOp? then IdentityOf(i) == Some((caller.value.id, Strip(op.publication)))
         else op.CreateOp? && !Blank(op.order.key) && ForKey(b, caller.value.id, Strip(op.order.key)) == Some(i)
    case Staged(i) => caller.Some? && !op.TransitionOp? && i.user == caller.value.id
    case Moved(j) =>
      caller.Some? && op.TransitionOp? && j.id == Strip(op.target) && (caller.value.admin || j.user == caller.value.id)
    case _ => true
  }

  /** The word names the state, in any case. */
  predicate Spells(word: string, state: LifecycleState) {
    match state
    case STAGED => Upper(word) == "STAGED"
    case REJECTED => Upper(word) == "REJECTED"
    case CANCELLED => Upper(word) == "CANCELLED"
    case EXPIRED => Upper(word) == "EXPIRED"
  }

  /** The intent was moved as the call asks: to the state it names, with its reason, or the old one if it gives none. */
  predicate AsAsked(op: Op, i: Intent, j: Intent) {
    && op.TransitionOp? && Spells(op.to, j.state)
    && j.reason == if op.reason.Some? && op.reason.value != "" then Some(Strip(op.reason.value)) else i.reason
  }

  /** What a lawful call can do to the intents: nothing, one new staged intent, one staged intent moved to a terminal
      state, or reading all of them back. It never raises. */
  ghost predicate Allowed(b: Book, op: Op, out: Outcome) {
    match out.reply
    case Existing(i) => out.book == b && i in Intents(b)
    case Refused(_) =>
      if op.RestartOp? then Intents(out.book) == L.RestoredAll(Intents(b)) else out.book == b
    case Staged(i) =>
      Intents(out.book) == Intents(b) + [i] && Normal(i) && i.state.STAGED? && Find(Intents(b), i.id).None?
    case Moved(j) =>
      exists i ::
        && i in Intents(b) && j.id == i.id && Intents(out.book) == Put(Intents(b), j)
        && i.state.STAGED? && Terminal(j.state) && Normal(j) && Lasting(j) == Lasting(i) && AsAsked(op, i, j)
    case Raised => false
  }

  lemma CreateFromAllowed(b: Book, op: Op, user: string, r: Publication, key: string, id: string, now: real)
    requires Sound(b) && FreshId(b, id) && Trimmed(user) && user != "" && !op.RestartOp?
    requires LineageComplete(LineageOf(r)) && Present(r.symbol) && Actionable(r)
    requires Present(r.lineage.publication) && Trimmed(r.lineage.publication.value)
    ensures var out := CreateFrom(b, user, r, key, id, now); Sound(out.book) && Allowed(b, op, out)
  {
    hide Sound; hide IntentContent; hide DraftContent; hide Coherent; hide Normalised; hide Acceptable;
    hide Store; hide ForPublication; hide Upper; hide Lower; hide Find;
    var p, draft := r.lineage.publication.value, Draft(r, user, key, id, now);
    ForPublicationFinds(b, user, p);
    if ForPublication(b, user, p).None? && Built(draft).Some? {
      DraftNormalised(r, user, key, id, now);
      StoreKeepsSound(b, Built(draft).value, user, key);
    }
  }

  lemma PublicationPresent(r: Publication)
    requires LineageComplete(LineageOf(r))
    ensures Present(r.lineage.publication) && r.lineage.publication.value != ""
  {
  }

  lemma DraftNormalised(r: Publication, user: string, key: string, id: string, now: real)
    requires LineageComplete(LineageOf(r)) && Present(r.symbol) && Actionable(r) && Trimmed(user) && Trimmed(id)
    requires Trimmed(r.lineage.publication.value) && Acceptable(Draft(r, user, key, id, now))
    ensures var i := Normalised(Draft(r, user, key, id, now));
      && Normal(i) && i.state.STAGED? && i.id == id && i.user == user && i.key == Strip(key)
      && IdentityOf(i) == Some((user, r.lineage.publication.value))
  {
    hide Acceptable; hide Upper; hide Lower; hide Strip;
    BuiltIsNormal(Draft(r, user, key, id, now));
  }

  lemma OrderNormalised(o: Order, a: Authorization, user: string, id: string)
    requires Trimmed(user) && Trimmed(id) && Acceptable(OrderDraft(o, a, user, id))
    ensures var i := Normalised(OrderDraft(o, a, user, id));
      Normal(i) && i.state.STAGED? && i.id == id && i.user == user && i.key == Strip(o.key) && IdentityOf(i).None?
  {
    hide Acceptable; hide Upper; hide Lower; hide Strip;
    BuiltIsNormal(OrderDraft(o, a, user, id));
    StripIsTrimmed(o.key);
  }

  lemma CreateAllowed(b: Book, op: Op)
    requires Sound(b) && Lawful(b, op) && op.CreateOp?
    ensures Sound(Apply(b, op).book) && Allowed(b, op, Apply(b, op))
  {
    hide Sound; hide Coherent; hide Normalised; hide Acceptable; hide Upper; hide Lower; hide Strip;
    hide Put; hide Saved; hide Refuses; hide ForKey;
    var out := Apply(b, op);
    if out.reply.Existing? {
      ForKeyIsHeld(b, op.user.value.id, Strip(op.order.key));
    } else if !out.reply.Refused? {
      var draft := OrderDraft(op.order, op.authorization.value, op.user.value.id, op.id);
      OrderNormalised(op.order, op.authorization.value, op.user.value.id, op.id);
      StoreKeepsSound(b, Built(draft).value, op.user.value.id, Strip(op.order.key));
    }
  }

  lemma ForKeyIsHeld(b: Book, user: string, key: string)
    ensures ForKey(b, user, key).Some? ==> ForKey(b, user, key).value in Intents(b)
  {
  }

  lemma TransitionAllowed(b: Book, op: Op)
    requires Sound(b) && Lawful(b, op) && op.TransitionOp?
    ensures Sound(Apply(b, op).book) && Allowed(b, op, Apply(b, op))
  {
    hide Coherent; hide Normal; hide WithState; hide Upper; hide Strip; hide DistinctIds;
    var out := Apply(b, op);
    if !out.reply.Refused? {
      var i := Get(b, op.user.value, op.target).value;
      var to := StateNamed(Upper(op.to)).value;
      var j := WithState(i, to, op.reason).value;
      TransitionMeaning(i, to, op.reason);
      LastingIdentity(i, j);
      MoveKeepsSound(b, i, j);
      NameSpells(op.to, to);
      if b.shelf.Some? { CoherentIsSound(out.book); }
    }
  }

  lemma NameSpells(word: string, state: LifecycleState)
    ensures StateNamed(Upper(word)) == Some(state) <==> Spells(word, state)
  {
    hide Upper;
  }

  lemma LastingIdentity(i: Intent, j: Intent)
    requires Lasting(i) == Lasting(j)
    ensures IdentityOf(i) == IdentityOf(j) && i.id == j.id && i.user == j.user && i.key == j.key
  {
    assert i.lineage == Lasting(i).lineage && j.lineage == Lasting(j).lineage;
    assert i.user == Lasting(i).user && j.user == Lasting(j).user && i.id == Lasting(i).id && j.id == Lasting(j).id;
    assert i.key == Lasting(i).key && j.key == Lasting(j).key;
  }

  lemma CanonicalAnswers(b: Book, op: Op)
    requires Sound(b) && Lawful(b, op) && op.CanonicalOp?
    ensures Answers(b, op, Apply(b, op).reply)
  {
    hide Sound; hide LineageComplete; hide Strip; hide Actionable; hide FreshId; hide Upper; hide Lower;
    hide Store; hide ForPublication; hide Normalised; hide Acceptable; hide IntentContent; hide DraftContent;
    hide Draft; hide Put; hide Saved; hide Refuses; hide KeyBelongsElsewhere;
    if op.user.Some? && op.authorized && !Blank(op.publication) && op.resolved.Some? {
      var u, r := op.user.value.id, op.resolved.value;
      StripIsTrimmed(op.publication);
      ForPublicationFinds(b, u, Strip(op.publication));
      if LineageComplete(LineageOf(r)) && Present(r.symbol) && Actionable(r) {
        PublicationPresent(r);
        CreateFromAnswers(b, u, r, CanonicalKey(op.key, u, r.lineage.publication.value), op.id, op.now);
      }
    }
  }

  lemma CreateFromAnswers(b: Book, user: string, r: Publication, key: string, id: string, now: real)
    requires LineageComplete(LineageOf(r)) && Present(r.symbol) && Actionable(r) && Trimmed(user)
    ensures var reply := CreateFrom(b, user, r, key, id, now).reply;
      && (reply.Existing? ==> ForPublication(b, user, r.lineage.publication.value) == Some(reply.intent))
      && (reply.Staged? ==> reply.intent.user == user)
      && !reply.Moved?
  {
    hide LineageComplete; hide Actionable; hide Upper; hide Lower; hide Acceptable; hide IntentContent;
    hide DraftContent; hide Put; hide Saved; hide Refuses; hide KeyBelongsElsewhere; hide ForPublication; hide Strip;
    hide StripAll; hide StripLineage;
  }

  lemma CreateAnswers(b: Book, op: Op)
    requires Sound(b) && Lawful(b, op) && op.CreateOp?
    ensures Answers(b, op, Apply(b, op).reply)
  {
    hide Sound; hide Acceptable; hide Upper; hide Lower; hide Put; hide Saved; hide Refuses; hide ForKey; hide FreshId;
    hide StripAll; hide StripLineage; hide StripLeft; hide StripRight;
  }

  lemma TransitionAnswers(b: Book, op: Op)
    requires Sound(b) && Lawful(b, op) && op.TransitionOp?
    ensures Answers(b, op, Apply(b, op).reply)
  {
    hide Coherent; hide Normal; hide WithState; hide Upper; hide Strip; hide DistinctIds; hide Put; hide Saved;
    hide Refuses; hide Find;
    var out := Apply(b, op);
    if !out.reply.Refused? {
      var i := Get(b, op.user.value, op.target).value;
      var to := StateNamed(Upper(op.to)).value;
      TransitionMeaning(i, to, op.reason);
      LastingIdentity(i, WithState(i, to, op.reason).value);
    }
  }

  /** Every lawful call keeps the book sound, does no more than it may, and answers for its caller. */
  lemma StepAllowed(b: Book, op: Op)
    requires Sound(b) && Lawful(b, op)
    ensures Sound(Apply(b, op).book) && Allowed(b, op, Apply(b, op))
    ensures Answers(b, op, Apply(b, op).reply)
  {
    hide Sound; hide Coherent; hide Allowed; hide Apply; hide Lawful;
    match op
    case CanonicalOp(_, _, _, _, _, _, _) =>
      CanonicalAllowed(b, op);
      CanonicalAnswers(b, op);
    case CreateOp(_, _, _, _, _) =>
      CreateAllowed(b, op);
      CreateAnswers(b, op);
    case TransitionOp(_, _, _, _, _) =>
      TransitionAllowed(b, op);
      TransitionAnswers(b, op);
    case RestartOp(_) =>
      RestartAllowed(b, op);
      RestartRefuses(b, op);
  }

  lemma CanonicalAllowed(b: Book, op: Op)
    requires Sound(b) && Lawful(b, op) && op.CanonicalOp?
    ensures Sound(Apply(b, op).book) && Allowed(b, op, Apply(b, op))
  {
    hide Sound; hide CreateFrom; hide LineageComplete; hide Strip; hide Actionable; hide FreshId;
    if op.user.Some? && op.authorized && !Blank(op.publication) && op.resolved.Some? {
      var u, r := op.user.value.id, op.resolved.value;
      StripIsTrimmed(op.publication);
      if LineageComplete(LineageOf(r)) && Present(r.symbol) && Actionable(r) {
        PublicationPresent(r);
        CreateFromAllowed(b, op, u, r, CanonicalKey(op.key, u, r.lineage.publication.value), op.id, op.now);
      }
    }
  }

  lemma RestartRefuses(b: Book, op: Op)
    requires op.RestartOp?
    ensures Answers(b, op, Apply(b, op).reply)
  {
  }

  lemma RestartAllowed(b: Book, op: Op)
    requires Sound(b) && Lawful(b, op) && op.RestartOp?
    ensures Sound(Apply(b, op).book) && Allowed(b, op, Apply(b, op))
  {
    hide Coherent; hide Normal; hide Load; hide Flushed; hide L.RestoredAll;
    L.FlushLoadRestores(b.shelf.value, op.numerals);
    CoherentIsSound(Apply(b, op).book);
  }

  lemma FreshIsSound(b: Book)
    requires Fresh(b)
    ensures Sound(b)
  {
  }

  /** In every lawful run of a fresh service, restarts included, no user has two intents for one publication, and the
      repository's map by publication is exactly its intents' identities. */
  lemma {:induction false} RunKeepsSound(b: Book, ops: seq<Op>)
    requires Sound(b) && LawfulRun(b, ops)
    ensures Sound(Run(b, ops))
  {
    hide Sound; hide Lawful; hide Apply;
    if ops != [] {
      RunKeepsSound(b, ops[..|ops| - 1]);
      StepAllowed(Run(b, ops[..|ops| - 1]), ops[|ops| - 1]);
    }
  }
}
