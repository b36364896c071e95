/** Whose intent a user is given: exactly for which user names every reply to a user carries an intent of his own. */
module OrderIsolation {
  import opened Values
  import opened Text
  import opened OrderIntents
  import opened OrderShelf
  import opened OrderBook
  import opened OrderRuns
  import opened OrderHistories
  import L = OrderLoading
  import Keys

  /** The repository's text keys are its intents' keys; without a repository the service's own keys are exact. */
  ghost predicate Keyable(b: Book) {
    match b.shelf
    case Some(s) => Covers(s.keys, KeyOf, s.intents) && Grounded(s.keys, KeyOf, s.intents)
    case None => KeySound(b)
  }

  /** In a repository-backed service a lookup by key finds an intent exactly when some intent, whoever's, has that text
      key, and then an intent with that text key. */
  lemma TextKeyLookup(b: Book, user: string, key: string)
    requires Sound(b) && Keyable(b) && b.shelf.Some?
    ensures ForKey(b, user, key).Some? <==> exists i :: i in Intents(b) && KeyOf(i) == Keys.Key(user, key)
    ensures ForKey(b, user, key).Some? ==>
      ForKey(b, user, key).value in Intents(b) && KeyOf(ForKey(b, user, key).value) == Keys.Key(user, key)
  {
    hide Normal; hide Coherent; hide KeyOf; hide DistinctIds;
    var s, k := b.shelf.value, Keys.Key(user, key);
    if k in s.keys {
      var j :| j in s.intents && j.id == s.keys[k] && KeyOf(j) == k;
      FindOnly(s.intents, j);
    }
  }

  /** Without a repository it finds the user's own intent with that key. */
  lemma PairLookup(b: Book, user: string, key: string)
    requires Sound(b) && Keyable(b) && b.shelf.None?
    ensures ForKey(b, user, key).Some? ==> PairOf(ForKey(b, user, key).value) == (user, key)
  {
    hide Normal; hide Coherent; hide DistinctIds;
    if (user, key) in b.keys {
      var j :| j in b.memory && j.id == b.keys[(user, key)] && PairOf(j) == (user, key);
      FindOnly(b.memory, j);
    }
  }

  /** A key as the service makes it: stripped and not empty. */
  predicate Clean(s: string) {
    Trimmed(s) && s != ""
  }

  /** Some key of u can be some key of v: u's name and a colon begin v's, and what follows the colon, if anything, can
      begin a stripped text. */
  predicate CanMeet(u: string, v: string) {
    u + ":" <= v && (|v| == |u| + 1 || !IsSpace(v[|u| + 1]))
  }

  /** Keys of two different users can be the same text exactly under that condition. */
  lemma KeysCanMeet(u: string, v: string)
    requires u != v
    ensures (exists a, b :: Clean(a) && Clean(b) && Keys.Key(u, a) == Keys.Key(v, b)) <==>
              CanMeet(u, v) || CanMeet(v, u)
  {
    hide Clean; hide CanMeet; hide Keys.Key;
    forall a, b | Clean(a) && Clean(b) && Keys.Key(u, a) == Keys.Key(v, b)
      ensures CanMeet(u, v) || CanMeet(v, u)
    {
      MetKeys(u, a, v, b);
    }
    if CanMeet(u, v) { KeysDoMeet(u, v); }
    if CanMeet(v, u) { KeysDoMeet(v, u); }
  }

  lemma MetKeys(u: string, a: string, v: string, b: string)
    requires u != v && Clean(a) && Clean(b) && Keys.Key(u, a) == Keys.Key(v, b)
    ensures CanMeet(u, v) || CanMeet(v, u)
  {
    hide Strip;
    TrimmedEnds(a);
    TrimmedEnds(b);
    if |u| < |v| {
      Keys.EqualKeys(u, a, v, b);
      assert Keys.Key(u, a)[|u| + 1] == a[0];
      assert |v| > |u| + 1 ==> Keys.Key(v, b)[|u| + 1] == v[|u| + 1];
    } else if |v| < |u| {
      Keys.EqualKeys(v, b, u, a);
      assert Keys.Key(v, b)[|v| + 1] == b[0];
      assert |u| > |v| + 1 ==> Keys.Key(u, a)[|v| + 1] == u[|v| + 1];
    } else {
      Keys.EqualLengthOwners(u, a, v, b);
    }
  }

  function MeetingKey(u: string, v: string): string
    requires CanMeet(u, v)
  {
    v[|u| + 1..] + ":" + "k"
  }

  lemma KeysDoMeet(u: string, v: string)
    requires CanMeet(u, v)
    ensures Clean(MeetingKey(u, v)) && Clean("k") && Keys.Key(u, MeetingKey(u, v)) == Keys.Key(v, "k")
  {
    hide Strip;
    Keys.KeysMeet(u, v, "k");
    var a := MeetingKey(u, v);
    assert a[|a| - 1] == 'k';
    assert a[0] == if |v| == |u| + 1 then ':' else v[|u| + 1];
    TrimmedEnds(a);
    TrimmedEnds("k");
  }

  /** No two of these users' keys can meet. */
  ghost predicate Apart(users: set<string>) {
    forall u, v | u in users && v in users && u != v :: !CanMeet(u, v)
  }

  ghost predicate Of(b: Book, users: set<string>) {
    forall i | i in Intents(b) :: i.user in users
  }

  /** Then a lookup by key never leads to another user's intent. */
  lemma ApartLookup(b: Book, users: set<string>, user: string, key: string)
    requires Sound(b) && Keyable(b) && Apart(users) && Of(b, users) && user in users && Clean(key)
    ensures ForKey(b, user, key).Some? ==> ForKey(b, user, key).value.user == user
  {
    hide Apart; hide CanMeet; hide ForKey; hide Keyable; hide Coherent; hide DistinctIds; hide Strip;
    if ForKey(b, user, key).Some? {
      var i := ForKey(b, user, key).value;
      if b.shelf.None? {
        PairLookup(b, user, key);
      } else {
        TextKeyLookup(b, user, key);
        NormalKey(i);
        if i.user != user {
          ApartPair(users, i.user, user);
          MetKeys(i.user, i.key, user, key);
        }
      }
    }
  }

  lemma ApartPair(users: set<string>, u: string, v: string)
    requires Apart(users) && u in users && v in users && u != v
    ensures !CanMeet(u, v) && !CanMeet(v, u)
  {
  }

  lemma NormalKey(i: Intent)
    requires Normal(i)
    ensures Clean(i.key)
  {
    hide Strip; hide Upper; hide Lower;
  }

  /** While memory and repository agree, users apart have exact keys: the lookup finds the user's own intent with the
      key, and the repository's map is the inverse of its intents' text keys. */
  lemma KeyLookupIsExact(b: Book, users: set<string>, user: string, key: string)
    requires Sound(b) && KeySound(b) && Apart(users) && Of(b, users) && user in users && Clean(key)
    ensures forall i :: ForKey(b, user, key) == Some(i) <==> i in Intents(b) && PairOf(i) == (user, key)
    ensures b.shelf.Some? ==> Keyed(b.shelf.value)
  {
    hide Normal; hide Coherent; hide Sound; hide Apart; hide Strip;
    forall i | i in Intents(b) && PairOf(i) == (user, key)
      ensures ForKey(b, user, key) == Some(i)
    {
      KeyNotFound(b, user, key, i);
      ForKeyIsOwn(b, users, user, key);
      KeyIdentifiesIntent(b, i, ForKey(b, user, key).value);
    }
    if ForKey(b, user, key).Some? { ForKeyIsOwn(b, users, user, key); }
    if b.shelf.Some? { TextKeysAreExact(b, users); }
  }

  lemma ForKeyIsOwn(b: Book, users: set<string>, user: string, key: string)
    requires Sound(b) && KeySound(b) && Apart(users) && Of(b, users) && user in users && Clean(key)
    requires ForKey(b, user, key).Some?
    ensures var i := ForKey(b, user, key).value; i in Intents(b) && PairOf(i) == (user, key)
  {
    hide Sound; hide Apart; hide Of; hide Clean; hide ForKey;
    ApartLookup(b, users, user, key);
    ForKeyIsHeld(b, user, key);
    var i := ForKey(b, user, key).value;
    if b.shelf.Some? {
      TextKeyLookup(b, user, key);
      Keys.KeyCancels(user, i.key, key);
    } else {
      PairLookup(b, user, key);
    }
  }

  lemma TextKeysAreExact(b: Book, users: set<string>)
    requires Sound(b) && KeySound(b) && b.shelf.Some? && Apart(users) && Of(b, users)
    ensures Keyed(b.shelf.value)
  {
    hide Normal; hide Coherent; hide Sound; hide Apart; hide ForKey;
    var s := b.shelf.value;
    forall i | i in s.intents
      ensures KeyOf(i) in s.keys && s.keys[KeyOf(i)] == i.id
    {
      var j :| j in b.memory && j.id == s.keys[KeyOf(i)] && KeyOf(j) == KeyOf(i);
      SameKeySameIntent(b, users, i, j);
    }
  }

  lemma SameKeySameIntent(b: Book, users: set<string>, i: Intent, j: Intent)
    requires Sound(b) && KeySound(b) && Apart(users) && Of(b, users)
    requires i in Intents(b) && j in Intents(b) && KeyOf(i) == KeyOf(j)
    ensures i == j
  {
    hide Normal; hide Coherent; hide Apart; hide Clean; hide KeySound;
    NormalKey(i);
    NormalKey(j);
    if i.user != j.user {
      ApartPair(users, i.user, j.user);
      MetKeys(i.user, i.key, j.user, j.key);
    } else {
      Keys.KeyCancels(i.user, i.key, j.key);
      KeyIdentifiesIntent(b, i, j);
    }
  }

  /** The call's caller, if it names one, is one of these users. */
  ghost predicate By(op: Op, users: set<string>) {
    Caller(op).Some? ==> Caller(op).value.id in users
  }

  ghost predicate AllBy(ops: seq<Op>, users: set<string>) {
    forall n | 0 <= n < |ops| :: By(ops[n], users)
  }

  lemma StepKeepsUsers(b: Book, op: Op, users: set<string>)
    requires Sound(b) && Lawful(b, op) && Of(b, users) && By(op, users)
    ensures Of(Apply(b, op).book, users)
  {
    StepAllowed(b, op);
    hide Sound; hide Lawful; hide Apply; hide Allowed; hide Answers; hide Of; hide By;
    if Apply(b, op).reply.Moved? {
      MoveKeepsUsers(b, op, users);
    } else {
      UnmovedKeepsUsers(b, op, users);
    }
  }

  lemma UnmovedKeepsUsers(b: Book, op: Op, users: set<string>)
    requires Of(b, users) && By(op, users) && !Apply(b, op).reply.Moved?
    requires Allowed(b, op, Apply(b, op)) && Answers(b, op, Apply(b, op).reply)
    ensures Of(Apply(b, op).book, users)
  {
    hide Apply; hide Normal; hide ForKey; hide Restored; hide Find; hide Strip; hide IdentityOf; hide L.RestoredAll;
    if op.RestartOp? { RestoredUsers(Intents(b)); }
  }

  lemma MoveKeepsUsers(b: Book, op: Op, users: set<string>)
    requires Sound(b) && Of(b, users) && Apply(b, op).reply.Moved? && Allowed(b, op, Apply(b, op))
    ensures Of(Apply(b, op).book, users)
  {
    hide Apply; hide Normal; hide Put; hide Lasting; hide Coherent; hide DistinctIds;
    var out := Apply(b, op);
    var j := out.reply.intent;
    var i :| i in Intents(b) && j.id == i.id && Intents(out.book) == Put(Intents(b), j) && i.state.STAGED?
             && Terminal(j.state) && Normal(j) && Lasting(j) == Lasting(i);
    LastingIdentity(i, j);
    PutMembers(Intents(b), j);
  }

  lemma RestoredUsers(intents: seq<Intent>)
    ensures forall j | j in L.RestoredAll(intents) :: exists i :: i in intents && i.user == j.user
  {
    forall j | j in L.RestoredAll(intents)
      ensures exists i :: i in intents && i.user == j.user
    {
      var n :| 0 <= n < |intents| && L.RestoredAll(intents)[n] == j;
      assert intents[n] in intents && j == Restored(intents[n]);
    }
  }

  /** Loading rows of different ids gives a map by key that covers them and holds nothing else, even if keys repeat. */
  lemma {:induction false} LoadedIsKeyable(rows: seq<Intent>)
    requires DistinctIds(rows)
    ensures Covers(LoadedAll(rows).keys, KeyOf, rows) && Grounded(LoadedAll(rows).keys, KeyOf, rows)
  {
    hide KeyOf; hide Put; hide Covers; hide Grounded; hide IdentityOf;
    if rows == [] {
      EmptyIsKeyable();
    } else {
      var n := |rows| - 1;
      LoadedIsKeyable(rows[..n]);
      GroundedGrows(LoadedAll(rows[..n]).keys, KeyOf, rows[..n], rows[n]);
      assert rows == rows[..n] + [rows[n]];
    }
  }

  lemma EmptyIsKeyable()
    ensures Covers(map[], KeyOf, []) && Grounded(map[], KeyOf, [])
  {
  }

  lemma RestartKeepsKeyable(b: Book, numerals: Numerals)
    requires Sound(b) && b.shelf.Some?
    ensures Keyable(Restart(b, numerals))
  {
    hide Coherent; hide LoadedAll; hide L.Alike; hide Covers; hide Grounded; hide KeyOf; hide Normal; hide DistinctIds;
    hide Held; hide L.RestoredAll; hide ToRow;
    var s := b.shelf.value;
    var rows := L.RestoredAll(s.intents);
    L.CoherentParts(s);
    L.HeldOfWritten(s.intents, Flushed(s).items, numerals);
    L.RestoredFields(s.intents);
    L.LoadDistinct(rows);
    LoadedIsKeyable(rows);
  }

  lemma StoreKeepsKeyable(b: Book, i: Intent, user: string, key: string)
    requires b.shelf.Some? && Keyable(b) && Find(Intents(b), i.id).None? && Store(b, i, user, key).reply.Staged?
    ensures Keyable(Store(b, i, user, key).book)
  {
    hide Covers; hide Grounded; hide KeyOf; hide Put; hide Find; hide Refuses;
    PutNew(b.shelf.value.intents, i);
    GroundedGrows(b.shelf.value.keys, KeyOf, b.shelf.value.intents, i);
  }

  lemma CanonicalKeepsKeyable(b: Book, op: Op)
    requires Sound(b) && Keyable(b) && b.shelf.Some? && Lawful(b, op) && op.CanonicalOp?
    ensures Keyable(Apply(b, op).book)
  {
    StepAllowed(b, op);
    hide Sound; hide Keyable; hide Store; hide ForPublication; hide KeyBelongsElsewhere; hide Built; hide Draft;
    hide LineageComplete; hide Actionable; hide Strip; hide IntentContent; hide DraftContent; hide Allowed;
    hide Answers;
    if op.user.Some? && op.authorized && !Blank(op.publication) && op.resolved.Some? {
      var u, r := op.user.value.id, op.resolved.value;
      if LineageComplete(LineageOf(r)) && Present(r.symbol) && Actionable(r) {
        CanonicalStores(b, op, u, r, CanonicalKey(op.key, u, r.lineage.publication.value));
      }
    }
  }

  lemma CanonicalStores(b: Book, op: Op, user: string, r: Publication, key: string)
    requires Sound(b) && Keyable(b) && b.shelf.Some? && op.CanonicalOp? && FreshId(b, op.id)
    requires LineageComplete(LineageOf(r)) && Present(r.symbol) && Actionable(r)
    requires Allowed(b, op, CreateFrom(b, user, r, key, op.id, op.now))
    ensures Keyable(CreateFrom(b, user, r, key, op.id, op.now).book)
  {
    hide Sound; hide Keyable; hide Store; hide ForPublication; hide KeyBelongsElsewhere; hide Acceptable;
    hide LineageComplete; hide Actionable; hide Strip; hide IntentContent; hide DraftContent; hide Find;
    hide Normal; hide StripLineage; hide Upper; hide Lower; hide StripAll;
    var out, made := CreateFrom(b, user, r, key, op.id, op.now), Built(Draft(r, user, key, op.id, op.now));
    if out.book != b {
      assert made.Some? && out == Store(b, made.value, user, key);
      StoreOutcome(b, made.value, user, key);
      StoreKeepsKeyable(b, made.value, user, key);
    }
  }

  lemma StoreOutcome(b: Book, i: Intent, user: string, key: string)
    ensures Store(b, i, user, key).reply in {Staged(i), Raised}
  {
  }

  lemma CreateKeepsKeyable(b: Book, op: Op)
    requires Sound(b) && Keyable(b) && b.shelf.Some? && Lawful(b, op) && op.CreateOp?
    ensures Keyable(Apply(b, op).book)
  {
    CreateAllowed(b, op);
    hide Sound; hide Keyable; hide Apply;
    CreateStores(b, op);
  }

  lemma CreateStores(b: Book, op: Op)
    requires Keyable(b) && b.shelf.Some? && op.CreateOp? && FreshId(b, op.id) && !Apply(b, op).reply.Raised?
    ensures Keyable(Apply(b, op).book)
  {
    hide Keyable; hide Store; hide Acceptable; hide Upper; hide Lower; hide Strip; hide ForKey; hide Find;
    hide StripLineage; hide StripAll; hide OrderSymbol; hide OrderDirection;
    var out := Apply(b, op);
    if out.book != b {
      var u, made := op.user.value.id, Built(OrderDraft(op.order, op.authorization.value, op.user.value.id, op.id));
      StoreOutcome(b, made.value, u, Strip(op.order.key));
      StoreKeepsKeyable(b, made.value, u, Strip(op.order.key));
    }
  }

  lemma TransitionKeepsKeyable(b: Book, op: Op)
    requires Sound(b) && Keyable(b) && b.shelf.Some? && Lawful(b, op) && op.TransitionOp?
    ensures Keyable(Apply(b, op).book)
  {
    hide Coherent; hide Normal; hide WithState; hide Upper; hide Strip; hide Grounded; hide Covers; hide Put;
    hide DistinctIds; hide Find; hide KeyOf;
    var out := Apply(b, op);
    if out.book != b {
      var i := Get(b, op.user.value, op.target).value;
      var to := StateNamed(Upper(op.to)).value;
      var j := WithState(i, to, op.reason).value;
      TransitionMeaning(i, to, op.reason);
      LastingIdentity(i, j);
      SameTextKey(i, j);
      MoveKeepsSound(b, i, j);
      var s := b.shelf.value;
      GroundedPut(s.keys, KeyOf, s.intents, i, j);
      CoversMore(s.keys, Put(s.intents, j), KeyOf(j), j.id);
    }
  }

  lemma SameTextKey(i: Intent, j: Intent)
    requires i.user == j.user && i.key == j.key
    ensures KeyOf(i) == KeyOf(j)
  {
  }

  lemma CoversMore(keys: map<string, string>, intents: seq<Intent>, k: string, id: string)
    requires Covers(keys, KeyOf, intents)
    ensures Covers(keys[k := id], KeyOf, intents)
  {
  }

  /** Every lawful call keeps the keys those of the intents, restarts included. */
  lemma StepKeepsKeyable(b: Book, op: Op)
    requires Sound(b) && Keyable(b) && Lawful(b, op)
    ensures Keyable(Apply(b, op).book)
  {
    hide Sound; hide KeySound;
    if b.shelf.None? {
      StepKeepsKeys(b, op);
      NoShelfAppears(b, op);
    } else {
      hide Keyable;
      match op
      case CanonicalOp(_, _, _, _, _, _, _) => CanonicalKeepsKeyable(b, op);
      case CreateOp(_, _, _, _, _) => CreateKeepsKeyable(b, op);
      case TransitionOp(_, _, _, _, _) => TransitionKeepsKeyable(b, op);
      case RestartOp(numerals) => RestartKeepsKeyable(b, numerals);
    }
  }

  lemma NoShelfAppears(b: Book, op: Op)
    requires b.shelf.None?
    ensures Apply(b, op).book.shelf.None?
  {
    hide Strip; hide Upper; hide Put; hide WithState; hide ForPublication; hide ForKey; hide Built; hide Draft;
    hide OrderDraft; hide LineageComplete; hide Actionable; hide Get; hide KeyBelongsElsewhere; hide IntentContent;
    hide DraftContent;
  }

  lemma {:induction false} RunKeepsKeyable(b: Book, ops: seq<Op>, users: set<string>)
    requires Sound(b) && Keyable(b) && Of(b, users) && LawfulRun(b, ops) && AllBy(ops, users)
    ensures Keyable(Run(b, ops)) && Of(Run(b, ops), users)
  {
    hide Sound; hide Keyable; hide Lawful; hide Apply; hide Of; hide By;
    if ops != [] {
      var n := |ops| - 1;
      RunKeepsKeyable(b, ops[..n], users);
      RunKeepsSound(b, ops[..n]);
      StepKeepsKeyable(Run(b, ops[..n]), ops[n]);
      StepKeepsUsers(Run(b, ops[..n]), ops[n], users);
    }
  }

  function Given(reply: Reply): Option<Intent> {
    match reply
    case Existing(i) => Some(i)
    case Staged(i) => Some(i)
    case Moved(i) => Some(i)
    case _ => None
  }

  /** The reply to a user who is not an administrator carries no intent but his own. */
  ghost predicate OwnReply(b: Book, op: Op) {
    var caller, given := Caller(op), Given(Apply(b, op).reply);
    caller.Some? && !caller.value.admin && given.Some? ==> given.value.user == caller.value.id
  }

  /** A lawful run of a fresh service by these users, and a further lawful call by one of them. */
  ghost predicate RunBy(users: set<string>, b: Book, ops: seq<Op>, op: Op) {
    Fresh(b) && LawfulRun(b, ops) && AllBy(ops, users) && Lawful(Run(b, ops), op) && By(op, users)
  }

  /** In every run by these users, restarts included, every reply carries its caller's own intent. */
  ghost predicate Isolated(users: set<string>) {
    forall b, ops, op | RunBy(users, b, ops, op) :: OwnReply(Run(b, ops), op)
  }

  lemma FreshIsKeyable(b: Book, users: set<string>)
    requires Fresh(b)
    ensures Keyable(b) && Of(b, users)
  {
  }

  lemma ApartReply(b: Book, op: Op, users: set<string>)
    requires Sound(b) && Keyable(b) && Of(b, users) && Lawful(b, op) && By(op, users) && Apart(users)
    ensures OwnReply(b, op)
  {
    StepAllowed(b, op);
    hide Sound; hide Keyable; hide Apart; hide Of; hide Lawful; hide Apply; hide Allowed; hide ForKey; hide Strip;
    hide Answers;
    if op.CreateOp? && op.user.Some? && !Blank(op.order.key) {
      StripIsTrimmed(op.order.key);
      ApartLookup(b, users, op.user.value.id, Strip(op.order.key));
    }
    AnswerIsOwn(b, op, Apply(b, op).reply);
  }

  lemma AnswerIsOwn(b: Book, op: Op, reply: Reply)
    requires Answers(b, op, reply)
    requires op.CreateOp? && op.user.Some? && !Blank(op.order.key) ==>
      var found := ForKey(b, op.user.value.id, Strip(op.order.key));
      found.Some? ==> found.value.user == op.user.value.id
    ensures var caller, given := Caller(op), Given(reply);
      caller.Some? && !caller.value.admin && given.Some? ==> given.value.user == caller.value.id
  {
    hide ForKey; hide Strip;
  }

  lemma ApartIsIsolated(users: set<string>)
    requires Apart(users)
    ensures Isolated(users)
  {
    hide Apart; hide LawfulRun; hide Fresh; hide AllBy; hide Lawful; hide By; hide OwnReply; hide Keyable; hide Of;
    hide Sound; hide Run;
    forall b, ops, op | RunBy(users, b, ops, op)
      ensures OwnReply(Run(b, ops), op)
    {
      FreshIsSound(b);
      FreshIsKeyable(b, users);
      RunKeepsSound(b, ops);
      RunKeepsKeyable(b, ops, users);
      ApartReply(Run(b, ops), op, users);
    }
  }

  const GRANT := Authorization(true, "a", None, "buy")

  function PlainOrder(key: string): Order {
    Order(key, Some("S"), "market", None, None, 0.0)
  }

  function PlainCreate(user: string, key: string, id: string): Op {
    CreateOp(Some(User(user, false)), true, Some(GRANT), PlainOrder(key), id)
  }

  const SHELVED := Book([], map[], Some(EMPTY_SHELF))

  lemma PlainWords()
    ensures Clean("1") && Clean("2") && Clean("a") && Clean("S") && Upper(Strip("S")) == "S" && "S" != ""
    ensures Lower(Strip("buy")) == "buy" && Lower(Strip("market")) == "market"
  {
    TrimmedEnds("1"); TrimmedEnds("2"); TrimmedEnds("a"); TrimmedEnds("S"); TrimmedEnds("buy"); TrimmedEnds("market");
    assert Upper("S") == "S" && Lower("buy") == "buy" && Lower("market") == "market";
  }

  /** The intent such a creation makes. */
  lemma PlainIsBuilt(user: string, key: string)
    requires Clean(user) && Clean(key)
    ensures var made := Built(OrderDraft(PlainOrder(key), GRANT, user, "1"));
      && made.Some? && made.value.id == "1" && made.value.user == user && made.value.key == key
      && IdentityOf(made.value).None?
  {
    PlainWords();
    hide Strip; hide Upper; hide Lower;
  }

  lemma FirstIsStaged(user: string, key: string, other: string)
    requires Clean(user) && Clean(key) && Clean(other)
    ensures Lawful(SHELVED, PlainCreate(user, key, "1"))
    ensures var s := Apply(SHELVED, PlainCreate(user, key, "1")).book.shelf;
      s.Some? && |s.value.intents| == 1 && s.value.intents[0].id == "1" && s.value.intents[0].user == user
      && s.value.keys == map[Keys.Key(user, key) := "1"]
    ensures Lawful(Apply(SHELVED, PlainCreate(user, key, "1")).book, PlainCreate(other, "k", "2"))
  {
    PlainWords();
    PlainIsBuilt(user, key);
    hide Strip; hide Upper; hide Lower; hide Built; hide OrderDraft;
  }

  /** A user whose name begins with another's and a colon is answered with the other's intent: one creation by each. */
  lemma MeetingKeysLeak(u: string, v: string)
    requires Clean(u) && Clean(v) && CanMeet(u, v)
    ensures var first, again := PlainCreate(u, MeetingKey(u, v), "1"), PlainCreate(v, "k", "2");
      var b := Apply(SHELVED, first).book;
      && Lawful(SHELVED, first) && Lawful(b, again)
      && Apply(b, again).reply.Existing? && Apply(b, again).reply.intent.user == u
  {
    hide Strip; hide CanMeet; hide Lawful; hide Upper; hide Lower; hide Built; hide OrderDraft;
    KeysDoMeet(u, v);
    FirstIsStaged(u, MeetingKey(u, v), v);
  }

  /** Every reply to a user who is not an administrator carries an intent of his own, in every run by a set of users,
      exactly when no two of these users' keys can meet. */
  lemma IsolatedExactlyWhenApart(users: set<string>)
    requires forall u | u in users :: Clean(u)
    ensures Isolated(users) <==> Apart(users)
  {
    hide Isolated; hide CanMeet; hide Clean;
    if Apart(users) {
      ApartIsIsolated(users);
    } else {
      var u, v :| u in users && v in users && u != v && CanMeet(u, v);
      MetUsersAreNotIsolated(users, u, v);
    }
  }

  lemma MetUsersAreNotIsolated(users: set<string>, u: string, v: string)
    requires u in users && v in users && u != v && Clean(u) && Clean(v) && CanMeet(u, v)
    ensures !Isolated(users)
  {
    hide CanMeet; hide Clean; hide Apply; hide Lawful;
    MeetingKeysLeak(u, v);
    var first, again := PlainCreate(u, MeetingKey(u, v), "1"), PlainCreate(v, "k", "2");
    assert [first][..0] == [];
    assert Run(SHELVED, [first]) == Apply(Run(SHELVED, []), first).book;
    assert LawfulRun(SHELVED, [first]) by { assert LawfulRun(SHELVED, []); }
    assert RunBy(users, SHELVED, [first], again);
    assert !OwnReply(Run(SHELVED, [first]), again);
  }
}
