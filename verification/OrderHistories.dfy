/** What the runs of the order intent service mean for one intent, one key and one publication. */
module OrderHistories {
  import opened Values
  import opened Text
  import opened OrderIntents
  import opened OrderShelf
  import opened OrderBook
  import opened OrderRuns
  import L = OrderLoading
  import Keys

  /** How many calls of a run moved the intent with this id. */
  ghost function Moves(b: Book, ops: seq<Op>, id: string): nat {
    if ops == [] then 0
    else
      var n := |ops| - 1;
      var reply := Apply(Run(b, ops[..n]), ops[n]).reply;
      Moves(b, ops[..n], id) + (if reply.Moved? && reply.intent.id == id then 1 else 0)
  }

  /** How many moves an id has left: one until its intent leaves STAGED. */
  function MovesLeft(b: Book, id: string): nat {
    var found := Find(Intents(b), id);
    if found.None? || found.value.state.STAGED? then 1 else 0
  }

  /** An intent is still there, and has changed at most in state, reason and an empty trailing stop, and not even in
      state and reason once it has left STAGED. */
  ghost predicate Lasts(before: seq<Intent>, after: seq<Intent>, id: string) {
    var i, j := Find(before, id), Find(after, id);
    i.Some? ==>
      && j.Some? && Lasting(j.value) == Lasting(i.value)
      && (!i.value.state.STAGED? ==> j.value.state == i.value.state && j.value.reason == i.value.reason)
  }

  ghost predicate Remains(b: Book, after: Book, id: string) {
    Lasts(Intents(b), Intents(after), id)
  }

  lemma {:induction false} FindAppended(intents: seq<Intent>, i: Intent, id: string)
    ensures Find(intents + [i], id) ==
            if Find(intents, id).Some? then Find(intents, id) else if i.id == id then Some(i) else None
  {
    if intents == [] {
      assert intents + [i] == [i];
    } else {
      assert (intents + [i])[1..] == intents[1..] + [i];
      FindAppended(intents[1..], i, id);
    }
  }

  lemma {:induction false} FindRestored(intents: seq<Intent>, id: string)
    ensures var found := Find(intents, id);
      Find(L.RestoredAll(intents), id) == if found.Some? then Some(Restored(found.value)) else None
  {
    if intents != [] {
      assert L.RestoredAll(intents)[1..] == L.RestoredAll(intents[1..]);
      FindRestored(intents[1..], id);
    }
  }

  lemma MoveHistory(b: Book, op: Op, id: string)
    requires Sound(b) && Apply(b, op).reply.Moved? && Allowed(b, op, Apply(b, op))
    ensures var out := Apply(b, op);
      && (if out.reply.intent.id == id then 1 else 0) + MovesLeft(out.book, id) == MovesLeft(b, id)
      && Remains(b, out.book, id)
  {
    hide Normal; hide Find; hide Lasting; hide Coherent; hide Apply;
    var out := Apply(b, op);
    var j := out.reply.intent;
    var i :| i in Intents(b) && j.id == i.id && Intents(out.book) == Put(Intents(b), j) && i.state.STAGED?
             && Terminal(j.state) && Normal(j) && Lasting(j) == Lasting(i);
    PutFind(Intents(b), j, id);
    FindOnly(Intents(b), i);
  }

  /** One call: what it moved is what is no longer left to move, and everything else lasts. */
  lemma StepHistory(b: Book, op: Op, id: string)
    requires Sound(b) && Lawful(b, op)
    ensures var out := Apply(b, op);
      && (if out.reply.Moved? && out.reply.intent.id == id then 1 else 0) + MovesLeft(out.book, id) == MovesLeft(b, id)
      && Remains(b, out.book, id)
  {
    hide Apply; hide Lawful; hide Normal; hide Find; hide Lasting; hide Coherent; hide DistinctIds; hide Put;
    StepAllowed(b, op);
    var out := Apply(b, op);
    match out.reply
    case Existing(_) =>
    case Raised =>
    case Staged(i) => FindAppended(Intents(b), i, id);
    case Moved(j) => MoveHistory(b, op, id);
    case Refused(_) =>
      if op.RestartOp? {
        FindRestored(Intents(b), id);
        RestoredLasts(Intents(b), id);
      }
  }

  lemma RestoredLasts(intents: seq<Intent>, id: string)
    ensures var found := Find(intents, id);
      found.Some? ==> Lasting(Restored(found.value)) == Lasting(found.value)
  {
  }

  /** Over any lawful run, the moves made of an intent and the moves left add up to the moves left at the start: an
      intent is STAGED until its one transition and keeps its state and reason ever after. */
  lemma {:induction false} MovesAreConserved(b: Book, ops: seq<Op>, id: string)
    requires Sound(b) && LawfulRun(b, ops)
    ensures Moves(b, ops, id) + MovesLeft(Run(b, ops), id) == MovesLeft(b, id)
    ensures Remains(b, Run(b, ops), id)
  {
    hide Sound; hide Lawful; hide Apply; hide Lasting; hide Find;
    if ops != [] {
      var n := |ops| - 1;
      MovesAreConserved(b, ops[..n], id);
      RunKeepsSound(b, ops[..n]);
      StepHistory(Run(b, ops[..n]), ops[n], id);
    }
  }

  /** Every intent's key is in the map. */
  ghost predicate Covers<K>(keys: map<K, string>, keyOf: Intent -> K, intents: seq<Intent>) {
    forall i | i in intents :: keyOf(i) in keys
  }

  /** Every entry of the map is some intent's key and id. */
  ghost predicate Grounded<K>(keys: map<K, string>, keyOf: Intent -> K, intents: seq<Intent>) {
    forall k | k in keys :: exists i :: i in intents && i.id == keys[k] && keyOf(i) == k
  }

  function PairOf(i: Intent): (string, string) {
    (i.user, i.key)
  }

  /** Memory and repository hold the same intents, and the map by key is exactly the intents' own keys; the
      repository's map by text key covers its intents and holds nothing else. */
  ghost predicate KeySound(b: Book) {
    && b.memory == Intents(b)
    && Covers(b.keys, PairOf, b.memory) && Grounded(b.keys, PairOf, b.memory)
    && (forall i | i in b.memory :: b.keys[PairOf(i)] == i.id)
    && (b.shelf.Some? ==>
          Covers(b.shelf.value.keys, KeyOf, b.memory) && Grounded(b.shelf.value.keys, KeyOf, b.memory))
  }

  /** A user and a key identify one intent. */
  lemma KeyIdentifiesIntent(b: Book, i: Intent, j: Intent)
    requires Sound(b) && KeySound(b) && i in Intents(b) && j in Intents(b)
    requires i.user == j.user && i.key == j.key
    ensures i == j
  {
    hide Normal; hide Coherent; hide Grounded;
    FindOnly(b.memory, i);
    FindOnly(b.memory, j);
  }

  lemma GroundedGrows<K>(keys: map<K, string>, keyOf: Intent -> K, intents: seq<Intent>, i: Intent)
    requires Grounded(keys, keyOf, intents) && Covers(keys, keyOf, intents)
    ensures Grounded(keys[keyOf(i) := i.id], keyOf, intents + [i])
    ensures Covers(keys[keyOf(i) := i.id], keyOf, intents + [i])
  {
    var grown := keys[keyOf(i) := i.id];
    forall k | k in grown
      ensures exists j :: j in intents + [i] && j.id == grown[k] && keyOf(j) == k
    {
      if k == keyOf(i) {
        assert i in intents + [i];
      } else {
        var j :| j in intents && j.id == keys[k] && keyOf(j) == k;
        assert j in intents + [i];
      }
    }
  }

  /** Replacing an intent by one of the same id and key. */
  lemma GroundedPut<K>(keys: map<K, string>, keyOf: Intent -> K, intents: seq<Intent>, i: Intent, j: Intent)
    requires Grounded(keys, keyOf, intents) && Covers(keys, keyOf, intents) && DistinctIds(intents)
    requires i in intents && j.id == i.id && keyOf(j) == keyOf(i)
    ensures Grounded(keys, keyOf, Put(intents, j)) && Covers(keys, keyOf, Put(intents, j))
    ensures Grounded(keys[keyOf(j) := j.id], keyOf, Put(intents, j))
  {
    hide Put; hide DistinctIds;
    PutMembers(intents, j);
    forall k | k in keys
      ensures exists x :: x in Put(intents, j) && x.id == keys[k] && keyOf(x) == k
    {
      var x :| x in intents && x.id == keys[k] && keyOf(x) == k;
      if x.id == j.id {
        FindOnly(intents, i);
        FindOnly(intents, x);
        assert j in Put(intents, j);
      }
    }
  }

  /** Storing an intent under a user and key no intent has keeps the keys exact. */
  lemma StoreKeepsKeys(b: Book, i: Intent)
    requires Sound(b) && KeySound(b) && Normal(i) && Find(Intents(b), i.id).None?
    requires forall j | j in Intents(b) && IdentityOf(j).Some? :: IdentityOf(j) != IdentityOf(i)
    requires forall j | j in Intents(b) :: PairOf(j) != PairOf(i)
    ensures KeySound(Store(b, i, i.user, i.key).book)
  {
    StoreKeepsSound(b, i, i.user, i.key);
    PutNew(b.memory, i);
    hide Normal; hide Sound; hide Find; hide Put; hide Covers; hide Grounded; hide IdentityOf; hide KeyOf;
    GroundedGrows(b.keys, PairOf, b.memory, i);
    if b.shelf.Some? { GroundedGrows(b.shelf.value.keys, KeyOf, b.memory, i); }
    AllInMap(b.keys, b.memory, i);
  }

  lemma AllInMap(keys: map<(string, string), string>, intents: seq<Intent>, i: Intent)
    requires Covers(keys, PairOf, intents)
    requires forall j | j in intents :: keys[PairOf(j)] == j.id && PairOf(j) != PairOf(i)
    ensures forall j | j in intents + [i] ::
      PairOf(j) in keys[PairOf(i) := i.id] && keys[PairOf(i) := i.id][PairOf(j)] == j.id
  {
  }

  /** A key the lookup does not find belongs to no intent of the user. */
  lemma KeyNotFound(b: Book, user: string, key: string, i: Intent)
    requires Sound(b) && KeySound(b) && i in Intents(b) && PairOf(i) == (user, key)
    ensures ForKey(b, user, key).Some?
  {
    hide Normal; hide Coherent;
    FindOnly(b.memory, i);
    if b.shelf.Some? {
      var k := KeyOf(i);
      var j :| j in b.memory && j.id == b.shelf.value.keys[k] && KeyOf(j) == k;
      FindOnly(b.memory, j);
    }
  }

  /** When the publication has no intent and the key check passes, the key belongs to no intent of the user. */
  lemma KeyIsFree(b: Book, user: string, key: string, p: string, i: Intent)
    requires Sound(b) && KeySound(b) && Trimmed(user) && user != "" && Trimmed(p) && p != ""
    requires ForPublication(b, user, p).None? && !KeyBelongsElsewhere(b, user, key, p) && i in Intents(b)
    ensures PairOf(i) != (user, key)
  {
    hide Normal; hide Coherent;
    ForPublicationFinds(b, user, p);
    FindOnly(b.memory, i);
  }

  /** The key of a canonical intent needs no stripping. */
  lemma CanonicalKeyIsTrimmed(key: Option<string>, user: string, p: string)
    requires Trimmed(p) && p != ""
    ensures Trimmed(CanonicalKey(key, user, p))
  {
    if Present(key) {
      StripIsTrimmed(key.value);
    } else {
      TrimmedEnds(p);
      var k := CanonicalKey(key, user, p);
      assert k[0] == 'i' && k[|k| - 1] == p[|p| - 1];
      TrimmedEnds(k);
    }
  }

  /** Every lawful call but a restart keeps the keys exact. */
  lemma StepKeepsKeys(b: Book, op: Op)
    requires Sound(b) && KeySound(b) && Lawful(b, op) && !op.RestartOp?
    ensures KeySound(Apply(b, op).book)
  {
    StepAllowed(b, op);
    hide Sound; hide KeySound;
    match op
    case CanonicalOp(_, _, _, _, _, _, _) => CanonicalKeepsKeys(b, op);
    case CreateOp(_, _, _, _, _) => CreateKeepsKeys(b, op);
    case TransitionOp(_, _, _, _, _) => TransitionKeepsKeys(b, op);
    case RestartOp(_) =>
  }

  lemma CreateKeepsKeys(b: Book, op: Op)
    requires Sound(b) && KeySound(b) && Lawful(b, op) && op.CreateOp?
    ensures KeySound(Apply(b, op).book)
  {
    hide Sound; hide KeySound; hide Normalised; hide Acceptable; hide Upper; hide Lower; hide Strip; hide Put;
    hide Saved; hide Refuses; hide ForKey; hide Normal;
    var out := Apply(b, op);
    if out.book != b {
      var u, key := op.user.value.id, Strip(op.order.key);
      OrderNormalised(op.order, op.authorization.value, u, op.id);
      forall i | i in Intents(b) && PairOf(i) == (u, key)
        ensures false
      {
        KeyNotFound(b, u, key, i);
      }
      StoreKeepsKeys(b, Normalised(OrderDraft(op.order, op.authorization.value, u, op.id)));
    }
  }

  lemma CanonicalKeepsKeys(b: Book, op: Op)
    requires Sound(b) && KeySound(b) && Lawful(b, op) && op.CanonicalOp?
    ensures KeySound(Apply(b, op).book)
  {
    hide Sound; hide KeySound; hide CreateFrom; hide LineageComplete; hide Strip; hide Actionable; hide FreshId;
    if op.user.Some? && op.authorized && !Blank(op.publication) && op.resolved.Some? {
      var u, r := op.user.value.id, op.resolved.value;
      StripIsTrimmed(op.publication);
      if LineageComplete(LineageOf(r)) && Present(r.symbol) && Actionable(r) {
        PublicationPresent(r);
        CanonicalKeyIsTrimmed(op.key, u, r.lineage.publication.value);
        CreateFromKeepsKeys(b, u, r, CanonicalKey(op.key, u, r.lineage.publication.value), op.id, op.now);
      }
    }
  }

  lemma CreateFromKeepsKeys(b: Book, user: string, r: Publication, key: string, id: string, now: real)
    requires Sound(b) && KeySound(b) && FreshId(b, id) && Trimmed(user) && user != "" && Trimmed(key)
    requires LineageComplete(LineageOf(r)) && Present(r.symbol) && Actionable(r)
    requires Present(r.lineage.publication) && Trimmed(r.lineage.publication.value)
    ensures KeySound(CreateFrom(b, user, r, key, id, now).book)
  {
    hide Sound; hide KeySound; hide IntentContent; hide DraftContent; hide Normalised; hide Acceptable; hide Normal;
    hide Store; hide ForPublication; hide KeyBelongsElsewhere; hide Upper; hide Lower; hide Find; hide Strip;
    var p, draft := r.lineage.publication.value, Draft(r, user, key, id, now);
    if ForPublication(b, user, p).None? && !KeyBelongsElsewhere(b, user, key, p) && Built(draft).Some? {
      ForPublicationFinds(b, user, p);
      DraftNormalised(r, user, key, id, now);
      forall i | i in Intents(b)
        ensures PairOf(i) != (user, key)
      {
        KeyIsFree(b, user, key, p, i);
      }
      StoreKeepsKeys(b, Normalised(draft));
    }
  }

  lemma TransitionKeepsKeys(b: Book, op: Op)
    requires Sound(b) && KeySound(b) && Lawful(b, op) && op.TransitionOp?
    ensures KeySound(Apply(b, op).book)
  {
    hide Coherent; hide Normal; hide WithState; hide Upper; hide Strip; hide Grounded; hide Covers; hide Put;
    hide DistinctIds; hide Find;
    var out := Apply(b, op);
    if out.book != b {
      var i := Get(b, op.user.value, op.target).value;
      var to := StateNamed(Upper(op.to)).value;
      var j := WithState(i, to, op.reason).value;
      TransitionMeaning(i, to, op.reason);
      LastingIdentity(i, j);
      MoveKeepsSound(b, i, j);
      MoveKeepsKeys(b, i, j);
    }
  }

  lemma MoveKeepsKeys(b: Book, i: Intent, j: Intent)
    requires Sound(b) && KeySound(b) && i in Intents(b) && j.id == i.id && j.user == i.user && j.key == i.key
    ensures var kept := b.(memory := Put(b.memory, j));
      KeySound(if b.shelf.Some? then kept.(shelf := Some(Saved(b.shelf.value, j))) else kept)
  {
    hide Coherent; hide Normal; hide Put; hide Grounded;
    GroundedPut(b.keys, PairOf, b.memory, i, j);
    if b.shelf.Some? { GroundedPut(b.shelf.value.keys, KeyOf, b.memory, i, j); }
    PutMembers(b.memory, j);
    forall x | x in Put(b.memory, j)
      ensures b.keys[PairOf(x)] == x.id
    {
      assert x == j || x in b.memory;
    }
  }

  ghost predicate NoRestart(ops: seq<Op>) {
    forall n | 0 <= n < |ops| :: !ops[n].RestartOp?
  }

  /** In every lawful run of a fresh service without a restart, a user and a key identify exactly one intent, and memory
      and repository agree. */
  lemma {:induction false} RunKeepsKeys(b: Book, ops: seq<Op>)
    requires Sound(b) && KeySound(b) && LawfulRun(b, ops) && NoRestart(ops)
    ensures KeySound(Run(b, ops))
  {
    hide Sound; hide KeySound; hide Lawful; hide Apply;
    if ops != [] {
      var n := |ops| - 1;
      RunKeepsKeys(b, ops[..n]);
      RunKeepsSound(b, ops[..n]);
      StepKeepsKeys(Run(b, ops[..n]), ops[n]);
    }
  }

  lemma FreshIsKeySound(b: Book)
    requires Fresh(b)
    ensures KeySound(b)
  {
  }
}
