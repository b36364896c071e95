/** What a restart lifts: the check of a caller's key reads service memory only. */
module OrderRestarts {
  import opened Values
  import opened Text
  import opened OrderIntents
  import opened OrderShelf
  import opened OrderBook
  import opened OrderRuns
  import opened OrderHistories
  import opened OrderReplay
  import opened OrderIsolation
  import L = OrderLoading
  import Keys

  /** The creation that the key check refuses goes through after a restart, and a user then has two intents of one
      key. */
  lemma RestartForgetsKeys(b: Book, op: Op, holder: Intent, numerals: Numerals)
    requires Sound(b) && KeySound(b) && b.shelf.Some? && Lawful(b, op) && Asks(op) && Acceptable(DraftOf(op))
    requires holder in Intents(b) && PairOf(holder) == (op.user.value.id, DraftOf(op).key)
    requires forall i | i in Intents(b) :: IdentityOf(i) != Some((op.user.value.id, Strip(op.publication)))
    ensures Apply(b, op).reply == Refused(KeyTaken)
    ensures var reborn := Restart(b, numerals);
      var out := Apply(reborn, op);
      && out.reply.Staged? && Find(Intents(out.book), holder.id).Some?
      && PairOf(out.reply.intent) == PairOf(Find(Intents(out.book), holder.id).value)
      && out.reply.intent.id != holder.id
  {
    hide Normal; hide Coherent; hide Sound; hide KeySound; hide Draft; hide Apply; hide Strip; hide Load; hide Flushed;
    hide L.RestoredAll; hide Acceptable; hide Normalised; hide LineageComplete; hide Actionable;
    KeyIsTaken(b, op, holder);
    var reborn := Restart(b, numerals);
    RebornIsOpen(b, op, numerals);
    StagedMeaning(reborn, op);
    FindRestored(Intents(b), holder.id);
    MemberFound(b, holder);
    FindAppended(Intents(reborn), Apply(reborn, op).reply.intent, holder.id);
    DraftPair(b, op);
  }

  lemma MemberFound(b: Book, i: Intent)
    requires Sound(b) && i in Intents(b)
    ensures Find(Intents(b), i.id) == Some(i)
  {
    hide Normal; hide Coherent;
    FindOnly(Intents(b), i);
  }

  lemma DraftPair(b: Book, op: Op)
    requires Asks(op) && Lawful(b, op)
    ensures PairOf(Normalised(DraftOf(op))) == (op.user.value.id, DraftOf(op).key)
  {
    hide Upper; hide Lower; hide Strip;
    StripIsTrimmed(op.publication);
    CanonicalKeyIsTrimmed(op.key, op.user.value.id, op.resolved.value.lineage.publication.value);
  }

  lemma KeyIsTaken(b: Book, op: Op, holder: Intent)
    requires Sound(b) && KeySound(b) && Lawful(b, op) && Asks(op)
    requires holder in Intents(b) && PairOf(holder) == (op.user.value.id, DraftOf(op).key)
    requires forall i | i in Intents(b) :: IdentityOf(i) != Some((op.user.value.id, Strip(op.publication)))
    ensures Apply(b, op).reply == Refused(KeyTaken)
  {
    hide Normal; hide Coherent; hide Sound; hide Strip; hide LineageComplete; hide Actionable;
    hide Grounded; hide ForPublication; hide KeyOf; hide Upper; hide Lower; hide IntentContent; hide DraftContent;
    StripIsTrimmed(op.publication);
    ForPublicationFinds(b, op.user.value.id, Strip(op.publication));
    MemberFound(b, holder);
  }

  /** After a restart memory holds no key and the publication still has no intent, so the creation goes through. */
  lemma RebornIsOpen(b: Book, op: Op, numerals: Numerals)
    requires Sound(b) && b.shelf.Some? && Lawful(b, op) && Asks(op) && Acceptable(DraftOf(op))
    requires forall i | i in Intents(b) :: IdentityOf(i) != Some((op.user.value.id, Strip(op.publication)))
    ensures var reborn := Restart(b, numerals);
      && Sound(reborn) && Lawful(reborn, op) && Intents(reborn) == L.RestoredAll(Intents(b))
      && Apply(reborn, op).reply.Staged?
  {
    hide Sound; hide Strip; hide Acceptable; hide LineageComplete; hide Actionable; hide Draft; hide L.RestoredAll;
    hide Find; hide ForPublication; hide Normalised; hide Normal; hide Load; hide Flushed; hide Put; hide CreateFrom;
    var reborn, u, p := Restart(b, numerals), op.user.value.id, Strip(op.publication);
    RestartAllowed(b, RestartOp(numerals));
    FindRestored(Intents(b), op.id);
    NothingFound(op.id);
    StripIsTrimmed(op.publication);
    ForPublicationFinds(reborn, u, p);
    forall i | i in Intents(reborn)
      ensures IdentityOf(i) != Some((u, p))
    {
      RestoredMember(Intents(b), i);
    }
    var r := op.resolved.value;
    var key := CanonicalKey(op.key, u, r.lineage.publication.value);
    DraftNormalised(r, u, key, op.id, op.now);
    StoreKeepsSound(reborn, Normalised(DraftOf(op)), u, key);
    OpenCreation(reborn, u, r, key, op.id, op.now);
  }

  lemma NothingFound(id: string)
    ensures Find([], id).None?
  {
  }

  lemma RestoredMember(intents: seq<Intent>, j: Intent)
    requires j in L.RestoredAll(intents)
    ensures exists i :: i in intents && IdentityOf(i) == IdentityOf(j)
  {
    var n :| 0 <= n < |intents| && L.RestoredAll(intents)[n] == j;
    assert intents[n] in intents && j == Restored(intents[n]);
  }

  lemma OpenCreation(b: Book, user: string, r: Publication, key: string, id: string, now: real)
    requires Complete(r) && Acceptable(Draft(r, user, key, id, now)) && b.keys == map[]
    requires r.lineage.publication.Some? && ForPublication(b, user, r.lineage.publication.value).None?
    requires Store(b, Normalised(Draft(r, user, key, id, now)), user, key).reply.Staged?
    ensures CreateFrom(b, user, r, key, id, now).reply.Staged?
  {
    hide LineageComplete; hide Actionable; hide Acceptable; hide Draft; hide Store; hide ForPublication;
    hide Normalised;
  }

  /** Some user has two intents of one key. */
  ghost predicate RepeatsKey(intents: seq<Intent>) {
    exists i, j :: i in intents && j in intents && i != j && PairOf(i) == PairOf(j)
  }

  lemma KeySoundRepeatsNone(b: Book)
    requires Sound(b) && KeySound(b)
    ensures !RepeatsKey(Intents(b))
  {
    hide Sound; hide KeySound;
    forall i, j | i in Intents(b) && j in Intents(b) && PairOf(i) == PairOf(j)
      ensures i == j
    {
      KeyIdentifiesIntent(b, i, j);
    }
  }

  lemma RestoredRepeatsNone(intents: seq<Intent>)
    requires !RepeatsKey(intents)
    ensures !RepeatsKey(L.RestoredAll(intents))
  {
    var rows := L.RestoredAll(intents);
    forall i, j | i in rows && j in rows && PairOf(i) == PairOf(j)
      ensures i == j
    {
      var m :| 0 <= m < |rows| && rows[m] == i;
      var n :| 0 <= n < |rows| && rows[n] == j;
      assert intents[m] in intents && intents[n] in intents;
      assert PairOf(intents[m]) == PairOf(intents[n]);
    }
  }

  /** A restart loses no intent, keeps keys those of the intents, and new ids stay new. */
  lemma Reborn(b: Book, op: Op, numerals: Numerals)
    requires Sound(b) && b.shelf.Some? && Lawful(b, op) && !op.RestartOp?
    ensures var reborn := Restart(b, numerals);
      && Sound(reborn) && Keyable(reborn) && reborn.shelf.Some? && Intents(reborn) == L.RestoredAll(Intents(b))
      && Lawful(reborn, op)
  {
    hide Sound; hide Strip; hide L.RestoredAll; hide Find; hide Load; hide Flushed; hide Keyable;
    RestartAllowed(b, RestartOp(numerals));
    RestartKeepsKeyable(b, numerals);
    if !op.TransitionOp? {
      FindRestored(Intents(b), op.id);
      NothingFound(op.id);
    }
  }

  lemma AppendRepeats(intents: seq<Intent>, i: Intent)
    requires !RepeatsKey(intents) && Find(intents, i.id).None?
    ensures RepeatsKey(intents + [i]) <==> exists h :: h in intents && PairOf(h) == PairOf(i)
  {
    if h :| h in intents && PairOf(h) == PairOf(i) {
      assert h in intents + [i] && i in intents + [i];
    }
  }

  lemma MoveRepeatsNone(b: Book, op: Op)
    requires Sound(b) && !RepeatsKey(Intents(b)) && Apply(b, op).reply.Moved? && Allowed(b, op, Apply(b, op))
    ensures !RepeatsKey(Intents(Apply(b, op).book))
  {
    hide Apply; hide Normal; hide Put; hide Lasting; hide Coherent; hide DistinctIds;
    var out := Apply(b, op);
    var j := out.reply.intent;
    var i :| i in Intents(b) && j.id == i.id && Intents(out.book) == Put(Intents(b), j) && i.state.STAGED?
             && Terminal(j.state) && Normal(j) && Lasting(j) == Lasting(i);
    LastingIdentity(i, j);
    PutMembers(Intents(b), j);
    forall x, y | x in Put(Intents(b), j) && y in Put(Intents(b), j) && PairOf(x) == PairOf(y)
      ensures x == y
    {
      assert x == j || x in Intents(b);
      assert y == j || y in Intents(b);
    }
  }

  /** A staged ordinary creation found no intent of its user and key. */
  lemma CreatedPairIsNew(b: Book, op: Op)
    requires Sound(b) && Keyable(b) && b.shelf.Some? && Lawful(b, op) && op.CreateOp? && Apply(b, op).reply.Staged?
    ensures forall h | h in Intents(b) :: PairOf(h) != PairOf(Apply(b, op).reply.intent)
  {
    hide Sound; hide Keyable; hide Acceptable; hide Upper; hide Lower; hide Strip; hide ForKey; hide Put; hide Saved;
    hide Refuses; hide FreshId; hide StripLineage; hide OrderSymbol; hide OrderDirection;
    var u, key := op.user.value.id, Strip(op.order.key);
    StripIsTrimmed(op.order.key);
    TextKeyLookup(b, u, key);
    forall h | h in Intents(b)
      ensures PairOf(h) != (u, key)
    {
      assert KeyOf(h) == Keys.Key(h.user, h.key);
    }
  }

  /** What the refusal of a key means for the stored intents. */
  lemma TakenMeaning(b: Book, op: Op) returns (holder: Intent)
    requires Sound(b) && KeySound(b) && Lawful(b, op) && op.CanonicalOp? && Apply(b, op).reply == Refused(KeyTaken)
    ensures Asks(op) && holder in Intents(b) && PairOf(holder) == (op.user.value.id, DraftOf(op).key)
    ensures forall i | i in Intents(b) :: IdentityOf(i) != Some((op.user.value.id, Strip(op.publication)))
  {
    hide Sound; hide Strip; hide LineageComplete; hide Actionable; hide ForPublication; hide KeyOf; hide Upper;
    hide Lower; hide CreateFrom; hide KeySound; hide FreshId; hide KeyBelongsElsewhere;
    var u, r := op.user.value.id, op.resolved.value;
    PublicationPresent(r);
    StripIsTrimmed(op.publication);
    ForPublicationFinds(b, u, Strip(op.publication));
    TakenFrom(b, u, r, DraftOf(op).key, op.id, op.now);
    holder := Holder(b, u, DraftOf(op).key, r.lineage.publication.value);
  }

  lemma TakenFrom(b: Book, user: string, r: Publication, key: string, id: string, now: real)
    requires Complete(r) && CreateFrom(b, user, r, key, id, now).reply == Refused(KeyTaken)
    requires r.lineage.publication.Some?
    ensures ForPublication(b, user, r.lineage.publication.value).None?
    ensures KeyBelongsElsewhere(b, user, key, r.lineage.publication.value)
  {
    hide LineageComplete; hide Actionable; hide Built; hide Draft; hide Put; hide Saved; hide Refuses;
    hide ForPublication; hide KeyBelongsElsewhere; hide IntentContent; hide DraftContent;
  }

  lemma Holder(b: Book, user: string, key: string, p: string) returns (holder: Intent)
    requires KeySound(b) && KeyBelongsElsewhere(b, user, key, p)
    ensures holder in Intents(b) && PairOf(holder) == (user, key)
  {
    var k := (user, key);
    holder :| holder in b.memory && holder.id == b.keys[k] && PairOf(holder) == k;
  }

  /** After a restart, one further call can leave a user with two intents of one key, and does so exactly when it is an
      acceptable canonical creation that was refused before the restart because its key is bound to another
      publication. */
  lemma RestartRepeatsExactlyTakenKeys(b: Book, op: Op, numerals: Numerals)
    requires Sound(b) && KeySound(b) && b.shelf.Some? && Lawful(b, op) && !op.RestartOp?
    ensures RepeatsKey(Intents(Apply(Restart(b, numerals), op).book)) <==>
              Asks(op) && Acceptable(DraftOf(op)) && Apply(b, op).reply == Refused(KeyTaken)
  {
    hide Sound; hide KeySound; hide Apply; hide Lawful; hide Acceptable; hide Draft; hide Keyable; hide RepeatsKey;
    hide Complete; hide Restart; hide Find; hide L.RestoredAll;
    Reborn(b, op, numerals);
    if Asks(op) && Acceptable(DraftOf(op)) && Apply(b, op).reply == Refused(KeyTaken) {
      var holder := TakenMeaning(b, op);
      RestartForgetsKeys(b, op, holder, numerals);
      RepeatedAfterRestart(b, op, holder, numerals);
    } else {
      KeySoundRepeatsNone(b);
      RestoredRepeatsNone(Intents(b));
      NoKeyRepeated(b, op, numerals);
    }
  }

  lemma NoKeyRepeated(b: Book, op: Op, numerals: Numerals)
    requires Sound(b) && KeySound(b) && b.shelf.Some? && Lawful(b, op) && !op.RestartOp?
    requires var reborn := Restart(b, numerals);
      && Sound(reborn) && Keyable(reborn) && reborn.shelf.Some? && Intents(reborn) == L.RestoredAll(Intents(b))
      && Lawful(reborn, op) && !RepeatsKey(Intents(reborn))
    requires Asks(op) && Acceptable(DraftOf(op)) ==> Apply(b, op).reply != Refused(KeyTaken)
    ensures !RepeatsKey(Intents(Apply(Restart(b, numerals), op).book))
  {
    hide Sound; hide KeySound; hide Apply; hide Lawful; hide Acceptable; hide Draft; hide Keyable; hide RepeatsKey;
    hide Asks; hide Restart; hide Find; hide L.RestoredAll; hide PairOf; hide Normal; hide Put;
    var reborn := Restart(b, numerals);
    StepAllowed(reborn, op);
    if Apply(reborn, op).reply.Moved? {
      MoveRepeatsNone(reborn, op);
    } else if Apply(reborn, op).reply.Staged? {
      AppendRepeats(Intents(reborn), Apply(reborn, op).reply.intent);
      if op.CreateOp? {
        CreatedPairIsNew(reborn, op);
      } else {
        StagedPairIsNew(b, op, numerals);
      }
    }
  }

  lemma RepeatedAfterRestart(b: Book, op: Op, holder: Intent, numerals: Numerals)
    requires var out := Apply(Restart(b, numerals), op);
      && Sound(Restart(b, numerals)) && Lawful(Restart(b, numerals), op)
      && out.reply.Staged? && Find(Intents(out.book), holder.id).Some?
      && PairOf(out.reply.intent) == PairOf(Find(Intents(out.book), holder.id).value)
      && out.reply.intent.id != holder.id
    ensures RepeatsKey(Intents(Apply(Restart(b, numerals), op).book))
  {
    hide Apply; hide Sound; hide Lawful; hide Find;
    var out := Apply(Restart(b, numerals), op);
    StepAllowed(Restart(b, numerals), op);
    var found := Find(Intents(out.book), holder.id).value;
    assert found in Intents(out.book) && out.reply.intent in Intents(out.book);
  }

  /** A canonical creation staged after the restart, and not refused for its key before, has a key of its own. */
  lemma StagedPairIsNew(b: Book, op: Op, numerals: Numerals)
    requires Sound(b) && KeySound(b) && b.shelf.Some? && Lawful(b, op) && op.CanonicalOp?
    requires var reborn := Restart(b, numerals);
      && Sound(reborn) && Lawful(reborn, op) && Intents(reborn) == L.RestoredAll(Intents(b))
      && Apply(reborn, op).reply.Staged?
    requires Asks(op) && Acceptable(DraftOf(op)) ==> Apply(b, op).reply != Refused(KeyTaken)
    ensures var reborn := Restart(b, numerals);
      forall h | h in Intents(reborn) :: PairOf(h) != PairOf(Apply(reborn, op).reply.intent)
  {
    hide Sound; hide KeySound; hide Apply; hide Lawful; hide Acceptable; hide Draft; hide Complete; hide Restart;
    hide Normalised; hide Strip; hide FreshId;
    var reborn := Restart(b, numerals);
    StagedMeaning(reborn, op);
    DraftPair(b, op);
    forall h | h in Intents(reborn) && PairOf(h) == PairOf(Apply(reborn, op).reply.intent)
      ensures false
    {
      var n :| 0 <= n < |Intents(reborn)| && Intents(reborn)[n] == h;
      var holder := Intents(b)[n];
      assert holder in Intents(b) && PairOf(holder) == PairOf(h);
      StagedMeansOpen(b, op, numerals);
      KeyIsTaken(b, op, holder);
    }
  }

  /** A creation staged after the restart had no intent for its publication before it either. */
  lemma StagedMeansOpen(b: Book, op: Op, numerals: Numerals)
    requires var reborn := Restart(b, numerals);
      Sound(reborn) && Lawful(reborn, op) && Intents(reborn) == L.RestoredAll(Intents(b))
      && op.CanonicalOp? && Apply(reborn, op).reply.Staged?
    ensures Asks(op)
    ensures forall i | i in Intents(b) :: IdentityOf(i) != Some((op.user.value.id, Strip(op.publication)))
  {
    hide Sound; hide Apply; hide Lawful; hide Restart; hide Strip; hide Complete; hide Draft; hide Acceptable;
    hide Normalised;
    var reborn := Restart(b, numerals);
    StagedMeaning(reborn, op);
    StepAllowed(reborn, op);
    forall i | i in Intents(b)
      ensures IdentityOf(i) != Some((op.user.value.id, Strip(op.publication)))
    {
      var n :| 0 <= n < |Intents(b)| && Intents(b)[n] == i;
      var j := Intents(reborn)[n];
      assert j in Intents(reborn) && IdentityOf(j) == IdentityOf(i);
      AlreadyHeld(reborn, op, j);
    }
  }

  lemma AlreadyHeld(b: Book, op: Op, j: Intent)
    requires Sound(b) && Lawful(b, op) && Asks(op) && j in Intents(b)
    ensures IdentityOf(j) == Some((op.user.value.id, Strip(op.publication))) ==> !Apply(b, op).reply.Staged?
  {
    hide Sound; hide Apply; hide Lawful; hide Strip; hide Complete; hide Draft; hide IdentityOf;
    if IdentityOf(j) == Some((op.user.value.id, Strip(op.publication))) { ReplayAt(b, op, j); }
  }
}
