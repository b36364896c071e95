/** Replays of canonical creation, keys across users and restarts, and reloading a reachable repository. */
module OrderReplay {
  import opened Values
  import opened Text
  import opened OrderIntents
  import opened OrderShelf
  import opened OrderBook
  import opened OrderRuns
  import opened OrderHistories
  import L = OrderLoading
  import Keys

  /** The record passes the checks that come before any stored intent is looked at. */
  predicate Complete(r: Publication) {
    LineageComplete(LineageOf(r)) && Present(r.symbol) && Actionable(r)
  }

  /** A canonical creation that reaches the comparison with stored intents. */
  predicate Asks(op: Op) {
    && op.CanonicalOp? && op.user.Some? && op.authorized && !Blank(op.publication)
    && op.resolved.Some? && Complete(op.resolved.value) && op.resolved.value.lineage.publication.Some?
  }

  function DraftOf(op: Op): Intent
    requires Asks(op)
  {
    var u, r := op.user.value.id, op.resolved.value;
    Draft(r, u, CanonicalKey(op.key, u, r.lineage.publication.value), op.id, op.now)
  }

  /** The key a canonical creation asks for: the caller's, stripped, or one made of its user and publication. */
  function KeyAsked(op: Op): string
    requires Asks(op)
  {
    if op.key.Some? && !Blank(op.key.value) then Strip(op.key.value)
    else "idemp_pub_" + op.user.value.id + "_" + op.resolved.value.lineage.publication.value
  }

  lemma LastingContent(i: Intent, j: Intent)
    requires Lasting(i) == Lasting(j)
    ensures IntentContent(i) == IntentContent(j)
  {
    hide CanonicalTrailing;
    assert i.lineage == Lasting(i).lineage && j.lineage == Lasting(j).lineage;
    assert i.symbol == Lasting(i).symbol && j.symbol == Lasting(j).symbol;
    assert i.direction == Lasting(i).direction && j.direction == Lasting(j).direction;
    assert i.terms == Lasting(i).terms && j.terms == Lasting(j).terms;
    assert i.invalidation == Lasting(i).invalidation && j.invalidation == Lasting(j).invalidation;
    assert NonEmpty(i.trailingStop) == Lasting(i).trailingStop && NonEmpty(j.trailingStop) == Lasting(j).trailingStop;
  }

  /** What a successful first creation leaves. */
  lemma StagedMeaning(b: Book, first: Op)
    requires Sound(b) && Lawful(b, first) && first.CanonicalOp? && Apply(b, first).reply.Staged?
    ensures var out := Apply(b, first);
      && Asks(first) && Acceptable(DraftOf(first)) && out.reply.intent == Normalised(DraftOf(first))
      && Intents(out.book) == Intents(b) + [out.reply.intent] && out.reply.intent.id == first.id
      && Find(Intents(b), first.id).None?
      && IdentityOf(out.reply.intent) == Some((first.user.value.id, Strip(first.publication)))
  {
    hide Sound; hide LineageComplete; hide Strip; hide Actionable; hide Normalised; hide Acceptable; hide Draft;
    hide Find; hide CreateFrom; hide Normal;
    StepAllowed(b, first);
    var u, r := first.user.value.id, first.resolved.value;
    PublicationPresent(r);
    StripIsTrimmed(first.publication);
    var key := CanonicalKey(first.key, u, r.lineage.publication.value);
    StagedFromDraft(b, u, r, key, first.id, first.now);
    DraftNormalised(r, u, key, first.id, first.now);
  }

  /** The trade of the record: prices, quantity, symbol, direction, time and trailing stop, and no authorization. */
  ghost predicate CarriesTrade(i: Intent, r: Publication, now: real) {
    && i.terms.price == r.price && i.terms.stopLoss == r.stopLoss && i.terms.takeProfit1 == r.takeProfit1
    && i.terms.takeProfit2 == r.takeProfit2 && i.terms.takeProfit3 == r.takeProfit3
    && i.terms.quantity == (if r.requestedQuantity.Some? then r.requestedQuantity.value else r.quantity)
    && i.authorization.None? && i.timeInForce.None? && i.reason.None? && i.orderType == "market" && i.state == STAGED
    && r.symbol.Some? && i.symbol == Upper(Strip(r.symbol.value)) && i.direction in ["buy", "sell"]
    && (if r.signalType.Some? && r.signalType.value != "" then i.direction == Lower(Strip(r.signalType.value))
        else r.direction.Some? && i.direction == Lower(Strip(r.direction.value)))
    && i.created == (if r.timestamp.Some? && r.timestamp.value != 0.0 then r.timestamp.value else now)
    && i.trailingStop == (if r.trailingStop.Some? && r.trailingStop.value.Dict? then Some(r.trailingStop.value.entries)
                          else None)
  }

  /** Its lineage and its condition of invalidation, stripped. */
  predicate CarriesLineage(i: Intent, r: Publication) {
    && i.lineage.publication == StripAll(r.lineage.publication) && i.lineage.signal == StripAll(r.lineage.signal)
    && i.lineage.decision == StripAll(r.lineage.decision) && i.lineage.fingerprint == StripAll(r.lineage.fingerprint)
    && i.lineage.candidate == StripAll(r.lineage.candidate) && i.lineage.evidence == StripAll(r.lineage.evidence)
    && i.lineage.strategy == StripAll(if r.lineage.strategy.Some? && r.lineage.strategy.value != ""
                                      then r.lineage.strategy else r.strategyName)
    && i.lineage.researchFingerprint == StripAll(r.lineage.researchFingerprint)
    && i.lineage.runtimeFingerprint == StripAll(r.lineage.runtimeFingerprint)
    && i.lineage.strategyVersion == StripAll(r.lineage.strategyVersion)
    && i.invalidation == StripAll(r.invalidation)
  }

  /** A canonical intent carries the record's trade values and lineage, unchanged but for stripping and case, and no
      authorization: it can never become a command. */
  lemma CanonicalIntentCarriesTheRecord(b: Book, first: Op)
    requires Sound(b) && Lawful(b, first) && first.CanonicalOp? && Apply(b, first).reply.Staged?
    ensures Asks(first)
    ensures var i, r := Apply(b, first).reply.intent, first.resolved.value;
      && i.id == first.id && i.user == first.user.value.id && i.key == KeyAsked(first)
      && i.lineage.publication == Some(Strip(first.publication))
      && CarriesTrade(i, r, first.now) && CarriesLineage(i, r)
  {
    StagedMeaning(b, first);
    hide Apply; hide Sound; hide Acceptable; hide Find; hide LineageComplete; hide CarriesTrade; hide CarriesLineage;
    hide Upper; hide Lower; hide Strip; hide Normalised; hide Draft;
    StripIsTrimmed(first.publication);
    DraftTrade(first);
    DraftLineage(first);
    DraftKey(first);
  }

  lemma DraftTrade(op: Op)
    requires Asks(op)
    ensures CarriesTrade(Normalised(DraftOf(op)), op.resolved.value, op.now)
  {
    hide LineageComplete; hide CanonicalKey; hide StripLineage;
    DraftIsClean(op);
    MarketIsMarket();
    hide Upper; hide Lower; hide Strip;
  }

  lemma DraftLineage(op: Op)
    requires Asks(op)
    ensures CarriesLineage(Normalised(DraftOf(op)), op.resolved.value)
  {
    hide LineageComplete; hide Actionable; hide Upper; hide Lower; hide Strip; hide CanonicalKey; hide StripAll;
  }

  lemma DraftKey(op: Op)
    requires Asks(op) && Trimmed(op.resolved.value.lineage.publication.value) && (op.user.Some? ==> Named(op.user))
    ensures DraftOf(op).key == KeyAsked(op)
    ensures var i := Normalised(DraftOf(op)); i.key == KeyAsked(op) && i.user == op.user.value.id
  {
    var p := op.resolved.value.lineage.publication.value;
    PublicationPresent(op.resolved.value);
    CanonicalKeyIsTrimmed(op.key, op.user.value.id, p);
    hide Strip; hide LineageComplete; hide Actionable; hide Upper; hide Lower; hide StripLineage;
  }

  lemma MarketIsMarket()
    ensures Lower(Strip("market")) == "market"
  {
    TrimmedEnds("market");
    assert Lower("market") == "market";
  }

  lemma StagedFromDraft(b: Book, user: string, r: Publication, key: string, id: string, now: real)
    requires Complete(r) && CreateFrom(b, user, r, key, id, now).reply.Staged?
    ensures Acceptable(Draft(r, user, key, id, now))
    ensures CreateFrom(b, user, r, key, id, now).reply.intent == Normalised(Draft(r, user, key, id, now))
  {
    hide LineageComplete; hide Actionable; hide Normalised; hide Acceptable; hide Put; hide Saved; hide Refuses;
    hide ForPublication; hide KeyBelongsElsewhere; hide IntentContent; hide DraftContent; hide Draft;
  }

  /** After any lawful run, restarts and transitions included, asking again for the publication gives the same intent or
      an integrity conflict, by the twenty authoritative fields alone, and creates nothing. */
  lemma ReplayAfterRun(b: Book, first: Op, ops: seq<Op>, again: Op)
    requires Sound(b) && Lawful(b, first) && first.CanonicalOp? && Apply(b, first).reply.Staged?
    requires LawfulRun(Apply(b, first).book, ops) && Lawful(Run(Apply(b, first).book, ops), again)
    requires Asks(again) && again.user == first.user && Strip(again.publication) == Strip(first.publication)
    ensures var later, i := Run(Apply(b, first).book, ops), Apply(b, first).reply.intent;
      var out, found := Apply(later, again), Find(Intents(later), i.id);
      && out.book == later && found.Some? && Lasting(found.value) == Lasting(i)
      && out.reply == if IntentContent(i) == DraftContent(DraftOf(again)) then Existing(found.value)
                      else Refused(IntegrityConflict)
  {
    StagedMeaning(b, first);
    StepAllowed(b, first);
    hide Apply; hide Sound; hide Lawful; hide Find; hide IntentContent; hide DraftContent; hide Lasting; hide Draft;
    hide Strip; hide LineageComplete; hide Actionable; hide Run; hide Acceptable; hide Normalised;
    var start, i := Apply(b, first).book, Apply(b, first).reply.intent;
    var later := Run(start, ops);
    MovesAreConserved(start, ops, i.id);
    RunKeepsSound(start, ops);
    FindAppended(Intents(b), i, i.id);
    var j := Find(Intents(later), i.id).value;
    LastingIdentity(i, j);
    LastingContent(i, j);
    ReplayAt(later, again, j);
  }

  lemma ReplayAt(b: Book, again: Op, j: Intent)
    requires Sound(b) && Lawful(b, again) && Asks(again) && j in Intents(b)
    requires IdentityOf(j) == Some((again.user.value.id, Strip(again.publication)))
    ensures Apply(b, again).book == b
    ensures Apply(b, again).reply == if IntentContent(j) == DraftContent(DraftOf(again)) then Existing(j)
                                     else Refused(IntegrityConflict)
  {
    hide Sound; hide IntentContent; hide DraftContent; hide Draft; hide Strip; hide LineageComplete; hide Actionable;
    hide Store; hide ForPublication; hide FreshId;
    StripIsTrimmed(again.publication);
    ForPublicationFinds(b, again.user.value.id, Strip(again.publication));
  }

  lemma DraftIsClean(op: Op)
    requires Asks(op)
    ensures var d := DraftOf(op); Upper(Strip(d.symbol)) == d.symbol && Lower(Strip(d.direction)) == d.direction
  {
    hide Strip; hide Upper; hide Lower;
    UpperStripTwice(op.resolved.value.symbol.value);
    LowerStripTwice(DirectionOf(op.resolved.value).value);
  }

  /** The content of a draft does not depend on the key, the id or the clock. */
  lemma DraftContentOfRecord(first: Op, again: Op)
    requires Asks(first) && Asks(again) && again.resolved == first.resolved
    ensures DraftContent(DraftOf(again)) == DraftContent(DraftOf(first))
  {
  }

  /** Repeating a creation from a record of the same content returns the same intent, however often it was moved or
      reloaded in between, exactly when the record is steady; otherwise it is taken for a conflict. */
  lemma SameContentReplays(b: Book, first: Op, ops: seq<Op>, again: Op)
    requires Sound(b) && Lawful(b, first) && first.CanonicalOp? && Apply(b, first).reply.Staged?
    requires LawfulRun(Apply(b, first).book, ops) && Lawful(Run(Apply(b, first).book, ops), again)
    requires Asks(again) && again.user == first.user && Strip(again.publication) == Strip(first.publication)
    requires Asks(first) && DraftContent(DraftOf(again)) == DraftContent(DraftOf(first))
    ensures var later := Run(Apply(b, first).book, ops);
      var out := Apply(later, again);
      && out.book == later
      && (out.reply.Existing? <==> Steady(DraftOf(first)))
      && (out.reply.Existing? ==> out.reply.intent.id == first.id)
      && (!out.reply.Existing? ==> out.reply == Refused(IntegrityConflict))
  {
    ReplayAfterRun(b, first, ops, again);
    StagedMeaning(b, first);
    hide Apply; hide Sound; hide Lawful; hide Run; hide LawfulRun; hide IntentContent; hide DraftContent; hide Steady;
    hide Strip; hide Acceptable; hide Normalised;
    DraftIsClean(first);
    ReplayRecognises(DraftOf(first), Apply(b, first).reply.intent);
  }

  /** So it is for an unchanged record. */
  lemma UnchangedRecordReplays(b: Book, first: Op, ops: seq<Op>, again: Op)
    requires Sound(b) && Lawful(b, first) && first.CanonicalOp? && Apply(b, first).reply.Staged?
    requires LawfulRun(Apply(b, first).book, ops) && Lawful(Run(Apply(b, first).book, ops), again)
    requires Asks(again) && again.user == first.user && Strip(again.publication) == Strip(first.publication)
    requires again.resolved == first.resolved
    ensures Asks(first)
    ensures var later := Run(Apply(b, first).book, ops);
      var out := Apply(later, again);
      && out.book == later
      && (out.reply.Existing? <==> Steady(DraftOf(first)))
      && (out.reply.Existing? ==> out.reply.intent.id == first.id)
      && (!out.reply.Existing? ==> out.reply == Refused(IntegrityConflict))
  {
    StagedMeaning(b, first);
    hide Apply; hide Sound; hide Lawful; hide Run; hide LawfulRun; hide DraftContent; hide Steady; hide Strip;
    hide Acceptable; hide Normalised;
    DraftContentOfRecord(first, again);
    SameContentReplays(b, first, ops, again);
  }

  /** Once a steady record has its intent, a record of the publication gets that intent exactly when it agrees on every
      authoritative field, and a conflict otherwise. */
  lemma ChangedRecordConflicts(b: Book, first: Op, ops: seq<Op>, again: Op)
    requires Sound(b) && Lawful(b, first) && first.CanonicalOp? && Apply(b, first).reply.Staged?
    requires LawfulRun(Apply(b, first).book, ops) && Lawful(Run(Apply(b, first).book, ops), again)
    requires Asks(again) && again.user == first.user && Strip(again.publication) == Strip(first.publication)
    requires Asks(first) && Steady(DraftOf(first))
    ensures var later := Run(Apply(b, first).book, ops);
      var out := Apply(later, again);
      && out.book == later
      && (out.reply.Existing? <==> DraftContent(DraftOf(again)) == DraftContent(DraftOf(first)))
      && (!out.reply.Existing? ==> out.reply == Refused(IntegrityConflict))
  {
    ReplayAfterRun(b, first, ops, again);
    StagedMeaning(b, first);
    hide Apply; hide Sound; hide Lawful; hide Run; hide LawfulRun; hide IntentContent; hide DraftContent; hide Steady;
    hide Strip; hide Acceptable; hide Normalised;
    DraftIsClean(first);
    ReplayRecognises(DraftOf(first), Apply(b, first).reply.intent);
  }

  /** In every state reached by a fresh service, the repository's file loads back to the same intents and the same map
      by publication, with no identity ambiguous. */
  lemma ReachableShelfReloads(b: Book, ops: seq<Op>, numerals: Numerals)
    requires Fresh(b) && b.shelf.Some? && LawfulRun(b, ops) && Run(b, ops).shelf.Some?
    ensures var s := Run(b, ops).shelf.value;
      var r := Load(Flushed(s), numerals);
      && r.intents == L.RestoredAll(s.intents) && r.publications == s.publications && r.ambiguous == {}
      && (forall user, p | Trimmed(user) && Trimmed(p) && user != "" && p != "" ::
            var before, after := ByPublication(s, user, p), ByPublication(r, user, p);
            after == if before.Some? then Some(Restored(before.value)) else None)
  {
    hide Run; hide LawfulRun; hide Load; hide Flushed; hide L.RestoredAll; hide Coherent; hide ByPublication;
    hide DistinctIds;
    FreshIsSound(b);
    RunKeepsSound(b, ops);
    var s := Run(b, ops).shelf.value;
    L.FlushLoadRestores(s, numerals);
    L.CoherentParts(s);
    forall user, p | Trimmed(user) && Trimmed(p) && user != "" && p != ""
      ensures var before, after := ByPublication(s, user, p), ByPublication(Load(Flushed(s), numerals), user, p);
        after == if before.Some? then Some(Restored(before.value)) else None
    {
      LookupRestored(s, Load(Flushed(s), numerals), user, p);
    }
  }

  lemma LookupRestored(s: Shelf, r: Shelf, user: string, p: string)
    requires r.intents == L.RestoredAll(s.intents) && r.publications == s.publications
    requires s.ambiguous == r.ambiguous == {}
    ensures var before, after := ByPublication(s, user, p), ByPublication(r, user, p);
      after == if before.Some? then Some(Restored(before.value)) else None
  {
    hide L.RestoredAll; hide Find; hide Restored; hide Strip;
    var k := (Strip(user), Strip(p));
    if k in s.publications { FindRestored(s.intents, s.publications[k]); }
  }
}
