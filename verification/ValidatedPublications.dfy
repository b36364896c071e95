/** Publications that came through the contract boundary: they are always steady, so their creation is always
    recognised. */
module ValidatedPublications {
  import opened Values
  import opened Text
  import opened Sanitizer
  import opened Project1Records
  import opened Project1Store
  import opened OrderIntents
  import opened PublicationToOrder
  import K = Project1Contract
  import N = Project1NormalForm
  import B = OrderBook
  import O = OrderRuns
  import R = OrderReplay
  import C = CanonicalForm

  /** The texts of a record that an intent's identity and content are made of. */
  predicate ReadText(f: Field) {
    || f.PublicationId? || f.SignalId? || f.DecisionId? || f.CanonicalLiveDecisionFingerprint? || f.CandidateId?
    || f.ResearchEvidenceId? || f.StrategyId? || f.ResearchFingerprint? || f.RuntimeAuthorizationFingerprint?
    || f.StrategyVersion? || f.StrategyName? || f.InvalidationCondition?
  }

  /** The record carries, in these texts and its trailing stop, what the validator made of some payload. */
  ghost predicate Made(rec: Record, raw: Record, host: K.Host) {
    forall f | ReadText(f) || f.TrailingStop? :: Get(rec, f) == Get(K.Canonical(raw, host), f)
  }

  /** Sanitising leaves these texts alone. */
  ghost predicate Harmless(rec: Record, filter: string -> string) {
    forall f | ReadText(f) && Get(rec, f).Str? :: filter(Get(rec, f).s) == Get(rec, f).s
  }

  /** The validator strips every one of these texts. */
  lemma CanonicalTextIsTrimmed(raw: Record, host: K.Host, f: Field)
    requires ReadText(f)
    ensures var j := Get(K.Canonical(raw, host), f); j.Str? ==> Trimmed(j.s)
  {
    hide K.Canonical; hide K.LineageOf; hide K.DetailOf; hide Strip;
    if f.StrategyId? {
      N.CanonicalIsFlat(raw, host);
    } else if K.GroupOf(f).LineageGroup? {
      N.InLineage(raw, host, f);
      StripIsTrimmed(K.Spell(K.LineageOf(raw, f), host));
    } else {
      N.InDetail(raw, host, f);
      StripIsTrimmed(K.Spell(K.DetailOf(raw, host, f), host));
    }
  }

  /** A validated trailing stop is absent or has entries. */
  lemma CanonicalTrailing(raw: Record, host: K.Host)
    ensures var j := Get(K.Canonical(raw, host), TrailingStop); j.Null? || (j.Obj? && "distance" in j.entries)
  {
    hide K.Canonical; hide K.TrailingOf; hide K.Slot;
    N.InObjects(raw, host, TrailingStop);
    assert "distance" in K.TRAILING_KEYS;
  }

  /** What creation is given for such a record is stripped. */
  lemma PresentedIsTrimmed(rec: Record, filter: string -> string, raw: Record, host: K.Host, f: Field)
    requires Made(rec, raw, host) && Harmless(rec, filter) && ReadText(f)
    ensures StripAll(FilteredText(rec, f, filter)) == FilteredText(rec, f, filter)
  {
    hide K.Canonical;
    CanonicalTextIsTrimmed(raw, host, f);
  }

  lemma PresentedLineage(rec: Record, r: B.Publication, filter: string -> string, raw: Record, host: K.Host)
    requires Made(rec, raw, host) && Harmless(rec, filter) && Presents(rec, r, filter)
    ensures StripLineage(B.LineageOf(r)) == B.LineageOf(r) && StripAll(r.invalidation) == r.invalidation
  {
    hide Made; hide Harmless; hide StripAll; hide FilteredText; hide Spells;
    PresentedIsTrimmed(rec, filter, raw, host, PublicationId);
    PresentedIsTrimmed(rec, filter, raw, host, SignalId);
    PresentedIsTrimmed(rec, filter, raw, host, DecisionId);
    PresentedIsTrimmed(rec, filter, raw, host, CanonicalLiveDecisionFingerprint);
    PresentedIsTrimmed(rec, filter, raw, host, CandidateId);
    PresentedIsTrimmed(rec, filter, raw, host, ResearchEvidenceId);
    PresentedIsTrimmed(rec, filter, raw, host, StrategyId);
    PresentedIsTrimmed(rec, filter, raw, host, ResearchFingerprint);
    PresentedIsTrimmed(rec, filter, raw, host, RuntimeAuthorizationFingerprint);
    PresentedIsTrimmed(rec, filter, raw, host, StrategyVersion);
    PresentedIsTrimmed(rec, filter, raw, host, StrategyName);
    PresentedIsTrimmed(rec, filter, raw, host, InvalidationCondition);
  }

  /** Nor is its trailing stop an empty dictionary. */
  lemma PresentedTrailing(rec: Record, r: B.Publication, filter: string -> string, raw: Record, host: K.Host)
    requires Made(rec, raw, host) && Presents(rec, r, filter)
    ensures r.trailingStop != Some(C.Dict([]))
  {
    hide K.Canonical;
    CanonicalTrailing(raw, host);
    assert Get(rec, TrailingStop) == Get(K.Canonical(raw, host), TrailingStop);
    var j := SanitizeData(Get(rec, TrailingStop), filter);
    assert j.Null? || (j.Obj? && "distance" in j.entries);
    assert C.Meaning(C.Dict([])) == Obj(map[]);
  }

  /** A record made by the validator, whose texts sanitising leaves alone, is steady. */
  lemma ValidatedIsSteady(rec: Record, op: O.Op, filter: string -> string, raw: Record, host: K.Host)
    requires R.Asks(op) && Presents(rec, op.resolved.value, filter)
    requires Made(rec, raw, host) && Harmless(rec, filter)
    ensures B.Steady(R.DraftOf(op))
  {
    hide Made; hide Harmless; hide StripAll; hide Presents; hide StripLineage; hide B.LineageOf; hide R.Complete;
    PresentedLineage(rec, op.resolved.value, filter, raw, host);
    PresentedTrailing(rec, op.resolved.value, filter, raw, host);
  }

  /** Once a publication that came through the contract boundary has become an intent, asking for it again, whenever it
      is found, after anything that happened to the store and to the intents, gives that very intent and changes
      nothing: never an integrity conflict. */
  lemma ValidatedPublicationReplays(w: World, first: O.Op, actions: seq<Action>, again: O.Op, tenants: set<string>,
                                    filter: string -> string, raw: Record, host: K.Host)
    requires O.Sound(w.book) && LawfulAction(w, OrderCall(first), tenants, filter) && first.CanonicalOp?
    requires O.Apply(w.book, first).reply.Staged?
    requires LawfulRun(Act(w, OrderCall(first)), actions, tenants, filter)
    requires LawfulAction(Run(Act(w, OrderCall(first)), actions), OrderCall(again), tenants, filter)
    requires again.CanonicalOp? && again.authorized && again.user == first.user && again.resolved.Some?
    requires Strip(again.publication) == Strip(first.publication)
    requires R.Asks(first)
    requires var found := Resolved(RecordsOf(w.store.disk), first.user.value, first.publication);
      found.Some? && Made(found.value, raw, host) && Harmless(found.value, filter)
    ensures var later := Run(Act(w, OrderCall(first)), actions).book;
      var out := O.Apply(later, again);
      out.book == later && out.reply.Existing? && out.reply.intent.id == first.id
  {
    hide O.Apply; hide O.Sound; hide O.Lawful; hide Run; hide Strip; hide B.Steady; hide R.Complete; hide Resolved;
    hide Presents; hide Made; hide Harmless; hide R.DraftOf;
    PublicationIsRecognised(w, first, actions, again, tenants, filter);
    ValidatedIsSteady(Resolved(RecordsOf(w.store.disk), first.user.value, first.publication).value, first, filter, raw,
                      host);
  }
}
