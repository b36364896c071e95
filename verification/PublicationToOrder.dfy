/** From the Project 1 store to an order intent: a publication that was turned into an intent once is recognised ever
    after, whatever happens to the store and to the intents in between. */
module PublicationToOrder {
  import opened Values
  import opened Text
  import opened Sanitizer
  import opened Project1Records
  import opened Project1Index
  import opened Project1Identity
  import opened Project1Store
  import P = Project1Runs
  import Steps = Project1Steps
  import opened OrderIntents
  import B = OrderBook
  import O = OrderRuns
  import R = OrderReplay
  import H = OrderHistories
  import C = CanonicalForm
  import Keys

  /** The record that `resolve_authoritative_publication` finds for an authorized user in a file that could be read. */
  function Resolved(rs: seq<Record>, user: B.User, publication: string): Option<Record> {
    var clean := Strip(publication);
    var found := LookupOf(rs, IndexOf(rs).ambiguous, Wanted(clean), Viewer(user));
    if clean != "" && found.status.Created? && found.record.Some?
       && Get(found.record.value, PublicationId) == Str(clean)
    then found.record else None
  }

  function Wanted(publication: string): Record {
    map[PublicationId := Str(publication)]
  }

  function Viewer(user: B.User): Option<string> {
    if user.admin then None else Some(user.id)
  }

  function FilteredText(rec: Record, f: Field, filter: string -> string): Option<string> {
    if Get(rec, f).Str? then Some(filter(Get(rec, f).s)) else None
  }

  function NumberAt(rec: Record, f: Field): Option<real> {
    if Get(rec, f).Num? then Some(Get(rec, f).r) else None
  }

  /** The sanitised record as canonical creation reads it; the trailing stop's keys are in the order they come in. */
  function PublicationOf(rec: Record, filter: string -> string, trailing: Option<C.Tree>): B.Publication {
    B.Publication(
      Lineage(FilteredText(rec, PublicationId, filter), FilteredText(rec, SignalId, filter),
              FilteredText(rec, DecisionId, filter), FilteredText(rec, CanonicalLiveDecisionFingerprint, filter),
              FilteredText(rec, CandidateId, filter), FilteredText(rec, ResearchEvidenceId, filter),
              FilteredText(rec, StrategyId, filter), FilteredText(rec, ResearchFingerprint, filter),
              FilteredText(rec, RuntimeAuthorizationFingerprint, filter), FilteredText(rec, StrategyVersion, filter)),
      FilteredText(rec, StrategyName, filter), FilteredText(rec, Symbol, filter),
      FilteredText(rec, SignalType, filter), None,
      NumberAt(rec, EntryPrice), NumberAt(rec, StopLoss),
      NumberAt(rec, TakeProfit1), NumberAt(rec, TakeProfit2), NumberAt(rec, TakeProfit3),
      if RequestedQuantity in rec then Some(NumberAt(rec, RequestedQuantity)) else None, NumberAt(rec, Quantity),
      trailing, FilteredText(rec, InvalidationCondition, filter), NumberAt(rec, Timestamp))
  }

  /** The trailing stop as a value whose dictionaries list their keys in some order. */
  ghost predicate Spells(trailing: Option<C.Tree>, rec: Record, filter: string -> string) {
    var j := SanitizeData(Get(rec, TrailingStop), filter);
    match trailing
    case None => j == Null
    case Some(t) => j != Null && C.WellFormed(t) && C.Meaning(t) == j
  }

  ghost predicate Presents(rec: Record, r: B.Publication, filter: string -> string) {
    Spells(r.trailingStop, rec, filter) && r == PublicationOf(rec, filter, r.trailingStop)
  }

  /** A creation is given what the gateway resolves from the file; nothing may be resolved at any time, when the file
      cannot be read. */
  ghost predicate Resolves(rs: seq<Record>, op: O.Op, filter: string -> string) {
    op.CanonicalOp? && op.user.Some? && op.resolved.Some? ==>
      var found := Resolved(rs, op.user.value, op.publication);
      found.Some? && Presents(found.value, op.resolved.value, filter)
  }

  /** The store's instances over their file, and the order intent service. */
  datatype World = World(store: P.System, book: B.Book)

  datatype Action = StoreCall(call: P.Call) | OrderCall(op: O.Op)

  function Act(w: World, a: Action): (r: World)
    requires a.StoreCall? ==> a.call.who < |w.store.latches|
    ensures |r.store.latches| == |w.store.latches|
  {
    match a
    case StoreCall(c) => w.(store := P.Step(w.store, c))
    case OrderCall(op) => w.(book := O.Apply(w.book, op).book)
  }

  ghost predicate LawfulAction(w: World, a: Action, tenants: set<string>, filter: string -> string) {
    match a
    case StoreCall(c) => c.who < |w.store.latches| && P.Lawful(c.op, tenants)
    case OrderCall(op) => O.Lawful(w.book, op) && Resolves(RecordsOf(w.store.disk), op, filter)
  }

  ghost predicate Addressed(n: nat, actions: seq<Action>) {
    forall i | 0 <= i < |actions| :: actions[i].StoreCall? ==> actions[i].call.who < n
  }

  ghost function Run(w: World, actions: seq<Action>): (r: World)
    requires Addressed(|w.store.latches|, actions)
    ensures |r.store.latches| == |w.store.latches|
  {
    if actions == [] then w else Act(Run(w, actions[..|actions| - 1]), actions[|actions| - 1])
  }

  ghost predicate LawfulRun(w: World, actions: seq<Action>, tenants: set<string>, filter: string -> string) {
    && Addressed(|w.store.latches|, actions)
    && (actions != [] ==>
          && LawfulRun(w, actions[..|actions| - 1], tenants, filter)
          && LawfulAction(Run(w, actions[..|actions| - 1]), actions[|actions| - 1], tenants, filter))
  }

  /** The calls on the order intent service among the actions. */
  function Orders(actions: seq<Action>): seq<O.Op> {
    if actions == [] then []
    else
      var n := |actions| - 1;
      Orders(actions[..n]) + (match actions[n] case OrderCall(op) => [op] case StoreCall(_) => [])
  }

  /** The order intent service goes its own lawful run. */
  lemma {:induction false} OrdersRun(w: World, actions: seq<Action>, tenants: set<string>, filter: string -> string)
    requires LawfulRun(w, actions, tenants, filter)
    ensures O.LawfulRun(w.book, Orders(actions)) && Run(w, actions).book == O.Run(w.book, Orders(actions))
  {
    hide O.Apply; hide O.Lawful; hide Resolves; hide P.Lawful; hide P.Step;
    if actions != [] {
      var n := |actions| - 1;
      OrdersRun(w, actions[..n], tenants, filter);
      var ops := Orders(actions);
      if actions[n].OrderCall? {
        assert ops[..|ops| - 1] == Orders(actions[..n]) && ops[|ops| - 1] == actions[n].op;
      } else {
        assert ops == Orders(actions[..n]);
      }
    }
  }

  /** The same record but for its lifecycle fields. */
  ghost predicate Kept(a: Record, b: Record) {
    forall f | f !in {LifecycleState, LifecycleReason, UpdatedAt} :: Get(a, f) == Get(b, f) && (f in a <==> f in b)
  }

  /** The later list continues the earlier one, record by record but for lifecycle fields. */
  ghost predicate Continues(rs: seq<Record>, later: seq<Record>) {
    |rs| <= |later| && forall i | 0 <= i < |rs| :: Kept(rs[i], later[i])
  }

  lemma RelabelledIsKept(rec: Record, state: string, reason: Option<string>, now: real)
    ensures Kept(rec, Relabelled(rec, state, reason, now))
  {
  }

  lemma StoreContinues(s: P.System, c: P.Call, tenants: set<string>)
    requires c.who < |s.latches| && P.Lawful(c.op, tenants)
    ensures Continues(RecordsOf(s.disk), RecordsOf(P.Step(s, c).disk))
  {
    hide Verdict; hide Updatable; hide Stamp; hide IndexHit; hide Seen; hide Relabelled; hide Touched;
    match c.op
    case IngestOp(_, _) =>
    case UpdateOp(_, state, reason, _) =>
      var rs := RecordsOf(s.disk);
      forall i | 0 <= i < |rs| { RelabelledIsKept(rs[i], state, reason, c.env.now); }
    case DuplicateOp(_, _) =>
    case ListOp(_, _) =>
  }

  lemma {:induction false} RunContinues(w: World, actions: seq<Action>, tenants: set<string>, filter: string -> string)
    requires LawfulRun(w, actions, tenants, filter)
    ensures Continues(RecordsOf(w.store.disk), RecordsOf(Run(w, actions).store.disk))
  {
    hide O.Apply; hide O.Lawful; hide Resolves; hide P.Lawful; hide P.Step;
    if actions != [] {
      var n := |actions| - 1;
      RunContinues(w, actions[..n], tenants, filter);
      var mid := Run(w, actions[..n]);
      if actions[n].StoreCall? { StoreContinues(mid.store, actions[n].call, tenants); }
    }
  }

  /** The first visible record that shares an identity with the target stands where it stood. */
  lemma {:induction false} FirstSharer(rs: seq<Record>, target: Record, user: Option<string>) returns (i: nat)
    requires Sharing(rs, target, user) != []
    ensures i < |rs| && Visible(rs[i], user) && Shares(target, rs[i]) && Sharing(rs, target, user)[0] == rs[i]
    ensures forall j | 0 <= j < i :: !(Visible(rs[j], user) && Shares(target, rs[j]))
  {
    hide Visible; hide Shares;
    var n := |rs| - 1;
    if Sharing(rs[..n], target, user) != [] {
      i := FirstSharer(rs[..n], target, user);
    } else {
      i := n;
      forall j | 0 <= j < n
        ensures !(Visible(rs[j], user) && Shares(target, rs[j]))
      {
        assert rs[j] in rs[..n];
        SharingMembers(rs[..n], target, user, rs[j]);
      }
    }
  }

  lemma KeptIsMetAlike(a: Record, b: Record, target: Record, user: Option<string>)
    requires Kept(a, b)
    ensures Visible(a, user) <==> Visible(b, user)
    ensures Shares(target, a) <==> Shares(target, b)
  {
    hide Kept;
    KeptFields(a, b, UserId);
    KeptFields(a, b, PublicationId);
    KeptFields(a, b, EventId);
    KeptFields(a, b, SignalId);
  }

  lemma KeptFields(a: Record, b: Record, f: Field)
    requires Kept(a, b) && f !in {LifecycleState, LifecycleReason, UpdatedAt}
    ensures Get(a, f) == Get(b, f) && (f in a <==> f in b)
  {
  }

  /** If a publication is found at two times, it is the same record, but for its lifecycle fields. */
  lemma SameRecordIsFound(rs: seq<Record>, later: seq<Record>, user: B.User, publication: string)
    requires Continues(rs, later) && Resolved(rs, user, publication).Some? && Resolved(later, user, publication).Some?
    ensures Kept(Resolved(rs, user, publication).value, Resolved(later, user, publication).value)
  {
    hide Visible; hide Shares; hide Kept; hide TargetsAmbiguousKey; hide AmbiguousKeys; hide Strip; hide Colliding;
    hide SameContent; hide MapOf;
    var target, viewer := Wanted(Strip(publication)), Viewer(user);
    FoundFirst(rs, IndexOf(rs).ambiguous, target, viewer);
    FoundFirst(later, IndexOf(later).ambiguous, target, viewer);
    var i := FirstSharer(rs, target, viewer);
    var j := FirstSharer(later, target, viewer);
    KeptIsMetAlike(rs[i], later[i], target, viewer);
    if j < i { KeptIsMetAlike(rs[j], later[j], target, viewer); }
    assert j == i;
  }

  lemma FoundFirst(rs: seq<Record>, ambiguous: set<string>, target: Record, user: Option<string>)
    ensures var found := LookupOf(rs, ambiguous, target, user);
      found.status.Created? ==> Sharing(rs, target, user) != [] && found.record == Some(Sharing(rs, target, user)[0])
  {
    hide TargetsAmbiguousKey;
  }

  /** What two creations are given for one record compares equal, in whatever order the trailing stop's keys come. */
  lemma SamePresentation(a: Record, b: Record, p: B.Publication, q: B.Publication, filter: string -> string)
    requires Kept(a, b) && Presents(a, p, filter) && Presents(b, q, filter)
    ensures p == q.(trailingStop := p.trailingStop)
    ensures (p.trailingStop.Some? <==> q.trailingStop.Some?)
         && (p.trailingStop.Some? ==>
               && C.WellFormed(p.trailingStop.value) && C.WellFormed(q.trailingStop.value)
               && C.Meaning(p.trailingStop.value) == C.Meaning(q.trailingStop.value))
  {
    hide Kept; hide SanitizeData; hide C.WellFormed; hide C.Meaning;
    KeptFields(a, b, TrailingStop);
    SameLineage(a, b, filter);
    SameTrade(a, b, filter);
  }

  lemma SameLineage(a: Record, b: Record, filter: string -> string)
    requires Kept(a, b)
    ensures PublicationOf(a, filter, None).lineage == PublicationOf(b, filter, None).lineage
  {
    hide Kept;
    KeptFields(a, b, PublicationId); KeptFields(a, b, SignalId); KeptFields(a, b, DecisionId);
    KeptFields(a, b, CanonicalLiveDecisionFingerprint); KeptFields(a, b, CandidateId);
    KeptFields(a, b, ResearchEvidenceId); KeptFields(a, b, StrategyId); KeptFields(a, b, ResearchFingerprint);
    KeptFields(a, b, RuntimeAuthorizationFingerprint); KeptFields(a, b, StrategyVersion);
  }

  lemma SameTrade(a: Record, b: Record, filter: string -> string)
    requires Kept(a, b)
    ensures var p, q := PublicationOf(a, filter, None), PublicationOf(b, filter, None); p == q.(lineage := p.lineage)
  {
    hide Kept;
    KeptFields(a, b, StrategyName); KeptFields(a, b, Symbol); KeptFields(a, b, SignalType);
    KeptFields(a, b, EntryPrice); KeptFields(a, b, StopLoss); KeptFields(a, b, TakeProfit1);
    KeptFields(a, b, TakeProfit2);
    KeptFields(a, b, TakeProfit3); KeptFields(a, b, RequestedQuantity); KeptFields(a, b, Quantity);
    KeptFields(a, b, InvalidationCondition); KeptFields(a, b, Timestamp);
  }

  /** Then the two creations ask for the same content. */
  lemma SameDraftContent(first: O.Op, again: O.Op)
    requires R.Asks(first) && again.CanonicalOp? && again.authorized && again.user == first.user
    requires Strip(again.publication) == Strip(first.publication) && again.resolved.Some?
    requires var p, q := first.resolved.value, again.resolved.value;
      && p == q.(trailingStop := p.trailingStop)
      && (p.trailingStop.Some? <==> q.trailingStop.Some?)
      && (p.trailingStop.Some? ==>
            && C.WellFormed(p.trailingStop.value) && C.WellFormed(q.trailingStop.value)
            && C.Meaning(p.trailingStop.value) == C.Meaning(q.trailingStop.value))
    ensures R.Asks(again) && B.DraftContent(R.DraftOf(again)) == B.DraftContent(R.DraftOf(first))
  {
    hide Strip; hide Upper; hide Lower; hide C.Canonical; hide B.LineageComplete;
    var p, q := first.resolved.value, again.resolved.value;
    SameChecks(p, q);
    if p.trailingStop.Some? { C.SameMeaningSameForm(p.trailingStop.value, q.trailingStop.value); }
  }

  lemma SameChecks(p: B.Publication, q: B.Publication)
    requires p == q.(trailingStop := p.trailingStop)
    ensures B.LineageOf(p) == B.LineageOf(q) && p.symbol == q.symbol && (B.Actionable(p) <==> B.Actionable(q))
    ensures B.DirectionOf(p) == B.DirectionOf(q) && B.TermsOf(p) == B.TermsOf(q) && p.invalidation == q.invalidation
    ensures p.lineage == q.lineage
  {
  }

  /** Once a publication has become an intent, then after any ingests, lifecycle updates, creations, transitions and
      restarts by anyone, asking for it again changes nothing: whenever the publication is found, the answer is that
      intent if the record was steady when it was made, and an integrity conflict if it was not. */
  lemma PublicationIsRecognised(w: World, first: O.Op, actions: seq<Action>, again: O.Op, tenants: set<string>,
                                filter: string -> string)
    requires O.Sound(w.book) && LawfulAction(w, OrderCall(first), tenants, filter) && first.CanonicalOp?
    requires O.Apply(w.book, first).reply.Staged?
    requires LawfulRun(Act(w, OrderCall(first)), actions, tenants, filter)
    requires LawfulAction(Run(Act(w, OrderCall(first)), actions), OrderCall(again), tenants, filter)
    requires again.CanonicalOp? && again.authorized && again.user == first.user && again.resolved.Some?
    requires Strip(again.publication) == Strip(first.publication)
    ensures R.Asks(first)
    ensures var later := Run(Act(w, OrderCall(first)), actions).book;
      var out := O.Apply(later, again);
      && out.book == later
      && (out.reply.Existing? <==> B.Steady(R.DraftOf(first)))
      && (out.reply.Existing? ==> out.reply.intent.id == first.id)
      && (!out.reply.Existing? ==> out.reply == B.Refused(B.IntegrityConflict))
  {
    hide O.Apply; hide O.Sound; hide O.Lawful; hide O.Run; hide O.LawfulRun; hide Run; hide Strip;
    hide B.DraftContent; hide B.Steady; hide Acceptable; hide Normalised; hide R.Asks; hide Resolves; hide Continues;
    var start := Act(w, OrderCall(first));
    R.StagedMeaning(w.book, first);
    OrdersRun(start, actions, tenants, filter);
    RunContinues(start, actions, tenants, filter);
    SameAnswerLater(RecordsOf(w.store.disk), RecordsOf(Run(start, actions).store.disk), first, again, filter);
    R.SameContentReplays(w.book, first, Orders(actions), again);
  }

  lemma SameAnswerLater(rs: seq<Record>, later: seq<Record>, first: O.Op, again: O.Op, filter: string -> string)
    requires Continues(rs, later) && Resolves(rs, first, filter) && Resolves(later, again, filter) && R.Asks(first)
    requires again.CanonicalOp? && again.authorized && again.user == first.user && again.resolved.Some?
    requires Strip(again.publication) == Strip(first.publication)
    ensures R.Asks(again) && B.DraftContent(R.DraftOf(again)) == B.DraftContent(R.DraftOf(first))
  {
    hide Continues; hide Presents; hide B.DraftContent; hide R.Complete; hide Strip; hide LookupOf; hide IndexOf;
    var u := first.user.value;
    SameRecordIsFound(rs, later, u, first.publication);
    SamePresentation(Resolved(rs, u, first.publication).value, Resolved(later, u, first.publication).value,
                     first.resolved.value, again.resolved.value, filter);
    SameDraftContent(first, again);
  }

  /** A record of this user's for this publication. */
  predicate IsFor(rec: Record, user: B.User, publication: string) {
    && Get(rec, UserId) == Str(user.id)
    && Strip(publication) != "" && Get(rec, PublicationId) == Str(Strip(publication))
  }

  /** In a sound store with prefix-free tenants a user who is not an administrator is shown a publication exactly when
      he has a record of it, and then that record. */
  lemma FoundExactlyWhenStored(rs: seq<Record>, tenants: set<string>, user: B.User, publication: string)
    requires P.Sound(rs, tenants) && Keys.PrefixFree(tenants) && "" !in tenants && !user.admin
    ensures forall rec :: Resolved(rs, user, publication) == Some(rec) <==> rec in rs && IsFor(rec, user, publication)
  {
    hide P.Sound; hide Keys.PrefixFree; hide AmbiguousKeys; hide Strip; hide Shares; hide SameContent; hide MapOf;
    hide TargetsAmbiguousKey; hide Visible; hide Collides; hide IsFor; hide SharersDisagree;
    var target, viewer := Wanted(Strip(publication)), Viewer(user);
    P.SoundIsUnambiguous(rs, tenants);
    P.NoKeyNoHit(target, viewer);
    VerdictMeaning(rs, IndexOf(rs).ambiguous, target, viewer);
    FoundFirst(rs, IndexOf(rs).ambiguous, target, viewer);
    forall rec
      ensures Visible(rec, viewer) && Shares(target, rec) <==> IsFor(rec, user, publication)
      ensures !Collides(target, rec)
    {
      SharesWanted(rec, user, publication);
    }
    SharersAreOne(rs, tenants, user, publication);
    forall rec
      ensures rec in Sharing(rs, target, viewer) <==> rec in rs && IsFor(rec, user, publication)
    {
      SharingMembers(rs, target, viewer, rec);
    }
    if Sharing(rs, target, viewer) != [] {
      assert Sharing(rs, target, viewer)[0] in Sharing(rs, target, viewer);
      FoundIsWanted(Sharing(rs, target, viewer)[0], user, publication);
    }
  }

  lemma FoundIsWanted(rec: Record, user: B.User, publication: string)
    requires IsFor(rec, user, publication)
    ensures Strip(publication) != "" && Get(rec, PublicationId) == Str(Strip(publication))
  {
  }

  lemma SharesWanted(rec: Record, user: B.User, publication: string)
    requires !user.admin
    ensures var target := Wanted(Strip(publication));
      && (Visible(rec, Viewer(user)) && Shares(target, rec) <==> IsFor(rec, user, publication))
      && !Collides(target, rec)
  {
    hide Strip;
    var target := Wanted(Strip(publication));
    assert Id(target, ByPublication) == Strip(publication) && Id(target, ByEvent) == "" && Id(target, BySignal) == "";
  }

  /** A user has one record of a publication at most. */
  lemma SharersAreOne(rs: seq<Record>, tenants: set<string>, user: B.User, publication: string)
    requires P.Sound(rs, tenants) && !user.admin
    ensures forall a, b | a in rs && b in rs && IsFor(a, user, publication) && IsFor(b, user, publication) :: a == b
    ensures !SharersDisagree(rs, Wanted(Strip(publication)), Viewer(user))
  {
    hide Strip; hide SameContent; hide Shares; hide Visible;
    forall a, b | a in rs && b in rs && IsFor(a, user, publication) && IsFor(b, user, publication)
      ensures a == b
    {
      var i :| 0 <= i < |rs| && rs[i] == a;
      var j :| 0 <= j < |rs| && rs[j] == b;
      if i < j {
        P.AgreeingShare(a, b, ByPublication);
      } else if j < i {
        P.AgreeingShare(b, a, ByPublication);
      }
    }
    forall rec
      ensures Visible(rec, Viewer(user)) && Shares(Wanted(Strip(publication)), rec) <==> IsFor(rec, user, publication)
      ensures SameContent(rec, rec)
    {
      SharesWanted(rec, user, publication);
      Steps.SameCoreReflexive(rec);
    }
  }

  lemma {:induction false} RunKeepsStoreSound(w: World, actions: seq<Action>, tenants: set<string>,
                                              filter: string -> string)
    requires LawfulRun(w, actions, tenants, filter) && P.Sound(RecordsOf(w.store.disk), tenants)
    ensures P.Sound(RecordsOf(Run(w, actions).store.disk), tenants)
  {
    hide O.Apply; hide O.Lawful; hide Resolves; hide P.Lawful; hide P.Sound; hide Project1Store.Apply;
    if actions != [] {
      var n := |actions| - 1;
      RunKeepsStoreSound(w, actions[..n], tenants, filter);
      var mid := Run(w, actions[..n]);
      if actions[n].StoreCall? {
        var c := actions[n].call;
        P.StepKeepsSound(mid.store.latches[c.who], mid.store.disk, c.op, c.env, tenants);
      }
    }
  }

  /** A publication once shown to such a user stays shown, unchanged but for its lifecycle fields, in every run. */
  lemma PublicationStaysFound(w: World, actions: seq<Action>, user: B.User, publication: string, tenants: set<string>,
                              filter: string -> string)
    requires P.Sound(RecordsOf(w.store.disk), tenants) && Keys.PrefixFree(tenants) && "" !in tenants && !user.admin
    requires LawfulRun(w, actions, tenants, filter)
    requires Resolved(RecordsOf(w.store.disk), user, publication).Some?
    ensures var before := Resolved(RecordsOf(w.store.disk), user, publication);
      var after := Resolved(RecordsOf(Run(w, actions).store.disk), user, publication);
      after.Some? && Kept(before.value, after.value)
  {
    hide P.Sound; hide Keys.PrefixFree; hide Resolved; hide IsFor; hide Kept; hide Run;
    RunContinues(w, actions, tenants, filter);
    RunKeepsStoreSound(w, actions, tenants, filter);
    var rs, later := RecordsOf(w.store.disk), RecordsOf(Run(w, actions).store.disk);
    FoundExactlyWhenStored(rs, tenants, user, publication);
    FoundExactlyWhenStored(later, tenants, user, publication);
    var rec := Resolved(rs, user, publication).value;
    var i :| 0 <= i < |rs| && rs[i] == rec;
    StaysFor(rs[i], later[i], user, publication);
    assert later[i] in later;
  }

  lemma StaysFor(a: Record, b: Record, user: B.User, publication: string)
    requires Kept(a, b) && IsFor(a, user, publication)
    ensures IsFor(b, user, publication)
  {
    hide Kept; hide Strip;
    KeptFields(a, b, UserId);
    KeptFields(a, b, PublicationId);
  }

  predicate SameNumber(o: Option<real>, j: Json) {
    o == if j.Num? then Some(j.r) else None
  }

  /** A text of the intent is the record's, filtered and stripped. */
  predicate SameText(o: Option<string>, j: Json, filter: string -> string) {
    o == if j.Str? then Some(Strip(filter(j.s))) else None
  }

  /** The intent made of a stored record carries that record's values, each from its own field. */
  lemma StoredRecordBecomesIntent(w: World, first: O.Op, tenants: set<string>, filter: string -> string)
    requires O.Sound(w.book) && LawfulAction(w, OrderCall(first), tenants, filter) && first.CanonicalOp?
    requires O.Apply(w.book, first).reply.Staged?
    ensures first.user.Some? && Resolved(RecordsOf(w.store.disk), first.user.value, first.publication).Some?
    ensures var i := O.Apply(w.book, first).reply.intent;
      var rec := Resolved(RecordsOf(w.store.disk), first.user.value, first.publication).value;
      && SameNumber(i.terms.price, Get(rec, EntryPrice)) && SameNumber(i.terms.stopLoss, Get(rec, StopLoss))
      && SameNumber(i.terms.takeProfit1, Get(rec, TakeProfit1))
      && SameNumber(i.terms.takeProfit2, Get(rec, TakeProfit2))
      && SameNumber(i.terms.takeProfit3, Get(rec, TakeProfit3))
      && SameNumber(i.terms.quantity,
                    if RequestedQuantity in rec then Get(rec, RequestedQuantity) else Get(rec, Quantity))
      && SameLineageTexts(i, rec, filter)
      && Get(rec, Symbol).Str? && i.symbol == Upper(Strip(filter(Get(rec, Symbol).s)))
      && Get(rec, SignalType).Str? && i.direction == Lower(Strip(filter(Get(rec, SignalType).s)))
  {
    hide O.Apply; hide O.Sound; hide O.Lawful; hide Strip; hide Upper; hide Lower; hide Resolved; hide R.Complete;
    hide PublicationOf; hide Spells; hide SameLineageTexts; hide R.CarriesTrade; hide R.CarriesLineage; hide Get;
    R.CanonicalIntentCarriesTheRecord(w.book, first);
    var i := O.Apply(w.book, first).reply.intent;
    var rec := Resolved(RecordsOf(w.store.disk), first.user.value, first.publication).value;
    TradeOfRecord(i, rec, first.resolved.value, filter, first.now);
    LineageOfRecord(i, rec, first.resolved.value, filter);
  }

  predicate SameLineageTexts(i: Intent, rec: Record, filter: string -> string) {
    var l := i.lineage;
    && SameText(l.publication, Get(rec, PublicationId), filter) && SameText(l.signal, Get(rec, SignalId), filter)
    && SameText(l.decision, Get(rec, DecisionId), filter)
    && SameText(l.fingerprint, Get(rec, CanonicalLiveDecisionFingerprint), filter)
    && SameText(l.candidate, Get(rec, CandidateId), filter)
    && SameText(l.evidence, Get(rec, ResearchEvidenceId), filter)
    && SameText(l.researchFingerprint, Get(rec, ResearchFingerprint), filter)
    && SameText(l.runtimeFingerprint, Get(rec, RuntimeAuthorizationFingerprint), filter)
    && SameText(l.strategyVersion, Get(rec, StrategyVersion), filter)
    && (Get(rec, StrategyId).Null? ==> SameText(l.strategy, Get(rec, StrategyName), filter))
    && SameText(i.invalidation, Get(rec, InvalidationCondition), filter)
  }

  lemma TradeOfRecord(i: Intent, rec: Record, r: B.Publication, filter: string -> string, now: real)
    requires R.CarriesTrade(i, r, now) && r == PublicationOf(rec, filter, r.trailingStop)
    ensures SameNumber(i.terms.price, Get(rec, EntryPrice)) && SameNumber(i.terms.stopLoss, Get(rec, StopLoss))
    ensures SameNumber(i.terms.takeProfit1, Get(rec, TakeProfit1))
    ensures SameNumber(i.terms.takeProfit2, Get(rec, TakeProfit2))
    ensures SameNumber(i.terms.takeProfit3, Get(rec, TakeProfit3))
    ensures SameNumber(i.terms.quantity,
                       if RequestedQuantity in rec then Get(rec, RequestedQuantity) else Get(rec, Quantity))
    ensures Get(rec, Symbol).Str? && i.symbol == Upper(Strip(filter(Get(rec, Symbol).s)))
    ensures Get(rec, SignalType).Str? && i.direction == Lower(Strip(filter(Get(rec, SignalType).s)))
  {
    hide Strip; hide Upper; hide Lower;
  }

  lemma LineageOfRecord(i: Intent, rec: Record, r: B.Publication, filter: string -> string)
    requires R.CarriesLineage(i, r) && r == PublicationOf(rec, filter, r.trailingStop)
    ensures SameLineageTexts(i, rec, filter)
  {
    hide Strip; hide Get;
  }
}
