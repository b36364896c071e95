/** What the calls on the Project 1 store answer and leave, in terms of the fields of the stored records. */
module Project1Answers {
  import opened Values
  import opened Text
  import opened Keys
  import opened Project1Records
  import opened Project1Index
  import opened Project1Identity
  import opened Project1Store
  import opened Project1Steps
  import opened Project1Runs

  /** The twenty-five fields that make a record's authoritative content. */
  predicate Authoritative(f: Field) {
    match f
    case PublicationId | EventId | SignalId | DecisionId | CanonicalLiveDecisionFingerprint | CandidateId
       | ResearchEvidenceId | StrategyName | ResearchFingerprint | RuntimeAuthorizationFingerprint | StrategyVersion
       | Symbol | SignalType | Timeframe | EntryPrice | StopLoss | TakeProfit1 | TakeProfit2 | TakeProfit3
       | Confidence | OperationalStabilityScore | TrailingStop | InvalidationCondition | Mtf | Metadata => true
    case _ => false
  }

  lemma KeysAreAuthoritative(f: Field)
    ensures f in AUTHORITATIVE_CONTENT_KEYS <==> Authoritative(f)
  {
    OnlyAuthoritative();
    if Authoritative(f) { AllAuthoritative(f); }
  }

  lemma OnlyAuthoritative()
    ensures forall f | f in AUTHORITATIVE_CONTENT_KEYS :: Authoritative(f)
  {
  }

  lemma AllAuthoritative(f: Field)
    requires Authoritative(f)
    ensures f in AUTHORITATIVE_CONTENT_KEYS
  {
    if f.PublicationId? || f.EventId? || f.SignalId? || f.DecisionId? || f.CanonicalLiveDecisionFingerprint?
    || f.CandidateId? || f.ResearchEvidenceId? || f.StrategyName? || f.ResearchFingerprint? {
    } else if f.RuntimeAuthorizationFingerprint? || f.StrategyVersion? || f.Symbol? || f.SignalType? || f.Timeframe?
           || f.EntryPrice? || f.StopLoss? {
    } else {
    }
  }

  /** The comparison of contents is agreement on exactly those fields. */
  lemma ContentIsAuthoritative(a: Record, b: Record)
    ensures SameContent(a, b) <==> forall f | Authoritative(f) :: Get(a, f) == Get(b, f)
  {
    hide Authoritative;
    forall f { KeysAreAuthoritative(f); }
  }

  /** In a sound store over prefix-free tenants, a record with the three ids of one that its tenant has stored is a
      duplicate if it agrees on every authoritative field, and an integrity conflict if it differs on any. */
  lemma ContentDecides(rs: seq<Record>, tenants: set<string>, tenant: string, rec: Record, target: Record)
    requires Sound(rs, tenants) && PrefixFree(tenants) && "" !in tenants && tenant in tenants
    requires rec in rs && Get(rec, UserId) == Str(tenant) && Get(target, UserId) == Str(tenant)
    requires TextOf(Get(target, PublicationId)) == TextOf(Get(rec, PublicationId))
    requires TextOf(Get(target, EventId)) == TextOf(Get(rec, EventId))
    requires TextOf(Get(target, SignalId)) == TextOf(Get(rec, SignalId))
    requires || TextOf(Get(rec, PublicationId)) != "" || TextOf(Get(rec, EventId)) != ""
             || TextOf(Get(rec, SignalId)) != ""
    ensures (forall f | Authoritative(f) :: Get(target, f) == Get(rec, f)) ==>
              Verdict(rs, target, Some(tenant)).status == DuplicateAccepted
    ensures forall f | Authoritative(f) && Get(target, f) != Get(rec, f) ::
              Verdict(rs, target, Some(tenant)).status == IntegrityConflict
  {
    hide Sound; hide PrefixFree; hide Verdict; hide SameContent; hide Authoritative;
    ContentIsAuthoritative(target, rec);
    ThreeIds(target, rec);
    StoredIsHeld(rs, rec);
    AcceptedRecordDecides(rs, tenants, tenant, rec, target);
  }

  lemma ThreeIds(target: Record, rec: Record)
    requires TextOf(Get(target, PublicationId)) == TextOf(Get(rec, PublicationId))
    requires TextOf(Get(target, EventId)) == TextOf(Get(rec, EventId))
    requires TextOf(Get(target, SignalId)) == TextOf(Get(rec, SignalId))
    ensures forall kind :: Id(target, kind) == Id(rec, kind)
    ensures Identified(rec) <==>
      TextOf(Get(rec, PublicationId)) != "" || TextOf(Get(rec, EventId)) != "" || TextOf(Get(rec, SignalId)) != ""
  {
    forall kind
      ensures Id(target, kind) == Id(rec, kind)
    {
      match kind case ByPublication => case ByEvent => case BySignal =>
    }
  }

  lemma StoredIsHeld(rs: seq<Record>, rec: Record)
    requires rec in rs
    ensures Holds(rs, rec)
  {
    var i :| 0 <= i < |rs| && rs[i] == rec;
    SameCoreReflexive(rec);
  }

  /** Both records name this id, as the same non-empty text. */
  predicate ShareId(a: Record, b: Record, f: Field) {
    TextOf(Get(a, f)) != "" && TextOf(Get(a, f)) == TextOf(Get(b, f))
  }

  /** The records share their publication, their event or their signal. */
  predicate ShareSome(a: Record, b: Record) {
    ShareId(a, b, PublicationId) || ShareId(a, b, EventId) || ShareId(a, b, SignalId)
  }

  /** The record that comes with a verdict is a stored one: with a duplicate or a conflict one of the caller's that
      shares an id, with a collision one of his that shares an id or anyone's with the integration id, and with the
      other verdicts none. */
  lemma VerdictRecord(rs: seq<Record>, rec: Record, user: Option<string>)
    ensures var v := Verdict(rs, rec, user);
      match v.status
      case DuplicateAccepted =>
        v.record.Some? && v.record.value in rs && ShareSome(rec, v.record.value)
        && (user.Some? ==> Get(v.record.value, UserId) == Str(user.value))
        && forall f | Authoritative(f) :: Get(rec, f) == Get(v.record.value, f)
      case IntegrityConflict =>
        v.record.Some? && v.record.value in rs && ShareSome(rec, v.record.value)
        && (user.Some? ==> Get(v.record.value, UserId) == Str(user.value))
        && exists f | Authoritative(f) :: Get(rec, f) != Get(v.record.value, f)
      case IdentityCollision =>
        v.record.Some? && v.record.value in rs
        && (Get(v.record.value, IntegrationId) == Get(rec, IntegrationId)
            || (ShareSome(rec, v.record.value) && (user.Some? ==> Get(v.record.value, UserId) == Str(user.value))))
      case _ => v.record.None? && v.status in {Absent, IdentityAmbiguous}
  {
    hide Authoritative; hide TargetsAmbiguousKey; hide AmbiguousKeys; hide SameContent; hide Collides; hide Shares;
    hide Visible; hide MapOf;
    var found := LookupOf(rs, IndexOf(rs).ambiguous, rec, user);
    if found.record.Some? {
      var r := found.record.value;
      ContentIsAuthoritative(rec, r);
      FoundIsStored(rs, IndexOf(rs).ambiguous, rec, user);
    }
    var taken := WithIntegrationId(rs, Get(rec, IntegrationId));
    if taken != [] { IntegrationIdMembers(rs, Get(rec, IntegrationId), taken[0]); }
  }

  lemma FoundIsStored(rs: seq<Record>, ambiguous: set<string>, rec: Record, user: Option<string>)
    requires LookupOf(rs, ambiguous, rec, user).record.Some?
    ensures var r := LookupOf(rs, ambiguous, rec, user).record.value;
      r in rs && ShareSome(rec, r) && (user.Some? ==> Get(r, UserId) == Str(user.value))
  {
    hide TargetsAmbiguousKey; hide AllSameContent; hide Sharing; hide Colliding; hide Collides; hide Shares;
    hide ShareSome; hide Visible;
    var r := LookupOf(rs, ambiguous, rec, user).record.value;
    var sharing, colliding := Sharing(rs, rec, user), Colliding(rs, rec, user);
    SharingMembers(rs, rec, user, r);
    CollidingMembers(rs, rec, user, r);
    SharesSome(rec, r);
    CollidesShares(rec, r);
    SeenIsOwn(r, user);
    if sharing != [] { assert sharing[0] in sharing; }
    if colliding != [] { assert colliding[0] in colliding; }
  }

  lemma SeenIsOwn(r: Record, user: Option<string>)
    ensures Visible(r, user) && user.Some? ==> Get(r, UserId) == Str(user.value)
  {
  }

  /** What is stored of a record: the record itself, when it came and when it was last touched. */
  predicate StoredAs(rec: Record, stored: Record, now: real) {
    && (forall f | f != CreatedAt && f != UpdatedAt :: Get(stored, f) == Get(rec, f))
    && Get(stored, UpdatedAt) == Num(now)
    && Get(stored, CreatedAt) == if CreatedAt in rec then rec[CreatedAt] else Num(now)
  }

  lemma StampStores(rec: Record, now: real)
    ensures StoredAs(rec, Stamp(rec, now), now)
  {
  }

  /** The instance can work, and the file can be read or, where there is none, be created. */
  predicate Ready(latches: Latches, disk: Disk, env: Env) {
    !latches.Set() && env.lockOk && !disk.Malformed?
    && (if disk.Missing? then !env.initialWrite.Failed? else env.readOk)
  }

  lemma ReadyOpens(latches: Latches, disk: Disk, env: Env)
    requires Ready(latches, disk, env)
    ensures Open(disk, env) == Opening(Latches(false, false), Stored(RecordsOf(disk)))
  {
  }

  /** An ingest by a working instance answers the verdict on the file's records; when that is Absent the record is
      appended, stamped, and returned as created, or, if the write fails, nothing is. */
  lemma IngestMeaning(latches: Latches, disk: Disk, rec: Record, user: Option<string>, env: Env)
    requires Ready(latches, disk, env) && TextOf(Get(rec, IntegrationId)) != ""
    ensures var e, rs := Ingest(latches, disk, rec, user, env), RecordsOf(disk);
      && e.latches == latches && e.disk.Stored? && e.reply.Ingested?
      && if Verdict(rs, rec, user).status != Absent then e.disk.records == rs && e.reply == Verdict(rs, rec, user)
         else if env.write.Failed? then e.disk.records == rs && e.reply == Ingested(PersistenceFailure, None)
         else
           && |e.disk.records| == |rs| + 1 && e.disk.records[..|rs|] == rs
           && StoredAs(rec, e.disk.records[|rs|], env.now)
           && e.reply.record == Some(e.disk.records[|rs|])
           && e.reply.status == if env.write.Durable? then Created else DurabilityUncertain
  {
    hide Verdict; hide Stamp; hide StoredAs;
    ReadyOpens(latches, disk, env);
    StampStores(rec, env.now);
  }

  /** An instance that cannot work says why, and an ingest without an integration id is refused before that. */
  lemma IngestRefusal(latches: Latches, disk: Disk, rec: Record, user: Option<string>, env: Env)
    ensures var reply := Ingest(latches, disk, rec, user, env).reply;
      if TextOf(Get(rec, IntegrationId)) == "" then reply == ValueError
      else if latches.unavailable then reply == Ingested(StorageUnavailable, None)
      else if latches.corrupt then reply == Ingested(StorageCorrupt, None)
      else if !env.lockOk || (disk.Missing? && env.initialWrite.Failed?) || (!disk.Missing? && !env.readOk) then
        reply == Ingested(StorageUnavailable, None)
      else if disk.Malformed? then reply == Ingested(StorageCorrupt, None)
      else Ready(latches, disk, env)
  {
    hide Verdict; hide Stamp;
  }

  /** A named user's duplicate check answers true exactly when a stored record of his names the id as its signal, its
      publication or its event. */
  lemma DuplicateMeaning(latches: Latches, disk: Disk, id: string, user: string, env: Env)
    requires Ready(latches, disk, env)
    ensures IsDuplicate(latches, disk, id, Some(user), env) ==
      Effect(latches, Stored(RecordsOf(disk)),
             Answer(exists r ::
                      && r in RecordsOf(disk) && Get(r, UserId) == Str(user)
                      && (|| Get(r, SignalId) == Str(id) || Get(r, PublicationId) == Str(id)
                          || Get(r, EventId) == Str(id))))
  {
    hide IndexHit;
    ReadyOpens(latches, disk, env);
    var rs := RecordsOf(disk);
    FastPathAgreesWithScan(rs, id, Some(user));
    if r :| r in rs && Get(r, UserId) == Str(user)
            && (Get(r, SignalId) == Str(id) || Get(r, PublicationId) == Str(id) || Get(r, EventId) == Str(id)) {
      var i :| 0 <= i < |rs| && rs[i] == r;
      assert Touched(rs[i], id, Some(user));
    }
    if Seen(rs, id, Some(user)) {
      var i :| 0 <= i < |rs| && Touched(rs[i], id, Some(user));
      assert rs[i] in rs;
    }
  }

  /** The record is the user's, anyone's when no user is named, and has the id as its signal, publication or event. */
  predicate Named(r: Record, id: string, user: Option<string>) {
    && (user.Some? ==> Get(r, UserId) == Str(user.value))
    && (Get(r, SignalId) == Str(id) || Get(r, PublicationId) == Str(id) || Get(r, EventId) == Str(id))
  }

  lemma NamedIsTouched(r: Record, id: string, user: Option<string>)
    ensures Named(r, id, user) <==> Touched(r, id, user)
  {
  }

  /** Some record is named, and no two that are named differ in publication, event or signal. */
  ghost predicate NamesOne(rs: seq<Record>, id: string, user: Option<string>) {
    && (exists r :: r in rs && Named(r, id, user))
    && (forall r, q | r in rs && q in rs && Named(r, id, user) && Named(q, id, user) ::
          && Get(r, PublicationId) == Get(q, PublicationId) && Get(r, EventId) == Get(q, EventId)
          && Get(r, SignalId) == Get(q, SignalId))
  }

  lemma NamesOneIsUpdatable(rs: seq<Record>, id: string, user: Option<string>)
    ensures Updatable(rs, id, user) <==> NamesOne(rs, id, user)
  {
    hide Touched; hide Named;
    forall r { NamedIsTouched(r, id, user); }
    if NamesOne(rs, id, user) {
      var r :| r in rs && Named(r, id, user);
      var i :| 0 <= i < |rs| && rs[i] == r;
      assert Touched(rs[i], id, user);
    }
    if Updatable(rs, id, user) {
      forall r, q | r in rs && q in rs && Named(r, id, user) && Named(q, id, user)
        ensures Lineage(r) == Lineage(q)
      {
        var i, j :| 0 <= i < |rs| && 0 <= j < |rs| && rs[i] == r && rs[j] == q;
        assert Touched(rs[i], id, user) && Touched(rs[j], id, user);
      }
    }
  }

  /** The record after the update has the new state, the reason if there is one and the time, and is otherwise as it
      was. */
  predicate Relabels(r: Record, after: Record, state: string, reason: Option<string>, now: real) {
    && Get(after, LifecycleState) == Str(Upper(Strip(state)))
    && Get(after, LifecycleReason) == (if reason.Some? then Str(reason.value) else Get(r, LifecycleReason))
    && Get(after, UpdatedAt) == Num(now)
    && forall f | f != LifecycleState && f != LifecycleReason && f != UpdatedAt :: Get(after, f) == Get(r, f)
  }

  lemma RelabelledRelabels(r: Record, state: string, reason: Option<string>, now: real)
    ensures Relabels(r, Relabelled(r, state, reason, now), state, reason, now)
  {
    hide Upper; hide Strip;
    RelabelledIsLabelled(r, state, reason, now);
    hide Relabelled;
    forall f | f != LifecycleState && f != LifecycleReason && f != UpdatedAt
      ensures Get(Relabelled(r, state, reason, now), f) == Get(r, f)
    {
      FieldsOfRelabelled(r, state, reason, now, f);
    }
  }

  /** A lifecycle update by a working instance answers false unless the id names one lineage; if it does, the write
      fails and latches the instance, or every record named, and no other, is relabelled in its place. */
  lemma LifecycleMeaning(latches: Latches, disk: Disk, id: string, state: string, reason: Option<string>,
                         user: Option<string>, env: Env)
    requires Ready(latches, disk, env)
    ensures var e, rs := UpdateLifecycle(latches, disk, id, state, reason, user, env), RecordsOf(disk);
      if !NamesOne(rs, id, user) then e == Effect(latches, Stored(rs), Answer(false))
      else if env.write.Failed? then e == Effect(Latches(true, false), Stored(rs), UnavailableError)
      else
        && e.latches == latches && e.reply == Answer(true) && e.disk.Stored? && |e.disk.records| == |rs|
        && forall i | 0 <= i < |rs| ::
             if Named(rs[i], id, user) then Relabels(rs[i], e.disk.records[i], state, reason, env.now)
             else e.disk.records[i] == rs[i]
  {
    hide Updatable; hide NamesOne; hide Touched; hide Named; hide Relabels; hide Relabelled; hide Open;
    ReadyOpens(latches, disk, env);
    var rs := RecordsOf(disk);
    NamesOneIsUpdatable(rs, id, user);
    forall r { NamedIsTouched(r, id, user); }
    forall r { RelabelledRelabels(r, state, reason, env.now); }
  }

  /** The stored record a save replaces: of the same integration id and, if the saved one names a user, of that user. */
  predicate Mine(r: Record, rec: Record) {
    Get(r, IntegrationId) == Get(rec, IntegrationId) && (Get(rec, UserId).Str? ==> Get(r, UserId) == Get(rec, UserId))
  }

  /** The list with a record saved: in place of the first it replaces, or at the end. */
  ghost predicate Upserted(rs: seq<Record>, after: seq<Record>, rec: Record) {
    || (exists i ::
          0 <= i < |rs| && Mine(rs[i], rec) && (forall j | 0 <= j < i :: !Mine(rs[j], rec)) && after == rs[i := rec])
    || ((forall i | 0 <= i < |rs| :: !Mine(rs[i], rec)) && after == rs + [rec])
  }

  lemma {:induction false} SlotIsFirst(rs: seq<Record>, rec: Record)
    ensures var i := Slot(rs, Get(rec, IntegrationId), RecordUser(rec));
      && (i < |rs| ==> Mine(rs[i], rec))
      && forall j | 0 <= j < i :: !Mine(rs[j], rec)
  {
    if rs != [] {
      SlotIsFirst(rs[1..], rec);
      forall j | 0 <= j < Slot(rs, Get(rec, IntegrationId), RecordUser(rec))
        ensures !Mine(rs[j], rec)
      {
        if j > 0 { assert rs[1..][j - 1] == rs[j]; }
      }
    }
  }

  lemma PutUpserts(rs: seq<Record>, rec: Record)
    ensures Upserted(rs, Put(rs, rec), rec)
  {
    hide Mine;
    SlotIsFirst(rs, rec);
  }

  /** A save by a working instance is refused, or fails to be written and latches the instance, or leaves the record,
      stamped, in place of the one it replaces or at the end. */
  lemma SaveMeaning(latches: Latches, disk: Disk, rec: Record, env: Env)
    requires Ready(latches, disk, env) && TextOf(Get(rec, IntegrationId)) != ""
    ensures var e, rs := Save(latches, disk, rec, env), RecordsOf(disk);
      if !Savable(rs, rec) then e == Effect(latches, Stored(rs), ValueError)
      else if env.write.Failed? then e == Effect(Latches(true, false), Stored(rs), UnavailableError)
      else
        && e.latches == latches && e.reply.Saved? && StoredAs(rec, e.reply.saved, env.now)
        && e.disk.Stored? && Upserted(rs, e.disk.records, e.reply.saved)
  {
    hide Savable; hide Stamp; hide StoredAs; hide Put; hide Upserted;
    ReadyOpens(latches, disk, env);
    StampStores(rec, env.now);
    PutUpserts(RecordsOf(disk), Stamp(rec, env.now));
  }

  /** The fields that tell whose and which record it is. */
  predicate Identifying(f: Field) {
    match f
    case UserId | TenantId | IntegrationId | PublicationId | EventId | SignalId | LifecycleState => true
    case _ => false
  }

  /** The saved record says of the stored one nothing else than is stored. */
  ghost predicate Restates(rec: Record, r: Record) {
    && (forall f | Authoritative(f) :: Get(rec, f) == Get(r, f))
    && (forall f | Identifying(f) && f in rec && f in r :: rec[f] == r[f])
  }

  lemma IdentityFieldsIdentify(f: Field)
    ensures f in IDENTITY_FIELDS <==> Identifying(f)
  {
    OnlyIdentifying();
    if Identifying(f) { AllIdentifying(f); }
  }

  lemma OnlyIdentifying()
    ensures forall f | f in IDENTITY_FIELDS :: Identifying(f)
  {
  }

  lemma AllIdentifying(f: Field)
    requires Identifying(f)
    ensures f in IDENTITY_FIELDS
  {
  }

  lemma RestatesIs(rec: Record, r: Record)
    ensures Restates(rec, r) <==>
      SameContent(rec, r) && forall f | f in IDENTITY_FIELDS :: f in rec && f in r ==> rec[f] == r[f]
  {
    hide Authoritative; hide Identifying; hide SameContent;
    ContentIsAuthoritative(rec, r);
    forall f { IdentityFieldsIdentify(f); }
  }

  /** In a sound store over prefix-free tenants a tenant's record may be saved exactly when no other tenant has its
      integration id and it restates every record of the tenant with which it shares an id. */
  lemma SavableExactly(rs: seq<Record>, tenants: set<string>, tenant: string, rec: Record)
    requires Sound(rs, tenants) && PrefixFree(tenants) && "" !in tenants
    requires tenant in tenants && Get(rec, UserId) == Str(tenant)
    ensures Savable(rs, rec) <==>
      && (forall r | r in rs && Get(r, IntegrationId) == Get(rec, IntegrationId) :: Get(r, UserId) == Str(tenant))
      && (forall r | r in rs && Get(r, UserId) == Str(tenant) && ShareSome(rec, r) :: Restates(rec, r))
  {
    hide Sound; hide PrefixFree; hide Restates; hide SameContent; hide ShareSome; hide LookupOf; hide AmbiguousKeys;
    hide MapOf; hide Id;
    NoForeignId(rs, tenant, rec);
    SharersMayBeSaved(rs, tenants, tenant, rec);
  }

  lemma NoForeignId(rs: seq<Record>, tenant: string, rec: Record)
    ensures (forall i | 0 <= i < |rs| ::
               Get(rs[i], IntegrationId) == Get(rec, IntegrationId) ==> Visible(rs[i], Some(tenant)))
            <==>
            (forall r | r in rs && Get(r, IntegrationId) == Get(rec, IntegrationId) :: Get(r, UserId) == Str(tenant))
  {
  }

  /** The second half of that test. */
  ghost predicate MatchesNothingElse(rs: seq<Record>, rec: Record, user: Option<string>) {
    (Id(rec, ByPublication) != "" || Id(rec, ByEvent) != "" || Id(rec, BySignal) != "") ==>
      var found := LookupOf(rs, IndexOf(rs).ambiguous, rec, user);
      && !found.status.IdentityAmbiguous? && !found.status.IdentityCollision?
      && (found.record.Some? ==>
            && SameContent(rec, found.record.value)
            && forall f | f in IDENTITY_FIELDS ::
                 f in rec && f in found.record.value ==> rec[f] == found.record.value[f])
  }

  lemma SharesSome(rec: Record, r: Record)
    ensures ShareSome(rec, r) <==> Shares(rec, r)
    ensures ShareSome(rec, r) ==> Id(rec, ByPublication) != "" || Id(rec, ByEvent) != "" || Id(rec, BySignal) != ""
  {
  }

  lemma SharersMayBeSaved(rs: seq<Record>, tenants: set<string>, tenant: string, rec: Record)
    requires Sound(rs, tenants) && PrefixFree(tenants) && "" !in tenants
    requires tenant in tenants && Get(rec, UserId) == Str(tenant)
    ensures MatchesNothingElse(rs, rec, Some(tenant)) <==>
      forall r | r in rs && Get(r, UserId) == Str(tenant) && ShareSome(rec, r) :: Restates(rec, r)
  {
    hide Sound; hide PrefixFree; hide Restates; hide ShareSome; hide MatchesNothingElse;
    if MatchesNothingElse(rs, rec, Some(tenant)) {
      forall r | r in rs && Get(r, UserId) == Str(tenant) && ShareSome(rec, r)
        ensures Restates(rec, r)
      {
        MatchIsSole(rs, tenants, tenant, rec, r);
      }
    } else {
      RestatedMayBeSaved(rs, tenants, tenant, rec);
    }
  }

  lemma RestatesDoesNotCollide(rec: Record, r: Record)
    requires Restates(rec, r)
    ensures !Collides(rec, r) && SameContent(rec, r)
  {
    hide Restates; hide SameContent;
    RestatesIs(rec, r);
    SameContentSameIds(rec, r);
  }

  lemma FoundStatus(rs: seq<Record>, ambiguous: set<string>, rec: Record, user: Option<string>)
    ensures var found := LookupOf(rs, ambiguous, rec, user);
      && found.status in {IdentityAmbiguous, IdentityCollision, Absent, Created}
      && (found.status.Created? ==> found.record.Some?)
  {
    hide TargetsAmbiguousKey; hide AllSameContent;
  }

  /** If every record of the tenant that shares an id is restated, the save is not refused on its account. */
  lemma RestatedMayBeSaved(rs: seq<Record>, tenants: set<string>, tenant: string, rec: Record)
    requires Sound(rs, tenants) && PrefixFree(tenants) && "" !in tenants
    requires tenant in tenants && Get(rec, UserId) == Str(tenant)
    requires !MatchesNothingElse(rs, rec, Some(tenant))
    ensures exists r :: r in rs && Get(r, UserId) == Str(tenant) && ShareSome(rec, r) && !Restates(rec, r)
  {
    hide Sound; hide PrefixFree; hide Restates; hide SameContent; hide ShareSome; hide LookupOf; hide AmbiguousKeys;
    hide MapOf; hide Shares; hide Collides; hide TargetsAmbiguousKey; hide Id;
    SoundIsUnambiguous(rs, tenants);
    NoKeyNoHit(rec, Some(tenant));
    VerdictMeaning(rs, IndexOf(rs).ambiguous, rec, Some(tenant));
    FoundStatus(rs, IndexOf(rs).ambiguous, rec, Some(tenant));
    var found := LookupOf(rs, IndexOf(rs).ambiguous, rec, Some(tenant));
    if forall r | r in rs && Get(r, UserId) == Str(tenant) && ShareSome(rec, r) :: Restates(rec, r) {
      forall r | r in rs && Visible(r, Some(tenant))
        ensures !Collides(rec, r)
        ensures Shares(rec, r) ==> SameContent(r, rec) && SameContent(rec, r)
      {
        SharesSome(rec, r);
        CollidesShares(rec, r);
        if Restates(rec, r) { RestatesDoesNotCollide(rec, r); }
        SameContentFlips(rec, r);
      }
      forall a, b | a in rs && b in rs && Visible(a, Some(tenant)) && Shares(rec, a) && Visible(b, Some(tenant))
                    && Shares(rec, b)
        ensures SameContent(a, b)
      {
        SameContentTransitive(a, rec, b);
      }
      if found.record.Some? {
        FoundIsStored(rs, IndexOf(rs).ambiguous, rec, Some(tenant));
        RestatesIs(rec, found.record.value);
      }
    }
  }

  lemma CollidesShares(rec: Record, r: Record)
    ensures Collides(rec, r) ==> Shares(rec, r)
  {
  }

  /** If the save is not refused, the record found is the only one that shares an id, and is restated. */
  lemma MatchIsSole(rs: seq<Record>, tenants: set<string>, tenant: string, rec: Record, r: Record)
    requires Sound(rs, tenants) && PrefixFree(tenants) && "" !in tenants
    requires tenant in tenants && Get(rec, UserId) == Str(tenant) && MatchesNothingElse(rs, rec, Some(tenant))
    requires r in rs && Get(r, UserId) == Str(tenant) && ShareSome(rec, r)
    ensures Restates(rec, r)
  {
    hide Sound; hide PrefixFree; hide Restates; hide SameContent; hide ShareSome; hide LookupOf; hide AmbiguousKeys;
    hide MapOf; hide Shares; hide Collides; hide TargetsAmbiguousKey; hide Id;
    SharesSome(rec, r);
    assert Visible(r, Some(tenant));
    VerdictMeaning(rs, IndexOf(rs).ambiguous, rec, Some(tenant));
    FoundStatus(rs, IndexOf(rs).ambiguous, rec, Some(tenant));
    FoundIsStored(rs, IndexOf(rs).ambiguous, rec, Some(tenant));
    var first := LookupOf(rs, IndexOf(rs).ambiguous, rec, Some(tenant)).record.value;
    SharesSome(rec, first);
    RestatesIs(rec, first);
    assert SameContent(r, first);
    AlikeAreOne(rs, tenants, r, first, rec);
  }

  /** Two records of one tenant with the same content, of which one shares an id with anything, are one record. */
  lemma AlikeAreOne(rs: seq<Record>, tenants: set<string>, a: Record, b: Record, rec: Record)
    requires Sound(rs, tenants) && a in rs && b in rs && Get(a, UserId) == Get(b, UserId)
    requires SameContent(a, b) && ShareSome(rec, a)
    ensures a == b
  {
    hide SameContent;
    SameContentSameIds(a, b);
    IdsByKind(a);
    IdsByKind(b);
    var i :| 0 <= i < |rs| && rs[i] == a;
    var j :| 0 <= j < |rs| && rs[j] == b;
    SharesFlips(rs[i], rs[j]);
    assert Shares(rs[i], rs[j]);
  }

  lemma IdsByKind(r: Record)
    ensures Id(r, ByPublication) == TextOf(Get(r, PublicationId)) && Id(r, ByEvent) == TextOf(Get(r, EventId))
    ensures Id(r, BySignal) == TextOf(Get(r, SignalId))
  {
  }

  /** Both records name this id, but not the same one. */
  predicate PartOn(a: Record, b: Record, f: Field) {
    TextOf(Get(a, f)) != "" && TextOf(Get(b, f)) != "" && TextOf(Get(a, f)) != TextOf(Get(b, f))
  }

  predicate PartSome(a: Record, b: Record) {
    PartOn(a, b, PublicationId) || PartOn(a, b, EventId) || PartOn(a, b, SignalId)
  }

  lemma CollidesParts(rec: Record, r: Record)
    ensures Collides(rec, r) <==> ShareSome(rec, r) && PartSome(rec, r)
  {
  }

  /** A stored record of the tenant's that shares an id with the new one. */
  predicate Rival(rs: seq<Record>, tenant: string, rec: Record, r: Record) {
    r in rs && Get(r, UserId) == Str(tenant) && ShareSome(rec, r)
  }

  /** The whole verdict in the fields of the stored records, in a sound store over prefix-free tenants: a collision if
      one of the tenant's shares an id with the new record and parts from it on another; if none shares an id, a
      collision if the integration id is anyone's, and else absent; ambiguous if two share one; and else a conflict or
      a duplicate as the contents differ or agree. */
  lemma StatusExactly(rs: seq<Record>, tenants: set<string>, tenant: string, rec: Record)
    requires Sound(rs, tenants) && PrefixFree(tenants) && "" !in tenants
    requires tenant in tenants && Get(rec, UserId) == Str(tenant)
    ensures Verdict(rs, rec, Some(tenant)).status ==
      if exists r :: Rival(rs, tenant, rec, r) && PartSome(rec, r) then IdentityCollision
      else if forall r :: !Rival(rs, tenant, rec, r) then
        (if exists r :: r in rs && Get(r, IntegrationId) == Get(rec, IntegrationId) then IdentityCollision else Absent)
      else if exists r, q :: Rival(rs, tenant, rec, r) && Rival(rs, tenant, rec, q) && r != q then IdentityAmbiguous
      else if exists r, f :: Rival(rs, tenant, rec, r) && Authoritative(f) && Get(rec, f) != Get(r, f) then
        IntegrityConflict
      else DuplicateAccepted
  {
    hide Sound; hide PrefixFree; hide Verdict; hide AmbiguousKeys; hide SameContent; hide ShareSome; hide PartSome;
    hide TargetsAmbiguousKey; hide Collides; hide Shares; hide WithIntegrationId;
    SoundIsUnambiguous(rs, tenants);
    NoKeyNoHit(rec, Some(tenant));
    StatusMeaning(rs, rec, Some(tenant));
    RivalsAreSharers(rs, tenant, rec);
    RivalsDisagree(rs, tenants, tenant, rec);
    TakenIds(rs, Get(rec, IntegrationId));
    forall r { ContentIsAuthoritative(rec, r); }
  }

  lemma RivalsAreSharers(rs: seq<Record>, tenant: string, rec: Record)
    ensures forall r :: Rival(rs, tenant, rec, r) <==> r in rs && Visible(r, Some(tenant)) && Shares(rec, r)
    ensures SomeSharer(rs, rec, Some(tenant)) <==> exists r :: Rival(rs, tenant, rec, r)
    ensures SomeCollision(rs, rec, Some(tenant)) <==> exists r :: Rival(rs, tenant, rec, r) && PartSome(rec, r)
  {
    hide Shares; hide Collides; hide ShareSome; hide PartSome;
    forall r { SharesSome(rec, r); }
    forall r { CollidesParts(rec, r); }
  }

  lemma RivalsDisagree(rs: seq<Record>, tenants: set<string>, tenant: string, rec: Record)
    requires Sound(rs, tenants)
    ensures SharersDisagree(rs, rec, Some(tenant)) <==>
              exists r, q :: Rival(rs, tenant, rec, r) && Rival(rs, tenant, rec, q) && r != q
  {
    hide Sound; hide Shares; hide SameContent; hide ShareSome; hide Visible;
    RivalsAreSharers(rs, tenant, rec);
    forall r, q | Rival(rs, tenant, rec, r) && Rival(rs, tenant, rec, q)
      ensures SameContent(r, q) <==> r == q
    {
      if SameContent(r, q) { AlikeAreOne(rs, tenants, r, q, rec); }
      ContentIsAuthoritative(r, q);
    }
  }

  lemma TakenIds(rs: seq<Record>, id: Json)
    ensures WithIntegrationId(rs, id) != [] <==> exists r :: r in rs && Get(r, IntegrationId) == id
  {
    forall r { IntegrationIdMembers(rs, id, r); }
    if WithIntegrationId(rs, id) != [] { assert WithIntegrationId(rs, id)[0] in WithIntegrationId(rs, id); }
  }
}
