/** What single calls on the Project 1 store keep: failed writes, refused and carried-out lifecycle updates, and the
    indexed fast path of the duplicate check. */
module Project1Steps {
  import opened Values
  import opened Text
  import opened Keys
  import opened Project1Records
  import opened Project1Index
  import opened Project1Identity
  import opened Project1Store

  /** A call whose write fails leaves the file exactly as it was; at most an absent file has been created empty. */
  lemma FailedWriteChangesNothing(latches: Latches, disk: Disk, op: Op, env: Env)
    requires env.write.Failed?
    ensures var after := Apply(latches, disk, op, env).disk;
      RecordsOf(after) == RecordsOf(disk) && (after == disk || (disk.Missing? && after == Stored([])))
  {
    hide Verdict; hide Savable; hide Updatable; hide IndexHit; hide Seen;
    match op
    case IngestOp(_, _) =>
    case UpdateOp(_, _, _, _) =>
    case SaveOp(_) =>
    case DuplicateOp(_, _) =>
    case ListOp(_, _) =>
  }

  /** No call clears a latch, and a call on a latched instance does nothing. */
  lemma LatchedCallDoesNothing(latches: Latches, disk: Disk, op: Op, env: Env)
    requires latches.Set()
    ensures Apply(latches, disk, op, env).latches == latches && Apply(latches, disk, op, env).disk == disk
  {
    match op
    case IngestOp(_, _) =>
    case UpdateOp(_, _, _, _) =>
    case SaveOp(_) =>
    case DuplicateOp(_, _) =>
    case ListOp(_, _) =>
  }

  lemma FieldsOfRelabelled(rec: Record, state: string, reason: Option<string>, now: real, f: Field)
    requires f !in {LifecycleState, LifecycleReason, UpdatedAt}
    ensures Get(Relabelled(rec, state, reason, now), f) == Get(rec, f)
  {
  }

  lemma RelabelledKeepsCore(rec: Record, state: string, reason: Option<string>, now: real)
    ensures SameCore(rec, Relabelled(rec, state, reason, now))
  {
    hide Relabelled;
    forall f | f in AUTHORITATIVE_CONTENT_KEYS
      ensures Get(rec, f) == Get(Relabelled(rec, state, reason, now), f)
    {
      FieldsOfRelabelled(rec, state, reason, now, f);
    }
    FieldsOfRelabelled(rec, state, reason, now, UserId);
    FieldsOfRelabelled(rec, state, reason, now, IntegrationId);
  }

  lemma FieldsOfStamp(rec: Record, now: real, f: Field)
    requires f !in {CreatedAt, UpdatedAt}
    ensures Get(Stamp(rec, now), f) == Get(rec, f)
  {
  }

  lemma StampKeepsCore(rec: Record, now: real)
    ensures SameCore(rec, Stamp(rec, now))
  {
    hide Stamp;
    forall f | f in AUTHORITATIVE_CONTENT_KEYS
      ensures Get(rec, f) == Get(Stamp(rec, now), f)
    {
      FieldsOfStamp(rec, now, f);
    }
    FieldsOfStamp(rec, now, UserId);
    FieldsOfStamp(rec, now, IntegrationId);
  }

  /** The same records position by position, up to bookkeeping fields. */
  ghost predicate SameCores(rs: seq<Record>, other: seq<Record>) {
    |rs| == |other| && forall i | 0 <= i < |rs| :: SameCore(rs[i], other[i])
  }

  lemma SameCoresFlip(rs: seq<Record>, other: seq<Record>)
    requires SameCores(rs, other)
    ensures SameCores(other, rs)
  {
    forall i | 0 <= i < |rs|
      ensures SameCore(other[i], rs[i])
    {
      assert SameCore(rs[i], other[i]);
    }
  }

  /** Records of one core are filed, seen and matched alike. */
  lemma CoreIsWhatMatters(a: Record, b: Record, target: Record)
    requires SameCore(a, b)
    ensures forall kind :: Id(a, kind) == Id(b, kind)
    ensures forall user :: Visible(a, user) <==> Visible(b, user)
    ensures forall kind, k :: Under(a, kind, k) <==> Under(b, kind, k)
    ensures Shares(target, a) <==> Shares(target, b)
    ensures Collides(target, a) <==> Collides(target, b)
    ensures SameContent(target, a) <==> SameContent(target, b)
  {
    SameContentSameIds(a, b);
  }

  lemma CoresClashAlike(rs: seq<Record>, other: seq<Record>, kind: IdKind, k: string)
    requires SameCores(rs, other) && Clash(rs, kind, k)
    ensures Clash(other, kind, k)
  {
    hide Under; hide SameContent; hide SameCore;
    var a, b :| a in rs && b in rs && Under(a, kind, k) && Under(b, kind, k) && !SameContent(a, b);
    var i :| 0 <= i < |rs| && rs[i] == a;
    var j :| 0 <= j < |rs| && rs[j] == b;
    CoreIsWhatMatters(a, other[i], b);
    CoreIsWhatMatters(b, other[j], other[i]);
    SameContentFlips(a, b);
    SameContentFlips(b, other[i]);
    SameContentFlips(other[i], b);
    assert other[i] in other && other[j] in other;
  }

  lemma SameContentFlips(a: Record, b: Record)
    ensures SameContent(a, b) <==> SameContent(b, a)
  {
  }

  lemma CoresAmbiguousAlike(rs: seq<Record>, other: seq<Record>)
    requires SameCores(rs, other)
    ensures AmbiguousKeys(rs) == AmbiguousKeys(other)
  {
    hide Clash; hide AmbiguousKeys; hide SameCores;
    SameCoresFlip(rs, other);
    forall k
      ensures k in AmbiguousKeys(rs) <==> k in AmbiguousKeys(other)
    {
      AmbiguityMeaning(rs, k);
      AmbiguityMeaning(other, k);
      forall kind
        ensures Clash(rs, kind, k) <==> Clash(other, kind, k)
      {
        if Clash(rs, kind, k) { CoresClashAlike(rs, other, kind, k); }
        if Clash(other, kind, k) { CoresClashAlike(other, rs, kind, k); }
      }
    }
  }

  /** The verdict's status read off the records: order, bookkeeping fields and which match comes first do not matter. */
  lemma StatusMeaning(rs: seq<Record>, rec: Record, user: Option<string>)
    ensures Verdict(rs, rec, user).status ==
      if TargetsAmbiguousKey(rec, user, AmbiguousKeys(rs)) then IdentityAmbiguous
      else if SomeCollision(rs, rec, user) then IdentityCollision
      else if !SomeSharer(rs, rec, user) then
        (if WithIntegrationId(rs, Get(rec, IntegrationId)) != [] then IdentityCollision else Absent)
      else if SharersDisagree(rs, rec, user) then IdentityAmbiguous
      else if (forall r | r in rs && Visible(r, user) && Shares(rec, r) :: SameContent(rec, r)) then DuplicateAccepted
      else IntegrityConflict
  {
    hide Visible; hide Shares; hide Collides; hide SameContent; hide TargetsAmbiguousKey; hide AmbiguousKeys;
    VerdictMeaning(rs, IndexOf(rs).ambiguous, rec, user);
    var found := LookupOf(rs, IndexOf(rs).ambiguous, rec, user);
    if found.status.Created? {
      var first := found.record.value;
      assert first in Sharing(rs, rec, user);
      SharingMembers(rs, rec, user, first);
      forall r | r in rs && Visible(r, user) && Shares(rec, r)
        ensures SameContent(rec, r) <==> SameContent(rec, first)
      {
        assert SameContent(r, first) && SameContent(first, r);
        SameContentFlips(rec, r);
        SameContentFlips(rec, first);
        if SameContent(rec, r) { SameContentTransitive(rec, r, first); }
        if SameContent(rec, first) { SameContentTransitive(rec, first, r); }
      }
    }
  }

  /** Every stored record has a counterpart that is seen and matched as it is. */
  lemma Counterpart(rs: seq<Record>, other: seq<Record>, target: Record, user: Option<string>, a: Record)
    returns (b: Record)
    requires SameCores(rs, other) && a in rs
    ensures b in other && SameCore(a, b)
    ensures Visible(a, user) <==> Visible(b, user)
    ensures Shares(target, a) <==> Shares(target, b)
    ensures Collides(target, a) <==> Collides(target, b)
    ensures SameContent(target, a) <==> SameContent(target, b)
  {
    hide Visible; hide Shares; hide Collides; hide SameContent; hide SameCore;
    var i :| 0 <= i < |rs| && rs[i] == a;
    b := other[i];
    CoreIsWhatMatters(a, b, target);
  }

  lemma CoresMatchAlike(rs: seq<Record>, other: seq<Record>, target: Record, user: Option<string>)
    requires SameCores(rs, other)
    ensures SomeCollision(rs, target, user) ==> SomeCollision(other, target, user)
    ensures SomeSharer(rs, target, user) ==> SomeSharer(other, target, user)
  {
    hide Visible; hide Shares; hide Collides; hide SameCore; hide SameCores;
    if a :| a in rs && Visible(a, user) && Collides(target, a) {
      var b := Counterpart(rs, other, target, user, a);
    }
    if a :| a in rs && Visible(a, user) && Shares(target, a) {
      var b := Counterpart(rs, other, target, user, a);
    }
  }

  lemma CoresDisagreeAlike(rs: seq<Record>, other: seq<Record>, target: Record, user: Option<string>)
    requires SameCores(rs, other) && SharersDisagree(rs, target, user)
    ensures SharersDisagree(other, target, user)
  {
    hide Visible; hide Shares; hide Collides; hide SameCore; hide SameCores; hide SameContent;
    var a, b :| a in rs && b in rs && Visible(a, user) && Shares(target, a) && Visible(b, user) && Shares(target, b)
             && !SameContent(a, b);
    var c := Counterpart(rs, other, target, user, a);
    var d := Counterpart(rs, other, target, user, b);
    CoreIsWhatMatters(a, c, b);
    CoreIsWhatMatters(b, d, c);
    SameContentFlips(a, b);
    SameContentFlips(b, c);
  }

  lemma CoresAcceptAlike(rs: seq<Record>, other: seq<Record>, target: Record, user: Option<string>)
    requires SameCores(rs, other)
    requires forall r | r in rs && Visible(r, user) && Shares(target, r) :: SameContent(target, r)
    ensures forall r | r in other && Visible(r, user) && Shares(target, r) :: SameContent(target, r)
  {
    hide Visible; hide Shares; hide Collides; hide SameCore; hide SameCores; hide SameContent;
    SameCoresFlip(rs, other);
    forall r | r in other && Visible(r, user) && Shares(target, r)
      ensures SameContent(target, r)
    {
      var a := Counterpart(other, rs, target, user, r);
    }
  }

  lemma CoresTakeIdsAlike(rs: seq<Record>, other: seq<Record>, id: Json)
    requires SameCores(rs, other) && WithIntegrationId(rs, id) != []
    ensures WithIntegrationId(other, id) != []
  {
    hide SameContent;
    var a := WithIntegrationId(rs, id)[0];
    IntegrationIdMembers(rs, id, a);
    var i :| 0 <= i < |rs| && rs[i] == a;
    assert SameCore(rs[i], other[i]);
    IntegrationIdMembers(other, id, other[i]);
  }

  /** Bookkeeping fields never change the verdict on any record. */
  lemma CoreDeterminesVerdict(rs: seq<Record>, other: seq<Record>, rec: Record, user: Option<string>)
    requires SameCores(rs, other)
    ensures Verdict(rs, rec, user).status == Verdict(other, rec, user).status
  {
    hide SameCores; hide Verdict; hide TargetsAmbiguousKey; hide AmbiguousKeys; hide WithIntegrationId;
    hide SomeCollision; hide SomeSharer; hide SharersDisagree; hide Visible; hide Shares; hide SameContent;
    SameCoresFlip(rs, other);
    StatusMeaning(rs, rec, user);
    StatusMeaning(other, rec, user);
    CoresAmbiguousAlike(rs, other);
    CoresMatchAlike(rs, other, rec, user);
    CoresMatchAlike(other, rs, rec, user);
    if SharersDisagree(rs, rec, user) { CoresDisagreeAlike(rs, other, rec, user); }
    if SharersDisagree(other, rec, user) { CoresDisagreeAlike(other, rs, rec, user); }
    var id := Get(rec, IntegrationId);
    if WithIntegrationId(rs, id) != [] { CoresTakeIdsAlike(rs, other, id); }
    if WithIntegrationId(other, id) != [] { CoresTakeIdsAlike(other, rs, id); }
    if forall r | r in rs && Visible(r, user) && Shares(rec, r) :: SameContent(rec, r) {
      CoresAcceptAlike(rs, other, rec, user);
    } else if forall r | r in other && Visible(r, user) && Shares(rec, r) :: SameContent(rec, r) {
      CoresAcceptAlike(other, rs, rec, user);
    }
  }

  lemma UpdateKeepsCores(rs: seq<Record>, id: string, state: string, reason: Option<string>, user: Option<string>,
                         now: real)
    ensures SameCores(rs, Updated(rs, id, state, reason, user, now))
  {
    hide Relabelled; hide SameCore;
    forall i | 0 <= i < |rs|
      ensures SameCore(rs[i], Updated(rs, id, state, reason, user, now)[i])
    {
      RelabelledKeepsCore(rs[i], state, reason, now);
      SameCoreReflexive(rs[i]);
    }
  }

  lemma SameCoreReflexive(rec: Record)
    ensures SameCore(rec, rec)
  {
  }

  /** What a carried-out lifecycle update writes into a record. */
  ghost predicate Labelled(before: Record, after: Record, state: string, reason: Option<string>, now: real) {
    && Get(after, LifecycleState) == Str(Upper(Strip(state)))
    && Get(after, LifecycleReason) == (if reason.Some? then Str(reason.value) else Get(before, LifecycleReason))
    && Get(after, UpdatedAt) == Num(now)
  }

  lemma RelabelledIsLabelled(rec: Record, state: string, reason: Option<string>, now: real)
    ensures Labelled(rec, Relabelled(rec, state, reason, now), state, reason, now)
  {
    hide Upper; hide Strip;
  }

  /** A lifecycle update and the ingests do not interfere. When it is carried out it changes records of a single
      (publication, event, signal) lineage visible to its caller, only in their lifecycle fields, in place; and
      every later ingest, by anyone, of anything, gets the status it would have got without the update. */
  lemma LifecycleUpdateDoesNotInterfere(rs: seq<Record>, id: string, state: string, reason: Option<string>,
                                        user: Option<string>, env: Env, target: Record, caller: Option<string>)
    ensures var e := UpdateLifecycle(Latches(false, false), Stored(rs), id, state, reason, user, env);
      var after := e.disk;
      && after.Stored? && |after.records| == |rs|
      && (e.reply == Answer(true) ==> forall i | 0 <= i < |rs| ::
            if Touched(rs[i], id, user) then Labelled(rs[i], after.records[i], state, reason, env.now)
            else after.records[i] == rs[i])
      && (forall i, j | 0 <= i < |rs| && 0 <= j < |rs| && after.records[i] != rs[i] && after.records[j] != rs[j] ::
            Lineage(rs[i]) == Lineage(rs[j]) && Visible(rs[i], user))
      && (forall i, f | 0 <= i < |rs| && f !in {LifecycleState, LifecycleReason, UpdatedAt} ::
            Get(after.records[i], f) == Get(rs[i], f))
      && Verdict(after.records, target, caller).status == Verdict(rs, target, caller).status
  {
    hide Relabelled; hide Verdict; hide SameCore; hide Names; hide Visible; hide Lineage; hide Labelled;
    forall i | 0 <= i < |rs| { RelabelledIsLabelled(rs[i], state, reason, env.now); }
    var after := UpdateLifecycle(Latches(false, false), Stored(rs), id, state, reason, user, env).disk.records;
    UpdateKeepsCores(rs, id, state, reason, user, env.now);
    forall i | 0 <= i < |rs| { SameCoreReflexive(rs[i]); }
    CoreDeterminesVerdict(rs, after, target, caller);
    forall i, f | 0 <= i < |rs| && f !in {LifecycleState, LifecycleReason, UpdatedAt}
      ensures Get(after[i], f) == Get(rs[i], f)
    {
      FieldsOfRelabelled(rs[i], state, reason, env.now, f);
    }
  }

  /** When the name matches several lineages, or nothing, the update answers false and changes nothing. */
  lemma UnclearUpdateIsRefused(rs: seq<Record>, id: string, state: string, reason: Option<string>,
                               user: Option<string>, env: Env)
    requires env.lockOk && env.readOk
    requires (forall i | 0 <= i < |rs| :: !Touched(rs[i], id, user))
          || (exists i, j :: 0 <= i < |rs| && 0 <= j < |rs| && Touched(rs[i], id, user) && Touched(rs[j], id, user)
                          && Lineage(rs[i]) != Lineage(rs[j]))
    ensures UpdateLifecycle(Latches(false, false), Stored(rs), id, state, reason, user, env)
         == Effect(Latches(false, false), Stored(rs), Answer(false))
  {
    hide Touched; hide Lineage;
  }

  /** `is_duplicate_request` answers from its indexes only what the scan of the list would answer, for a named user
      always, and without a user whenever no stored owner's name begins with "global:". */
  lemma FastPathAgreesWithScan(rs: seq<Record>, id: string, user: Option<string>)
    requires user.Some? || forall rec | rec in rs :: !("global:" <= Owner(rec))
    ensures IndexHit(rs, id, user) || Seen(rs, id, user) <==> Seen(rs, id, user)
  {
    hide Names; hide MapOf; hide Visible;
    var k := Key(if user.Some? && user.value != "" then user.value else "global", id);
    if IndexHit(rs, id, user) {
      var kind := if k in MapOf(rs, BySignal) then BySignal
                  else if k in MapOf(rs, ByPublication) then ByPublication else ByEvent;
      var c := MapOf(rs, kind)[k];
      HeldRecord(rs, kind, k);
      HitIsNamed(c, kind, id, user);
      var i :| 0 <= i < |rs| && rs[i] == c;
      assert Touched(rs[i], id, user);
    }
  }

  lemma HeldRecord(rs: seq<Record>, kind: IdKind, k: string)
    requires k in MapOf(rs, kind)
    ensures MapOf(rs, kind)[k] in rs && Under(MapOf(rs, kind)[k], kind, k)
  {
    hide Under;
    Project1Index.SlotMeaning(rs, kind, k);
    HolderMembers(rs, kind, k, Holders(rs, kind, k)[0]);
  }

  lemma GlobalHasNoSeparator(p: string)
    ensures !(p + ":" <= "global")
  {
    assert forall i | 0 <= i < |"global"| :: "global"[i] != ':';
    assert (p + ":")[|p|] == ':';
  }

  lemma HitIsNamed(c: Record, kind: IdKind, id: string, user: Option<string>)
    requires Visible(c, user)
    requires user.Some? || !("global:" <= Owner(c))
    requires Under(c, kind, Key(if user.Some? && user.value != "" then user.value else "global", id))
    ensures Names(c, id)
  {
    var owner := if user.Some? && user.value != "" then user.value else "global";
    if Owner(c) == owner {
      KeyCancels(owner, id, Id(c, kind));
    } else if |owner| < |Owner(c)| {
      EqualKeys(owner, id, Owner(c), Id(c, kind));
      assert false;
    } else if |Owner(c)| < |owner| {
      EqualKeys(Owner(c), Id(c, kind), owner, id);
      GlobalHasNoSeparator(Owner(c));
      assert false;
    } else {
      EqualLengthOwners(owner, id, Owner(c), Id(c, kind));
      assert false;
    }
  }
}
