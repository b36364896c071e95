/** Whole runs of the Project 1 store: any number of instances, in any interleaving, over one shared file. */
module Project1Runs {
  import opened Values
  import opened Keys
  import opened Project1Records
  import opened Project1Index
  import opened Project1Identity
  import opened Project1Store
  import opened Project1Steps

  /** The shared file and every instance's latches. What an instance has cached is left out here because no call's
      effect depends on it, which is what the contracts of Project1Repository's methods prove; Project1Caches puts the
      caches back. */
  datatype System = System(disk: Disk, latches: seq<Latches>)

  datatype Call = Call(who: nat, op: Op, env: Env)

  ghost predicate Addressed(n: nat, calls: seq<Call>) {
    forall i | 0 <= i < |calls| :: calls[i].who < n
  }

  function EffectOf(s: System, c: Call): Effect
    requires c.who < |s.latches|
  {
    Apply(s.latches[c.who], s.disk, c.op, c.env)
  }

  function Step(s: System, c: Call): (r: System)
    requires c.who < |s.latches|
    ensures |r.latches| == |s.latches|
  {
    var e := EffectOf(s, c);
    System(e.disk, s.latches[c.who := e.latches])
  }

  ghost function Run(s: System, calls: seq<Call>): (r: System)
    requires Addressed(|s.latches|, calls)
    ensures |r.latches| == |s.latches|
  {
    if calls == [] then s else Step(Run(s, calls[..|calls| - 1]), calls[|calls| - 1])
  }

  /** The calls made by instances not latched at the time, in order. */
  ghost function Effective(s: System, calls: seq<Call>): seq<Call>
    requires Addressed(|s.latches|, calls)
  {
    if calls == [] then []
    else
      var before := calls[..|calls| - 1];
      var c := calls[|calls| - 1];
      Effective(s, before) + (if Run(s, before).latches[c.who].Set() then [] else [c])
  }

  /** What those calls answered. */
  ghost function EffectiveReplies(s: System, calls: seq<Call>): seq<Reply>
    requires Addressed(|s.latches|, calls)
  {
    if calls == [] then []
    else
      var before := calls[..|calls| - 1];
      var c := calls[|calls| - 1];
      EffectiveReplies(s, before)
        + (if Run(s, before).latches[c.who].Set() then [] else [EffectOf(Run(s, before), c).reply])
  }

  /** One atomic store, with no instances and no memory but the file. */
  ghost function AtomicDisk(disk: Disk, calls: seq<Call>): Disk {
    if calls == [] then disk
    else
      var c := calls[|calls| - 1];
      Apply(Latches(false, false), AtomicDisk(disk, calls[..|calls| - 1]), c.op, c.env).disk
  }

  ghost function AtomicReplies(disk: Disk, calls: seq<Call>): seq<Reply> {
    if calls == [] then []
    else
      var before := calls[..|calls| - 1];
      var c := calls[|calls| - 1];
      AtomicReplies(disk, before) + [Apply(Latches(false, false), AtomicDisk(disk, before), c.op, c.env).reply]
  }

  /** Every interleaving refines one atomic store: the file and every answer of an unlatched instance are those of a
      single store that makes the same calls in the same order, whichever instances made them. */
  lemma {:induction false} InterleavingRefinesAtomicStore(s: System, calls: seq<Call>)
    requires Addressed(|s.latches|, calls)
    ensures Run(s, calls).disk == AtomicDisk(s.disk, Effective(s, calls))
    ensures EffectiveReplies(s, calls) == AtomicReplies(s.disk, Effective(s, calls))
  {
    hide Apply;
    if calls != [] {
      var before := calls[..|calls| - 1];
      var c := calls[|calls| - 1];
      InterleavingRefinesAtomicStore(s, before);
      var mid := Run(s, before);
      if mid.latches[c.who].Set() {
        LatchedCallDoesNothing(mid.latches[c.who], mid.disk, c.op, c.env);
        assert Effective(s, calls) == Effective(s, before);
      } else {
        assert mid.latches[c.who] == Latches(false, false);
        var eff := Effective(s, calls);
        assert eff[..|eff| - 1] == Effective(s, before) && eff[|eff| - 1] == c;
      }
    }
  }

  /** Latches absorb: once an instance has latched, no continuation clears it, and a call of its own changes neither
      the file nor any other instance. */
  lemma {:induction false} LatchesAbsorb(s: System, calls: seq<Call>, who: nat)
    requires Addressed(|s.latches|, calls) && who < |s.latches| && s.latches[who].Set()
    ensures Run(s, calls).latches[who] == s.latches[who]
    ensures forall op, env :: Step(Run(s, calls), Call(who, op, env)) == Run(s, calls)
  {
    hide Apply;
    if calls != [] {
      var before := calls[..|calls| - 1];
      var c := calls[|calls| - 1];
      LatchesAbsorb(s, before, who);
      var mid := Run(s, before);
      if c.who == who { LatchedCallDoesNothing(mid.latches[who], mid.disk, c.op, c.env); }
    }
    var end := Run(s, calls);
    forall op, env
      ensures Step(end, Call(who, op, env)) == end
    {
      LatchedCallDoesNothing(end.latches[who], end.disk, op, env);
    }
  }

  /** The gateway's use of the store: an ingest carries its caller's name in the record and as the tenant. */
  ghost predicate Lawful(op: Op, tenants: set<string>) {
    match op
    case IngestOp(rec, user) => user.Some? && user.value in tenants && Get(rec, UserId) == Str(user.value)
    case UpdateOp(_, _, _, _) => true
    case SaveOp(_) => false
    case DuplicateOp(_, _) => true
    case ListOp(_, _) => true
  }

  ghost predicate LawfulCalls(calls: seq<Call>, n: nat, tenants: set<string>) {
    Addressed(n, calls) && forall i | 0 <= i < |calls| :: Lawful(calls[i].op, tenants)
  }

  /** Integration ids are unique, every record has a tenant, and no two records of one tenant share an identity. */
  ghost predicate Sound(rs: seq<Record>, tenants: set<string>) {
    && (forall i | 0 <= i < |rs| :: Get(rs[i], UserId).Str? && Get(rs[i], UserId).s in tenants)
    && (forall i, j | 0 <= i < j < |rs| :: Get(rs[i], IntegrationId) != Get(rs[j], IntegrationId))
    && (forall i, j | 0 <= i < j < |rs| && Get(rs[i], UserId) == Get(rs[j], UserId) :: !Shares(rs[i], rs[j]))
  }

  /** The later list continues the earlier one: nothing is removed, moved or changed in owner, ids or content. */
  ghost predicate Extends(rs: seq<Record>, later: seq<Record>) {
    |rs| <= |later| && SameCores(rs, later[..|rs|])
  }

  lemma ExtendsTransitive(a: seq<Record>, b: seq<Record>, c: seq<Record>)
    requires Extends(a, b) && Extends(b, c)
    ensures Extends(a, c)
  {
    hide SameContent;
    forall i | 0 <= i < |a|
      ensures SameCore(a[i], c[i])
    {
      assert SameCore(a[i], b[..|a|][i]) && SameCore(b[i], c[..|b|][i]);
      SameContentFlips(a[i], b[i]);
      SameContentTransitive(a[i], b[i], c[i]);
    }
  }

  lemma ExtendsReflexive(rs: seq<Record>)
    ensures Extends(rs, rs)
  {
    forall i | 0 <= i < |rs| { SameCoreReflexive(rs[i]); }
    assert rs[..|rs|] == rs;
  }

  lemma AppendExtends(rs: seq<Record>, rec: Record)
    ensures Extends(rs, rs + [rec])
  {
    ExtendsReflexive(rs);
    assert (rs + [rec])[..|rs|] == rs[..|rs|] == rs;
  }

  lemma SharesFlips(a: Record, b: Record)
    ensures Shares(a, b) <==> Shares(b, a)
  {
  }

  lemma UpdateKeepsSound(rs: seq<Record>, other: seq<Record>, tenants: set<string>)
    requires Sound(rs, tenants) && SameCores(rs, other)
    ensures Sound(other, tenants)
  {
    hide Shares; hide SameContent;
    forall i | 0 <= i < |rs|
      ensures Get(other[i], UserId) == Get(rs[i], UserId) && Get(other[i], IntegrationId) == Get(rs[i], IntegrationId)
    {
      assert SameCore(rs[i], other[i]);
    }
    forall i, j | 0 <= i < j < |rs| && Get(other[i], UserId) == Get(other[j], UserId)
      ensures !Shares(other[i], other[j])
    {
      CoreIsWhatMatters(rs[j], other[j], other[i]);
      CoreIsWhatMatters(rs[i], other[i], rs[j]);
      SharesFlips(rs[i], rs[j]);
      SharesFlips(other[i], rs[j]);
      assert SameCore(rs[i], other[i]) && SameCore(rs[j], other[j]);
    }
  }

  /** A new record keeps the store sound. */
  lemma AppendKeepsSound(rs: seq<Record>, rec: Record, tenant: string, now: real, tenants: set<string>)
    requires Sound(rs, tenants) && tenant in tenants && Get(rec, UserId) == Str(tenant)
    requires Verdict(rs, rec, Some(tenant)).status.Absent?
    ensures Sound(rs + [Stamp(rec, now)], tenants)
  {
    hide Stamp; hide SameContent; hide Verdict; hide TargetsAmbiguousKey; hide SharersDisagree; hide AmbiguousKeys;
    hide SomeCollision; hide Shares;
    var stored := Stamp(rec, now);
    StatusMeaning(rs, rec, Some(tenant));
    StampKeepsCore(rec, now);
    forall i | 0 <= i < |rs|
      ensures Get(rs[i], IntegrationId) != Get(stored, IntegrationId)
      ensures Get(rs[i], UserId) == Get(stored, UserId) ==> !Shares(rs[i], stored)
    {
      IntegrationIdMembers(rs, Get(rec, IntegrationId), rs[i]);
      if Get(rs[i], UserId) == Get(stored, UserId) {
        assert rs[i] in rs && Visible(rs[i], Some(tenant));
        CoreIsWhatMatters(rec, stored, rs[i]);
        SharesFlips(rec, rs[i]);
        SharesFlips(rs[i], stored);
      }
    }
  }

  /** One lawful call keeps the store sound and only extends it. */
  lemma StepKeepsSound(latches: Latches, disk: Disk, op: Op, env: Env, tenants: set<string>)
    requires Sound(RecordsOf(disk), tenants) && Lawful(op, tenants)
    ensures var after := RecordsOf(Apply(latches, disk, op, env).disk);
            Sound(after, tenants) && Extends(RecordsOf(disk), after)
  {
    hide Verdict; hide Sound; hide SameCores; hide Updatable; hide Stamp; hide IndexHit; hide Seen; hide Updated;
    var rs := RecordsOf(disk);
    var after := Apply(latches, disk, op, env).disk;
    ExtendsReflexive(rs);
    match op
    case IngestOp(rec, user) =>
      if RecordsOf(after) != rs {
        assert RecordsOf(after) == rs + [Stamp(rec, env.now)];
        AppendKeepsSound(rs, rec, user.value, env.now, tenants);
        AppendExtends(rs, Stamp(rec, env.now));
      }
    case UpdateOp(id, state, reason, user) =>
      UpdateKeepsCores(rs, id, state, reason, user, env.now);
      var updated := Updated(rs, id, state, reason, user, env.now);
      UpdateKeepsSound(rs, updated, tenants);
      assert updated[..|rs|] == updated;
    case DuplicateOp(_, _) =>
    case ListOp(_, _) =>
  }

  /** Every lawful run keeps integration ids unique and tenants' identities apart, and only ever appends. */
  lemma {:induction false} RunKeepsSound(s: System, calls: seq<Call>, tenants: set<string>)
    requires Sound(RecordsOf(s.disk), tenants) && LawfulCalls(calls, |s.latches|, tenants)
    ensures Sound(RecordsOf(Run(s, calls).disk), tenants)
    ensures Extends(RecordsOf(s.disk), RecordsOf(Run(s, calls).disk))
  {
    hide Sound; hide Extends; hide Apply;
    ExtendsReflexive(RecordsOf(s.disk));
    if calls != [] {
      var before := calls[..|calls| - 1];
      var c := calls[|calls| - 1];
      RunKeepsSound(s, before, tenants);
      var mid := Run(s, before);
      StepKeepsSound(mid.latches[c.who], mid.disk, c.op, c.env, tenants);
      ExtendsTransitive(RecordsOf(s.disk), RecordsOf(mid.disk), RecordsOf(Run(s, calls).disk));
    }
  }

  /** The record, or one differing only in bookkeeping fields, is stored. */
  ghost predicate Holds(rs: seq<Record>, rec: Record) {
    exists i :: 0 <= i < |rs| && SameCore(rec, rs[i])
  }

  lemma HoldsForever(rs: seq<Record>, later: seq<Record>, rec: Record)
    requires Holds(rs, rec) && Extends(rs, later)
    ensures Holds(later, rec)
  {
    hide SameContent;
    var i :| 0 <= i < |rs| && SameCore(rec, rs[i]);
    assert SameCore(rs[i], later[..|rs|][i]);
    SameContentFlips(rec, rs[i]);
    SameContentTransitive(rec, rs[i], later[i]);
    assert SameCore(rec, later[i]);
  }

  ghost predicate Identified(rec: Record) {
    Id(rec, ByPublication) != "" || Id(rec, ByEvent) != "" || Id(rec, BySignal) != ""
  }

  /** With prefix-free tenants a sound store has no ambiguous key. */
  lemma SoundIsUnambiguous(rs: seq<Record>, tenants: set<string>)
    requires Sound(rs, tenants) && PrefixFree(tenants) && "" !in tenants
    ensures AmbiguousKeys(rs) == {}
  {
    hide Clash; hide AmbiguousKeys; hide Sound; hide PrefixFree;
    forall k
      ensures k !in AmbiguousKeys(rs)
    {
      AmbiguityMeaning(rs, k);
      forall kind
        ensures !Clash(rs, kind, k)
      {
        if Clash(rs, kind, k) { NoClash(rs, tenants, kind, k); }
      }
    }
  }

  /** In a sound store with prefix-free tenants a key files one record at most. */
  lemma OneHolder(rs: seq<Record>, tenants: set<string>, kind: IdKind, k: string)
    requires Sound(rs, tenants) && PrefixFree(tenants) && "" !in tenants
    ensures forall i, j | 0 <= i < |rs| && 0 <= j < |rs| && Under(rs[i], kind, k) && Under(rs[j], kind, k) :: i == j
  {
    hide Shares; hide SameContent; hide PrefixFree; hide Key; hide Id;
    forall i, j | 0 <= i < |rs| && 0 <= j < |rs| && Under(rs[i], kind, k) && Under(rs[j], kind, k)
      ensures i == j
    {
      KeyInjective(tenants, Owner(rs[i]), Id(rs[i], kind), Owner(rs[j]), Id(rs[j], kind));
      if i < j {
        AgreeingShare(rs[i], rs[j], kind);
      } else if j < i {
        AgreeingShare(rs[j], rs[i], kind);
      }
    }
  }

  lemma NoClash(rs: seq<Record>, tenants: set<string>, kind: IdKind, k: string)
    requires Sound(rs, tenants) && PrefixFree(tenants) && "" !in tenants
    ensures !Clash(rs, kind, k)
  {
    hide Sound; hide Under; hide SameContent; hide PrefixFree;
    OneHolder(rs, tenants, kind, k);
    forall a, b | a in rs && b in rs && Under(a, kind, k) && Under(b, kind, k)
      ensures SameContent(a, b)
    {
      var i :| 0 <= i < |rs| && rs[i] == a;
      var j :| 0 <= j < |rs| && rs[j] == b;
      SameCoreReflexive(a);
    }
  }

  lemma AgreeingShare(a: Record, b: Record, kind: IdKind)
    requires Agrees(a, b, kind)
    ensures Shares(a, b)
  {
    match kind case ByPublication => case ByEvent => case BySignal =>
  }

  /** In a sound store with prefix-free tenants, what a tenant's record already accepted means for later ones:
      the record itself is a duplicate; the same three identities with other content are an integrity conflict;
      one identity kept and another changed are a collision. */
  lemma AcceptedRecordDecides(rs: seq<Record>, tenants: set<string>, tenant: string, rec: Record, target: Record)
    requires Sound(rs, tenants) && PrefixFree(tenants) && "" !in tenants
    requires Holds(rs, rec) && Identified(rec) && Get(rec, UserId) == Str(tenant)
    requires tenant in tenants && Get(target, UserId) == Str(tenant)
    ensures SameContent(target, rec) ==> Verdict(rs, target, Some(tenant)).status.DuplicateAccepted?
    ensures (forall kind :: Id(target, kind) == Id(rec, kind)) && !SameContent(target, rec) ==>
              Verdict(rs, target, Some(tenant)).status.IntegrityConflict?
    ensures Collides(target, rec) ==> Verdict(rs, target, Some(tenant)).status.IdentityCollision?
  {
    hide Sound; hide PrefixFree; hide Verdict; hide AmbiguousKeys; hide SameContent; hide Agrees; hide Differs;
    hide TargetsAmbiguousKey; hide WithIntegrationId; hide SharersDisagree; hide Id;
    SoundIsUnambiguous(rs, tenants);
    NoKeyNoHit(target, Some(tenant));
    StatusMeaning(rs, target, Some(tenant));
    var i :| 0 <= i < |rs| && SameCore(rec, rs[i]);
    assert rs[i] in rs && Visible(rs[i], Some(tenant));
    CoreIsWhatMatters(rec, rs[i], target);
    if SameContent(target, rec) || (forall kind :: Id(target, kind) == Id(rec, kind)) {
      SameIds(target, rec, rs[i]);
      OnlySharer(rs, tenants, tenant, target, i);
    }
  }

  lemma NoKeyNoHit(target: Record, user: Option<string>)
    ensures !TargetsAmbiguousKey(target, user, {})
  {
  }

  lemma SameIds(target: Record, rec: Record, stored: Record)
    requires Identified(rec) && SameCore(rec, stored)
    requires SameContent(target, rec) || forall kind :: Id(target, kind) == Id(rec, kind)
    ensures forall kind :: Id(target, kind) == Id(stored, kind)
    ensures Shares(target, stored) && !Collides(target, stored)
  {
    SameContentSameIds(rec, stored);
    if SameContent(target, rec) { SameContentSameIds(target, rec); }
  }

  /** A target with the identities of one stored record matches that record and no other. */
  lemma OnlySharer(rs: seq<Record>, tenants: set<string>, tenant: string, target: Record, i: nat)
    requires Sound(rs, tenants) && i < |rs| && Get(rs[i], UserId) == Str(tenant)
    requires forall kind :: Id(target, kind) == Id(rs[i], kind)
    requires Shares(target, rs[i]) && !Collides(target, rs[i])
    ensures forall r | r in rs && Visible(r, Some(tenant)) && Shares(target, r) :: r == rs[i]
    ensures SomeSharer(rs, target, Some(tenant)) && !SomeCollision(rs, target, Some(tenant))
    ensures !SharersDisagree(rs, target, Some(tenant))
  {
    hide SameContent;
    forall r | r in rs && Visible(r, Some(tenant)) && Shares(target, r)
      ensures r == rs[i]
    {
      var j :| 0 <= j < |rs| && rs[j] == r;
      SharesAlike(target, rs[i], rs[j]);
      SharesFlips(rs[i], rs[j]);
    }
    assert rs[i] in rs && Visible(rs[i], Some(tenant));
    SameCoreReflexive(rs[i]);
  }

  lemma SharesAlike(target: Record, a: Record, b: Record)
    requires forall kind :: Id(target, kind) == Id(a, kind)
    ensures Shares(target, b) <==> Shares(a, b)
  {
  }
}
