/** What the instances of the Project 1 store keep in memory during a run: when their incrementally maintained indexes
    are those a rebuild would give. */
module Project1Caches {
  import opened Values
  import opened Keys
  import opened Project1Records
  import opened Project1Index
  import opened Project1Identity
  import opened Project1Store
  import opened Project1Steps
  import opened Project1Runs
  import opened Project1Replay
  import opened Project1Repository

  /** In a sound store with prefix-free tenants a map holds a key exactly when a record is filed under it, and then
      that record. */
  lemma SoundSlot(rs: seq<Record>, tenants: set<string>, kind: IdKind, k: string)
    requires Sound(rs, tenants) && PrefixFree(tenants) && "" !in tenants
    ensures k in MapOf(rs, kind) <==> exists i :: 0 <= i < |rs| && Under(rs[i], kind, k)
    ensures forall i | 0 <= i < |rs| && Under(rs[i], kind, k) :: k in MapOf(rs, kind) && MapOf(rs, kind)[k] == rs[i]
  {
    hide Sound; hide Under; hide PrefixFree; hide Clash; hide MapOf; hide AmbiguousKeys;
    OneHolder(rs, tenants, kind, k);
    NoClash(rs, tenants, kind, k);
    IndexMeaning(rs, kind, k);
    assert IndexOf(rs).Of(kind) == MapOf(rs, kind);
    if i :| 0 <= i < |rs| && Under(rs[i], kind, k) { assert rs[i] in rs; }
  }

  /** The later list has a record of the same core, or one more record, at the place and is otherwise the same. */
  ghost predicate Renews(rs: seq<Record>, later: seq<Record>, i: nat)
    requires i < |later|
  {
    && |rs| <= |later|
    && (i < |rs| ==> SameCore(rs[i], later[i]))
    && (forall j | 0 <= j < |later| && j != i :: j < |rs| && later[j] == rs[j])
  }

  /** Filing a record that replaces one of its own core, or joins the list, gives the map of the new list. */
  lemma FiledIsMap(rs: seq<Record>, later: seq<Record>, i: nat, tenants: set<string>, kind: IdKind)
    requires Sound(rs, tenants) && Sound(later, tenants) && PrefixFree(tenants) && "" !in tenants
    requires i < |later| && Renews(rs, later, i)
    ensures MapOf(later, kind) == Filed(MapOf(rs, kind), {}, later[i], kind)
  {
    hide Sound; hide PrefixFree; hide MapOf; hide KeyOf; hide Id; hide SameCore;
    if i < |rs| { CoreIsWhatMatters(rs[i], later[i], later[i]); }
    var filed := Filed(MapOf(rs, kind), {}, later[i], kind);
    forall k
      ensures k in MapOf(later, kind) <==> k in filed
      ensures k in filed ==> MapOf(later, kind)[k] == filed[k]
    {
      SoundSlot(rs, tenants, kind, k);
      SoundSlot(later, tenants, kind, k);
    }
    assert MapOf(later, kind) == filed;
  }

  lemma IndexedIsIndex(rs: seq<Record>, later: seq<Record>, i: nat, tenants: set<string>)
    requires Sound(rs, tenants) && Sound(later, tenants) && PrefixFree(tenants) && "" !in tenants
    requires i < |later| && Renews(rs, later, i)
    ensures Indexed(IndexOf(rs), later[i]) == IndexOf(later)
  {
    hide Sound; hide PrefixFree; hide MapOf; hide AmbiguousKeys; hide Filed; hide Renews;
    SoundIsUnambiguous(rs, tenants);
    SoundIsUnambiguous(later, tenants);
    FiledIsMap(rs, later, i, tenants, ByPublication);
    FiledIsMap(rs, later, i, tenants, ByEvent);
    FiledIsMap(rs, later, i, tenants, BySignal);
  }

  /** When an ingest finds its record absent, indexing the new record alone gives the index of a full rebuild. */
  lemma AbsentIngestIndexes(rs: seq<Record>, rec: Record, tenant: string, now: real, tenants: set<string>)
    requires Sound(rs, tenants) && PrefixFree(tenants) && "" !in tenants
    requires tenant in tenants && Get(rec, UserId) == Str(tenant)
    requires Verdict(rs, rec, Some(tenant)).status.Absent?
    ensures Indexed(IndexOf(rs), Stamp(rec, now)) == IndexOf(rs + [Stamp(rec, now)])
  {
    hide Sound; hide PrefixFree; hide Verdict; hide Stamp; hide Indexed; hide IndexOf; hide SameCore;
    AppendKeepsSound(rs, rec, tenant, now, tenants);
    IndexedIsIndex(rs, rs + [Stamp(rec, now)], |rs|, tenants);
  }

  /** Relabelling records one after another and re-indexing each gives the index of a full rebuild. */
  lemma {:induction false} ReindexIsRebuild(rs: seq<Record>, at: seq<nat>, state: string, reason: Option<string>,
                                            now: real, tenants: set<string>)
    requires Sound(rs, tenants) && PrefixFree(tenants) && "" !in tenants && Within(at, |rs|)
    ensures SameCores(rs, RelabelAt(rs, at, state, reason, now))
    ensures Sound(RelabelAt(rs, at, state, reason, now), tenants)
    ensures ReindexAt(IndexOf(rs), rs, at, state, reason, now) == IndexOf(RelabelAt(rs, at, state, reason, now))
  {
    hide Sound; hide PrefixFree; hide Relabelled; hide Indexed; hide IndexOf; hide SameCore;
    if at == [] {
      forall i | 0 <= i < |rs| { SameCoreReflexive(rs[i]); }
    } else {
      var n := |at| - 1;
      var i := at[n];
      ReindexIsRebuild(rs, at[..n], state, reason, now, tenants);
      var mid := RelabelAt(rs, at[..n], state, reason, now);
      var relabelled := Relabelled(rs[i], state, reason, now);
      var later := mid[i := relabelled];
      RelabelledKeepsCore(rs[i], state, reason, now);
      UpdateKeepsSound(rs, later, tenants);
      CoresMeet(rs[i], mid[i], relabelled);
      IndexedIsIndex(mid, later, i, tenants);
    }
  }

  lemma CoresMeet(a: Record, b: Record, c: Record)
    requires SameCore(a, b) && SameCore(a, c)
    ensures SameCore(b, c)
  {
    hide SameContent;
    SameContentTransitive(b, a, c);
  }

  /** The maps are those of the list they are kept for. */
  predicate Tidy(cache: Cache) {
    cache.index == IndexOf(cache.records)
  }

  /** The system with what every instance has in memory. */
  datatype Cached = Cached(system: System, caches: seq<Cache>)

  /** What a call leaves in its instance's memory, by the contracts of Project1Repository. */
  function Remembered(cache: Cache, latches: Latches, disk: Disk, c: Call, reply: Reply): Cache {
    match c.op
    case IngestOp(rec, _) => AfterIngest(cache, latches, disk, rec, c.env, reply)
    case UpdateOp(id, state, reason, user) =>
      AfterUpdate(cache, latches, disk, id, state, reason, user, c.env, reply)
    case SaveOp(rec) => AfterSave(cache, latches, disk, rec, c.env, reply)
    case _ => if latches.Set() then cache else Reloaded(cache, disk, c.env)
  }

  function CachedStep(s: Cached, c: Call): (r: Cached)
    requires c.who < |s.system.latches| == |s.caches|
    ensures |r.system.latches| == |r.caches| == |s.caches|
  {
    var cache := Remembered(s.caches[c.who], s.system.latches[c.who], s.system.disk, c, EffectOf(s.system, c).reply);
    Cached(Step(s.system, c), s.caches[c.who := cache])
  }

  ghost function CachedRun(s: Cached, calls: seq<Call>): (r: Cached)
    requires |s.system.latches| == |s.caches| && Addressed(|s.caches|, calls)
    ensures |r.system.latches| == |r.caches| == |s.caches|
  {
    if calls == [] then s else CachedStep(CachedRun(s, calls[..|calls| - 1]), calls[|calls| - 1])
  }

  ghost predicate AllTidy(s: Cached) {
    forall who | 0 <= who < |s.caches| :: Tidy(s.caches[who])
  }

  /** The memory of the instance is the file's records and their rebuilt maps. */
  ghost predicate UpToDate(cache: Cache, disk: Disk) {
    disk.Stored? && cache == Cache(disk.records, IndexOf(disk.records))
  }

  lemma LoadedIsTidy(cache: Cache, disk: Disk, env: Env)
    requires Tidy(cache)
    ensures Tidy(Reloaded(cache, disk, env))
    ensures !Open(disk, env).latches.Set() ==> UpToDate(Reloaded(cache, disk, env), Open(disk, env).disk)
  {
    EmptyIndex();
    hide IndexOf;
  }

  lemma EmptyIndex()
    ensures IndexOf([]) == EMPTY_INDEX
  {
    assert KeysOf([], ByPublication) == KeysOf([], ByEvent) == KeysOf([], BySignal) == {};
  }

  /** A lawful call leaves its instance's maps tidy, and unless it latched or was refused for want of an integration id,
      its whole memory is that of the file it leaves. */
  lemma StepRemembers(cache: Cache, latches: Latches, disk: Disk, c: Call, tenants: set<string>)
    requires Sound(RecordsOf(disk), tenants) && PrefixFree(tenants) && "" !in tenants && Lawful(c.op, tenants)
    requires Tidy(cache)
    ensures var e := Apply(latches, disk, c.op, c.env);
      var after := Remembered(cache, latches, disk, c, e.reply);
      && Tidy(after)
      && (!latches.Set() && !e.latches.Set() && !e.reply.ValueError? ==> UpToDate(after, e.disk))
  {
    hide Sound; hide PrefixFree; hide IndexOf; hide Tidy; hide UpToDate; hide Apply; hide Remembered;
    match c.op
    case IngestOp(rec, user) => IngestRemembers(cache, latches, disk, c, tenants);
    case UpdateOp(id, state, reason, user) => UpdateRemembers(cache, latches, disk, c, tenants);
    case SaveOp(_) => assert false;
    case DuplicateOp(_, _) => ReadRemembers(cache, latches, disk, c);
    case ListOp(_, _) => ReadRemembers(cache, latches, disk, c);
  }

  lemma ReadRemembers(cache: Cache, latches: Latches, disk: Disk, c: Call)
    requires (c.op.DuplicateOp? || c.op.ListOp?) && Tidy(cache)
    ensures var e := Apply(latches, disk, c.op, c.env);
      var after := Remembered(cache, latches, disk, c, e.reply);
      && Tidy(after)
      && (!latches.Set() && !e.latches.Set() && !e.reply.ValueError? ==> UpToDate(after, e.disk))
  {
    hide Reloaded; hide Open; hide IndexHit; hide Seen; hide Tidy; hide UpToDate;
    LoadedIsTidy(cache, disk, c.env);
  }

  lemma IngestRemembers(cache: Cache, latches: Latches, disk: Disk, c: Call, tenants: set<string>)
    requires Sound(RecordsOf(disk), tenants) && PrefixFree(tenants) && "" !in tenants && Lawful(c.op, tenants)
    requires c.op.IngestOp? && Tidy(cache)
    ensures var e := Apply(latches, disk, c.op, c.env);
      var after := Remembered(cache, latches, disk, c, e.reply);
      && Tidy(after)
      && (!latches.Set() && !e.latches.Set() && !e.reply.ValueError? ==> UpToDate(after, e.disk))
  {
    hide Sound; hide PrefixFree; hide IndexOf; hide Indexed; hide Verdict; hide Stamp; hide Reloaded;
    LoadedIsTidy(cache, disk, c.env);
    var o := Open(disk, c.env);
    if !latches.Set() && !o.latches.Set() && TextOf(Get(c.op.rec, IntegrationId)) != "" {
      VerdictIsNoOutcome(o.disk.records, c.op.rec, c.op.user);
      if Verdict(o.disk.records, c.op.rec, c.op.user).status.Absent? {
        AbsentIngestIndexes(o.disk.records, c.op.rec, c.op.user.value, c.env.now, tenants);
      }
    }
  }

  lemma UpdateRemembers(cache: Cache, latches: Latches, disk: Disk, c: Call, tenants: set<string>)
    requires Sound(RecordsOf(disk), tenants) && PrefixFree(tenants) && "" !in tenants
    requires c.op.UpdateOp? && Tidy(cache)
    ensures var e := Apply(latches, disk, c.op, c.env);
      var after := Remembered(cache, latches, disk, c, e.reply);
      && Tidy(after)
      && (!latches.Set() && !e.latches.Set() && !e.reply.ValueError? ==> UpToDate(after, e.disk))
  {
    hide Sound; hide PrefixFree; hide IndexOf; hide Indexed; hide Updated; hide Updatable; hide Reloaded;
    hide RelabelAt; hide ReindexAt; hide TouchedAt;
    LoadedIsTidy(cache, disk, c.env);
    var o, op := Open(disk, c.env), c.op;
    if !latches.Set() && !o.latches.Set() {
      var rs := o.disk.records;
      RelabelIsUpdated(rs, op.id, op.state, op.reason, op.user, c.env.now);
      ReindexIsRebuild(rs, TouchedAt(rs, op.id, op.user), op.state, op.reason, c.env.now, tenants);
    }
  }

  /** In every lawful run over prefix-free tenants, whatever the interleaving of the instances, each instance's maps
      stay those a rebuild of its cached list would give. */
  lemma {:induction false} CachesStayTidy(s: Cached, calls: seq<Call>, tenants: set<string>)
    requires PrefixFree(tenants) && "" !in tenants && Sound(RecordsOf(s.system.disk), tenants)
    requires |s.system.latches| == |s.caches| && LawfulCalls(calls, |s.caches|, tenants) && AllTidy(s)
    ensures CachedRun(s, calls).system == Run(s.system, calls)
    ensures AllTidy(CachedRun(s, calls))
  {
    hide Sound; hide PrefixFree; hide Tidy; hide Apply; hide Remembered; hide Lawful;
    if calls != [] {
      var n := |calls| - 1;
      CachesStayTidy(s, calls[..n], tenants);
      RunKeepsSound(s.system, calls[..n], tenants);
      var mid, c := CachedRun(s, calls[..n]), calls[n];
      StepRemembers(mid.caches[c.who], mid.system.latches[c.who], mid.system.disk, c, tenants);
    }
  }

  function NothingCached(n: nat): Cached {
    Cached(Empty(n), seq(n, i requires 0 <= i < n => Cache([], EMPTY_INDEX)))
  }

  /** In every run over these tenants, from an empty store, all caches are tidy. */
  ghost predicate AlwaysTidy(tenants: set<string>) {
    forall n, calls | LawfulCalls(calls, n, tenants) :: AllTidy(CachedRun(NothingCached(n), calls))
  }

  /** The incrementally kept indexes are those of a rebuild in every run over a set of tenants exactly when no tenant's
      name, followed by the key separator, begins another's. */
  lemma CachesAreTidyExactlyForPrefixFreeTenants(tenants: set<string>)
    requires "" !in tenants
    ensures AlwaysTidy(tenants) <==> PrefixFree(tenants)
  {
    hide AlwaysTidy; hide Key;
    if PrefixFree(tenants) {
      PrefixFreeStaysTidy(tenants);
    } else {
      var u, v :| u in tenants && v in tenants && u != v && u + ":" <= v;
      MeetingKeysUntidy(tenants, u, v);
    }
  }

  lemma PrefixFreeStaysTidy(tenants: set<string>)
    requires PrefixFree(tenants) && "" !in tenants
    ensures AlwaysTidy(tenants)
  {
    hide Sound; hide PrefixFree; hide Lawful; hide CachedRun;
    EmptyIsSound(tenants);
    EmptyIndex();
    forall n, calls | LawfulCalls(calls, n, tenants)
      ensures AllTidy(CachedRun(NothingCached(n), calls))
    {
      CachesStayTidy(NothingCached(n), calls, tenants);
    }
  }

  lemma MeetingKeysUntidy(tenants: set<string>, u: string, v: string)
    requires u in tenants && v in tenants && u != v && u != "" && v != "" && u + ":" <= v
    ensures !AlwaysTidy(tenants)
  {
    hide Tidy; hide CachedStep; hide CachedRun;
    var first, second := SignalIngest(v, "1", "x"), SignalIngest(u, "2", v[|u| + 1..] + ":" + "x");
    var s := NothingCached(1);
    CachedRunOfTwo(s, first, second);
    UntidyPair(u, v);
    assert LawfulCalls([first, second], 1, tenants);
    assert !AllTidy(CachedRun(s, [first, second]));
  }

  lemma CachedRunOfTwo(s: Cached, c: Call, d: Call)
    requires c.who < |s.system.latches| == |s.caches| && d.who < |s.caches|
    ensures CachedRun(s, [c, d]) == CachedStep(CachedStep(s, c), d)
  {
    hide CachedStep;
    assert [c, d][..1] == [c] && [c][..0] == [];
    assert CachedRun(s, [c]) == CachedStep(CachedRun(s, [c][..0]), c);
  }

  /** After two ingests whose keys meet, the index kept in memory holds the key that a rebuild finds ambiguous. */
  lemma UntidyPair(u: string, v: string)
    requires u != v && u != "" && v != "" && u + ":" <= v
    ensures var first, second := SignalIngest(v, "1", "x"), SignalIngest(u, "2", v[|u| + 1..] + ":" + "x");
      var end := CachedStep(CachedStep(NothingCached(1), first), second);
      !Tidy(end.caches[0])
  {
    var a := v[|u| + 1..] + ":" + "x";
    var first, second := SignalIngest(v, "1", "x"), SignalIngest(u, "2", a);
    var r1, r2 := Stamp(first.op.rec, 0.0), Stamp(second.op.rec, 0.0);
    hide Stamp; hide SignalRecord; hide IndexOf; hide Indexed; hide Apply; hide Key; hide Tidy; hide Remembered;
    TwoTenantsStore(u, v, a, "x");
    FiledPair(u, v, a);
    var before := CachedStep(NothingCached(1), first).caches[0];
    SecondIsRemembered(before, r1, u, a);
    PairIsUntidy(r1, r2, u, v, a);
  }

  lemma FiledPair(u: string, v: string, a: string)
    requires u != v && u != "" && v != "" && a != ""
    ensures var r1, r2 := Stamp(SignalRecord(v, "1", "x"), 0.0), Stamp(SignalRecord(u, "2", a), 0.0);
      && Under(r1, BySignal, Key(v, "x")) && Under(r2, BySignal, Key(u, a))
      && Get(r1, UserId) == Str(v) && Get(r2, UserId) == Str(u) && Get(r1, IntegrationId) == Str("1")
  {
    var first, second := SignalRecord(v, "1", "x"), SignalRecord(u, "2", a);
    FiledAs(first, v, "x");
    FiledAs(second, u, a);
    FieldsOfStamp(first, 0.0, UserId);
    FieldsOfStamp(second, 0.0, UserId);
    FieldsOfStamp(first, 0.0, IntegrationId);
  }

  lemma SecondIsRemembered(cache: Cache, r1: Record, u: string, a: string)
    requires Get(r1, UserId) != Str(u) && Get(r1, IntegrationId) == Str("1")
    ensures var c := SignalIngest(u, "2", a);
      var r2, disk := Stamp(c.op.rec, 0.0), Stored([r1]);
      Remembered(cache, Latches(false, false), disk, c, Apply(Latches(false, false), disk, c.op, c.env).reply)
        == Cache([r1, r2], Indexed(IndexOf([r1]), r2))
  {
    hide Stamp; hide IndexOf; hide Indexed; hide Ingest;
    var c := SignalIngest(u, "2", a);
    NewRecordIsCreated([r1], c.op.rec, u);
    assert [r1] + [Stamp(c.op.rec, 0.0)] == [r1, Stamp(c.op.rec, 0.0)];
  }

  lemma PairIsUntidy(r1: Record, r2: Record, u: string, v: string, a: string)
    requires u + ":" <= v && a == v[|u| + 1..] + ":" + "x" && r1 != r2
    requires Under(r1, BySignal, Key(v, "x")) && Under(r2, BySignal, Key(u, a))
    ensures !Tidy(Cache([r1, r2], Indexed(IndexOf([r1]), r2)))
  {
    hide IndexOf; hide Indexed; hide AmbiguousKeys; hide Key; hide Holders;
    KeysMeet(u, v, "x");
    OneIsUnambiguous([r1]);
    HolderMembers([r1], BySignal, Key(v, "x"), r1);
    IncrementalEqualsRebuild([r1], r2);
    assert [r1] + [r2] == [r1, r2];
  }
}
