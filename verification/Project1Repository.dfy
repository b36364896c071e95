/** The file-backed Project 1 repository: one process's view of the shared file. No method asks anything of the cached
    records or indexes, which other instances make stale; each call is specified by Project1Store on the file alone. */
module Project1Repository {
  import opened Values
  import opened Text
  import opened Project1Records
  import opened Project1Index
  import opened Project1Identity
  import opened Project1Listing
  import opened Project1Store
  import Keys

  class SharedFile {
    var disk: Disk

    constructor (disk: Disk)
      ensures this.disk == disk
    {
      this.disk := disk;
    }
  }

  datatype Cache = Cache(records: seq<Record>, index: Index)

  /** What loading leaves in memory: a fresh view of the file, nothing, or the old view if the file was not read. */
  function Reloaded(cache: Cache, disk: Disk, env: Env): Cache {
    if !env.lockOk then cache
    else match disk
      case Missing => Cache([], EMPTY_INDEX)
      case Malformed => if env.readOk then Cache([], EMPTY_INDEX) else cache
      case Stored(rs) => if env.readOk then Cache(rs, IndexOf(rs)) else cache
  }

  predicate Within(at: seq<nat>, n: nat) {
    forall m | 0 <= m < |at| :: at[m] < n
  }

  /** Positions of the records a lifecycle update names, in order. */
  function TouchedAt(rs: seq<Record>, id: string, user: Option<string>): (at: seq<nat>)
    ensures Within(at, |rs|)
  {
    if rs == [] then []
    else
      var n := |rs| - 1;
      TouchedAt(rs[..n], id, user) + (if Touched(rs[n], id, user) then [n] else [])
  }

  /** Relabelling the records at the given positions one after another. */
  function RelabelAt(rs: seq<Record>, at: seq<nat>, state: string, reason: Option<string>, now: real): (r: seq<Record>)
    requires Within(at, |rs|)
    ensures |r| == |rs|
  {
    if at == [] then rs
    else
      var i := at[|at| - 1];
      RelabelAt(rs, at[..|at| - 1], state, reason, now)[i := Relabelled(rs[i], state, reason, now)]
  }

  /** The index after re-indexing each of those records in turn. */
  function ReindexAt(ix: Index, rs: seq<Record>, at: seq<nat>, state: string, reason: Option<string>, now: real): Index
    requires Within(at, |rs|)
  {
    if at == [] then ix
    else
      var i := at[|at| - 1];
      Indexed(ReindexAt(ix, rs, at[..|at| - 1], state, reason, now), Relabelled(rs[i], state, reason, now))
  }

  /** What an ingest leaves in memory: the loaded view, extended by the record when one was created. */
  function AfterIngest(cache: Cache, latches: Latches, disk: Disk, rec: Record, env: Env, reply: Reply): Cache {
    if TextOf(Get(rec, IntegrationId)) == "" || latches.Set() then cache
    else
      var loaded := Reloaded(cache, disk, env);
      if reply.Ingested? && reply.record.Some? && (reply.status.Created? || reply.status.DurabilityUncertain?) then
        Cache(loaded.records + [reply.record.value], Indexed(loaded.index, reply.record.value))
      else loaded
  }

  function AfterUpdate(cache: Cache, latches: Latches, disk: Disk, id: string, state: string, reason: Option<string>,
                       user: Option<string>, env: Env, reply: Reply): Cache
  {
    if latches.Set() then cache
    else
      var loaded := Reloaded(cache, disk, env);
      if reply == Answer(true) then
        var at := TouchedAt(loaded.records, id, user);
        Cache(RelabelAt(loaded.records, at, state, reason, env.now),
              ReindexAt(loaded.index, loaded.records, at, state, reason, env.now))
      else loaded
  }

  function AfterSave(cache: Cache, latches: Latches, disk: Disk, rec: Record, env: Env, reply: Reply): Cache {
    if TextOf(Get(rec, IntegrationId)) == "" || latches.Set() then cache
    else
      var loaded := Reloaded(cache, disk, env);
      if reply.Saved? then Cache(Put(loaded.records, reply.saved), Indexed(loaded.index, reply.saved)) else loaded
  }

  class Repository {
    const file: SharedFile
    var unavailable: bool
    var corrupt: bool
    var records: seq<Record>
    var publicationMap: map<string, Record>
    var eventMap: map<string, Record>
    var signalMap: map<string, Record>
    var ambiguousKeys: set<string>

    function Flags(): Latches
      reads this
    {
      Latches(unavailable, corrupt)
    }

    function Held(): Index
      reads this
    {
      Index(publicationMap, eventMap, signalMap, ambiguousKeys)
    }

    function View(): Cache
      reads this
    {
      Cache(records, Held())
    }

    constructor (file: SharedFile, env: Env)
      modifies file
      ensures this.file == file
      ensures Flags() == Open(old(file.disk), env).latches && file.disk == Open(old(file.disk), env).disk
      ensures View() == Reloaded(Cache([], EMPTY_INDEX), old(file.disk), env)
    {
      this.file := file;
      unavailable, corrupt, records := false, false, [];
      publicationMap, eventMap, signalMap, ambiguousKeys := map[], map[], map[], {};
      new;
      var raised := Load(env);
      if raised {
        unavailable := true;
      }
    }

    method SetIndex(index: Index)
      modifies this`publicationMap, this`eventMap, this`signalMap, this`ambiguousKeys
      ensures Held() == index
    {
      publicationMap, eventMap, signalMap, ambiguousKeys :=
        index.publications, index.events, index.signals, index.ambiguous;
    }

    /** `_rebuild_indexes_unlocked` */
    method RebuildIndexes()
      modifies this`publicationMap, this`eventMap, this`signalMap, this`ambiguousKeys
      ensures Held() == IndexOf(records)
    {
      var index := Rebuild(records);
      SetIndex(index);
    }

    /** `_index_record_unlocked` */
    method IndexRecord(rec: Record)
      modifies this`publicationMap, this`eventMap, this`signalMap
      ensures Held() == Indexed(old(Held()), rec)
    {
      if Id(rec, ByPublication) != "" && KeyOf(rec, ByPublication) !in ambiguousKeys {
        publicationMap := publicationMap[KeyOf(rec, ByPublication) := rec];
      }
      if Id(rec, ByEvent) != "" && KeyOf(rec, ByEvent) !in ambiguousKeys {
        eventMap := eventMap[KeyOf(rec, ByEvent) := rec];
      }
      if Id(rec, BySignal) != "" && KeyOf(rec, BySignal) !in ambiguousKeys {
        signalMap := signalMap[KeyOf(rec, BySignal) := rec];
      }
    }

    /** `_flush_to_storage_unlocked`: the file is replaced as a whole or not at all. */
    method Flush(outcome: WriteOutcome) returns (written: bool)
      modifies file
      ensures written == !outcome.Failed?
      ensures file.disk == if written then Stored(records) else old(file.disk)
    {
      written := !outcome.Failed?;
      if written {
        file.disk := Stored(records);
      }
    }

    /** Taking the process lock and `_load_from_storage_unlocked`; raised is StorageUnavailableError. */
    method Load(env: Env) returns (raised: bool)
      requires !unavailable && !corrupt
      modifies this, file
      ensures file.disk == Open(old(file.disk), env).disk
      ensures Latches(unavailable || raised, corrupt) == Open(old(file.disk), env).latches
      ensures View() == Reloaded(old(View()), old(file.disk), env)
      ensures !unavailable && !corrupt && !raised ==> file.disk == Stored(records) && Held() == IndexOf(records)
    {
      if !env.lockOk {
        return true;
      }
      if file.disk.Missing? {
        records := [];
        SetIndex(EMPTY_INDEX);
        var written := Flush(env.initialWrite);
        if !written {
          unavailable := true;
          return true;
        }
        assert EMPTY_INDEX == IndexOf([]);
        return false;
      }
      if !env.readOk {
        unavailable := true;
      } else if file.disk.Malformed? {
        corrupt, records := true, [];
        SetIndex(EMPTY_INDEX);
      } else {
        records := file.disk.records;
        RebuildIndexes();
      }
      return false;
    }

    /** `ingest_authoritative_record` up to the decision: the identity scan, the content comparison, and the check
        that the integration id is free. */
    method Judge(rec: Record, user: Option<string>) returns (reply: Reply)
      requires Held() == IndexOf(records)
      ensures reply == Verdict(records, rec, user)
    {
      hide IndexOf; hide LookupOf; hide SameContent; hide Visible;
      var found := FindAuthoritativeLookup(records, ambiguousKeys, rec, user);
      FoundRecord(records, ambiguousKeys, rec, user);
      if found.status.IdentityAmbiguous? || found.status.IdentityCollision? {
        return Ingested(found.status, found.record);
      }
      if found.record.Some? {
        var identical := AreContentsIdentical(rec, found.record.value);
        return Ingested(if identical then DuplicateAccepted else IntegrityConflict, found.record);
      }
      var i := 0;
      while i < |records|
        invariant 0 <= i <= |records|
        invariant WithIntegrationId(records[..i], Get(rec, IntegrationId)) == []
      {
        assert records[..i + 1][..i] == records[..i];
        if Get(records[i], IntegrationId) == Get(rec, IntegrationId) {
          WithIntegrationIdPrefix(records, i + 1, Get(rec, IntegrationId));
          return Ingested(IdentityCollision, Some(records[i]));
        }
        i := i + 1;
      }
      assert records[..i] == records;
      return Ingested(Absent, None);
    }

    /** The creating half of `ingest_authoritative_record`: append, index, flush, and roll back if the flush fails. */
    method Create(rec: Record, user: Option<string>, env: Env) returns (reply: Reply)
      requires Held() == IndexOf(records)
      requires WithIntegrationId(records, Get(rec, IntegrationId)) == []
      modifies this`records, this`publicationMap, this`eventMap, this`signalMap, this`ambiguousKeys, file
      ensures reply == match env.write
                       case Failed => Ingested(PersistenceFailure, None)
                       case Durable => Ingested(Created, Some(Stamp(rec, env.now)))
                       case Uncertain => Ingested(DurabilityUncertain, Some(Stamp(rec, env.now)))
      ensures env.write.Failed? ==> View() == old(View()) && file.disk == old(file.disk)
      ensures !env.write.Failed? ==>
        && View() == Cache(old(records) + [Stamp(rec, env.now)], Indexed(old(Held()), Stamp(rec, env.now)))
        && file.disk == Stored(records)
    {
      hide IndexOf; hide Indexed; hide Visible; hide Stamp;
      var previous := records;
      var stored := Stamp(rec, env.now);
      var existing := FindSlot(Get(rec, IntegrationId), user);
      if existing < |records| {
        // The overwrite branch: Judge has already refused every taken integration id.
        SlotHolds(records, Get(rec, IntegrationId), user);
        IntegrationIdMembers(records, Get(rec, IntegrationId), records[existing]);
        assert false;
      } else {
        records := records + [stored];
      }
      IndexRecord(stored);
      var written := Flush(env.write);
      if !written {
        records := previous;
        RebuildIndexes();
        return Ingested(PersistenceFailure, None);
      }
      return Ingested(if env.write.Durable? then Created else DurabilityUncertain, Some(stored));
    }

    /** `ingest_authoritative_record`. Whatever this instance had cached, the verdict, the file and the flags are
        those of the atomic store; after a failed write the records and indexes are as they were loaded. */
    method IngestAuthoritativeRecord(rec: Record, user: Option<string>, env: Env) returns (reply: Reply)
      modifies this, file
      ensures Effect(Flags(), file.disk, reply) == Ingest(old(Flags()), old(file.disk), rec, user, env)
      ensures View() == AfterIngest(old(View()), old(Flags()), old(file.disk), rec, env, reply)
    {
      hide IndexOf; hide Indexed; hide Verdict; hide Stamp;
      if TextOf(Get(rec, IntegrationId)) == "" {
        return ValueError;
      }
      if unavailable {
        return Ingested(StorageUnavailable, None);
      }
      if corrupt {
        return Ingested(StorageCorrupt, None);
      }
      var raised := Load(env);
      if raised {
        unavailable := true;
      }
      if unavailable {
        return Ingested(StorageUnavailable, None);
      }
      if corrupt {
        return Ingested(StorageCorrupt, None);
      }
      reply := Judge(rec, user);
      if reply.status.Absent? {
        AbsentIsFree(records, rec, user);
        reply := Create(rec, user, env);
      } else {
        VerdictIsNoOutcome(records, rec, user);
      }
    }

    /** `update_lifecycle_state` */
    method UpdateLifecycleState(id: string, state: string, reason: Option<string>, user: Option<string>, env: Env)
      returns (reply: Reply)
      modifies this, file
      ensures Effect(Flags(), file.disk, reply)
           == UpdateLifecycle(old(Flags()), old(file.disk), id, state, reason, user, env)
      ensures View() == AfterUpdate(old(View()), old(Flags()), old(file.disk), id, state, reason, user, env, reply)
    {
      hide IndexOf; hide Updatable; hide Updated; hide RelabelAt; hide ReindexAt; hide TouchedAt;
      if unavailable {
        return UnavailableError;
      }
      if corrupt {
        return CorruptError;
      }
      var raised := Load(env);
      if raised {
        unavailable := true;
      }
      if unavailable {
        return UnavailableError;
      }
      if corrupt {
        return CorruptError;
      }
      var matching, oneLineage := FindTouched(id, user);
      if !oneLineage || matching == [] {
        return Answer(false);
      }
      RelabelIsUpdated(records, id, state, reason, user, env.now);
      var written := Relabel(matching, state, reason, env);
      if !written {
        unavailable := true;
        return UnavailableError;
      }
      return Answer(true);
    }

    /** The matching half of `update_lifecycle_state`. */
    method FindTouched(id: string, user: Option<string>) returns (matching: seq<nat>, oneLineage: bool)
      ensures matching == TouchedAt(records, id, user)
      ensures forall m, n | 0 <= m < n < |matching| :: matching[m] < matching[n]
      ensures oneLineage && matching != [] <==> Updatable(records, id, user)
    {
      hide Touched; hide Updatable; hide Lineage; hide Visible; hide Names; hide RelabelAt;
      matching := [];
      var i := 0;
      while i < |records|
        invariant 0 <= i <= |records|
        invariant matching == TouchedAt(records[..i], id, user)
      {
        assert records[..i + 1][..i] == records[..i];
        if Visible(records[i], user) {
          if Names(records[i], id) {
            matching := matching + [i];
          }
        }
        TouchedIs(records[i], id, user);
        i := i + 1;
      }
      assert records[..i] == records;
      oneLineage := SameLineage(matching);
      UpdatableAt(records, id, user);
      TouchedAscending(records, id, user);
    }

    /** Whether the records at the given positions are of one lineage. */
    method SameLineage(matching: seq<nat>) returns (same: bool)
      requires Within(matching, |records|)
      ensures same <==> forall m | 0 <= m < |matching| :: Lineage(records[matching[m]]) == Lineage(records[matching[0]])
    {
      hide Lineage;
      if |matching| <= 1 {
        return true;
      }
      var lineages: set<(Json, Json, Json)> := {};
      var n := 0;
      while n < |matching|
        invariant 0 <= n <= |matching|
        invariant lineages == set m | 0 <= m < n :: Lineage(records[matching[m]])
      {
        lineages := lineages + {Lineage(records[matching[n]])};
        n := n + 1;
      }
      LineageCount(records, matching, lineages);
      return |lineages| <= 1;
    }

    /** The writing half of `update_lifecycle_state`: relabel, re-index, flush, and roll back if the flush fails. */
    method Relabel(matching: seq<nat>, state: string, reason: Option<string>, env: Env) returns (written: bool)
      requires Held() == IndexOf(records)
      requires Within(matching, |records|)
      requires forall m, n | 0 <= m < n < |matching| :: matching[m] < matching[n]
      modifies this`records, this`publicationMap, this`eventMap, this`signalMap, this`ambiguousKeys, file
      ensures written == !env.write.Failed?
      ensures !written ==> View() == old(View()) && file.disk == old(file.disk)
      ensures written ==>
        && View() == Cache(RelabelAt(old(records), matching, state, reason, env.now),
                           ReindexAt(old(Held()), old(records), matching, state, reason, env.now))
        && file.disk == Stored(records)
    {
      hide IndexOf; hide Indexed; hide Relabelled;
      var previous := records;
      var n := 0;
      while n < |matching|
        invariant 0 <= n <= |matching| && Within(matching[..n], |previous|)
        invariant records == RelabelAt(previous, matching[..n], state, reason, env.now)
        invariant Held() == ReindexAt(old(Held()), previous, matching[..n], state, reason, env.now)
        invariant forall m | n <= m < |matching| :: records[matching[m]] == previous[matching[m]]
        modifies this`records, this`publicationMap, this`eventMap, this`signalMap
      {
        var i := matching[n];
        assert matching[..n + 1][..n] == matching[..n];
        var relabelled := Relabelled(records[i], state, reason, env.now);
        records := records[i := relabelled];
        IndexRecord(relabelled);
        n := n + 1;
      }
      assert matching[..n] == matching;
      written := Flush(env.write);
      if !written {
        records := previous;
        RebuildIndexes();
      }
    }

    /** `is_duplicate_request` */
    method IsDuplicateRequest(id: string, user: Option<string>, env: Env) returns (reply: Reply)
      modifies this, file
      ensures Effect(Flags(), file.disk, reply) == IsDuplicate(old(Flags()), old(file.disk), id, user, env)
      ensures View() == if old(Flags().Set()) then old(View()) else Reloaded(old(View()), old(file.disk), env)
    {
      hide IndexOf; hide Touched; hide MapOf; hide AmbiguousKeys;
      if unavailable {
        return UnavailableError;
      }
      if corrupt {
        return CorruptError;
      }
      var raised := Load(env);
      if raised {
        unavailable := true;
      }
      if unavailable {
        return UnavailableError;
      }
      if corrupt {
        return CorruptError;
      }
      IndexParts(records);
      var k := Keys.Key(if user.Some? && user.value != "" then user.value else "global", id);
      if k in signalMap || k in publicationMap || k in eventMap {
        var candidate := if k in signalMap then signalMap[k]
                         else if k in publicationMap then publicationMap[k] else eventMap[k];
        if Visible(candidate, user) {
          return Answer(true);
        }
      }
      var i := 0;
      while i < |records|
        invariant 0 <= i <= |records|
        invariant forall j | 0 <= j < i :: !Touched(records[j], id, user)
        modifies {}
      {
        TouchedIs(records[i], id, user);
        if Names(records[i], id) {
          if Visible(records[i], user) {
            return Answer(true);
          }
        }
        i := i + 1;
      }
      return Answer(false);
    }

    /** `list_records_for_user` */
    method ListRecordsForUser(ask: Listing, instant: Instants, env: Env) returns (reply: Reply)
      modifies this, file
      ensures Effect(Flags(), file.disk, reply) == List(old(Flags()), old(file.disk), ask, instant, env)
      ensures View() == if old(Flags().Set()) then old(View()) else Reloaded(old(View()), old(file.disk), env)
    {
      hide IndexOf; hide Listed;
      if unavailable {
        return UnavailableError;
      }
      if corrupt {
        return CorruptError;
      }
      var raised := Load(env);
      if raised {
        unavailable := true;
      }
      if unavailable {
        return UnavailableError;
      }
      if corrupt {
        return CorruptError;
      }
      var listed := ListRecords(records, ask, Clock(env.now, instant));
      return Found(listed);
    }

    /** The refusals of `save_record` on a loaded repository. */
    method MaySave(rec: Record) returns (ok: bool)
      requires Held() == IndexOf(records)
      ensures ok == Savable(records, rec)
    {
      hide IndexOf; hide LookupOf; hide SameContent; hide Visible;
      var user := RecordUser(rec);
      var i := 0;
      while i < |records|
        invariant 0 <= i <= |records|
        invariant forall j | 0 <= j < i ::
          Get(records[j], IntegrationId) == Get(rec, IntegrationId) ==> Visible(records[j], user)
      {
        if Get(records[i], IntegrationId) == Get(rec, IntegrationId) && !Visible(records[i], user) {
          return false;
        }
        i := i + 1;
      }
      if Id(rec, ByPublication) != "" || Id(rec, ByEvent) != "" || Id(rec, BySignal) != "" {
        var found := FindAuthoritativeLookup(records, ambiguousKeys, rec, user);
        if found.status.IdentityAmbiguous? || found.status.IdentityCollision? {
          return false;
        }
        if found.record.Some? {
          var existing := found.record.value;
          var identical := AreContentsIdentical(rec, existing);
          if !identical {
            return false;
          }
          var n := 0;
          while n < |IDENTITY_FIELDS|
            invariant 0 <= n <= |IDENTITY_FIELDS|
            invariant forall m | 0 <= m < n ::
              var f := IDENTITY_FIELDS[m]; f in rec && f in existing ==> rec[f] == existing[f]
          {
            var f := IDENTITY_FIELDS[n];
            if f in rec && f in existing && rec[f] != existing[f] {
              return false;
            }
            n := n + 1;
          }
        }
      }
      return true;
    }

    /** `save_record` */
    method SaveRecord(rec: Record, env: Env) returns (reply: Reply)
      modifies this, file
      ensures Effect(Flags(), file.disk, reply) == Save(old(Flags()), old(file.disk), rec, env)
      ensures View() == AfterSave(old(View()), old(Flags()), old(file.disk), rec, env, reply)
    {
      hide IndexOf; hide Indexed; hide Savable; hide Visible;
      if TextOf(Get(rec, IntegrationId)) == "" {
        return ValueError;
      }
      if unavailable {
        return UnavailableError;
      }
      if corrupt {
        return CorruptError;
      }
      var raised := Load(env);
      if raised {
        unavailable := true;
      }
      if unavailable {
        return UnavailableError;
      }
      if corrupt {
        return CorruptError;
      }
      var ok := MaySave(rec);
      if !ok {
        return ValueError;
      }
      var previous := records;
      var stored := Stamp(rec, env.now);
      StampKeepsIdentity(rec, env.now);
      var existing := FindSlot(Get(rec, IntegrationId), RecordUser(stored));
      if existing < |records| {
        records := records[existing := stored];
      } else {
        records := records + [stored];
      }
      IndexRecord(stored);
      var written := Flush(env.write);
      if !written {
        records := previous;
        RebuildIndexes();
        unavailable := true;
        return UnavailableError;
      }
      return Saved(stored);
    }

    /** The search for a record to overwrite. */
    method FindSlot(id: Json, user: Option<string>) returns (i: nat)
      ensures i == Slot(records, id, user)
    {
      i := 0;
      while i < |records| && !(Get(records[i], IntegrationId) == id && Visible(records[i], user))
        invariant 0 <= i <= |records|
        invariant Slot(records, id, user) == i + Slot(records[i..], id, user)
      {
        assert records[i..][1..] == records[i + 1..];
        i := i + 1;
      }
    }
  }

  lemma FoundRecord(rs: seq<Record>, ambiguous: set<string>, rec: Record, user: Option<string>)
    ensures var found := LookupOf(rs, ambiguous, rec, user);
      && found.status in {IdentityAmbiguous, IdentityCollision, Absent, Created}
      && (found.status.Absent? ==> found.record.None?)
      && (found.status.Created? ==> found.record.Some?)
  {
  }

  lemma AbsentIsFree(rs: seq<Record>, rec: Record, user: Option<string>)
    requires Verdict(rs, rec, user).status.Absent?
    ensures WithIntegrationId(rs, Get(rec, IntegrationId)) == []
  {
    FoundRecord(rs, IndexOf(rs).ambiguous, rec, user);
  }

  /** Creation outcomes are reported only by a call that creates. */
  lemma VerdictIsNoOutcome(rs: seq<Record>, rec: Record, user: Option<string>)
    ensures Verdict(rs, rec, user).status in
              {Absent, DuplicateAccepted, IntegrityConflict, IdentityAmbiguous, IdentityCollision}
  {
    FoundRecord(rs, IndexOf(rs).ambiguous, rec, user);
  }

  lemma {:induction false} WithIntegrationIdPrefix(rs: seq<Record>, n: nat, id: Json)
    requires n <= |rs|
    ensures WithIntegrationId(rs[..n], id) <= WithIntegrationId(rs, id)
    decreases |rs|
  {
    if n < |rs| {
      WithIntegrationIdPrefix(rs[..|rs| - 1], n, id);
      assert rs[..|rs| - 1][..n] == rs[..n];
    } else {
      assert rs[..n] == rs;
    }
  }

  lemma {:induction false} SlotHolds(rs: seq<Record>, id: Json, user: Option<string>)
    ensures var i := Slot(rs, id, user);
      i < |rs| ==> Get(rs[i], IntegrationId) == id && Visible(rs[i], user)
  {
    if rs != [] { SlotHolds(rs[1..], id, user); }
  }

  lemma TouchedIs(rec: Record, id: string, user: Option<string>)
    ensures Touched(rec, id, user) <==> Visible(rec, user) && Names(rec, id)
  {
  }

  lemma IndexParts(rs: seq<Record>)
    ensures IndexOf(rs).publications == MapOf(rs, ByPublication)
    ensures IndexOf(rs).events == MapOf(rs, ByEvent)
    ensures IndexOf(rs).signals == MapOf(rs, BySignal)
  {
  }

  lemma StampKeepsIdentity(rec: Record, now: real)
    ensures Get(Stamp(rec, now), IntegrationId) == Get(rec, IntegrationId)
    ensures Get(Stamp(rec, now), UserId) == Get(rec, UserId)
  {
  }

  /** Counting lineages tells whether they all agree. */
  lemma LineageCount(rs: seq<Record>, at: seq<nat>, lineages: set<(Json, Json, Json)>)
    requires at != [] && Within(at, |rs|)
    requires lineages == set m | 0 <= m < |at| :: Lineage(rs[at[m]])
    ensures |lineages| <= 1 <==> forall m | 0 <= m < |at| :: Lineage(rs[at[m]]) == Lineage(rs[at[0]])
  {
    hide Lineage;
    var first := Lineage(rs[at[0]]);
    if forall m | 0 <= m < |at| :: Lineage(rs[at[m]]) == first {
      assert lineages == {first};
    } else {
      var m :| 0 <= m < |at| && Lineage(rs[at[m]]) != first;
      var pair := {first, Lineage(rs[at[m]])};
      assert pair <= lineages && |pair| == 2;
      Subset(pair, lineages);
    }
  }

  lemma {:induction false} Subset<T>(a: set<T>, b: set<T>)
    requires a <= b
    ensures |a| <= |b|
  {
    if x :| x in a {
      Subset(a - {x}, b - {x});
    }
  }

  lemma {:induction false} TouchedMembers(rs: seq<Record>, id: string, user: Option<string>, i: nat)
    ensures i in TouchedAt(rs, id, user) <==> i < |rs| && Touched(rs[i], id, user)
  {
    hide Touched;
    if rs != [] {
      TouchedMembers(rs[..|rs| - 1], id, user, i);
    }
  }

  lemma {:induction false} TouchedAscending(rs: seq<Record>, id: string, user: Option<string>)
    ensures var at := TouchedAt(rs, id, user); forall m, n | 0 <= m < n < |at| :: at[m] < at[n]
  {
    hide Touched;
    if rs != [] {
      TouchedAscending(rs[..|rs| - 1], id, user);
      assert Within(TouchedAt(rs[..|rs| - 1], id, user), |rs| - 1);
    }
  }

  lemma UpdatableAt(rs: seq<Record>, id: string, user: Option<string>)
    ensures var at := TouchedAt(rs, id, user);
      Updatable(rs, id, user) <==>
        at != [] && forall m | 0 <= m < |at| :: Lineage(rs[at[m]]) == Lineage(rs[at[0]])
  {
    hide Touched; hide Lineage;
    var at := TouchedAt(rs, id, user);
    forall i: nat
      ensures i in at <==> i < |rs| && Touched(rs[i], id, user)
    {
      TouchedMembers(rs, id, user, i);
    }
    if at != [] { assert at[0] in at; }
    if Updatable(rs, id, user) {
      forall m | 0 <= m < |at|
        ensures Lineage(rs[at[m]]) == Lineage(rs[at[0]])
      {
        assert at[m] in at;
      }
    }
    if at != [] && forall m | 0 <= m < |at| :: Lineage(rs[at[m]]) == Lineage(rs[at[0]]) {
      forall i | 0 <= i < |rs| && Touched(rs[i], id, user)
        ensures Lineage(rs[i]) == Lineage(rs[at[0]])
      {
        assert i in at;
      }
    }
  }

  /** Relabelling the touched positions one by one is updating the list pointwise. */
  lemma RelabelIsUpdated(rs: seq<Record>, id: string, state: string, reason: Option<string>, user: Option<string>,
                         now: real)
    ensures RelabelAt(rs, TouchedAt(rs, id, user), state, reason, now) == Updated(rs, id, state, reason, user, now)
  {
    hide Touched; hide Relabelled;
    var at := TouchedAt(rs, id, user);
    forall i: nat | i < |rs|
      ensures RelabelAt(rs, at, state, reason, now)[i] == Updated(rs, id, state, reason, user, now)[i]
    {
      TouchedMembers(rs, id, user, i);
      RelabelledThere(rs, at, state, reason, now, i);
    }
  }

  lemma {:induction false} RelabelledThere(rs: seq<Record>, at: seq<nat>, state: string, reason: Option<string>,
                                           now: real, i: nat)
    requires Within(at, |rs|)
    requires i < |rs|
    ensures RelabelAt(rs, at, state, reason, now)[i] ==
              if i in at then Relabelled(rs[i], state, reason, now) else rs[i]
  {
    hide Relabelled;
    if at != [] {
      RelabelledThere(rs, at[..|at| - 1], state, reason, now, i);
    }
  }
}
