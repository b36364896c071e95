/** The Project 1 store as one atomic list of records: what each call decides from the file's records, its arguments
    and how the write went. Nothing here mentions an instance's cached records or indexes. */
module Project1Store {
  import opened Values
  import opened Text
  import Keys
  import opened Project1Records
  import opened Project1Index
  import opened Project1Identity
  import opened Project1Listing

  /** The shared file: absent or empty, not JSON of the expected shape, or holding records. */
  datatype Disk = Missing | Malformed | Stored(records: seq<Record>)

  /** The records in the file. */
  function RecordsOf(disk: Disk): seq<Record> {
    if disk.Stored? then disk.records else []
  }

  /** An atomic write: not done, done, or done with the directory entry perhaps not durable. */
  datatype WriteOutcome = Failed | Durable | Uncertain

  /** The two fail-stop flags of an instance. */
  datatype Latches = Latches(unavailable: bool, corrupt: bool) {
    predicate Set() { unavailable || corrupt }
  }

  /** What the surroundings do during one call. */
  datatype Env = Env(lockOk: bool, readOk: bool, initialWrite: WriteOutcome, write: WriteOutcome, now: real)

  datatype Reply =
    | Ingested(status: Status, record: Option<Record>)
    | Answer(b: bool)
    | Saved(saved: Record)
    | Found(records: seq<Record>)
    | ValueError
    | UnavailableError
    | CorruptError

  datatype Effect = Effect(latches: Latches, disk: Disk, reply: Reply)

  /** Taking the lock and loading the file; an absent file is created empty. */
  datatype Opening = Opening(latches: Latches, disk: Disk)

  function Open(disk: Disk, env: Env): Opening {
    if !env.lockOk then Opening(Latches(true, false), disk)
    else match disk
      case Missing => if env.initialWrite.Failed? then Opening(Latches(true, false), Missing)
                      else Opening(Latches(false, false), Stored([]))
      case Malformed => if env.readOk then Opening(Latches(false, true), disk) else Opening(Latches(true, false), disk)
      case Stored(_) => if env.readOk then Opening(Latches(false, false), disk) else Opening(Latches(true, false), disk)
  }

  function Stamp(rec: Record, now: real): Record {
    var touched := rec[UpdatedAt := Num(now)];
    if CreatedAt in rec then touched else touched[CreatedAt := Num(now)]
  }

  /** The stored records with a given integration id, in order. */
  function WithIntegrationId(rs: seq<Record>, id: Json): seq<Record> {
    if rs == [] then []
    else
      var last := rs[|rs| - 1];
      WithIntegrationId(rs[..|rs| - 1], id) + (if Get(last, IntegrationId) == id then [last] else [])
  }

  lemma {:induction false} IntegrationIdMembers(rs: seq<Record>, id: Json, rec: Record)
    ensures rec in WithIntegrationId(rs, id) <==> rec in rs && Get(rec, IntegrationId) == id
  {
    if rs != [] {
      IntegrationIdMembers(rs[..|rs| - 1], id, rec);
      assert rs == rs[..|rs| - 1] + [rs[|rs| - 1]];
    }
  }

  /** The verdict on an incoming record; Absent means the record is new and may be appended. */
  function Verdict(rs: seq<Record>, rec: Record, user: Option<string>): (r: Reply)
    ensures r.Ingested?
  {
    var found := LookupOf(rs, IndexOf(rs).ambiguous, rec, user);
    match found.status
    case Created =>
      if SameContent(rec, found.record.value) then Ingested(DuplicateAccepted, found.record)
      else Ingested(IntegrityConflict, found.record)
    case Absent =>
      var taken := WithIntegrationId(rs, Get(rec, IntegrationId));
      if taken != [] then Ingested(IdentityCollision, Some(taken[0])) else Ingested(Absent, None)
    case _ => Ingested(found.status, found.record)
  }

  /** `ingest_authoritative_record` */
  function Ingest(latches: Latches, disk: Disk, rec: Record, user: Option<string>, env: Env): Effect {
    if TextOf(Get(rec, IntegrationId)) == "" then Effect(latches, disk, ValueError)
    else if latches.unavailable then Effect(latches, disk, Ingested(StorageUnavailable, None))
    else if latches.corrupt then Effect(latches, disk, Ingested(StorageCorrupt, None))
    else
      var o := Open(disk, env);
      if o.latches.unavailable then Effect(o.latches, o.disk, Ingested(StorageUnavailable, None))
      else if o.latches.corrupt then Effect(o.latches, o.disk, Ingested(StorageCorrupt, None))
      else
        var rs := o.disk.records;
        var verdict := Verdict(rs, rec, user);
        if !verdict.status.Absent? then Effect(o.latches, o.disk, verdict)
        else
          var stored := Stamp(rec, env.now);
          match env.write
          case Failed => Effect(o.latches, o.disk, Ingested(PersistenceFailure, None))
          case Durable => Effect(o.latches, Stored(rs + [stored]), Ingested(Created, Some(stored)))
          case Uncertain => Effect(o.latches, Stored(rs + [stored]), Ingested(DurabilityUncertain, Some(stored)))
  }

  predicate Names(rec: Record, id: string) {
    Get(rec, SignalId) == Str(id) || Get(rec, PublicationId) == Str(id) || Get(rec, EventId) == Str(id)
  }

  predicate Touched(rec: Record, id: string, user: Option<string>) {
    Visible(rec, user) && Names(rec, id)
  }

  function Lineage(rec: Record): (Json, Json, Json) {
    (Get(rec, PublicationId), Get(rec, EventId), Get(rec, SignalId))
  }

  /** A lifecycle update is carried out when some record is named and all named records are of one lineage. */
  predicate Updatable(rs: seq<Record>, id: string, user: Option<string>) {
    && (exists i :: 0 <= i < |rs| && Touched(rs[i], id, user))
    && (forall i, j | 0 <= i < |rs| && 0 <= j < |rs| && Touched(rs[i], id, user) && Touched(rs[j], id, user)
          :: Lineage(rs[i]) == Lineage(rs[j]))
  }

  function Relabelled(rec: Record, state: string, reason: Option<string>, now: real): Record {
    var labelled := rec[LifecycleState := Str(Upper(Strip(state)))];
    var explained := if reason.Some? then labelled[LifecycleReason := Str(reason.value)] else labelled;
    explained[UpdatedAt := Num(now)]
  }

  function Updated(rs: seq<Record>, id: string, state: string, reason: Option<string>, user: Option<string>, now: real)
    : (r: seq<Record>)
    ensures |r| == |rs|
  {
    seq(|rs|, i requires 0 <= i < |rs| =>
      if Touched(rs[i], id, user) then Relabelled(rs[i], state, reason, now) else rs[i])
  }

  /** `update_lifecycle_state`; a failed write raises and latches the instance. */
  function UpdateLifecycle(latches: Latches, disk: Disk, id: string, state: string, reason: Option<string>,
                           user: Option<string>, env: Env): Effect
  {
    if latches.unavailable then Effect(latches, disk, UnavailableError)
    else if latches.corrupt then Effect(latches, disk, CorruptError)
    else
      var o := Open(disk, env);
      if o.latches.unavailable then Effect(o.latches, o.disk, UnavailableError)
      else if o.latches.corrupt then Effect(o.latches, o.disk, CorruptError)
      else if !Updatable(o.disk.records, id, user) then Effect(o.latches, o.disk, Answer(false))
      else if env.write.Failed? then Effect(Latches(true, false), o.disk, UnavailableError)
      else Effect(o.latches, Stored(Updated(o.disk.records, id, state, reason, user, env.now)), Answer(true))
  }

  /** `is_duplicate_request`, as a scan of the list. */
  predicate Seen(rs: seq<Record>, id: string, user: Option<string>) {
    exists i :: 0 <= i < |rs| && Touched(rs[i], id, user)
  }

  const IDENTITY_FIELDS: seq<Field> :=
    [UserId, TenantId, IntegrationId, PublicationId, EventId, SignalId, LifecycleState]

  function RecordUser(rec: Record): Option<string> {
    match Get(rec, UserId)
    case Str(s) => Some(s)
    case _ => None
  }

  /** `save_record` lets a record through when it takes nobody else's integration id and, if it matches a stored
      identity, changes none of the authoritative content or identity fields. */
  predicate Savable(rs: seq<Record>, rec: Record) {
    && (forall i | 0 <= i < |rs| ::
          Get(rs[i], IntegrationId) == Get(rec, IntegrationId) ==> Visible(rs[i], RecordUser(rec)))
    && ((Id(rec, ByPublication) != "" || Id(rec, ByEvent) != "" || Id(rec, BySignal) != "") ==>
          var found := LookupOf(rs, IndexOf(rs).ambiguous, rec, RecordUser(rec));
          && !found.status.IdentityAmbiguous?
          && !found.status.IdentityCollision?
          && (found.record.Some? ==>
                && SameContent(rec, found.record.value)
                && forall f | f in IDENTITY_FIELDS ::
                     f in rec && f in found.record.value ==> rec[f] == found.record.value[f]))
  }

  /** Position of the first visible record with the integration id, |rs| if there is none. */
  function Slot(rs: seq<Record>, id: Json, user: Option<string>): (i: nat)
    ensures i <= |rs|
    decreases |rs|
  {
    if rs == [] then 0
    else if Get(rs[0], IntegrationId) == id && Visible(rs[0], user) then 0
    else 1 + Slot(rs[1..], id, user)
  }

  function Put(rs: seq<Record>, rec: Record): seq<Record> {
    var i := Slot(rs, Get(rec, IntegrationId), RecordUser(rec));
    if i < |rs| then rs[i := rec] else rs + [rec]
  }

  /** `save_record` */
  function Save(latches: Latches, disk: Disk, rec: Record, env: Env): Effect {
    if TextOf(Get(rec, IntegrationId)) == "" then Effect(latches, disk, ValueError)
    else if latches.unavailable then Effect(latches, disk, UnavailableError)
    else if latches.corrupt then Effect(latches, disk, CorruptError)
    else
      var o := Open(disk, env);
      if o.latches.unavailable then Effect(o.latches, o.disk, UnavailableError)
      else if o.latches.corrupt then Effect(o.latches, o.disk, CorruptError)
      else if !Savable(o.disk.records, rec) then Effect(o.latches, o.disk, ValueError)
      else if env.write.Failed? then Effect(Latches(true, false), o.disk, UnavailableError)
      else
        var stored := Stamp(rec, env.now);
        Effect(o.latches, Stored(Put(o.disk.records, stored)), Saved(stored))
  }

  /** The fast path of `is_duplicate_request`: one of the three indexes holds the key and its record is visible. */
  predicate IndexHit(rs: seq<Record>, id: string, user: Option<string>) {
    var k := Keys.Key(if user.Some? && user.value != "" then user.value else "global", id);
    if k in MapOf(rs, BySignal) then Visible(MapOf(rs, BySignal)[k], user)
    else if k in MapOf(rs, ByPublication) then Visible(MapOf(rs, ByPublication)[k], user)
    else k in MapOf(rs, ByEvent) && Visible(MapOf(rs, ByEvent)[k], user)
  }

  /** `is_duplicate_request` */
  function IsDuplicate(latches: Latches, disk: Disk, id: string, user: Option<string>, env: Env): Effect {
    if latches.unavailable then Effect(latches, disk, UnavailableError)
    else if latches.corrupt then Effect(latches, disk, CorruptError)
    else
      var o := Open(disk, env);
      if o.latches.unavailable then Effect(o.latches, o.disk, UnavailableError)
      else if o.latches.corrupt then Effect(o.latches, o.disk, CorruptError)
      else Effect(o.latches, o.disk, Answer(IndexHit(o.disk.records, id, user) || Seen(o.disk.records, id, user)))
  }

  /** `list_records_for_user` */
  function List(latches: Latches, disk: Disk, ask: Listing, instant: Instants, env: Env): Effect {
    if latches.unavailable then Effect(latches, disk, UnavailableError)
    else if latches.corrupt then Effect(latches, disk, CorruptError)
    else
      var o := Open(disk, env);
      if o.latches.unavailable then Effect(o.latches, o.disk, UnavailableError)
      else if o.latches.corrupt then Effect(o.latches, o.disk, CorruptError)
      else Effect(o.latches, o.disk, Found(Listed(o.disk.records, ask, Clock(env.now, instant))))
  }

  datatype Op =
    | IngestOp(rec: Record, user: Option<string>)
    | UpdateOp(id: string, state: string, reason: Option<string>, user: Option<string>)
    | SaveOp(rec: Record)
    | DuplicateOp(id: string, user: Option<string>)
    | ListOp(ask: Listing, instant: Instants)

  function Apply(latches: Latches, disk: Disk, op: Op, env: Env): Effect {
    match op
    case IngestOp(rec, user) => Ingest(latches, disk, rec, user, env)
    case UpdateOp(id, state, reason, user) => UpdateLifecycle(latches, disk, id, state, reason, user, env)
    case SaveOp(rec) => Save(latches, disk, rec, env)
    case DuplicateOp(id, user) => IsDuplicate(latches, disk, id, user, env)
    case ListOp(ask, instant) => List(latches, disk, ask, instant, env)
  }
}
