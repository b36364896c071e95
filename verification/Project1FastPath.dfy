/** Exactly when the indexed fast path of the duplicate check can be trusted without a user. */
module Project1FastPath {
  import opened Values
  import opened Keys
  import opened Project1Records
  import opened Project1Index
  import opened Project1Identity
  import opened Project1Store
  import opened Project1Steps
  import opened Project1Runs
  import opened Project1Replay

  ghost predicate OwnedBy(rs: seq<Record>, tenants: set<string>) {
    forall i | 0 <= i < |rs| :: Get(rs[i], UserId).Str? && Get(rs[i], UserId).s in tenants
  }

  /** Whatever these tenants have stored, the fast path without a user answers true only for ids that a record
      carries. */
  ghost predicate TrustedOnStores(tenants: set<string>) {
    forall rs, id | OwnedBy(rs, tenants) && IndexHit(rs, id, None) :: Seen(rs, id, None)
  }

  /** The same of every store that a run over these tenants reaches. */
  ghost predicate TrustedInRuns(tenants: set<string>) {
    forall n, calls, id | LawfulCalls(calls, n, tenants) && IndexHit(RecordsOf(Run(Empty(n), calls).disk), id, None) ::
      Seen(RecordsOf(Run(Empty(n), calls).disk), id, None)
  }

  ghost predicate NoneUnderGlobal(tenants: set<string>) {
    forall tenant | tenant in tenants :: !("global:" <= tenant)
  }

  /** The fast path without a user answers only what the scan would, on every store and in every run over a set of
      tenants, exactly when no tenant's name begins with "global:". */
  lemma FastPathIsTrustedExactlyOutsideGlobal(tenants: set<string>)
    ensures TrustedOnStores(tenants) <==> NoneUnderGlobal(tenants)
    ensures TrustedInRuns(tenants) <==> NoneUnderGlobal(tenants)
  {
    hide TrustedOnStores; hide TrustedInRuns;
    if NoneUnderGlobal(tenants) {
      OutsideGlobalIsTrusted(tenants);
      StoresCoverRuns(tenants);
    } else {
      var tenant :| tenant in tenants && "global:" <= tenant;
      TenantUnderGlobalMisleads(tenants, tenant);
      if TrustedOnStores(tenants) { StoresCoverRuns(tenants); }
    }
  }

  lemma OutsideGlobalIsTrusted(tenants: set<string>)
    requires NoneUnderGlobal(tenants)
    ensures TrustedOnStores(tenants)
  {
    hide IndexHit; hide Seen;
    forall rs, id | OwnedBy(rs, tenants) && IndexHit(rs, id, None)
      ensures Seen(rs, id, None)
    {
      forall rec | rec in rs
        ensures !("global:" <= Owner(rec))
      {
        OwnerIsTenant(rs, tenants, rec);
      }
      FastPathAgreesWithScan(rs, id, None);
    }
  }

  lemma OwnerIsTenant(rs: seq<Record>, tenants: set<string>, rec: Record)
    requires OwnedBy(rs, tenants) && rec in rs
    ensures Owner(rec) in tenants || Owner(rec) == "global"
  {
    var i :| 0 <= i < |rs| && rs[i] == rec;
  }

  lemma StoresCoverRuns(tenants: set<string>)
    requires TrustedOnStores(tenants)
    ensures TrustedInRuns(tenants)
  {
    hide IndexHit; hide Seen; hide Run;
    forall n, calls, id | LawfulCalls(calls, n, tenants) && IndexHit(RecordsOf(Run(Empty(n), calls).disk), id, None)
      ensures Seen(RecordsOf(Run(Empty(n), calls).disk), id, None)
    {
      EmptyIsSound(tenants);
      RunKeepsSound(Empty(n), calls, tenants);
    }
  }

  /** One ingest by a tenant whose name begins with "global:" is enough: the store then answers true for an id that no
      record carries. */
  lemma TenantUnderGlobalMisleads(tenants: set<string>, tenant: string)
    requires tenant in tenants && "global:" <= tenant
    ensures !TrustedInRuns(tenants)
  {
    hide IndexHit; hide Seen; hide Run; hide Step; hide SignalRecord;
    var c := SignalIngest(tenant, "1", "y");
    var rec := Stamp(c.op.rec, 0.0);
    FirstIngest(tenant);
    RunOfOne(Empty(1), c);
    SignalIngestIsLawful(tenants, tenant);
    Misled(tenant);
    var id, rs := tenant[|"global:"|..] + ":" + "y", RecordsOf(Run(Empty(1), [c]).disk);
    assert rs == [rec];
    assert LawfulCalls([c], 1, tenants) && IndexHit(rs, id, None) && !Seen(rs, id, None);
  }

  lemma SignalIngestIsLawful(tenants: set<string>, tenant: string)
    requires tenant in tenants
    ensures LawfulCalls([SignalIngest(tenant, "1", "y")], 1, tenants)
  {
  }

  lemma FirstIngest(tenant: string)
    ensures var c := SignalIngest(tenant, "1", "y");
      Step(Empty(1), c).disk == Stored([Stamp(c.op.rec, 0.0)])
  {
    hide Ingest; hide Stamp;
    var rec := SignalRecord(tenant, "1", "y");
    assert Empty(1).latches == [Latches(false, false)];
    NewRecordIsCreated([], rec, tenant);
    assert [] + [Stamp(rec, 0.0)] == [Stamp(rec, 0.0)];
  }

  lemma Misled(tenant: string)
    requires "global:" <= tenant
    ensures var rs := [Stamp(SignalRecord(tenant, "1", "y"), 0.0)];
      var id := tenant[|"global:"|..] + ":" + "y";
      IndexHit(rs, id, None) && !Seen(rs, id, None)
  {
    var rec := Stamp(SignalRecord(tenant, "1", "y"), 0.0);
    var id := tenant[|"global:"|..] + ":" + "y";
    hide IndexHit; hide Seen; hide SignalRecord; hide Stamp; hide Names; hide Under; hide Key;
    KeyUnderGlobal(tenant);
    StampedSignal(tenant);
    HitThroughSignal(rec, id);
    UnnamedIsUnseen(rec, id);
  }

  lemma KeyUnderGlobal(tenant: string)
    requires "global:" <= tenant
    ensures Key(tenant, "y") == Key("global", tenant[|"global:"|..] + ":" + "y")
  {
    assert tenant == "global:" + tenant[|"global:"|..];
  }

  lemma HitThroughSignal(rec: Record, id: string)
    requires Under(rec, BySignal, Key("global", id))
    ensures IndexHit([rec], id, None)
  {
    hide Under; hide MapOf; hide Key;
    OnlyRecordIsIndexed(rec, Key("global", id));
  }

  lemma UnnamedIsUnseen(rec: Record, id: string)
    requires !Names(rec, id)
    ensures !Seen([rec], id, None)
  {
    hide Names;
  }

  lemma StampedSignal(tenant: string)
    requires "global:" <= tenant
    ensures var rec := Stamp(SignalRecord(tenant, "1", "y"), 0.0);
      Under(rec, BySignal, Key(tenant, "y")) && !Names(rec, tenant[|"global:"|..] + ":" + "y")
  {
    var rec := SignalRecord(tenant, "1", "y");
    FiledAs(rec, tenant, "y");
    FieldsOfStamp(rec, 0.0, PublicationId);
    FieldsOfStamp(rec, 0.0, EventId);
    hide Stamp; hide Under;
    assert |"y"| < |tenant[|"global:"|..] + ":" + "y"|;
  }

  lemma OnlyRecordIsIndexed(rec: Record, k: string)
    requires Under(rec, BySignal, k)
    ensures k in MapOf([rec], BySignal) && MapOf([rec], BySignal)[k] == rec
  {
    hide Under;
    assert [rec][..0] == [];
    assert Holders([rec], BySignal, k) == [rec];
    SlotMeaning([rec], BySignal, k);
    OneAgrees(rec);
  }
}
