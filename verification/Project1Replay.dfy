/** Replay verdicts over whole runs, and exactly which tenant names they hold for. */
module Project1Replay {
  import opened Values
  import opened Keys
  import opened Project1Records
  import opened Project1Index
  import opened Project1Identity
  import opened Project1Store
  import opened Project1Steps
  import opened Project1Runs

  /** The call created a record. */
  ghost predicate Accepted(s: System, c: Call)
    requires c.who < |s.latches|
  {
    && c.op.IngestOp?
    && var reply := EffectOf(s, c).reply; reply.Ingested? && reply.status in {Created, DurabilityUncertain}
  }

  lemma AcceptedIsHeld(s: System, c: Call)
    requires c.who < |s.latches| && Accepted(s, c)
    ensures Holds(RecordsOf(Step(s, c).disk), c.op.rec)
    ensures TextOf(Get(c.op.rec, IntegrationId)) != ""
  {
    hide Verdict; hide Stamp; hide SameCore;
    VerdictCreatesNothing(Open(s.disk, c.env).disk, c.op.rec, c.op.user);
    StampKeepsCore(c.op.rec, c.env.now);
    var after := RecordsOf(Step(s, c).disk);
    assert after[|after| - 1] == Stamp(c.op.rec, c.env.now);
  }

  lemma VerdictCreatesNothing(disk: Disk, rec: Record, user: Option<string>)
    ensures disk.Stored? ==> Verdict(disk.records, rec, user).status !in {Created, DurabilityUncertain}
  {
    if disk.Stored? {
      StatusMeaning(disk.records, rec, user);
    }
  }

  /** What a replaying call must and must not find out about a record accepted earlier. */
  ghost predicate Decided(s: System, again: Call, first: Record)
    requires again.who < |s.latches| && again.op.IngestOp?
  {
    var e := EffectOf(s, again);
    var rec := again.op.rec;
    && e.reply.Ingested?
    && (SameContent(rec, first) ==> e.reply.status.DuplicateAccepted? && e.disk == s.disk)
    && ((forall kind :: Id(rec, kind) == Id(first, kind)) && !SameContent(rec, first) ==>
          e.reply.status.IntegrityConflict? && e.disk == s.disk)
    && (Collides(rec, first) ==> e.reply.status.IdentityCollision? && e.disk == s.disk)
  }

  lemma HeldRecordDecides(s: System, again: Call, first: Record, tenants: set<string>)
    requires PrefixFree(tenants) && "" !in tenants && Sound(RecordsOf(s.disk), tenants)
    requires Holds(RecordsOf(s.disk), first) && Identified(first)
    requires again.who < |s.latches| && again.op.IngestOp? && Lawful(again.op, tenants)
    requires Get(first, UserId) == Get(again.op.rec, UserId) && TextOf(Get(again.op.rec, IntegrationId)) != ""
    requires !s.latches[again.who].Set() && again.env.lockOk && again.env.readOk
    ensures Decided(s, again, first)
  {
    hide Sound; hide Verdict; hide SameContent; hide Collides; hide Identified; hide PrefixFree; hide Id; hide Stamp;
    HeldIsStored(s.disk, first);
    AcceptedRecordDecides(RecordsOf(s.disk), tenants, again.op.user.value, first, again.op.rec);
  }

  /** Once a tenant's identified record has been accepted, then after any lawful continuation by any instances, an
      unlatched instance that can read the file answers its replay as a duplicate, its identities with other content
      as an integrity conflict, and a contradiction of its identities as a collision; and none of these changes the
      file. */
  lemma ReplayVerdictsHoldForever(s: System, accept: Call, after: seq<Call>, again: Call, tenants: set<string>)
    requires PrefixFree(tenants) && "" !in tenants && Sound(RecordsOf(s.disk), tenants)
    requires accept.who < |s.latches| && Lawful(accept.op, tenants) && Accepted(s, accept)
    requires Identified(accept.op.rec)
    requires LawfulCalls(after, |s.latches|, tenants)
    requires again.who < |s.latches| && again.op.IngestOp? && Lawful(again.op, tenants)
    requires again.op.user == accept.op.user && TextOf(Get(again.op.rec, IntegrationId)) != ""
    requires !Run(Step(s, accept), after).latches[again.who].Set() && again.env.lockOk && again.env.readOk
    ensures Decided(Run(Step(s, accept), after), again, accept.op.rec)
  {
    hide Sound; hide Holds; hide Extends; hide Apply; hide Identified; hide PrefixFree; hide Decided;
    var next := Step(s, accept);
    StepKeepsSound(s.latches[accept.who], s.disk, accept.op, accept.env, tenants);
    AcceptedIsHeld(s, accept);
    RunKeepsSound(next, after, tenants);
    var end := Run(next, after);
    HoldsForever(RecordsOf(next.disk), RecordsOf(end.disk), accept.op.rec);
    HeldRecordDecides(end, again, accept.op.rec, tenants);
  }

  lemma HeldIsStored(disk: Disk, rec: Record)
    requires Holds(RecordsOf(disk), rec)
    ensures disk.Stored?
  {
  }

  function Empty(n: nat): System {
    System(Stored([]), seq(n, i requires 0 <= i < n => Latches(false, false)))
  }

  /** A run from an empty store: earlier calls, one that is accepted, later calls, and the accepted one made again. */
  ghost predicate ReplayCase(tenants: set<string>, n: nat, before: seq<Call>, accept: Call, after: seq<Call>,
                             again: Call)
  {
    && LawfulCalls(before, n, tenants)
    && accept.who < n && Lawful(accept.op, tenants) && Accepted(Run(Empty(n), before), accept)
    && Identified(accept.op.rec)
    && LawfulCalls(after, n, tenants)
    && again.who < n && again.op == accept.op && again.env.lockOk && again.env.readOk
    && !Run(Step(Run(Empty(n), before), accept), after).latches[again.who].Set()
  }

  ghost function ReplayStatus(n: nat, before: seq<Call>, accept: Call, after: seq<Call>, again: Call): Status
    requires Addressed(n, before) && accept.who < n && Addressed(n, after) && again.who < n && again.op.IngestOp?
  {
    var reply := EffectOf(Run(Step(Run(Empty(n), before), accept), after), again).reply;
    if reply.Ingested? then reply.status else Absent
  }

  /** Every replay of an accepted record, in every run over these tenants, is a duplicate. */
  ghost predicate ReplaysAreDuplicates(tenants: set<string>) {
    forall n, before, accept, after, again | ReplayCase(tenants, n, before, accept, after, again) ::
      ReplayStatus(n, before, accept, after, again).DuplicateAccepted?
  }

  /** No run over these tenants ever makes a key ambiguous. */
  ghost predicate NeverAmbiguous(tenants: set<string>) {
    forall n, calls | LawfulCalls(calls, n, tenants) :: AmbiguousKeys(RecordsOf(Run(Empty(n), calls).disk)) == {}
  }

  lemma EmptyIsSound(tenants: set<string>)
    ensures Sound([], tenants)
  {
  }

  lemma PrefixFreeReplays(tenants: set<string>)
    requires PrefixFree(tenants) && "" !in tenants
    ensures ReplaysAreDuplicates(tenants) && NeverAmbiguous(tenants)
  {
    hide Sound; hide PrefixFree; hide Apply; hide AmbiguousKeys; hide Id;
    EmptyIsSound(tenants);
    forall n, before, accept, after, again | ReplayCase(tenants, n, before, accept, after, again)
      ensures ReplayStatus(n, before, accept, after, again).DuplicateAccepted?
    {
      var s := Run(Empty(n), before);
      RunKeepsSound(Empty(n), before, tenants);
      AcceptedIsHeld(s, accept);
      SameCoreReflexive(accept.op.rec);
      ReplayVerdictsHoldForever(s, accept, after, again, tenants);
    }
    forall n, calls | LawfulCalls(calls, n, tenants)
      ensures AmbiguousKeys(RecordsOf(Run(Empty(n), calls).disk)) == {}
    {
      RunKeepsSound(Empty(n), calls, tenants);
      SoundIsUnambiguous(RecordsOf(Run(Empty(n), calls).disk), tenants);
    }
  }

  const CALM_ENV := Env(true, true, Durable, Durable, 0.0)

  function SignalRecord(tenant: string, integrationId: string, signal: string): Record {
    map[UserId := Str(tenant), IntegrationId := Str(integrationId), SignalId := Str(signal)]
  }

  function SignalIngest(tenant: string, integrationId: string, signal: string): Call {
    Call(0, IngestOp(SignalRecord(tenant, integrationId, signal), Some(tenant)), CALM_ENV)
  }

  /** The first ingest into an empty store, and one by another tenant after it, both create their records. */
  lemma TwoTenantsStore(u: string, v: string, a: string, b: string)
    requires u != v && u != "" && v != "" && a != "" && b != ""
    ensures var first := SignalIngest(v, "1", b);
            var second := SignalIngest(u, "2", a);
            var mid := Step(Empty(1), first);
      && Accepted(Empty(1), first)
      && mid == System(Stored([Stamp(first.op.rec, 0.0)]), [Latches(false, false)])
      && Step(mid, second) ==
           System(Stored([Stamp(first.op.rec, 0.0), Stamp(second.op.rec, 0.0)]), [Latches(false, false)])
  {
    hide Ingest; hide SameContent; hide Stamp; hide AmbiguousKeys;
    var first := SignalRecord(v, "1", b);
    var second := SignalRecord(u, "2", a);
    assert Empty(1).latches == [Latches(false, false)];
    NewRecordIsCreated([], first, v);
    assert [] + [Stamp(first, 0.0)] == [Stamp(first, 0.0)];
    FieldsOfStamp(first, 0.0, UserId);
    FieldsOfStamp(first, 0.0, IntegrationId);
    NewRecordIsCreated([Stamp(first, 0.0)], second, u);
    assert [Stamp(first, 0.0)] + [Stamp(second, 0.0)] == [Stamp(first, 0.0), Stamp(second, 0.0)];
  }

  lemma NewRecordIsCreated(rs: seq<Record>, rec: Record, tenant: string)
    requires |rs| <= 1 && TextOf(Get(rec, IntegrationId)) != ""
    requires forall r | r in rs ::
      Get(r, UserId) != Str(tenant) && Get(r, IntegrationId) != Get(rec, IntegrationId)
    ensures Ingest(Latches(false, false), Stored(rs), rec, Some(tenant), CALM_ENV) ==
              Effect(Latches(false, false), Stored(rs + [Stamp(rec, 0.0)]), Ingested(Created, Some(Stamp(rec, 0.0))))
  {
    hide Verdict; hide Stamp;
    NewRecordIsAbsent(rs, rec, tenant);
  }

  /** A store of at most one record, of another tenant and integration id, finds a new record absent. */
  lemma NewRecordIsAbsent(rs: seq<Record>, rec: Record, tenant: string)
    requires |rs| <= 1
    requires forall r | r in rs ::
      Get(r, UserId) != Str(tenant) && Get(r, IntegrationId) != Get(rec, IntegrationId)
    ensures Verdict(rs, rec, Some(tenant)).status.Absent?
  {
    hide AmbiguousKeys; hide SameContent; hide Shares; hide Collides;
    OneIsUnambiguous(rs);
    NoKeyNoHit(rec, Some(tenant));
    StatusMeaning(rs, rec, Some(tenant));
    var taken := WithIntegrationId(rs, Get(rec, IntegrationId));
    if taken != [] {
      IntegrationIdMembers(rs, Get(rec, IntegrationId), taken[0]);
    }
  }

  lemma OneIsUnambiguous(rs: seq<Record>)
    requires |rs| <= 1
    ensures AmbiguousKeys(rs) == {}
  {
    hide AmbiguousKeys; hide Under; hide SameContent;
    forall k
      ensures k !in AmbiguousKeys(rs)
    {
      AmbiguityMeaning(rs, k);
      forall a, b | a in rs && b in rs
        ensures SameContent(a, b)
      {
        SameCoreReflexive(a);
      }
    }
  }

  /** Two tenants whose names are not prefix-free can make a key ambiguous, and then even a replay is refused. */
  lemma MeetingKeysBreakReplay(u: string, v: string)
    requires u != v && u != "" && v != "" && u + ":" <= v
    ensures var a := v[|u| + 1..] + ":" + "x";
            var first := SignalIngest(v, "1", "x");
            var second := SignalIngest(u, "2", a);
            var end := Step(Step(Empty(1), first), second);
      && Accepted(Empty(1), first)
      && !end.latches[0].Set()
      && Key(v, "x") in AmbiguousKeys(RecordsOf(end.disk))
      && EffectOf(end, first).reply == Ingested(IdentityAmbiguous, None)
  {
    hide Accepted; hide Stamp; hide SameContent; hide AmbiguousKeys; hide Key; hide LookupOf; hide Step;
    var a := v[|u| + 1..] + ":" + "x";
    KeysMeet(u, v, "x");
    TwoTenantsStore(u, v, a, "x");
    var first := SignalRecord(v, "1", "x");
    var second := SignalRecord(u, "2", a);
    var rs := [Stamp(first, 0.0), Stamp(second, 0.0)];
    FiledAs(first, v, "x");
    FiledAs(second, u, a);
    assert a != "x" by { assert |a| > 1; }
    DifferentSignals(rs[0], rs[1]);
    assert rs[0] in rs && rs[1] in rs;
    assert Clash(rs, BySignal, Key(v, "x"));
    AmbiguityMeaning(rs, Key(v, "x"));
    assert Hits(first, Some(v), AmbiguousKeys(rs), BySignal);
    AmbiguousLookup(rs, AmbiguousKeys(rs), first, Some(v));
  }

  lemma FiledAs(rec: Record, tenant: string, signal: string)
    requires tenant != "" && signal != ""
    requires Get(rec, UserId) == Str(tenant) && Get(rec, SignalId) == Str(signal)
    ensures Under(Stamp(rec, 0.0), BySignal, Key(tenant, signal))
    ensures Get(Stamp(rec, 0.0), SignalId) == Str(signal)
  {
    FieldsOfStamp(rec, 0.0, UserId);
    FieldsOfStamp(rec, 0.0, SignalId);
  }

  lemma DifferentSignals(a: Record, b: Record)
    requires Get(a, SignalId) != Get(b, SignalId)
    ensures !SameContent(a, b)
  {
    assert IdField(BySignal) == SignalId;
    if SameContent(a, b) { SameContentSameIds(a, b); }
  }

  lemma AmbiguousLookup(rs: seq<Record>, ambiguous: set<string>, rec: Record, user: Option<string>)
    requires Hits(rec, user, ambiguous, BySignal)
    ensures LookupOf(rs, ambiguous, rec, user) == Lookup(IdentityAmbiguous, None)
  {
  }

  /** Replays are duplicates in every run over a set of tenants exactly when no tenant's name, followed by the key
      separator, begins another's. */
  lemma ReplaysAreDuplicatesExactlyForPrefixFreeTenants(tenants: set<string>)
    requires "" !in tenants
    ensures ReplaysAreDuplicates(tenants) <==> PrefixFree(tenants)
    ensures NeverAmbiguous(tenants) <==> PrefixFree(tenants)
  {
    hide Accepted; hide AmbiguousKeys; hide Apply; hide Key; hide ReplaysAreDuplicates; hide NeverAmbiguous;
    if PrefixFree(tenants) {
      PrefixFreeReplays(tenants);
    } else {
      var u, v :| u in tenants && v in tenants && u != v && u + ":" <= v;
      BrokenReplay(tenants, u, v);
    }
  }

  lemma BrokenReplay(tenants: set<string>, u: string, v: string)
    requires u in tenants && v in tenants && u != v && u != "" && v != "" && u + ":" <= v
    ensures !ReplaysAreDuplicates(tenants) && !NeverAmbiguous(tenants)
  {
    hide Accepted; hide AmbiguousKeys; hide Apply; hide Key;
    MeetingKeysBreakReplay(u, v);
    var a := v[|u| + 1..] + ":" + "x";
    var first := SignalIngest(v, "1", "x");
    var second := SignalIngest(u, "2", a);
    var s := Empty(1);
    assert LawfulCalls([], 1, tenants);
    assert LawfulCalls([second], 1, tenants);
    assert LawfulCalls([first, second], 1, tenants);
    RunOfTwo(s, first, second);
    assert Run(s, []) == s;
    assert ReplayCase(tenants, 1, [], first, [second], first);
    assert !ReplayStatus(1, [], first, [second], first).DuplicateAccepted?;
    assert AmbiguousKeys(RecordsOf(Run(s, [first, second]).disk)) != {};
  }

  lemma RunOfOne(s: System, c: Call)
    requires c.who < |s.latches|
    ensures Run(s, [c]) == Step(s, c)
  {
    hide Step; hide Apply;
    assert [c][..0] == [];
  }

  lemma RunOfTwo(s: System, c: Call, d: Call)
    requires c.who < |s.latches| && d.who < |s.latches|
    ensures Run(s, [c, d]) == Step(Step(s, c), d)
    ensures Run(Step(s, c), [d]) == Step(Step(s, c), d)
  {
    hide Step; hide Apply;
    var both := [c, d];
    assert both[..1] == [c] && both[1] == d;
    RunOfOne(s, c);
    RunOfOne(Step(s, c), d);
  }
}
