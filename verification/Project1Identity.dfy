/** Resolving an incoming record's identity against the stored ones. */
module Project1Identity {
  import opened Values
  import opened Keys
  import opened Project1Records
  import opened Project1Index

  datatype Status =
    | Absent | Created | DuplicateAccepted | IntegrityConflict | IdentityAmbiguous
    | StorageCorrupt | StorageUnavailable | PersistenceFailure | IdentityCollision | DurabilityUncertain

  datatype Lookup = Lookup(status: Status, record: Option<Record>)

  predicate Visible(rec: Record, user: Option<string>) {
    UserMatches(rec, user, false)
  }

  /** Both carry an identity of this kind, and it is the same. */
  predicate Agrees(target: Record, rec: Record, kind: IdKind) {
    Id(target, kind) != "" && Id(target, kind) == Id(rec, kind)
  }

  /** Both carry an identity of this kind, and they differ. */
  predicate Differs(target: Record, rec: Record, kind: IdKind) {
    Id(target, kind) != "" && Id(rec, kind) != "" && Id(target, kind) != Id(rec, kind)
  }

  predicate Shares(target: Record, rec: Record) {
    Agrees(target, rec, ByPublication) || Agrees(target, rec, ByEvent) || Agrees(target, rec, BySignal)
  }

  /** The records share one identity and contradict each other on another. */
  predicate Collides(target: Record, rec: Record) {
    && Shares(target, rec)
    && (Differs(target, rec, ByPublication) || Differs(target, rec, ByEvent) || Differs(target, rec, BySignal))
  }

  /** The owner under whose keys a lookup consults the ambiguous set. */
  function LookupOwner(target: Record, user: Option<string>): string {
    if user.Some? && user.value != "" then user.value else Owner(target)
  }

  predicate Hits(target: Record, user: Option<string>, ambiguous: set<string>, kind: IdKind) {
    Id(target, kind) != "" && Key(LookupOwner(target, user), Id(target, kind)) in ambiguous
  }

  /** One of the target's identities is a key of the stored file's ambiguous state. */
  predicate TargetsAmbiguousKey(target: Record, user: Option<string>, ambiguous: set<string>) {
    || Hits(target, user, ambiguous, ByPublication)
    || Hits(target, user, ambiguous, ByEvent)
    || Hits(target, user, ambiguous, BySignal)
  }

  /** The visible records that share an identity with the target, in stored order. */
  function Sharing(rs: seq<Record>, target: Record, user: Option<string>): seq<Record> {
    if rs == [] then []
    else
      var last := rs[|rs| - 1];
      Sharing(rs[..|rs| - 1], target, user) + (if Visible(last, user) && Shares(target, last) then [last] else [])
  }

  function Colliding(rs: seq<Record>, target: Record, user: Option<string>): seq<Record> {
    if rs == [] then []
    else
      var last := rs[|rs| - 1];
      Colliding(rs[..|rs| - 1], target, user) + (if Visible(last, user) && Collides(target, last) then [last] else [])
  }

  /** The answer of the identity scan: collisions anywhere in the list outrank every match. */
  function LookupOf(rs: seq<Record>, ambiguous: set<string>, target: Record, user: Option<string>): Lookup {
    var sharing := Sharing(rs, target, user);
    var colliding := Colliding(rs, target, user);
    if TargetsAmbiguousKey(target, user, ambiguous) then Lookup(IdentityAmbiguous, None)
    else if colliding != [] then Lookup(IdentityCollision, Some(colliding[0]))
    else if sharing == [] then Lookup(Absent, None)
    else if AllSameContent(sharing) then Lookup(Created, Some(sharing[0]))
    else Lookup(IdentityAmbiguous, None)
  }

  lemma {:induction false} SharingMembers(rs: seq<Record>, target: Record, user: Option<string>, rec: Record)
    ensures rec in Sharing(rs, target, user) <==> rec in rs && Visible(rec, user) && Shares(target, rec)
  {
    if rs != [] {
      SharingMembers(rs[..|rs| - 1], target, user, rec);
      assert rs == rs[..|rs| - 1] + [rs[|rs| - 1]];
    }
  }

  lemma {:induction false} CollidingMembers(rs: seq<Record>, target: Record, user: Option<string>, rec: Record)
    ensures rec in Colliding(rs, target, user) <==> rec in rs && Visible(rec, user) && Collides(target, rec)
  {
    if rs != [] {
      CollidingMembers(rs[..|rs| - 1], target, user, rec);
      assert rs == rs[..|rs| - 1] + [rs[|rs| - 1]];
    }
  }

  lemma {:induction false} CollidingPrefix(rs: seq<Record>, n: nat, target: Record, user: Option<string>)
    requires n <= |rs|
    ensures Colliding(rs[..n], target, user) <= Colliding(rs, target, user)
    decreases |rs|
  {
    if n < |rs| {
      CollidingPrefix(rs[..|rs| - 1], n, target, user);
      assert rs[..|rs| - 1][..n] == rs[..n];
    } else {
      assert rs[..n] == rs;
    }
  }

  /** The six branches of the scan, together, are a shared identity with a contradicting one. */
  lemma CollisionCases(target: Record, rec: Record)
    ensures Collides(target, rec) <==>
      || (Agrees(target, rec, ByPublication) && (Differs(target, rec, ByEvent) || Differs(target, rec, BySignal)))
      || (Agrees(target, rec, ByEvent) && (Differs(target, rec, ByPublication) || Differs(target, rec, BySignal)))
      || (Agrees(target, rec, BySignal) && (Differs(target, rec, ByPublication) || Differs(target, rec, ByEvent)))
  {
  }

  /** `find_authoritative_lookup_unlocked` past its latch checks: the scan returns at the first collision it meets. */
  method FindAuthoritativeLookup(rs: seq<Record>, ambiguous: set<string>, target: Record, user: Option<string>)
    returns (found: Lookup)
    ensures found == LookupOf(rs, ambiguous, target, user)
  {
    hide Hits; hide Visible; hide Agrees; hide Differs; hide Collides; hide AllSameContent;
    if Hits(target, user, ambiguous, ByPublication)
    || Hits(target, user, ambiguous, ByEvent)
    || Hits(target, user, ambiguous, BySignal) {
      return Lookup(IdentityAmbiguous, None);
    }
    var matches: seq<Record> := [];
    var i := 0;
    while i < |rs|
      invariant 0 <= i <= |rs|
      invariant matches == Sharing(rs[..i], target, user)
      invariant Colliding(rs[..i], target, user) == []
    {
      var rec := rs[i];
      assert rs[..i + 1][..i] == rs[..i];
      if Visible(rec, user) {
        var byPublication := Agrees(target, rec, ByPublication);
        var byEvent := Agrees(target, rec, ByEvent);
        var bySignal := Agrees(target, rec, BySignal);
        assert Collides(target, rec) ==> Shares(target, rec) by { CollisionCases(target, rec); }
        if byPublication || byEvent || bySignal {
          CollisionCases(target, rec);
          if (byPublication && (Differs(target, rec, ByEvent) || Differs(target, rec, BySignal)))
          || (byEvent && (Differs(target, rec, ByPublication) || Differs(target, rec, BySignal)))
          || (bySignal && (Differs(target, rec, ByPublication) || Differs(target, rec, ByEvent))) {
            CollidingPrefix(rs, i + 1, target, user);
            return Lookup(IdentityCollision, Some(rec));
          }
          matches := matches + [rec];
        }
      }
      i := i + 1;
    }
    assert rs[..i] == rs;
    if matches == [] {
      return Lookup(Absent, None);
    }
    var identical := AllRecordsIdenticalContent(matches);
    if !identical {
      return Lookup(IdentityAmbiguous, None);
    }
    return Lookup(Created, Some(matches[0]));
  }

  ghost predicate SomeCollision(rs: seq<Record>, target: Record, user: Option<string>) {
    exists rec | rec in rs :: Visible(rec, user) && Collides(target, rec)
  }

  ghost predicate SomeSharer(rs: seq<Record>, target: Record, user: Option<string>) {
    exists rec | rec in rs :: Visible(rec, user) && Shares(target, rec)
  }

  ghost predicate SharersDisagree(rs: seq<Record>, target: Record, user: Option<string>) {
    exists a, b | a in rs && b in rs ::
      Visible(a, user) && Shares(target, a) && Visible(b, user) && Shares(target, b) && !SameContent(a, b)
  }

  /** The verdict in terms of which records are stored, not of the order they are met in. */
  lemma VerdictMeaning(rs: seq<Record>, ambiguous: set<string>, target: Record, user: Option<string>)
    ensures var status := LookupOf(rs, ambiguous, target, user).status;
      status ==
        if TargetsAmbiguousKey(target, user, ambiguous) then IdentityAmbiguous
        else if SomeCollision(rs, target, user) then IdentityCollision
        else if !SomeSharer(rs, target, user) then Absent
        else if !SharersDisagree(rs, target, user) then Created
        else IdentityAmbiguous
  {
    hide KeyOf; hide SameContent; hide Id; hide TargetsAmbiguousKey; hide Visible; hide Shares; hide Collides;
    forall rec
      ensures rec in Sharing(rs, target, user) <==> rec in rs && Visible(rec, user) && Shares(target, rec)
      ensures rec in Colliding(rs, target, user) <==> rec in rs && Visible(rec, user) && Collides(target, rec)
    {
      SharingMembers(rs, target, user, rec);
      CollidingMembers(rs, target, user, rec);
    }
    var colliding := Colliding(rs, target, user);
    if colliding != [] { assert colliding[0] in colliding; }
    var sharing := Sharing(rs, target, user);
    if sharing != [] { assert sharing[0] in sharing; }
    if AllSameContent(sharing) {
      forall a, b | a in sharing && b in sharing
        ensures SameContent(a, b)
      {
        SameContentTransitive(a, sharing[0], b);
      }
    } else {
      var n :| 0 <= n < |sharing| && !SameContent(sharing[0], sharing[n]);
      assert sharing[n] in sharing;
    }
  }

  /** The verdict against a file is the same under every reordering of its records. */
  lemma VerdictIsOrderIndependent(rs: seq<Record>, other: seq<Record>, target: Record, user: Option<string>)
    requires multiset(rs) == multiset(other)
    ensures LookupOf(rs, IndexOf(rs).ambiguous, target, user).status
         == LookupOf(other, IndexOf(other).ambiguous, target, user).status
  {
    hide KeyOf; hide SameContent; hide Id; hide TargetsAmbiguousKey; hide Visible; hide Shares; hide Collides;
    hide LookupOf; hide AmbiguousKeys; hide Under;
    forall rec
      ensures rec in rs <==> rec in other
    {
      assert rec in rs <==> rec in multiset(rs);
      assert rec in other <==> rec in multiset(other);
    }
    forall k
      ensures k in IndexOf(rs).ambiguous <==> k in IndexOf(other).ambiguous
    {
      AmbiguityMeaning(rs, k);
      AmbiguityMeaning(other, k);
      forall kind
        ensures Clash(rs, kind, k) <==> Clash(other, kind, k)
      {
      }
    }
    assert IndexOf(rs).ambiguous == IndexOf(other).ambiguous;
    VerdictMeaning(rs, IndexOf(rs).ambiguous, target, user);
    VerdictMeaning(other, IndexOf(other).ambiguous, target, user);
  }
}
