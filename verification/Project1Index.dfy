/** The three identity indexes of the Project 1 store and its set of ambiguous keys. */
module Project1Index {
  import opened Values
  import opened Keys
  import opened Project1Records

  datatype Index = Index(publications: map<string, Record>, events: map<string, Record>,
                         signals: map<string, Record>, ambiguous: set<string>)
  {
    function Of(kind: IdKind): map<string, Record> {
      match kind
      case ByPublication => publications
      case ByEvent => events
      case BySignal => signals
    }
  }

  const EMPTY_INDEX := Index(map[], map[], map[], {})

  predicate Under(rec: Record, kind: IdKind, k: string) {
    Id(rec, kind) != "" && KeyOf(rec, kind) == k
  }

  /** The records filed under a key, in stored order. */
  function Holders(rs: seq<Record>, kind: IdKind, k: string): seq<Record> {
    if rs == [] then []
    else
      var last := rs[|rs| - 1];
      Holders(rs[..|rs| - 1], kind, k) + (if Under(last, kind, k) then [last] else [])
  }

  function KeysOf(rs: seq<Record>, kind: IdKind): set<string> {
    set i | 0 <= i < |rs| && Id(rs[i], kind) != "" :: KeyOf(rs[i], kind)
  }

  function MapOf(rs: seq<Record>, kind: IdKind): map<string, Record> {
    map k | k in KeysOf(rs, kind) && Holders(rs, kind, k) != [] && AllSameContent(Holders(rs, kind, k))
        :: Holders(rs, kind, k)[0]
  }

  function ClashingKeys(rs: seq<Record>, kind: IdKind): set<string> {
    set k | k in KeysOf(rs, kind) && !AllSameContent(Holders(rs, kind, k)) :: k
  }

  function AmbiguousKeys(rs: seq<Record>): set<string> {
    ClashingKeys(rs, ByPublication) + ClashingKeys(rs, ByEvent) + ClashingKeys(rs, BySignal)
  }

  /** The index a full rebuild of the list produces. */
  function IndexOf(rs: seq<Record>): Index {
    Index(MapOf(rs, ByPublication), MapOf(rs, ByEvent), MapOf(rs, BySignal), AmbiguousKeys(rs))
  }

  /** First pass of `_rebuild_indexes_unlocked`, for one kind of identity. */
  method Occurrences(rs: seq<Record>, kind: IdKind) returns (occ: map<string, seq<Record>>)
    ensures occ.Keys == KeysOf(rs, kind)
    ensures forall k | k in occ :: occ[k] == Holders(rs, kind, k)
  {
    hide KeyOf; hide Id; hide Holders; hide KeysOf;
    occ := map[];
    NoHolders(kind);
    var i := 0;
    while i < |rs|
      invariant 0 <= i <= |rs|
      invariant forall k :: k in occ <==> Holders(rs[..i], kind, k) != []
      invariant forall k | k in occ :: occ[k] == Holders(rs[..i], kind, k)
    {
      var rec := rs[i];
      assert rs[..i + 1] == rs[..i] + [rec];
      forall k { HoldersSnoc(rs[..i], rec, kind, k); }
      if Id(rec, kind) != "" {
        var k := KeyOf(rec, kind);
        occ := occ[k := (if k in occ then occ[k] else []) + [rec]];
      }
      i := i + 1;
    }
    assert rs[..i] == rs;
    forall k { HoldersOfNewKey(rs, kind, k); }
  }

  lemma NoHolders(kind: IdKind)
    ensures forall k :: Holders([], kind, k) == []
  {
  }

  lemma {:induction false} HolderMembers(rs: seq<Record>, kind: IdKind, k: string, rec: Record)
    ensures rec in Holders(rs, kind, k) <==> rec in rs && Under(rec, kind, k)
  {
    if rs != [] {
      HolderMembers(rs[..|rs| - 1], kind, k, rec);
      assert rs == rs[..|rs| - 1] + [rs[|rs| - 1]];
    }
  }

  lemma HoldersOfNewKey(rs: seq<Record>, kind: IdKind, k: string)
    ensures k in KeysOf(rs, kind) <==> Holders(rs, kind, k) != []
  {
    var hs := Holders(rs, kind, k);
    if hs != [] {
      HolderMembers(rs, kind, k, hs[0]);
      var i :| 0 <= i < |rs| && rs[i] == hs[0];
    }
    if k in KeysOf(rs, kind) {
      var i :| 0 <= i < |rs| && Id(rs[i], kind) != "" && KeyOf(rs[i], kind) == k;
      HolderMembers(rs, kind, k, rs[i]);
    }
  }

  /** Second pass of `_rebuild_indexes_unlocked`, for one kind: keep a key whose records agree, mark the others. */
  method IndexOccurrences(occ: map<string, seq<Record>>, marked: set<string>)
    returns (index: map<string, Record>, ambiguous: set<string>)
    requires forall k | k in occ :: occ[k] != []
    ensures forall k :: k in index <==> k in occ && AllSameContent(occ[k])
    ensures forall k | k in index :: index[k] == occ[k][0]
    ensures forall k :: k in ambiguous <==> k in marked || (k in occ && !AllSameContent(occ[k]))
  {
    hide AllSameContent;
    index, ambiguous := map[], marked;
    var todo := occ.Keys;
    while todo != {}
      invariant todo <= occ.Keys
      invariant forall k :: k in index <==> k in occ && k !in todo && AllSameContent(occ[k])
      invariant forall k | k in index :: index[k] == occ[k][0]
      invariant forall k :: k in ambiguous <==> k in marked || (k in occ && k !in todo && !AllSameContent(occ[k]))
      decreases todo
    {
      var k :| k in todo;
      todo := todo - {k};
      var identical := AllRecordsIdenticalContent(occ[k]);
      if identical {
        index := index[k := occ[k][0]];
      } else {
        ambiguous := ambiguous + {k};
      }
    }
  }

  /** Membership in the specified index, in terms of the records filed under the key. */
  lemma SlotMeaning(rs: seq<Record>, kind: IdKind, k: string)
    ensures k in MapOf(rs, kind) <==> Holders(rs, kind, k) != [] && AllSameContent(Holders(rs, kind, k))
    ensures k in MapOf(rs, kind) ==> MapOf(rs, kind)[k] == Holders(rs, kind, k)[0]
    ensures k in ClashingKeys(rs, kind) <==> !AllSameContent(Holders(rs, kind, k))
  {
    HoldersOfNewKey(rs, kind, k);
  }

  method IndexKind(rs: seq<Record>, kind: IdKind, marked: set<string>)
    returns (index: map<string, Record>, ambiguous: set<string>)
    ensures index == MapOf(rs, kind)
    ensures ambiguous == marked + ClashingKeys(rs, kind)
  {
    hide AllSameContent; hide MapOf; hide ClashingKeys; hide Holders; hide KeysOf;
    var occ := Occurrences(rs, kind);
    forall k
      ensures k in occ <==> Holders(rs, kind, k) != []
      ensures k in MapOf(rs, kind) <==> k in occ && AllSameContent(occ[k])
      ensures k in MapOf(rs, kind) ==> MapOf(rs, kind)[k] == occ[k][0]
      ensures k in ClashingKeys(rs, kind) <==> k in occ && !AllSameContent(occ[k])
    {
      HoldersOfNewKey(rs, kind, k);
      SlotMeaning(rs, kind, k);
      OneAgrees(map[]);
    }
    index, ambiguous := IndexOccurrences(occ, marked);
  }

  /** `_rebuild_indexes_unlocked` */
  method Rebuild(rs: seq<Record>) returns (index: Index)
    ensures index == IndexOf(rs)
  {
    var pubs, a1 := IndexKind(rs, ByPublication, {});
    var events, a2 := IndexKind(rs, ByEvent, a1);
    var signals, ambiguous := IndexKind(rs, BySignal, a2);
    index := Index(pubs, events, signals, ambiguous);
  }

  function Filed(m: map<string, Record>, ambiguous: set<string>, rec: Record, kind: IdKind): map<string, Record> {
    if Id(rec, kind) != "" && KeyOf(rec, kind) !in ambiguous then m[KeyOf(rec, kind) := rec] else m
  }

  /** `_index_record_unlocked` */
  function Indexed(ix: Index, rec: Record): Index {
    Index(Filed(ix.publications, ix.ambiguous, rec, ByPublication),
          Filed(ix.events, ix.ambiguous, rec, ByEvent),
          Filed(ix.signals, ix.ambiguous, rec, BySignal),
          ix.ambiguous)
  }

  /** Two records filed under one key by one kind of identity differ in content. */
  ghost predicate Clash(rs: seq<Record>, kind: IdKind, k: string) {
    exists a, b | a in rs && b in rs :: Under(a, kind, k) && Under(b, kind, k) && !SameContent(a, b)
  }

  /** What a rebuild promises, read off the list alone: a kind maps a key exactly when it files some record under
      it and no two of those differ in content, and then to the first of them. */
  lemma IndexMeaning(rs: seq<Record>, kind: IdKind, k: string)
    ensures k in IndexOf(rs).Of(kind) <==> (exists a | a in rs :: Under(a, kind, k)) && !Clash(rs, kind, k)
    ensures k in IndexOf(rs).Of(kind) ==>
              exists i :: 0 <= i < |rs| && rs[i] == IndexOf(rs).Of(kind)[k] && Under(rs[i], kind, k)
                       && forall j | 0 <= j < i :: !Under(rs[j], kind, k)
  {
    assert IndexOf(rs).Of(kind) == MapOf(rs, kind);
    HoldersOfNewKey(rs, kind, k);
    HoldersAgree(rs, kind, k);
    forall a { HolderMembers(rs, kind, k, a); }
    if Holders(rs, kind, k) != [] {
      var i := FirstHolder(rs, kind, k);
      assert rs[i] in rs;
    }
  }

  /** A key is ambiguous exactly when some kind of identity files two differing records under it. */
  lemma AmbiguityMeaning(rs: seq<Record>, k: string)
    ensures k in IndexOf(rs).ambiguous <==> exists kind :: Clash(rs, kind, k)
  {
    forall kind
      ensures k in ClashingKeys(rs, kind) <==> Clash(rs, kind, k)
    {
      HoldersOfNewKey(rs, kind, k);
      HoldersAgree(rs, kind, k);
    }
    if kind :| Clash(rs, kind, k) {
      match kind case ByPublication => case ByEvent => case BySignal =>
    }
  }

  lemma HoldersAgree(rs: seq<Record>, kind: IdKind, k: string)
    ensures AllSameContent(Holders(rs, kind, k)) <==> !Clash(rs, kind, k)
  {
    var hs := Holders(rs, kind, k);
    forall a { HolderMembers(rs, kind, k, a); }
    if AllSameContent(hs) {
      forall a, b | a in rs && b in rs && Under(a, kind, k) && Under(b, kind, k)
        ensures SameContent(a, b)
      {
        SameContentTransitive(a, hs[0], b);
      }
    } else {
      var n :| 0 <= n < |hs| && !SameContent(hs[0], hs[n]);
      assert hs[0] in hs && hs[n] in hs;
    }
  }

  lemma SameContentTransitive(a: Record, b: Record, c: Record)
    requires SameContent(b, a) && SameContent(b, c)
    ensures SameContent(a, c)
  {
  }

  lemma {:induction false} FirstHolder(rs: seq<Record>, kind: IdKind, k: string) returns (i: nat)
    requires Holders(rs, kind, k) != []
    ensures i < |rs| && rs[i] == Holders(rs, kind, k)[0] && Under(rs[i], kind, k)
    ensures forall j | 0 <= j < i :: !Under(rs[j], kind, k)
  {
    hide Under;
    var init := rs[..|rs| - 1];
    if Holders(init, kind, k) != [] {
      i := FirstHolder(init, kind, k);
    } else {
      i := |rs| - 1;
      forall j | 0 <= j < i
        ensures !Under(rs[j], kind, k)
      {
        assert rs[j] in init;
        HolderMembers(init, kind, k, rs[j]);
      }
    }
  }

  lemma HoldersSnoc(rs: seq<Record>, rec: Record, kind: IdKind, k: string)
    ensures Holders(rs + [rec], kind, k) ==
              if Under(rec, kind, k) then Holders(rs, kind, k) + [rec] else Holders(rs, kind, k)
  {
    assert (rs + [rec])[..|rs|] == rs;
  }

  /** Adding a new record to the index gives what a rebuild of the extended list would give, exactly when no stored
      record is already filed under one of the new record's keys. (The keys of different owners can meet.) */
  lemma IncrementalEqualsRebuild(rs: seq<Record>, rec: Record)
    requires rec !in rs
    requires forall kind :: Id(rec, kind) != "" ==> KeyOf(rec, kind) !in AmbiguousKeys(rs)
    ensures Indexed(IndexOf(rs), rec) == IndexOf(rs + [rec]) <==>
              forall kind :: Id(rec, kind) != "" ==> Holders(rs, kind, KeyOf(rec, kind)) == []
  {
    if forall kind :: Id(rec, kind) != "" ==> Holders(rs, kind, KeyOf(rec, kind)) == [] {
      IncrementalKind(rs, rec, ByPublication);
      IncrementalKind(rs, rec, ByEvent);
      IncrementalKind(rs, rec, BySignal);
    } else {
      var kind :| Id(rec, kind) != "" && Holders(rs, kind, KeyOf(rec, kind)) != [];
      IncrementalDiffers(rs, rec, kind);
      match kind case ByPublication => case ByEvent => case BySignal =>
    }
  }

  lemma IncrementalKind(rs: seq<Record>, rec: Record, kind: IdKind)
    requires Id(rec, kind) != "" ==> Holders(rs, kind, KeyOf(rec, kind)) == []
    requires Id(rec, kind) != "" ==> KeyOf(rec, kind) !in AmbiguousKeys(rs)
    ensures MapOf(rs + [rec], kind) == Filed(MapOf(rs, kind), AmbiguousKeys(rs), rec, kind)
    ensures ClashingKeys(rs + [rec], kind) == ClashingKeys(rs, kind)
  {
    hide AllSameContent; hide MapOf; hide ClashingKeys; hide Holders; hide KeyOf; hide Id; hide AmbiguousKeys;
    assert AllSameContent([]) && AllSameContent([rec]) by { OneAgrees(rec); }
    var filed := Filed(MapOf(rs, kind), AmbiguousKeys(rs), rec, kind);
    forall k
      ensures k in MapOf(rs + [rec], kind) <==> k in filed
      ensures k in filed ==> MapOf(rs + [rec], kind)[k] == filed[k]
      ensures k in ClashingKeys(rs + [rec], kind) <==> k in ClashingKeys(rs, kind)
    {
      SlotMeaning(rs, kind, k);
      SlotMeaning(rs + [rec], kind, k);
      HoldersSnoc(rs, rec, kind, k);
      assert Under(rec, kind, k) ==> Holders(rs + [rec], kind, k) == [rec];
    }
  }

  lemma OneAgrees(rec: Record)
    ensures AllSameContent([]) && AllSameContent([rec])
  {
  }

  lemma IncrementalDiffers(rs: seq<Record>, rec: Record, kind: IdKind)
    requires rec !in rs
    requires Id(rec, kind) != "" && KeyOf(rec, kind) !in AmbiguousKeys(rs)
    requires Holders(rs, kind, KeyOf(rec, kind)) != []
    ensures MapOf(rs + [rec], kind) != Filed(MapOf(rs, kind), AmbiguousKeys(rs), rec, kind)
  {
    hide AllSameContent; hide Holders; hide KeyOf; hide Id; hide AmbiguousKeys; hide MapOf; hide ClashingKeys;
    var k := KeyOf(rec, kind);
    SlotMeaning(rs + [rec], kind, k);
    HoldersSnoc(rs, rec, kind, k);
    HolderMembers(rs, kind, k, Holders(rs, kind, k)[0]);
  }
}
