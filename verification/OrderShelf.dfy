/** What the order intent repository keeps: intents in insertion order, a map by idempotency key, a map by publication
    identity, and the publication identities that several stored intents share. */
module OrderShelf {
  import opened Values
  import opened Text
  import opened OrderIntents
  import Keys
  import S = StableSort

  /** A user and a publication id. */
  type Identity = (string, string)

  datatype Shelf = Shelf(intents: seq<Intent>, keys: map<string, string>, publications: map<Identity, string>,
                         ambiguous: set<Identity>)

  datatype Item = Entry(row: Row) | Junk

  /** The repository's file: not there, not JSON, or a list of items. */
  datatype File = Absent | Unreadable | Rows(items: seq<Item>)

  const EMPTY_SHELF := Shelf([], map[], map[], {})

  /** `_intents_by_id.get(id)`: a Python dictionary is a list of intents with distinct ids. */
  function Find(intents: seq<Intent>, id: string): (r: Option<Intent>)
    ensures r.Some? ==> r.value in intents && r.value.id == id
    ensures r.None? ==> forall i | i in intents :: i.id != id
  {
    if intents == [] then None
    else if intents[0].id == id then Some(intents[0])
    else Find(intents[1..], id)
  }

  /** `_intents_by_id[i.id] = i`: in place of the intent with this id, or at the end. */
  function Put(intents: seq<Intent>, i: Intent): (r: seq<Intent>)
    ensures i in r
  {
    if intents == [] then [i]
    else if intents[0].id == i.id then [i] + intents[1..]
    else [intents[0]] + Put(intents[1..], i)
  }

  ghost predicate DistinctIds(intents: seq<Intent>) {
    forall m, n | 0 <= m < n < |intents| :: intents[m].id != intents[n].id
  }

  /** The identity under which an intent answers for a publication. */
  function IdentityOf(i: Intent): Option<Identity> {
    match i.lineage.publication case None => None case Some(p) => Some((i.user, p))
  }

  function KeyOf(i: Intent): string {
    Keys.Key(i.user, i.key)
  }

  lemma {:induction false} PutFind(intents: seq<Intent>, i: Intent, id: string)
    ensures Find(Put(intents, i), id) == if id == i.id then Some(i) else Find(intents, id)
  {
    if intents != [] && intents[0].id != i.id {
      PutFind(intents[1..], i, id);
    } else if intents != [] {
      assert Put(intents, i)[1..] == intents[1..];
    }
  }

  lemma {:induction false} PutMembers(intents: seq<Intent>, i: Intent)
    requires DistinctIds(intents)
    ensures DistinctIds(Put(intents, i))
    ensures forall j :: j in Put(intents, i) <==> j == i || (j in intents && j.id != i.id)
  {
    if intents == [] {
    } else if intents[0].id == i.id {
      forall j
        ensures j in Put(intents, i) <==> j == i || (j in intents && j.id != i.id)
      {
        if j in intents && j.id != i.id {
          var n :| 0 <= n < |intents| && intents[n] == j;
          assert intents[1..][n - 1] == j;
        }
      }
    } else {
      PutMembers(intents[1..], i);
      var r := Put(intents[1..], i);
      assert intents == [intents[0]] + intents[1..];
      forall n | 0 <= n < |r|
        ensures r[n].id != intents[0].id
      {
        assert r[n] in r;
      }
    }
  }

  lemma {:induction false} FindOnly(intents: seq<Intent>, i: Intent)
    requires DistinctIds(intents) && i in intents
    ensures Find(intents, i.id) == Some(i)
  {
    if intents[0].id != i.id {
      var n :| 0 <= n < |intents| && intents[n] == i;
      assert intents[1..][n - 1] == i;
      FindOnly(intents[1..], i);
    }
  }

  lemma {:induction false} PutNew(intents: seq<Intent>, i: Intent)
    requires Find(intents, i.id).None?
    ensures Put(intents, i) == intents + [i]
  {
    if intents != [] {
      assert intents[0] in intents;
      PutNew(intents[1..], i);
    }
  }

  /** One row of the loading loop. */
  function Loaded(s: Shelf, i: Intent): Shelf {
    var k := IdentityOf(i);
    var clash := k.Some? && k.value in s.publications && s.publications[k.value] != i.id;
    Shelf(Put(s.intents, i), s.keys[KeyOf(i) := i.id],
          if k.Some? && !clash then s.publications[k.value := i.id] else s.publications,
          if clash then s.ambiguous + {k.value} else s.ambiguous)
  }

  /** The intents that the rows of a file hold; a row that does not read as an intent is passed over. */
  function Held(items: seq<Item>, numerals: Numerals): seq<Intent> {
    if items == [] then []
    else
      var n := |items| - 1;
      var init := Held(items[..n], numerals);
      if items[n].Entry? && FromRow(items[n].row, numerals).Some?
      then init + [FromRow(items[n].row, numerals).value] else init
  }

  function LoadedAll(intents: seq<Intent>): Shelf {
    if intents == [] then EMPTY_SHELF
    else Loaded(LoadedAll(intents[..|intents| - 1]), intents[|intents| - 1])
  }

  /** Ambiguous identities leave the map. */
  function Settled(s: Shelf): Shelf {
    s.(publications := map k | k in s.publications && k !in s.ambiguous :: s.publications[k])
  }

  /** `_load_from_storage`; an unreadable file is backed up and the repository starts empty. */
  function Load(file: File, numerals: Numerals): Shelf {
    if file.Rows? then Settled(LoadedAll(Held(file.items, numerals))) else EMPTY_SHELF
  }

  /** `_flush_to_storage` */
  function Flushed(s: Shelf): File {
    Rows(seq(|s.intents|, n requires 0 <= n < |s.intents| => Entry(ToRow(s.intents[n]))))
  }

  /** `save_order_intent` raises ValueError. */
  predicate Refuses(s: Shelf, i: Intent) {
    var k := IdentityOf(i);
    && k.Some?
    && (k.value in s.ambiguous || (k.value in s.publications && s.publications[k.value] != i.id))
  }

  function Saved(s: Shelf, i: Intent): Shelf {
    var k := IdentityOf(i);
    Shelf(Put(s.intents, i), s.keys[KeyOf(i) := i.id],
          if k.Some? then s.publications[k.value := i.id] else s.publications, s.ambiguous)
  }

  /** `get_by_publication_id` */
  function ByPublication(s: Shelf, user: string, publication: string): Option<Intent> {
    if Blank(user) || Blank(publication) then None
    else
      var k := (Strip(user), Strip(publication));
      if k in s.ambiguous || k !in s.publications then None else Find(s.intents, s.publications[k])
  }

  /** `get_by_idempotency_key` */
  function ByKey(s: Shelf, user: string, key: string): Option<Intent> {
    var k := Keys.Key(user, key);
    if k in s.keys then Find(s.intents, s.keys[k]) else None
  }

  /** `get_order_intent` */
  function ById(s: Shelf, id: string, user: Option<string>): Option<Intent> {
    var found := Find(s.intents, id);
    if found.Some? && user.Some? && found.value.user != user.value then None else found
  }

  datatype Filter = Filter(user: Option<string>, symbol: Option<string>, state: Option<string>)

  predicate Passes(f: Filter, i: Intent) {
    && (f.user.Some? ==> i.user == f.user.value)
    && (f.symbol.Some? && !Blank(f.symbol.value) ==> i.symbol == Upper(Strip(f.symbol.value)))
    && (f.state.Some? && !Blank(f.state.value) ==> StateName(i.state) == Upper(Strip(f.state.value)))
  }

  function Passing(intents: seq<Intent>, f: Filter): seq<Intent> {
    if intents == [] then []
    else
      var n := |intents| - 1;
      var init := Passing(intents[..n], f);
      if Passes(f, intents[n]) then init + [intents[n]] else init
  }

  function Dated(intents: seq<Intent>): (r: seq<S.Keyed<Intent>>)
    ensures |r| == |intents|
  {
    seq(|intents|, n requires 0 <= n < |intents| => S.Keyed(S.At(intents[n].created), intents[n]))
  }

  /** Newest first, equal times as they stood. */
  function Newest(intents: seq<Intent>): (r: seq<Intent>) {
    S.Items(S.SortDescending(Dated(intents)))
  }

  /** `s[:limit]`; a negative limit counts from the end. */
  function Cut(s: seq<Intent>, limit: int): seq<Intent> {
    if 0 <= limit then (if limit < |s| then s[..limit] else s)
    else if -limit < |s| then s[..|s| + limit] else []
  }

  /** `list_order_intents` */
  function Listed(intents: seq<Intent>, f: Filter, limit: int): seq<Intent> {
    Cut(Newest(Passing(intents, f)), limit)
  }

  /** The map by publication is exactly the intents' own identities, and none is shared. */
  ghost predicate Coherent(s: Shelf) {
    && DistinctIds(s.intents)
    && (forall i | i in s.intents :: Normal(i))
    && s.ambiguous == {}
    && (forall i | i in s.intents && IdentityOf(i).Some? ::
          IdentityOf(i).value in s.publications && s.publications[IdentityOf(i).value] == i.id)
    && (forall k | k in s.publications ::
          exists i :: i in s.intents && i.id == s.publications[k] && IdentityOf(i) == Some(k))
  }

  /** The map by idempotency key is exactly the intents' own keys, and none is shared. */
  ghost predicate Keyed(s: Shelf) {
    && (forall i | i in s.intents :: KeyOf(i) in s.keys && s.keys[KeyOf(i)] == i.id)
    && (forall k | k in s.keys :: exists i :: i in s.intents && i.id == s.keys[k] && KeyOf(i) == k)
  }

  /** At most one intent answers for a publication, and the lookup finds it. */
  lemma CoherentLookup(s: Shelf, user: string, publication: string)
    requires Coherent(s) && Trimmed(user) && Trimmed(publication) && user != "" && publication != ""
    ensures var found := ByPublication(s, user, publication);
      && (found.Some? ==> found.value in s.intents && IdentityOf(found.value) == Some((user, publication)))
      && forall i | i in s.intents && IdentityOf(i) == Some((user, publication)) :: found == Some(i)
  {
    hide Normal;
    var k := (user, publication);
    if k in s.publications {
      var i :| i in s.intents && i.id == s.publications[k] && IdentityOf(i) == Some(k);
      FindOnly(s.intents, i);
    }
    forall i | i in s.intents && IdentityOf(i) == Some(k)
      ensures ByPublication(s, user, publication) == Some(i)
    {
      FindOnly(s.intents, i);
    }
  }

  /** Saving keeps the shelf coherent as long as an intent that is replaced keeps its identity. */
  lemma SaveKeepsCoherent(s: Shelf, i: Intent)
    requires Coherent(s) && Normal(i) && !Refuses(s, i)
    requires forall j | j in s.intents && j.id == i.id :: IdentityOf(j) == IdentityOf(i)
    ensures Coherent(Saved(s, i))
  {
    hide Normal; hide Put; hide Find; hide DistinctIds;
    PutMembers(s.intents, i);
    var r := Saved(s, i);
    forall j | j in r.intents && IdentityOf(j).Some?
      ensures IdentityOf(j).value in r.publications && r.publications[IdentityOf(j).value] == j.id
    {
      if j != i {
        assert s.publications[IdentityOf(j).value] == j.id;
      }
    }
    forall k | k in r.publications
      ensures exists j :: j in r.intents && j.id == r.publications[k] && IdentityOf(j) == Some(k)
    {
      if IdentityOf(i) == Some(k) {
        assert i in r.intents;
      } else {
        var j :| j in s.intents && j.id == s.publications[k] && IdentityOf(j) == Some(k);
        assert j in r.intents;
      }
    }
  }

  /** Saving keeps keys exact as long as the intent's key is its own. */
  lemma SaveKeepsKeyed(s: Shelf, i: Intent)
    requires Keyed(s) && DistinctIds(s.intents)
    requires forall j | j in s.intents :: j.id == i.id <==> KeyOf(j) == KeyOf(i)
    ensures Keyed(Saved(s, i))
  {
    hide Put; hide Find; hide DistinctIds;
    PutMembers(s.intents, i);
    var r := Saved(s, i);
    forall k | k in r.keys
      ensures exists j :: j in r.intents && j.id == r.keys[k] && KeyOf(j) == k
    {
      if KeyOf(i) == k {
        assert i in r.intents;
      } else {
        var j :| j in s.intents && j.id == s.keys[k] && KeyOf(j) == k;
        assert j in r.intents;
      }
    }
  }
}
