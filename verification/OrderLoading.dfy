/** What loading a file of order intents yields, for any file, and that a saved shelf loads back. */
module OrderLoading {
  import opened Values
  import opened Text
  import opened OrderIntents
  import opened OrderShelf
  import Keys

  /** Some intent of this id answers for the identity. */
  ghost predicate Answers(intents: seq<Intent>, k: Identity, id: string) {
    exists i :: i in intents && IdentityOf(i) == Some(k) && i.id == id
  }

  lemma AnswersGrows(intents: seq<Intent>, x: Intent, k: Identity, id: string)
    ensures Answers(intents + [x], k, id) <==> Answers(intents, k, id) || (IdentityOf(x) == Some(k) && x.id == id)
  {
    if IdentityOf(x) == Some(k) && x.id == id { assert x in intents + [x]; }
    if Answers(intents, k, id) {
      var i :| i in intents && IdentityOf(i) == Some(k) && i.id == id;
      assert i in intents + [x];
    }
  }

  /** The last intent of the list with an id: later rows overwrite earlier ones. */
  function Last(intents: seq<Intent>, id: string): Option<Intent> {
    if intents == [] then None
    else if intents[|intents| - 1].id == id then Some(intents[|intents| - 1])
    else Last(intents[..|intents| - 1], id)
  }

  /** The loading loop, seen at one identity: mapped as soon as one row answers for it, ambiguous as soon as two rows of
      different ids do. */
  lemma {:induction false} LoadedAt(intents: seq<Intent>, k: Identity)
    ensures var s := LoadedAll(intents);
      && (k in s.publications <==> !NoAnswer(intents, k))
      && (k in s.publications ==> Answers(intents, k, s.publications[k]))
      && (k in s.ambiguous <==> Contested(intents, k))
  {
    hide Find; hide Put;
    if intents != [] {
      var n := |intents| - 1;
      var init, x := intents[..n], intents[n];
      LoadedAt(init, k);
      assert intents == init + [x];
      forall id
        ensures Answers(intents, k, id) <==> Answers(init, k, id) || (IdentityOf(x) == Some(k) && x.id == id)
      {
        AnswersGrows(init, x, k, id);
      }
      hide Answers;
      var before := LoadedAll(init);
      if IdentityOf(x) == Some(k) {
        assert Answers(intents, k, x.id);
        if k in before.publications { assert Answers(intents, k, before.publications[k]); }
      }
    }
  }

  lemma {:induction false} LoadedIntents(intents: seq<Intent>, id: string)
    ensures Find(LoadedAll(intents).intents, id) == Last(intents, id)
  {
    if intents != [] {
      var n := |intents| - 1;
      LoadedIntents(intents[..n], id);
      PutFind(LoadedAll(intents[..n]).intents, intents[n], id);
    }
  }

  /** For any file: a publication lookup answers exactly when all rows with the identity are of one id, and then with
      the last row of that id; an identity with rows of several ids is refused to every intent, and no save lifts
      that. */
  lemma LookupOfLoaded(rows: seq<Intent>, user: string, publication: string)
    requires Trimmed(user) && Trimmed(publication) && user != "" && publication != ""
    ensures var k, s := (user, publication), Settled(LoadedAll(rows));
      var found := ByPublication(s, user, publication);
      && (forall id | Answers(rows, k, id) && OnlyAnswer(rows, k, id) :: found == Last(rows, id))
      && (NoAnswer(rows, k) ==> found.None?)
      && (Contested(rows, k) ==>
            && found.None? && k in s.ambiguous
            && (forall i | IdentityOf(i) == Some(k) :: Refuses(s, i))
            && (forall i :: k in Saved(s, i).ambiguous))
  {
    hide Answers; hide Find; hide Last; hide LoadedAll; hide Strip;
    var k := (user, publication);
    LoadedAt(rows, k);
    forall id | Answers(rows, k, id) && OnlyAnswer(rows, k, id)
      ensures ByPublication(Settled(LoadedAll(rows)), user, publication) == Last(rows, id)
    {
      LoadedIntents(rows, id);
    }
  }

  ghost predicate OnlyAnswer(intents: seq<Intent>, k: Identity, id: string) {
    forall other | Answers(intents, k, other) :: other == id
  }

  ghost predicate NoAnswer(intents: seq<Intent>, k: Identity) {
    forall id :: !Answers(intents, k, id)
  }

  ghost predicate Contested(intents: seq<Intent>, k: Identity) {
    exists a, b :: Answers(intents, k, a) && Answers(intents, k, b) && a != b
  }

  lemma {:induction false} LastOfDistinct(intents: seq<Intent>, i: Intent)
    requires DistinctIds(intents) && i in intents
    ensures Last(intents, i.id) == Some(i)
  {
    var n := |intents| - 1;
    assert intents == intents[..n] + [intents[n]];
    if intents[n] != i {
      var m :| 0 <= m < n && intents[m] == i;
      LastOfDistinct(intents[..n], i);
    }
  }

  ghost predicate OnlyOne(rows: seq<Intent>, k: Identity, i: Intent) {
    i in rows && IdentityOf(i) == Some(k) && forall j | j in rows && IdentityOf(j) == Some(k) :: j == i
  }

  /** For a file of distinct ids, a publication lookup gives the one intent with the identity, and None when there is
      none or several. */
  lemma DistinctFileLookup(file: File, numerals: Numerals, user: string, publication: string)
    requires file.Rows? && DistinctIds(Held(file.items, numerals))
    requires Trimmed(user) && Trimmed(publication) && user != "" && publication != ""
    ensures var found := ByPublication(Load(file, numerals), user, publication);
      forall i :: found == Some(i) <==> OnlyOne(Held(file.items, numerals), (user, publication), i)
  {
    hide DistinctIds; hide Last; hide Held; hide ByPublication; hide Settled; hide Trimmed; hide IdentityOf;
    var rows, k := Held(file.items, numerals), (user, publication);
    LookupOfLoaded(rows, user, publication);
    forall i | i in rows
      ensures Last(rows, i.id) == Some(i)
    {
      LastOfDistinct(rows, i);
    }
    DistinctLookup(rows, k, ByPublication(Settled(LoadedAll(rows)), user, publication));
  }

  lemma DistinctLookup(rows: seq<Intent>, k: Identity, found: Option<Intent>)
    requires forall j | j in rows :: Last(rows, j.id) == Some(j)
    requires forall id | Answers(rows, k, id) && OnlyAnswer(rows, k, id) :: found == Last(rows, id)
    requires NoAnswer(rows, k) ==> found.None?
    requires Contested(rows, k) ==> found.None?
    ensures forall i :: found == Some(i) <==> OnlyOne(rows, k, i)
  {
    hide Last; hide IdentityOf;
    forall i | found == Some(i)
      ensures OnlyOne(rows, k, i)
    {
      var id :| Answers(rows, k, id);
      assert OnlyAnswer(rows, k, id);
      var j :| j in rows && IdentityOf(j) == Some(k) && j.id == id;
      forall other | other in rows && IdentityOf(other) == Some(k)
        ensures other == j
      {
        assert Answers(rows, k, other.id);
      }
    }
    forall i | OnlyOne(rows, k, i)
      ensures found == Some(i)
    {
      assert Answers(rows, k, i.id) && OnlyAnswer(rows, k, i.id);
    }
  }

  function WithPublication(i: Intent, p: string): Intent {
    i.(lineage := i.lineage.(publication := Some(p)))
  }

  lemma WithPublicationIsNormal(i: Intent, p: string)
    requires Normal(i) && Trimmed(p) && p != ""
    ensures Normal(WithPublication(i, p))
  {
  }

  /** Two rows of one id break this: the earlier row's publication then leads to the later row. */
  lemma RepeatedIdMisleads(i: Intent, p: string, q: string, numerals: Numerals)
    requires Normal(i) && i.trailingStop.None? && Trimmed(p) && Trimmed(q) && p != "" && q != "" && p != q
    ensures var first, second := WithPublication(i, p), WithPublication(i, q);
      var file := Rows([Entry(ToRow(first)), Entry(ToRow(second))]);
      ByPublication(Load(file, numerals), i.user, p) == Some(second)
  {
    var first, second := WithPublication(i, p), WithPublication(i, q);
    hide Normal; hide ToRow; hide Held; hide LoadedAll; hide Settled; hide ByPublication;
    WithPublicationIsNormal(i, p);
    WithPublicationIsNormal(i, q);
    PairHeld(first, second, numerals);
    LoadedPair(first, second, p);
  }

  lemma PairHeld(first: Intent, second: Intent, numerals: Numerals)
    requires Normal(first) && Normal(second) && first.trailingStop.None? && second.trailingStop.None?
    ensures Held([Entry(ToRow(first)), Entry(ToRow(second))], numerals) == [first, second]
  {
    hide Normal; hide ToRow; hide Held;
    HeldOfWritten([first, second], [Entry(ToRow(first)), Entry(ToRow(second))], numerals);
    assert RestoredAll([first, second]) == [Restored(first), Restored(second)];
  }

  lemma LoadedPair(first: Intent, second: Intent, p: string)
    requires Normal(first) && second.id == first.id && second.user == first.user
    requires first.lineage.publication == Some(p) && p != "" && Trimmed(p) && second.lineage.publication.Some?
    ensures ByPublication(Settled(LoadedAll([first, second])), first.user, p) == Some(second)
  {
    hide Strip;
    var rows, k := [first, second], (first.user, p);
    assert first in rows && second in rows;
    LookupOfLoaded(rows, first.user, p);
    assert Answers(rows, k, first.id) && OnlyAnswer(rows, k, first.id);
  }

  lemma {:induction false} LoadDistinct(intents: seq<Intent>)
    requires DistinctIds(intents)
    ensures LoadedAll(intents).intents == intents
  {
    if intents != [] {
      var n := |intents| - 1;
      LoadDistinct(intents[..n]);
      PutNew(intents[..n], intents[n]);
      assert intents == intents[..n] + [intents[n]];
    }
  }

  function RestoredAll(intents: seq<Intent>): (r: seq<Intent>)
    ensures |r| == |intents|
  {
    seq(|intents|, n requires 0 <= n < |intents| => Restored(intents[n]))
  }

  lemma {:induction false} HeldOfWritten(intents: seq<Intent>, items: seq<Item>, numerals: Numerals)
    requires |items| == |intents| && forall n | 0 <= n < |items| :: items[n] == Entry(ToRow(intents[n]))
    requires forall i | i in intents :: Normal(i)
    ensures Held(items, numerals) == RestoredAll(intents)
  {
    hide ToRow; hide FromRow; hide Normal; hide Restored;
    if intents != [] {
      var n := |intents| - 1;
      HeldOfWritten(intents[..n], items[..n], numerals);
      assert intents[n] in intents;
      RowRoundTrip(intents[n], numerals);
      assert RestoredAll(intents) == RestoredAll(intents[..n]) + [Restored(intents[n])];
    }
  }

  /** Writing a coherent shelf and loading it again restores the intents, the map by publication and the absence of
      ambiguity, and the map by key when that was exact. */
  lemma FlushLoadRestores(s: Shelf, numerals: Numerals)
    requires Coherent(s)
    ensures var r := Load(Flushed(s), numerals);
      && r.intents == RestoredAll(s.intents) && r.publications == s.publications && r.ambiguous == s.ambiguous
      && Coherent(r) && (Keyed(s) ==> r.keys == s.keys && Keyed(r))
  {
    hide Coherent; hide Keyed; hide LoadedAll; hide Held; hide ToRow; hide RestoredAll; hide Settled; hide Alike;
    hide DistinctIds;
    var rows := RestoredAll(s.intents);
    CoherentParts(s);
    HeldOfWritten(s.intents, Flushed(s).items, numerals);
    RestoredFields(s.intents);
    LoadDistinct(rows);
    RestoredPublications(s, rows);
    SettledUnambiguous(LoadedAll(rows));
    RestoredCoherent(s, LoadedAll(rows));
    if Keyed(s) { RestoredKeys(s, rows); }
  }

  lemma CoherentParts(s: Shelf)
    requires Coherent(s)
    ensures DistinctIds(s.intents) && s.ambiguous == {} && forall i | i in s.intents :: Normal(i)
  {
  }

  lemma SettledUnambiguous(s: Shelf)
    requires s.ambiguous == {}
    ensures Settled(s) == s
  {
    assert Settled(s).publications == s.publications;
  }

  /** What reading back leaves alone. */
  ghost predicate SameButTrailing(i: Intent, j: Intent) {
    Normal(j) && j.id == i.id && j.user == i.user && j.key == i.key && j.lineage == i.lineage
  }

  lemma RestoredFields(intents: seq<Intent>)
    requires DistinctIds(intents) && forall i | i in intents :: Normal(i)
    ensures var rows := RestoredAll(intents);
      DistinctIds(rows) && Alike(intents, rows)
  {
    hide Normal;
    forall n | 0 <= n < |intents|
      ensures SameButTrailing(intents[n], Restored(intents[n]))
    {
      assert intents[n] in intents;
      RestoredIsNormal(intents[n]);
    }
  }

  ghost predicate Alike(intents: seq<Intent>, rows: seq<Intent>) {
    |rows| == |intents| && forall n | 0 <= n < |rows| :: SameButTrailing(intents[n], rows[n])
  }

  lemma CoherentAnswers(s: Shelf, k: Identity, id: string)
    requires Coherent(s)
    ensures Answers(s.intents, k, id) <==> k in s.publications && s.publications[k] == id
  {
    hide Normal; hide DistinctIds;
  }

  lemma AlikeMember(intents: seq<Intent>, rows: seq<Intent>, j: Intent) returns (i: Intent)
    requires Alike(intents, rows) && j in rows
    ensures i in intents && SameButTrailing(i, j)
  {
    hide SameButTrailing;
    var n :| 0 <= n < |rows| && rows[n] == j;
    i := intents[n];
  }

  lemma MemberAlike(intents: seq<Intent>, rows: seq<Intent>, i: Intent) returns (j: Intent)
    requires Alike(intents, rows) && i in intents
    ensures j in rows && SameButTrailing(i, j)
  {
    hide SameButTrailing;
    var n :| 0 <= n < |rows| && intents[n] == i;
    j := rows[n];
  }

  lemma AlikeAnswers(intents: seq<Intent>, rows: seq<Intent>, k: Identity, id: string)
    requires Alike(intents, rows)
    ensures Answers(rows, k, id) <==> Answers(intents, k, id)
  {
    hide Normal; hide Alike;
    if Answers(rows, k, id) {
      var j :| j in rows && IdentityOf(j) == Some(k) && j.id == id;
      var i := AlikeMember(intents, rows, j);
      assert IdentityOf(i) == Some(k);
    }
    if Answers(intents, k, id) {
      var i :| i in intents && IdentityOf(i) == Some(k) && i.id == id;
      var j := MemberAlike(intents, rows, i);
      assert IdentityOf(j) == Some(k);
    }
  }

  lemma RestoredPublications(s: Shelf, rows: seq<Intent>)
    requires Coherent(s) && Alike(s.intents, rows)
    ensures LoadedAll(rows).publications == s.publications && LoadedAll(rows).ambiguous == {}
  {
    hide Coherent; hide Alike; hide LoadedAll; hide Answers;
    var all := LoadedAll(rows);
    forall k
      ensures k !in all.ambiguous && (k in all.publications <==> k in s.publications)
      ensures k in all.publications ==> all.publications[k] == s.publications[k]
    {
      LoadedAt(rows, k);
      forall id
        ensures Answers(rows, k, id) <==> k in s.publications && s.publications[k] == id
      {
        CoherentAnswers(s, k, id);
        AlikeAnswers(s.intents, rows, k, id);
      }
      if k in s.publications { assert Answers(rows, k, s.publications[k]); }
    }
    assert all.publications == s.publications;
  }

  lemma RestoredCoherent(s: Shelf, r: Shelf)
    requires Coherent(s) && Alike(s.intents, r.intents) && DistinctIds(r.intents)
    requires r.publications == s.publications && r.ambiguous == {}
    ensures Coherent(r)
  {
    hide Alike; hide DistinctIds; hide Normal;
    forall j | j in r.intents
      ensures Normal(j)
      ensures IdentityOf(j).Some? ==>
        IdentityOf(j).value in r.publications && r.publications[IdentityOf(j).value] == j.id
    {
      var i := AlikeMember(s.intents, r.intents, j);
    }
    forall k | k in r.publications
      ensures exists j :: j in r.intents && j.id == r.publications[k] && IdentityOf(j) == Some(k)
    {
      var i :| i in s.intents && i.id == s.publications[k] && IdentityOf(i) == Some(k);
      var j := MemberAlike(s.intents, r.intents, i);
    }
  }

  /** Among rows of different keys, the map by key is theirs. */
  lemma {:induction false} LoadedKeys(rows: seq<Intent>)
    requires forall m, n | 0 <= m < n < |rows| :: KeyOf(rows[m]) != KeyOf(rows[n])
    ensures var s := LoadedAll(rows);
      && (forall i | i in rows :: KeyOf(i) in s.keys && s.keys[KeyOf(i)] == i.id)
      && (forall k | k in s.keys :: exists i :: i in rows && i.id == s.keys[k] && KeyOf(i) == k)
  {
    hide KeyOf; hide Find; hide Put;
    if rows != [] {
      var n := |rows| - 1;
      LoadedKeys(rows[..n]);
      assert rows == rows[..n] + [rows[n]];
      var s := LoadedAll(rows);
      forall k | k in s.keys
        ensures exists i :: i in rows && i.id == s.keys[k] && KeyOf(i) == k
      {
        if k == KeyOf(rows[n]) {
          assert rows[n] in rows;
        } else {
          var before := LoadedAll(rows[..n]);
          var i :| i in rows[..n] && i.id == before.keys[k] && KeyOf(i) == k;
          assert i in rows;
        }
      }
    }
  }

  lemma RestoredKeys(s: Shelf, rows: seq<Intent>)
    requires Keyed(s) && DistinctIds(s.intents) && Alike(s.intents, rows) && LoadedAll(rows).intents == rows
    ensures LoadedAll(rows).keys == s.keys && Keyed(LoadedAll(rows))
  {
    hide Normal; hide LoadedAll; hide Alike; hide KeyOf; hide DistinctIds;
    KeyedDistinct(s, rows);
    LoadedKeys(rows);
    KeysInclude(s.intents, s.keys, rows, LoadedAll(rows).keys);
    KeysIncludedBack(s.intents, s.keys, rows, LoadedAll(rows).keys);
    assert LoadedAll(rows).keys == s.keys;
  }

  lemma KeyedDistinct(s: Shelf, rows: seq<Intent>)
    requires Keyed(s) && DistinctIds(s.intents) && Alike(s.intents, rows)
    ensures forall m, n | 0 <= m < n < |rows| :: KeyOf(rows[m]) != KeyOf(rows[n])
  {
    hide Normal;
    forall n | 0 <= n < |rows|
      ensures KeyOf(rows[n]) in s.keys && s.keys[KeyOf(rows[n])] == rows[n].id == s.intents[n].id
    {
      var i, j := s.intents[n], rows[n];
      assert i in s.intents && SameButTrailing(i, j);
      assert KeyOf(i) in s.keys && s.keys[KeyOf(i)] == i.id;
      assert KeyOf(j) == KeyOf(i);
    }
  }

  lemma KeysInclude(intents: seq<Intent>, keys: map<string, string>, rows: seq<Intent>, held: map<string, string>)
    requires Alike(intents, rows)
    requires forall k | k in keys :: exists i :: i in intents && i.id == keys[k] && KeyOf(i) == k
    requires forall i | i in rows :: KeyOf(i) in held && held[KeyOf(i)] == i.id
    ensures forall k | k in keys :: k in held && held[k] == keys[k]
  {
    hide Normal; hide Alike;
    forall k | k in keys
      ensures k in held && held[k] == keys[k]
    {
      var i :| i in intents && i.id == keys[k] && KeyOf(i) == k;
      var j := MemberAlike(intents, rows, i);
      assert KeyOf(j) == k;
    }
  }

  lemma KeysIncludedBack(intents: seq<Intent>, keys: map<string, string>, rows: seq<Intent>, held: map<string, string>)
    requires Alike(intents, rows)
    requires forall k | k in held :: exists j :: j in rows && j.id == held[k] && KeyOf(j) == k
    requires forall i | i in intents :: KeyOf(i) in keys && keys[KeyOf(i)] == i.id
    ensures forall k | k in held :: k in keys && keys[k] == held[k]
  {
    hide Normal; hide Alike;
    forall k | k in held
      ensures k in keys && keys[k] == held[k]
    {
      var j :| j in rows && j.id == held[k] && KeyOf(j) == k;
      var i := AlikeMember(intents, rows, j);
      assert KeyOf(i) == k;
    }
  }
}
