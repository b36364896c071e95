/** `list.sort(key=..., reverse=True)`: descending and stable, so equal keys keep their order. */
module StableSort {

  /** A sort key: a time, or minus infinity. */
  datatype Rank = Bottom | At(time: real)

  predicate AtLeast(a: Rank, b: Rank) {
    b.Bottom? || (a.At? && a.time >= b.time)
  }

  datatype Keyed<T> = Keyed(rank: Rank, item: T)

  function Items<T>(s: seq<Keyed<T>>): (r: seq<T>)
    ensures |r| == |s|
  {
    seq(|s|, i requires 0 <= i < |s| => s[i].item)
  }

  function Insert<T>(x: Keyed<T>, s: seq<Keyed<T>>): seq<Keyed<T>> {
    if s == [] || AtLeast(x.rank, s[0].rank) then [x] + s else [s[0]] + Insert(x, s[1..])
  }

  function SortDescending<T>(xs: seq<Keyed<T>>): seq<Keyed<T>> {
    if xs == [] then [] else Insert(xs[0], SortDescending(xs[1..]))
  }

  ghost predicate Descending<T>(s: seq<Keyed<T>>) {
    forall i, j | 0 <= i < j < |s| :: AtLeast(s[i].rank, s[j].rank)
  }

  /** The elements with one key, in order. */
  ghost function OfRank<T>(xs: seq<Keyed<T>>, r: Rank): seq<Keyed<T>> {
    if xs == [] then [] else (if xs[0].rank == r then [xs[0]] else []) + OfRank(xs[1..], r)
  }

  /** s is xs put in descending order with equal keys left as they stood. */
  ghost predicate StablySorts<T(!new)>(xs: seq<Keyed<T>>, s: seq<Keyed<T>>) {
    Descending(s) && forall r :: OfRank(s, r) == OfRank(xs, r)
  }

  lemma {:induction false} InsertKeepsElements<T>(x: Keyed<T>, s: seq<Keyed<T>>)
    ensures multiset(Insert(x, s)) == multiset{x} + multiset(s)
    ensures forall y | y in Insert(x, s) :: y == x || y in s
  {
    if s != [] && !AtLeast(x.rank, s[0].rank) {
      InsertKeepsElements(x, s[1..]);
      assert s == [s[0]] + s[1..];
    }
  }

  lemma {:induction false} InsertDescends<T>(x: Keyed<T>, s: seq<Keyed<T>>)
    requires Descending(s)
    ensures Descending(Insert(x, s))
  {
    if s != [] && !AtLeast(x.rank, s[0].rank) {
      InsertDescends(x, s[1..]);
      InsertKeepsElements(x, s[1..]);
      var rest := Insert(x, s[1..]);
      forall j | 0 <= j < |rest|
        ensures AtLeast(s[0].rank, rest[j].rank)
      {
        assert rest[j] in rest;
      }
    } else {
      var r := [x] + s;
      forall i, j | 0 <= i < j < |r|
        ensures AtLeast(r[i].rank, r[j].rank)
      {
        assert r[j] == s[j - 1];
        assert i > 0 ==> r[i] == s[i - 1];
        assert j > 1 ==> AtLeast(s[0].rank, s[j - 1].rank);
      }
    }
  }

  lemma OfRankOfCons<T>(x: Keyed<T>, s: seq<Keyed<T>>, r: Rank)
    ensures OfRank([x] + s, r) == (if x.rank == r then [x] else []) + OfRank(s, r)
  {
    assert ([x] + s)[1..] == s;
  }

  lemma {:induction false} InsertIsStable<T>(x: Keyed<T>, s: seq<Keyed<T>>, r: Rank)
    ensures OfRank(Insert(x, s), r) == (if x.rank == r then [x] else []) + OfRank(s, r)
  {
    if s != [] && !AtLeast(x.rank, s[0].rank) {
      var rest := Insert(x, s[1..]);
      InsertIsStable(x, s[1..], r);
      OfRankOfCons(s[0], rest, r);
      OfRankOfCons(s[0], s[1..], r);
      assert s == [s[0]] + s[1..];
      assert x.rank == r ==> s[0].rank != r;
    } else {
      OfRankOfCons(x, s, r);
    }
  }

  /** The sort is stable, descending, and keeps every element. */
  lemma {:induction false} SortIsStable<T(!new)>(xs: seq<Keyed<T>>)
    ensures StablySorts(xs, SortDescending(xs))
    ensures multiset(SortDescending(xs)) == multiset(xs)
  {
    if xs != [] {
      SortIsStable(xs[1..]);
      var s := SortDescending(xs[1..]);
      InsertKeepsElements(xs[0], s);
      InsertDescends(xs[0], s);
      forall r
        ensures OfRank(SortDescending(xs), r) == OfRank(xs, r)
      {
        InsertIsStable(xs[0], s, r);
      }
      assert xs == [xs[0]] + xs[1..];
    }
  }

  lemma {:induction false} InRank<T>(xs: seq<Keyed<T>>, x: Keyed<T>, r: Rank)
    ensures x in OfRank(xs, r) <==> x in xs && x.rank == r
  {
    if xs != [] { InRank(xs[1..], x, r); }
  }

  /** There is only one such arrangement: any stable descending sort is SortDescending. */
  lemma {:induction false} StableSortIsUnique<T(!new)>(xs: seq<Keyed<T>>, s: seq<Keyed<T>>, t: seq<Keyed<T>>)
    requires StablySorts(xs, s) && StablySorts(xs, t)
    ensures s == t
    decreases |s|
  {
    if s == [] {
      if t != [] {
        InRank(t, t[0], t[0].rank);
        assert false;
      }
    } else {
      var r := s[0].rank;
      InRank(s, s[0], r);
      assert OfRank(s, r) == OfRank(t, r);
      InRank(t, s[0], r);
      InRank(t, t[0], t[0].rank);
      assert OfRank(s, t[0].rank) == OfRank(t, t[0].rank);
      InRank(s, t[0], t[0].rank);
      assert t[0].rank == r;
      assert OfRank(s, r)[0] == s[0] && OfRank(t, r)[0] == t[0];
      forall q
        ensures OfRank(s[1..], q) == OfRank(t[1..], q)
      {
        assert OfRank(s, q) == OfRank(t, q);
        var head := if r == q then [s[0]] else [];
        assert OfRank(s, q) == head + OfRank(s[1..], q);
        assert OfRank(t, q) == head + OfRank(t[1..], q);
        assert OfRank(s[1..], q) == (head + OfRank(s[1..], q))[|head|..];
      }
      StableSortIsUnique(s[1..], s[1..], t[1..]);
    }
  }

  /** How many elements a descending stable sort puts ahead of the k-th: those that rank above it, and those of its
      own rank that stand before it. */
  function Ahead<T>(xs: seq<Keyed<T>>, k: nat): nat
    requires k < |xs|
  {
    if k == 0 then Above(xs[1..], xs[0].rank)
    else (if AtLeast(xs[0].rank, xs[k].rank) then 1 else 0) + Ahead(xs[1..], k - 1)
  }

  /** How many elements rank strictly above r. */
  function Above<T>(xs: seq<Keyed<T>>, r: Rank): nat {
    if xs == [] then 0 else (if AtLeast(r, xs[0].rank) then 0 else 1) + Above(xs[1..], r)
  }

  lemma {:induction false} AboveInsert<T>(x: Keyed<T>, s: seq<Keyed<T>>, r: Rank)
    ensures Above(Insert(x, s), r) == (if AtLeast(r, x.rank) then 0 else 1) + Above(s, r)
  {
    if s != [] && !AtLeast(x.rank, s[0].rank) {
      AboveInsert(x, s[1..], r);
      assert Insert(x, s)[1..] == Insert(x, s[1..]);
    } else {
      assert ([x] + s)[1..] == s;
    }
  }

  lemma {:induction false} AboveSort<T>(xs: seq<Keyed<T>>, r: Rank)
    ensures Above(SortDescending(xs), r) == Above(xs, r)
  {
    if xs != [] {
      AboveSort(xs[1..], r);
      AboveInsert(xs[0], SortDescending(xs[1..]), r);
    }
  }

  /** Insertion puts x after exactly the elements that rank above it. */
  lemma {:induction false} InsertPlaces<T>(x: Keyed<T>, s: seq<Keyed<T>>)
    requires Descending(s)
    ensures var q := Above(s, x.rank); q <= |s| && Insert(x, s) == s[..q] + [x] + s[q..]
    ensures forall p | 0 <= p < |s| :: AtLeast(x.rank, s[p].rank) <==> Above(s, x.rank) <= p
  {
    if s != [] && !AtLeast(x.rank, s[0].rank) {
      InsertPlaces(x, s[1..]);
      forall p | 0 <= p < |s|
        ensures AtLeast(x.rank, s[p].rank) <==> Above(s, x.rank) <= p
      {
        if p > 0 { assert s[1..][p - 1] == s[p]; }
      }
    } else if s != [] {
      forall p | 0 <= p < |s|
        ensures AtLeast(x.rank, s[p].rank)
      {
        if p > 0 { assert AtLeast(s[0].rank, s[p].rank); }
      }
      NoneAbove(s, x.rank);
    }
  }

  lemma {:induction false} NoneAbove<T>(s: seq<Keyed<T>>, r: Rank)
    requires forall p | 0 <= p < |s| :: AtLeast(r, s[p].rank)
    ensures Above(s, r) == 0
  {
    if s != [] {
      assert AtLeast(r, s[0].rank);
      NoneAbove(s[1..], r);
    }
  }

  /** Position of the first element satisfying p, |s| if there is none. */
  function FirstAt<T>(s: seq<Keyed<T>>, p: T -> bool): (i: nat)
    ensures i <= |s|
    ensures i < |s| ==> p(s[i].item)
    ensures forall j | 0 <= j < i :: !p(s[j].item)
  {
    if s == [] || p(s[0].item) then 0 else 1 + FirstAt(s[1..], p)
  }

  /** k is the earliest of the highest-ranked elements satisfying p. */
  ghost predicate Leads<T>(xs: seq<Keyed<T>>, p: T -> bool, k: nat) {
    && k < |xs| && p(xs[k].item)
    && forall j | 0 <= j < |xs| && p(xs[j].item) ::
         AtLeast(xs[k].rank, xs[j].rank) && (AtLeast(xs[j].rank, xs[k].rank) ==> k <= j)
  }

  /** Putting an element in at q moves the first element satisfying p down one place, unless q is behind it or the
      new element satisfies p itself. */
  lemma {:induction false} FirstAfterInsert<T>(x: Keyed<T>, s: seq<Keyed<T>>, q: nat, p: T -> bool)
    requires q <= |s|
    ensures FirstAt(s[..q] + [x] + s[q..], p)
            == if FirstAt(s, p) < q then FirstAt(s, p) else if p(x.item) then q else FirstAt(s, p) + 1
    decreases q
  {
    var r := s[..q] + [x] + s[q..];
    if q == 0 {
      assert r[1..] == s;
    } else {
      assert r[1..] == s[1..][..q - 1] + [x] + s[1..][q - 1..];
      FirstAfterInsert(x, s[1..], q - 1, p);
    }
  }

  /** In the sorted order, the first element satisfying p is the leading one, and it stands at its number of
      predecessors. */
  lemma {:induction false} LeaderComesFirst<T(!new)>(xs: seq<Keyed<T>>, p: T -> bool, k: nat)
    requires Leads(xs, p, k)
    ensures Ahead(xs, k) < |SortDescending(xs)|
    ensures FirstAt(SortDescending(xs), p) == Ahead(xs, k) && SortDescending(xs)[Ahead(xs, k)] == xs[k]
  {
    var t := xs[1..];
    HeadIsInserted(xs);
    if k == 0 {
      FirstAfterInsert(xs[0], SortDescending(t), Above(t, xs[0].rank), p);
      HeadLeads(xs, SortDescending(t), p);
    } else {
      LeadsTail(xs, p, k);
      LeaderComesFirst(t, p, k - 1);
      LeaderMoves(xs, p, k);
    }
  }

  /** Putting the head in moves the leading element of the tail down one place, unless the head goes behind it. */
  lemma LeaderMoves<T(!new)>(xs: seq<Keyed<T>>, p: T -> bool, k: nat)
    requires Leads(xs, p, k) && k > 0
    requires var s := SortDescending(xs[1..]);
      Ahead(xs[1..], k - 1) < |s| && FirstAt(s, p) == Ahead(xs[1..], k - 1) && s[Ahead(xs[1..], k - 1)] == xs[k]
    ensures Ahead(xs, k) < |SortDescending(xs)|
    ensures FirstAt(SortDescending(xs), p) == Ahead(xs, k) && SortDescending(xs)[Ahead(xs, k)] == xs[k]
  {
    var x, s, q, a := xs[0], SortDescending(xs[1..]), Above(xs[1..], xs[0].rank), Ahead(xs[1..], k - 1);
    HeadIsInserted(xs);
    assert AtLeast(x.rank, xs[k].rank) <==> q <= a;
    assert AtLeast(x.rank, xs[k].rank) ==> !p(x.item);
    assert Ahead(xs, k) == if q <= a then 1 + a else a;
    hide SortDescending; hide Above; hide Leads; hide FirstAt; hide Ahead; hide AtLeast;
    FirstAfterInsert(x, s, q, p);
    Shifted(x, s, q, a);
  }

  lemma Shifted<T>(x: T, s: seq<T>, q: nat, a: nat)
    requires q <= |s| && a < |s|
    ensures var r := s[..q] + [x] + s[q..]; |r| == |s| + 1 && r[if q <= a then 1 + a else a] == s[a]
  {
  }

  lemma HeadIsInserted<T(!new)>(xs: seq<Keyed<T>>)
    requires xs != []
    ensures var s, q := SortDescending(xs[1..]), Above(xs[1..], xs[0].rank);
      && multiset(s) == multiset(xs[1..])
      && q == Above(s, xs[0].rank) && q <= |s|
      && SortDescending(xs) == s[..q] + [xs[0]] + s[q..]
      && forall j | 0 <= j < |s| :: AtLeast(xs[0].rank, s[j].rank) <==> q <= j
  {
    SortIsStable(xs[1..]);
    InsertPlaces(xs[0], SortDescending(xs[1..]));
    AboveSort(xs[1..], xs[0].rank);
  }

  /** When the head leads, nothing that satisfies p ranks above it. */
  lemma HeadLeads<T>(xs: seq<Keyed<T>>, s: seq<Keyed<T>>, p: T -> bool)
    requires Leads(xs, p, 0) && multiset(s) == multiset(xs[1..]) && Above(s, xs[0].rank) <= |s|
    requires forall j | 0 <= j < |s| :: AtLeast(xs[0].rank, s[j].rank) <==> Above(s, xs[0].rank) <= j
    ensures FirstAt(s, p) >= Above(s, xs[0].rank)
  {
    var f := FirstAt(s, p);
    if f < |s| {
      assert s[f] in multiset(s);
      var m :| 0 <= m < |xs[1..]| && xs[1..][m] == s[f];
      assert xs[m + 1] == s[f];
    }
  }

  lemma LeadsTail<T>(xs: seq<Keyed<T>>, p: T -> bool, k: nat)
    requires Leads(xs, p, k) && k > 0
    ensures Leads(xs[1..], p, k - 1)
  {
    forall j | 0 <= j < |xs| - 1 && p(xs[1..][j].item)
      ensures AtLeast(xs[1..][k - 1].rank, xs[1..][j].rank)
      ensures AtLeast(xs[1..][j].rank, xs[1..][k - 1].rank) ==> k - 1 <= j
    {
      assert xs[1..][j] == xs[j + 1];
    }
  }

  lemma {:induction false} InsertItems<T>(x: Keyed<T>, s: seq<Keyed<T>>)
    ensures multiset(Items(Insert(x, s))) == multiset{x.item} + multiset(Items(s))
  {
    if s != [] && !AtLeast(x.rank, s[0].rank) {
      InsertItems(x, s[1..]);
      assert Items(s) == [s[0].item] + Items(s[1..]);
      assert Items(Insert(x, s)) == [s[0].item] + Items(Insert(x, s[1..]));
    } else {
      assert Items([x] + s) == [x.item] + Items(s);
    }
  }

  /** Sorting keeps the items. */
  lemma {:induction false} SortItems<T>(xs: seq<Keyed<T>>)
    ensures multiset(Items(SortDescending(xs))) == multiset(Items(xs))
  {
    if xs != [] {
      SortItems(xs[1..]);
      InsertItems(xs[0], SortDescending(xs[1..]));
      assert Items(xs) == [xs[0].item] + Items(xs[1..]);
    }
  }
}
