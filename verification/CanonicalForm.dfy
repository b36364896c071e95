/** Canonical forms of nested values: dictionaries become tuples of their entries sorted by key. */
module CanonicalForm {
  import opened Values

  datatype Scalar = NullS | BoolS(b: bool) | NumS(r: real) | StrS(s: string)

  /** A value as Python holds it in memory: a dictionary remembers the order its keys were inserted in. */
  datatype Tree = Leaf(value: Scalar) | Dict(entries: seq<Entry>) | List(items: seq<Tree>)

  datatype Entry = Entry(key: string, value: Tree)

  /** The canonical form: tuples all the way down. */
  datatype Canon = Atom(value: Scalar) | Tuple(parts: seq<Canon>)

  /** Dictionaries have no repeated key, at any depth. */
  ghost predicate WellFormed(t: Tree) {
    match t
    case Leaf(_) => true
    case Dict(es) =>
      && (forall i, j | 0 <= i < j < |es| :: es[i].key != es[j].key)
      && (forall i | 0 <= i < |es| :: WellFormed(es[i].value))
    case List(items) => forall i | 0 <= i < |items| :: WellFormed(items[i])
  }

  /** A list of lists [key, value] whose keys are texts in increasing order; the empty list is one. */
  predicate PairList(items: seq<Tree>) {
    && (forall i | 0 <= i < |items| ::
          items[i].List? && |items[i].items| == 2 && items[i].items[0].Leaf? && items[i].items[0].value.StrS?)
    && (forall i, j | 0 <= i < j < |items| :: Before(items[i].items[0].value.s, items[j].items[0].value.s))
  }

  /** No list, at any depth, is a list of pairs in key order. */
  ghost predicate Unmistakable(t: Tree) {
    match t
    case Leaf(_) => true
    case Dict(es) => forall i | 0 <= i < |es| :: Unmistakable(es[i].value)
    case List(items) => !PairList(items) && forall i | 0 <= i < |items| :: Unmistakable(items[i])
  }

  /** The entries a list of pairs spells. */
  function Spelled(items: seq<Tree>): (es: seq<Entry>)
    requires PairList(items)
    ensures |es| == |items|
  {
    seq(|items|, i requires 0 <= i < |items| => Entry(items[i].items[0].value.s, items[i].items[1]))
  }

  /** The value with every list of pairs in key order, at any depth, taken for the dictionary it spells. */
  function Reading(t: Tree): Tree
    decreases t
  {
    match t
    case Leaf(_) => t
    case Dict(es) => Dict(seq(|es|, i requires 0 <= i < |es| => Entry(es[i].key, Reading(es[i].value))))
    case List(items) =>
      if PairList(items) then
        Dict(seq(|items|, i requires 0 <= i < |items| =>
               Entry(items[i].items[0].value.s, Reading(items[i].items[1]))))
      else List(seq(|items|, i requires 0 <= i < |items| => Reading(items[i])))
  }

  function ScalarJson(v: Scalar): Json {
    match v
    case NullS => Null
    case BoolS(b) => Bool(b)
    case NumS(r) => Num(r)
    case StrS(s) => Str(s)
  }

  /** The value a tree stands for: insertion order forgotten at every depth. */
  ghost function Meaning(t: Tree): Json
    decreases t
  {
    match t
    case Leaf(v) => ScalarJson(v)
    case Dict(es) => Obj(MeaningOf(es))
    case List(items) => Arr(seq(|items|, i requires 0 <= i < |items| => Meaning(items[i])))
  }

  ghost function MeaningOf(es: seq<Entry>): map<string, Json>
    decreases es
  {
    if es == [] then map[]
    else
      var last := es[|es| - 1];
      MeaningOf(es[..|es| - 1])[last.key := Meaning(last.value)]
  }

  /** Python's order on strings. */
  predicate Before(a: string, b: string) {
    b != "" && (a == "" || a[0] < b[0] || (a[0] == b[0] && Before(a[1..], b[1..])))
  }

  lemma {:induction false} BeforeIsTotal(a: string, b: string)
    ensures a == b || Before(a, b) || Before(b, a)
    ensures !(Before(a, b) && Before(b, a)) && !Before(a, a)
  {
    if a != "" && b != "" && a[0] == b[0] {
      BeforeIsTotal(a[1..], b[1..]);
      assert a == [a[0]] + a[1..] && b == [b[0]] + b[1..];
    }
    BeforeIrreflexive(a);
  }

  lemma {:induction false} BeforeIrreflexive(a: string)
    ensures !Before(a, a)
  {
    if a != "" { BeforeIrreflexive(a[1..]); }
  }

  lemma {:induction false} BeforeIsTransitive(a: string, b: string, c: string)
    requires Before(a, b) && Before(b, c)
    ensures Before(a, c)
  {
    if a != "" && a[0] == b[0] && b[0] == c[0] { BeforeIsTransitive(a[1..], b[1..], c[1..]); }
  }

  datatype Part = Part(key: string, form: Canon)

  function InsertPart(p: Part, ps: seq<Part>): seq<Part> {
    if ps == [] || Before(p.key, ps[0].key) then [p] + ps else [ps[0]] + InsertPart(p, ps[1..])
  }

  /** `sorted` on (key, form) pairs whose keys are distinct. */
  function SortParts(ps: seq<Part>): seq<Part> {
    if ps == [] then [] else InsertPart(ps[0], SortParts(ps[1..]))
  }

  function PairOf(p: Part): Canon {
    Tuple([Atom(StrS(p.key)), p.form])
  }

  function Parts(es: seq<Entry>): (ps: seq<Part>)
    ensures |ps| == |es|
    decreases es, 0
  {
    seq(|es|, i requires 0 <= i < |es| => Part(es[i].key, Canonical(es[i].value)))
  }

  /** `_canonicalize_value` */
  function Canonical(t: Tree): Canon
    decreases t
  {
    match t
    case Leaf(v) => Atom(v)
    case Dict(es) =>
      var ps := SortParts(Parts(es));
      Tuple(seq(|ps|, i requires 0 <= i < |ps| => PairOf(ps[i])))
    case List(items) => Tuple(seq(|items|, i requires 0 <= i < |items| => Canonical(items[i])))
  }

  ghost predicate Increasing(ps: seq<Part>) {
    forall i, j | 0 <= i < j < |ps| :: Before(ps[i].key, ps[j].key)
  }

  ghost predicate DistinctKeys(ps: seq<Part>) {
    forall i, j | 0 <= i < j < |ps| :: ps[i].key != ps[j].key
  }

  lemma {:induction false} InsertMembers(p: Part, ps: seq<Part>)
    ensures forall q :: q in InsertPart(p, ps) <==> q == p || q in ps
  {
    if ps != [] && !Before(p.key, ps[0].key) {
      InsertMembers(p, ps[1..]);
      assert ps == [ps[0]] + ps[1..];
    }
  }

  lemma {:induction false} InsertIncreases(p: Part, ps: seq<Part>)
    requires Increasing(ps) && forall q | q in ps :: q.key != p.key
    ensures Increasing(InsertPart(p, ps))
  {
    if ps == [] {
    } else if Before(p.key, ps[0].key) {
      var r := [p] + ps;
      forall i, j | 0 <= i < j < |r|
        ensures Before(r[i].key, r[j].key)
      {
        if i == 0 && j > 1 { BeforeIsTransitive(p.key, ps[0].key, ps[j - 1].key); }
      }
    } else {
      var rest := InsertPart(p, ps[1..]);
      InsertIncreases(p, ps[1..]);
      InsertMembers(p, ps[1..]);
      BeforeIsTotal(p.key, ps[0].key);
      assert ps[0] in ps;
      var r := [ps[0]] + rest;
      forall i, j | 0 <= i < j < |r|
        ensures Before(r[i].key, r[j].key)
      {
        if i == 0 {
          assert r[j] in rest;
          if r[j] != p { var n :| 0 <= n < |ps[1..]| && ps[1..][n] == r[j]; assert r[j] == ps[n + 1]; }
        }
      }
    }
  }

  lemma {:induction false} SortSorts(ps: seq<Part>)
    requires DistinctKeys(ps)
    ensures Increasing(SortParts(ps)) && forall q :: q in SortParts(ps) <==> q in ps
  {
    if ps != [] {
      SortSorts(ps[1..]);
      assert ps == [ps[0]] + ps[1..];
      InsertMembers(ps[0], SortParts(ps[1..]));
      forall q | q in SortParts(ps[1..])
        ensures q.key != ps[0].key
      {
        var n :| 0 <= n < |ps[1..]| && ps[1..][n] == q;
        assert ps[n + 1] == q;
      }
      InsertIncreases(ps[0], SortParts(ps[1..]));
    }
  }

  lemma First(ps: seq<Part>) returns (p: Part)
    requires |ps| > 0
    ensures p in ps
  {
    p := ps[0];
  }

  /** An increasing sequence is determined by its members. */
  lemma {:induction false} IncreasingIsUnique(ps: seq<Part>, qs: seq<Part>)
    requires Increasing(ps) && Increasing(qs) && forall p :: p in ps <==> p in qs
    ensures ps == qs
  {
    if ps == [] {
      if |qs| > 0 { var q := First(qs); }
    } else {
      assert ps[0] in ps;
      assert qs != [];
      assert qs[0] in qs;
      if ps[0] != qs[0] {
        var m :| 0 <= m < |qs| && qs[m] == ps[0];
        var n :| 0 <= n < |ps| && ps[n] == qs[0];
        BeforeIsTotal(ps[0].key, qs[0].key);
        assert false;
      }
      forall p
        ensures p in ps[1..] <==> p in qs[1..]
      {
        TailMembers(ps, p);
        TailMembers(qs, p);
      }
      IncreasingIsUnique(ps[1..], qs[1..]);
    }
  }

  lemma TailMembers(ps: seq<Part>, p: Part)
    requires ps != [] && Increasing(ps)
    ensures p in ps[1..] <==> p in ps && p != ps[0]
  {
    BeforeIrreflexive(ps[0].key);
    if p in ps && p != ps[0] {
      var n :| 0 <= n < |ps| && ps[n] == p;
      assert ps[1..][n - 1] == p;
    }
  }

  /** Two lists of distinct-keyed parts sort to the same list exactly when they have the same members. */
  lemma SortsAlike(ps: seq<Part>, qs: seq<Part>)
    requires DistinctKeys(ps) && DistinctKeys(qs)
    ensures SortParts(ps) == SortParts(qs) <==> forall p :: p in ps <==> p in qs
  {
    SortSorts(ps);
    SortSorts(qs);
    if forall p :: p in ps <==> p in qs {
      IncreasingIsUnique(SortParts(ps), SortParts(qs));
    }
  }

  lemma TuplesOfParts(ps: seq<Part>, qs: seq<Part>)
    ensures seq(|ps|, i requires 0 <= i < |ps| => PairOf(ps[i])) == seq(|qs|, i requires 0 <= i < |qs| => PairOf(qs[i]))
            <==> ps == qs
  {
    var s := seq(|ps|, i requires 0 <= i < |ps| => PairOf(ps[i]));
    var t := seq(|qs|, i requires 0 <= i < |qs| => PairOf(qs[i]));
    if s == t {
      assert |ps| == |s| == |t| == |qs|;
      forall i | 0 <= i < |ps|
        ensures ps[i] == qs[i]
      {
        assert s[i] == PairOf(ps[i]) && t[i] == PairOf(qs[i]);
        assert PairOf(ps[i]).parts[0] == PairOf(qs[i]).parts[0];
        assert PairOf(ps[i]).parts[1] == PairOf(qs[i]).parts[1];
      }
    }
  }

  /** Some entry of es has this key and a value with this canonical form, and so does some entry of fs. */
  ghost predicate SameForms(es: seq<Entry>, fs: seq<Entry>) {
    forall p :: p in Parts(es) <==> p in Parts(fs)
  }

  lemma DictFormsAlike(es: seq<Entry>, fs: seq<Entry>)
    requires WellFormed(Dict(es)) && WellFormed(Dict(fs))
    ensures Canonical(Dict(es)) == Canonical(Dict(fs)) <==> SameForms(es, fs)
  {
    hide SortParts; hide PairOf;
    SortsAlike(Parts(es), Parts(fs));
    TuplesOfParts(SortParts(Parts(es)), SortParts(Parts(fs)));
  }

  /** The entry with a key, in a dictionary without repeated keys. */
  lemma {:induction false} MeaningAt(es: seq<Entry>, i: nat)
    requires i < |es| && forall m, n | 0 <= m < n < |es| :: es[m].key != es[n].key
    ensures es[i].key in MeaningOf(es) && MeaningOf(es)[es[i].key] == Meaning(es[i].value)
  {
    hide Meaning;
    if i < |es| - 1 { MeaningAt(es[..|es| - 1], i); }
  }

  lemma {:induction false} MeaningKeys(es: seq<Entry>, k: string)
    ensures k in MeaningOf(es) <==> exists i :: 0 <= i < |es| && es[i].key == k
  {
    hide Meaning;
    if es != [] {
      MeaningKeys(es[..|es| - 1], k);
      if i :| 0 <= i < |es| && es[i].key == k {
        assert i < |es| - 1 ==> es[..|es| - 1][i].key == k;
      }
    }
  }

  lemma MatchingEntry(es: seq<Entry>, fs: seq<Entry>, i: nat) returns (j: nat)
    requires SameForms(es, fs) && i < |es|
    ensures j < |fs| && fs[j].key == es[i].key && Canonical(fs[j].value) == Canonical(es[i].value)
  {
    assert Parts(es)[i] in Parts(fs);
    j :| 0 <= j < |fs| && Parts(fs)[j] == Parts(es)[i];
  }

  /** Values that mean the same have the same canonical form, whatever the order their keys were inserted in. */
  lemma {:induction false} SameMeaningSameForm(v: Tree, w: Tree)
    requires WellFormed(v) && WellFormed(w) && Meaning(v) == Meaning(w)
    ensures Canonical(v) == Canonical(w)
    decreases v
  {
    match (v, w)
    case (Leaf(_), Leaf(_)) =>
    case (List(vs), List(ws)) =>
      assert |vs| == |Meaning(v).items| == |ws|;
      forall i | 0 <= i < |vs|
        ensures Canonical(vs[i]) == Canonical(ws[i])
      {
        assert Meaning(v).items[i] == Meaning(w).items[i];
        SameMeaningSameForm(vs[i], ws[i]);
      }
      assert Canonical(v).parts == Canonical(w).parts;
    case (Dict(es), Dict(fs)) =>
      forall i | 0 <= i < |es|
        ensures Parts(es)[i] in Parts(fs)
      {
        MeaningAt(es, i);
        MeaningKeys(fs, es[i].key);
        var j :| 0 <= j < |fs| && fs[j].key == es[i].key;
        MeaningAt(fs, j);
        SameMeaningSameForm(es[i].value, fs[j].value);
        assert Parts(fs)[j] == Parts(es)[i];
      }
      forall j | 0 <= j < |fs|
        ensures Parts(fs)[j] in Parts(es)
      {
        MeaningAt(fs, j);
        MeaningKeys(es, fs[j].key);
        var i :| 0 <= i < |es| && es[i].key == fs[j].key;
        MeaningAt(es, i);
        SameMeaningSameForm(es[i].value, fs[j].value);
        assert Parts(es)[i] == Parts(fs)[j];
      }
      DictFormsAlike(es, fs);
    case _ =>
  }

  /** The parts of a dictionary's form are pairs with increasing keys, so a list of that form is a list of pairs. */
  lemma DictFormIsPairList(es: seq<Entry>, items: seq<Tree>)
    requires WellFormed(Dict(es)) && Canonical(Dict(es)) == Canonical(List(items))
    ensures PairList(items)
  {
    var ps := SortParts(Parts(es));
    SortSorts(Parts(es));
    var parts := seq(|ps|, i requires 0 <= i < |ps| => PairOf(ps[i]));
    assert Canonical(Dict(es)) == Tuple(parts);
    assert Canonical(List(items)) == Tuple(seq(|items|, i requires 0 <= i < |items| => Canonical(items[i])));
    assert |items| == |Canonical(List(items)).parts| == |ps|;
    forall i | 0 <= i < |items|
      ensures items[i].List? && |items[i].items| == 2 && items[i].items[0] == Leaf(StrS(ps[i].key))
    {
      assert Canonical(List(items)).parts[i] == Canonical(items[i]) && parts[i] == PairOf(ps[i]);
      PairFormIsPair(items[i], ps[i]);
    }
  }

  lemma PairFormIsPair(t: Tree, p: Part)
    requires Canonical(t) == PairOf(p)
    ensures t.List? && |t.items| == 2 && t.items[0] == Leaf(StrS(p.key))
  {
    assert Canonical(t).parts[0] == Atom(StrS(p.key));
    match t
    case Leaf(_) =>
    case Dict(_) =>
    case List(xs) =>
      assert Canonical(xs[0]) == Atom(StrS(p.key));
  }

  /** A list of pairs in key order has the form of the dictionary it spells. */
  lemma PairListForm(items: seq<Tree>)
    requires PairList(items)
    ensures WellFormed(List(items)) ==> WellFormed(Dict(Spelled(items)))
    ensures Canonical(Dict(Spelled(items))) == Canonical(List(items))
  {
    var es := Spelled(items);
    forall i, j | 0 <= i < j < |es|
      ensures es[i].key != es[j].key
    {
      BeforeIrreflexive(es[i].key);
    }
    if WellFormed(List(items)) {
      forall i | 0 <= i < |es|
        ensures WellFormed(es[i].value)
      {
        assert WellFormed(items[i]);
      }
    }
    SortedAlready(Parts(es));
    forall i | 0 <= i < |items|
      ensures Canonical(items[i]) == PairOf(Parts(es)[i])
    {
      assert Canonical(items[i]).parts == PairOf(Parts(es)[i]).parts;
    }
    assert Canonical(Dict(es)).parts == Canonical(List(items)).parts;
  }

  lemma SortedAlready(ps: seq<Part>)
    requires Increasing(ps)
    ensures SortParts(ps) == ps
  {
    forall i, j | 0 <= i < j < |ps|
      ensures ps[i].key != ps[j].key
    {
      BeforeIrreflexive(ps[i].key);
    }
    SortSorts(ps);
    IncreasingIsUnique(SortParts(ps), ps);
  }

  /** A list has the canonical form of some dictionary exactly when it is a list of pairs in key order. */
  lemma ListsPassForDictionariesExactly(items: seq<Tree>)
    requires WellFormed(List(items))
    ensures (exists es :: WellFormed(Dict(es)) && Canonical(Dict(es)) == Canonical(List(items))) <==> PairList(items)
  {
    if PairList(items) {
      PairListForm(items);
    } else {
      forall es | WellFormed(Dict(es))
        ensures Canonical(Dict(es)) != Canonical(List(items))
      {
        if Canonical(Dict(es)) == Canonical(List(items)) { DictFormIsPairList(es, items); }
      }
    }
  }

  lemma {:induction false} SameFormSameMeaning(v: Tree, w: Tree)
    requires WellFormed(v) && WellFormed(w) && Unmistakable(v) && Unmistakable(w) && Canonical(v) == Canonical(w)
    ensures Meaning(v) == Meaning(w)
    decreases v
  {
    match (v, w)
    case (Leaf(_), Leaf(_)) =>
    case (Dict(es), Dict(fs)) => SameDictForm(es, fs);
    case (List(vs), List(ws)) => SameListForm(vs, ws);
    case (Dict(es), List(ws)) => DictFormIsPairList(es, ws);
    case (List(vs), Dict(fs)) => DictFormIsPairList(fs, vs);
    case _ =>
  }

  lemma {:induction false} SameListForm(vs: seq<Tree>, ws: seq<Tree>)
    requires WellFormed(List(vs)) && WellFormed(List(ws)) && Unmistakable(List(vs)) && Unmistakable(List(ws))
    requires Canonical(List(vs)) == Canonical(List(ws))
    ensures Meaning(List(vs)) == Meaning(List(ws))
    decreases vs
  {
    assert |vs| == |Canonical(List(vs)).parts| == |ws|;
    forall i | 0 <= i < |vs|
      ensures Meaning(vs[i]) == Meaning(ws[i])
    {
      assert Canonical(List(vs)).parts[i] == Canonical(List(ws)).parts[i];
      SameFormSameMeaning(vs[i], ws[i]);
    }
    assert Meaning(List(vs)).items == Meaning(List(ws)).items;
  }

  lemma {:induction false} SameDictForm(es: seq<Entry>, fs: seq<Entry>)
    requires WellFormed(Dict(es)) && WellFormed(Dict(fs)) && Unmistakable(Dict(es)) && Unmistakable(Dict(fs))
    requires Canonical(Dict(es)) == Canonical(Dict(fs))
    ensures Meaning(Dict(es)) == Meaning(Dict(fs))
    decreases es
  {
    DictFormsAlike(es, fs);
    var m, n := MeaningOf(es), MeaningOf(fs);
    forall k
      ensures k in m ==> k in n && m[k] == n[k]
      ensures k in n ==> k in m
    {
      MeaningKeys(es, k);
      MeaningKeys(fs, k);
      if k in m {
        var i :| 0 <= i < |es| && es[i].key == k;
        var j := MatchingEntry(es, fs, i);
        SameFormSameMeaning(es[i].value, fs[j].value);
        MeaningAt(es, i);
        MeaningAt(fs, j);
      }
      if k in n {
        var j :| 0 <= j < |fs| && fs[j].key == k;
        var i := MatchingEntry(fs, es, j);
      }
    }
    assert m == n;
  }

  /** A reading has the form of what it was read from, and nothing in it can be mistaken any more. */
  lemma {:induction false} ReadingKeepsForm(t: Tree)
    requires WellFormed(t)
    ensures WellFormed(Reading(t)) && Unmistakable(Reading(t)) && Canonical(Reading(t)) == Canonical(t)
    decreases t
  {
    match t
    case Leaf(_) =>
    case Dict(es) =>
      forall i | 0 <= i < |es| { ReadingKeepsForm(es[i].value); }
      ReadDict(es, Reading(t).entries);
    case List(items) =>
      if PairList(items) {
        forall i | 0 <= i < |items|
          ensures var x := items[i].items[1];
            WellFormed(x) && WellFormed(Reading(x)) && Unmistakable(Reading(x)) && Canonical(Reading(x)) == Canonical(x)
        {
          assert WellFormed(items[i]);
          ReadingKeepsForm(items[i].items[1]);
        }
        PairListForm(items);
        ReadDict(Spelled(items), Reading(t).entries);
      } else {
        forall i | 0 <= i < |items| { ReadingKeepsForm(items[i]); }
        assert Canonical(Reading(t)).parts == Canonical(t).parts;
        ReadList(items);
      }
  }

  /** Entries whose values have the same forms make a dictionary of the same form. */
  lemma ReadDict(es: seq<Entry>, fs: seq<Entry>)
    requires WellFormed(Dict(es)) && |fs| == |es|
    requires forall i | 0 <= i < |es| :: fs[i].key == es[i].key && Canonical(fs[i].value) == Canonical(es[i].value)
    requires forall i | 0 <= i < |fs| :: WellFormed(fs[i].value) && Unmistakable(fs[i].value)
    ensures WellFormed(Dict(fs)) && Unmistakable(Dict(fs)) && Canonical(Dict(fs)) == Canonical(Dict(es))
  {
    assert Parts(fs) == Parts(es);
  }

  /** Reading the items of a list makes no list of pairs of it. */
  lemma ReadList(items: seq<Tree>)
    ensures PairList(seq(|items|, i requires 0 <= i < |items| => Reading(items[i]))) ==> PairList(items)
  {
    var rs := seq(|items|, i requires 0 <= i < |items| => Reading(items[i]));
    if PairList(rs) {
      forall i | 0 <= i < |items|
        ensures items[i].List? && |items[i].items| == 2 && items[i].items[0] == rs[i].items[0]
      {
        assert rs[i] == Reading(items[i]);
        ReadPair(items[i]);
      }
    }
  }

  lemma ReadPair(t: Tree)
    requires Reading(t).List? && |Reading(t).items| == 2 && Reading(t).items[0].Leaf?
    ensures t.List? && |t.items| == 2 && t.items[0] == Reading(t).items[0]
  {
    assert Reading(t).items[0] == Reading(t.items[0]);
  }

  /** Two values have the same canonical form exactly when they are equal as nested maps once every list of pairs in key
      order is taken for the dictionary it spells; so on values without such lists, exactly when they are equal. */
  lemma CanonicalFormDecidesEquality(v: Tree, w: Tree)
    requires WellFormed(v) && WellFormed(w)
    ensures Canonical(v) == Canonical(w) <==> Meaning(Reading(v)) == Meaning(Reading(w))
    ensures Unmistakable(v) && Unmistakable(w) ==> (Canonical(v) == Canonical(w) <==> Meaning(v) == Meaning(w))
  {
    ReadingKeepsForm(v);
    ReadingKeepsForm(w);
    FormsOfUnmistakable(Reading(v), Reading(w));
    if Unmistakable(v) && Unmistakable(w) { FormsOfUnmistakable(v, w); }
  }

  lemma FormsOfUnmistakable(v: Tree, w: Tree)
    requires WellFormed(v) && WellFormed(w) && Unmistakable(v) && Unmistakable(w)
    ensures Canonical(v) == Canonical(w) <==> Meaning(v) == Meaning(w)
  {
    if Canonical(v) == Canonical(w) { SameFormSameMeaning(v, w); }
    if Meaning(v) == Meaning(w) { SameMeaningSameForm(v, w); }
  }
}
