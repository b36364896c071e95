/** Options and JSON values: what the platform reads from payloads and writes to its files. */
module Values {

  datatype Option<+T> = None | Some(value: T) {
    predicate IsFailure() { None? }

    function PropagateFailure<U>(): Option<U>
      requires None?
    {
      None
    }

    function Extract(): T
      requires Some?
    {
      value
    }
  }

  /** A JSON value. Two objects are equal when they hold the same entries, whatever order the keys were
      written in, which is Python's equality of dictionaries. Infinite stands for a float that is not finite. */
  datatype Json =
    | Null
    | Bool(b: bool)
    | Num(r: real)
    | Infinite
    | Str(s: string)
    | Arr(items: seq<Json>)
    | Obj(entries: map<string, Json>)

  /** Python truthiness of a JSON value. */
  predicate Truthy(j: Json) {
    match j
    case Null => false
    case Bool(b) => b
    case Num(r) => r != 0.0
    case Infinite => true
    case Str(s) => s != ""
    case Arr(items) => items != []
    case Obj(entries) => entries.Keys != {}
  }

  /** `a or b` */
  function Or(a: Json, b: Json): Json {
    if Truthy(a) then a else b
  }

  /** `d.get(k)` on a JSON object. */
  function Entry(d: map<string, Json>, k: string): Json {
    if k in d then d[k] else Null
  }

  /** The text of an identity field. Identity fields are strings when present, which the contract
      validator guarantees; an absent or null one reads as "". */
  function TextOf(j: Json): string {
    if j.Str? then j.s else ""
  }
}

/** Python's `str.strip`, `str.upper` and `str.lower` on ASCII text. */
module Text {

  predicate IsSpace(c: char) {
    c == ' ' || '\t' <= c <= '\r' || 28 as char <= c <= 31 as char
  }

  function StripLeft(s: string): string {
    if s != "" && IsSpace(s[0]) then StripLeft(s[1..]) else s
  }

  function StripRight(s: string): string {
    if s != "" && IsSpace(s[|s| - 1]) then StripRight(s[..|s| - 1]) else s
  }

  function Strip(s: string): string {
    StripRight(StripLeft(s))
  }

  predicate Blank(s: string) {
    Strip(s) == ""
  }

  predicate Trimmed(s: string) {
    Strip(s) == s
  }

  function UpperChar(c: char): char {
    if 'a' <= c <= 'z' then c - 32 as char else c
  }

  function LowerChar(c: char): char {
    if 'A' <= c <= 'Z' then c + 32 as char else c
  }

  function Upper(s: string): (r: string)
    ensures |r| == |s|
  {
    seq(|s|, i requires 0 <= i < |s| => UpperChar(s[i]))
  }

  function Lower(s: string): (r: string)
    ensures |r| == |s|
  {
    seq(|s|, i requires 0 <= i < |s| => LowerChar(s[i]))
  }

  lemma {:induction false} StripLeftEdge(s: string)
    ensures StripLeft(s) == "" || !IsSpace(StripLeft(s)[0])
  {
    if s != "" && IsSpace(s[0]) { StripLeftEdge(s[1..]); }
  }

  lemma {:induction false} StripRightEdge(s: string)
    ensures StripRight(s) == "" || !IsSpace(StripRight(s)[|StripRight(s)| - 1])
    ensures StripRight(s) <= s
  {
    if s != "" && IsSpace(s[|s| - 1]) { StripRightEdge(s[..|s| - 1]); }
  }

  ghost predicate Spaces(s: string) {
    forall c | c in s :: IsSpace(c)
  }

  lemma {:induction false} StripLeftSplits(s: string)
    ensures |StripLeft(s)| <= |s| && s[|s| - |StripLeft(s)|..] == StripLeft(s)
    ensures Spaces(s[..|s| - |StripLeft(s)|])
  {
    if s != "" && IsSpace(s[0]) {
      StripLeftSplits(s[1..]);
      var n := |s[1..]| - |StripLeft(s)|;
      assert s[1..][n..] == s[n + 1..];
      assert s[..n + 1] == [s[0]] + s[1..][..n];
    }
  }

  lemma {:induction false} StripRightSplits(s: string)
    ensures StripRight(s) <= s && Spaces(s[|StripRight(s)|..])
  {
    if s != "" && IsSpace(s[|s| - 1]) {
      var rest := s[..|s| - 1];
      StripRightSplits(rest);
      assert s[|StripRight(s)|..] == rest[|StripRight(s)|..] + [s[|s| - 1]];
    }
  }

  /** Stripping cuts the spaces from both ends and nothing else. */
  lemma StripCutsSpaces(s: string)
    ensures exists n: nat, m: nat :: n <= m <= |s| && Strip(s) == s[n..m] && Spaces(s[..n]) && Spaces(s[m..])
    ensures Strip(s) == "" || (!IsSpace(Strip(s)[0]) && !IsSpace(Strip(s)[|Strip(s)| - 1]))
  {
    var left := StripLeft(s);
    StripLeftSplits(s);
    StripRightSplits(left);
    StripIsTrimmed(s);
    TrimmedEnds(Strip(s));
    var n := |s| - |left|;
    var m := n + |Strip(s)|;
    assert s[n..m] == left[..|Strip(s)|];
    assert s[m..] == left[|Strip(s)|..];
  }

  /** A string is trimmed exactly when neither of its ends is a space. */
  lemma TrimmedEnds(s: string)
    ensures Trimmed(s) <==> s == "" || (!IsSpace(s[0]) && !IsSpace(s[|s| - 1]))
  {
    StripLeftEdge(s);
    StripRightEdge(StripLeft(s));
    StripLeftShortens(s);
  }

  lemma {:induction false} StripLeftShortens(s: string)
    ensures |StripLeft(s)| <= |s|
    ensures |StripLeft(s)| == |s| ==> StripLeft(s) == s
  {
    if s != "" && IsSpace(s[0]) { StripLeftShortens(s[1..]); }
  }

  /** Stripping twice is stripping once. */
  lemma StripIsTrimmed(s: string)
    ensures Trimmed(Strip(s))
  {
    StripLeftEdge(s);
    StripRightEdge(StripLeft(s));
    TrimmedEnds(Strip(s));
  }

  lemma UpperKeepsTrimmed(s: string)
    requires Trimmed(s)
    ensures Trimmed(Upper(s)) && Upper(Upper(s)) == Upper(s)
  {
    TrimmedEnds(s);
    TrimmedEnds(Upper(s));
  }

  lemma LowerKeepsTrimmed(s: string)
    requires Trimmed(s)
    ensures Trimmed(Lower(s)) && Lower(Lower(s)) == Lower(s)
  {
    TrimmedEnds(s);
    TrimmedEnds(Lower(s));
  }

  lemma UpperStripTwice(s: string)
    ensures Upper(Strip(Upper(Strip(s)))) == Upper(Strip(s)) && (!Blank(s) ==> !Blank(Upper(Strip(s))))
  {
    StripIsTrimmed(s);
    UpperKeepsTrimmed(Strip(s));
  }

  lemma LowerStripTwice(s: string)
    ensures Lower(Strip(Lower(Strip(s)))) == Lower(Strip(s))
  {
    StripIsTrimmed(s);
    LowerKeepsTrimmed(Strip(s));
  }
}

/** Composite index keys of the form `f"{owner}:{id}"`. */
module Keys {

  function Key(owner: string, id: string): string {
    owner + ":" + id
  }

  /** No owner's name followed by the separator begins another owner's name. */
  ghost predicate PrefixFree(owners: set<string>) {
    forall u, v | u in owners && v in owners && u != v :: !(u + ":" <= v)
  }

  /** Within one owner the key determines the id. */
  lemma KeyCancels(u: string, a: string, b: string)
    requires Key(u, a) == Key(u, b)
    ensures a == b
  {
    assert Key(u, a)[|u| + 1..] == a;
    assert Key(u, b)[|u| + 1..] == b;
  }

  /** If two owners make the same key, one owner's name extends the other's past the separator. */
  lemma EqualKeys(u: string, a: string, v: string, b: string)
    requires Key(u, a) == Key(v, b) && |u| < |v|
    ensures u + ":" <= v
  {
    var k := Key(u, a);
    assert k[..|u| + 1] == u + ":";
    assert k[..|v|] == v;
    assert v[..|u| + 1] == k[..|v|][..|u| + 1] == u + ":";
  }

  lemma EqualLengthOwners(u: string, a: string, v: string, b: string)
    requires Key(u, a) == Key(v, b) && |u| == |v|
    ensures u == v
  {
    assert u == Key(u, a)[..|u|] == Key(v, b)[..|v|] == v;
  }

  /** Keys of prefix-free owners determine both the owner and the id. */
  lemma KeyInjective(owners: set<string>, u: string, a: string, v: string, b: string)
    requires PrefixFree(owners) && u in owners && v in owners
    requires Key(u, a) == Key(v, b)
    ensures u == v && a == b
  {
    if |u| < |v| {
      EqualKeys(u, a, v, b);
    } else if |v| < |u| {
      EqualKeys(v, b, u, a);
    } else {
      EqualLengthOwners(u, a, v, b);
      KeyCancels(u, a, b);
    }
  }

  /** When one owner's name extends another's past the separator, their keys do meet. */
  lemma KeysMeet(u: string, v: string, b: string)
    requires u + ":" <= v
    ensures var a := v[|u| + 1..] + ":" + b; Key(u, a) == Key(v, b)
  {
    var w := v[|u| + 1..];
    assert v == u + ":" + w;
  }
}
