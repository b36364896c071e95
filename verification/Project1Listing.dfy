/** Listing the stored records of one user, newest publication first or latest stored first. */
module Project1Listing {
  import opened Values
  import opened Text
  import opened Project1Records
  import opened StableSort

  /** The instant a timezone-aware ISO-8601 text denotes, in seconds since the epoch; None when it is not one. */
  type Instants = string -> Option<real>

  /** One clock reading, and how dates are read. */
  datatype Clock = Clock(now: real, instant: Instants)

  /** `parse_iso8601_to_utc_epoch` with a skew of five seconds. */
  function ParseIso(text: string, clock: Clock): Option<real> {
    match clock.instant(Strip(text))
    case None => None
    case Some(t) => if t < 0.0 || t > clock.now + 5.0 then None else Some(t)
  }

  function MetadataOf(rec: Record): map<string, Json> {
    if Get(rec, Metadata).Obj? then Get(rec, Metadata).entries else map[]
  }

  /** The field that carries the publication time: the first that is not falsy. */
  function PublicationStamp(rec: Record): Json {
    var m := MetadataOf(rec);
    Or(Or(Or(Entry(m, "produced_at"), Entry(m, "authorized_at_utc")), Entry(m, "publication_timestamp")),
       Get(rec, ProducedAt))
  }

  /** `publication_epoch`: a late, unreadable or missing time ranks below every time. */
  function PublicationEpoch(rec: Record, clock: Clock): Rank {
    match PublicationStamp(rec)
    case Num(t) => if t <= clock.now + 5.0 then At(t) else Bottom
    case Str(text) =>
      if Blank(text) then Bottom
      else (match ParseIso(text, clock) case Some(t) => At(t) case None => Bottom)
    case _ => Bottom
  }

  datatype Listing = Listing(user: Option<string>, symbol: Option<string>, state: Option<string>, limit: int,
                             allowSystem: bool, publicationOrder: bool)

  predicate Admits(ask: Listing, rec: Record) {
    && UserMatches(rec, ask.user, ask.allowSystem)
    && (ask.symbol.Some? ==> Get(rec, Symbol) == Str(Upper(Strip(ask.symbol.value))))
    && (ask.state.Some? ==> Get(rec, LifecycleState) == Str(Upper(Strip(ask.state.value))))
  }

  /** The admitted records in stored order. */
  function Admitted(rs: seq<Record>, ask: Listing): seq<Record> {
    if rs == [] then []
    else
      var init, last := Admitted(rs[..|rs| - 1], ask), rs[|rs| - 1];
      if Admits(ask, last) then init + [last] else init
  }

  function Ranked(rs: seq<Record>, clock: Clock): (r: seq<Keyed<Record>>)
    ensures |r| == |rs|
  {
    seq(|rs|, i requires 0 <= i < |rs| => Keyed(PublicationEpoch(rs[i], clock), rs[i]))
  }

  function Reversed(rs: seq<Record>): (r: seq<Record>)
    ensures |r| == |rs|
  {
    seq(|rs|, i requires 0 <= i < |rs| => rs[|rs| - 1 - i])
  }

  function Limited(rs: seq<Record>, limit: int): (r: seq<Record>) {
    if 0 < limit < |rs| then rs[..limit] else rs
  }

  /** `list_records_for_user` */
  function Listed(rs: seq<Record>, ask: Listing, clock: Clock): seq<Record> {
    var kept := Admitted(rs, ask);
    Limited(if ask.publicationOrder then Items(SortDescending(Ranked(kept, clock))) else Reversed(kept), ask.limit)
  }

  method ListRecords(rs: seq<Record>, ask: Listing, clock: Clock) returns (listed: seq<Record>)
    ensures listed == Listed(rs, ask, clock)
  {
    var filtered: seq<Record> := [];
    for i := 0 to |rs|
      invariant filtered == Admitted(rs[..i], ask)
    {
      assert rs[..i + 1][..i] == rs[..i];
      if Admits(ask, rs[i]) {
        filtered := filtered + [rs[i]];
      }
    }
    assert rs[..|rs|] == rs;
    if ask.publicationOrder {
      var keyed: seq<Keyed<Record>> := [];
      for i := 0 to |filtered|
        invariant keyed == Ranked(filtered[..i], clock)
      {
        keyed := keyed + [Keyed(PublicationEpoch(filtered[i], clock), filtered[i])];
      }
      assert filtered[..|filtered|] == filtered;
      listed := Items(SortDescending(keyed));
    } else {
      listed := Reversed(filtered);
    }
    if ask.limit > 0 && ask.limit < |listed| {
      listed := listed[..ask.limit];
    }
  }

  /** A listing in publication order is a permutation of what it admits, newest first, equal times in stored order;
      a limited listing is its first records. */
  lemma PublicationOrderMeaning(rs: seq<Record>, ask: Listing, clock: Clock)
    requires ask.publicationOrder
    ensures var all := Listed(rs, ask.(limit := 0), clock);
      && multiset(all) == multiset(Admitted(rs, ask))
      && (forall i, j | 0 <= i < j < |all| ::
            AtLeast(PublicationEpoch(all[i], clock), PublicationEpoch(all[j], clock)))
      && StablySorts(Ranked(Admitted(rs, ask), clock), Ranked(all, clock))
      && Listed(rs, ask, clock) == if 0 < ask.limit < |all| then all[..ask.limit] else all
  {
    var kept := Admitted(rs, ask);
    AdmissionIgnoresLimit(rs, ask);
    var s := SortDescending(Ranked(kept, clock));
    SortIsStable(Ranked(kept, clock));
    SortedKeys(kept, clock);
    assert Ranked(Items(s), clock) == s;
    SortItems(Ranked(kept, clock));
    assert Items(Ranked(kept, clock)) == kept;
    var all := Items(s);
    forall i, j | 0 <= i < j < |all|
      ensures AtLeast(PublicationEpoch(all[i], clock), PublicationEpoch(all[j], clock))
    {
      assert AtLeast(s[i].rank, s[j].rank);
    }
  }

  lemma {:induction false} AdmissionIgnoresLimit(rs: seq<Record>, ask: Listing)
    ensures Admitted(rs, ask.(limit := 0)) == Admitted(rs, ask)
  {
    if rs != [] { AdmissionIgnoresLimit(rs[..|rs| - 1], ask); }
  }

  /** Every key in the sorted list is the publication time of its record. */
  lemma SortedKeys(kept: seq<Record>, clock: Clock)
    ensures var s := SortDescending(Ranked(kept, clock));
      forall i | 0 <= i < |s| :: s[i].rank == PublicationEpoch(s[i].item, clock) && s[i].item in kept
  {
    var xs := Ranked(kept, clock);
    var s := SortDescending(xs);
    SortIsStable(xs);
    forall i | 0 <= i < |s|
      ensures s[i].rank == PublicationEpoch(s[i].item, clock) && s[i].item in kept
    {
      assert s[i] in multiset(s);
      var m :| 0 <= m < |xs| && xs[m] == s[i];
    }
  }

  lemma {:induction false} AdmittedMembers(rs: seq<Record>, ask: Listing, rec: Record)
    ensures rec in Admitted(rs, ask) <==> rec in rs && Admits(ask, rec)
  {
    hide Admits;
    if rs != [] {
      AdmittedMembers(rs[..|rs| - 1], ask, rec);
      assert rs == rs[..|rs| - 1] + [rs[|rs| - 1]];
    }
  }

  /** A listing without a limit shows exactly the stored records of the user asked for, the system's as well if that is
      allowed, of the symbol and in the state asked for. */
  lemma ListedExactly(rs: seq<Record>, ask: Listing, clock: Clock, rec: Record)
    requires ask.limit <= 0
    ensures rec in Listed(rs, ask, clock) <==>
      && rec in rs
      && (|| ask.user.None? || Get(rec, UserId) == Str(ask.user.value)
          || (ask.allowSystem && Get(rec, UserId) in {Str("system"), Str("p1_service_ingest"), Str("global")}))
      && (ask.symbol.Some? ==> Get(rec, Symbol) == Str(Upper(Strip(ask.symbol.value))))
      && (ask.state.Some? ==> Get(rec, LifecycleState) == Str(Upper(Strip(ask.state.value))))
  {
    hide PublicationEpoch; hide Upper; hide Strip; hide SortDescending; hide Ranked;
    AdmittedMembers(rs, ask, rec);
    var kept, listed := Admitted(rs, ask), Listed(rs, ask, clock);
    if ask.publicationOrder {
      SortItems(Ranked(kept, clock));
      RankedItems(kept, clock);
      assert rec in listed <==> rec in multiset(listed);
      assert rec in kept <==> rec in multiset(kept);
    } else {
      ReversedMembers(kept, rec);
    }
  }

  lemma RankedItems(kept: seq<Record>, clock: Clock)
    ensures Items(Ranked(kept, clock)) == kept
  {
    hide PublicationEpoch;
  }

  lemma ReversedMembers(rs: seq<Record>, rec: Record)
    ensures rec in Reversed(rs) <==> rec in rs
  {
    var r := Reversed(rs);
    if rec in rs {
      var i :| 0 <= i < |rs| && rs[i] == rec;
      assert r[|rs| - 1 - i] == rec;
    }
  }
}
