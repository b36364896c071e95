/** The signal shown as current: the newest publication among the eligible records of a bounded listing. */
module LatestSignal {
  import opened Values
  import opened Text
  import opened Project1Records
  import opened Project1Listing
  import opened Project1Store
  import opened Project1Repository
  import opened StableSort

  const WINDOW := 500

  datatype Request = Request(symbol: string, timeframe: string, strategy: Option<string>, user: Option<string>)

  /** `str(value or default)`; a value that is neither falsy nor a string reads as "?", which like its Python text is
      none of the words compared with below. */
  function Shown(j: Json, default: string): string {
    if !Truthy(j) then default else if j.Str? then j.s else "?"
  }

  /** The listing behind a request: without a user, system records only. */
  function ListingOf(ask: Request): Listing {
    Listing(Some(if ask.user.Some? then ask.user.value else "p1_service_ingest"), Some(ask.symbol), None, WINDOW,
            true, true)
  }

  predicate Emitted(rec: Record) {
    Upper(Strip(Shown(Get(rec, CommandType), "EMIT_SIGNAL"))) == "EMIT_SIGNAL"
  }

  predicate OnSymbol(rec: Record, symbol: string) {
    var s := Upper(Strip(Shown(Get(rec, Symbol), "")));
    s != "" && (symbol == "" || s == Upper(Strip(symbol)))
  }

  predicate OnTimeframe(rec: Record, timeframe: string) {
    var tf := Lower(Strip(Shown(Get(rec, Timeframe), "")));
    tf in ["5m", "15m", "30m", "1h", "4h", "1d"] && (timeframe == "" || tf == Lower(Strip(timeframe)))
  }

  predicate OfStrategy(rec: Record, strategy: Option<string>) {
    var name := Get(rec, StrategyName);
    strategy.None? || strategy.value == "" || !Truthy(name) || name == Str(strategy.value)
  }

  predicate Active(rec: Record) {
    Upper(Strip(Shown(Get(rec, LifecycleState), "STAGED"))) !in ["CANCELLED", "EXPIRED", "REJECTED", "EXECUTED"]
  }

  predicate Timely(rec: Record, clock: Clock) {
    Get(rec, Timestamp).Num? && 0.0 <= Get(rec, Timestamp).r <= clock.now + 5.0
  }

  predicate Live(rec: Record) {
    && Get(rec, Metadata).Obj?
    && Entry(MetadataOf(rec), "provenance_type") == Str("live_signal")
    && Entry(MetadataOf(rec), "is_live") == Bool(true)
    && Entry(MetadataOf(rec), "is_historical") != Bool(true)
  }

  /** The authoritative publication time the selection uses, when the record has one not in the future. */
  function PublishedAt(rec: Record, clock: Clock): Option<real> {
    var raw :=
      match PublicationStamp(rec)
      case Num(t) => Some(t)
      case Str(text) => if Blank(text) then None else ParseIso(text, clock)
      case _ => None;
    if raw.Some? && raw.value <= clock.now + 5.0 then raw else None
  }

  /** The publication time of a record that may be shown for the request; None for one that may not. */
  function Eligible(rec: Record, ask: Request, clock: Clock): Option<real> {
    if Emitted(rec) && OnSymbol(rec, ask.symbol) && OnTimeframe(rec, ask.timeframe) && OfStrategy(rec, ask.strategy)
       && Active(rec) && Timely(rec, clock) && Live(rec)
    then PublishedAt(rec, clock) else None
  }

  datatype Candidate = Candidate(published: real, record: Record)

  function Candidates(records: seq<Record>, ask: Request, clock: Clock): seq<Candidate> {
    if records == [] then []
    else
      var n := |records| - 1;
      var init := Candidates(records[..n], ask, clock);
      match Eligible(records[n], ask, clock)
      case Some(t) => init + [Candidate(t, records[n])]
      case None => init
  }

  /** `max(candidates, key=...)` gives the first of the greatest. */
  ghost predicate FirstNewest(cs: seq<Candidate>, i: nat) {
    && i < |cs|
    && forall j | 0 <= j < |cs| ::
         cs[j].published <= cs[i].published && (j < i ==> cs[j].published < cs[i].published)
  }

  /** `fetch_latest_signal`'s choice among listed records. */
  ghost predicate Chosen(records: seq<Record>, ask: Request, clock: Clock, chosen: Option<Record>) {
    var cs := Candidates(records, ask, clock);
    && (chosen.None? <==> cs == [])
    && (chosen.Some? ==> exists i: nat :: FirstNewest(cs, i) && cs[i].record == chosen.value)
  }

  /** The selection loop of `fetch_latest_signal`. */
  method Select(records: seq<Record>, ask: Request, clock: Clock) returns (chosen: Option<Record>)
    ensures Chosen(records, ask, clock, chosen)
  {
    hide PublishedAt; hide Emitted; hide OnSymbol; hide OnTimeframe; hide OfStrategy; hide Active; hide Timely;
    hide Live;
    var candidates: seq<Candidate> := [];
    for n := 0 to |records|
      invariant candidates == Candidates(records[..n], ask, clock)
    {
      assert records[..n + 1][..n] == records[..n];
      var rec := records[n];
      if !Emitted(rec) { continue; }
      if !OnSymbol(rec, ask.symbol) { continue; }
      if !OnTimeframe(rec, ask.timeframe) { continue; }
      if !OfStrategy(rec, ask.strategy) { continue; }
      if !Active(rec) { continue; }
      if !Timely(rec, clock) { continue; }
      if !Live(rec) { continue; }
      var published := PublishedAt(rec, clock);
      if published.None? { continue; }
      candidates := candidates + [Candidate(published.value, rec)];
    }
    assert records[..|records|] == records;
    if candidates == [] {
      return None;
    }
    var best := 0;
    for n := 1 to |candidates|
      invariant 0 <= best < n
      invariant FirstNewest(candidates[..n], best)
    {
      if candidates[n].published > candidates[best].published {
        best := n;
      }
    }
    assert candidates[..|candidates|] == candidates;
    return Some(candidates[best].record);
  }

  /** Everything in the store the requester may see on the symbol, in stored order. */
  function SeenBy(rs: seq<Record>, ask: Request): seq<Record> {
    Admitted(rs, ListingOf(ask))
  }

  /** Record k of those is the newest publication the requester may be shown; of several published at one instant it
      is the first stored. */
  ghost predicate NewestEligible(seen: seq<Record>, k: nat, ask: Request, clock: Clock) {
    && k < |seen| && Eligible(seen[k], ask, clock).Some?
    && forall j | 0 <= j < |seen| && Eligible(seen[j], ask, clock).Some? ::
         && Eligible(seen[j], ask, clock).value <= Eligible(seen[k], ask, clock).value
         && (j < k ==> Eligible(seen[j], ask, clock).value < Eligible(seen[k], ask, clock).value)
  }

  /** How many seen records, eligible or not, come before record k in publication order. */
  ghost function Crowd(seen: seq<Record>, k: nat, clock: Clock): nat
    requires k < |seen|
  {
    Ahead(Ranked(seen, clock), k)
  }

  /** What is shown: the newest eligible record of the whole store when fewer than 500 seen records crowd it out,
      and nothing otherwise. */
  ghost predicate Shows(rs: seq<Record>, ask: Request, clock: Clock, chosen: Option<Record>) {
    var seen := SeenBy(rs, ask);
    && (forall k: nat | k < |seen| && NewestEligible(seen, k, ask, clock) ::
          chosen == if Crowd(seen, k, clock) < WINDOW then Some(seen[k]) else None)
    && ((forall k | 0 <= k < |seen| :: Eligible(seen[k], ask, clock).None?) ==> chosen.None?)
  }

  /** `Project1GatewayAdapter.fetch_latest_signal`, up to the choice of record: how the store answered, and which
      record of the listing is shown. */
  method FetchLatestSignal(repo: Repository, ask: Request, instant: Instants, env: Env)
    returns (reply: Reply, chosen: Option<Record>)
    modifies repo, repo.file
    ensures Effect(repo.Flags(), repo.file.disk, reply)
            == List(old(repo.Flags()), old(repo.file.disk), ListingOf(ask), instant, env)
    ensures chosen.Some? ==> reply.Found?
    ensures reply.Found? ==> Shows(RecordsOf(repo.file.disk), ask, Clock(env.now, instant), chosen)
  {
    hide Shows; hide Listed; hide Chosen;
    reply := repo.ListRecordsForUser(ListingOf(ask), instant, env);
    if !reply.Found? {
      return reply, None;
    }
    chosen := Select(reply.records, ask, Clock(env.now, instant));
    ChoiceIsShown(RecordsOf(repo.file.disk), ask, Clock(env.now, instant), chosen);
  }

  /** An eligible record's rank in the listing is the publication time used to choose. */
  lemma EligibleRank(rec: Record, ask: Request, clock: Clock)
    requires Eligible(rec, ask, clock).Some?
    ensures PublicationEpoch(rec, clock) == At(Eligible(rec, ask, clock).value)
  {
    hide PublicationStamp; hide ParseIso; hide Emitted; hide OnSymbol; hide OnTimeframe; hide OfStrategy;
    hide Active; hide Timely; hide Live;
  }

  lemma {:induction false} CandidatesFrom(records: seq<Record>, ask: Request, clock: Clock)
    ensures forall c :: c in Candidates(records, ask, clock) <==>
      c.record in records && Eligible(c.record, ask, clock) == Some(c.published)
  {
    hide Eligible;
    if records != [] {
      var n := |records| - 1;
      CandidatesFrom(records[..n], ask, clock);
      assert records == records[..n] + [records[n]];
    }
  }

  /** The candidates from a descending listing are descending, and the first of them is its first eligible record. */
  lemma {:induction false} CandidatesInOrder(s: seq<Keyed<Record>>, ask: Request, clock: Clock)
    requires Descending(s) && forall i | 0 <= i < |s| :: s[i].rank == PublicationEpoch(s[i].item, clock)
    ensures var cs := Candidates(Items(s), ask, clock);
      && (forall i, j | 0 <= i < j < |cs| :: cs[i].published >= cs[j].published)
      && var f := FirstAt(s, (rec: Record) => Eligible(rec, ask, clock).Some?);
         (cs == [] <==> f == |s|) && (f < |s| ==> cs != [] && cs[0].record == s[f].item)
  {
    hide Eligible; hide PublicationEpoch; hide FirstAt;
    var p := (rec: Record) => Eligible(rec, ask, clock).Some?;
    if s == [] {
      assert FirstAt(s, p) <= |s|;
    } else {
      var n := |s| - 1;
      CandidatesInOrder(s[..n], ask, clock);
      assert Items(s)[..n] == Items(s[..n]);
      FirstOfLonger(s, p);
      if Eligible(s[n].item, ask, clock).Some? { LastIsLeast(s, ask, clock); }
    }
  }

  lemma LastIsLeast(s: seq<Keyed<Record>>, ask: Request, clock: Clock)
    requires s != [] && Descending(s) && forall i | 0 <= i < |s| :: s[i].rank == PublicationEpoch(s[i].item, clock)
    requires Eligible(s[|s| - 1].item, ask, clock).Some?
    ensures var n := |s| - 1;
      forall c | c in Candidates(Items(s[..n]), ask, clock) :: c.published >= Eligible(s[n].item, ask, clock).value
  {
    hide Eligible; hide PublicationEpoch;
    var n := |s| - 1;
    CandidatesFrom(Items(s[..n]), ask, clock);
    EligibleRank(s[n].item, ask, clock);
    forall c | c in Candidates(Items(s[..n]), ask, clock)
      ensures c.published >= Eligible(s[n].item, ask, clock).value
    {
      var m :| 0 <= m < n && Items(s[..n])[m] == c.record;
      assert AtLeast(s[m].rank, s[n].rank);
      EligibleRank(c.record, ask, clock);
    }
  }

  lemma {:induction false} FirstOfLonger(s: seq<Keyed<Record>>, p: Record -> bool)
    requires s != []
    ensures var n := |s| - 1;
      FirstAt(s, p) == if FirstAt(s[..n], p) < n then FirstAt(s[..n], p) else if p(s[n].item) then n else n + 1
  {
    if |s| > 1 {
      FirstOfLonger(s[1..], p);
      assert s[1..][..|s| - 2] == s[..|s| - 1][1..];
    }
  }

  lemma {:induction false} FirstOfPrefix(s: seq<Keyed<Record>>, n: nat, p: Record -> bool)
    requires n <= |s|
    ensures FirstAt(s[..n], p) == if FirstAt(s, p) < n then FirstAt(s, p) else n
  {
    if n < |s| {
      FirstOfPrefix(s[..|s| - 1], n, p);
      FirstOfLonger(s, p);
      assert s[..|s| - 1][..n] == s[..n];
    } else {
      assert s[..n] == s;
    }
  }

  /** The window of the listing: the first 500 of the seen records in publication order. */
  function Window(seen: seq<Record>, clock: Clock): seq<Keyed<Record>> {
    var s := SortDescending(Ranked(seen, clock));
    if WINDOW < |s| then s[..WINDOW] else s
  }

  lemma WindowOrder(seen: seq<Record>, clock: Clock)
    ensures var w := Window(seen, clock);
      Descending(w) && forall i | 0 <= i < |w| :: w[i].rank == PublicationEpoch(w[i].item, clock) && w[i].item in seen
  {
    SortIsStable(Ranked(seen, clock));
    SortedKeys(seen, clock);
  }

  lemma NewestLeads(seen: seq<Record>, k: nat, ask: Request, clock: Clock)
    requires NewestEligible(seen, k, ask, clock)
    ensures Leads(Ranked(seen, clock), (rec: Record) => Eligible(rec, ask, clock).Some?, k)
  {
    hide Eligible; hide PublicationEpoch;
    EligibleRank(seen[k], ask, clock);
    forall j | 0 <= j < |seen| && Eligible(seen[j], ask, clock).Some?
      ensures AtLeast(PublicationEpoch(seen[k], clock), PublicationEpoch(seen[j], clock))
      ensures AtLeast(PublicationEpoch(seen[j], clock), PublicationEpoch(seen[k], clock)) ==> k <= j
    {
      EligibleRank(seen[j], ask, clock);
    }
  }

  /** The choice is the first eligible record of the window. */
  lemma ChoiceIsFirst(seen: seq<Record>, ask: Request, clock: Clock, chosen: Option<Record>)
    requires Chosen(Items(Window(seen, clock)), ask, clock, chosen)
    ensures var w := Window(seen, clock);
      var f := FirstAt(w, (rec: Record) => Eligible(rec, ask, clock).Some?);
      chosen == if f < |w| then Some(w[f].item) else None
  {
    hide Eligible; hide PublicationEpoch; hide FirstAt; hide Window; hide Candidates;
    WindowOrder(seen, clock);
    CandidatesInOrder(Window(seen, clock), ask, clock);
  }

  /** The maximum over the window is the newest eligible record of the whole store, exactly when fewer than 500 seen
      records come before it. */
  lemma ChoiceIsShown(rs: seq<Record>, ask: Request, clock: Clock, chosen: Option<Record>)
    requires Chosen(Listed(rs, ListingOf(ask), clock), ask, clock, chosen)
    ensures Shows(rs, ask, clock, chosen)
  {
    hide Eligible; hide PublicationEpoch; hide Admits; hide Leads; hide Chosen; hide NewestEligible; hide Admitted;
    hide SortDescending; hide Ahead; hide FirstAt; hide Ranked;
    var seen, p := SeenBy(rs, ask), (rec: Record) => Eligible(rec, ask, clock).Some?;
    var s, w := SortDescending(Ranked(seen, clock)), Window(seen, clock);
    assert Listed(rs, ListingOf(ask), clock) == Items(w);
    ChoiceIsFirst(seen, ask, clock, chosen);
    FirstOfPrefix(s, |w|, p);
    assert s[..|w|] == w;
    forall k: nat | k < |seen| && NewestEligible(seen, k, ask, clock)
      ensures chosen == if Crowd(seen, k, clock) < WINDOW then Some(seen[k]) else None
    {
      ShownAt(seen, k, ask, clock);
    }
    if chosen.Some? {
      WindowOrder(seen, clock);
      var k :| 0 <= k < |seen| && seen[k] == chosen.value;
      assert p(seen[k]);
    }
  }

  lemma ShownAt(seen: seq<Record>, k: nat, ask: Request, clock: Clock)
    requires NewestEligible(seen, k, ask, clock)
    ensures var s, p := SortDescending(Ranked(seen, clock)), (rec: Record) => Eligible(rec, ask, clock).Some?;
      FirstAt(s, p) == Crowd(seen, k, clock) < |s| && s[Crowd(seen, k, clock)].item == seen[k]
  {
    hide Eligible; hide PublicationEpoch;
    NewestLeads(seen, k, ask, clock);
    LeaderComesFirst(Ranked(seen, clock), (rec: Record) => Eligible(rec, ask, clock).Some?, k);
  }

  /** Whenever some record could be shown there is a newest one, so what is shown is determined. */
  lemma {:induction false} NewestExists(seen: seq<Record>, i: nat, ask: Request, clock: Clock) returns (k: nat)
    requires i < |seen| && Eligible(seen[i], ask, clock).Some?
    ensures NewestEligible(seen, k, ask, clock)
    decreases |seen|
  {
    hide Eligible;
    var n := |seen| - 1;
    if j :| 0 <= j < n && Eligible(seen[j], ask, clock).Some? {
      k := NewestExists(seen[..n], j, ask, clock);
      var last := Eligible(seen[n], ask, clock);
      if last.Some? && last.value > Eligible(seen[k], ask, clock).value {
        k := n;
      }
    } else {
      k := n;
    }
  }

  /** A text under which a signal is still active: none of the four final states. */
  predicate StillActive(state: Json) {
    match state
    case Str(s) =>
      var name := Upper(Strip(s));
      name != "CANCELLED" && name != "EXPIRED" && name != "REJECTED" && name != "EXECUTED"
    case _ => true
  }

  /** One of the six timeframes, in any case, and the one asked for if one was. */
  predicate OfTimeframe(timeframe: Json, wanted: string) {
    && timeframe.Str?
    && var tf := Lower(Strip(timeframe.s));
       && (tf == "5m" || tf == "15m" || tf == "30m" || tf == "1h" || tf == "4h" || tf == "1d")
       && (wanted == "" || tf == Lower(Strip(wanted)))
  }

  /** Live and not historical, by its metadata. */
  predicate LiveByMetadata(metadata: Json) {
    && metadata.Obj?
    && "provenance_type" in metadata.entries && metadata.entries["provenance_type"] == Str("live_signal")
    && "is_live" in metadata.entries && metadata.entries["is_live"] == Bool(true)
    && ("is_historical" in metadata.entries ==> metadata.entries["is_historical"] != Bool(true))
  }

  /** What a record has to say of itself to be shown for the request. */
  predicate MayBeShown(rec: Record, ask: Request, clock: Clock) {
    && (!Truthy(Get(rec, CommandType))
        || (Get(rec, CommandType).Str? && Upper(Strip(Get(rec, CommandType).s)) == "EMIT_SIGNAL"))
    && StillActive(Get(rec, LifecycleState)) && OfTimeframe(Get(rec, Timeframe), ask.timeframe)
    && LiveByMetadata(Get(rec, Metadata))
    && (ask.strategy.Some? && ask.strategy.value != "" && Truthy(Get(rec, StrategyName)) ==>
          Get(rec, StrategyName) == Str(ask.strategy.value))
    && Get(rec, Timestamp).Num? && 0.0 <= Get(rec, Timestamp).r <= clock.now + 5.0
  }

  /** Its symbol is the one asked for. */
  predicate OfSymbol(rec: Record, symbol: string) {
    && Get(rec, Symbol).Str? && !Blank(Get(rec, Symbol).s)
    && (symbol == "" || Upper(Strip(Get(rec, Symbol).s)) == Upper(Strip(symbol)))
  }

  /** The field its publication time is read from: of the metadata, or else of the record, the first that says
      anything. */
  predicate PublicationRead(rec: Record, stamp: Json) {
    var m := if Get(rec, Metadata).Obj? then Get(rec, Metadata).entries else map[];
    if "produced_at" in m && Truthy(m["produced_at"]) then stamp == m["produced_at"]
    else if "authorized_at_utc" in m && Truthy(m["authorized_at_utc"]) then stamp == m["authorized_at_utc"]
    else if "publication_timestamp" in m && Truthy(m["publication_timestamp"]) then stamp == m["publication_timestamp"]
    else stamp == Get(rec, ProducedAt)
  }

  lemma ActiveIs(rec: Record)
    ensures Active(rec) <==> StillActive(Get(rec, LifecycleState))
  {
    hide Upper;
    QuietWords();
  }

  lemma QuietWords()
    ensures Upper(Strip("STAGED")) == "STAGED" && Upper(Strip("?")) == "?" && Strip("") == ""
    ensures Lower(Strip("")) == "" && Upper(Strip("")) == "" && Lower(Strip("?")) == "?"
    ensures Upper(Strip("EMIT_SIGNAL")) == "EMIT_SIGNAL"
  {
    TrimmedEnds("STAGED");
    TrimmedEnds("?");
    TrimmedEnds("EMIT_SIGNAL");
    assert Upper("STAGED") == "STAGED" && Upper("?") == "?" && Upper("EMIT_SIGNAL") == "EMIT_SIGNAL";
    assert Lower("?") == "?" && Lower("") == "" && Upper("") == "";
  }

  lemma EmittedIs(rec: Record)
    ensures Emitted(rec) <==>
      !Truthy(Get(rec, CommandType))
      || (Get(rec, CommandType).Str? && Upper(Strip(Get(rec, CommandType).s)) == "EMIT_SIGNAL")
  {
    QuietWords();
    hide Upper; hide Strip;
  }

  lemma OnTimeframeIs(rec: Record, wanted: string)
    ensures OnTimeframe(rec, wanted) <==> OfTimeframe(Get(rec, Timeframe), wanted)
  {
    QuietWords();
    hide Lower; hide Strip;
  }

  lemma OnSymbolIs(rec: Record, symbol: string)
    ensures OnSymbol(rec, symbol) && Get(rec, Symbol).Str? ==> OfSymbol(rec, symbol)
    ensures OfSymbol(rec, symbol) ==> OnSymbol(rec, symbol)
  {
    QuietWords();
    var j := Get(rec, Symbol);
    if j.Str? { assert |Upper(Strip(j.s))| == |Strip(j.s)|; }
    hide Upper; hide Strip;
  }

  /** A record with a symbol may be chosen exactly when it says these things of itself and its publication time can be
      read and is not in the future. */
  lemma EligibleExactly(rec: Record, ask: Request, clock: Clock)
    requires Get(rec, Symbol).Str?
    ensures Eligible(rec, ask, clock).Some? <==>
      MayBeShown(rec, ask, clock) && OfSymbol(rec, ask.symbol) && PublishedAt(rec, clock).Some?
  {
    hide Active; hide StillActive; hide Emitted; hide OnTimeframe; hide OfTimeframe; hide OnSymbol; hide OfSymbol;
    hide PublishedAt; hide Upper; hide Strip;
    ActiveIs(rec);
    EmittedIs(rec);
    OnTimeframeIs(rec, ask.timeframe);
    OnSymbolIs(rec, ask.symbol);
  }

  /** The publication time: a number, or a date that can be read, not more than five seconds ahead; a record without one
      ranks below every other in the listing. */
  lemma PublishedExactly(rec: Record, clock: Clock, stamp: Json)
    requires PublicationRead(rec, stamp)
    ensures PublicationEpoch(rec, clock)
         == match PublishedAt(rec, clock) case Some(t) => At(t) case None => Bottom
    ensures match stamp
      case Num(t) => PublishedAt(rec, clock) == if t <= clock.now + 5.0 then Some(t) else None
      case Str(text) =>
        PublishedAt(rec, clock) ==
          if Blank(text) || clock.instant(Strip(text)).None? then None
          else
            var t := clock.instant(Strip(text)).value;
            if 0.0 <= t <= clock.now + 5.0 then Some(t) else None
      case _ => PublishedAt(rec, clock).None?
  {
    hide Strip;
  }

  /** A record that is shown is stored, open to the viewer, of the symbol and timeframe asked for, live, not historical,
      and in none of the final states. */
  lemma ShownMeaning(rs: seq<Record>, ask: Request, clock: Clock, chosen: Option<Record>)
    requires Chosen(Listed(rs, ListingOf(ask), clock), ask, clock, chosen) && chosen.Some?
    ensures var rec, viewer := chosen.value, if ask.user.Some? then ask.user.value else "p1_service_ingest";
      && rec in rs && MayBeShown(rec, ask, clock) && OfSymbol(rec, ask.symbol)
      && Get(rec, UserId) in {Str(viewer), Str("system"), Str("p1_service_ingest"), Str("global")}
      && Get(rec, Symbol) == Str(Upper(Strip(ask.symbol)))
  {
    hide Eligible; hide MayBeShown; hide OfSymbol; hide Admits; hide PublicationEpoch;
    var listed := Listed(rs, ListingOf(ask), clock);
    CandidatesFrom(listed, ask, clock);
    ListedIsAdmitted(rs, ListingOf(ask), clock);
    AdmittedForRequest(ask, chosen.value);
    EligibleExactly(chosen.value, ask, clock);
  }

  lemma AdmittedForRequest(ask: Request, rec: Record)
    requires Admits(ListingOf(ask), rec)
    ensures Get(rec, Symbol) == Str(Upper(Strip(ask.symbol)))
    ensures var viewer := if ask.user.Some? then ask.user.value else "p1_service_ingest";
      Get(rec, UserId) in {Str(viewer), Str("system"), Str("p1_service_ingest"), Str("global")}
  {
    hide Upper; hide Strip;
  }

  lemma ListedIsAdmitted(rs: seq<Record>, ask: Listing, clock: Clock)
    requires ask.publicationOrder
    ensures forall rec | rec in Listed(rs, ask, clock) :: rec in rs && Admits(ask, rec)
  {
    hide Admits; hide PublicationEpoch; hide StablySorts;
    PublicationOrderMeaning(rs, ask, clock);
    var all, listed := Listed(rs, ask.(limit := 0), clock), Listed(rs, ask, clock);
    forall rec | rec in listed
      ensures rec in rs && Admits(ask, rec)
    {
      assert rec in all;
      assert rec in multiset(all);
      assert rec in Admitted(rs, ask);
      AdmittedMembers(rs, ask, rec);
    }
  }
}
