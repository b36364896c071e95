/** The audit log: bounded lists of events and failures, a filtered query and a summary of counts. */
module AuditControl {
  import opened Values
  import opened Text
  import opened Sanitizer
  import S = StableSort

  datatype Category =
    | SIGNAL_INTAKE | BACKTEST_ASSESSMENT | STRATEGY_VALIDATION | AUTONOMOUS_AUTHORIZATION | ORDER_INTENT
    | NOTIFICATION_DISPATCH | PROVIDER_HEALTH | SECURITY_AUTHORIZATION | OPERATIONAL_SYSTEM

  datatype Lifecycle =
    | INITIATED | PROCESSING | VALIDATED | AUTHORIZED | STAGED | DISPATCHED | COMPLETED | DEGRADED | FAILED | REJECTED
    | CANCELLED | EXPIRED

  datatype Severity = INFO | WARNING | ERROR | CRITICAL

  datatype Event = Event(
    id: string, timestamp: real, user: string, category: Category, eventType: string, lifecycle: Lifecycle,
    action: string, outcome: string, severity: Severity, resource: Option<string>, correlation: Option<string>,
    details: Option<string>, metadata: map<string, Json>)

  datatype Failure = Failure(
    id: string, timestamp: real, correlation: string, component: string, errorType: string, severity: Severity,
    retryable: bool, message: string, details: Option<string>, user: string)

  datatype Filter = Filter(
    user: Option<string>, category: Option<Category>, lifecycle: Option<Lifecycle>, outcome: Option<string>,
    severity: Option<Severity>, correlation: Option<string>, startTime: Option<real>, endTime: Option<real>, limit: int)

  datatype Reader = Reader(id: string, admin: bool)

  const MAX_FAILURES := 500

  /** The last n elements, all of them if there are no more. */
  function LastN<T>(s: seq<T>, n: nat): (r: seq<T>)
    ensures |r| == if |s| < n then |s| else n
    ensures r == s[|s| - |r|..]
  {
    if |s| <= n then s else s[|s| - n..]
  }

  /** A set filter: given and not empty. */
  predicate Given(o: Option<string>) {
    o.Some? && o.value != ""
  }

  predicate Visible(reader: Reader, owner: string) {
    reader.admin || owner == "system" || owner == reader.id
  }

  /** The filters other than the one by user. */
  predicate Matches(f: Filter, e: Event) {
    && (f.category.Some? ==> e.category == f.category.value)
    && (f.lifecycle.Some? ==> e.lifecycle == f.lifecycle.value)
    && (f.severity.Some? ==> e.severity == f.severity.value)
    && (Given(f.outcome) ==> Upper(e.outcome) == Upper(Strip(f.outcome.value)))
    && (Given(f.correlation) ==> e.correlation == Some(Strip(f.correlation.value)))
    && (f.startTime.Some? ==> e.timestamp >= f.startTime.value)
    && (f.endTime.Some? ==> e.timestamp <= f.endTime.value)
  }

  /** The query's loop keeps the event. */
  predicate Selected(reader: Reader, f: Filter, e: Event) {
    && Visible(reader, e.user)
    && (Given(f.user) && e.user != Strip(f.user.value) ==> !reader.admin && Strip(f.user.value) == reader.id)
    && Matches(f, e)
  }

  function Selection(events: seq<Event>, reader: Reader, f: Filter): seq<Event> {
    if events == [] then []
    else
      var n := |events| - 1;
      var init := Selection(events[..n], reader, f);
      if Selected(reader, f, events[n]) then init + [events[n]] else init
  }

  function Dated(events: seq<Event>): (r: seq<S.Keyed<Event>>)
    ensures |r| == |events|
  {
    seq(|events|, n requires 0 <= n < |events| => S.Keyed(S.At(events[n].timestamp), events[n]))
  }

  function Newest(events: seq<Event>): seq<Event> {
    S.Items(S.SortDescending(Dated(events)))
  }

  function Limited(events: seq<Event>, limit: int): (r: seq<Event>) {
    var n := if limit < 1 then 1 else limit;
    if n < |events| then events[..n] else events
  }

  /** `query_events` for an authorized reader. */
  function Query(events: seq<Event>, reader: Reader, f: Filter): seq<Event> {
    Limited(Newest(Selection(events, reader, f)), f.limit)
  }

  function Count(events: seq<Event>, p: Event -> bool): nat {
    if events == [] then 0
    else
      var n := |events| - 1;
      Count(events[..n], p) + (if p(events[n]) then 1 else 0)
  }

  /** How many events have a value. */
  function CountOf<K(==)>(events: seq<Event>, of: Event -> K, k: K): nat {
    if events == [] then 0
    else
      var n := |events| - 1;
      CountOf(events[..n], of, k) + (if of(events[n]) == k then 1 else 0)
  }

  /** `counts.get(k, 0)` */
  function CountIn<K>(counts: map<K, nat>, k: K): nat {
    if k in counts then counts[k] else 0
  }

  /** The counts kept in a dictionary are those of the events, with a key for each value that occurs. */
  ghost predicate Counts<K(!new)>(counts: map<K, nat>, events: seq<Event>, of: Event -> K) {
    && (forall k :: CountIn(counts, k) == CountOf(events, of, k))
    && (forall k | k in counts :: counts[k] > 0)
  }

  datatype Summary = Summary(
    total: nat, byCategory: map<Category, nat>, bySeverity: map<Severity, nat>, byLifecycle: map<Lifecycle, nat>,
    failed: nat, degraded: nat, latest: Option<real>)

  predicate CountsAsFailed(e: Event) {
    e.lifecycle.FAILED? || e.outcome == "FAILURE"
  }

  predicate CountsAsDegraded(e: Event) {
    e.lifecycle.DEGRADED? || e.outcome == "DEGRADED"
  }

  const NO_FILTER := Filter(None, None, None, None, None, None, None, None, 1000)

  class Service {
    const maxEvents: nat
    const sanitize: string -> string
    var events: seq<Event>
    var failures: seq<Failure>
    /** Everything ever put into the two lists. */
    ghost var history: seq<Event>
    ghost var incidents: seq<Failure>

    /** The lists hold exactly the last entries of their histories, and every event after the two seeds is safe. */
    ghost predicate Valid()
      reads this
    {
      && maxEvents >= 100
      && events == LastN(history, maxEvents)
      && failures == LastN(incidents, MAX_FAILURES)
      && |history| >= 2 && (forall n | 2 <= n < |history| :: Safe(history[n], sanitize))
    }

    constructor (maxEvents: int, sanitize: string -> string, now: real, firstId: string, secondId: string)
      ensures Valid() && this.maxEvents == (if maxEvents < 100 then 100 else maxEvents) && this.sanitize == sanitize
      ensures history == Seed(now, firstId, secondId) && incidents == []
    {
      hide Seed; hide Safe;
      this.maxEvents := if maxEvents < 100 then 100 else maxEvents;
      this.sanitize := sanitize;
      events, failures := Seed(now, firstId, secondId), [];
      history, incidents := Seed(now, firstId, secondId), [];
    }

    /** `record_event`; an absent timestamp is the current time. */
    method RecordEvent(id: string, user: string, category: Category, eventType: string, lifecycle: Lifecycle,
                       action: string, outcome: string, severity: Severity, resource: Option<string>,
                       correlation: Option<string>, details: Option<string>, metadata: map<string, Json>,
                       timestamp: real)
      returns (event: Event)
      requires Valid()
      modifies this`events, this`history
      ensures Valid() && history == old(history) + [event]
      ensures event == Recorded(sanitize, id, user, category, eventType, lifecycle, action, outcome, severity, resource,
                                correlation, details, metadata, timestamp)
    {
      hide Safe; hide Recorded; hide LastN;
      RecordedIsSafe(sanitize, id, user, category, eventType, lifecycle, action, outcome, severity, resource,
                     correlation, details, metadata, timestamp);
      event := Recorded(sanitize, id, user, category, eventType, lifecycle, action, outcome, severity, resource,
                        correlation, details, metadata, timestamp);
      KeepEvent(event);
    }

    /** Appending an event and dropping the oldest beyond the bound. */
    method KeepEvent(event: Event)
      requires Valid() && Safe(event, sanitize)
      modifies this`events, this`history
      ensures Valid() && history == old(history) + [event]
    {
      hide Safe; hide LastN;
      LastOfAppended(history, event, maxEvents);
      SafeJoined(history, event, sanitize);
      events := events + [event];
      if |events| > maxEvents {
        events := events[1..];
      }
      history := history + [event];
    }

    /** `record_failure`, which also records an event. */
    method RecordFailure(id: string, eventId: string, component: string, errorType: string, message: string,
                         severity: Severity, retryable: bool, correlation: string, details: Option<string>,
                         user: string, now: real)
      returns (failure: Failure)
      requires Valid()
      modifies this`events, this`history, this`failures, this`incidents
      ensures Valid() && incidents == old(incidents) + [failure]
      ensures failure == Incident(sanitize, id, component, errorType, message, severity, retryable, correlation,
                                  details, user, now)
      ensures history == old(history) + [IncidentEvent(sanitize, eventId, failure)]
    {
      hide Safe; hide Recorded; hide OrElse; hide LastN;
      var cleanComponent := sanitize(OrElse(component, "UNKNOWN"));
      var cleanErrorType := sanitize(OrElse(errorType, "OPERATIONAL_ERROR"));
      var cleanMessage := sanitize(OrElse(message, "An error occurred."));
      var cleanDetails := if Given(details) then Some(sanitize(details.value)) else None;
      failure := Failure(id, now, correlation, cleanComponent, cleanErrorType, severity, retryable, cleanMessage,
                         cleanDetails, user);
      KeepFailure(failure);
      var event := RecordEvent(eventId, user, OPERATIONAL_SYSTEM, cleanErrorType, FAILED,
                               "OPERATIONAL_FAILURE_" + cleanComponent, "FAILURE", severity, Some(cleanComponent),
                               Some(correlation), Some(cleanMessage),
                               map["retryable" := Bool(retryable), "diagnostic" := TextOrNull(cleanDetails)], now);
    }

    /** Appending a failure and dropping the oldest beyond the bound. */
    method KeepFailure(failure: Failure)
      requires Valid()
      modifies this`failures, this`incidents
      ensures Valid() && incidents == old(incidents) + [failure]
    {
      hide Safe; hide LastN;
      LastOfAppended(incidents, failure, MAX_FAILURES);
      failures := failures + [failure];
      if |failures| > MAX_FAILURES {
        failures := failures[1..];
      }
      incidents := incidents + [failure];
    }

    /** `query_events` */
    method QueryEvents(reader: Reader, f: Filter) returns (found: seq<Event>)
      ensures found == Query(events, reader, f)
    {
      hide Matches;
      var result: seq<Event> := [];
      for n := 0 to |events|
        invariant result == Selection(events[..n], reader, f)
      {
        assert events[..n + 1][..n] == events[..n];
        var e := events[n];
        if !reader.admin && e.user != "system" && e.user != reader.id { continue; }
        if Given(f.user) && e.user != Strip(f.user.value) {
          if !reader.admin && Strip(f.user.value) != reader.id { continue; }
          if reader.admin { continue; }
        }
        if !Matches(f, e) { continue; }
        result := result + [e];
      }
      assert events[..|events|] == events;
      result := S.Items(S.SortDescending(Dated(result)));
      var limit := if f.limit < 1 then 1 else f.limit;
      found := if limit < |result| then result[..limit] else result;
    }

    /** `get_control_summary` */
    method GetControlSummary(reader: Reader) returns (summary: Summary)
      ensures Tallied(Query(events, reader, NO_FILTER), summary)
    {
      hide Query; hide Tallied;
      var found := QueryEvents(reader, NO_FILTER);
      var byCategory: map<Category, nat>, bySeverity: map<Severity, nat>, byLifecycle: map<Lifecycle, nat> :=
        map[], map[], map[];
      var failed, degraded := 0, 0;
      var latest: Option<real> := None;
      NothingTallied();
      for n := 0 to |found|
        invariant Tallied(found[..n], Summary(n, byCategory, bySeverity, byLifecycle, failed, degraded, latest))
      {
        assert found[..n + 1] == found[..n] + [found[n]];
        var e := found[n];
        TallyGrows(found[..n], Summary(n, byCategory, bySeverity, byLifecycle, failed, degraded, latest), e);
        byCategory := byCategory[e.category := CountIn(byCategory, e.category) + 1];
        bySeverity := bySeverity[e.severity := CountIn(bySeverity, e.severity) + 1];
        byLifecycle := byLifecycle[e.lifecycle := CountIn(byLifecycle, e.lifecycle) + 1];
        if e.lifecycle == FAILED || e.outcome == "FAILURE" {
          failed := failed + 1;
        }
        if e.lifecycle == DEGRADED || e.outcome == "DEGRADED" {
          degraded := degraded + 1;
        }
        if latest.None? || e.timestamp > latest.value {
          latest := Some(e.timestamp);
        }
      }
      assert found[..|found|] == found;
      summary := Summary(|found|, byCategory, bySeverity, byLifecycle, failed, degraded, latest);
    }
  }

  /** The summary's figures are those of the events. */
  ghost predicate Tallied(found: seq<Event>, summary: Summary) {
    && summary.total == |found|
    && Counts(summary.byCategory, found, (e: Event) => e.category)
    && Counts(summary.bySeverity, found, (e: Event) => e.severity)
    && Counts(summary.byLifecycle, found, (e: Event) => e.lifecycle)
    && summary.failed == Count(found, (e: Event) => e.lifecycle == FAILED || e.outcome == "FAILURE")
    && summary.degraded == Count(found, (e: Event) => e.lifecycle == DEGRADED || e.outcome == "DEGRADED")
    && LatestOf(found, summary.latest)
  }

  function Tally(s: Summary, e: Event): Summary {
    Summary(s.total + 1, s.byCategory[e.category := CountIn(s.byCategory, e.category) + 1],
            s.bySeverity[e.severity := CountIn(s.bySeverity, e.severity) + 1],
            s.byLifecycle[e.lifecycle := CountIn(s.byLifecycle, e.lifecycle) + 1],
            if CountsAsFailed(e) then s.failed + 1 else s.failed,
            if CountsAsDegraded(e) then s.degraded + 1 else s.degraded,
            if s.latest.None? || e.timestamp > s.latest.value then Some(e.timestamp) else s.latest)
  }

  lemma NothingTallied()
    ensures Tallied([], Summary(0, map[], map[], map[], 0, 0, None))
  {
  }

  lemma TallyGrows(found: seq<Event>, s: Summary, e: Event)
    requires Tallied(found, s)
    ensures Tallied(found + [e], Tally(s, e))
  {
    hide Counts; hide LatestOf;
    CountGrows(s.byCategory, found, (x: Event) => x.category, e);
    CountGrows(s.bySeverity, found, (x: Event) => x.severity, e);
    CountGrows(s.byLifecycle, found, (x: Event) => x.lifecycle, e);
    LatestGrows(found, s.latest, e);
    assert (found + [e])[..|found|] == found;
  }

  /** The two events a new service starts with. */
  function Seed(now: real, firstId: string, secondId: string): (r: seq<Event>)
    ensures |r| == 2
  {
    [ Event(firstId, now - 300.0, "system", OPERATIONAL_SYSTEM, "SYSTEM_INITIALIZED", COMPLETED, "INITIALIZE_PLATFORM",
            "SUCCESS", INFO, Some("platform_core"), Some("sys-init-001"),
            Some("Platform operational control plane initialized safely."),
            map["version" := Str("1.0.0"), "status" := Str("HEALTHY")]),
      Event(secondId, now - 200.0, "system", PROVIDER_HEALTH, "PROVIDER_CHECK", COMPLETED, "CHECK_READINESS",
            "SUCCESS", INFO, Some("project1_lab_adapter"), Some("sys-prov-002"),
            Some("Lab artifact provider adapter verified and online."),
            map["provider" := Str("Project1LabArtifactAdapter"), "status" := Str("READY")]) ]
  }

  function TextOrNull(text: Option<string>): Json {
    match text case None => Null case Some(t) => Str(t)
  }

  /** `text or default` */
  function OrElse(text: string, default: string): string {
    if text == "" then default else text
  }

  const PROTECTED_KEYS: set<string> :=
    {"indicator_logic", "strategy_params", "sensitive_parameters", "lab_secrets", "secrets"}

  /** The metadata that is recorded: sanitised, and without the protected keys. */
  function Exposed(metadata: map<string, Json>, filter: string -> string): map<string, Json> {
    var clean := SanitizeData(Obj(metadata), filter).entries;
    map k | k in clean && Lower(k) !in PROTECTED_KEYS :: clean[k]
  }

  /** No protected key, sensitive keys redacted at any depth, and every other text filtered. */
  ghost predicate Safe(e: Event, filter: string -> string) {
    && (forall k | k in e.metadata :: Lower(k) !in PROTECTED_KEYS)
    && Scrubbed(Obj(e.metadata), filter)
    && (exists t :: e.action == filter(t)) && (exists t :: e.outcome == filter(t))
    && (e.details.Some? ==> exists t :: e.details.value == filter(t))
  }

  /** The protected keys, in any case. */
  lemma ProtectedWords(key: string)
    ensures Lower(key) in PROTECTED_KEYS <==>
      || Lower(key) == "indicator_logic" || Lower(key) == "strategy_params" || Lower(key) == "sensitive_parameters"
      || Lower(key) == "lab_secrets" || Lower(key) == "secrets"
  {
  }

  /** What a failure is recorded as: texts sanitised, and stand-ins for those that are empty. */
  function Incident(sanitize: string -> string, id: string, component: string, errorType: string, message: string,
                    severity: Severity, retryable: bool, correlation: string, details: Option<string>, user: string,
                    now: real): Failure
  {
    Failure(id, now, correlation, sanitize(OrElse(component, "UNKNOWN")),
            sanitize(OrElse(errorType, "OPERATIONAL_ERROR")), severity, retryable,
            sanitize(OrElse(message, "An error occurred.")),
            if Given(details) then Some(sanitize(details.value)) else None, user)
  }

  /** The event recorded of a failure. */
  function IncidentEvent(sanitize: string -> string, id: string, f: Failure): Event {
    Recorded(sanitize, id, f.user, OPERATIONAL_SYSTEM, f.errorType, FAILED, "OPERATIONAL_FAILURE_" + f.component,
             "FAILURE", f.severity, Some(f.component), Some(f.correlation), Some(f.message),
             map["retryable" := Bool(f.retryable), "diagnostic" := TextOrNull(f.details)], f.timestamp)
  }

  /** An event carries what it was recorded with, each in its place: owner stripped, texts sanitised. */
  lemma RecordedMeaning(sanitize: string -> string, id: string, user: string, category: Category, eventType: string,
                        lifecycle: Lifecycle, action: string, outcome: string, severity: Severity,
                        resource: Option<string>, correlation: Option<string>, details: Option<string>,
                        metadata: map<string, Json>, timestamp: real)
    ensures var e := Recorded(sanitize, id, user, category, eventType, lifecycle, action, outcome, severity, resource,
                              correlation, details, metadata, timestamp);
      && e.id == id && e.timestamp == timestamp && e.user == Strip(if user == "" then "anonymous" else user)
      && e.category == category && e.eventType == Upper(eventType) && e.lifecycle == lifecycle
      && e.action == sanitize(if action == "" then "UNKNOWN" else action)
      && e.outcome == sanitize(if outcome == "" then "UNKNOWN" else outcome)
      && e.severity == severity && e.resource == resource && e.correlation == correlation
      && e.details == (if details.Some? && details.value != "" then Some(sanitize(details.value)) else None)
  {
    hide Upper; hide Strip; hide Exposed;
  }

  /** A failure and its event carry what was reported. */
  lemma IncidentMeaning(sanitize: string -> string, id: string, eventId: string, component: string, errorType: string,
                        message: string, severity: Severity, retryable: bool, correlation: string,
                        details: Option<string>, user: string, now: real)
    ensures var f := Incident(sanitize, id, component, errorType, message, severity, retryable, correlation, details,
                              user, now);
      var e := IncidentEvent(sanitize, eventId, f);
      && f.id == id && f.timestamp == now && f.correlation == correlation && f.user == user && f.severity == severity
      && f.retryable == retryable && f.component == sanitize(if component == "" then "UNKNOWN" else component)
      && f.errorType == sanitize(if errorType == "" then "OPERATIONAL_ERROR" else errorType)
      && f.message == sanitize(if message == "" then "An error occurred." else message)
      && f.details == (if details.Some? && details.value != "" then Some(sanitize(details.value)) else None)
      && e.id == eventId && e.timestamp == now && e.category == OPERATIONAL_SYSTEM && e.lifecycle == FAILED
      && e.severity == severity && e.eventType == Upper(f.errorType)
      && e.action == sanitize("OPERATIONAL_FAILURE_" + f.component) && e.outcome == sanitize("FAILURE")
      && e.resource == Some(f.component) && e.correlation == Some(correlation)
      && e.user == Strip(if user == "" then "anonymous" else user)
  {
    hide Upper; hide Strip; hide Exposed;
  }

  lemma RecordedIsSafe(filter: string -> string, id: string, user: string, category: Category, eventType: string,
                       lifecycle: Lifecycle, action: string, outcome: string, severity: Severity,
                       resource: Option<string>, correlation: Option<string>, details: Option<string>,
                       metadata: map<string, Json>, timestamp: real)
    ensures Safe(Recorded(filter, id, user, category, eventType, lifecycle, action, outcome, severity, resource,
                          correlation, details, metadata, timestamp), filter)
  {
    hide Upper; hide Strip; hide Exposed; hide Scrubbed;
    ExposedIsScrubbed(metadata, filter);
    var e := Recorded(filter, id, user, category, eventType, lifecycle, action, outcome, severity, resource,
                      correlation, details, metadata, timestamp);
    assert e.action == filter(OrElse(action, "UNKNOWN")) && e.outcome == filter(OrElse(outcome, "UNKNOWN"));
  }

  lemma ExposedIsScrubbed(metadata: map<string, Json>, filter: string -> string)
    ensures Scrubbed(Obj(Exposed(metadata, filter)), filter)
    ensures forall k | k in Exposed(metadata, filter) :: Lower(k) !in PROTECTED_KEYS
  {
    hide Sensitive; hide Lower;
    SanitizedIsScrubbed(Obj(metadata), filter);
    var clean, exposed := SanitizeData(Obj(metadata), filter), Exposed(metadata, filter);
    assert clean.Obj? && Scrubbed(clean, filter);
    assert forall k | k in exposed :: k in clean.entries && exposed[k] == clean.entries[k];
  }

  /** The event that is recorded: owner trimmed, texts and metadata sanitised. */
  function Recorded(sanitize: string -> string, id: string, user: string, category: Category, eventType: string,
                    lifecycle: Lifecycle, action: string, outcome: string, severity: Severity, resource: Option<string>,
                    correlation: Option<string>, details: Option<string>, metadata: map<string, Json>,
                    timestamp: real): Event
  {
    Event(id, timestamp, Strip(OrElse(user, "anonymous")), category, Upper(eventType), lifecycle,
          sanitize(OrElse(action, "UNKNOWN")), sanitize(OrElse(outcome, "UNKNOWN")), severity, resource, correlation,
          if Given(details) then Some(sanitize(details.value)) else None, Exposed(metadata, sanitize))
  }

  ghost predicate LatestOf(events: seq<Event>, latest: Option<real>) {
    && (latest.None? <==> events == [])
    && (latest.Some? ==>
          && (exists e :: e in events && e.timestamp == latest.value)
          && forall e | e in events :: e.timestamp <= latest.value)
  }

  lemma LatestGrows(events: seq<Event>, latest: Option<real>, e: Event)
    requires LatestOf(events, latest)
    ensures LatestOf(events + [e], if latest.None? || e.timestamp > latest.value then Some(e.timestamp) else latest)
  {
    assert e in events + [e];
    if latest.Some? {
      var x :| x in events && x.timestamp == latest.value;
      assert x in events + [e];
    }
  }

  lemma CountGrows<K(!new)>(counts: map<K, nat>, events: seq<Event>, of: Event -> K, e: Event)
    requires Counts(counts, events, of)
    ensures Counts(counts[of(e) := CountIn(counts, of(e)) + 1], events + [e], of)
  {
    var grown := counts[of(e) := CountIn(counts, of(e)) + 1];
    assert (events + [e])[..|events|] == events;
    forall k
      ensures CountIn(grown, k) == CountOf(events + [e], of, k)
    {
      assert CountIn(counts, k) == CountOf(events, of, k);
    }
  }

  /** The sum of a dictionary's values over a list of keys. */
  function Total<K>(counts: map<K, nat>, ks: seq<K>): nat {
    if ks == [] then 0 else CountIn(counts, ks[0]) + Total(counts, ks[1..])
  }

  /** The keys of a dictionary, each once. */
  ghost predicate Enumerates<K(!new)>(ks: seq<K>, counts: map<K, nat>) {
    (forall i, j | 0 <= i < j < |ks| :: ks[i] != ks[j]) && forall k :: k in ks <==> k in counts
  }

  function CountOver<K(==)>(events: seq<Event>, of: Event -> K, ks: seq<K>): nat {
    if ks == [] then 0 else CountOf(events, of, ks[0]) + CountOver(events, of, ks[1..])
  }

  function Occurrences<K(==)>(ks: seq<K>, k: K): nat {
    if ks == [] then 0 else (if ks[0] == k then 1 else 0) + Occurrences(ks[1..], k)
  }

  lemma {:induction false} CountOverStep<K(!new)>(events: seq<Event>, of: Event -> K, ks: seq<K>)
    requires events != []
    ensures var n := |events| - 1;
      CountOver(events, of, ks) == CountOver(events[..n], of, ks) + Occurrences(ks, of(events[n]))
  {
    if ks != [] { CountOverStep(events, of, ks[1..]); }
  }

  lemma {:induction false} CountOverNothing<K(!new)>(of: Event -> K, ks: seq<K>)
    ensures CountOver([], of, ks) == 0
  {
    if ks != [] { CountOverNothing(of, ks[1..]); }
  }

  lemma {:induction false} OccursOnce<K(!new)>(ks: seq<K>, k: K)
    requires forall i, j | 0 <= i < j < |ks| :: ks[i] != ks[j]
    ensures Occurrences(ks, k) == if k in ks then 1 else 0
  {
    if ks != [] {
      OccursOnce(ks[1..], k);
      assert ks == [ks[0]] + ks[1..];
      if k in ks[1..] { var i :| 0 <= i < |ks[1..]| && ks[1..][i] == k; assert ks[i + 1] == k; }
    }
  }

  lemma {:induction false} AllCounted<K(!new)>(events: seq<Event>, of: Event -> K, ks: seq<K>)
    requires forall i, j | 0 <= i < j < |ks| :: ks[i] != ks[j]
    requires forall e | e in events :: of(e) in ks
    ensures CountOver(events, of, ks) == |events|
  {
    if events == [] {
      CountOverNothing(of, ks);
    } else {
      var n := |events| - 1;
      AllCounted(events[..n], of, ks);
      CountOverStep(events, of, ks);
      OccursOnce(ks, of(events[n]));
      assert events[n] in events;
    }
  }

  lemma {:induction false} Occurring<K(!new)>(events: seq<Event>, of: Event -> K, e: Event)
    requires e in events
    ensures CountOf(events, of, of(e)) > 0
  {
    var n := |events| - 1;
    if events[n] != e {
      assert events == events[..n] + [events[n]];
      Occurring(events[..n], of, e);
    }
  }

  lemma {:induction false} TotalIsCount<K(!new)>(counts: map<K, nat>, events: seq<Event>, of: Event -> K, ks: seq<K>)
    requires Counts(counts, events, of)
    ensures Total(counts, ks) == CountOver(events, of, ks)
  {
    if ks != [] { TotalIsCount(counts, events, of, ks[1..]); }
  }

  /** The values of a dictionary of counts add up to the number of events. */
  lemma CountsAddUp<K(!new)>(counts: map<K, nat>, events: seq<Event>, of: Event -> K, ks: seq<K>)
    requires Counts(counts, events, of) && Enumerates(ks, counts)
    ensures Total(counts, ks) == |events|
  {
    TotalIsCount(counts, events, of, ks);
    forall e | e in events
      ensures of(e) in ks
    {
      Occurring(events, of, e);
      assert CountIn(counts, of(e)) > 0;
    }
    AllCounted(events, of, ks);
  }

  /** The summary's counts by category, by severity and by lifecycle state each add up to its total. */
  lemma SummaryAddsUp(found: seq<Event>, s: Summary, cs: seq<Category>, ss: seq<Severity>, ls: seq<Lifecycle>)
    requires Tallied(found, s)
    requires Enumerates(cs, s.byCategory) && Enumerates(ss, s.bySeverity) && Enumerates(ls, s.byLifecycle)
    ensures Total(s.byCategory, cs) == Total(s.bySeverity, ss) == Total(s.byLifecycle, ls) == s.total
  {
    CountsAddUp(s.byCategory, found, (e: Event) => e.category, cs);
    CountsAddUp(s.bySeverity, found, (e: Event) => e.severity, ss);
    CountsAddUp(s.byLifecycle, found, (e: Event) => e.lifecycle, ls);
  }

  lemma {:induction false} SelectionMembers(events: seq<Event>, reader: Reader, f: Filter)
    ensures forall e :: e in Selection(events, reader, f) <==> e in events && Selected(reader, f, e)
  {
    hide Selected;
    if events != [] {
      var n := |events| - 1;
      SelectionMembers(events[..n], reader, f);
      assert events == events[..n] + [events[n]];
    }
  }

  predicate Wanted<T(==)>(filter: Option<T>, value: T) {
    filter.Some? ==> value == filter.value
  }

  /** A query selects what the reader may see and asks for: his own and the system's events unless he is an
      administrator, of the owner, category, state, severity, outcome, correlation and times given. */
  lemma SelectedExactly(reader: Reader, f: Filter, e: Event)
    ensures Selected(reader, f, e) <==>
      && (reader.admin || e.user == "system" || e.user == reader.id)
      && (f.user.Some? && f.user.value != "" ==>
            e.user == Strip(f.user.value) || (!reader.admin && Strip(f.user.value) == reader.id))
      && Wanted(f.category, e.category) && Wanted(f.lifecycle, e.lifecycle) && Wanted(f.severity, e.severity)
      && (f.outcome.Some? && f.outcome.value != "" ==> Upper(e.outcome) == Upper(Strip(f.outcome.value)))
      && (f.correlation.Some? && f.correlation.value != "" ==> e.correlation == Some(Strip(f.correlation.value)))
      && (f.startTime.Some? ==> f.startTime.value <= e.timestamp)
      && (f.endTime.Some? ==> e.timestamp <= f.endTime.value)
  {
    hide Upper; hide Strip;
  }

  /** A query is a prefix, as long as the limit allows, of the selected events put newest first with equal times in
      recorded order; and it shows a reader who is not an administrator his own and the system's events only. */
  lemma QueryMeaning(events: seq<Event>, reader: Reader, f: Filter)
    ensures var all, found := Newest(Selection(events, reader, f)), Query(events, reader, f);
      && S.StablySorts(Dated(Selection(events, reader, f)), Dated(all))
      && found == all[..|found|]
      && |found| == (var n := if f.limit < 1 then 1 else f.limit; if n < |all| then n else |all|)
      && |all| == |Selection(events, reader, f)|
      && forall e | e in found :: e in events && Selected(reader, f, e) && Visible(reader, e.user)
  {
    hide Selected;
    var chosen := Selection(events, reader, f);
    var s := S.SortDescending(Dated(chosen));
    S.SortIsStable(Dated(chosen));
    assert |s| == |chosen| by { assert |multiset(s)| == |s|; assert |multiset(Dated(chosen))| == |Dated(chosen)|; }
    SelectionMembers(events, reader, f);
    forall n | 0 <= n < |s|
      ensures s[n].item in chosen && s[n] == S.Keyed(S.At(s[n].item.timestamp), s[n].item)
    {
      assert s[n] in multiset(s);
      var m :| 0 <= m < |chosen| && Dated(chosen)[m] == s[n];
    }
    assert Dated(S.Items(s)) == s;
    SelectedIsVisible(reader, f);
  }

  lemma SelectedIsVisible(reader: Reader, f: Filter)
    ensures forall e | Selected(reader, f, e) :: Visible(reader, e.user)
  {
  }

  /** Filtering by oneself does not narrow what a reader who is not an administrator sees: the system's events stay.
      Filtering by another user leaves an administrator that user's events and anyone else at most the system's. */
  lemma UserFilterMeaning(reader: Reader, f: Filter, e: Event)
    requires Given(f.user) && Trimmed(f.user.value)
    ensures !reader.admin && f.user.value == reader.id ==>
      (Selected(reader, f, e) <==> Selected(reader, f.(user := None), e))
    ensures !reader.admin && f.user.value != reader.id && Selected(reader, f, e) ==> e.user == "system"
    ensures reader.admin ==> (Selected(reader, f, e) <==> e.user == f.user.value && Matches(f, e))
  {
    hide Matches;
    assert Matches(f, e) == Matches(f.(user := None), e) by { MatchesIgnoresUser(f, e); }
  }

  lemma MatchesIgnoresUser(f: Filter, e: Event)
    ensures Matches(f, e) <==> Matches(f.(user := None), e)
  {
  }

  /** Appending and dropping the oldest keeps the last n: the log after any number of recordings is the last of all that
      was ever recorded. */
  lemma {:induction false} RecordingKeepsLast<T>(seed: seq<T>, recorded: seq<T>, n: nat)
    requires n > 0
    ensures Recordings(LastN(seed, n), recorded, n) == LastN(seed + recorded, n)
    decreases recorded
  {
    hide LastN; hide Recordings;
    RecordingsStep(LastN(seed, n), recorded, n);
    if recorded == [] {
      assert seed + recorded == seed;
    } else {
      var k := |recorded| - 1;
      RecordingKeepsLast(seed, recorded[..k], n);
      LastOfAppended(seed + recorded[..k], recorded[k], n);
      assert seed + recorded == (seed + recorded[..k]) + [recorded[k]];
    }
  }

  lemma RecordingsStep<T>(log: seq<T>, recorded: seq<T>, n: nat)
    ensures recorded == [] ==> Recordings(log, recorded, n) == log
    ensures recorded != [] ==>
      var k := |recorded| - 1;
      var grown := Recordings(log, recorded[..k], n) + [recorded[k]];
      Recordings(log, recorded, n) == if |grown| > n then grown[1..] else grown
  {
  }

  lemma SafeJoined(events: seq<Event>, event: Event, filter: string -> string)
    requires Safe(event, filter) && forall n | 2 <= n < |events| :: Safe(events[n], filter)
    ensures forall n | 2 <= n < |events + [event]| :: Safe((events + [event])[n], filter)
  {
    hide Safe;
  }

  lemma LastOfAppended<T>(s: seq<T>, x: T, n: nat)
    requires n > 0
    ensures var grown := LastN(s, n) + [x];
      LastN(s + [x], n) == if |grown| > n then grown[1..] else grown
  {
  }

  /** Appending one element after another, dropping the oldest whenever there are more than n. */
  function Recordings<T>(log: seq<T>, recorded: seq<T>, n: nat): seq<T>
    decreases recorded
  {
    if recorded == [] then log
    else
      var k := |recorded| - 1;
      var grown := Recordings(log, recorded[..k], n) + [recorded[k]];
      if |grown| > n then grown[1..] else grown
  }
}
