/** The execution gateway service. Every method is specified by a function of the gateway's state and the order intent
    service's state; the port's answer and the external evidence are inputs. */
module ExecutionGatewayService {
  import opened Values
  import opened Text
  import opened OrderIntents
  import OrderShelf
  import B = OrderBook
  import L = OrderListing
  import S = OrderIntentService
  import opened ExecutionBoundary
  import opened ExecutionRuns

  /** How many of the intents have a given reconciliation status; one never reconciled counts as not configured. */
  function CountOf(intents: seq<Intent>, records: map<string, Reconciliation>, status: Reconciliation): nat {
    if intents == [] then 0
    else
      var n := |intents| - 1;
      CountOf(intents[..n], records, status) + (if StatusOf(records, intents[n].id) == status then 1 else 0)
  }

  function StatusOf(records: map<string, Reconciliation>, id: string): Reconciliation {
    if id in records then records[id] else NOT_CONFIGURED
  }

  /** The attempts logged for a list of intents. */
  function AttemptsOf(intents: seq<Intent>, attempts: seq<Attempts>): nat {
    if intents == [] then 0
    else
      var n := |intents| - 1;
      AttemptsOf(intents[..n], attempts) + |LoggedFor(attempts, intents[n].id)|
  }

  datatype Summary = Summary(monitored: nat, attempts: nat, counts: map<Reconciliation, nat>)

  /** The counts of a summary by status, where a missing entry is zero. */
  function CountIn(counts: map<Reconciliation, nat>, status: Reconciliation): nat {
    if status in counts then counts[status] else 0
  }

  class Gateway {
    const orders: S.Service
    var attemptsByOrderId: seq<Attempts>
    var idempotencyMap: map<(string, string), Result>
    var reconciliationsByOrderId: map<string, Reconciliation>
    ghost var calls: seq<Submission>

    ghost function State(): ExecutionBoundary.Gateway
      reads this
    {
      ExecutionBoundary.Gateway(attemptsByOrderId, idempotencyMap, calls)
    }

    constructor (orders: S.Service)
      ensures this.orders == orders && State() == FRESH_GATEWAY && reconciliationsByOrderId == map[]
    {
      this.orders := orders;
      attemptsByOrderId, idempotencyMap, reconciliationsByOrderId, calls := [], map[], map[], [];
    }

    /** `request_execution` */
    method RequestExecution(q: Request, answer: Answer) returns (reply: Reply)
      modifies this
      ensures Outcome(State(), reply) == Execute(old(State()), orders.State(), q, answer)
      ensures reconciliationsByOrderId == old(reconciliationsByOrderId)
    {
      hide CommandFor; hide RejectedFor; hide Log; hide B.Get;
      var shown := if q.intentId == "" then "unknown" else q.intentId;
      if q.user.None? {
        return RejectedFor("anonymous", shown, REJECTED_UNAUTHORIZED);
      }
      var user := q.user.value;
      if !q.mayUpdate {
        return RejectedFor(user.id, shown, REJECTED_UNAUTHORIZED);
      }
      var found: Option<Intent> := None;
      if q.mayRead {
        found := orders.GetOrderIntent(user, q.intentId);
      }
      if found.None? {
        return RejectedFor(user.id, q.intentId, REJECTED_INVALID_STATE);
      }
      if !found.value.state.STAGED? {
        return RejectedFor(user.id, q.intentId, REJECTED_INVALID_STATE);
      }
      var command := CommandFor(found.value, q.commandId, q.timestamp);
      if command.None? {
        return RejectedFor(user.id, q.intentId, REJECTED_INVALID_STATE);
      }
      var pair := (user.id, command.value.key);
      if pair in idempotencyMap {
        return Replied(idempotencyMap[pair]);
      }
      var result :=
        match answer
        case Answered(r) => r
        case Threw => Result(false, Strip(user.id), Strip(q.intentId), FAILED_AT_BOUNDARY, false);
      idempotencyMap := idempotencyMap[pair := result];
      attemptsByOrderId := Log(attemptsByOrderId, q.intentId, result);
      calls := calls + [Submission(user, q.intentId, command.value, answer, result)];
      return Replied(result);
    }

    /** `get_execution_attempts`; None is a refusal. */
    method GetExecutionAttempts(user: Option<B.User>, mayRead: bool, id: string) returns (attempts: Option<seq<Result>>)
      ensures attempts.Some? <==> user.Some? && mayRead && B.Get(orders.State(), user.value, Strip(id)).Some?
      ensures attempts.Some? ==> attempts.value == LoggedFor(attemptsByOrderId, Strip(id))
    {
      hide B.Get; hide Strip;
      if user.None? || !mayRead {
        return None;
      }
      var clean := Strip(id);
      BlankIsHidden(orders.State(), user.value, clean);
      if clean == "" {
        return None;
      }
      var found := orders.GetOrderIntent(user.value, clean);
      if found.None? {
        return None;
      }
      return Some(LoggedFor(attemptsByOrderId, clean));
    }

    /** `reconcile_execution`; None is a refusal, and nothing is recorded then. */
    method ReconcileExecution(user: Option<B.User>, mayRead: bool, id: string, evidence: Evidence)
      returns (status: Option<Reconciliation>)
      modifies this`reconciliationsByOrderId
      ensures status.Some? <==> user.Some? && mayRead && B.Get(orders.State(), user.value, Strip(id)).Some?
      ensures status.Some? ==>
        status.value == Reconciled(B.Get(orders.State(), user.value, Strip(id)).value, evidence)
      ensures status.Some? ==>
        var intent := B.Get(orders.State(), user.value, Strip(id)).value;
        && (status.value.NOT_CONFIGURED? <==> !evidence.configured)
        && (status.value.NO_EXTERNAL_EVIDENCE? <==> evidence.configured && !evidence.found)
        && (status.value.MATCHED? <==>
              evidence.configured && evidence.found && evidence.state == Some(StateName(intent.state)))
        && !status.value.UNAVAILABLE?
      ensures reconciliationsByOrderId ==
              if status.Some? then old(reconciliationsByOrderId)[Strip(id) := status.value]
              else old(reconciliationsByOrderId)
    {
      hide B.Get; hide Strip;
      if user.None? || !mayRead {
        return None;
      }
      var clean := Strip(id);
      BlankIsHidden(orders.State(), user.value, clean);
      if clean == "" {
        return None;
      }
      var found := orders.GetOrderIntent(user.value, clean);
      if found.None? {
        return None;
      }
      var outcome: Reconciliation;
      if !evidence.configured {
        outcome := NOT_CONFIGURED;
      } else if !evidence.found {
        outcome := NO_EXTERNAL_EVIDENCE;
      } else if evidence.state == Some(StateName(found.value.state)) {
        outcome := MATCHED;
      } else {
        outcome := DISCREPANCY;
      }
      reconciliationsByOrderId := reconciliationsByOrderId[clean := outcome];
      return Some(outcome);
    }

    /** `get_execution_monitoring_summary`; None is the answer to an unauthenticated caller. */
    method GetExecutionMonitoringSummary(user: Option<B.User>, mayRead: bool) returns (summary: Option<Summary>)
      ensures summary.Some? <==> user.Some?
      ensures summary.Some? ==>
        var listed := L.ListFor(orders.State(), user, mayRead, None, None);
        var intents := if listed.Some? then listed.value else [];
        && summary.value.monitored == |intents|
        && summary.value.attempts == AttemptsOf(intents, attemptsByOrderId)
        && forall status ::
             CountIn(summary.value.counts, status) == CountOf(intents, reconciliationsByOrderId, status)
    {
      hide L.ListFor;
      if user.None? {
        return None;
      }
      var listed := orders.ListOrderIntents(user, mayRead, None, None);
      if listed.None? || listed.value == [] {
        return Some(Summary(0, 0, map[NOT_CONFIGURED := 0]));
      }
      var intents := listed.value;
      var total := 0;
      var counts: map<Reconciliation, nat> :=
        map[NOT_CONFIGURED := 0, NO_EXTERNAL_EVIDENCE := 0, MATCHED := 0, DISCREPANCY := 0, UNAVAILABLE := 0];
      forall status: Reconciliation
        ensures status in counts && counts[status] == 0
      {
        match status
        case NOT_CONFIGURED => case NO_EXTERNAL_EVIDENCE => case MATCHED => case DISCREPANCY => case UNAVAILABLE =>
      }
      for n := 0 to |intents|
        invariant total == AttemptsOf(intents[..n], attemptsByOrderId)
        invariant forall status ::
          status in counts && counts[status] == CountOf(intents[..n], reconciliationsByOrderId, status)
      {
        assert intents[..n + 1][..n] == intents[..n];
        var id := intents[n].id;
        total := total + |LoggedFor(attemptsByOrderId, id)|;
        var status := if id in reconciliationsByOrderId then reconciliationsByOrderId[id] else NOT_CONFIGURED;
        counts := counts[status := counts[status] + 1];
      }
      assert intents[..|intents|] == intents;
      return Some(Summary(|intents|, total, counts));
    }
  }

  lemma BlankIsHidden(b: B.Book, user: B.User, clean: string)
    ensures clean == "" ==> B.Get(b, user, clean).None?
  {
  }

  /** The summary counts every monitored intent under exactly one status. */
  lemma {:induction false} CountsAddUp(intents: seq<Intent>, records: map<string, Reconciliation>)
    ensures CountOf(intents, records, NOT_CONFIGURED) + CountOf(intents, records, NO_EXTERNAL_EVIDENCE)
            + CountOf(intents, records, MATCHED) + CountOf(intents, records, DISCREPANCY)
            + CountOf(intents, records, UNAVAILABLE) == |intents|
  {
    if intents != [] { CountsAddUp(intents[..|intents| - 1], records); }
  }

  /** The results of the calls made for an intent, whatever spaces surrounded its id in the request. */
  function ResultsMade(calls: seq<Submission>, id: string): seq<Result> {
    if calls == [] then []
    else
      var n := |calls| - 1;
      var init := ResultsMade(calls[..n], id);
      if Strip(calls[n].asked) == id then init + [calls[n].result] else init
  }

  /** Attempts are logged under the id as it was asked for and looked up under the stripped one: all attempts on an
      intent are shown exactly when none was asked for with surrounding spaces. */
  lemma AttemptsAreShown(g: ExecutionBoundary.Gateway, id: string)
    requires Accounted(g) && Trimmed(id)
    ensures LoggedFor(g.attempts, id) == ResultsMade(g.calls, id)
            <==> forall n | 0 <= n < |g.calls| && Strip(g.calls[n].asked) == id :: g.calls[n].asked == id
  {
    assert LoggedFor(g.attempts, id) == ResultsFor(g.calls, id);
    ShownCount(g.calls, id);
  }

  lemma {:induction false} ShownCount(calls: seq<Submission>, id: string)
    requires Trimmed(id)
    ensures |ResultsFor(calls, id)| <= |ResultsMade(calls, id)|
    ensures (forall n | 0 <= n < |calls| && Strip(calls[n].asked) == id :: calls[n].asked == id)
            ==> ResultsFor(calls, id) == ResultsMade(calls, id)
    ensures (exists n :: 0 <= n < |calls| && Strip(calls[n].asked) == id && calls[n].asked != id)
            ==> |ResultsFor(calls, id)| < |ResultsMade(calls, id)|
  {
    hide Strip;
    if calls != [] {
      ShownCount(calls[..|calls| - 1], id);
    }
  }
}
