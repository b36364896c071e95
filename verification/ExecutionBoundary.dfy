/** The execution boundary: the command derived from an order intent, the cache in front of the port, the log of
    attempts, and reconciliation. */
module ExecutionBoundary {
  import opened Values
  import opened Text
  import opened OrderIntents
  import opened OrderShelf
  import B = OrderBook

  datatype Status =
    | UNCONFIGURED | REJECTED_UNAUTHORIZED | REJECTED_UNAVAILABLE | REJECTED_INVALID_STATE
    | ACCEPTED_AT_BOUNDARY | FAILED_AT_BOUNDARY | SUBMITTED_TO_PORT

  /** An attempt's result, without its texts and its timestamp. */
  datatype Result = Result(success: bool, user: string, intentId: string, status: Status, executed: bool)

  datatype Command = Command(
    id: string, intentId: string, authorization: string, user: string, symbol: string, direction: string, key: string,
    timestamp: real, orderType: string, terms: Terms, timeInForce: Option<string>)

  /** The command's constructor accepts the arguments. */
  predicate CommandAcceptable(c: Command) {
    && !Blank(c.id) && !Blank(c.intentId) && !Blank(c.authorization) && !Blank(c.user) && !Blank(c.symbol)
    && Lower(Strip(c.direction)) in ["buy", "sell"] && !Blank(c.key) && c.timestamp >= 0.0 && !Blank(c.orderType)
    && TermsPositive(c.terms) && Filled(c.timeInForce)
  }

  function CommandNormalised(c: Command): Command {
    Command(Strip(c.id), Strip(c.intentId), Strip(c.authorization), Strip(c.user), Upper(Strip(c.symbol)),
            Lower(Strip(c.direction)), Strip(c.key), c.timestamp, Lower(Strip(c.orderType)), c.terms,
            match c.timeInForce case None => None case Some(t) => Some(Upper(Strip(t))))
  }

  function CommandId(i: Intent, id: Option<string>): string {
    if id.Some? && !Blank(id.value) then id.value else "cmd_" + i.id
  }

  /** `ExecutionRequestCommand.from_order_intent`; None is ValueError. */
  function CommandFor(i: Intent, id: Option<string>, timestamp: real): Option<Command> {
    if !i.state.STAGED? || i.authorization.None? then None
    else
      var raw := Command(CommandId(i, id), i.id, i.authorization.value, i.user, i.symbol, i.direction, "exec_" + i.key,
                         timestamp, i.orderType, i.terms, i.timeInForce);
      if CommandAcceptable(raw) then Some(CommandNormalised(raw)) else None
  }

  lemma PrefixedIsTrimmed(prefix: string, s: string)
    requires prefix != "" && !IsSpace(prefix[0]) && Trimmed(s) && s != ""
    ensures Trimmed(prefix + s) && !Blank(prefix + s)
  {
    TrimmedEnds(s);
    TrimmedEnds(prefix + s);
  }

  lemma NormalTexts(i: Intent)
    requires Normal(i)
    ensures Trimmed(i.id) && i.id != "" && Trimmed(i.user) && i.user != "" && Trimmed(i.key) && i.key != ""
    ensures Upper(Strip(i.symbol)) == i.symbol && !Blank(i.symbol) && Lower(Strip(i.direction)) == i.direction
    ensures Lower(Strip(i.orderType)) == i.orderType && !Blank(i.orderType)
    ensures i.authorization.Some? ==>
      Strip(i.authorization.value) == i.authorization.value && i.authorization.value != ""
  {
    hide StripLineage; hide LineageFilled; hide TermsPositive; hide Upper;
    var lower := Lower(Strip(i.orderType));
    assert |lower| > 0;
    assert |Strip(i.orderType)| == |lower|;
  }

  /** A command can be made exactly from a staged intent that has an authorization, at a time that is not negative; it
      then carries the intent's own terms, unchanged. */
  lemma CommandMeaning(i: Intent, id: Option<string>, timestamp: real)
    requires Normal(i)
    ensures CommandFor(i, id, timestamp).Some? <==> i.state.STAGED? && i.authorization.Some? && timestamp >= 0.0
    ensures CommandFor(i, id, timestamp).Some? ==>
      var c := CommandFor(i, id, timestamp).value;
      && c.intentId == i.id && c.user == i.user && c.symbol == i.symbol && c.direction == i.direction
      && c.orderType == i.orderType && c.terms == i.terms && c.timeInForce == i.timeInForce
      && c.id == (if id.Some? && !Blank(id.value) then Strip(id.value) else "cmd_" + i.id)
      && Some(c.authorization) == i.authorization && c.key == "exec_" + i.key && c.timestamp == timestamp
  {
    NormalTexts(i);
    PrefixedIsTrimmed("exec_", i.key);
    PrefixedIsTrimmed("cmd_", i.id);
    hide Upper; hide Lower; hide Strip;
  }

  /** What the port answers: a result, or an exception. */
  datatype Answer = Answered(result: Result) | Threw

  /** One call of the port: who asked, with which id, the command, what the port answered, and the result kept. */
  datatype Submission = Submission(requester: B.User, asked: string, command: Command, answer: Answer, result: Result)

  /** One entry of the attempt log. */
  datatype Attempts = Attempts(intentId: string, results: seq<Result>)

  /** The gateway's maps, and everything the port has been called with. */
  datatype Gateway = Gateway(attempts: seq<Attempts>, cache: map<(string, string), Result>, calls: seq<Submission>)

  const FRESH_GATEWAY := Gateway([], map[], [])

  /** `_attempts_by_order_id[id].append(result)` */
  function Log(attempts: seq<Attempts>, id: string, r: Result): seq<Attempts> {
    if attempts == [] then [Attempts(id, [r])]
    else if attempts[0].intentId == id then [Attempts(id, attempts[0].results + [r])] + attempts[1..]
    else [attempts[0]] + Log(attempts[1..], id, r)
  }

  function LoggedFor(attempts: seq<Attempts>, id: string): seq<Result> {
    if attempts == [] then []
    else if attempts[0].intentId == id then attempts[0].results
    else LoggedFor(attempts[1..], id)
  }

  function Total(attempts: seq<Attempts>): nat {
    if attempts == [] then 0 else |attempts[0].results| + Total(attempts[1..])
  }

  /** What a request to execute asks. */
  datatype Request = Request(user: Option<B.User>, mayUpdate: bool, mayRead: bool, intentId: string,
                             commandId: Option<string>, timestamp: real)

  datatype Reply = Replied(result: Result) | ValueError

  datatype Outcome = Outcome(gateway: Gateway, reply: Reply)

  function RejectedFor(user: string, intentId: string, status: Status): Reply {
    if Blank(user) || Blank(intentId) then ValueError
    else Replied(Result(false, Strip(user), Strip(intentId), status, false))
  }

  /** `request_execution` */
  function Execute(g: Gateway, b: B.Book, q: Request, answer: Answer): Outcome {
    var shown := if q.intentId == "" then "unknown" else q.intentId;
    if q.user.None? then Outcome(g, RejectedFor("anonymous", shown, REJECTED_UNAUTHORIZED))
    else if !q.mayUpdate then Outcome(g, RejectedFor(q.user.value.id, shown, REJECTED_UNAUTHORIZED))
    else
      var u := q.user.value;
      var found := if q.mayRead then B.Get(b, u, q.intentId) else None;
      if found.None? || !found.value.state.STAGED? then
        Outcome(g, RejectedFor(u.id, q.intentId, REJECTED_INVALID_STATE))
      else
        var made := CommandFor(found.value, q.commandId, q.timestamp);
        if made.None? then Outcome(g, RejectedFor(u.id, q.intentId, REJECTED_INVALID_STATE))
        else if (u.id, made.value.key) in g.cache then Outcome(g, Replied(g.cache[(u.id, made.value.key)]))
        else
          var r := match answer
            case Answered(result) => result
            case Threw => Result(false, Strip(u.id), Strip(q.intentId), FAILED_AT_BOUNDARY, false);
          Outcome(Gateway(Log(g.attempts, q.intentId, r), g.cache[(u.id, made.value.key) := r],
                          g.calls + [Submission(u, q.intentId, made.value, answer, r)]),
                  Replied(r))
  }

  datatype Reconciliation = NOT_CONFIGURED | NO_EXTERNAL_EVIDENCE | MATCHED | DISCREPANCY | UNAVAILABLE

  /** What the external provider reports; an exception reads as not configured. */
  datatype Evidence = Evidence(configured: bool, found: bool, state: Option<string>, executed: bool)

  /** The classification in `reconcile_execution`. */
  function Reconciled(i: Intent, e: Evidence): Reconciliation {
    if !e.configured then NOT_CONFIGURED
    else if !e.found then NO_EXTERNAL_EVIDENCE
    else if e.state == Some(StateName(i.state)) then MATCHED
    else DISCREPANCY
  }

  lemma {:induction false} LogTotal(attempts: seq<Attempts>, id: string, r: Result)
    ensures Total(Log(attempts, id, r)) == Total(attempts) + 1
  {
    if attempts != [] && attempts[0].intentId != id {
      LogTotal(attempts[1..], id, r);
    } else if attempts != [] {
      assert Log(attempts, id, r)[1..] == attempts[1..];
    }
  }

  lemma {:induction false} LogFor(attempts: seq<Attempts>, id: string, r: Result, other: string)
    ensures LoggedFor(Log(attempts, id, r), other) ==
            if other == id then LoggedFor(attempts, id) + [r] else LoggedFor(attempts, other)
  {
    if attempts != [] && attempts[0].intentId != id {
      LogFor(attempts[1..], id, r, other);
    } else if attempts != [] {
      assert Log(attempts, id, r)[1..] == attempts[1..];
    }
  }
}
