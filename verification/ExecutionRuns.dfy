/** Runs of the execution gateway beside the order intent service: the port is called at most once per requester and
    key, and nothing is lost or counted twice. */
module ExecutionRuns {
  import opened Values
  import opened Text
  import opened OrderIntents
  import opened OrderShelf
  import B = OrderBook
  import R = OrderRuns
  import H = OrderHistories
  import opened ExecutionBoundary

  datatype System = System(book: B.Book, gateway: Gateway)

  datatype Event = Ordering(op: R.Op) | Executing(request: Request, answer: Answer)

  ghost function Step(s: System, e: Event): System {
    match e
    case Ordering(op) => s.(book := R.Apply(s.book, op).book)
    case Executing(q, answer) => s.(gateway := Execute(s.gateway, s.book, q, answer).gateway)
  }

  ghost function Run(s: System, events: seq<Event>): System {
    if events == [] then s else Step(Run(s, events[..|events| - 1]), events[|events| - 1])
  }

  function PairOf(c: Submission): (string, string) {
    (c.requester.id, c.command.key)
  }

  /** The results kept for one requested id, in order. */
  function ResultsFor(calls: seq<Submission>, id: string): seq<Result> {
    if calls == [] then []
    else
      var n := |calls| - 1;
      var init := ResultsFor(calls[..n], id);
      if calls[n].asked == id then init + [calls[n].result] else init
  }

  /** The cache holds exactly the results of the port's calls, one call for each of its keys. */
  ghost predicate CacheIsCalls(calls: seq<Submission>, cache: map<(string, string), Result>) {
    && (forall m, n | 0 <= m < n < |calls| :: PairOf(calls[m]) != PairOf(calls[n]))
    && (forall n | 0 <= n < |calls| :: PairOf(calls[n]) in cache && cache[PairOf(calls[n])] == calls[n].result)
    && (forall k | k in cache :: exists n :: 0 <= n < |calls| && PairOf(calls[n]) == k)
  }

  /** And the log holds each result once, in order, under the id it was asked for. */
  ghost predicate LogIsCalls(calls: seq<Submission>, attempts: seq<Attempts>) {
    forall id :: LoggedFor(attempts, id) == ResultsFor(calls, id)
  }

  /** What is kept of a call is the port's own answer, or after an exception a failure that says nothing was
      executed. */
  predicate Honest(c: Submission) {
    match c.answer
    case Answered(r) => c.result == r
    case Threw =>
      && !c.result.success && !c.result.executed && c.result.status == FAILED_AT_BOUNDARY
      && c.result.user == Strip(c.requester.id) && c.result.intentId == Strip(c.asked)
  }

  ghost predicate Accounted(g: Gateway) {
    && CacheIsCalls(g.calls, g.cache) && LogIsCalls(g.calls, g.attempts)
    && |g.calls| == |g.cache| == Total(g.attempts)
    && forall n | 0 <= n < |g.calls| :: Honest(g.calls[n])
  }

  lemma CallJoinsCache(calls: seq<Submission>, cache: map<(string, string), Result>, c: Submission)
    requires CacheIsCalls(calls, cache) && PairOf(c) !in cache
    ensures CacheIsCalls(calls + [c], cache[PairOf(c) := c.result])
  {
    hide PairOf;
    var grown := cache[PairOf(c) := c.result];
    forall k | k in grown
      ensures exists n :: 0 <= n < |calls + [c]| && PairOf((calls + [c])[n]) == k
    {
      if k == PairOf(c) {
        assert (calls + [c])[|calls|] == c;
      } else {
        var n :| 0 <= n < |calls| && PairOf(calls[n]) == k;
        assert (calls + [c])[n] == calls[n];
      }
    }
  }

  lemma CallJoinsLog(calls: seq<Submission>, attempts: seq<Attempts>, c: Submission)
    requires LogIsCalls(calls, attempts)
    ensures LogIsCalls(calls + [c], Log(attempts, c.asked, c.result))
  {
    hide Log; hide LoggedFor;
    assert (calls + [c])[..|calls|] == calls;
    forall id
      ensures LoggedFor(Log(attempts, c.asked, c.result), id) == ResultsFor(calls + [c], id)
    {
      LogFor(attempts, c.asked, c.result, id);
    }
  }

  /** A request that may reach the port: an authorized user's, for a staged intent that he may see and that has an
      authorization, at a time that is not negative. */
  predicate Executable(b: B.Book, q: Request) {
    && q.user.Some? && q.mayUpdate && q.mayRead && q.timestamp >= 0.0
    && var found := B.Get(b, q.user.value, q.intentId);
       found.Some? && found.value.state.STAGED? && found.value.authorization.Some?
  }

  function ExecutionKey(b: B.Book, q: Request): (string, string)
    requires Executable(b, q)
  {
    (q.user.value.id, "exec_" + B.Get(b, q.user.value, q.intentId).value.key)
  }

  /** The answer to a request that is refused: never a success, nothing executed, and the status of its refusal. A blank
      id is an error, unless it is empty and was not looked at. */
  predicate Refuses(q: Request, reply: Reply) {
    var denied := q.user.None? || !q.mayUpdate;
    match reply
    case ValueError => Blank(q.intentId) && (denied ==> q.intentId != "")
    case Replied(r) =>
      && !r.success && !r.executed && r.status == (if denied then REJECTED_UNAUTHORIZED else REJECTED_INVALID_STATE)
      && r.user == (if q.user.None? then "anonymous" else q.user.value.id)
      && r.intentId == (if denied && q.intentId == "" then "unknown" else Strip(q.intentId))
  }

  /** The command is the intent's own: its id, user, key and terms, and the intent was staged and authorized. */
  ghost predicate Made(c: Command, i: Intent) {
    && i.state.STAGED? && i.authorization == Some(c.authorization) && c.intentId == i.id && c.user == i.user
    && c.key == "exec_" + i.key && c.symbol == i.symbol && c.direction == i.direction && c.terms == i.terms
    && c.orderType == i.orderType && c.timeInForce == i.timeInForce
  }

  lemma GetIsHeld(b: B.Book, user: B.User, id: string)
    requires R.Sound(b)
    ensures var found := B.Get(b, user, id);
      found.Some? ==>
        && found.value in R.Intents(b) && Normal(found.value) && found.value.id == Strip(id)
        && (user.admin || found.value.user == user.id)
  {
    hide Normal; hide Coherent;
  }

  lemma PlainNames()
    ensures Strip("anonymous") == "anonymous" && Strip("unknown") == "unknown"
  {
    TrimmedEnds("anonymous");
    TrimmedEnds("unknown");
  }

  /** A request that cannot reach the port is refused and changes nothing. */
  lemma RefusedMeaning(g: Gateway, b: B.Book, q: Request, answer: Answer)
    requires R.Sound(b) && R.Named(q.user) && !Executable(b, q)
    ensures var out := Execute(g, b, q, answer); out.gateway == g && Refuses(q, out.reply)
  {
    hide CommandFor; hide Normal; hide Coherent; hide B.Get; hide Log; hide R.Sound; hide StripLeft; hide StripRight;
    PlainNames();
    if q.user.Some? {
      GetIsHeld(b, q.user.value, q.intentId);
      var found := B.Get(b, q.user.value, q.intentId);
      if found.Some? { CommandMeaning(found.value, q.commandId, q.timestamp); }
    }
  }

  /** A request that can reach the port is answered from the cache under its requester and key and changes nothing, or,
      if nothing is cached there, makes one call for that very intent with its own terms, and the reply, the cache and
      the log get what the port answered. */
  lemma ExecutedMeaning(g: Gateway, b: B.Book, q: Request, answer: Answer)
    requires R.Sound(b) && Executable(b, q)
    ensures var out, k := Execute(g, b, q, answer), ExecutionKey(b, q);
      if k in g.cache then out == Outcome(g, Replied(g.cache[k]))
      else
        && |out.gateway.calls| == |g.calls| + 1 && out.gateway.calls[..|g.calls|] == g.calls
        && var call := out.gateway.calls[|g.calls|];
           && PairOf(call) == k && call.requester == q.user.value && call.asked == q.intentId
           && call.answer == answer && Honest(call)
           && out.gateway.cache == g.cache[k := call.result]
           && out.gateway.attempts == Log(g.attempts, q.intentId, call.result) && out.reply == Replied(call.result)
           && Made(call.command, B.Get(b, q.user.value, q.intentId).value)
  {
    hide CommandFor; hide RejectedFor; hide Normal; hide Coherent; hide B.Get; hide Log; hide R.Sound; hide Strip;
    GetIsHeld(b, q.user.value, q.intentId);
    CommandMeaning(B.Get(b, q.user.value, q.intentId).value, q.commandId, q.timestamp);
  }

  /** What a request does: a refusal, an answer from the cache, or one call of the port for a staged intent the
      requester may see. */
  lemma ExecuteMeaning(g: Gateway, b: B.Book, q: Request, answer: Answer)
    requires R.Sound(b) && R.Named(q.user)
    ensures var out := Execute(g, b, q, answer);
      if !Executable(b, q) then out.gateway == g && Refuses(q, out.reply)
      else if ExecutionKey(b, q) in g.cache then out == Outcome(g, Replied(g.cache[ExecutionKey(b, q)]))
      else
        && |out.gateway.calls| == |g.calls| + 1 && out.gateway.calls[..|g.calls|] == g.calls
        && var call := out.gateway.calls[|g.calls|];
           && call.requester == q.user.value && call.asked == q.intentId && call.answer == answer && Honest(call)
           && PairOf(call) !in g.cache && out.gateway.cache == g.cache[PairOf(call) := call.result]
           && out.gateway.attempts == Log(g.attempts, q.intentId, call.result) && out.reply == Replied(call.result)
           && exists i :: i in R.Intents(b) && B.Get(b, q.user.value, q.intentId) == Some(i) && Made(call.command, i)
  {
    hide Execute; hide B.Get; hide Log; hide R.Sound; hide Refuses; hide Honest; hide Made; hide R.Named;
    if Executable(b, q) {
      ExecutedMeaning(g, b, q, answer);
      GetIsHeld(b, q.user.value, q.intentId);
    } else {
      RefusedMeaning(g, b, q, answer);
    }
  }

  lemma ExecuteKeepsAccounted(g: Gateway, b: B.Book, q: Request, answer: Answer)
    requires R.Sound(b) && R.Named(q.user) && Accounted(g)
    ensures Accounted(Execute(g, b, q, answer).gateway)
  {
    hide R.Sound; hide Execute; hide B.Get; hide Made; hide Log; hide Total; hide CacheIsCalls; hide LogIsCalls;
    hide Executable; hide Refuses; hide Honest; hide ExecutionKey; hide R.Named;
    ExecuteMeaning(g, b, q, answer);
    var after := Execute(g, b, q, answer).gateway;
    if after != g {
      var call := after.calls[|g.calls|];
      assert after.calls == g.calls + [call];
      CallJoinsCache(g.calls, g.cache, call);
      CallJoinsLog(g.calls, g.attempts, call);
      LogTotal(g.attempts, q.intentId, call.result);
    }
  }

  /** The surroundings of a run: order calls are lawful, users are named, and a user is an administrator for the whole
      run or not at all. */
  ghost predicate Lawful(s: System, e: Event, admins: set<string>) {
    match e
    case Ordering(op) => R.Lawful(s.book, op)
    case Executing(q, _) => R.Named(q.user) && (q.user.Some? ==> (q.user.value.admin <==> q.user.value.id in admins))
  }

  ghost predicate LawfulRun(s: System, events: seq<Event>, admins: set<string>) {
    events != [] ==>
      var n := |events| - 1;
      LawfulRun(s, events[..n], admins) && Lawful(Run(s, events[..n]), events[n], admins)
  }

  /** In every lawful run the port is called at most once per requester and key, and the calls, the cache and the logged
      attempts agree in number and content. */
  lemma {:induction false} RunKeepsAccounted(s: System, events: seq<Event>, admins: set<string>)
    requires R.Sound(s.book) && Accounted(s.gateway) && LawfulRun(s, events, admins)
    ensures R.Sound(Run(s, events).book) && Accounted(Run(s, events).gateway)
  {
    hide R.Sound; hide Accounted; hide R.Apply; hide Execute; hide R.Lawful;
    if events != [] {
      var n := |events| - 1;
      RunKeepsAccounted(s, events[..n], admins);
      var mid := Run(s, events[..n]);
      match events[n]
      case Ordering(op) => R.StepAllowed(mid.book, op);
      case Executing(q, answer) => ExecuteKeepsAccounted(mid.gateway, mid.book, q, answer);
    }
  }

  lemma FreshIsAccounted()
    ensures Accounted(FRESH_GATEWAY)
  {
  }

  /** A call made for a requester who is not an administrator was made for an intent of his own that still stands. */
  ghost predicate OwnCalls(s: System) {
    forall n | 0 <= n < |s.gateway.calls| && !s.gateway.calls[n].requester.admin ::
      OwnCall(s.book, s.gateway.calls[n])
  }

  ghost predicate OwnCall(b: B.Book, c: Submission) {
    exists i :: i in R.Intents(b) && i.id == c.command.intentId && i.user == c.requester.id
                && c.command.key == "exec_" + i.key
  }

  lemma OwnCallLasts(b: B.Book, op: R.Op, c: Submission)
    requires R.Sound(b) && R.Lawful(b, op) && OwnCall(b, c)
    ensures OwnCall(R.Apply(b, op).book, c)
  {
    hide Coherent; hide Normal; hide R.Apply; hide Find; hide Lasting; hide DistinctIds; hide R.Lawful;
    var i :| i in R.Intents(b) && i.id == c.command.intentId && i.user == c.requester.id
             && c.command.key == "exec_" + i.key;
    H.StepHistory(b, op, i.id);
    SoundFind(b, i);
    var j := Find(R.Intents(R.Apply(b, op).book), i.id).value;
    R.LastingIdentity(i, j);
    assert j in R.Intents(R.Apply(b, op).book);
  }

  lemma SoundFind(b: B.Book, i: Intent)
    requires R.Sound(b) && i in R.Intents(b)
    ensures Find(R.Intents(b), i.id) == Some(i)
  {
    hide Coherent; hide Normal;
    FindOnly(R.Intents(b), i);
  }

  lemma StepKeepsOwnCalls(s: System, e: Event, admins: set<string>)
    requires R.Sound(s.book) && OwnCalls(s) && Lawful(s, e, admins)
    ensures OwnCalls(Step(s, e))
  {
    hide R.Sound; hide OwnCall; hide Execute; hide R.Apply; hide B.Get; hide R.Lawful;
    match e
    case Ordering(op) =>
      forall n | 0 <= n < |s.gateway.calls| && !s.gateway.calls[n].requester.admin
        ensures OwnCall(R.Apply(s.book, op).book, s.gateway.calls[n])
      {
        OwnCallLasts(s.book, op, s.gateway.calls[n]);
      }
    case Executing(q, answer) =>
      ExecuteMeaning(s.gateway, s.book, q, answer);
      var after := Execute(s.gateway, s.book, q, answer).gateway;
      if after != s.gateway {
        NewCallIsOwn(s, q, answer);
      }
  }

  lemma NewCallIsOwn(s: System, q: Request, answer: Answer)
    requires R.Sound(s.book) && R.Named(q.user) && Execute(s.gateway, s.book, q, answer).gateway != s.gateway
    ensures var calls := Execute(s.gateway, s.book, q, answer).gateway.calls;
      && |calls| == |s.gateway.calls| + 1
      && (!calls[|s.gateway.calls|].requester.admin ==> OwnCall(s.book, calls[|s.gateway.calls|]))
  {
    hide R.Sound; hide Execute; hide B.Get;
    ExecuteMeaning(s.gateway, s.book, q, answer);
    GetIsHeld(s.book, q.user.value, q.intentId);
  }

  lemma {:induction false} RunKeepsOwnCalls(s: System, events: seq<Event>, admins: set<string>)
    requires R.Sound(s.book) && Accounted(s.gateway) && OwnCalls(s) && LawfulRun(s, events, admins)
    ensures OwnCalls(Run(s, events))
  {
    hide R.Sound; hide Accounted; hide OwnCalls; hide Step; hide Lawful;
    if events != [] {
      var n := |events| - 1;
      RunKeepsOwnCalls(s, events[..n], admins);
      RunKeepsAccounted(s, events[..n], admins);
      StepKeepsOwnCalls(Run(s, events[..n]), events[n], admins);
    }
  }

  /** A cached answer given to a requester who is not an administrator is the result of the one call made for him, and
      that call was for the very intent he asks about. This needs his key to identify one intent. */
  lemma CachedAnswerIsForTheIntent(s: System, q: Request, answer: Answer, i: Intent)
    requires R.Sound(s.book) && H.KeySound(s.book) && Accounted(s.gateway) && OwnCalls(s)
    requires q.user.Some? && !q.user.value.admin && q.mayUpdate && q.mayRead && q.timestamp >= 0.0
    requires B.Get(s.book, q.user.value, q.intentId) == Some(i) && i.state.STAGED? && i.authorization.Some?
    requires forall n | 0 <= n < |s.gateway.calls| && s.gateway.calls[n].requester.id == q.user.value.id ::
      !s.gateway.calls[n].requester.admin
    ensures var out := Execute(s.gateway, s.book, q, answer);
      out.gateway == s.gateway ==>
        exists n :: 0 <= n < |s.gateway.calls|
          && s.gateway.calls[n].requester.id == q.user.value.id && s.gateway.calls[n].command.intentId == i.id
          && out.reply == Replied(s.gateway.calls[n].result)
  {
    hide R.Sound; hide H.KeySound; hide B.Get; hide CommandFor; hide OwnCalls; hide Accounted;
    GetIsHeld(s.book, q.user.value, q.intentId);
    CommandMeaning(i, q.commandId, q.timestamp);
    var c := CommandFor(i, q.commandId, q.timestamp).value;
    var k := (q.user.value.id, c.key);
    if k in s.gateway.cache {
      var n := CachedCall(s.gateway, k);
      OwnCallIntent(s, n, i);
    }
  }

  lemma CachedCall(g: Gateway, k: (string, string)) returns (n: nat)
    requires Accounted(g) && k in g.cache
    ensures n < |g.calls| && PairOf(g.calls[n]) == k && g.cache[k] == g.calls[n].result
  {
    n :| 0 <= n < |g.calls| && PairOf(g.calls[n]) == k;
  }

  lemma OwnCallIntent(s: System, n: nat, i: Intent)
    requires R.Sound(s.book) && H.KeySound(s.book) && OwnCalls(s) && n < |s.gateway.calls|
    requires var call := s.gateway.calls[n];
      !call.requester.admin && call.requester.id == i.user && call.command.key == "exec_" + i.key
    requires i in R.Intents(s.book)
    ensures s.gateway.calls[n].command.intentId == i.id
  {
    hide R.Sound; hide H.KeySound;
    var call := s.gateway.calls[n];
    var j :| j in R.Intents(s.book) && j.id == call.command.intentId && j.user == call.requester.id
             && call.command.key == "exec_" + j.key;
    SameAfterPrefix("exec_", i.key, j.key);
    H.KeyIdentifiesIntent(s.book, i, j);
  }

  lemma SameAfterPrefix(prefix: string, a: string, b: string)
    requires prefix + a == prefix + b
    ensures a == b
  {
    assert a == (prefix + a)[|prefix|..] && b == (prefix + b)[|prefix|..];
  }

  /** In a lawful run every call's requester is an administrator for the whole run or not at all. */
  ghost predicate FixedRoles(g: Gateway, admins: set<string>) {
    forall n | 0 <= n < |g.calls| :: g.calls[n].requester.admin <==> g.calls[n].requester.id in admins
  }

  lemma {:induction false} RunKeepsRoles(s: System, events: seq<Event>, admins: set<string>)
    requires R.Sound(s.book) && Accounted(s.gateway) && FixedRoles(s.gateway, admins) && LawfulRun(s, events, admins)
    ensures FixedRoles(Run(s, events).gateway, admins)
  {
    hide R.Sound; hide Accounted; hide R.Apply; hide Execute; hide R.Lawful; hide B.Get; hide Made;
    if events != [] {
      var n := |events| - 1;
      RunKeepsRoles(s, events[..n], admins);
      RunKeepsAccounted(s, events[..n], admins);
      var mid := Run(s, events[..n]);
      if events[n].Executing? {
        ExecuteMeaning(mid.gateway, mid.book, events[n].request, events[n].answer);
      }
    }
  }

  ghost predicate NoRestart(events: seq<Event>) {
    forall n | 0 <= n < |events| && events[n].Ordering? :: !events[n].op.RestartOp?
  }

  lemma {:induction false} RunKeepsKeys(s: System, events: seq<Event>, admins: set<string>)
    requires R.Sound(s.book) && H.KeySound(s.book) && Accounted(s.gateway) && LawfulRun(s, events, admins)
    requires NoRestart(events)
    ensures H.KeySound(Run(s, events).book)
  {
    hide R.Sound; hide Accounted; hide R.Apply; hide Execute; hide R.Lawful; hide H.KeySound;
    if events != [] {
      var n := |events| - 1;
      RunKeepsKeys(s, events[..n], admins);
      RunKeepsAccounted(s, events[..n], admins);
      if events[n].Ordering? { H.StepKeepsKeys(Run(s, events[..n]).book, events[n].op); }
    }
  }

  /** Some request of the run, by this requester for this id, was answered by the port as the call says. */
  ghost predicate Heard(c: Submission, events: seq<Event>) {
    exists m ::
      && 0 <= m < |events| && events[m].Executing? && events[m].request.user == Some(c.requester)
      && events[m].request.intentId == c.asked && events[m].answer == c.answer
  }

  lemma HeardLonger(c: Submission, events: seq<Event>, n: nat)
    requires n <= |events| && Heard(c, events[..n])
    ensures Heard(c, events)
  {
    var m :| 0 <= m < n && events[..n][m].Executing? && events[..n][m].request.user == Some(c.requester)
             && events[..n][m].request.intentId == c.asked && events[..n][m].answer == c.answer;
    assert events[m] == events[..n][m];
  }

  lemma HeardLast(c: Submission, events: seq<Event>)
    requires events != [] && events[|events| - 1].Executing?
    requires var e := events[|events| - 1];
      e.request.user == Some(c.requester) && e.request.intentId == c.asked && e.answer == c.answer
    ensures Heard(c, events)
  {
  }

  lemma ExecutableIsNamed(b: B.Book, q: Request)
    ensures Executable(b, q) ==> q.user.Some?
  {
    hide B.Get;
  }

  /** Every call made in a run keeps an answer that the port gave to a request of the run. */
  lemma {:induction false} RunHears(s: System, events: seq<Event>, admins: set<string>)
    requires R.Sound(s.book) && Accounted(s.gateway) && s.gateway.calls == [] && LawfulRun(s, events, admins)
    ensures forall n | 0 <= n < |Run(s, events).gateway.calls| :: Heard(Run(s, events).gateway.calls[n], events)
  {
    hide R.Sound; hide Accounted; hide R.Apply; hide Execute; hide R.Lawful; hide B.Get; hide Made; hide Heard;
    hide Executable; hide Refuses; hide Honest; hide ExecutionKey; hide PairOf; hide R.Named;
    if events != [] {
      var k := |events| - 1;
      RunHears(s, events[..k], admins);
      RunKeepsAccounted(s, events[..k], admins);
      var mid, e := Run(s, events[..k]), events[k];
      forall n | 0 <= n < |mid.gateway.calls|
        ensures Heard(mid.gateway.calls[n], events)
      {
        HeardLonger(mid.gateway.calls[n], events, k);
      }
      if e.Executing? {
        ExecuteMeaning(mid.gateway, mid.book, e.request, e.answer);
        var after := Execute(mid.gateway, mid.book, e.request, e.answer).gateway.calls;
        if after != mid.gateway.calls {
          ExecutableIsNamed(mid.book, e.request);
          HeardLast(after[|mid.gateway.calls|], events);
        }
      }
    }
  }

  /** The run-level statement: from a fresh service and gateway, after any lawful run without a restart, a requester who
      is not an administrator gets for a staged and authorized intent of his what the port answered at the one call made
      for that intent: now, or to an earlier request of the run. */
  lemma AnswersAreForTheIntent(s: System, events: seq<Event>, admins: set<string>, q: Request, answer: Answer,
                               i: Intent)
    requires R.Fresh(s.book) && s.gateway == FRESH_GATEWAY && LawfulRun(s, events, admins) && NoRestart(events)
    requires q.user.Some? && !q.user.value.admin && q.user.value.id !in admins
    requires q.mayUpdate && q.mayRead && q.timestamp >= 0.0
    requires B.Get(Run(s, events).book, q.user.value, q.intentId) == Some(i) && i.state.STAGED? && i.authorization.Some?
    ensures var end := Run(s, events);
      var out := Execute(end.gateway, end.book, q, answer);
      && |out.gateway.calls| >= |end.gateway.calls|
      && exists n :: 0 <= n < |out.gateway.calls|
           && out.gateway.calls[n].requester.id == q.user.value.id && out.gateway.calls[n].command.intentId == i.id
           && out.reply == Replied(out.gateway.calls[n].result) && Honest(out.gateway.calls[n])
           && (if n == |end.gateway.calls| then out.gateway.calls[n].answer == answer
               else Heard(out.gateway.calls[n], events))
           && forall m | 0 <= m < |out.gateway.calls|
                         && PairOf(out.gateway.calls[m]) == PairOf(out.gateway.calls[n]) :: m == n
  {
    hide R.Sound; hide H.KeySound; hide Accounted; hide OwnCalls; hide Run; hide Lawful; hide LawfulRun; hide Execute;
    hide B.Get; hide Heard; hide Honest; hide PairOf;
    R.FreshIsSound(s.book);
    H.FreshIsKeySound(s.book);
    FreshIsAccounted();
    assert OwnCalls(s) by { NoCalls(s); }
    RunKeepsAccounted(s, events, admins);
    RunKeepsOwnCalls(s, events, admins);
    RunKeepsRoles(s, events, admins);
    RunKeepsKeys(s, events, admins);
    RunHears(s, events, admins);
    var n := AnswerNow(Run(s, events), q, answer, i);
  }

  /** The same of one state. */
  lemma AnswerNow(s: System, q: Request, answer: Answer, i: Intent) returns (n: nat)
    requires R.Sound(s.book) && H.KeySound(s.book) && Accounted(s.gateway) && OwnCalls(s)
    requires q.user.Some? && !q.user.value.admin && q.mayUpdate && q.mayRead && q.timestamp >= 0.0
    requires B.Get(s.book, q.user.value, q.intentId) == Some(i) && i.state.STAGED? && i.authorization.Some?
    requires forall n | 0 <= n < |s.gateway.calls| && s.gateway.calls[n].requester.id == q.user.value.id ::
      !s.gateway.calls[n].requester.admin
    ensures var out := Execute(s.gateway, s.book, q, answer);
      && |s.gateway.calls| <= |out.gateway.calls| && n < |out.gateway.calls|
      && out.gateway.calls[n].requester.id == q.user.value.id && out.gateway.calls[n].command.intentId == i.id
      && out.reply == Replied(out.gateway.calls[n].result) && Honest(out.gateway.calls[n])
      && (if n == |s.gateway.calls| then out.gateway.calls[n].answer == answer
          else n < |s.gateway.calls| && out.gateway.calls[n] == s.gateway.calls[n])
      && forall m | 0 <= m < |out.gateway.calls| && PairOf(out.gateway.calls[m]) == PairOf(out.gateway.calls[n]) ::
           m == n
  {
    hide R.Sound; hide H.KeySound; hide Accounted; hide OwnCalls; hide Execute; hide B.Get; hide Honest; hide PairOf;
    hide Refuses; hide Executable; hide ExecutionKey; hide Made;
    GetIsHeld(s.book, q.user.value, q.intentId);
    NormalTexts(i);
    CachedAnswerIsForTheIntent(s, q, answer, i);
    CanExecute(s.book, q);
    ExecuteMeaning(s.gateway, s.book, q, answer);
    ExecuteKeepsAccounted(s.gateway, s.book, q, answer);
    var out := Execute(s.gateway, s.book, q, answer);
    CallsAreDistinct(out.gateway);
    CallsAreHonest(out.gateway);
    if out.gateway == s.gateway {
      n :| 0 <= n < |s.gateway.calls|
        && s.gateway.calls[n].requester.id == q.user.value.id && s.gateway.calls[n].command.intentId == i.id
        && out.reply == Replied(s.gateway.calls[n].result);
    } else {
      n := |s.gateway.calls|;
      MadeIsFor(out.gateway.calls[n].command, i);
    }
  }

  lemma MadeIsFor(c: Command, i: Intent)
    requires Made(c, i)
    ensures c.intentId == i.id
  {
  }

  lemma CanExecute(b: B.Book, q: Request)
    requires q.user.Some? && q.mayUpdate && q.mayRead && q.timestamp >= 0.0
    requires var found := B.Get(b, q.user.value, q.intentId);
      found.Some? && found.value.state.STAGED? && found.value.authorization.Some?
    ensures Executable(b, q)
  {
    hide B.Get;
  }

  lemma NoCalls(s: System)
    requires s.gateway == FRESH_GATEWAY
    ensures OwnCalls(s)
  {
  }

  lemma CallsAreHonest(g: Gateway)
    requires Accounted(g)
    ensures forall n | 0 <= n < |g.calls| :: Honest(g.calls[n])
  {
  }

  lemma CallsAreDistinct(g: Gateway)
    requires Accounted(g)
    ensures forall m, n | 0 <= m < |g.calls| && 0 <= n < |g.calls| && PairOf(g.calls[m]) == PairOf(g.calls[n]) :: m == n
  {
  }
}
