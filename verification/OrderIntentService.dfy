/** The order intent service: two maps in memory, and a repository when one is configured. Each method is specified by
    the function of the same name on the service's state. */
module OrderIntentService {
  import opened Values
  import opened Text
  import opened OrderIntents
  import opened OrderShelf
  import opened OrderBook
  import opened OrderIntentRepository
  import opened OrderListing

  class Service {
    const repository: Repository?
    var intentsById: seq<Intent>
    var idempotencyMap: map<(string, string), string>

    function State(): Book
      reads this, repository
    {
      Book(intentsById, idempotencyMap, if repository == null then None else Some(repository.Contents()))
    }

    /** The repository's file is what the repository holds after a call that staged or moved an intent, and as it was
        after any other. */
    predicate FileFollows(before: File, reply: Reply)
      requires repository != null
      reads this, repository
    {
      repository.file == if reply.Staged? || reply.Moved? then Flushed(repository.Contents()) else before
    }

    constructor (repository: Repository?)
      ensures this.repository == repository
      ensures State() == Book([], map[], if repository == null then None else Some(repository.Contents()))
    {
      this.repository := repository;
      intentsById, idempotencyMap := [], map[];
    }

    /** The scan of memory for the user's intent for a publication. */
    method ScanFor(user: string, publication: string) returns (existing: Option<Intent>)
      ensures existing == FirstFor(intentsById, user, publication)
    {
      var n := 0;
      while n < |intentsById|
        invariant 0 <= n <= |intentsById|
        invariant FirstFor(intentsById, user, publication) == FirstFor(intentsById[n..], user, publication)
      {
        var candidate := intentsById[n];
        if candidate.user == user && candidate.lineage.publication == Some(publication) {
          return Some(candidate);
        }
        n := n + 1;
      }
      return None;
    }

    /** Putting a new intent into both maps and then into the repository. */
    method Keep(intent: Intent, user: string, key: string, writable: bool) returns (reply: Reply)
      modifies this, repository
      ensures Outcome(State(), reply) == Written(Store(old(State()), intent, user, key), writable)
      ensures repository != null ==> FileFollows(old(repository.file), reply)
    {
      hide Put; hide Refuses; hide Saved;
      intentsById := Put(intentsById, intent);
      idempotencyMap := idempotencyMap[(user, key) := intent.id];
      if repository != null {
        var outcome := repository.SaveOrderIntent(intent, writable);
        if !outcome.Kept? {
          return Raised;
        }
      }
      return Staged(intent);
    }

    /** `create_canonical_order_intent_from_publication` */
    method CreateCanonicalOrderIntent(user: Option<User>, authorized: bool, publication: string,
                                      resolved: Option<Publication>, key: Option<string>, id: string, now: real,
                                      writable: bool)
      returns (reply: Reply)
      modifies this, repository
      ensures Outcome(State(), reply)
           == Written(CreateCanonical(old(State()), user, authorized, publication, resolved, key, id, now), writable)
      ensures repository != null ==> FileFollows(old(repository.file), reply)
    {
      hide IntentContent; hide DraftContent; hide Built; hide Draft; hide Store; hide Find; hide FirstFor;
      hide ByPublication;
      hide LineageComplete; hide Actionable; hide Strip;
      if user.None? {
        return Refused(Unauthorized);
      }
      if !authorized {
        return Refused(Unauthorized);
      }
      if Blank(publication) {
        return Refused(BlankPublication);
      }
      var userId := user.value.id;
      if resolved.None? {
        return Refused(NoRecord);
      }
      var record := resolved.value;
      if !LineageComplete(LineageOf(record)) {
        return Refused(MissingLineage);
      }
      if !Present(record.symbol) {
        return Refused(BadSymbol);
      }
      if !Actionable(record) {
        return Refused(BadDirection);
      }
      CompleteLineage(record);
      var pub := record.lineage.publication.value;
      var cleanKey := CanonicalKey(key, userId, pub);
      var draft := Draft(record, userId, cleanKey, id, now);
      var existing: Option<Intent>;
      if repository != null {
        existing := ByPublication(repository.Contents(), userId, pub);
      } else {
        existing := ScanFor(userId, pub);
      }
      if existing.Some? {
        if IntentContent(existing.value) == DraftContent(draft) {
          return Existing(existing.value);
        }
        return Refused(IntegrityConflict);
      }
      if (userId, cleanKey) in idempotencyMap {
        var holder := Find(intentsById, idempotencyMap[(userId, cleanKey)]);
        if holder.Some? && holder.value.lineage.publication != Some(pub) {
          return Refused(KeyTaken);
        }
      }
      var intent := Built(draft);
      if intent.None? {
        return Refused(NotConstructed);
      }
      reply := Keep(intent.value, userId, cleanKey, writable);
    }

    /** `create_order_intent` */
    method CreateOrderIntent(user: Option<User>, authorized: bool, authorization: Option<Authorization>, order: Order,
                             id: string, writable: bool)
      returns (reply: Reply)
      modifies this, repository
      ensures Outcome(State(), reply)
           == Written(Create(old(State()), user, authorized, authorization, order, id), writable)
      ensures repository != null ==> FileFollows(old(repository.file), reply)
    {
      hide Built; hide OrderDraft; hide Store; hide Find; hide Strip; hide ByKey;
      if user.None? || !authorized {
        return Refused(Unauthorized);
      }
      if Blank(order.key) {
        return Refused(BlankKey);
      }
      var key, userId := Strip(order.key), user.value.id;
      var existing: Option<Intent> := None;
      if repository != null {
        existing := ByKey(repository.Contents(), userId, key);
      } else if (userId, key) in idempotencyMap {
        existing := Find(intentsById, idempotencyMap[(userId, key)]);
      }
      if existing.Some? {
        return Existing(existing.value);
      }
      if authorization.None? || !authorization.value.granted {
        return Refused(NotAuthorized);
      }
      if OrderSymbol(order, authorization.value) == "" {
        return Refused(BadSymbol);
      }
      if OrderDirection(authorization.value) !in ["buy", "sell"] {
        return Refused(BadDirection);
      }
      var intent := Built(OrderDraft(order, authorization.value, userId, id));
      if intent.None? {
        return Refused(NotConstructed);
      }
      reply := Keep(intent.value, userId, key, writable);
    }

    /** `get_order_intent`, for an authorized user. */
    method GetOrderIntent(user: User, id: string) returns (found: Option<Intent>)
      ensures found == Get(State(), user, id)
    {
      hide Find; hide Strip;
      var clean := Strip(id);
      if clean == "" {
        return None;
      }
      if repository != null {
        found := ById(repository.Contents(), clean, if user.admin then None else Some(user.id));
      } else {
        found := Find(intentsById, clean);
      }
      if found.Some? && !user.admin && found.value.user != user.id {
        return None;
      }
    }

    /** `transition_order_intent_state` */
    method TransitionOrderIntentState(user: Option<User>, authorized: bool, id: string, target: string,
                                      reason: Option<string>, writable: bool)
      returns (reply: Reply)
      modifies this, repository
      ensures Outcome(State(), reply)
           == Written(Transition(old(State()), user, authorized, id, target, reason), writable)
      ensures repository != null ==> FileFollows(old(repository.file), reply)
    {
      hide Find; hide WithState; hide Put; hide Refuses; hide Saved; hide Upper; hide Strip;
      if user.None? || !authorized {
        return Refused(Unauthorized);
      }
      if Blank(id) {
        return Refused(BlankId);
      }
      var intent := GetOrderIntent(user.value, id);
      if intent.None? {
        return Refused(WhyHidden(State(), user.value, id));
      }
      var to := StateNamed(Upper(target));
      if to.None? {
        return Refused(IllegalTransition);
      }
      var updated := WithState(intent.value, to.value, reason);
      if updated.None? {
        return Refused(IllegalTransition);
      }
      intentsById := Put(intentsById, updated.value);
      if repository != null {
        var outcome := repository.SaveOrderIntent(updated.value, writable);
        if !outcome.Kept? {
          return Raised;
        }
      }
      return Moved(updated.value);
    }

    /** `list_order_intents`: a repository strips its filters and gives at most a hundred; memory refuses a state it
        does not know and gives all. None is a refusal. */
    method ListOrderIntents(user: Option<User>, authorized: bool, symbol: Option<string>, state: Option<string>)
      returns (listed: Option<seq<Intent>>)
      ensures listed == ListFor(State(), user, authorized, symbol, state)
    {
      hide Strip; hide Upper; hide Newest;
      if user.None? || !authorized {
        return None;
      }
      var owner := if user.value.admin then None else Some(user.value.id);
      if repository != null {
        var found := repository.ListOrderIntents(Filter(owner, symbol, state), 100);
        return Some(found);
      }
      var target: Option<LifecycleState> := None;
      if state.Some? && state.value != "" {
        target := StateNamed(Upper(state.value));
        if target.None? {
          return None;
        }
      }
      var filter := Filter(owner, symbol, NameOf(target));
      var results: seq<Intent> := [];
      for n := 0 to |intentsById|
        invariant results == Passing(intentsById[..n], filter)
      {
        assert intentsById[..n + 1][..n] == intentsById[..n];
        var intent := intentsById[n];
        MemoryPasses(owner, symbol, target, intent);
        if (owner.None? || intent.user == owner.value)
        && (symbol.None? || Blank(symbol.value) || intent.symbol == Upper(Strip(symbol.value)))
        && (target.None? || intent.state == target.value) {
          results := results + [intent];
        }
      }
      assert intentsById[..|intentsById|] == intentsById;
      return Some(Newest(results));
    }
  }

  lemma CompleteLineage(r: Publication)
    requires LineageComplete(LineageOf(r))
    ensures r.lineage.publication.Some?
  {
  }
}
