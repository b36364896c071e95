/** Listings of order intents: what the repository and the service show a user, and in which order. */
module OrderListing {
  import opened Values
  import opened Text
  import opened OrderIntents
  import opened OrderShelf
  import opened OrderBook
  import S = StableSort

  function NameOf(state: Option<LifecycleState>): Option<string> {
    match state case None => None case Some(s) => Some(StateName(s))
  }

  /** The service's `list_order_intents`; None is a refusal. */
  function ListFor(b: Book, user: Option<User>, authorized: bool, symbol: Option<string>, state: Option<string>)
    : Option<seq<Intent>>
  {
    if user.None? || !authorized then None
    else
      var owner := if user.value.admin then None else Some(user.value.id);
      if b.shelf.Some? then Some(Listed(b.shelf.value.intents, Filter(owner, symbol, state), 100))
      else
        var target := if state.Some? && state.value != "" then StateNamed(Upper(state.value)) else None;
        if state.Some? && state.value != "" && target.None? then None
        else Some(Newest(Passing(b.memory, Filter(owner, symbol, NameOf(target)))))
  }

  lemma {:induction false} PassingMembers(intents: seq<Intent>, f: Filter, i: Intent)
    ensures i in Passing(intents, f) <==> i in intents && Passes(f, i)
  {
    hide Passes;
    if intents != [] {
      var n := |intents| - 1;
      PassingMembers(intents[..n], f, i);
      assert intents == intents[..n] + [intents[n]];
    }
  }

  /** The intents in descending order of their creation, those created at one time in the order they were stored:
      nothing is lost or added. */
  lemma NewestMeaning(intents: seq<Intent>)
    ensures var all := Newest(intents);
      && multiset(all) == multiset(intents) && |all| == |intents|
      && (forall m, n | 0 <= m < n < |all| :: all[m].created >= all[n].created)
      && S.StablySorts(Dated(intents), Dated(all))
  {
    var xs := Dated(intents);
    var s := S.SortDescending(xs);
    S.SortIsStable(xs);
    S.SortItems(xs);
    assert S.Items(xs) == intents;
    assert |multiset(S.Items(s))| == |S.Items(s)| && |multiset(intents)| == |intents|;
    forall n | 0 <= n < |s|
      ensures s[n] == S.Keyed(S.At(s[n].item.created), s[n].item)
    {
      assert s[n] in multiset(s);
      var m :| 0 <= m < |xs| && xs[m] == s[n];
    }
    assert Dated(Newest(intents)) == s;
    forall m, n | 0 <= m < n < |s|
      ensures s[m].item.created >= s[n].item.created
    {
      assert S.AtLeast(s[m].rank, s[n].rank);
    }
  }

  /** A repository's listing is the first intents, up to the limit, of the newest-first stable order of exactly those
      that pass the filter. */
  lemma ListedMeaning(intents: seq<Intent>, f: Filter, limit: nat)
    ensures var all, listed := Newest(Passing(intents, f)), Listed(intents, f, limit);
      && listed == all[..|listed|] && |listed| == (if limit < |all| then limit else |all|)
      && (forall i :: i in all <==> i in intents && Passes(f, i))
      && (forall m, n | 0 <= m < n < |all| :: all[m].created >= all[n].created)
      && S.StablySorts(Dated(Passing(intents, f)), Dated(all))
  {
    hide Passes; hide Newest; hide Passing; hide S.StablySorts; hide Dated;
    NewestMeaning(Passing(intents, f));
    var all := Newest(Passing(intents, f));
    forall i
      ensures i in all <==> i in intents && Passes(f, i)
    {
      PassingMembers(intents, f, i);
      assert i in all <==> i in multiset(all);
    }
  }

  lemma NamesAreClean(s: LifecycleState)
    ensures !Blank(StateName(s)) && Upper(Strip(StateName(s))) == StateName(s)
    ensures StateNamed(StateName(s)) == Some(s)
  {
    TrimmedEnds(StateName(s));
    assert Upper("STAGED") == "STAGED" && Upper("REJECTED") == "REJECTED";
    assert Upper("CANCELLED") == "CANCELLED" && Upper("EXPIRED") == "EXPIRED";
  }

  /** The filter by a state of memory keeps exactly the intents in that state. */
  lemma MemoryPasses(owner: Option<string>, symbol: Option<string>, target: Option<LifecycleState>, i: Intent)
    ensures Passes(Filter(owner, symbol, NameOf(target)), i) <==>
      && (owner.Some? ==> i.user == owner.value)
      && (symbol.Some? && !Blank(symbol.value) ==> i.symbol == Upper(Strip(symbol.value)))
      && (target.Some? ==> i.state == target.value)
  {
    if target.Some? {
      NamesAreClean(target.value);
      NamesAreClean(i.state);
      hide Upper; hide Strip; hide StateName; hide StateNamed;
    }
  }

  /** The user may see the intent and it is of the symbol and in the state he asks for. */
  predicate Asked(user: User, symbol: Option<string>, state: Option<string>, i: Intent) {
    && (user.admin || i.user == user.id)
    && (symbol.None? || Blank(symbol.value) || i.symbol == Upper(Strip(symbol.value)))
    && (state.None? || Blank(state.value) || Some(i.state) == StateNamed(Upper(Strip(state.value))))
  }

  /** What is listed for a user: intents the service answers from, newest first, his own unless he is an administrator,
      in the state and of the symbol asked for; and every such intent is listed, up to a hundred with a repository. */
  lemma ListForMeaning(b: Book, user: User, symbol: Option<string>, state: Option<string>)
    requires ListFor(b, Some(user), true, symbol, state).Some?
    ensures var listed := ListFor(b, Some(user), true, symbol, state).value;
      var held := if b.shelf.Some? then b.shelf.value.intents else b.memory;
      && (forall m, n | 0 <= m < n < |listed| :: listed[m].created >= listed[n].created)
      && (forall i | i in listed :: i in held && Asked(user, symbol, state, i))
      && (b.shelf.None? || |listed| < 100 ==> forall i | i in held && Asked(user, symbol, state, i) :: i in listed)
      && (b.shelf.Some? ==> |listed| <= 100)
  {
    hide Passes; hide Newest; hide Passing; hide Asked;
    var owner := if user.admin then None else Some(user.id);
    if b.shelf.Some? {
      ListedMeaning(b.shelf.value.intents, Filter(owner, symbol, state), 100);
      forall i { AskedIsPassed(user, symbol, state, i); }
    } else {
      var target := if state.Some? && state.value != "" then StateNamed(Upper(state.value)) else None;
      var f := Filter(owner, symbol, NameOf(target));
      ListedMeaning(b.memory, f, |Newest(Passing(b.memory, f))|);
      forall i { AskedInMemory(user, symbol, state, i); }
    }
  }

  lemma AskedIsPassed(user: User, symbol: Option<string>, state: Option<string>, i: Intent)
    ensures Passes(Filter(if user.admin then None else Some(user.id), symbol, state), i) <==>
            Asked(user, symbol, state, i)
  {
    NamesAreClean(i.state);
    hide Upper; hide Strip;
  }

  lemma AskedInMemory(user: User, symbol: Option<string>, state: Option<string>, i: Intent)
    requires state.Some? && state.value != "" ==> StateNamed(Upper(state.value)).Some?
    ensures var target := if state.Some? && state.value != "" then StateNamed(Upper(state.value)) else None;
      Passes(Filter(if user.admin then None else Some(user.id), symbol, NameOf(target)), i) <==>
        Asked(user, symbol, state, i)
  {
    var target := if state.Some? && state.value != "" then StateNamed(Upper(state.value)) else None;
    MemoryPasses(if user.admin then None else Some(user.id), symbol, target, i);
    if state.Some? && state.value != "" {
      StateNamesAreTrimmed(state.value);
    }
    hide Upper; hide Strip; hide Passes;
  }

  lemma StateNamesAreTrimmed(s: string)
    requires StateNamed(Upper(s)).Some?
    ensures Strip(s) == s && s != ""
  {
    var u := Upper(s);
    assert s != "" by { assert |u| == |s|; }
    assert u[0] == UpperChar(s[0]) && u[|s| - 1] == UpperChar(s[|s| - 1]);
    TrimmedEnds(s);
  }
}
