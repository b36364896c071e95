/** The order intent service when writes of its repository's file may fail: what was acknowledged lasts through every
    later failure and restart, and what was not is exactly as durable as the next write that succeeds. */
module OrderDurability {
  import opened Values
  import opened Text
  import opened OrderIntents
  import opened OrderShelf
  import opened OrderBook
  import opened OrderRuns
  import opened OrderHistories
  import opened OrderReplay
  import L = OrderLoading

  /** The service with its repository, and what was last written to the file. */
  datatype Site = Site(book: Book, file: Shelf)

  /** A call, and whether the file can be written during it. */
  datatype Event = Event(op: Op, writable: bool)

  function Shelved(b: Book): Shelf {
    match b.shelf case Some(s) => s case None => EMPTY_SHELF
  }

  function Answer(d: Site, e: Event): Reply {
    Written(Apply(d.book, e.op), e.writable).reply
  }

  predicate Acknowledged(r: Reply) {
    r.Staged? || r.Moved?
  }

  /** A call changes the repository before it writes; a restart reads the file. */
  function After(d: Site, e: Event): Site {
    match e.op
    case RestartOp(numerals) => d.(book := Restart(Book([], map[], Some(d.file)), numerals))
    case _ =>
      var b := Apply(d.book, e.op).book;
      Site(b, if Acknowledged(Answer(d, e)) then Shelved(b) else d.file)
  }

  ghost function RunAt(d: Site, es: seq<Event>): Site {
    if es == [] then d else After(RunAt(d, es[..|es| - 1]), es[|es| - 1])
  }

  ghost predicate LawfulRunAt(d: Site, es: seq<Event>) {
    es != [] ==> LawfulRunAt(d, es[..|es| - 1]) && Lawful(RunAt(d, es[..|es| - 1]).book, es[|es| - 1].op)
  }

  /** Repository and file are in order, and what the file holds the repository holds as well. */
  ghost predicate Kept(d: Site) {
    && d.book.shelf.Some? && Sound(d.book) && Coherent(d.file)
    && forall id :: Lasts(d.file.intents, Intents(d.book), id)
  }

  /** A service just made over an empty repository. */
  lemma FreshIsKept(b: Book)
    requires Fresh(b) && b.shelf.Some?
    ensures Kept(Site(b, EMPTY_SHELF))
  {
    FreshIsSound(b);
  }

  lemma LastsTransitive(a: seq<Intent>, b: seq<Intent>, c: seq<Intent>, id: string)
    requires Lasts(a, b, id) && Lasts(b, c, id)
    ensures Lasts(a, c, id)
  {
    hide Find;
    var i, j := Find(a, id), Find(b, id);
    if i.Some? && !i.value.state.STAGED? { assert !j.value.state.STAGED?; }
  }

  lemma LastsReflexive(a: seq<Intent>, id: string)
    ensures Lasts(a, a, id)
  {
  }

  lemma ShelfStays(b: Book, op: Op)
    requires b.shelf.Some?
    ensures Apply(b, op).book.shelf.Some?
  {
    hide Strip; hide Upper; hide Put; hide WithState; hide ForPublication; hide ForKey; hide Built; hide Draft;
    hide OrderDraft; hide LineageComplete; hide Actionable; hide Get; hide KeyBelongsElsewhere; hide IntentContent;
    hide DraftContent;
  }

  lemma SoundIsCoherent(b: Book)
    requires Sound(b) && b.shelf.Some?
    ensures Coherent(b.shelf.value)
  {
  }

  /** Every call keeps the site in order, whether or not its write succeeds, and loses nothing the file holds. */
  lemma StepKeepsSite(d: Site, e: Event)
    requires Kept(d) && Lawful(d.book, e.op)
    ensures Kept(After(d, e))
    ensures forall id :: Lasts(d.file.intents, After(d, e).file.intents, id)
  {
    hide Sound; hide Coherent; hide Apply; hide Lasts; hide Lawful; hide Restart;
    if e.op.RestartOp? {
      RestartKeepsSite(d, e.op.numerals);
      forall id { LastsReflexive(d.file.intents, id); }
    } else {
      var b := Apply(d.book, e.op).book;
      StepAllowed(d.book, e.op);
      ShelfStays(d.book, e.op);
      SoundIsCoherent(b);
      forall id
        ensures Lasts(d.file.intents, Intents(b), id) && Lasts(Intents(b), Intents(b), id)
        ensures Lasts(d.file.intents, d.file.intents, id)
      {
        StepHistory(d.book, e.op, id);
        LastsTransitive(d.file.intents, Intents(d.book), Intents(b), id);
        LastsReflexive(Intents(b), id);
        LastsReflexive(d.file.intents, id);
      }
    }
  }

  lemma RestartKeepsSite(d: Site, numerals: Numerals)
    requires Kept(d)
    ensures Kept(After(d, Event(RestartOp(numerals), true)))
  {
    hide Sound; hide Coherent; hide Find; hide L.RestoredAll; hide Lasting;
    var b := Book([], map[], Some(d.file));
    CoherentIsSound(b);
    RestartAllowed(b, RestartOp(numerals));
    forall id
      ensures Lasts(d.file.intents, Intents(Restart(b, numerals)), id)
    {
      FindRestored(d.file.intents, id);
      RestoredLasts(d.file.intents, id);
    }
  }

  /** So does every run: one intent per user and publication, in repository and file, whatever failed. */
  lemma {:induction false} RunKeepsSite(d: Site, es: seq<Event>)
    requires Kept(d) && LawfulRunAt(d, es)
    ensures Kept(RunAt(d, es))
    ensures forall id :: Lasts(d.file.intents, RunAt(d, es).file.intents, id)
  {
    hide Kept; hide Lawful; hide After; hide Lasts;
    if es == [] {
      forall id { LastsReflexive(d.file.intents, id); }
    } else {
      var n := |es| - 1;
      RunKeepsSite(d, es[..n]);
      var mid := RunAt(d, es[..n]);
      StepKeepsSite(mid, es[n]);
      forall id
        ensures Lasts(d.file.intents, RunAt(d, es).file.intents, id)
      {
        LastsTransitive(d.file.intents, mid.file.intents, RunAt(d, es).file.intents, id);
      }
    }
  }

  /** An acknowledged intent stands in the repository as it was returned. */
  lemma AcknowledgedStands(b: Book, op: Op)
    requires Sound(b) && Lawful(b, op) && Acknowledged(Apply(b, op).reply)
    ensures var out := Apply(b, op); Find(Intents(out.book), out.reply.intent.id) == Some(out.reply.intent)
  {
    StepAllowed(b, op);
    hide Sound; hide Lawful; hide Apply; hide Answers; hide Normal; hide Lasting;
    var out := Apply(b, op);
    var i := out.reply.intent;
    if out.reply.Staged? {
      FindAppended(Intents(b), i, i.id);
    } else {
      PutFind(Intents(b), i, i.id);
    }
  }

  /** Then the file holds it too. */
  lemma AcknowledgedIsWritten(d: Site, e: Event)
    requires d.book.shelf.Some? && Sound(d.book) && Lawful(d.book, e.op) && Acknowledged(Answer(d, e))
    ensures !e.op.RestartOp? && Answer(d, e) == Apply(d.book, e.op).reply
    ensures Find(After(d, e).file.intents, Answer(d, e).intent.id) == Some(Answer(d, e).intent)
  {
    hide Sound; hide Lawful; hide Find; hide CreateCanonical; hide Create; hide Transition;
    ShelfStays(d.book, e.op);
    AcknowledgedStands(d.book, e.op);
  }

  /** What was acknowledged lasts: after any later calls, failed writes and restarts the intent is there, changed in
      nothing but its state, and not in that if it was terminal. */
  lemma AcknowledgedLasts(d: Site, e: Event, es: seq<Event>)
    requires Kept(d) && Lawful(d.book, e.op) && Acknowledged(Answer(d, e)) && LawfulRunAt(After(d, e), es)
    ensures var i, found := Answer(d, e).intent, Find(Intents(RunAt(After(d, e), es).book), Answer(d, e).intent.id);
      && found.Some? && Lasting(found.value) == Lasting(i)
      && (Terminal(i.state) ==> found.value.state == i.state && found.value.reason == i.reason)
  {
    hide Sound; hide Coherent; hide Apply; hide Lawful; hide RunAt; hide LawfulRunAt; hide Find; hide Lasting;
    hide Answer; hide After;
    var start, i := After(d, e), Answer(d, e).intent;
    AcknowledgedIsWritten(d, e);
    StepKeepsSite(d, e);
    RunKeepsSite(start, es);
    var later := RunAt(start, es);
    LastsTransitive(start.file.intents, later.file.intents, Intents(later.book), i.id);
  }

  /** So an acknowledged creation is recognised whatever fails afterwards: asking again for the publication gives its
      intent or, by the twenty authoritative fields alone, an integrity conflict, and changes nothing. */
  lemma AcknowledgedReplays(d: Site, e: Event, es: seq<Event>, again: Op)
    requires Kept(d) && Lawful(d.book, e.op) && e.op.CanonicalOp? && Answer(d, e).Staged?
    requires LawfulRunAt(After(d, e), es) && Lawful(RunAt(After(d, e), es).book, again)
    requires Asks(again) && again.user == e.op.user && Strip(again.publication) == Strip(e.op.publication)
    ensures var later, i := RunAt(After(d, e), es).book, Answer(d, e).intent;
      var out, found := Apply(later, again), Find(Intents(later), i.id);
      && out.book == later && found.Some?
      && out.reply == if IntentContent(i) == DraftContent(DraftOf(again)) then Existing(found.value)
                      else Refused(IntegrityConflict)
  {
    hide Apply; hide Sound; hide Lawful; hide Find; hide IntentContent; hide DraftContent; hide Lasting; hide Draft;
    hide Strip; hide LineageComplete; hide Actionable; hide RunAt; hide LawfulRunAt; hide Acceptable; hide Normalised;
    hide After; hide Answer; hide Coherent;
    AcknowledgedIsWritten(d, e);
    StagedMeaning(d.book, e.op);
    AcknowledgedLasts(d, e, es);
    StepKeepsSite(d, e);
    RunKeepsSite(After(d, e), es);
    var later, i := RunAt(After(d, e), es).book, Answer(d, e).intent;
    var j := Find(Intents(later), i.id).value;
    LastingIdentity(i, j);
    LastingContent(i, j);
    ReplayAt(later, again, j);
  }

  /** Some call of the run was acknowledged. */
  ghost predicate SomeAcknowledged(d: Site, es: seq<Event>) {
    exists n :: 0 <= n < |es| && Acknowledged(Answer(RunAt(d, es[..n]), es[n]))
  }

  ghost predicate NoRestarts(es: seq<Event>) {
    forall n | 0 <= n < |es| :: !es[n].op.RestartOp?
  }

  /** The file changes only when a call is acknowledged. */
  lemma UnacknowledgedLeavesFile(d: Site, e: Event)
    ensures !Acknowledged(Answer(d, e)) ==> After(d, e).file == d.file
  {
    hide Apply;
  }

  lemma AcknowledgedWritesAll(d: Site, e: Event)
    requires d.book.shelf.Some? && Acknowledged(Answer(d, e)) && !e.op.RestartOp?
    ensures After(d, e).file.intents == Intents(After(d, e).book)
  {
    ShelfStays(d.book, e.op);
    hide Apply;
  }

  /** Without a restart, an intent of the repository that the file lacks gets into the file with the first call that is
      acknowledged. */
  lemma {:induction false} NextWriteSaves(d: Site, es: seq<Event>, id: string)
    requires Kept(d) && LawfulRunAt(d, es) && NoRestarts(es)
    requires Find(Intents(d.book), id).Some? && Find(d.file.intents, id).None?
    ensures Find(Intents(RunAt(d, es).book), id).Some?
    ensures Find(RunAt(d, es).file.intents, id).Some? <==> SomeAcknowledged(d, es)
  {
    hide Sound; hide Coherent; hide Apply; hide Lawful; hide Find; hide After; hide Answer; hide Lasting;
    if es != [] {
      var n := |es| - 1;
      NextWriteSaves(d, es[..n], id);
      RunKeepsSite(d, es[..n]);
      var mid, e := RunAt(d, es[..n]), es[n];
      StepHistory(mid.book, e.op, id);
      BookAfter(mid, e);
      StepKeepsSite(mid, e);
      assert Lasts(mid.file.intents, After(mid, e).file.intents, id);
      SomeAcknowledgedStep(d, es);
      if Acknowledged(Answer(mid, e)) {
        AcknowledgedWritesAll(mid, e);
      } else {
        UnacknowledgedLeavesFile(mid, e);
      }
    }
  }

  lemma BookAfter(d: Site, e: Event)
    requires !e.op.RestartOp?
    ensures After(d, e).book == Apply(d.book, e.op).book
  {
    hide Apply;
  }

  lemma SomeAcknowledgedStep(d: Site, es: seq<Event>)
    requires es != []
    ensures var n := |es| - 1;
      SomeAcknowledged(d, es) <==> SomeAcknowledged(d, es[..n]) || Acknowledged(Answer(RunAt(d, es[..n]), es[n]))
  {
    hide RunAt; hide Answer;
    var n := |es| - 1;
    forall m | 0 <= m < n
      ensures es[..n][..m] == es[..m] && es[..n][m] == es[m]
    {
    }
    if SomeAcknowledged(d, es) {
      var m :| 0 <= m < |es| && Acknowledged(Answer(RunAt(d, es[..m]), es[m]));
      if m < n { assert Acknowledged(Answer(RunAt(d, es[..n][..m]), es[..n][m])); }
    }
    if SomeAcknowledged(d, es[..n]) {
      var m :| 0 <= m < n && Acknowledged(Answer(RunAt(d, es[..n][..m]), es[..n][m]));
      assert Acknowledged(Answer(RunAt(d, es[..m]), es[m]));
    }
  }

  /** A creation whose write fails raises, yet its intent is in the repository; it is still there after a restart
      exactly when some later call before the restart was acknowledged. */
  lemma UnwrittenCreationSurvivesExactly(d: Site, op: Op, es: seq<Event>, numerals: Numerals)
    requires Kept(d) && Lawful(d.book, op) && Apply(d.book, op).reply.Staged?
    requires LawfulRunAt(After(d, Event(op, false)), es) && NoRestarts(es)
    ensures Answer(d, Event(op, false)) == Raised
    ensures var start, id := After(d, Event(op, false)), Apply(d.book, op).reply.intent.id;
      var reborn := After(RunAt(start, es), Event(RestartOp(numerals), true));
      Find(Intents(reborn.book), id).Some? <==> SomeAcknowledged(start, es)
  {
    hide Sound; hide Coherent; hide Apply; hide Lawful; hide Find; hide RunAt; hide LawfulRunAt; hide Lasting;
    hide SomeAcknowledged;
    var e := Event(op, false);
    UnwrittenRaises(d, op);
    var start, id := After(d, e), Apply(d.book, op).reply.intent.id;
    AcknowledgedStands(d.book, op);
    StepKeepsSite(d, e);
    StagedIsNew(d, op);
    NextWriteSaves(start, es, id);
    RunKeepsSite(start, es);
    RebornHolds(RunAt(start, es), numerals, id);
  }

  lemma UnwrittenRaises(d: Site, op: Op)
    requires d.book.shelf.Some? && Apply(d.book, op).reply.Staged?
    ensures Answer(d, Event(op, false)) == Raised && !op.RestartOp?
    ensures After(d, Event(op, false)) == Site(Apply(d.book, op).book, d.file)
  {
    hide CreateCanonical; hide Create; hide Transition;
    ShelfStays(d.book, op);
  }

  lemma StagedIsNew(d: Site, op: Op)
    requires Kept(d) && Lawful(d.book, op) && Apply(d.book, op).reply.Staged?
    ensures Find(d.file.intents, Apply(d.book, op).reply.intent.id).None?
  {
    StepAllowed(d.book, op);
    hide Sound; hide Coherent; hide Apply; hide Lawful; hide Find; hide Answers; hide Normal;
    assert Lasts(d.file.intents, Intents(d.book), Apply(d.book, op).reply.intent.id);
  }

  /** A restart brings back exactly what the file holds. */
  lemma RebornHolds(d: Site, numerals: Numerals, id: string)
    requires Kept(d)
    ensures var reborn := After(d, Event(RestartOp(numerals), true));
      Find(Intents(reborn.book), id).Some? <==> Find(d.file.intents, id).Some?
  {
    hide Sound; hide Coherent; hide Find; hide L.RestoredAll;
    var b := Book([], map[], Some(d.file));
    CoherentIsSound(b);
    RestartAllowed(b, RestartOp(numerals));
    FindRestored(d.file.intents, id);
  }
}
