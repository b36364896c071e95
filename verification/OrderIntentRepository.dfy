/** The file-backed order intent repository. */
module OrderIntentRepository {
  import opened Values
  import opened Text
  import opened OrderIntents
  import opened OrderShelf
  import Keys

  datatype SaveOutcome = Kept | Denied | NotWritten

  class Repository {
    var file: File
    const numerals: Numerals
    var intentsById: seq<Intent>
    var idempotencyMap: map<string, string>
    var publicationMap: map<Identity, string>
    var ambiguousKeys: set<Identity>

    function Contents(): Shelf
      reads this
    {
      Shelf(intentsById, idempotencyMap, publicationMap, ambiguousKeys)
    }

    constructor (file: File, numerals: Numerals)
      ensures this.file == file && this.numerals == numerals
      ensures Contents() == Load(file, numerals)
    {
      this.file, this.numerals := file, numerals;
      intentsById, idempotencyMap, publicationMap, ambiguousKeys := [], map[], map[], {};
      new;
      LoadFromStorage();
    }

    /** `_load_from_storage` */
    method LoadFromStorage()
      modifies this`intentsById, this`idempotencyMap, this`publicationMap, this`ambiguousKeys
      ensures Contents() == Load(file, numerals)
    {
      NothingHeld(file, numerals);
      hide FromRow; hide Put; hide Held; hide LoadedAll;
      intentsById, idempotencyMap, publicationMap, ambiguousKeys := [], map[], map[], {};
      if !file.Rows? {
        return;
      }
      var loadedById: seq<Intent>, loadedKeys: map<string, string> := [], map[];
      var loadedPublications: map<Identity, string>, ambiguous: set<Identity> := map[], {};
      for n := 0 to |file.items|
        invariant Shelf(loadedById, loadedKeys, loadedPublications, ambiguous)
                  == LoadedAll(Held(file.items[..n], numerals))
        invariant file == old(file)
        modifies {}
      {
        HeldStep(file.items, n, numerals);
        if file.items[n].Entry? {
          var read := FromRow(file.items[n].row, numerals);
          if read.Some? {
            var intent := read.value;
            loadedById := Put(loadedById, intent);
            loadedKeys := loadedKeys[Keys.Key(intent.user, intent.key) := intent.id];
            if intent.lineage.publication.Some? {
              var identity := (intent.user, intent.lineage.publication.value);
              if identity in loadedPublications && loadedPublications[identity] != intent.id {
                ambiguous := ambiguous + {identity};
              } else {
                loadedPublications := loadedPublications[identity := intent.id];
              }
            }
          }
        }
      }
      assert file.items[..|file.items|] == file.items;
      intentsById, idempotencyMap, ambiguousKeys := loadedById, loadedKeys, ambiguous;
      publicationMap := map k | k in loadedPublications && k !in ambiguous :: loadedPublications[k];
    }

    /** `_flush_to_storage` */
    method Flush()
      modifies this`file
      ensures file == Flushed(Contents())
    {
      file := Flushed(Contents());
    }

    /** `save_order_intent`; when the write fails the maps are already changed and nothing is rolled back. */
    method SaveOrderIntent(intent: Intent, writable: bool) returns (outcome: SaveOutcome)
      modifies this
      ensures outcome == if Refuses(old(Contents()), intent) then Denied else if writable then Kept else NotWritten
      ensures Contents() == if outcome.Denied? then old(Contents()) else Saved(old(Contents()), intent)
      ensures file == if outcome.Kept? then Flushed(Contents()) else old(file)
    {
      if intent.lineage.publication.Some? {
        var identity := (intent.user, intent.lineage.publication.value);
        if identity in ambiguousKeys {
          return Denied;
        }
        if identity in publicationMap && publicationMap[identity] != intent.id {
          return Denied;
        }
      }
      intentsById := Put(intentsById, intent);
      idempotencyMap := idempotencyMap[Keys.Key(intent.user, intent.key) := intent.id];
      if intent.lineage.publication.Some? {
        publicationMap := publicationMap[(intent.user, intent.lineage.publication.value) := intent.id];
      }
      if !writable {
        return NotWritten;
      }
      Flush();
      return Kept;
    }

    /** `list_order_intents` */
    method ListOrderIntents(f: Filter, limit: int) returns (listed: seq<Intent>)
      ensures listed == Listed(intentsById, f, limit)
    {
      var results: seq<Intent> := [];
      for n := 0 to |intentsById|
        invariant results == Passing(intentsById[..n], f)
      {
        assert intentsById[..n + 1][..n] == intentsById[..n];
        if Passes(f, intentsById[n]) {
          results := results + [intentsById[n]];
        }
      }
      assert intentsById[..|intentsById|] == intentsById;
      listed := Cut(Newest(results), limit);
    }
  }

  lemma NothingHeld(file: File, numerals: Numerals)
    ensures file.Rows? ==> LoadedAll(Held(file.items[..0], numerals)) == EMPTY_SHELF
  {
  }

  lemma HeldStep(items: seq<Item>, n: nat, numerals: Numerals)
    requires n < |items|
    ensures var init := Held(items[..n], numerals);
      var read := if items[n].Entry? then FromRow(items[n].row, numerals) else None;
      && Held(items[..n + 1], numerals) == (if read.Some? then init + [read.value] else init)
      && (read.Some? ==> LoadedAll(init + [read.value]) == Loaded(LoadedAll(init), read.value))
  {
    hide FromRow; hide Loaded;
    assert items[..n + 1][..n] == items[..n];
    if items[n].Entry? && FromRow(items[n].row, numerals).Some? {
      var x, init := FromRow(items[n].row, numerals).value, Held(items[..n], numerals);
      assert (init + [x])[..|init|] == init;
    }
  }
}
