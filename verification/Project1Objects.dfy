/** The objects of a payload at the contract boundary: its multi-timeframe signals, word by word, and its metadata. */
module Project1Objects {
  import opened Values
  import opened Text
  import opened Project1Records
  import opened Project1Listing
  import opened Project1Contract
  import opened Project1NormalForm
  import opened Project1Sources

  predicate Word(j: Json, word: string) {
    j == Str(word)
  }

  predicate Says(j: Json) {
    j.Str? && !Blank(j.s)
  }

  predicate FrameWord(j: Json) {
    || Word(j, "5m") || Word(j, "15m") || Word(j, "30m") || Word(j, "1H") || Word(j, "4H") || Word(j, "1D")
  }

  predicate ClassWord(j: Json) {
    || Word(j, "ALIGNED") || Word(j, "COUNTER_TREND") || Word(j, "INSUFFICIENT_CONTEXT") || Word(j, "NO_TRADE")
    || Word(j, "NEUTRAL") || Word(j, "MIXED")
  }

  /** One of the six directions, in any case. */
  predicate DirectionWord(j: Json) {
    j.Str?
    && var d := Lower(j.s);
       d == "buy" || d == "sell" || d == "hold" || d == "no-signal" || d == "no-trade" || d == "neutral"
  }

  /** A signal names itself and its whole origin, and has both its times and a provenance. */
  predicate SignalThere(e: map<string, Json>) {
    && Says(Entry(e, "symbol")) && Says(Entry(e, "timeframe")) && Says(Entry(e, "direction"))
    && FrameWord(Entry(e, "timeframe")) && DirectionWord(Entry(e, "direction"))
    && Says(Entry(e, "decision_id")) && Says(Entry(e, "signal_id"))
    && Says(Entry(e, "strategy_name")) && Says(Entry(e, "strategy_version"))
    && Says(Entry(e, "candidate_id")) && Says(Entry(e, "evidence_id")) && Says(Entry(e, "experiment_fingerprint"))
    && Says(Entry(e, "canonical_live_decision_fingerprint")) && Says(Entry(e, "authorization_fingerprint"))
    && Says(Entry(e, "constituent_fingerprint"))
    && !Entry(e, "decision_timestamp").Null? && !Entry(e, "market_timestamp").Null?
    && Entry(e, "provenance").Obj? && Entry(e, "provenance").entries != map[]
  }

  predicate Count(j: Json, least: int) {
    j.Num? && j.r.Floor as real == j.r && j.r >= least as real
  }

  /** A list, an absent one being empty. */
  predicate Listing(e: map<string, Json>, key: string) {
    key in e ==> e[key].Arr?
  }

  function Items(e: map<string, Json>, key: string): seq<Json> {
    if key in e && e[key].Arr? then e[key].items else []
  }

  /** The multi-timeframe object names its symbol, its timeframes and its class, counts what is aligned, and all its
      signals are there. */
  predicate FramesThere(e: map<string, Json>) {
    && Says(Entry(e, "symbol")) && FrameWord(Entry(e, "local_timeframe")) && ClassWord(Entry(e, "classification"))
    && Listing(e, "participating_timeframes") && Listing(e, "signals") && Listing(e, "constituent_fingerprints")
    && (forall t | t in Items(e, "participating_timeframes") :: FrameWord(t))
    && (forall s | s in Items(e, "signals") :: s.Obj? && SignalThere(s.entries))
    && Count(Entry(e, "alignment_count"), 0)
    && Count(Entry(e, "alignment_coverage"), 1) && Entry(e, "alignment_coverage").r <= 6.0
    && (Entry(e, "higher_timeframe_context").Null? || Entry(e, "higher_timeframe_context").Obj?)
  }

  lemma SignalsExactly(e: map<string, Json>)
    ensures MtfSignalAllowed(e) <==> SignalThere(e)
  {
    hide Lower; hide Blank; hide Entry;
    TextsExactly(e);
    hide Says; hide NonBlank;
    forall m: map<string, Json>
      ensures m.Keys != {} <==> m != map[]
    {
    }
  }

  lemma TextsExactly(e: map<string, Json>)
    ensures (forall k | k in MTF_SIGNAL_TEXTS :: NonBlank(Entry(e, k))) <==>
      && Says(Entry(e, "symbol")) && Says(Entry(e, "timeframe")) && Says(Entry(e, "direction"))
      && Says(Entry(e, "decision_id")) && Says(Entry(e, "signal_id"))
      && Says(Entry(e, "strategy_name")) && Says(Entry(e, "strategy_version"))
      && Says(Entry(e, "candidate_id")) && Says(Entry(e, "evidence_id")) && Says(Entry(e, "experiment_fingerprint"))
      && Says(Entry(e, "canonical_live_decision_fingerprint")) && Says(Entry(e, "authorization_fingerprint"))
      && Says(Entry(e, "constituent_fingerprint"))
  {
    hide Blank; hide Entry;
  }

  /** Exactly which multi-timeframe objects are accepted. */
  lemma FramesExactly(e: map<string, Json>)
    ensures MtfAllowed(e) <==> FramesThere(e)
  {
    hide MtfSignalAllowed; hide SignalThere; hide Blank;
    forall s: map<string, Json> { SignalsExactly(s); }
  }

  /** A signal keeps its sixteen entries, and nothing else. */
  predicate SignalKept(e: map<string, Json>, kept: Json) {
    && kept.Obj?
    && kept.entries.Keys
       == {"symbol", "timeframe", "direction", "decision_id", "signal_id", "decision_timestamp", "market_timestamp",
           "strategy_name", "strategy_version", "candidate_id", "evidence_id", "experiment_fingerprint",
           "canonical_live_decision_fingerprint", "authorization_fingerprint", "constituent_fingerprint", "provenance"}
    && forall k | k in kept.entries :: kept.entries[k] == Entry(e, k)
  }

  /** The object keeps its ten values and its three lists, an absent list as an empty one, and nothing else. */
  predicate FramesKept(e: map<string, Json>, kept: Json) {
    && kept.Obj?
    && kept.entries.Keys
       == {"symbol", "local_timeframe", "alignment_count", "alignment_coverage", "classification",
           "higher_timeframe_context", "matching_signal_count", "available_signal_count", "intelligence_fingerprint",
           "star_representation", "participating_timeframes", "constituent_fingerprints", "signals"}
    && (forall k | k in kept.entries && k != "participating_timeframes" && k != "constituent_fingerprints"
                   && k != "signals" :: kept.entries[k] == Entry(e, k))
    && kept.entries["participating_timeframes"] == Arr(Items(e, "participating_timeframes"))
    && kept.entries["constituent_fingerprints"] == Arr(Items(e, "constituent_fingerprints"))
    && kept.entries["signals"].Arr?
    && var signals := kept.entries["signals"].items;
       && |signals| == |Items(e, "signals")|
       && forall i | 0 <= i < |signals| ::
            Items(e, "signals")[i].Obj? && SignalKept(Items(e, "signals")[i].entries, signals[i])
  }

  lemma SignalIsKept(e: map<string, Json>)
    ensures SignalKept(e, MtfSignalDict(Obj(e)))
  {
  }

  lemma FramesAreKept(e: map<string, Json>)
    requires MtfAllowed(e)
    ensures FramesKept(e, Obj(MtfDict(e)))
  {
    hide MtfSignalAllowed; hide MtfSignalDict; hide SignalKept; hide Blank;
    var signals := Items(e, "signals");
    forall i | 0 <= i < |signals|
      ensures signals[i].Obj? && SignalKept(signals[i].entries, MtfSignalDict(signals[i]))
    {
      assert signals[i] in ListAt(e, "signals").items;
      SignalIsKept(signals[i].entries);
    }
  }

  /** The metadata is the payload's own overlaid with its provenance; its type, its liveness and its source are filled
      in from the payload when neither names them. */
  predicate MetadataOfPayload(raw: Record, rec: Record) {
    var own, provenance := Entries(raw, Metadata), Entries(raw, ProvenanceSection);
    && Get(rec, Metadata).Obj?
    && var meta := Get(rec, Metadata).entries;
       && (forall k | k in provenance :: k in meta && meta[k] == provenance[k])
       && (forall k | k in own && k !in provenance :: k in meta && meta[k] == own[k])
       && (forall k | k in meta && k !in own && k !in provenance ::
             || (k == "provenance_type" && Truthy(Get(raw, ProvenanceType)) && meta[k] == Get(raw, ProvenanceType))
             || (k == "is_live" && IsLive in raw && meta[k] == raw[IsLive])
             || (k == "source" && Truthy(Get(raw, Source)) && meta[k] == Get(raw, Source)))
       && (Truthy(Get(raw, ProvenanceType)) ==> "provenance_type" in meta)
       && (IsLive in raw ==> "is_live" in meta) && (Truthy(Get(raw, Source)) ==> "source" in meta)
  }

  lemma MetadataIsKept(raw: Record, rec: Record)
    requires Get(rec, Metadata) == Obj(MetadataFor(raw))
    ensures MetadataOfPayload(raw, rec)
  {
  }

  /** The multi-timeframe object of an accepted payload is kept; the record has none when the payload has none. */
  predicate FramesOfPayload(raw: Record, rec: Record) {
    if Get(raw, Mtf).Obj? then FramesKept(Get(raw, Mtf).entries, Get(rec, Mtf)) else Get(rec, Mtf).Null?
  }

  lemma FramesOfCanonical(raw: Record, host: Host)
    requires MtfErrors(raw) == []
    ensures FramesOfPayload(raw, Canonical(raw, host))
  {
    hide Canonical; hide MtfDict; hide FramesKept; hide MtfAllowed; hide Get; hide TrailingOf; hide MetadataFor;
    InObjects(raw, host, Mtf);
    if Get(raw, Mtf).Obj? { FramesAreKept(Get(raw, Mtf).entries); }
  }

  lemma MetadataOfCanonical(raw: Record, host: Host)
    ensures MetadataOfPayload(raw, Canonical(raw, host))
  {
    hide Canonical; hide MtfDict; hide MetadataOfPayload; hide Get; hide TrailingOf; hide MetadataFor;
    InObjects(raw, host, Metadata);
    MetadataIsKept(raw, Canonical(raw, host));
  }

  /** An accepted payload's objects are kept in the record. */
  lemma ObjectsAreKept(raw: Record, host: Host)
    requires Validated(raw, host).Valid?
    ensures var rec := Validated(raw, host).record; FramesOfPayload(raw, rec) && MetadataOfPayload(raw, rec)
  {
    hide Canonical; hide MetadataOfPayload; hide FramesOfPayload; hide Errors; hide MtfErrors; hide SignalErrors;
    hide CommandErrors; hide IdentityErrors; hide LifecycleErrors; hide EpochOf; hide PriceErrors; hide ScoreErrors;
    hide TrailingErrors; hide RatioOf; hide FloatOf; hide VersionOf;
    NoErrors(raw, host);
    FramesOfCanonical(raw, host);
    MetadataOfCanonical(raw, host);
  }

  /** The decision of an accepted signal is its text in lower case, each space or underscore within it a hyphen, and is
      one of the five. */
  predicate DecisionSpelled(text: string, kept: Json) {
    && kept.Str? && |kept.s| == |Strip(text)|
    && (forall i | 0 <= i < |kept.s| ::
          var c := Strip(text)[i]; kept.s[i] == if c == ' ' || c == '_' then '-' else LowerChar(c))
    && (Word(kept, "buy") || Word(kept, "sell") || Word(kept, "hold") || Word(kept, "no-signal")
        || Word(kept, "no-trade"))
  }

  lemma DecisionIsSpelled(raw: Record, host: Host)
    requires Validated(raw, host).Valid? && Emits(raw, host)
    ensures var signal := Entries(raw, SignalSection);
      var decision := Either(Entry(signal, "decision"),
                             Either(Entry(signal, "signal_label"), Either(Get(raw, SignalType), Get(raw, Action))));
      decision.Str? && DecisionSpelled(decision.s, Get(Validated(raw, host).record, SignalType))
  {
    hide Canonical; hide Get; hide Entries; hide Either; hide Errors; hide Emits; hide RawDecisionOf; hide Entry;
    hide CommandErrors; hide IdentityErrors; hide LifecycleErrors; hide EpochOf; hide PriceErrors; hide ScoreErrors;
    hide TrailingErrors; hide RatioOf; hide FloatOf; hide VersionOf; hide MtfErrors; hide DecisionSpelled;
    hide SignalErrors;
    NoErrors(raw, host);
    TextsRead(raw);
    DecisionOfCanonical(raw, host);
  }

  lemma DecisionOfCanonical(raw: Record, host: Host)
    requires SignalErrors(raw, host) == [] && Emits(raw, host)
    ensures RawDecisionOf(raw).Str?
    ensures DecisionSpelled(RawDecisionOf(raw).s, Get(Canonical(raw, host), SignalType))
  {
    hide Canonical; hide Get; hide Emits; hide RawDecisionOf; hide SymbolOf; hide Strip; hide Lower; hide Dashed;
    hide DecisionSpelled;
    var d := RawDecisionOf(raw);
    assert NonBlank(d) && Dashed(Lower(Strip(d.s))) in ALLOWED_SIGNAL_TYPES;
    InDetail(raw, host, SignalType);
    DecisionIsTrimmed();
    DashedIsSpelled(d.s);
  }

  lemma DashedIsSpelled(text: string)
    requires Dashed(Lower(Strip(text))) in ALLOWED_SIGNAL_TYPES
    ensures DecisionSpelled(text, Str(Dashed(Lower(Strip(text)))))
  {
    hide Strip;
  }

  lemma DecisionIsTrimmed()
    ensures forall d | d in ALLOWED_SIGNAL_TYPES :: Strip(d) == d && Lower(d) == d
  {
    TrimmedEnds("buy"); TrimmedEnds("sell"); TrimmedEnds("hold"); TrimmedEnds("no-signal"); TrimmedEnds("no-trade");
  }
}
