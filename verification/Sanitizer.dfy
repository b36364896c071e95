/** Secret handling: sensitive keys are redacted at any depth of a value, and every text goes through a filter. */
module Sanitizer {
  import opened Values
  import opened Text

  const SENSITIVE_KEYS: seq<string> :=
    [ "secret", "secrets", "password", "token", "access_token", "api_key", "apikey", "credential", "credentials",
      "private_key", "auth_code", "indicator_logic", "strategy_params", "sensitive_parameters", "lab_secrets" ]

  const REDACTED := Str("[REDACTED]")

  /** `word in text` */
  predicate Contains(text: string, word: string) {
    word <= text || (text != "" && Contains(text[1..], word))
  }

  predicate Sensitive(key: string) {
    exists n :: 0 <= n < |SENSITIVE_KEYS| && Contains(Lower(key), SENSITIVE_KEYS[n])
  }

  /** `sanitize_data`, for a given filter of texts. */
  function SanitizeData(j: Json, filter: string -> string): Json
    decreases j
  {
    match j
    case Obj(entries) =>
      Obj(map k | k in entries :: if Sensitive(k) then REDACTED else SanitizeData(entries[k], filter))
    case Arr(items) => Arr(seq(|items|, i requires 0 <= i < |items| => SanitizeData(items[i], filter)))
    case Str(s) => Str(filter(s))
    case _ => j
  }

  /** At any depth, what stands under a sensitive key is redacted and every other text has been filtered. */
  ghost predicate Scrubbed(j: Json, filter: string -> string)
    decreases j
  {
    match j
    case Obj(entries) =>
      forall k | k in entries :: if Sensitive(k) then entries[k] == REDACTED else Scrubbed(entries[k], filter)
    case Arr(items) => forall i | 0 <= i < |items| :: Scrubbed(items[i], filter)
    case Str(s) => exists t :: s == filter(t)
    case _ => true
  }

  lemma {:induction false} SanitizedIsScrubbed(j: Json, filter: string -> string)
    ensures Scrubbed(SanitizeData(j, filter), filter)
    decreases j
  {
    hide Sensitive;
    match j
    case Obj(entries) =>
      forall k | k in entries { SanitizedIsScrubbed(entries[k], filter); }
    case Arr(items) =>
      forall i | 0 <= i < |items| { SanitizedIsScrubbed(items[i], filter); }
    case _ =>
  }

  /** Scrubbed values are the fixed points, so sanitising twice is sanitising once, if the filter is so itself. */
  lemma {:induction false} ScrubbedIsFixed(j: Json, filter: string -> string)
    requires Scrubbed(j, filter) && forall t :: filter(filter(t)) == filter(t)
    ensures SanitizeData(j, filter) == j
    decreases j
  {
    hide Sensitive;
    match j
    case Obj(entries) =>
      forall k | k in entries && !Sensitive(k) { ScrubbedIsFixed(entries[k], filter); }
      assert SanitizeData(j, filter).entries == entries;
    case Arr(items) =>
      forall i | 0 <= i < |items| { ScrubbedIsFixed(items[i], filter); }
      assert SanitizeData(j, filter).items == items;
    case _ =>
  }

  /** The words that make a key sensitive, in any case and anywhere in it. */
  lemma SensitiveWords(key: string)
    ensures var k := Lower(key);
      Sensitive(key) <==>
        || Contains(k, "secret") || Contains(k, "password") || Contains(k, "token") || Contains(k, "api_key")
        || Contains(k, "apikey") || Contains(k, "credential") || Contains(k, "private_key") || Contains(k, "auth_code")
        || Contains(k, "indicator_logic") || Contains(k, "strategy_params") || Contains(k, "sensitive_parameters")
  {
    hide Contains; hide Lower;
    var k := Lower(key);
    LongerWord(k, "secrets", "secret", 0);
    LongerWord(k, "lab_secrets", "secret", 4);
    LongerWord(k, "access_token", "token", 7);
    LongerWord(k, "credentials", "credential", 0);
    assert SENSITIVE_KEYS[0] == "secret" && SENSITIVE_KEYS[2] == "password" && SENSITIVE_KEYS[3] == "token"
        && SENSITIVE_KEYS[5] == "api_key" && SENSITIVE_KEYS[6] == "apikey" && SENSITIVE_KEYS[7] == "credential"
        && SENSITIVE_KEYS[9] == "private_key" && SENSITIVE_KEYS[10] == "auth_code";
    assert SENSITIVE_KEYS[11] == "indicator_logic" && SENSITIVE_KEYS[12] == "strategy_params"
        && SENSITIVE_KEYS[13] == "sensitive_parameters";
  }

  /** A text that contains a word contains every part of it. */
  lemma {:induction false} LongerWord(text: string, word: string, part: string, at: nat)
    requires at + |part| <= |word| && word[at..at + |part|] == part
    ensures Contains(text, word) ==> Contains(text, part)
  {
    if word <= text {
      PartAt(text, part, at);
    } else if text != "" {
      LongerWord(text[1..], word, part, at);
    }
  }

  lemma {:induction false} PartAt(text: string, part: string, at: nat)
    requires at + |part| <= |text| && text[at..at + |part|] == part
    ensures Contains(text, part)
  {
    if at > 0 {
      assert text[1..][at - 1..at - 1 + |part|] == part;
      PartAt(text[1..], part, at - 1);
    } else {
      assert part <= text;
    }
  }
}
