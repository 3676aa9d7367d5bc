/** Request shaping for the OpenAI-compatible provider: which models receive
    a `reasoning_effort`, which configuration fields reach the wire, and the
    one-entry client cache keyed by API key and base URL. */
module OpenAI {
  import opened Wrappers
  import opened Strings
  import opened ChatTypes

  /** The `reasoning_effort` values the mapping can produce; OpenAI has no
      "minimal" effort. */
  datatype Effort = EffortLow | EffortMedium | EffortHigh

  function EffortName(e: Effort): string {
    match e
    case EffortLow => "low"
    case EffortMedium => "medium"
    case EffortHigh => "high"
  }

  predicate IsDigit(c: char) {
    '0' <= c <= '9'
  }

  /** The o-series test on the lowercased model name: it starts with `o`
      followed by a digit (`/^o[0-9]/`) or contains `-o1`, `-o3` or `-o4`. */
  predicate IsOSeries(model: string) {
    var m := ToLowerAscii(model);
    (|m| >= 2 && m[0] == 'o' && IsDigit(m[1]))
    || Contains(m, "-o1") || Contains(m, "-o3") || Contains(m, "-o4")
  }

  predicate IsLetterO(c: char) {
    c == 'o' || c == 'O'
  }

  /** A dash, an `o` of either case and the digit `d` at index `i`. */
  predicate DashOWith(model: string, i: int, d: char) {
    0 <= i && i + 3 <= |model| && model[i] == '-' && IsLetterO(model[i + 1]) && model[i + 2] == d
  }

  /** `-o` followed by 1, 3 or 4 at index `i`, the `o` in either case. */
  predicate DashOAt(model: string, i: int) {
    DashOWith(model, i, '1') || DashOWith(model, i, '3') || DashOWith(model, i, '4')
  }

  /** The o-series test stated on the name as written, without lowering it. */
  ghost predicate OSeriesAsWritten(model: string) {
    (|model| >= 2 && IsLetterO(model[0]) && IsDigit(model[1]))
    || exists i :: DashOAt(model, i)
  }

  lemma LowerChar(c: char)
    ensures ToLowerChar(c) == 'o' <==> IsLetterO(c)
    ensures ToLowerChar(c) == '-' <==> c == '-'
    ensures IsDigit(ToLowerChar(c)) <==> IsDigit(c)
    ensures IsDigit(c) ==> ToLowerChar(c) == c
  {
  }

  /** A three-character pattern occurs at `i` iff its characters do. */
  lemma OccursThree(s: string, p: string, i: int)
    requires |p| == 3
    ensures Occurs(s, p, i) <==> 0 <= i && i + 3 <= |s| && s[i] == p[0] && s[i + 1] == p[1] && s[i + 2] == p[2]
  {
    if 0 <= i && i + 3 <= |s| && s[i] == p[0] && s[i + 1] == p[1] && s[i + 2] == p[2] {
      assert s[i..i + 3] == p;
    }
  }

  /** A dash, an `o` of either case and the digit `d` at some index. */
  ghost predicate DashODigit(model: string, d: char) {
    exists i :: DashOWith(model, i, d)
  }

  /** The lowered name contains `-o<d>` exactly where the name as written
      has a dash, an `o` of either case and the digit `d`. */
  lemma ContainsDashO(model: string, d: char)
    requires d == '1' || d == '3' || d == '4'
    ensures Contains(ToLowerAscii(model), ['-', 'o', d]) <==> DashODigit(model, d)
  {
    var m := ToLowerAscii(model);
    var p := ['-', 'o', d];
    if Contains(m, p) {
      var i :| 0 <= i <= |m| && Occurs(m, p, i);
      OccursThree(m, p, i);
      LowerChar(model[i]);
      LowerChar(model[i + 1]);
      LowerChar(model[i + 2]);
      assert DashOWith(model, i, d);
    }
    if DashODigit(model, d) {
      var i :| DashOWith(model, i, d);
      LowerChar(model[i]);
      LowerChar(model[i + 1]);
      LowerChar(model[i + 2]);
      OccursThree(m, p, i);
      assert Occurs(m, p, i);
    }
  }

  lemma DashODigits(model: string)
    ensures (exists i :: DashOAt(model, i))
        <==> DashODigit(model, '1') || DashODigit(model, '3') || DashODigit(model, '4')
  {
    if exists i :: DashOAt(model, i) {
      var i :| DashOAt(model, i);
    }
    if DashODigit(model, '1') {
      var i :| DashOWith(model, i, '1');
      assert DashOAt(model, i);
    }
    if DashODigit(model, '3') {
      var i :| DashOWith(model, i, '3');
      assert DashOAt(model, i);
    }
    if DashODigit(model, '4') {
      var i :| DashOWith(model, i, '4');
      assert DashOAt(model, i);
    }
  }

  /** The test is case-insensitive: it agrees with a reading of the name as
      written in which `o` and `O` are interchangeable. */
  lemma OSeriesCaseInsensitive(model: string)
    ensures IsOSeries(model) <==> OSeriesAsWritten(model)
  {
    var m := ToLowerAscii(model);
    if |model| >= 2 {
      LowerChar(model[0]);
      LowerChar(model[1]);
    }
    assert "-o1" == ['-', 'o', '1'] && "-o3" == ['-', 'o', '3'] && "-o4" == ['-', 'o', '4'];
    ContainsDashO(model, '1');
    ContainsDashO(model, '3');
    ContainsDashO(model, '4');
    DashODigits(model);
  }

  /** Lowering the name first changes nothing. */
  lemma OSeriesOfLowered(model: string)
    ensures IsOSeries(ToLowerAscii(model)) <==> IsOSeries(model)
  {
    var m := ToLowerAscii(model);
    assert ToLowerAscii(m) == m;
  }

  /** `getOpenAIReasoningEffort`: no effort for models outside the o-series;
      otherwise the thinking level, "high" when unset, with "minimal"
      raised to "low". */
  function ReasoningEffort(config: ChatConfig): (r: Option<Effort>)
    ensures r.None? <==> !IsOSeries(config.model)
    ensures r.Some? && config.thinkingLevel.None? ==> r.value == EffortHigh
    ensures r.Some? && config.thinkingLevel == Some(Minimal) ==> r.value == EffortLow
    ensures r.Some? && config.thinkingLevel == Some(Low) ==> r.value == EffortLow
    ensures r.Some? && config.thinkingLevel == Some(Medium) ==> r.value == EffortMedium
    ensures r.Some? && config.thinkingLevel == Some(High) ==> r.value == EffortHigh
  {
    if !IsOSeries(config.model) then None
    else
      match config.thinkingLevel.GetOr(High)
      case Minimal => Some(EffortLow)
      case Low => Some(EffortLow)
      case Medium => Some(EffortMedium)
      case High => Some(EffortHigh)
  }

  function LevelRank(l: ThinkingLevel): nat {
    match l
    case Minimal => 0
    case Low => 1
    case Medium => 2
    case High => 3
  }

  function EffortRank(e: Effort): nat {
    match e
    case EffortLow => 1
    case EffortMedium => 2
    case EffortHigh => 3
  }

  /** The effort never orders two levels the other way round, and agrees
      with the level wherever OpenAI has that level. */
  lemma EffortFollowsLevel(config: ChatConfig, a: ThinkingLevel, b: ThinkingLevel)
    requires IsOSeries(config.model)
    ensures LevelRank(a) <= LevelRank(b)
        ==> EffortRank(ReasoningEffort(config.(thinkingLevel := Some(a))).value)
            <= EffortRank(ReasoningEffort(config.(thinkingLevel := Some(b))).value)
    ensures a != Minimal ==> EffortRank(ReasoningEffort(config.(thinkingLevel := Some(a))).value) == LevelRank(a)
  {
  }

  /** The configuration as sent to the SDK: no thinking level, and each
      penalty only when it is non-zero. */
  datatype WireConfig = WireConfig(
    model: string,
    maxTokens: int,
    temperature: real,
    topP: real,
    presencePenalty: Option<real>,
    frequencyPenalty: Option<real>)

  /** `stripConfig` */
  function StripConfig(config: ChatConfig): (r: WireConfig)
    ensures r.model == config.model && r.maxTokens == config.maxTokens
    ensures r.temperature == config.temperature && r.topP == config.topP
    ensures r.presencePenalty.Some? <==> config.presencePenalty != 0.0
    ensures r.frequencyPenalty.Some? <==> config.frequencyPenalty != 0.0
    ensures r.presencePenalty.Some? ==> r.presencePenalty.value == config.presencePenalty
    ensures r.frequencyPenalty.Some? ==> r.frequencyPenalty.value == config.frequencyPenalty
  {
    WireConfig(
      config.model, config.maxTokens, config.temperature, config.topP,
      if config.presencePenalty != 0.0 then Some(config.presencePenalty) else None,
      if config.frequencyPenalty != 0.0 then Some(config.frequencyPenalty) else None)
  }

  /** Reading an absent penalty as the API's default of zero. */
  function Unstrip(w: WireConfig, level: Option<ThinkingLevel>): ChatConfig {
    ChatConfig(w.model, w.maxTokens, w.temperature, w.topP,
               w.presencePenalty.GetOr(0.0), w.frequencyPenalty.GetOr(0.0), level)
  }

  /** Stripping loses only the thinking level: everything else is recovered
      by reading a missing penalty as zero. */
  lemma StripConfigRoundTrip(config: ChatConfig)
    ensures Unstrip(StripConfig(config), config.thinkingLevel) == config
  {
  }

  /** A stripped configuration never carries a zero penalty, so stripping
      what was recovered gives it back. */
  lemma StripConfigCanonical(w: WireConfig, level: Option<ThinkingLevel>)
    requires w.presencePenalty != Some(0.0) && w.frequencyPenalty != Some(0.0)
    ensures StripConfig(Unstrip(w, level)) == w
  {
  }

  /** The body of a chat-completions request. */
  datatype Request = Request(
    config: WireConfig,
    messages: seq<Message>,
    stream: bool,
    reasoningEffort: Option<Effort>)

  /** The request both completion calls send; `reasoning_effort` is spread
      in only when the mapping yields one. */
  function BuildRequest(config: ChatConfig, messages: seq<Message>, stream: bool): (r: Request)
    ensures r.reasoningEffort.Some? <==> IsOSeries(config.model)
    ensures r.reasoningEffort.Some? ==> EffortName(r.reasoningEffort.value) != ""
    ensures r.messages == messages && r.stream == stream
    ensures Unstrip(r.config, config.thinkingLevel) == config
  {
    StripConfigRoundTrip(config);
    var effort := ReasoningEffort(config);
    Request(StripConfig(config), messages, stream, if effort.Some? && EffortName(effort.value) != "" then effort else None)
  }

  /** The SDK options a client is created with, tagged with a serial that
      distinguishes one `new OpenAI(...)` from another. */
  datatype Client = Client(serial: nat, apiKey: string, baseUrl: Option<string>)

  /** The module-level cache: the last client and the pair it was made for. */
  datatype ClientCache = ClientCache(client: Option<Client>, key: string, base: string)

  const EmptyCache := ClientCache(None, "", "")

  /** The cache key for a call: a missing API key is "", the base URL is trimmed. */
  function CacheKey(apiKey: Option<string>, baseUrl: string): (r: (string, string))
    ensures apiKey.Some? ==> r.0 == apiKey.value
    ensures apiKey.None? ==> r.0 == ""
    ensures r.1 == Trim(baseUrl)
  {
    (apiKey.GetOr(""), Trim(baseUrl))
  }

  /** `getOrCreateClient`: the cached client when one exists for the same
      normalised pair, otherwise a new client (numbered `serial`) that
      replaces the cache. */
  function GetOrCreateClient(cache: ClientCache, apiKey: Option<string>, baseUrl: string, serial: nat)
    : (r: (Client, ClientCache))
    requires cache.client.Some? ==> cache.client.value.serial != serial
    ensures r.1.client == Some(r.0)
    ensures (r.1.key, r.1.base) == CacheKey(apiKey, baseUrl)
    ensures cache.client == Some(r.0)
        <==> cache.client.Some? && (cache.key, cache.base) == CacheKey(apiKey, baseUrl)
    ensures cache.client != Some(r.0)
        ==> r.0 == Client(serial, r.1.key, if r.1.base == "" then None else Some(r.1.base))
  {
    var (key, base) := CacheKey(apiKey, baseUrl);
    if cache.client.Some? && cache.key == key && cache.base == base then
      (cache.client.value, cache)
    else
      var c := Client(serial, key, if base == "" then None else Some(base));
      (c, ClientCache(Some(c), key, base))
  }

  /** The cached client was created with the pair the cache records. */
  predicate CacheCoherent(cache: ClientCache) {
    cache.client.Some? ==>
      cache.client.value.apiKey == cache.key
      && cache.client.value.baseUrl == (if cache.base == "" then None else Some(cache.base))
  }

  /** Every call leaves a coherent cache, whatever it found. */
  lemma GetOrCreateKeepsCoherent(cache: ClientCache, apiKey: Option<string>, baseUrl: string, serial: nat)
    requires cache.client.Some? ==> cache.client.value.serial != serial
    requires CacheCoherent(cache)
    ensures CacheCoherent(GetOrCreateClient(cache, apiKey, baseUrl, serial).1)
  {
  }

  /** A second call with the same arguments returns the client of the first
      and leaves the cache as the first call left it. */
  lemma SecondCallReuses(cache: ClientCache, apiKey: Option<string>, baseUrl: string, s1: nat, s2: nat)
    requires cache.client.Some? ==> cache.client.value.serial != s1
    requires GetOrCreateClient(cache, apiKey, baseUrl, s1).0.serial != s2
    ensures var first := GetOrCreateClient(cache, apiKey, baseUrl, s1);
            GetOrCreateClient(first.1, apiKey, baseUrl, s2) == first
  {
  }

  /** A missing key and an empty key, and a base URL with or without
      surrounding whitespace, select the same client. */
  lemma CacheKeyNormalises(cache: ClientCache, apiKey: Option<string>, baseUrl: string, serial: nat)
    requires cache.client.Some? ==> cache.client.value.serial != serial
    ensures GetOrCreateClient(cache, None, baseUrl, serial) == GetOrCreateClient(cache, Some(""), baseUrl, serial)
    ensures GetOrCreateClient(cache, apiKey, Trim(baseUrl), serial) == GetOrCreateClient(cache, apiKey, baseUrl, serial)
  {
    TrimIdempotent(baseUrl);
  }
}
