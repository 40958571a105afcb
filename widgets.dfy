/**
 * Model selection and per-chat inference settings: the model-id mapping,
 * the mapping of the inference settings onto a generation config, and the
 * rules the settings editor applies when a field is switched on or off.
 */
module Widgets {
  import opened Base
  import Gemini

  /** The selectable models; the first one is the default. */
  datatype GeminiModel =
    | Gemini30Flash
    | Gemini30Pro
    | Gemini20Flash
    | Gemini20FlashLite
    | Gemini25Pro
    | Gemini25Flash
    | Gemini15Flash
    | Gemini15Flash8b
    | Gemini25FlashPreview0520
    | Gemini20FlashThinkingExp0121
    | Gemini20FlashThinkingExp1219
    | Gemma31bIt
    | Gemma34bIt
    | Gemma312bIt
    | Gemma327bIt
    | Gemma3nE4bIt
    | Gemma3nE2bIt
    | Gemini15Pro
    | Gemini25ProPreview0325
    | Gemini25ProPreview0506
    | Gemini25ProPreview0605

  /** The serialized name of a model (its serde `rename`). */
  function ModelName(m: GeminiModel): string {
    match m
    case Gemini30Flash => "gemini-3-flash-preview"
    case Gemini30Pro => "gemini-3-pro-preview"
    case Gemini20Flash => "gemini-2.0-flash"
    case Gemini20FlashLite => "gemini-2.0-flash-lite"
    case Gemini25Pro => "gemini-2.5-pro"
    case Gemini25Flash => "gemini-2.5-flash"
    case Gemini15Flash => "gemini-1.5-flash"
    case Gemini15Flash8b => "gemini-1.5-flash-8b"
    case Gemini25FlashPreview0520 => "gemini-2.5-flash-preview-05-20"
    case Gemini20FlashThinkingExp0121 => "gemini-2.0-flash-thinking-exp-01-21"
    case Gemini20FlashThinkingExp1219 => "gemini-2.0-flash-thinking-exp-1219"
    case Gemma31bIt => "gemma-3-1b-it"
    case Gemma34bIt => "gemma-3-4b-it"
    case Gemma312bIt => "gemma-3-12b-it"
    case Gemma327bIt => "gemma-3-27b-it"
    case Gemma3nE4bIt => "gemma-3n-e4b-it"
    case Gemma3nE2bIt => "gemma-3n-e2b-it"
    case Gemini15Pro => "gemini-1.5-pro"
    case Gemini25ProPreview0325 => "gemini-2.5-pro-preview-03-25"
    case Gemini25ProPreview0506 => "gemini-2.5-pro-preview-05-06"
    case Gemini25ProPreview0605 => "gemini-2.5-pro-preview-06-05"
  }

  /** Deserializing a model from its name, the inverse of `ModelName`; names are told apart by length first. */
  function ModelFromName(name: string): Option<GeminiModel> {
    match |name|
    case 13 =>
      if name == "gemma-3-1b-it" then Some(Gemma31bIt)
      else if name == "gemma-3-4b-it" then Some(Gemma34bIt)
      else None
    case 14 =>
      if name == "gemini-2.5-pro" then Some(Gemini25Pro)
      else if name == "gemma-3-12b-it" then Some(Gemma312bIt)
      else if name == "gemma-3-27b-it" then Some(Gemma327bIt)
      else if name == "gemini-1.5-pro" then Some(Gemini15Pro)
      else None
    case 15 =>
      if name == "gemma-3n-e4b-it" then Some(Gemma3nE4bIt)
      else if name == "gemma-3n-e2b-it" then Some(Gemma3nE2bIt)
      else None
    case 16 =>
      if name == "gemini-2.0-flash" then Some(Gemini20Flash)
      else if name == "gemini-2.5-flash" then Some(Gemini25Flash)
      else if name == "gemini-1.5-flash" then Some(Gemini15Flash)
      else None
    case 19 => if name == "gemini-1.5-flash-8b" then Some(Gemini15Flash8b) else None
    case 20 => if name == "gemini-3-pro-preview" then Some(Gemini30Pro) else None
    case 21 => if name == "gemini-2.0-flash-lite" then Some(Gemini20FlashLite) else None
    case 22 => if name == "gemini-3-flash-preview" then Some(Gemini30Flash) else None
    case 28 =>
      if name == "gemini-2.5-pro-preview-03-25" then Some(Gemini25ProPreview0325)
      else if name == "gemini-2.5-pro-preview-05-06" then Some(Gemini25ProPreview0506)
      else if name == "gemini-2.5-pro-preview-06-05" then Some(Gemini25ProPreview0605)
      else None
    case 30 => if name == "gemini-2.5-flash-preview-05-20" then Some(Gemini25FlashPreview0520) else None
    case 34 => if name == "gemini-2.0-flash-thinking-exp-1219" then Some(Gemini20FlashThinkingExp1219) else None
    case 35 => if name == "gemini-2.0-flash-thinking-exp-01-21" then Some(Gemini20FlashThinkingExp0121) else None
    case _ => None
  }

  /** What the serializer produces for a model: its name as a JSON string. */
  function ModelJson(m: GeminiModel): string {
    "\"" + ModelName(m) + "\""
  }

  /** `str::trim_matches` with a single-char pattern: every leading and trailing `c` removed. */
  function TrimMatches(s: string, c: char): (r: string)
    ensures |r| <= |s|
    decreases |s|
  {
    if |s| == 0 then s
    else if s[0] == c then TrimMatches(s[1..], c)
    else if s[|s| - 1] == c then TrimMatches(s[..|s| - 1], c)
    else s
  }

  /** `Display for GeminiModel`: the serialized name with the quotes trimmed. */
  function Display(m: GeminiModel): string {
    TrimMatches(ModelJson(m), '"')
  }

  /** `From<GeminiModel> for Model`: the API addresses a model as "models/" followed by its name. */
  function ToApiModel(m: GeminiModel): Gemini.Model {
    Gemini.Custom("models/" + ModelName(m))
  }

  lemma TrimQuotedName(name: string)
    requires |name| > 0 && name[0] != '"' && name[|name| - 1] != '"'
    ensures TrimMatches("\"" + name + "\"", '"') == name
  {
    var q := "\"" + name + "\"";
    var tail := name + "\"";
    assert q[1..] == tail;
    assert tail[..|tail| - 1] == name;
    assert TrimMatches(name, '"') == name;
    assert TrimMatches(tail, '"') == TrimMatches(name, '"');
  }

  /** Display shows exactly the serialized name, and the API id is "models/" + that name. */
  lemma DisplayIsName(m: GeminiModel)
    ensures Display(m) == ModelName(m)
    ensures ToApiModel(m).name == "models/" + Display(m)
  {
    TrimQuotedName(ModelName(m));
  }

  /** The serialized names are a faithful encoding: deserializing a name gives the model back. */
  lemma NameRoundTrip(m: GeminiModel)
    ensures ModelFromName(ModelName(m)) == Some(m)
  {
  }

  /** Distinct models have distinct serialized names, hence distinct API ids. */
  lemma NamesDistinct(a: GeminiModel, b: GeminiModel)
    requires a != b
    ensures ModelName(a) != ModelName(b) && ToApiModel(a) != ToApiModel(b)
  {
    NameRoundTrip(a);
    NameRoundTrip(b);
    assert ("models/" + ModelName(a))[7..] == ModelName(a);
    assert ("models/" + ModelName(b))[7..] == ModelName(b);
  }

  /** The inference settings of one model picker. */
  datatype ModelSettings = ModelSettings(
    temperature: Option<Gemini.F32>,
    topP: Option<Gemini.F32>,
    topK: Option<Gemini.u32>,
    numPredict: Option<Gemini.i32>,
    stop: Option<seq<string>>,
    includeThoughts: bool,
    thinkingBudget: Option<Gemini.i32>)

  const DefaultModelSettings := ModelSettings(None, None, None, None, None, false, None)

  /** Rust's `u32 as i32`: the bit pattern is kept, so values of 2^31 and above wrap to negatives. */
  function U32AsI32(k: Gemini.u32): (r: Gemini.i32)
    ensures (k as int) < 0x8000_0000 ==> r as int == k as int
    ensures (k as int) >= 0x8000_0000 ==> r as int == k as int - 0x1_0000_0000
  {
    if (k as int) < 0x8000_0000 then k as int as Gemini.i32 else (k as int - 0x1_0000_0000) as Gemini.i32
  }

  function I32AsU32(k: Gemini.i32): Gemini.u32 {
    if (k as int) >= 0 then k as int as Gemini.u32 else (k as int + 0x1_0000_0000) as Gemini.u32
  }

  /** The generation config sent with every request of a chat. */
  function ToGenerationConfig(s: ModelSettings): (c: Gemini.GenerationConfig)
    ensures c.temperature == s.temperature && c.topP == s.topP
    ensures c.maxOutputTokens == s.numPredict && c.stopSequences == s.stop
    ensures c.topK.Some? <==> s.topK.Some?
    ensures s.topK.Some? ==> c.topK.value == U32AsI32(s.topK.value)
    ensures c.thinkingConfig.Some? <==> (s.includeThoughts || s.thinkingBudget.Some?)
    ensures c.thinkingConfig.Some? ==>
      && (c.thinkingConfig.value.includeThoughts == Some(true) <==> s.includeThoughts)
      && (c.thinkingConfig.value.includeThoughts != Some(false))
      && c.thinkingConfig.value.thinkingBudget == s.thinkingBudget
  {
    var config := Gemini.DefaultGenerationConfig.(
      temperature := s.temperature,
      topP := s.topP,
      topK := if s.topK.Some? then Some(U32AsI32(s.topK.value)) else None,
      maxOutputTokens := s.numPredict,
      stopSequences := s.stop);
    if s.includeThoughts || s.thinkingBudget.Some? then
      var thinking := Gemini.DefaultThinkingConfig;
      var thinking := if s.includeThoughts then thinking.(includeThoughts := Some(true)) else thinking;
      var thinking := if s.thinkingBudget.Some? then thinking.(thinkingBudget := s.thinkingBudget) else thinking;
      config.(thinkingConfig := Some(thinking))
    else
      config
  }

  /** Reads the settings back out of a generation config. */
  function SettingsOf(c: Gemini.GenerationConfig): ModelSettings {
    ModelSettings(
      c.temperature, c.topP,
      if c.topK.Some? then Some(I32AsU32(c.topK.value)) else None,
      c.maxOutputTokens, c.stopSequences,
      c.thinkingConfig.Some? && c.thinkingConfig.value.includeThoughts == Some(true),
      if c.thinkingConfig.Some? then c.thinkingConfig.value.thinkingBudget else None)
  }

  /** The mapping loses nothing: every setting can be recovered from the config. */
  lemma ConfigRoundTrip(s: ModelSettings)
    ensures SettingsOf(ToGenerationConfig(s)) == s
  {
    if s.topK.Some? {
      var k := s.topK.value;
      assert I32AsU32(U32AsI32(k)) == k;
    }
  }

  /**
   * The rule every optional field of the editor follows: switched off, the
   * field becomes None; switched on while None, it takes the default; a
   * value that is already there stays.
   */
  function Toggle<T>(val: Option<T>, enabled: bool, default: T): (r: Option<T>)
    ensures r.Some? <==> enabled
    ensures enabled && val.Some? ==> r == val
    ensures enabled && val.None? ==> r == Some(default)
  {
    if !enabled then None
    else if val.None? then Some(default)
    else val
  }

  /**
   * Toggling is idempotent; switching a field on keeps a value it has; and
   * switching it off then on again starts over from the default.
   */
  lemma ToggleLaws<T>(val: Option<T>, enabled: bool, default: T)
    ensures Toggle(Toggle(val, enabled, default), enabled, default) == Toggle(val, enabled, default)
    ensures val.Some? ==> Toggle(val, true, default) == val
    ensures Toggle(Toggle(val, false, default), true, default) == Some(default)
  {
  }

  /** The budget the editor sets when the thinking budget is switched on: -1, the dynamic budget. */
  const DynamicThinkingBudget: Gemini.i32 := -1

  /**
   * One frame of the "Thinking" editor. `includeThoughts` is the checkbox
   * after this frame; the budget toggle is drawn disabled unless thoughts are
   * included, so a click on it only counts when they are.
   */
  function EditThinking(s: ModelSettings, includeThoughts: bool, budgetToggleClicked: bool): (r: ModelSettings)
    ensures r.includeThoughts == includeThoughts
    ensures !includeThoughts ==> r.thinkingBudget == s.thinkingBudget
    ensures includeThoughts && budgetToggleClicked && s.thinkingBudget.None? ==> r.thinkingBudget == Some(DynamicThinkingBudget)
    ensures includeThoughts && budgetToggleClicked && s.thinkingBudget.Some? ==> r.thinkingBudget.None?
    ensures !budgetToggleClicked ==> r.thinkingBudget == s.thinkingBudget
    ensures r == s.(includeThoughts := r.includeThoughts, thinkingBudget := r.thinkingBudget)
  {
    var enabled := s.thinkingBudget.Some? != (budgetToggleClicked && includeThoughts);
    s.(includeThoughts := includeThoughts, thinkingBudget := Toggle(s.thinkingBudget, enabled, DynamicThinkingBudget))
  }

  /** The most stop sequences the editor offers to add. */
  const MaxStopSequences := 5

  /** The indices below `n` that are not in `removed`, in increasing order. */
  function KeptIndices(n: nat, removed: set<nat>): (r: seq<nat>)
    ensures forall i: nat :: i in r <==> i < n && i !in removed
    ensures forall j :: 0 <= j < |r| ==> r[j] < n
    ensures forall j, k :: 0 <= j < k < |r| ==> r[j] < r[k]
  {
    if n == 0 then []
    else KeptIndices(n - 1, removed) + (if n - 1 in removed then [] else [n - 1])
  }

  /**
   * `Vec::retain` with a per-index verdict: exactly the entries whose index is
   * not in `removed`, in their order.
   */
  function Retain(list: seq<string>, removed: set<nat>): (r: seq<string>)
    ensures var kept := KeptIndices(|list|, removed);
      |r| == |kept| && forall j :: 0 <= j < |r| ==> r[j] == list[kept[j]]
  {
    if |list| == 0 then []
    else
      var init := list[..|list| - 1];
      var front := Retain(init, removed);
      assert forall j :: 0 <= j < |front| ==> front[j] == list[KeptIndices(|init|, removed)[j]];
      front + (if |list| - 1 in removed then [] else [list[|list| - 1]])
  }

  /** Nothing clicked keeps the list; every entry clicked empties it; the result never grows. */
  lemma RetainBounds(list: seq<string>, removed: set<nat>)
    ensures (forall i :: 0 <= i < |list| ==> i !in removed) ==> Retain(list, removed) == list
    ensures (forall i :: 0 <= i < |list| ==> i in removed) ==> Retain(list, removed) == []
    ensures |Retain(list, removed)| <= |list|
  {
    var kept := KeptIndices(|list|, removed);
    KeptIndicesBounds(|list|, removed);
    if forall i :: 0 <= i < |list| ==> i !in removed {
      KeptIndicesAll(|list|, removed);
    }
  }

  lemma {:induction false} KeptIndicesBounds(n: nat, removed: set<nat>)
    ensures |KeptIndices(n, removed)| <= n
    ensures (forall i :: 0 <= i < n ==> i in removed) ==> KeptIndices(n, removed) == []
  {
    if n > 0 {
      KeptIndicesBounds(n - 1, removed);
    }
  }

  lemma {:induction false} KeptIndicesAll(n: nat, removed: set<nat>)
    requires forall i :: 0 <= i < n ==> i !in removed
    ensures KeptIndices(n, removed) == seq(n, i => i)
  {
    if n > 0 {
      KeptIndicesAll(n - 1, removed);
    }
  }

  /**
   * One frame of the "Stop Sequence" editor: the enable toggle, then the
   * entries whose remove button was clicked are dropped, then an empty entry is
   * added if "Add" was clicked (the button exists only below five entries),
   * then "Clear" empties the list.
   */
  function EditStopList(stop: Option<seq<string>>, toggleClicked: bool, removed: set<nat>, addClicked: bool, clearClicked: bool): (r: Option<seq<string>>)
    ensures r.Some? <==> (stop.Some? != toggleClicked)
    ensures r.Some? && clearClicked ==> r.value == []
    ensures r.Some? && !clearClicked ==>
      var kept := Retain(if stop.Some? then stop.value else [], removed);
      r.value == kept + (if addClicked && |kept| < MaxStopSequences then [""] else [])
  {
    var enabled := stop.Some? != toggleClicked;
    var list := Toggle(stop, enabled, []);
    if list.None? then None
    else
      var kept := Retain(list.value, removed);
      var added := if |kept| < MaxStopSequences && addClicked then kept + [""] else kept;
      Some(if clearClicked then [] else added)
  }

  /** The editor never grows a list of at most five entries past five. */
  lemma StopListBounded(stop: Option<seq<string>>, toggleClicked: bool, removed: set<nat>, addClicked: bool, clearClicked: bool)
    requires stop.Some? ==> |stop.value| <= MaxStopSequences
    ensures var r := EditStopList(stop, toggleClicked, removed, addClicked, clearClicked);
      r.Some? ==> |r.value| <= MaxStopSequences
  {
    if stop.Some? {
      RetainBounds(stop.value, removed);
    }
  }

  /** Which backend a chat talks to. */
  datatype AuthMethod = ApiKey | CodeAssist

  datatype ModelPicker = ModelPicker(selected: GeminiModel, settings: ModelSettings, systemPrompt: Option<string>)

  const DefaultModelPicker := ModelPicker(Gemini30Flash, DefaultModelSettings, None)

  function GetGenerationConfig(p: ModelPicker): Gemini.GenerationConfig {
    ToGenerationConfig(p.settings)
  }

  /** The global settings. */
  datatype Settings = Settings(
    apiKey: string,
    modelPicker: ModelPicker,
    inheritChatPicker: bool,
    useStreaming: bool,
    includeThoughtsInHistory: bool,
    proxyPath: Option<string>,
    publicFileUpload: bool,
    authMethod: AuthMethod,
    oauthToken: string,
    projectId: string,
    availableProjects: seq<string>)

  const DefaultSettings := Settings("", DefaultModelPicker, true, true, false, None, false, ApiKey, "", "", [])
}
