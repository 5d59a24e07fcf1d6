/** Generation settings: validation, the approve-request parser, the upstream
    request body and the label the terminal shows
    (internal/provider/settings.go, internal/provider/deepseek/deepseek.go,
    internal/client/cli.go). */
module Settings {
  import opened Base

  const FLASH := "deepseek-v4-flash"
  const PRO := "deepseek-v4-pro"

  datatype GenerationSettings =
    GenerationSettings(model: string, thinkingEnabled: bool, reasoningEffort: string)
  {
    /** Normalized internal form. */
    predicate Valid() {
      KnownModel(model) &&
      if thinkingEnabled then KnownEffort(reasoningEffort) else reasoningEffort == ""
    }
  }

  /** The zero value of the Go struct. */
  const ZERO := GenerationSettings("", false, "")

  const DEFAULT := GenerationSettings(FLASH, true, "high")

  predicate KnownModel(m: string) { m == FLASH || m == PRO }

  predicate KnownEffort(e: string) { e == "low" || e == "high" || e == "max" }

  datatype ParseError = UnsupportedModel(raw: string) | UnsupportedEffort(raw: string)

  /** Parses the raw fields of an approve request. The first clause says exactly
      when a request is refused; an effort sent along with thinking switched off
      is ignored, whatever it is. */
  method ParseSettings(defaultModel: string, modelRaw: string, thinking: Option<bool>, effortRaw: string)
      returns (r: Result<GenerationSettings, ParseError>)
    ensures r.Ok? <==>
      && (modelRaw == "" || KnownModel(modelRaw))
      && (thinking != Some(false) ==> effortRaw == "" || KnownEffort(effortRaw))
    ensures r.Err? ==>
      r.error == (if modelRaw == "" || KnownModel(modelRaw) then UnsupportedEffort(effortRaw)
                  else UnsupportedModel(modelRaw))
    ensures r.Ok? ==> r.value.Valid()
    ensures r.Ok? ==> r.value.thinkingEnabled == (thinking != Some(false))
    ensures r.Ok? && modelRaw != "" ==> r.value.model == modelRaw
    ensures r.Ok? && modelRaw == "" ==> r.value.model == (if KnownModel(defaultModel) then defaultModel else FLASH)
    ensures r.Ok? && r.value.thinkingEnabled ==>
      r.value.reasoningEffort == (if effortRaw != "" then effortRaw else "high")
    ensures r.Ok? && !r.value.thinkingEnabled ==> r.value.reasoningEffort == ""
  {
    var s := DEFAULT;
    if defaultModel != "" {
      if KnownModel(defaultModel) {
        s := s.(model := defaultModel);
      } else {
        s := s.(model := FLASH);
      }
    }
    if modelRaw != "" {
      if KnownModel(modelRaw) {
        s := s.(model := modelRaw);
      } else {
        return Err(UnsupportedModel(modelRaw));
      }
    }
    if thinking.Some? {
      s := s.(thinkingEnabled := thinking.value);
    }
    if s.thinkingEnabled {
      if effortRaw != "" {
        if KnownEffort(effortRaw) {
          s := s.(reasoningEffort := effortRaw);
        } else {
          return Err(UnsupportedEffort(effortRaw));
        }
      }
    } else {
      s := s.(reasoningEffort := "");
    }
    return Ok(s);
  }

  /** The settings part of the JSON body sent upstream. */
  datatype UpstreamBody = UpstreamBody(model: string, thinkingType: string, reasoningEffort: string)

  /** What an upstream body asks for. */
  function Meaning(b: UpstreamBody): GenerationSettings {
    GenerationSettings(b.model, b.thinkingType == "enabled", b.reasoningEffort)
  }

  /** The settings the DeepSeek client uses for `s`: never an invalid combination. */
  function Effective(clientModel: string, s: GenerationSettings): GenerationSettings {
    if s.Valid() then s
    else if s.model == "" && KnownModel(clientModel) then DEFAULT.(model := clientModel)
    else DEFAULT
  }

  /** Builds the settings part of the upstream body. */
  method RequestBody(clientModel: string, requested: GenerationSettings) returns (body: UpstreamBody)
    ensures Meaning(body) == Effective(clientModel, requested)
    ensures Meaning(body).Valid()
    ensures body.thinkingType == if Meaning(body).thinkingEnabled then "enabled" else "disabled"
    ensures requested.Valid() ==> Meaning(body) == requested
    ensures !requested.Valid() ==>
      && Meaning(body).thinkingEnabled && body.reasoningEffort == "high"
      && body.model == if requested.model == "" && KnownModel(clientModel) then clientModel else FLASH
  {
    var settings := requested;
    if settings.model == "" {
      settings := DEFAULT;
      if clientModel != "" {
        settings := settings.(model := clientModel);
      }
    }
    if !settings.Valid() {
      settings := DEFAULT;
    }
    body := UpstreamBody(settings.model, "enabled", settings.reasoningEffort);
    if !settings.thinkingEnabled {
      body := body.(thinkingType := "disabled", reasoningEffort := "");
    }
  }

  /** The settings part of a status response. */
  datatype StatusSettings = StatusSettings(model: string, thinkingEnabled: Option<bool>, reasoningEffort: string)

  /** The settings handleStatus puts in its response; none when the session has no model yet. */
  function StatusOf(s: GenerationSettings): StatusSettings {
    if s.model != "" then StatusSettings(s.model, Some(s.thinkingEnabled), s.reasoningEffort)
    else StatusSettings("", None, "")
  }

  /** The line the terminal prints after approval. */
  function Label(st: StatusSettings): string {
    if st.model == "" then ""
    else
      (if st.model == PRO then "DeepSeek V4 Pro" else "DeepSeek V4 Flash")
      + " \U{00B7} Thinking "
      + (if st.thinkingEnabled != Some(true) then "Off"
         else if st.reasoningEffort == "low" then "Low"
         else if st.reasoningEffort == "max" then "Max"
         else "High")
  }

  /** The label of valid settings names the model and the effort that are set. */
  lemma LabelNames(s: GenerationSettings)
    requires s.Valid()
    ensures var l := Label(StatusOf(s));
      && |l| > 20
      && (s.model == PRO ==> l[..15] == "DeepSeek V4 Pro") && (s.model == FLASH ==> l[..17] == "DeepSeek V4 Flash")
      && (!s.thinkingEnabled ==> l[|l| - 3..] == "Off")
      && (s.reasoningEffort == "low" ==> l[|l| - 3..] == "Low")
      && (s.reasoningEffort == "max" ==> l[|l| - 3..] == "Max")
      && (s.reasoningEffort == "high" ==> l[|l| - 4..] == "High")
  {
    var model := if s.model == PRO then "DeepSeek V4 Pro" else "DeepSeek V4 Flash";
    var effort := if !s.thinkingEnabled then "Off" else if s.reasoningEffort == "low" then "Low"
                  else if s.reasoningEffort == "max" then "Max" else "High";
    LabelParts(model, effort, Label(StatusOf(s)));
  }

  lemma LabelParts(model: string, effort: string, l: string)
    requires |model| >= 15 && |effort| >= 3 && l == model + " \U{00B7} Thinking " + effort
    ensures |l| > 20 && l[|l| - |effort|..] == effort && l[..|model|] == model
  { }

  /** The label is a faithful name of the approved settings: two valid settings
      with the same label are the same settings. */
  lemma LabelDeterminesSettings(a: GenerationSettings, b: GenerationSettings)
    requires a.Valid() && b.Valid()
    requires Label(StatusOf(a)) == Label(StatusOf(b))
    ensures a == b
  {
    var la, lb := Label(StatusOf(a)), Label(StatusOf(b));
    assert la[12] == if a.model == PRO then 'P' else 'F';
    assert lb[12] == if b.model == PRO then 'P' else 'F';
    assert la[13] == if a.model == PRO then 'r' else 'l';
    var n := if a.model == PRO then 27 else 29;
    assert |la| == n + (if a.thinkingEnabled && a.reasoningEffort == "high" then 4 else 3);
    assert la[n] == if !a.thinkingEnabled then 'O' else if a.reasoningEffort == "low" then 'L'
                    else if a.reasoningEffort == "max" then 'M' else 'H';
    assert lb[n] == if !b.thinkingEnabled then 'O' else if b.reasoningEffort == "low" then 'L'
                    else if b.reasoningEffort == "max" then 'M' else 'H';
  }
}
