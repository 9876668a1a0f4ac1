/** The generation flow of the main view without the remote calls themselves:
    the submit guard, the loading messages, the prompt suggestions, the mapping
    of a failure to a user-facing message with the quota cooldown, and the state
    changes around one generation. */
module Generation {
  import opened Wrappers
  import opened Text
  import opened Records
  import opened Imaging

  // ---------------------------------------------------------------------------
  // Error classification
  // ---------------------------------------------------------------------------

  datatype ErrorKind = QuotaExceeded | InvalidApiKey | ServerFailure | SafetyBlock | Unexpected

  /** One classification rule: the kind applies when any needle occurs. */
  datatype Rule = Rule(needles: seq<string>, kind: ErrorKind)

  /** The rules in the order they are tried. */
  const Rules := [
    Rule(["quota", "RESOURCE_EXHAUSTED"], QuotaExceeded),
    Rule(["API key not valid"], InvalidApiKey),
    Rule(["500", "Rpc failed", "xhr error"], ServerFailure),
    Rule(["SAFETY"], SafetyBlock)
  ]

  /** Some needle occurs in `text`. */
  function ContainsAny(text: string, needles: seq<string>): (b: bool)
    ensures b <==> exists i :: 0 <= i < |needles| && Contains(text, needles[i])
    decreases |needles|
  {
    if |needles| == 0 then false
    else Contains(text, needles[0]) || ContainsAny(text, needles[1..])
  }

  /** The index of the first rule that applies to `text`, or `|rules|` when none does. */
  function FirstMatch(rules: seq<Rule>, text: string): (i: nat)
    ensures i <= |rules|
    ensures i < |rules| ==> ContainsAny(text, rules[i].needles)
    ensures forall j :: 0 <= j < i ==> !ContainsAny(text, rules[j].needles)
    decreases |rules|
  {
    if |rules| == 0 then 0
    else if ContainsAny(text, rules[0].needles) then 0
    else 1 + FirstMatch(rules[1..], text)
  }

  /** The error handler's chain of `includes` tests on the error text. */
  function Classify(text: string): (k: ErrorKind)
    ensures Contains(text, "quota") ==> k == QuotaExceeded
    ensures Contains(text, "RESOURCE_EXHAUSTED") ==> k == QuotaExceeded
  {
    if Contains(text, "quota") || Contains(text, "RESOURCE_EXHAUSTED") then QuotaExceeded
    else if Contains(text, "API key not valid") then InvalidApiKey
    else if Contains(text, "500") || Contains(text, "Rpc failed") || Contains(text, "xhr error") then ServerFailure
    else if Contains(text, "SAFETY") then SafetyBlock
    else Unexpected
  }

  /** The handler's chain is the first-match reading of the rule table: the kind
      of the first rule with an occurring needle, and `Unexpected` when none has. */
  lemma ClassifyFollowsRules(text: string)
    ensures var i := FirstMatch(Rules, text);
            Classify(text) == if i < |Rules| then Rules[i].kind else Unexpected
  {
  }

  /** A quota failure stays a quota failure however the message is wrapped. */
  lemma QuotaSurvivesWrapping(prefix: string, text: string, suffix: string)
    requires Classify(text) == QuotaExceeded
    ensures Classify(prefix + text + suffix) == QuotaExceeded
  {
    if Contains(text, "quota") {
      ContainsInContext(prefix, text, suffix, "quota");
    } else {
      ContainsInContext(prefix, text, suffix, "RESOURCE_EXHAUSTED");
    }
  }

  function FriendlyMessage(k: ErrorKind): string {
    match k
    case QuotaExceeded =>
      "The service is currently at capacity. To prevent further errors, please wait about a minute before trying again."
    case InvalidApiKey =>
      "There seems to be a configuration issue with the service. Please contact support if the problem persists."
    case ServerFailure =>
      "A server-side error occurred while processing your request. This is likely a temporary issue. Please try again in a few moments."
    case SafetyBlock =>
      "The request was blocked due to safety policies. Please modify your prompt and try again."
    case Unexpected =>
      "An unexpected error occurred. Please adjust your prompt or try again later."
  }

  // ---------------------------------------------------------------------------
  // Loading messages
  // ---------------------------------------------------------------------------

  const VideoLoadingMessages := [
    "Animating your cherished moment. This can take a few minutes...",
    "Assembling the pixels of your past...",
    "Breathing life into your memory...",
    "This is a complex process, thank you for your patience.",
    "Just a little longer, the magic is happening...",
    "Finalizing the gentle movements of your living photograph..."
  ]

  /** The rotating loading message: the counter the interval callback reads and
      the message on screen. */
  datatype Ticker = Ticker(next: nat, shown: string)

  /** Before the interval starts: the first message is shown and the counter is 1. */
  function StartTicker(messages: seq<string>): Ticker
    requires |messages| > 0
  {
    Ticker(1, messages[0])
  }

  /** One interval callback: show the message at the counter, wrapped around the
      list, then advance the counter. */
  function Tick(messages: seq<string>, t: Ticker): (u: Ticker)
    requires |messages| > 0
    ensures u.next == t.next + 1
    ensures u.shown in messages
  {
    Ticker(t.next + 1, messages[t.next % |messages|])
  }

  function Ticks(messages: seq<string>, t: Ticker, k: nat): Ticker
    requires |messages| > 0
    decreases k
  {
    if k == 0 then t else Tick(messages, Ticks(messages, t, k - 1))
  }

  /** After `k` callbacks the screen shows message `k` modulo the list's length. */
  lemma {:induction false} TicksShowMessage(messages: seq<string>, k: nat)
    requires |messages| > 0
    ensures Ticks(messages, StartTicker(messages), k) == Ticker(k + 1, messages[k % |messages|])
    decreases k
  {
    if k > 0 {
      TicksShowMessage(messages, k - 1);
    }
  }

  /** Within any six consecutive counts there is one with each remainder mod 6. */
  lemma RemainderWithinSix(start: nat, m: nat) returns (k: nat)
    requires m < 6
    ensures start <= k < start + 6 && k % 6 == m
  {
    k := start + (m - start % 6 + 6) % 6;
  }

  /** Every video loading message is shown within any six consecutive callbacks. */
  lemma EveryMessageWithinSixTicks(start: nat, m: nat)
    requires m < |VideoLoadingMessages|
    ensures exists k :: start <= k < start + 6
                        && Ticks(VideoLoadingMessages, StartTicker(VideoLoadingMessages), k).shown
                           == VideoLoadingMessages[m]
  {
    var k := RemainderWithinSix(start, m);
    TicksShowMessage(VideoLoadingMessages, k);
  }

  // ---------------------------------------------------------------------------
  // Prompt suggestions
  // ---------------------------------------------------------------------------

  const ActionSuggestions := ["hugging warmly", "holding hands", "laughing together", "sharing a look", "walking side-by-side"]
  const EmotionSuggestions := ["smiling softly", "with joyful expressions", "looking peaceful", "with happy tears", "full of love"]
  const SettingSuggestions := ["in a sunlit garden", "on a beach at sunset", "under a starry night sky", "in a cozy kitchen", "on a park bench"]

  /** The suggestion buttons, in the order they are rendered. */
  const PromptSuggestions := ActionSuggestions + EmotionSuggestions + SettingSuggestions

  /** Clicking a suggestion: the trimmed prompt, a space and the suggestion, trimmed. */
  function AppendSuggestion(prompt: string, suggestion: string): (r: string)
    ensures NoOuterWhitespace(r)
    ensures Trim(prompt) == "" ==> r == Trim(suggestion)
    ensures Trim(prompt) != "" && suggestion != "" && NoOuterWhitespace(suggestion) ==>
              r == Trim(prompt) + " " + suggestion
  {
    var p := Trim(prompt);
    if p == "" then
      AppendToBlank(p, suggestion);
      Trim(p + " " + suggestion)
    else if suggestion != "" && NoOuterWhitespace(suggestion) then
      AppendToTrimmed(p, suggestion);
      Trim(p + " " + suggestion)
    else
      Trim(p + " " + suggestion)
  }

  /** After an empty prompt only the suggestion is left once trimmed. */
  lemma AppendToBlank(p: string, suggestion: string)
    requires p == ""
    ensures Trim(p + " " + suggestion) == Trim(suggestion)
  {
  }

  /** A trimmed prompt, a space and a trimmed suggestion need no trimming. */
  lemma AppendToTrimmed(p: string, suggestion: string)
    requires p != "" && NoOuterWhitespace(p)
    requires suggestion != "" && NoOuterWhitespace(suggestion)
    ensures Trim(p + " " + suggestion) == p + " " + suggestion
  {
  }

  /** None of the canned suggestions has whitespace at either end. */
  lemma SuggestionsAreTrimmed()
    ensures forall i :: 0 <= i < |PromptSuggestions| ==>
              PromptSuggestions[i] != "" && NoOuterWhitespace(PromptSuggestions[i])
  {
  }

  /** A canned suggestion becomes the whole prompt when the prompt is blank and
      is otherwise added after one space. */
  lemma AppendCannedSuggestion(prompt: string, i: nat)
    requires i < |PromptSuggestions|
    ensures AppendSuggestion(prompt, PromptSuggestions[i])
            == if Trim(prompt) == "" then PromptSuggestions[i]
               else Trim(prompt) + " " + PromptSuggestions[i]
  {
    SuggestionsAreTrimmed();
    TrimKeepsTrimmed(PromptSuggestions[i]);
  }

  // ---------------------------------------------------------------------------
  // The state around one generation
  // ---------------------------------------------------------------------------

  /** The generated output: a data URL for a picture (kept as the original the
      edits are applied to) or an object URL for a video. */
  datatype ResultState = ResultState(outputType: OutputType, url: string, originalUrl: Option<string>)

  datatype AppState = AppState(
    userImage: Option<ImageState>,
    theirImage: Option<ImageState>,
    prompt: string,
    outputType: OutputType,
    isLoading: bool,
    loadingMessage: string,
    error: Option<string>,
    result: Option<ResultState>,
    edits: EditSettings,
    apiBlocked: bool,
    saveStatus: Option<string>)

  const MissingInputMessage := "Please provide both images and a description."

  /** The submit guard: both pictures present and a non-empty prompt. A prompt
      of only spaces is not empty. */
  predicate GuardPasses(st: AppState) {
    st.userImage.Some? && st.theirImage.Some? && st.prompt != ""
  }

  /** The main button is enabled. */
  predicate SubmitEnabled(st: AppState) {
    !st.isLoading && st.userImage.Some? && st.theirImage.Some? && st.prompt != "" && !st.apiBlocked
  }

  /** The edit panel's regenerate button is enabled; it does not look at the inputs. */
  predicate RegenerateEnabled(st: AppState) {
    !st.isLoading && !st.apiBlocked
  }

  function StartMessage(t: OutputType): string {
    match t
    case ImageOutput => "Weaving your memory into a picture..."
    case VideoOutput => "Step 1/2: Creating the perfect scene..."
  }

  /** Submitting: a failed guard only sets the error; otherwise the previous
      error, result, edits and save status are cleared and loading starts. */
  function Submit(st: AppState): (s: AppState)
    ensures !GuardPasses(st) ==> s == st.(error := Some(MissingInputMessage))
    ensures GuardPasses(st) ==>
              && s.isLoading && s.error.None? && s.result.None? && s.saveStatus.None?
              && s.edits == DefaultEdits && s.loadingMessage == StartMessage(st.outputType)
              && s.userImage == st.userImage && s.theirImage == st.theirImage
              && s.prompt == st.prompt && s.outputType == st.outputType && s.apiBlocked == st.apiBlocked
  {
    if !GuardPasses(st) then
      st.(error := Some(MissingInputMessage))
    else
      st.(error := None, isLoading := true, result := None, edits := DefaultEdits,
          saveStatus := None, loadingMessage := StartMessage(st.outputType))
  }

  /** How the remote calls end: a picture's MIME type and base64 data, a video's
      object URL, or a failure with the text of the error. */
  datatype Outcome = ImageMade(mimeType: string, data: string) | VideoMade(objectUrl: string) | Failed(errorText: string)

  /** Ending a generation: loading stops in every case; a picture or a video
      becomes the result; a failure shows its friendly message and, for a quota
      failure only, blocks the service. */
  function Finish(st: AppState, outcome: Outcome): (s: AppState)
    ensures !s.isLoading && s.loadingMessage == ""
    ensures s.edits == st.edits && s.prompt == st.prompt
    ensures s.userImage == st.userImage && s.theirImage == st.theirImage
    ensures outcome.Failed? ==>
              && s.error == Some(FriendlyMessage(Classify(outcome.errorText)))
              && s.result == st.result
              && (s.apiBlocked <==> st.apiBlocked || Classify(outcome.errorText) == QuotaExceeded)
    ensures !outcome.Failed? ==> s.error == st.error && s.apiBlocked == st.apiBlocked && s.result.Some?
    ensures outcome.ImageMade? ==>
              s.result == Some(ResultState(ImageOutput, BuildDataUrl(outcome.mimeType, outcome.data),
                                           Some(BuildDataUrl(outcome.mimeType, outcome.data))))
    ensures outcome.VideoMade? ==> s.result == Some(ResultState(VideoOutput, outcome.objectUrl, None))
  {
    var done := st.(isLoading := false, loadingMessage := "");
    match outcome
    case ImageMade(mimeType, data) =>
      var url := BuildDataUrl(mimeType, data);
      done.(result := Some(ResultState(ImageOutput, url, Some(url))))
    case VideoMade(objectUrl) =>
      done.(result := Some(ResultState(VideoOutput, objectUrl, None)))
    case Failed(text) =>
      var kind := Classify(text);
      done.(error := Some(FriendlyMessage(kind)), apiBlocked := st.apiBlocked || kind == QuotaExceeded)
  }

  /** The cooldown timer fires: the service is unblocked and the error cleared. */
  function CooldownExpired(st: AppState): (s: AppState)
    ensures !s.apiBlocked && s.error.None?
    ensures s.(apiBlocked := st.apiBlocked, error := st.error) == st
  {
    st.(apiBlocked := false, error := None)
  }

  /** While the service is blocked neither generate button is enabled. */
  lemma BlockDisablesGeneration(s: AppState)
    requires s.apiBlocked
    ensures !SubmitEnabled(s) && !RegenerateEnabled(s)
  {
  }

  /** A quota failure blocks the service, so both generate buttons are
      disabled, and shows the capacity message. */
  lemma QuotaFailureBlocks(st: AppState, text: string)
    requires Classify(text) == QuotaExceeded
    ensures var s := Finish(st, Failed(text));
            && s.apiBlocked && !SubmitEnabled(s) && !RegenerateEnabled(s)
            && s.error == Some(FriendlyMessage(QuotaExceeded))
  {
    BlockDisablesGeneration(Finish(st, Failed(text)));
  }

  /** Once the cooldown fires after a finished generation, both buttons are
      enabled again, the main one as soon as the inputs pass the guard. */
  lemma CooldownReenables(s: AppState)
    requires !s.isLoading
    ensures RegenerateEnabled(CooldownExpired(s))
    ensures SubmitEnabled(CooldownExpired(s)) <==> GuardPasses(s)
  {
  }

  /** An enabled main button always passes the guard, so the guard message is
      only reached through the regenerate button. */
  lemma EnabledSubmitPassesGuard(st: AppState)
    requires SubmitEnabled(st)
    ensures Submit(st).isLoading && Submit(st).error.None?
  {
  }

  /** The guard only rejects an empty prompt: a non-empty prompt of nothing
      but whitespace passes it, although it trims to nothing. */
  lemma BlankPromptPassesGuard(st: AppState)
    requires st.userImage.Some? && st.theirImage.Some?
    requires st.prompt != "" && AllWhitespace(st.prompt)
    ensures Submit(st).isLoading
    ensures Trim(st.prompt) == ""
  {
  }

  /** A generated picture's payload can be read back from the result's URL. */
  lemma ImageResultKeepsPayload(st: AppState, mimeType: string, data: string)
    requires ',' !in mimeType && ',' !in data
    ensures var s := Finish(st, ImageMade(mimeType, data));
            s.result.Some? && ExtractPayload(s.result.value.url) == Some(data)
  {
    DataUrlRoundTrip(mimeType, data);
  }
}
