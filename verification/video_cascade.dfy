/** `generateVideo`: the fixed three-tier cascade Veo Fast, then Veo Standard, then a
    still image from Imagen, escalating only on quota errors. Every foreign call is an
    oracle in `Services`; the cascade also reports which tiers it invoked, with the
    model and prompt handed to each. */
module VideoCascade {
  import opened Wrappers
  import opened Text
  import opened GeminiErrors
  import opened VeoAttempt

  const VeoFastModel: string := "veo-3.1-fast-generate-preview"
  const VeoStandardModel: string := "veo-3.1-generate-preview"
  const ImagenModel: string := "imagen-4.0-generate-001"

  const KeyMissingMessage: string := "API Key is missing. Please ensure you have selected a key."
  const AllFailedMessage: string := "All generation attempts failed (Video & Image quotas exceeded)."
  const ImagenSuffix: string := ", cinematic, photorealistic, 8k, video frame"
  const JpegDataPrefix: string := "data:image/jpeg;base64,"
  const VideoMime: string := "video/mp4"
  const ImageMime: string := "image/jpeg"

  /** The requested clip length; "5s" is the default. */
  datatype Duration = FiveSeconds | TenSeconds | TwentySeconds {
    function Label(): string {
      match this
      case FiveSeconds => "5s"
      case TenSeconds => "10s"
      case TwentySeconds => "20s"
    }
  }

  datatype Tier = VeoFast | VeoStandard | Imagen {
    /** The `modelUsed` label reported for a result from this tier. */
    function Label(): string {
      match this
      case VeoFast => "Veo Fast"
      case VeoStandard => "Veo Standard"
      case Imagen => "Imagen 3 (Fallback)"
    }
    function Model(): string {
      match this
      case VeoFast => VeoFastModel
      case VeoStandard => VeoStandardModel
      case Imagen => ImagenModel
    }
  }

  /** The order in which tiers are tried. */
  const TierOrder: seq<Tier> := [VeoFast, VeoStandard, Imagen]

  /** One tier invocation: which tier, the model id and the prompt it was given. */
  datatype Attempt = Attempt(tier: Tier, model: string, prompt: string)

  /** `VideoResult`. */
  datatype VideoResult = VideoResult(url: string, contentType: string, isFallback: bool, modelUsed: string)

  /** The foreign calls: a Veo attempt's script for (model, prompt, reference image),
      `generateImage` for a prompt (base64 image bytes, or what it threw), and
      `JSON.parse` as `parseGeminiError` uses it. */
  datatype Services = Services(
    veo: (string, string, Option<string>) -> VeoScript,
    imagen: string -> Result<string, RawError>,
    jsonParse: string -> JsonParse)

  /** What the caller of `generateVideo` sees (a result or a thrown message), and the
      tiers that were invoked, in order. */
  datatype Generation = Generation(result: Result<VideoResult, string>, attempts: seq<Attempt>)

  /** The prompt sent to every tier: the user's prompt, with a length request added
      for any duration other than the default "5s". */
  function FinalPrompt(prompt: string, d: Duration): (r: string)
    ensures prompt <= r
    ensures r == prompt <==> d == FiveSeconds
  {
    if d != FiveSeconds then prompt + " (Create a video that is approximately " + d.Label() + " long)"
    else prompt
  }

  /** The Imagen tier's prompt: the final prompt with the still-frame style suffix. */
  function ImagenPrompt(finalPrompt: string): string {
    finalPrompt + ImagenSuffix
  }

  /** The outcome of the Veo attempt for `tier`. */
  function VeoOutcome(envKey: string, svc: Services, tier: Tier, finalPrompt: string, image: Option<string>)
    : Result<string, RawError>
  {
    AttemptVeo(envKey, svc.veo(tier.Model(), finalPrompt, image))
  }

  /** A Veo tier's success: a video, never marked as a fallback. */
  function VideoSuccess(url: string, tier: Tier): VideoResult {
    VideoResult(url, VideoMime, false, tier.Label())
  }

  /** The prompt a tier is given. */
  function PromptFor(tier: Tier, finalPrompt: string): string {
    if tier == Imagen then ImagenPrompt(finalPrompt) else finalPrompt
  }

  /** The first `n` tiers of the order, as invoked. */
  function AttemptsUpTo(n: nat, finalPrompt: string): (r: seq<Attempt>)
    requires n <= |TierOrder|
    ensures |r| == n
    ensures forall k :: 0 <= k < n ==>
      r[k] == Attempt(TierOrder[k], TierOrder[k].Model(), PromptFor(TierOrder[k], finalPrompt))
  {
    seq(n, k requires 0 <= k < n => Attempt(TierOrder[k], TierOrder[k].Model(), PromptFor(TierOrder[k], finalPrompt)))
  }

  /** The cascade from tier number `k` on, given what each Veo tier's attempt
      would return (`veo`), what the Imagen call would return (`imagen`) and the
      `JSON.parse` used to classify errors: the outcome and how many tiers were
      invoked in all. A Veo tier escalates on a quota error and aborts with the
      classified message otherwise; Imagen is the last resort. */
  function TryFrom(k: nat, veo: Tier -> Result<string, RawError>, imagen: Result<string, RawError>,
                   parse: string -> JsonParse)
    : (r: (Result<VideoResult, string>, nat))
    requires k < |TierOrder|
    ensures k < r.1 <= |TierOrder|
    ensures r.0.Success? ==>
      var last := TierOrder[r.1 - 1];
      && r.0.value.modelUsed == last.Label()
      && (r.0.value.isFallback <==> last == Imagen)
      && r.0.value.contentType == (if last == Imagen then ImageMime else VideoMime)
    ensures forall j :: k <= j < r.1 - 1 ==>
      TierOrder[j] != Imagen && veo(TierOrder[j]).Failure? && IsQuotaError(veo(TierOrder[j]).error)
    ensures var last := TierOrder[r.1 - 1];
      last != Imagen ==>
        match veo(last)
        case Success(url) => r.0 == Success(VideoResult(url, VideoMime, false, last.Label()))
        case Failure(e) => !IsQuotaError(e) && r.0 == Failure(ParseGeminiError(e, parse))
    ensures TierOrder[r.1 - 1] == Imagen ==>
      match imagen
      case Success(bytes) => r.0 == Success(VideoResult(JpegDataPrefix + bytes, ImageMime, true, Imagen.Label()))
      case Failure(_) => r.0 == Failure(AllFailedMessage)
    decreases |TierOrder| - k
  {
    var tier := TierOrder[k];
    if tier == Imagen then
      match imagen
      case Success(bytes) => (Success(VideoResult(JpegDataPrefix + bytes, ImageMime, true, Imagen.Label())), k + 1)
      case Failure(_) => (Failure(AllFailedMessage), k + 1)
    else
      match veo(tier)
      case Success(url) => (Success(VideoSuccess(url, tier)), k + 1)
      case Failure(e) =>
        if IsQuotaError(e) then TryFrom(k + 1, veo, imagen, parse)
        else (Failure(ParseGeminiError(e, parse)), k + 1)
  }

  /** How a request's result follows from the last tier invoked, given that tier's
      Veo outcome and Imagen outcome: a Veo success is the video, a Veo failure (not
      a quota error, or the cascade would have gone on) is thrown as classified, and
      Imagen gives the JPEG data URL or the all-failed message. */
  predicate FromLast(result: Result<VideoResult, string>, tier: Tier, veo: Result<string, RawError>,
                     imagen: Result<string, RawError>, parse: string -> JsonParse)
  {
    if tier == Imagen then
      match imagen
      case Success(bytes) => result == Success(VideoResult(JpegDataPrefix + bytes, ImageMime, true, Imagen.Label()))
      case Failure(_) => result == Failure(AllFailedMessage)
    else
      match veo
      case Success(url) => result == Success(VideoSuccess(url, tier))
      case Failure(e) => !IsQuotaError(e) && result == Failure(ParseGeminiError(e, parse))
  }

  /** What each Veo tier's attempt returns for this request. */
  function VeoOutcomes(envKey: string, svc: Services, finalPrompt: string, image: Option<string>)
    : Tier -> Result<string, RawError>
  {
    t => VeoOutcome(envKey, svc, t, finalPrompt, image)
  }

  /** `generateVideo(prompt, duration, image)` with `envKey` the configured key
      ("" when unset). Tiers are invoked strictly in the order Veo Fast, Veo
      Standard, Imagen, each with its model and prompt, and a success reports the
      tier that produced it. */
  function GenerateVideo(envKey: string, prompt: string, duration: Duration, image: Option<string>, svc: Services)
    : (g: Generation)
    ensures envKey == "" <==> g.attempts == []
    ensures envKey == "" ==> g.result == Failure(KeyMissingMessage)
    ensures |g.attempts| <= |TierOrder|
    ensures forall k :: 0 <= k < |g.attempts| ==> g.attempts[k].tier == TierOrder[k]
    ensures forall k :: 0 <= k < |g.attempts| ==> g.attempts[k].model == g.attempts[k].tier.Model()
    ensures forall k :: 0 <= k < |g.attempts| ==>
      g.attempts[k].prompt ==
        (if g.attempts[k].tier == Imagen then ImagenPrompt(FinalPrompt(prompt, duration))
         else FinalPrompt(prompt, duration))
    ensures g.result.Success? ==>
      var last := g.attempts[|g.attempts| - 1].tier;
      && |g.attempts| > 0
      && g.result.value.modelUsed == last.Label()
      && (g.result.value.isFallback <==> last == Imagen)
      && g.result.value.contentType == (if last == Imagen then ImageMime else VideoMime)
    ensures envKey != "" ==>
      var a := g.attempts[|g.attempts| - 1];
      FromLast(g.result, a.tier, VeoOutcome(envKey, svc, a.tier, a.prompt, image), svc.imagen(a.prompt), svc.jsonParse)
  {
    if envKey == "" then Generation(Failure(KeyMissingMessage), [])
    else
      var fp := FinalPrompt(prompt, duration);
      var (result, n) := TryFrom(0, VeoOutcomes(envKey, svc, fp, image), svc.imagen(ImagenPrompt(fp)), svc.jsonParse);
      Generation(result, AttemptsUpTo(n, fp))
  }

  /** A tier is left for the next one only after a quota error: every tier invoked
      before the last one was a Veo tier whose attempt failed with a quota error. */
  lemma EscalatesOnlyOnQuota(envKey: string, prompt: string, duration: Duration, image: Option<string>, svc: Services)
    ensures var g := GenerateVideo(envKey, prompt, duration, image, svc);
      forall k :: 0 <= k < |g.attempts| - 1 ==>
        && g.attempts[k].tier != Imagen
        && var o := VeoOutcome(envKey, svc, g.attempts[k].tier, FinalPrompt(prompt, duration), image);
           o.Failure? && IsQuotaError(o.error)
  {
    if envKey != "" {
      var fp := FinalPrompt(prompt, duration);
      var veo := VeoOutcomes(envKey, svc, fp, image);
      var (result, n) := TryFrom(0, veo, svc.imagen(ImagenPrompt(fp)), svc.jsonParse);
      var g := GenerateVideo(envKey, prompt, duration, image, svc);
      assert g.attempts == AttemptsUpTo(n, fp);
      forall k | 0 <= k < |g.attempts| - 1
        ensures g.attempts[k].tier == TierOrder[k]
        ensures veo(TierOrder[k]) == VeoOutcome(envKey, svc, TierOrder[k], fp, image)
      {
      }
    }
  }

  /** A Veo Fast success is returned at once as a video that is not a fallback;
      neither later tier is invoked. */
  lemma FastSuccess(veo: Tier -> Result<string, RawError>, imagen: Result<string, RawError>,
                    parse: string -> JsonParse)
    requires veo(VeoFast).Success?
    ensures TryFrom(0, veo, imagen, parse) ==
      (Success(VideoResult(veo(VeoFast).value, VideoMime, false, "Veo Fast")), 1)
  {
  }

  /** A quota error from the `generateVideos` submission itself (an SDK 429, say)
      reaches the cascade unchanged, so the request moves on to Veo Standard. */
  lemma SubmissionQuotaEscalates(envKey: string, fast: VeoScript, veo: Tier -> Result<string, RawError>,
                                 imagen: Result<string, RawError>, parse: string -> JsonParse)
    requires Trim(envKey) != ""
    requires fast.submission.Failure? && IsQuotaError(fast.submission.error)
    requires veo(VeoFast) == AttemptVeo(envKey, fast)
    ensures TryFrom(0, veo, imagen, parse).1 >= 2
  {
  }

  /** A non-quota failure of Veo Fast ends the request with the classified message;
      neither later tier is invoked. */
  lemma FastNonQuotaAborts(veo: Tier -> Result<string, RawError>, imagen: Result<string, RawError>,
                           parse: string -> JsonParse)
    requires veo(VeoFast).Failure? && !IsQuotaError(veo(VeoFast).error)
    ensures TryFrom(0, veo, imagen, parse) == (Failure(ParseGeminiError(veo(VeoFast).error, parse)), 1)
  {
  }

  /** A non-quota failure of Veo Standard after a quota error of Veo Fast ends the
      request likewise; Imagen is not invoked. */
  lemma StandardNonQuotaAborts(veo: Tier -> Result<string, RawError>, imagen: Result<string, RawError>,
                               parse: string -> JsonParse)
    requires veo(VeoFast).Failure? && IsQuotaError(veo(VeoFast).error)
    requires veo(VeoStandard).Failure? && !IsQuotaError(veo(VeoStandard).error)
    ensures TryFrom(0, veo, imagen, parse) == (Failure(ParseGeminiError(veo(VeoStandard).error, parse)), 2)
  {
  }

  /** A Veo Standard success is reported as a video and, as written, not as a
      fallback, although it is the second tier. */
  lemma StandardSuccessNotFallback(veo: Tier -> Result<string, RawError>, imagen: Result<string, RawError>,
                                   parse: string -> JsonParse)
    requires veo(VeoFast).Failure? && IsQuotaError(veo(VeoFast).error)
    requires veo(VeoStandard).Success?
    ensures TryFrom(0, veo, imagen, parse) ==
      (Success(VideoResult(veo(VeoStandard).value, VideoMime, false, "Veo Standard")), 2)
  {
  }

  /** After two quota errors the Imagen tier decides: its image becomes a JPEG data
      URL marked as a fallback, and any failure of it, quota or not, becomes the fixed
      "all attempts failed" message. */
  lemma ImagenTier(veo: Tier -> Result<string, RawError>, imagen: Result<string, RawError>,
                   parse: string -> JsonParse)
    requires veo(VeoFast).Failure? && IsQuotaError(veo(VeoFast).error)
    requires veo(VeoStandard).Failure? && IsQuotaError(veo(VeoStandard).error)
    ensures imagen.Success? ==>
      TryFrom(0, veo, imagen, parse) ==
        (Success(VideoResult(JpegDataPrefix + imagen.value, ImageMime, true, "Imagen 3 (Fallback)")), 3)
    ensures imagen.Failure? ==> TryFrom(0, veo, imagen, parse) == (Failure(AllFailedMessage), 3)
  {
  }

  /** A Veo Fast job that never finishes within 60 queries aborts the whole request
      with the time-out message: the message carries no quota token, so the cascade
      does not move on. */
  lemma TimeoutAbortsCascade(envKey: string, fast: VeoScript, veo: Tier -> Result<string, RawError>,
                             imagen: Result<string, RawError>, parse: string -> JsonParse)
    requires Trim(envKey) != ""
    requires fast.submission.Success? && Poll(fast.submission.value, fast.replies).TimedOut?
    requires veo(VeoFast) == AttemptVeo(envKey, fast)
    ensures TryFrom(0, veo, imagen, parse) == (Failure(TimeoutMessage), 1)
  {
    AttemptFailures(envKey, fast);
    OwnFailuresPlain(parse);
    FastNonQuotaAborts(veo, imagen, parse);
  }

  /** A blank key (only white space once trimmed) fails the first tier with a
      non-quota error, so the request ends there. */
  lemma BlankKeyAborts(envKey: string, fast: VeoScript, veo: Tier -> Result<string, RawError>,
                       imagen: Result<string, RawError>, parse: string -> JsonParse)
    requires Trim(envKey) == ""
    requires veo(VeoFast) == AttemptVeo(envKey, fast)
    ensures TryFrom(0, veo, imagen, parse) == (Failure(KeyInvalidMessage), 1)
  {
    OwnFailuresPlain(parse);
    FastNonQuotaAborts(veo, imagen, parse);
  }
}
