# Gemini Explorer: audio containers and video-generation orchestration in Dafny

This project models the two pieces of real logic in the Gemini Explorer demo
app and proves properties of them.

1. The speech view's audio export (`views/SpeechView.tsx`).
   - `createWavBlob` builds the canonical 44-byte RIFF/WAVE header for 16-bit
     mono PCM and appends the PCM bytes verbatim. This is the WAVE form with
     the `fmt ` chunk for WAVE_FORMAT_PCM, from chapter 3 of the
     Microsoft/IBM *Multimedia Programming Interface and Data Specifications 1.0*.
   - `createMp3Blob` drives the foreign lamejs encoder. It feeds the encoder
     blocks of 1152 samples, which is one MPEG-1 Layer III frame
     (ISO/IEC 11172-3). It keeps the non-empty outputs and then flushes once.
   - `updateDownloadLink` writes both formats at 24000 Hz.
2. The Gemini service's video pipeline (`services/geminiService.ts`).
   - The error classifiers are `isQuotaError` and `parseGeminiError`.
     `parseGeminiError` first extracts embedded JSON with the regular
     expression `/\{.*\}/`.
   - `attemptVeoGeneration` covers three things:
     - the bounded polling loop, capped at 60 status queries;
     - the checks on the finished operation;
     - two-strategy retrieval: a fetch with the key in a header, or else
       a signed URL whose `key` parameter is `encodeURIComponent`-encoded
       (section 2.1 of RFC 3986, over UTF-8 as in RFC 3629).
   - `generateVideo` runs a fixed cascade: Veo Fast, then Veo Standard, then
     an Imagen still. It moves to the next tier only on a quota error.

All of it is written as pure functions over immutable data. Bytes are
`seq<Byte>` and strings are `seq<char>`. Every foreign call is an oracle
passed in as a parameter. This covers the SDK's `generateVideos`,
`getVideosOperation` and `generateImages`, plus `fetch`, `JSON.parse`,
`JSON.stringify` and the lamejs encoder.

- The Veo status queries are a script `nat -> PollReply`. Entry `k` is what
  query `k` did: it threw, or it returned an operation.
- The cascade reports the tiers it invoked, with each tier's model id and
  prompt. This makes "no later tier is invoked" a statement about the result.
  The result is tied to the last entry: it is what the Veo attempt run with
  that entry's model id and prompt returned, or what `generateImage` returned
  for that entry's prompt.

| module (file) | source |
|---|---|
| `Wrappers` (wrappers.dfy), `Bytes` (bytes.dfy), `Text` (text.dfy) | shared types; `String.prototype.includes` and `trim` |
| `Wav` (wav.dfy) | `writeString`, `createWavBlob`, and the `DataView` little-endian setters |
| `Mp3` (mp3.dfy) | `createMp3Blob` |
| `SpeechExport` (speech_export.dfy) | `updateDownloadLink` |
| `GeminiErrors` (gemini_errors.dfy) | `parseGeminiError`, `isQuotaError` |
| `PercentEncoding` (percent_encoding.dfy) | `encodeURIComponent` |
| `VeoAttempt` (veo_attempt.dfy) | `attemptVeoGeneration` |
| `VideoCascade` (video_cascade.dfy) | `generateVideo` |

### Integer widths

`DataView.setUint32` and `setUint16` reduce their argument modulo 2^32 and
2^16 (ToUint32 and ToUint16). The model writes that reduction out in
`Wav.Le32` and `Wav.Le16`. Dafny's Euclidean `%` agrees with ToUint32 on
every integer, negative ones included. So the size fields read back as
`(36 + n) % 2^32` and `n % 2^32` in general. They read back exactly when
`36 + n < 2^32`.

### Behaviour of the code worth knowing

- A Veo Standard success is reported with `isFallback: false`, although it
  comes from the second tier (services/geminiService.ts:325). Only the Imagen
  still is marked as a fallback (`VideoCascade.StandardSuccessNotFallback`).
- `/\{.*\}/` does not cross line terminators, because `.` matches none of
  them. The extracted span therefore starts at the leftmost '{' that has a
  '}' later on the same line, and it ends at the last such '}'.
  `GeminiErrors.FindBraceSpan` models this exactly. `GeminiErrors.SingleLineSpan`
  proves that on a message without line breaks this is the first '{' through
  the last '}'.
- The polling time-out is an ordinary `Error` whose message holds no quota
  token (services/geminiService.ts:231). So the cascade aborts with that
  message instead of moving on (`VideoCascade.TimeoutAbortsCascade`).
- A failed `generateVideos` submission is rethrown unchanged
  (services/geminiService.ts:222). A 429 from the SDK therefore reaches the
  cascade as a quota error, and the request moves on to Veo Standard
  (`VideoCascade.SubmissionQuotaEscalates`).
- The two classifiers disagree on an error with an empty message.
  `isQuotaError` inspects the serialised error, but `parseGeminiError` reports
  "Unknown error occurred" (`GeminiErrors.QuotaClassifiersAgree`).
- Any Imagen failure, quota or not, becomes "All generation attempts failed
  (Video & Image quotas exceeded)." (`VideoCascade.ImagenTier`).

## Model

| member | source | states |
|---|---|---|
| Wav.Le32RoundTrip | views/SpeechView.tsx:73-74 | a little-endian 32-bit field written by `setUint32(_, v, true)` reads back as `v` modulo 2^32 |
| Wav.Le16RoundTrip | views/SpeechView.tsx:75-76 | a little-endian 16-bit field written by `setUint16(_, v, true)` reads back as `v` modulo 2^16 |
| Wav.Tag | views/SpeechView.tsx:46-50 | `writeString` puts an ASCII tag at `off` so that the four bytes there read back as that tag |
| Wav.WavBytes | views/SpeechView.tsx:58-60 | the output is exactly `44 + |pcm|` bytes long, and bytes 44.. are the PCM input verbatim |
| Wav.RiffFields | views/SpeechView.tsx:63-66 | "RIFF" at 0, LE32 `(36 + dataSize) mod 2^32` at 4, "WAVE" at 8 |
| Wav.FmtFields | views/SpeechView.tsx:68-76 | "fmt " at 12; LE32 16 at 16; LE16 1 (PCM) at 20; LE16 1 channel at 22; LE32 sample rate at 24; LE32 `2 × rate` at 28; LE16 block align 2 at 32; LE16 16 bits at 34 (32-bit fields modulo 2^32) |
| Wav.DataFields | views/SpeechView.tsx:78-80 | "data" at 36 and LE32 `dataSize mod 2^32` at 40 |
| Wav.ExactSizes | views/SpeechView.tsx:65-80 | when `36 + dataSize < 2^32` and the rate fits 32 bits, the RIFF size is `36 + dataSize`, the data size is `dataSize` and the rate field is the rate, with no wrap-around |
| Wav.WavRoundTrip | views/SpeechView.tsx:53-87 | a canonical WAVE reader applied to the output recovers the sample rate and the PCM bytes |
| Wav.ParsedIsCanonical | views/SpeechView.tsx:53-87 | every file that reader accepts is byte for byte what `createWavBlob` writes for the recovered rate and payload, so the header layout is fully determined |
| Mp3.BlocksPartition | views/SpeechView.tsx:99-101 | the blocks given to the encoder concatenate to the input in order; each holds 1..1152 samples; all but the last hold exactly 1152; there are ceil(n/1152) of them |
| Mp3.NonEmptyKeepsContent | views/SpeechView.tsx:103-112 | the kept buffers are all non-empty; a buffer is kept exactly when it is one of the outputs and non-empty; there are no more of them than outputs; and their concatenated bytes equal the concatenated outputs |
| Mp3.NonEmptyAppend | views/SpeechView.tsx:103-112 | the filter keeps order: filtering a concatenation of output lists concatenates the filtered lists, and a single buffer is kept exactly when it is non-empty |
| Mp3.CreateMp3Blob | views/SpeechView.tsx:90-115 | a missing backend fails with "lamejs library not loaded" and makes no encoder call. Otherwise the encoder is created with (1, rate, 128), gets one `encodeBuffer` per block of the partition in order and then exactly one `flush`. The blob, typed `audio/mp3`, holds the non-empty outputs in call order |
| Mp3.Mp3Content | views/SpeechView.tsx:103-114 | the MP3 blob's bytes are all block outputs in order followed by the flush output |
| Mp3.CallCount | views/SpeechView.tsx:99-109 | the driver makes m encode calls and then one flush, where m is the least number with m × 1152 ≥ n |
| SpeechExport.DownloadBlob | views/SpeechView.tsx:154-173 | WAV downloads are `createWavBlob(bytes, 24000)` typed `audio/wav`, with rate 24000 and byte rate 48000 in the header. MP3 downloads use an encoder created at 24000 Hz. A missing MP3 backend becomes "Failed to encode audio. Ensure libraries are loaded." |
| Text.TrimStart | services/geminiService.ts:190 | removes exactly the leading JavaScript white space and line terminators, leaving a suffix |
| Text.TrimEnd | services/geminiService.ts:190 | removes exactly the trailing JavaScript white space and line terminators, leaving a prefix |
| Text.TrimSpec | services/geminiService.ts:190-191 | the trimmed key is empty exactly when the key is all white space, and otherwise a contiguous part of it with no white space at either end |
| GeminiErrors.QuotaClassifiersAgree | services/geminiService.ts:14-41 | for a non-empty message without '{', `isQuotaError` holds exactly when `parseGeminiError` returns the usage-limit text. For an empty message, `parseGeminiError` returns "Unknown error occurred" whatever `isQuotaError` says: an empty-message error whose serialisation holds RESOURCE_EXHAUSTED is a quota error to one and "Unknown error occurred" to the other |
| GeminiErrors.QuotaExamples | services/geminiService.ts:38-41 | "Error: 429 Too Many Requests" is a quota error; "SAFETY: blocked" and "QUOTA exceeded" are not |
| GeminiErrors.QuotaFromSerialisation | services/geminiService.ts:39 | with an empty message, a RESOURCE_EXHAUSTED status in the serialised error makes it a quota error |
| GeminiErrors.LastCloseOnLine | services/geminiService.ts:19 | finds the last '}' reachable from a position without crossing a line terminator, or reports that there is none |
| GeminiErrors.FindBraceSpan | services/geminiService.ts:19 | `msg.match(/\{.*\}/)`: the match found is a real match, no match starts further left, none from the same '{' is longer, and no result means no match exists |
| GeminiErrors.SingleLineSpan | services/geminiService.ts:19-21 | on a message without line breaks the extracted span runs from the first '{' to the last '}' |
| GeminiErrors.ExtractionConditions | services/geminiService.ts:16-29 | the message is replaced exactly when it contains '{', the span is found and parses, and the parsed value has a non-empty `error.message`; that nested message then becomes the message. Without '{', or when parsing throws, it is unchanged |
| GeminiErrors.ParseGeminiError | services/geminiService.ts:12-36 | the result is the fixed "Usage limit exceeded (429). …" text exactly when the extracted message holds a quota token, and otherwise it is the extracted message itself. A non-quota result carries no quota token, and the result is never empty |
| GeminiErrors.UsageLimitIsQuota | services/geminiService.ts:31-32 | the fixed usage-limit text itself holds the "429" token |
| GeminiErrors.ParsePassThrough | services/geminiService.ts:14-35 | a plain message with no '{' and no quota token passes through unchanged, and an empty message becomes "Unknown error occurred" |
| GeminiErrors.UnparsableSpanPassThrough | services/geminiService.ts:16-35 | a message whose extracted span makes `JSON.parse` throw comes back unchanged when it holds no quota token |
| GeminiErrors.PlainMessage | services/geminiService.ts:31-41 | a message free of '{', '4', '_' and 'q' is not a quota error and passes through `parseGeminiError` unchanged |
| PercentEncoding.EncodeUriComponent | services/geminiService.ts:275 | `encodeURIComponent` leaves strings of A–Z a–z 0–9 `- _ . ! ~ * ' ( )` unchanged and emits only those characters and '%' |
| PercentEncoding.EncodeAppend | services/geminiService.ts:275 | `encodeURIComponent` works character by character: encoding a concatenation is the concatenation of the encodings |
| PercentEncoding.EncodeOne | services/geminiService.ts:275 | a single unreserved character encodes to itself; any other character encodes to the '%'-escaped hex pairs of its UTF-8 bytes |
| PercentEncoding.EncodeKeepsUnreserved | services/geminiService.ts:275 | an unreserved character inside a key survives encoding unescaped, between the encodings of its neighbours |
| PercentEncoding.DecodeEncode | services/geminiService.ts:273-275 | percent-decoding the encoded key yields exactly the UTF-8 bytes of the key |
| PercentEncoding.Utf8RoundTrip | services/geminiService.ts:275 | the UTF-8 bytes that `encodeURIComponent` escapes decode back to the original string |
| VeoAttempt.PollFrom | services/geminiService.ts:225-242 | the loop makes at most 60 status queries; it ends either with a finished operation or with a time-out after exactly 60 queries |
| VeoAttempt.PollSpec | services/geminiService.ts:224-242 | against the trace of operations after k queries: the loop completes exactly when the operation is done within 60 queries. It stops at the first such point with the operation held there, and otherwise the 61st loop entry times out |
| VeoAttempt.DoneSubmission | services/geminiService.ts:228 | an already finished submission makes zero status queries |
| VeoAttempt.AllQueriesThrow | services/geminiService.ts:237-241 | a throwing query leaves the operation unchanged but uses up a tick, so if every query throws, an unfinished job times out after 60 queries |
| VeoAttempt.SignedUrl | services/geminiService.ts:272-276 | the signed URL starts with the original URI, then '&' if the URI has '?' and '?' otherwise, then "key=", then exactly `encodeURIComponent(key)`, a URL-safe value that decodes to the key |
| VeoAttempt.RetrieveAsset | services/geminiService.ts:251-277 | the blob URL when the header fetch and the body read succeed. On a non-OK status, a thrown fetch or a thrown body read, it is the signed URL: the original URI, '&' or '?', "key=", then exactly `encodeURIComponent(key)` |
| VeoAttempt.AttemptVeo | services/geminiService.ts:188-278 | a blank trimmed key fails with "API Key is missing or invalid.". A failed `generateVideos` submission is rethrown unchanged. The attempt succeeds exactly when the key is present, submission succeeds, polling completes, the operation has no error and it has a video URI. The URL returned is then the retrieval result for that URI and the trimmed key |
| VeoAttempt.AttemptFailures | services/geminiService.ts:228-249 | a time-out throws "Video generation timed out.". An operation error throws its message, or its serialisation when the message is empty. A missing URI throws "No video URI found in response" |
| VeoAttempt.OwnFailuresPlain | services/geminiService.ts:191-249 | the time-out, missing-URI and invalid-key messages are not quota errors and survive `parseGeminiError` unchanged |
| VideoCascade.FinalPrompt | services/geminiService.ts:305-308 | the prompt is always a prefix of the final prompt, and the two are equal exactly for the default "5s" |
| VideoCascade.TryFrom | services/geminiService.ts:310-343 | given each tier's attempt outcome, the cascade from tier k on invokes at least one more tier. Every tier it leaves was a Veo tier whose attempt failed with a quota error. If the last tier invoked is a Veo tier, its success gives its URL as `video/mp4`, not a fallback, labelled with the tier. Otherwise it failed without a quota error and the request throws `parseGeminiError` of that error. If the last tier is Imagen, an image gives the JPEG data URL marked as a fallback, and a failure gives the fixed all-failed message |
| VideoCascade.GenerateVideo | services/geminiService.ts:290-344 | a missing key fails before any tier. Tiers are invoked strictly in the order Veo Fast, Veo Standard, Imagen, each with its model id. Veo tiers get the final prompt and Imagen gets it plus ", cinematic, photorealistic, 8k, video frame". Success provenance names the last tier invoked. The result is the outcome of the oracle call made with the last attempt's own model id and prompt: a Veo success is that video, a Veo non-quota failure is thrown through `parseGeminiError`, and Imagen gives the JPEG data URL or the all-failed message |
| VideoCascade.EscalatesOnlyOnQuota | services/geminiService.ts:314-332 | every tier before the last one invoked was a Veo tier that failed with a quota error |
| VideoCascade.FastSuccess | services/geminiService.ts:310-312 | a Veo Fast success is returned at once as that URL, `video/mp4`, not a fallback, "Veo Fast", after one tier |
| VideoCascade.FastNonQuotaAborts | services/geminiService.ts:311-320 | when the Veo Fast attempt fails without a quota error, the request throws `parseGeminiError` of that error after one tier |
| VideoCascade.StandardNonQuotaAborts | services/geminiService.ts:314-333 | after a Veo Fast quota error, a Veo Standard failure without a quota error throws `parseGeminiError` of it after two tiers, so Imagen is not invoked |
| VideoCascade.StandardSuccessNotFallback | services/geminiService.ts:314-325 | after a Veo Fast quota error, a Veo Standard success is that URL as `video/mp4`, with `isFallback` false and `modelUsed` "Veo Standard", after two tiers |
| VideoCascade.ImagenTier | services/geminiService.ts:314-343 | after two Veo quota errors, an Imagen image gives "data:image/jpeg;base64," + bytes, `image/jpeg`, `isFallback` true, "Imagen 3 (Fallback)". Any Imagen failure gives "All generation attempts failed (Video & Image quotas exceeded)." Three tiers are invoked |
| VideoCascade.TimeoutAbortsCascade | services/geminiService.ts:310-320 | when the Veo Fast attempt's job is not done within 60 queries, the request ends with "Video generation timed out." after one tier |
| VideoCascade.BlankKeyAborts | services/geminiService.ts:190-191 | a key that is blank after trimming fails the Veo Fast attempt with "API Key is missing or invalid.", and the request ends there after one tier |
| VideoCascade.SubmissionQuotaEscalates | services/geminiService.ts:310-320 | a quota error thrown by the Veo Fast `generateVideos` submission (line 222) reaches the cascade unchanged, so at least two tiers are invoked |

`createWavBlob` is a pure function here. Equal `(pcm, sampleRate)` give
byte-identical output by construction, and the input sequence cannot be
modified.

## Left out

- All React views and rendering, including the component body of
  `SpeechView`. Also left out is the ordering of blob-URL revocation and
  creation (views/SpeechView.tsx:139-141, 155, 166-167). This is UI state and
  browser resource handling.
- `pcmToAudioBuffer` and the 24 kHz `AudioContext` used for playback. This is
  Web Audio playback with floating-point normalisation.
- `base64ToUint8Array`/`atob` and the `Int16Array` view of the PCM bytes.
  These are foreign primitives that depend on the host's byte order. The PCM
  bytes and their 16-bit sample view are inputs. So is the `RangeError` an
  odd-length buffer would raise, which the view would turn into the
  encoding-failure message.
- The lamejs encoder's internals. The encoder is an abstract state with
  `init`, `encodeBuffer` and `flush`.
- The SDK calls (`generateVideos`, `getVideosOperation`, `generateImages`),
  `fetch`, `URL.createObjectURL` and the 10-second wait between queries.
  These are network, timing and host calls, and they are replaced by scripted
  outcomes.
- The AI Studio key-selection check (services/geminiService.ts:292-299). It
  depends on the host environment and swallows its own errors.
- The reference-image data-URL split in `attemptVeoGeneration`
  (services/geminiService.ts:207-220). It only assembles the submission
  request, which is an oracle here. The image is passed to the oracle
  unchanged.
- `JSON.parse` and `JSON.stringify`. These are oracles: the serialisation
  travels with each error, and the parse result is a function of the span.
- Non-string or non-object error values, such as a thrown string or a
  `JSON.stringify` that returns `undefined`. Also left out is a non-string
  truthy `message`. The `typeof` check skips the JSON extraction for it, but
  then `msg.includes("429")` (services/geminiService.ts:31) throws a
  `TypeError` because a non-string has no `includes`. The model's errors
  always carry a string message and a string serialisation.
- `ParseGeminiError`: the parsed JSON's `error.message` is always a string in
  the model (`JsonParse.Parsed` carries a string). When the embedded JSON
  holds a truthy non-string message, such as `{"error":{"message":429}}`,
  services/geminiService.ts:23 assigns a number to `msg`, and `msg.includes`
  at :31 throws a `TypeError` that escapes `generateVideo` through the catch
  blocks at :318 and :331. The model gives no outcome for that input.
- The `console.error`, `console.warn` and `console.log` calls
  (services/geminiService.ts:13, 194, 218, 234, 240, 261, 270, 298, 316, 328).
  These are diagnostic logging only and do not affect any returned value.
- Lone UTF-16 surrogates, on which `encodeURIComponent` throws `URIError`.
  Dafny characters are Unicode scalar values, so a lone surrogate cannot
  occur in the model.
- `Wav.WriteString`: stores `charCodeAt(i) mod 256` per character. It is
  called only with ASCII tags, so the UTF-16 code-unit split of characters
  above U+FFFF is not modelled.
- Non-integer sample rates. The JavaScript `number` passed as the rate is an
  integer here.
- `generateChatMessage`, `generateSpeech`, `analyzeImage`, `generateImage`'s
  request assembly, `services/authService.ts`, `config.ts`, `vite.config.ts`,
  `App.tsx` and `types.ts`. These are single-shot wrappers, authentication,
  configuration and constants. The model ids are copied from `types.ts` as
  constants.
