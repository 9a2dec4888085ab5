# Marvedge media pipeline — a Dafny model of the API routes

Marvedge records a screen capture in the browser and then processes it through a
chain of Next.js API routes. Each route reads a JSON body (or a multipart form),
checks it, runs an external tool on files under `public/uploads/<stage>/`, and
answers with the URL of what it made. The chain is:

- upload stores the recording as `raw/<id>.webm`;
- trim cuts it into `trimmed/<new id>.webm` and records the cut in the ledger `data/videos.json`;
- text, blur and arrow burn an overlay into `edited/`;
- export re-encodes to `exports/<id>.mp4`;
- subtitles extracts the audio, transcribes it with whisper and writes a SubRip file;
- voiceover asks ElevenLabs for speech and muxes it over the picture;
- analytics and metadata update ledger entries.

The model is functional. A route is a `Handle` function from a `World` to an
`Outcome`:

- the `World` is the set of stored artifacts plus the ledger (a `map<string, Record>`, or `None` when `videos.json` does not exist);
- the `Outcome` holds the response (a JSON reply, an error with its status, or `Thrown` for an uncaught rejection), the new world, and the effects performed in order.

The outside world enters only as parameters:

- the result of each `exec` (success or failure), whether whisper wrote its JSON file and the transcript the route reads from it, the ElevenLabs outcome and the API key;
- the fresh `randomUUID()` and the current time;
- JavaScript's number-to-string conversion, `show`, kept abstract for every number.

Every shell command is modelled as the argument vector it splits into (a
`Directive`), together with the artifacts it reads and writes. Every ffmpeg filter
argument is proved equal to the rendering of a small filter-graph syntax tree
(`FilterGraph`). This is what lets the proofs say which coordinates, options and
time window each filter carries, as the model's readers `Named` and `Positional` find them.

Modules:

- `Wrappers`: `Option`.
- `JsValue`: JSON values, truthiness, `${}` interpolation.
- `JsMath`: `Math.floor`, `%` with JavaScript's truncating semantics, `Math.min`, and `Math.round(Math.sqrt(·))` over exact reals.
- `JsText`: `String(n)` for integers, `padStart`, `trim`, splitting, global `replace` of one character.
- `Storage`: stage directories, locators, URLs and file paths.
- `Ledger`: the `videos.json` records and the three writes to them.
- `Routing`: directives, effects, responses and the world.
- `FilterGraph`: the filter-graph syntax tree and its option readers.
- `Srt`: `secondsToSrtTime` and cue assembly.
- One module per route.
- `Pipeline`: dispatch, and properties that hold across the routes.

Behaviour of the code worth noting:

- a playback's completion is capped at 1 but has no lower bound, so a negative watch time lowers the sum;
- trim does not check that the end comes after the start;
- caption text and ids are spliced into shell strings, not passed as separate arguments;
- a single quote in a caption breaks the drawtext quoting: inside ffmpeg's `'…'` a backslash is literal, so `it's` becomes `text='it\'s'`, whose quote closes after `it\`. The model states the option string the route builds, not ffmpeg's reading of it;
- the ledger is rewritten in place, with no atomic replace;
- records carry no lineage or stage field.

## Model

| member | source | states |
|---|---|---|
| Srt.ClockFields | src/app/api/subtitles/route.ts:6-10 | For a non-negative time: hours ≥ 0, minutes and seconds in [0, 60), milliseconds in [0, 1000). The clock's value is at most the time and less than a millisecond below it, so milliseconds are floored, not rounded. |
| Srt.SrtTimeExample | src/app/api/subtitles/route.ts:6-12 | 65.25 seconds renders as `00:01:05,250`. |
| Srt.SrtTimeRoundTrip | src/app/api/subtitles/route.ts:6-12 | The timestamp of a non-negative time has the layout `H:M:S,ms` with digit-only fields, and it reads back as exactly the hours, minutes, seconds and milliseconds computed from the time. |
| Srt.RenderClockRoundTrip | src/app/api/subtitles/route.ts:12 | Any clock with non-negative fields, zero-padded to widths 2, 2, 2 and 3, reads back as itself. |
| Srt.PadDigits | src/app/api/subtitles/route.ts:12 | `String(n).padStart(w, "0")` of a natural number consists of digits only and denotes `n`. |
| Srt.SrtTimeInjectiveOnClocks | src/app/api/subtitles/route.ts:6-12 | Two non-negative times with the same timestamp have the same clock fields. |
| Srt.SrtTimeLayout | src/app/api/subtitles/route.ts:6-12 | Below 100 hours (360000 s) a timestamp is exactly 12 characters, `HH:MM:SS,mmm`: `:` at positions 2 and 5, `,` at position 8, and a digit everywhere else. |
| Srt.SrtDocumentCues | src/app/api/subtitles/route.ts:97-105 | The SRT document is the concatenation, in segment order, of one cue per segment, the cue at position k being numbered k+1. Nothing precedes, separates or follows the cues. |
| Srt.CueLines | src/app/api/subtitles/route.ts:101-103 | A cue splits at its newlines into the number `k+1`, the line `START --> END`, and the trimmed text followed by a blank line. The number reads back as `k+1`. |
| Srt.AssembleSrt | src/app/api/subtitles/route.ts:97-105 | The `forEach` loop, which starts from `""` and appends each segment's cue, produces the reference SRT document, that is, the concatenation of the segments' cues. |
| SubtitlesRoute.SrtForCues | src/app/api/subtitles/route.ts:96-105 | Without a segment array the SRT content is the empty string. With one, it is the concatenation of the segments' cues in order. |
| JsText.TrimCharacterization | src/app/api/subtitles/route.ts:103 | `trim` removes exactly the leading and trailing whitespace: whitespace + `m` + whitespace, where `m` neither starts nor ends with whitespace, trims to `m`. |
| JsText.TrimIdempotent | src/app/api/subtitles/route.ts:103 | Trimming a trimmed text changes nothing. |
| SubtitlesRoute.ExtractDirective | src/app/api/subtitles/route.ts:45-49 | The audio extraction reads the trimmed video and writes `audio/<id>.wav`. It drops the video (`-vn`) and uses 16-bit PCM (`pcm_s16le`), 16000 Hz and one channel. |
| SubtitlesRoute.WhisperDirective | src/app/api/subtitles/route.ts:68 | Whisper runs on the extracted audio with the base model, English, JSON output, into the subtitles directory. |
| SubtitlesRoute.StepsConnect | src/app/api/subtitles/route.ts:45-85 | Whisper reads the file the extraction writes. The returned SRT URL names the SRT file. |
| SubtitlesRoute.Handle | src/app/api/subtitles/route.ts:15-112 | Checks in order: 400 for a falsy id, then 404 for a missing trimmed video; both change nothing. A failure of either tool is an uncaught rejection. 500 exactly when `subtitles/<id>.json` exists neither from this whisper run nor from an earlier one; the extracted audio stays. Otherwise the SRT of the JSON file's transcript is written and its URL returned. New files lie only in the audio and subtitles outputs of that id. |
| SubtitlesRoute.LeftoverTranscriptIsRead | src/app/api/subtitles/route.ts:84-94 | A JSON file left by an earlier run is read and answered with success even when whisper writes none this time. |
| TextRoute.EscapePassesCommute | src/app/api/edit/text/route.ts:6-8 | The two `replace` passes equal a one-pass escaper: `:` becomes `\:`, `'` becomes `\'`, and every other character is copied in order. The quote pass never alters the colon pass's backslashes. |
| TextRoute.EscapeLength | src/app/api/edit/text/route.ts:7 | The escaped length is the text's length plus the number of colons plus the number of single quotes. |
| TextRoute.EscapedSpecialsArePreceded | src/app/api/edit/text/route.ts:7 | Every `:` and `'` in the escaped text directly follows a backslash. |
| TextRoute.UnescapeEscape | src/app/api/edit/text/route.ts:6-8 | Escaping loses nothing: dropping the backslash before each escaped character recovers the caption. |
| JsText.OneLineAt | src/app/api/edit/text/route.ts:57 | Replacing newlines by spaces keeps the length, turns each newline into a space and keeps every other character. No newline remains, and a text without newlines is unchanged. |
| TextRoute.CaptionReadBack | src/app/api/edit/text/route.ts:43-57 | The caption as spliced into the command (escaped, then newlines replaced), read back with `Unescape` (dropping each backslash before `:` or `'`), is the caption with each newline turned into a space. |
| TextRoute.DrawTextStructure | src/app/api/edit/text/route.ts:43-51 | The `-vf` string renders a format conversion followed by one drawtext filter. That filter's `text` option is the escaped caption in single quotes, `x` and `y` are 20, and `enable` is `'between(t,start,end)'`. |
| TextRoute.Directive | src/app/api/edit/text/route.ts:17-57 | ffmpeg reads the trimmed video, gets the drawtext filter as `-vf`, and writes `edited/<id>-text.mp4`. |
| TextRoute.Handle | src/app/api/edit/text/route.ts:10-69 | 400 exactly for a falsy id or caption (an empty caption included); 404 only after that, for a missing trimmed video; both change nothing. A caption that is not a string throws before anything runs or changes. On success the directive draws the escaped caption and the window ends with their newlines turned into spaces, and the reply's URL names the file the directive wrote. |
| BlurRoute.BlurStructure | src/app/api/edit/blur/route.ts:41-49 | The filter string renders crop → boxblur → `[blurred]`, then overlay of `[blurred]` on the input. Crop gets `width:height:x:y` and overlay gets the same `x:y`. Boxblur and overlay carry the same `enable` option, and it is present exactly when both `start` and `end` are defined, with their newlines turned into spaces. |
| FilterGraph.RenderWithTime | src/app/api/edit/blur/route.ts:41-43 | Adding the timeline option to a filter appends `:enable='between(t,S,E)'` when both ends are defined, and nothing otherwise. |
| FilterGraph.NamedEnable | src/app/api/edit/arrow/route.ts:45-47 | A filter given the timeline option is enabled on `'between(t,S,E)'` when both ends are defined, and is otherwise unrestricted. |
| BlurRoute.Directive | src/app/api/edit/blur/route.ts:13-49 | ffmpeg reads the trimmed video, gets the graph as `-filter_complex`, and writes `edited/<id>-blur.webm`. |
| BlurRoute.Handle | src/app/api/edit/blur/route.ts:6-68 | 400 unless the id is truthy and x, y, width and height are numbers; then 404 for a missing trimmed video; both change nothing. On success the reply carries the output's URL and "Blur applied successfully". |
| ArrowRoute.Shaft | src/app/api/edit/arrow/route.ts:40-52 | The shaft box starts at (x1, y1) with height 5. Its width is a non-negative integer that is the rounded tail-to-head distance. |
| ArrowRoute.Head | src/app/api/edit/arrow/route.ts:53 | The head box is 20 × 20 and centred on (x2, y2). |
| ArrowRoute.ShaftLengthSymmetric | src/app/api/edit/arrow/route.ts:40 | Swapping the arrow's ends keeps the shaft length. |
| ArrowRoute.ShaftOfPoint | src/app/api/edit/arrow/route.ts:40 | An arrow from a point to itself has a shaft of length 0. |
| ArrowRoute.ArrowStructure | src/app/api/edit/arrow/route.ts:45-55 | The `-vf` string renders two drawbox filters. The first is at the tail with the given length and height 5; the second is at the head corner with size 20. Both carry the identical `enable` option, present exactly when both ends are defined, with their newlines turned into spaces. |
| ArrowRoute.Directive | src/app/api/edit/arrow/route.ts:13-55 | ffmpeg reads the trimmed video, gets the filter as `-vf`, and writes `edited/<id>-arrow.webm`. |
| ArrowRoute.Handle | src/app/api/edit/arrow/route.ts:6-75 | 400 unless the id is truthy and both points are numeric; then 404; both change nothing. On success the reply carries the output's URL and "Arrow added successfully". |
| ExportRoute.Directive | src/app/api/export/mp4/route.ts:16-46 | ffmpeg reads the trimmed video, re-encodes with `libx264` and `aac`, and writes `exports/<id>.mp4`. |
| ExportRoute.Handle | src/app/api/export/mp4/route.ts:7-58 | 400 for a falsy id, then 404 for a missing trimmed video; both change nothing. On success `mp4Url` names the file the directive wrote. |
| Storage.UrlRoundTrip | src/app/api/trim/route.ts:79-81 | Every URL a route returns reads back as the artifact it was built from. |
| Storage.UrlInjective | src/app/api/voiceover/route.ts:126-130 | Distinct artifacts are served at distinct URLs. |
| Storage.PathMatchesUrl | src/app/api/export/mp4/route.ts:40-57 | The path written under `public/` and the URL returned name the same artifact. |
| UploadRoute.Handle | src/app/api/upload/route.ts:6-32 | A missing or empty `video` field gives 400 and writes nothing. A non-empty text field throws. A file is written to `raw/<fresh id>.webm`, the reply's `videoId` is that id, and the ledger is untouched. |
| TrimRoute.Directive | src/app/api/trim/route.ts:21-55 | ffmpeg reads `raw/<id>.webm`, gets `-ss start -to end -c copy`, and writes `trimmed/<fresh id>.webm`. |
| TrimRoute.Handle | src/app/api/trim/route.ts:7-94 | 400 exactly unless the id is truthy and both times are numbers (the end is not required to exceed the start). Then 404 for a missing raw video; both change nothing. A failed ffmpeg leaves the ledger as it was. On success the fresh id is returned, its record inserted, and the ledger saved after the tool ran. |
| TrimRoute.TrimRecordsTheCut | src/app/api/trim/route.ts:79-86 | The new entry is keyed and identified by the returned id. Its URL names the file ffmpeg wrote, which exists. It has no views and no completions, and its duration is end minus start. |
| TrimRoute.TrimKeepsEarlierEntries | src/app/api/trim/route.ts:73-91 | Under an id not yet in the ledger, trim adds exactly one entry and keeps every earlier one as it was. A missing ledger starts from the empty map. |
| TrimRoute.TrimTwoToSeven | src/app/api/trim/route.ts:84 | Cutting seconds 2 to 7 records a duration of 5. |
| Ledger.Insert | src/app/api/trim/route.ts:73-79 | The record is stored under its id, the keys grow by exactly that id, and every other entry is kept. |
| Ledger.Completion | src/app/api/analytics/route.ts:44-45 | A playback's completion is at most 1 and at most the watched fraction. It equals one of the two. |
| Ledger.CompletionIsFraction | src/app/api/analytics/route.ts:44-45 | For a positive duration and a non-negative watch time the completion lies in [0, 1]. |
| Ledger.AddCompletion | src/app/api/analytics/route.ts:47 | The entry's `completionSum` grows by the completion. Every other field, and every other entry, is unchanged. |
| Ledger.AddCompletionMonotone | src/app/api/analytics/route.ts:44-47 | With a positive duration and a non-negative watch time the sum does not decrease. |
| Ledger.SetMetadata | src/app/api/metadata/route.ts:39-41 | Title and description become the given value, or `""` when it is falsy. Tags become the given value when it is an array, else `[]`. Every other field and entry is unchanged. |
| Ledger.SetMetadataIdempotent | src/app/api/metadata/route.ts:39-41 | Applying the same metadata twice gives the ledger that applying it once gives. |
| AnalyticsRoute.Handle | src/app/api/analytics/route.ts:5-55 | 400 exactly unless the id is truthy and the watch time is a number. Then 404 for a missing ledger or entry; these change nothing. On success the completion is added, the ledger saved, and the stored files untouched. |
| AnalyticsRoute.PlaybacksCommute | src/app/api/analytics/route.ts:44-47 | Two playbacks leave the same ledger in either order, for the same video or different ones. |
| AnalyticsRoute.AnalyticsBounded | src/app/api/analytics/route.ts:44-47 | One playback of a positive-length video with a non-negative watch time raises the sum by between 0 and 1 and keeps `viewCount`. |
| MetadataRoute.Handle | src/app/api/metadata/route.ts:5-49 | 400 for a falsy id, then 404 for a missing ledger or entry; these change nothing. On success the three fields are replaced and the ledger saved. |
| MetadataRoute.MetadataIdempotent | src/app/api/metadata/route.ts:39-46 | Sending the same metadata request twice leaves the state the first one left. |
| MetadataRoute.MetadataCommutesWithPlayback | src/app/api/metadata/route.ts:39-41 | Setting metadata and recording a playback give the same ledger in either order. |
| VoiceoverRoute.Speech | src/app/api/voiceover/route.ts:26-85 | The TTS request goes to the given voice, or to `21m00Tcm4TlvDq8ikWAM` when none is given. It carries the API key, the text verbatim, model `eleven_turbo_v2_5`, stability 0.5 and similarity boost 0.75. |
| VoiceoverRoute.MuxDirective | src/app/api/voiceover/route.ts:110 | ffmpeg reads the trimmed video and the speech, copies video stream `0:v:0`, maps audio `1:a:0`, stops at the shorter input (`-shortest`), and writes `edited/<id>-voiceover.webm`. |
| VoiceoverRoute.Handle | src/app/api/voiceover/route.ts:6-131 | Checks in order: 400 for a falsy id or text, 500 without an API key, 404 for a missing trimmed video; these change nothing. A thrown TTS call gives 500 "Failed to generate voiceover" and changes nothing. A non-ok status is passed on, with its number in the message, and nothing is muxed. A failing mux throws after the speech is saved. On success the URLs name the saved speech and the muxed video. |
| VoiceoverRoute.MuxReadsSavedSpeech | src/app/api/voiceover/route.ts:96-110 | The mux reads the speech file the route has just saved, together with the trimmed video. |
| Pipeline.Handle | src/app/api/upload/route.ts:6-32 | Dispatches a request to its route's `POST` handler, such as the cited upload handler; the dispatch itself is Next.js file-based routing and has no code of its own. No route removes a stored artifact. |
| Pipeline.WritesOnlyOwnStage | src/app/api/voiceover/route.ts:45-63 | A route adds files only to its own stage directories (upload to raw, trim to trimmed, edits to edited, export to exports, subtitles to audio and subtitles, voiceover to voiceovers and edited). Analytics and metadata add none. |
| Pipeline.SuccessNeedsSource | src/app/api/export/mp4/route.ts:16-29 | No route succeeds without its source. Trim needs the raw upload; every edit, export, subtitles and voiceover needs the trimmed video. |
| Pipeline.OnlyTrimAddsEntries | src/app/api/trim/route.ts:64-91 | Every route except trim keeps the ledger's existence and its key set. |
| Pipeline.ConsistencyPreserved | src/app/api/trim/route.ts:79-86 | If every ledger entry is keyed by its id and points at an existing trimmed file by URL, this still holds after any request. |
| Pipeline.GuardFailureIsInert | src/app/api/trim/route.ts:10-35 | A request rejected by a validation or existence check (400 or 404) changes nothing and performs nothing. |
| Pipeline.UploadThenTrim | src/app/api/upload/route.ts:20-31 | The id upload returns is one trim accepts. Given a successful ffmpeg, trimming it replies with the new id. |
| Pipeline.TrimThenExport | src/app/api/export/mp4/route.ts:16-57 | The id trim returns can be exported. The export finds the cut and returns its MP4 URL. |

## Left out

- File I/O, `mkdirSync`, `process.cwd()`, and `path.join` normalisation. Artifacts are a set of locators, and paths are relative to the working directory.
- Running ffmpeg and whisper, and the ElevenLabs `fetch`: each is an outcome parameter. When a tool fails, any partial output it leaves is not modelled, and the route's outcome is the uncaught rejection.
- `JSON.parse` failures on request bodies or on `videos.json`, and prototype keys such as `__proto__` in ledger lookups.
- Analytics treats a missing entry and a falsy entry alike. Entries are modelled as records, so the falsy case is the missing case.
- AnalyticsRoute.PlaybacksCommute: two playbacks of the same video commute only over exact reals. IEEE double addition is not associative, so in JavaScript the order can change the last bits of `completionSum`.
- AnalyticsRoute.Handle: requires a non-zero duration for the addressed entry. Dividing by zero gives `Infinity` or `NaN` in JavaScript, which exact reals do not represent.
- IEEE floating point: times, coordinates and completions are exact reals. `(seconds % 1) * 1000` and `Math.sqrt` are therefore exact, and `NaN` and `Infinity` do not arise.
- JavaScript's number-to-string conversion is the abstract parameter `show`, unconstrained, for every number the routes print from a request or compute: coordinates, sizes, times, and the arrow's rounded shaft width included. Only cue numbers, clock fields and the upstream HTTP status in the voiceover error message use the concrete decimal rendering `IntToString`.
- Shell interpretation: every interpolated string value sits inside double quotes, so spaces are harmless, but `sh` still interprets `"`, `$`, a backtick and `\` there. The model keeps such characters verbatim in the argument vector. What the shell makes of values containing them, injection included, is outside the model.
- Newlines in ids: the edit routes replace every newline of the whole command by a space. The model applies this to the caption and the time-window values (`OneLine`), but keeps ids verbatim inside paths. `show` is taken to produce no newline.
- The arrow's `Math.atan2` angle, which the route computes and never uses.
- The HTTP headers of the ElevenLabs request, the body of its error response (logged only), and the audio bytes.
- `viewCount` increments: no modelled route performs them.
- Console logging, and the browser pages that call these routes.
- Concurrency: simultaneous requests and lost updates on the whole-file rewrite of `videos.json`.
- Whisper's segment fields are taken as numbers and strings. A segment whose `text` is not a string (on which `trim` would throw) is not modelled.
