# TurboLearn backend: generation core in Dafny

This project models the content-generation core of the TurboLearn study
backend and proves properties of that model. The core covers:

- **`AIHelper`** (`utils/aiHelper.js`) is the one long-lived DeepSeek client.
  - It throttles calls so there are at least 3000 ms after the last
    successful completion.
  - It rejects calls when no key is configured, but only after throttling.
  - It records the completion time of successful calls only.
  - It turns failures into one of two message shapes.
  - It has three prompt builders.
- **The `/summary`, `/flashcards` and `/quiz` handlers** (`routes/aiRoutes.js`):
  - blank or missing text is rejected before anything is generated;
  - the prompt carries the first 6000 characters of the text;
  - the model's output is cleaned: the global replacement of "```json" and
    "```", then `trim`;
  - the parsed value is used when it is a JSON array, and a fixed fallback
    otherwise;
  - the response fields are modelled.
- **The extract routes** (`routes/extractRoutes.js`):
  - `getYouTubeId`, which tries three rules in order: a short-link host,
    then a truthy `v` parameter, then a `/shorts/` path;
  - the YouTube route's checks and the join of the transcript segments;
  - the PDF route's blank-text check and its trim.
- **`GeminiHelper`** (`utils/geminiHelper.js`):
  - the constructor's key check;
  - a retry on the alternative model after a "not found"/"404" failure, and
    the switch to that model lasts;
  - the two error prefixes.

Modules, one per source file plus two shared ones:

| module | file | models |
|---|---|---|
| `Wrappers` | `wrappers.dfy` | `Option`, `Result` |
| `Strings` | `strings.dfy` | JavaScript `trim`, `startsWith`, `includes`, `substring`, `slice(1)`, `split`, `join`, and truthiness of a string, on text of Basic Multilingual Plane characters |
| `AiHelper` | `ai_helper.dfy` | `utils/aiHelper.js`, as the `AIHelper` class with fields `lastRequestTime` and `minRequestInterval` |
| `AiRoutes` | `ai_routes.dfy` | `routes/aiRoutes.js` |
| `ExtractRoutes` | `extract_routes.dfy` | `routes/extractRoutes.js` |
| `GeminiHelper` | `gemini_helper.dfy` | `utils/geminiHelper.js`, as the `GeminiHelper` class with field `model` |

Things outside the program are inputs to the model:

- **Clock.** `Date.now()` becomes the readings `now` (before throttling) and
  `completedAt` (after a successful completion). The throttle's timer is
  taken to fire exactly when asked.
- **Providers.** The chat-completion call and Gemini's `generateContent` are
  the replies they would give (`Completion`, `Result`).
- **Libraries.** `JSON.parse`, `new URL`, `pdf-parse` and
  `YoutubeTranscript.fetchTranscript` are functions passed in, or values they
  would have produced.
- **Call logs.** Each helper class keeps a ghost log of the calls that reached
  its provider. The log lets the contracts say that no call was made, or that
  exactly one retry went out with the same prompt.

On these points the model follows what the code does:

- A parsed array is returned exactly as parsed. The code does not check,
  drop, or repair items, and an empty array is returned as it is
  (`routes/aiRoutes.js:83-87`).
- The summary is the provider's text unchanged, not trimmed.
- The key check comes after the throttle.
- Failures are two message shapes, not a typed taxonomy.
- There is no timeout.

## Model

| member | source | states |
|---|---|---|
| Strings.Truthy | utils/aiHelper.js:32 | JavaScript truthiness of an absent-or-string value: present and not empty, as in `!this.apiKey` (also line 5), `!url` and `!videoId` (routes/extractRoutes.js:34, 37) and `if (u.searchParams.get("v"))` (routes/extractRoutes.js:57) |
| Strings.IsJsWhitespace | routes/aiRoutes.js:12 | the characters `trim()` removes: the ECMAScript WhiteSpace set (tab, vertical tab, form feed, space, U+00A0, U+FEFF and the Zs separators U+1680, U+2000-U+200A, U+202F, U+205F, U+3000) and the LineTerminator set (line feed, carriage return, U+2028, U+2029) |
| Strings.IsBlank | routes/extractRoutes.js:19 | every character is one that `trim()` removes, so the trimmed text is empty; `Trim` proves the equivalence (also routes/aiRoutes.js:12, 58, 126) |
| Strings.TrimStartSpec | routes/aiRoutes.js:12 | stripping leading whitespace leaves a suffix of the input that does not start with whitespace, and everything removed is whitespace |
| Strings.TrimEndSpec | routes/aiRoutes.js:12 | stripping trailing whitespace leaves a prefix of the input that does not end with whitespace, and everything removed is whitespace |
| Strings.Trim | routes/extractRoutes.js:19-23 | `trim()` has no whitespace at either end, and it is empty exactly when the input is blank |
| Strings.TrimSlice | routes/extractRoutes.js:23 | `trim()` is the contiguous piece of the input that starts right after its leading whitespace, and everything after the piece is whitespace |
| Strings.TrimStartPadded | routes/aiRoutes.js:82 | leading whitespace in front of text that does not start with whitespace is exactly what is stripped |
| Strings.TrimEndPadded | routes/aiRoutes.js:82 | trailing whitespace after text that does not end with whitespace is exactly what is stripped |
| Strings.TrimPadded | routes/aiRoutes.js:82 | `trim()` of whitespace, then non-empty text that neither starts nor ends with whitespace, then whitespace, is that text |
| Strings.TrimIdempotent | routes/aiRoutes.js:82 | trimming twice is trimming once |
| Strings.StartsWith | routes/extractRoutes.js:58 | `startsWith(p)`: `p` is no longer than the string and equals its first `|p|` characters |
| Strings.Contains | routes/extractRoutes.js:56 | `includes(sub)`: `sub` occurs at some index of the string |
| Strings.Take | routes/aiRoutes.js:26 | `substring(0, n)` is a prefix of length `min(n, length)` |
| Strings.Drop1 | routes/extractRoutes.js:56 | `slice(1)` is the input without its first character, and empty for empty input |
| Strings.Split | routes/extractRoutes.js:58 | `split(sep)` yields at least one piece, and no piece contains the separator |
| Strings.JoinSplit | routes/extractRoutes.js:58 | joining the pieces of a split with the same separator gives back the input |
| Strings.SplitFree | routes/extractRoutes.js:58 | a separator-free prefix is glued onto the first piece of the rest |
| Strings.SplitAtSeparator | routes/extractRoutes.js:58 | a separator closes the first piece |
| Strings.Join | routes/extractRoutes.js:44 | `join(sep)` of a non-empty list starts with the first piece, followed by the separator when more pieces follow; `SplitJoin` and `JoinSplit` tie it to `Split` |
| Strings.SplitJoin | routes/extractRoutes.js:44 | for separator-free pieces, splitting their join gives the pieces back in order |
| Strings.SplitFirst | routes/extractRoutes.js:58 | the first piece is the longest separator-free prefix: it runs to the end or up to a separator |
| Strings.FirstPieceUnique | routes/extractRoutes.js:58 | a string has only one such first piece |
| AiHelper.SelectApiKey | utils/aiHelper.js:5 | the DeepSeek key when it is truthy, otherwise the OpenRouter key; the result is truthy exactly when either is |
| AiHelper.Wait | utils/aiHelper.js:26-30 | the delay is never negative; the provider call lands at least `interval` after the last success; the delay is zero, or exactly long enough |
| AiHelper.ServiceError | utils/aiHelper.js:55-59 | status 429 gives the fixed rate-limit message; anything else gives "AI service error: " followed by the message |
| AiHelper.ServiceErrorShapes | utils/aiHelper.js:55-59 | a message carries the "AI service error: " prefix exactly when the status is not 429, and the original message is what follows the prefix |
| AiHelper.TextOutcome | utils/aiHelper.js:32-59 | no key gives "AI service error: DeepSeek API key not configured" whatever the provider would say; otherwise success passes the text through, and a failure becomes `ServiceError` |
| AiHelper.SpacedAt | utils/aiHelper.js:26-30 | in a spaced call log, every call was issued at least `interval` after the latest success before it |
| AiHelper.SpacedAppend | utils/aiHelper.js:26-48 | a call issued at least `interval` after the last success keeps the call log spaced; only a success moves the last-success time |
| AiHelper.Instruction | utils/aiHelper.js:64 | the instruction literal of each prompt builder (also lines 69 and 74); `InstructionMarker` and `HelperPromptInjective` tell them apart |
| AiHelper.InstructionPrompt | utils/aiHelper.js:63-76 | an instruction, a blank line, then the text, which is a suffix of the prompt |
| AiHelper.HelperPrompt | utils/aiHelper.js:63-76 | each builder's prompt starts with its instruction and ends with the whole, untruncated text |
| AiHelper.InstructionMarker | utils/aiHelper.js:63-76 | character 9 of each instruction tells the three apart |
| AiHelper.InstructionPromptsEqual | utils/aiHelper.js:63-76 | equal prompts agree on their instructions' character 9, and carry equal texts when the instructions are equal |
| AiHelper.HelperPromptInjective | utils/aiHelper.js:63-76 | a builder's prompt determines the kind and the text |
| AiHelper.AIHelper.constructor | utils/aiHelper.js:4-17 | key chosen by `SelectApiKey`, `lastRequestTime` 0, `minRequestInterval` 3000, no calls yet |
| AiHelper.AIHelper.GenerateText | utils/aiHelper.js:23-61 | the wait is `Wait(now, lastRequestTime, 3000)`; with no key nothing reaches the provider; otherwise exactly one call with the prompt, issued after the wait; `lastRequestTime` moves to the completion time on success only; the outcome is `TextOutcome`; `kind` plays no part; the spacing invariant is kept |
| AiHelper.AIHelper.GenerateSummary | utils/aiHelper.js:63-66 | as `GenerateText`, with the summary instruction prompt |
| AiHelper.AIHelper.GenerateFlashcards | utils/aiHelper.js:68-71 | as `GenerateText`, with the flashcards instruction prompt |
| AiHelper.AIHelper.GenerateQuiz | utils/aiHelper.js:73-76 | as `GenerateText`, with the quiz instruction prompt |
| AiRoutes.TemplateFor | routes/aiRoutes.js:21-29 | the template literal of each handler as its text before and after the excerpt (also lines 67-76 and 135-148); `RoutePromptShape` says what a prompt built from it holds |
| AiRoutes.RoutePrompt | routes/aiRoutes.js:26 | the handler prompt is the head, `text.substring(0, 6000)`, then the tail (also lines 72 and 140); `RoutePromptShape` and `RoutePromptExcerpt` are its properties |
| AiRoutes.RoutePromptShape | routes/aiRoutes.js:21-29 | a handler's prompt is the template head, then the first `min(6000, length)` characters of the untrimmed text, then the template tail |
| AiRoutes.RoutePromptExcerpt | routes/aiRoutes.js:26 | reading the excerpt back out of a prompt gives `text.substring(0, 6000)` |
| AiRoutes.RoutePromptDeterminedByExcerpt | routes/aiRoutes.js:72 | two texts give the same prompt exactly when their first 6000 characters agree |
| AiRoutes.StripFences | routes/aiRoutes.js:82 | the global replacement never lengthens its input |
| AiRoutes.FenceStart | routes/aiRoutes.js:82 | starting with "```" is a fence at index 0, and so is starting with "```json" |
| AiRoutes.StripFencesHead | routes/aiRoutes.js:82 | the replacement cannot create two leading backticks |
| AiRoutes.StripFencesRemovesAll | routes/aiRoutes.js:82 | no "```" survives the replacement, including one that a deletion could join up |
| AiRoutes.StripFencesKeeps | routes/aiRoutes.js:82 | text without "```" passes through unchanged |
| AiRoutes.StripFencesShrinks | routes/aiRoutes.js:82 | text with a "```" strictly shrinks |
| AiRoutes.StripFencesFixedPoint | routes/aiRoutes.js:154 | the replacement leaves its input unchanged exactly when the input has no "```" |
| AiRoutes.NoFenceSlice | routes/aiRoutes.js:82 | a slice of fence-free text is fence-free |
| AiRoutes.NoFenceTrim | routes/aiRoutes.js:82 | trimming keeps text fence-free |
| AiRoutes.Clean | routes/aiRoutes.js:82 | the cleaned output holds no "```" and has no whitespace at either end |
| AiRoutes.CleanIdempotent | routes/aiRoutes.js:154 | cleaning a cleaned output changes nothing |
| AiRoutes.CleanFencedJson | routes/aiRoutes.js:82 | "```json\n[]\n```" cleans to "[]" |
| AiRoutes.StripFencedJson | routes/aiRoutes.js:82 | the replacement turns "```json\n[]\n```" into "\n[]\n" |
| AiRoutes.StripKeptTail | routes/aiRoutes.js:82 | the replacement turns "\n[]\n```" into "\n[]\n" |
| AiRoutes.TrimNewlines | routes/aiRoutes.js:82 | `trim` turns "\n[]\n" into "[]" |
| AiRoutes.KeptHead | routes/aiRoutes.js:82 | a leading character other than a backtick is kept |
| AiRoutes.FallbackFlashcards | routes/aiRoutes.js:90-99 | exactly two flashcards, each with a non-empty string question and answer |
| AiRoutes.FallbackQuiz | routes/aiRoutes.js:162-168 | exactly one question, with four string options and the answer "Subject A", which is one of them |
| AiRoutes.Status | routes/aiRoutes.js:13 | a rejected request is sent with status 400 (also lines 59 and 127), a generation failure with 500 (lines 44, 112 and 181), and a success with the default 200 (lines 33, 102 and 171); `Handle` proves which request gets which |
| AiRoutes.MissingText | routes/aiRoutes.js:12 | `!text || text.trim().length === 0` (also lines 58 and 126) |
| AiRoutes.MissingTextTrim | routes/aiRoutes.js:12 | a request is rejected exactly when its text is absent or trims to length zero |
| AiRoutes.FailureLabel | routes/aiRoutes.js:46 | every failure label begins with "Failed to generate " and names something after it (also lines 114 and 183) |
| AiRoutes.FailureLabelsDistinct | routes/aiRoutes.js:46 | the three routes fail with three different labels (also lines 114 and 183) |
| AiRoutes.ArtifactItems | routes/aiRoutes.js:80-100 | the parsed value of the cleaned output, unchanged, when it is an array; otherwise exactly the fallback |
| AiRoutes.Success | routes/aiRoutes.js:102-108 | a summary reports the summary, the untruncated input length and the summary's length; flashcards and quiz send `ArtifactItems` of the output with the kind's fallback, and `count` is its length; the service is "OpenAI GPT-4" |
| AiRoutes.Handle | routes/aiRoutes.js:10-49 | status 400 with "Text is required and cannot be empty" exactly when the text is missing or blank; a generation failure gives status 500 with the kind's label and the error's message; otherwise the reply is `Success` of the generated text |
| AiRoutes.ArtifactSource | routes/aiRoutes.js:152-169 | the items sent are the model's parsed array, or the well-formed fallback |
| AiRoutes.Serve | routes/aiRoutes.js:8-51 | for a handler with template `t` (the `/flashcards` and `/quiz` routes, lines 54-119 and 122-188, differ only in `kind`): a rejected request leaves the helper's state and call log untouched; an accepted one makes at most one provider call, with `RoutePrompt(t, text)`, after the throttle wait; `lastRequestTime` moves to the completion time only when that call succeeds; the reply is `Handle` of the helper's outcome |
| ExtractRoutes.QueryGet | routes/extractRoutes.js:57 | `searchParams.get` is null exactly when no pair has the name, and otherwise the value of the first pair with that name |
| ExtractRoutes.ShortsSplit | routes/extractRoutes.js:58 | a "/shorts/" path splits into "", "shorts", then the pieces of the rest |
| ExtractRoutes.GetYouTubeId | routes/extractRoutes.js:53-63 | an unparsable URL gives null; the rules apply in order: a host containing "youtu.be" gives the path without its first character; else a truthy `v` gives its value; else a "/shorts/" path gives the text after "/shorts/" up to the next "/"; else null |
| ExtractRoutes.NotShortLinkHost | routes/extractRoutes.js:56 | "www.youtube.com" does not contain "youtu.be" |
| ExtractRoutes.ShortsRule | routes/extractRoutes.js:58 | on a host that is not a short link, with any query that has no truthy `v`, "/shorts/" + segment + "/" + rest gives the segment |
| ExtractRoutes.ShortsRuleAtEnd | routes/extractRoutes.js:58 | the same when the segment runs to the end of the path |
| ExtractRoutes.ShortsExample | routes/extractRoutes.js:58 | "/shorts/abc/x" on a full YouTube host gives "abc" |
| ExtractRoutes.ShortsWithOtherQuery | routes/extractRoutes.js:57-58 | "/shorts/abc/x?t=10" on a full YouTube host gives "abc": a parameter other than `v` does not stop the shorts rule |
| ExtractRoutes.ShortsWithoutId | routes/extractRoutes.js:58 | a bare "/shorts/" path gives the empty id |
| ExtractRoutes.ShortLinkWithoutPath | routes/extractRoutes.js:56 | a short link with path "/" gives the empty id |
| ExtractRoutes.ExtractYouTube | routes/extractRoutes.js:31-50 | 400 "YouTube URL is required" for a missing url; 400 "Invalid YouTube URL" for a null or empty id, whatever the fetcher would return; 404 exactly when the transcript is null or empty; 500 "Failed to fetch YouTube transcript." when the fetch throws; success carries the id and the segment texts joined by single spaces |
| ExtractRoutes.TranscriptRoundTrip | routes/extractRoutes.js:44-45 | when no segment contains a space, splitting the reply's text on spaces gives back the segments in order |
| ExtractRoutes.ExtractPdf | routes/extractRoutes.js:12-28 | 400 "No PDF file uploaded" for no file; 500 "PDF extraction failed." when parsing throws; 400 "Unable to extract text from this PDF." exactly when the text is missing or blank; success gives the trimmed text, which is non-empty with no whitespace at either end, and the page count |
| GeminiHelper.Outcome | utils/geminiHelper.js:26-56 | a first success is returned; any success is the first reply, or the retry's reply after a not-found failure; "Both models failed: " plus the retry's message exactly when both attempts fail; any other failure gives "Gemini API error: " plus the message |
| GeminiHelper.RetryOnlyAfterNotFound | utils/geminiHelper.js:41-55 | the retry's reply matters only after a "not found"/"404" failure |
| GeminiHelper.WantsAlternative | utils/geminiHelper.js:41 | an error message asks for the alternative model when it includes "not found" or "404" |
| GeminiHelper.ConsistentCall | utils/geminiHelper.js:44-45 | a call to the current model, or a switch to the alternative model and a call to it, keeps the model and the call log consistent: the switch is never undone |
| GeminiHelper.GeminiHelper.constructor | utils/geminiHelper.js:4-17 | the given key, the model "gemini-1.5-pro", no calls yet |
| GeminiHelper.GeminiHelper.Create | utils/geminiHelper.js:5-9 | a missing or empty key gives no helper and the missing-key error; otherwise a fresh helper on "gemini-1.5-pro" |
| GeminiHelper.GeminiHelper.GenerateText | utils/geminiHelper.js:26-57 | the outcome is `Outcome`; a "not found"/"404" failure switches the model to "gemini-1.0-pro" and sends the same prompt once more on it (two calls); anything else leaves the model unchanged and makes one call; across calls the switch lasts |

## Left out

- Logging, the `timestamp` fields (`toISOString`), `temperature: 0.7` and `max_tokens: 1000` are left out. `timestamp` needs a clock and the other two are provider settings. The `deepseek-chat` model name and the base URL are left out as SDK configuration.
- Real waiting is left out. `setTimeout` is modelled as the computed delay `waited`, and the timer is taken to fire exactly on time.
- The clock is inputs. The two `Date.now()` readings are parameters.
- Concurrency is left out. Interleaved requests can overlap around `lastRequestTime`, between the throttle and the completion. Each model call runs alone.
- The libraries are inputs. The OpenAI/DeepSeek SDK, Gemini's SDK, `JSON.parse`, `new URL`, `pdf-parse` and `YoutubeTranscript` appear as replies, functions or parsed values, and their internals are not modelled.
- AiRoutes.Serve: takes the handler's template literal as a parameter `t` instead of fixing it to `TemplateFor(kind)`, because expanding the three long literals inside the method's proof costs the verifier too much. Its contract holds for every template, so also for `TemplateFor(kind)`, and the excerpt properties are proved for every template.
- AiHelper.AIHelper.GenerateText: a provider reply is always a string or an error, so two outcomes of a malformed completion are left out. If `completion.choices[0].message.content` cannot be read (`utils/aiHelper.js:49`), the caller gets an "AI service error: " failure even though line 48 has already moved `lastRequestTime`. If the content is not a string, the flashcards and quiz handlers' `response.replace` throws inside their inner `try`, so the fallback is sent (`routes/aiRoutes.js:81-88`, `153-160`); in the summary handler `summary.length` throws into the 500 reply (`routes/aiRoutes.js:37`).
- The helper is one instance. `routes/aiRoutes.js:5` calls `new` on the instance that `utils/aiHelper.js:79` exports, which throws at load time. The model uses the exported instance directly.
- Request bodies whose `text` or `url` is not a string are left out. A body field is absent or a string.
- An error object without a string `message` is left out. Errors carry a message, so both `includes` and the template interpolation are defined.
- The Gemini SDK's setup is left out: `new GoogleGenerativeAI`, `getGenerativeModel` and the "Failed to initialize Gemini: " error (`utils/geminiHelper.js:11-23`). Model selection is the `model` field holding the model name.
- JSON numbers are integers, because no modelled decision depends on their value. Duplicate object keys keep the last value.
- Text with characters outside the Basic Multilingual Plane (emoji, for instance): a Dafny `char` is a Unicode scalar value, so such a character is one `char` here but two UTF-16 code units in JavaScript, where `length`, `substring(0, 6000)`, `originalLength`, `summaryLength` and `slice(1)` count or cut it as two. The model matches JavaScript on text made of Basic Multilingual Plane characters only. Unicode normalisation is not performed by the source either.
- Multer's upload limit and storage are transport. The uploaded file is present or absent.
- `server.js`, `routes/fileRoutes.js` and `utils_geminiHelper.js` are not part of this model. They are route wiring, upload plumbing and a second thin SDK wrapper.
