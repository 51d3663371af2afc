# flash-ai request orchestration and app state, in Dafny

flash-ai is a browser UI that uploads an image, asks a Gemini model for
editing-prompt suggestions and for an edited image, and shows the result.
This project models its two pieces with logic in them:

- the service helpers of `services/geminiService.ts` (module `GeminiService`):
  - `cleanBase64`, which strips a data-URL prefix;
  - `callWithRetry`, which retries transient errors up to a bounded number of attempts with a growing delay;
  - the response shaping of `editImage`;
  - `getPromptSuggestions`, which degrades every failure of the remote call and of parsing to an empty list;
- the six pieces of state of the `App` component and its event handlers
  (`App.tsx`, lines 7-89). This is module `AppComponent`, a class `App` with one method per handler.

`types.ts` becomes module `Types`. That module also holds the optional-value and
thrown-error shapes (`Option`, `Exception`, `Result`).

Each remote model call is replaced by its outcome:
- `callWithRetry` consumes a sequence of outcomes, one per invocation of the operation. It records each sleep as a delay value (an exact `real`, in milliseconds) instead of sleeping.
- `editImage` receives the response, or the error the call threw.
- `getPromptSuggestions` receives one reply per remote call, plus a `JSON.parse` oracle that yields a suggestion list or fails.

The app handlers receive the outcome of the service call they await as a parameter.

The retry policy is stated twice:
- recursively, in `CallWithRetry`;
- without recursion, in the predicate `IsRetryRun`: every attempt but the last failed transiently, the last outcome is passed on unchanged, the call stops early only on a value or a terminal error, and the sleep before retry k is `delay * 1.5^k`.

`CallWithRetry` is proved to satisfy `IsRetryRun`. `RetryRunUnique` proves that nothing else does.

The model follows the code:
- `editImage` returns `null` when no image part is found. It rethrows a call error unchanged: there is no classification of errors into user-facing categories in this code.
- The app turns a `null` result into the error "Gemini returned an empty result. Try clarifying your prompt.".
- The retry budget is `max(retries, 0) + 1` attempts. A negative `retries` still makes one attempt.

## Model

| member | source | states |
|---|---|---|
| GeminiService.IndexOfComma | services/geminiService.ts:12 | the index of the first comma, or the length when there is none; no earlier character is a comma |
| GeminiService.Split | services/geminiService.ts:12 | `split(",")` yields at least one segment, no segment contains a comma, and joining the segments with commas gives the input back |
| GeminiService.SplitJoin | services/geminiService.ts:12 | splitting a comma-join of comma-free segments returns exactly those segments (split and join are inverses) |
| GeminiService.CleanBase64 | services/geminiService.ts:11-13 | input without a comma is returned unchanged; the result never contains a comma |
| GeminiService.CleanBase64TakesSecondSegment | services/geminiService.ts:12 | with a comma present, the result is the text between the first comma and the next comma (or the end) |
| GeminiService.CleanBase64Idempotent | services/geminiService.ts:11-13 | cleaning twice equals cleaning once |
| GeminiService.CleanBase64StripsDataUrl | services/geminiService.ts:8-13 | a data URL `<header>,<payload>` with comma-free header and payload is stripped to exactly the payload |
| GeminiService.IncludesIffOccurs | services/geminiService.ts:22-24 | `includes` is true iff the needle occurs at some index, character for character |
| GeminiService.IsTransientIff | services/geminiService.ts:22-24 | an error is transient iff its message contains "500", "xhr" or "Rpc failed" |
| GeminiService.TransientMatchIsCaseSensitive | services/geminiService.ts:22-24 | the match does not fold case: "xhr" is transient, "XHR" is terminal |
| GeminiService.Budget | services/geminiService.ts:26 | at least one attempt is made: exactly `retries + 1` attempts are allowed for a non-negative budget, and one for a non-positive one |
| GeminiService.CallWithRetry | services/geminiService.ts:18-31 | the run meets the retry policy: 1 to `Budget(retries)` attempts, every attempt but the last failed transiently, the last outcome is returned or rethrown unchanged, it stops early only on a value or a terminal error, and the sleep before retry k is `delay * 1.5^k` |
| GeminiService.RetryStep | services/geminiService.ts:26-30 | a transient failure with budget left, a sleep of `delay`, then a policy-conforming run with one retry fewer and delay ×1.5, together form a policy-conforming run |
| GeminiService.RetryRunUnique | services/geminiService.ts:18-31 | the policy determines the run: any run that meets it is the one callWithRetry performs |
| GeminiService.RetryStopsAtFirstDecisiveOutcome | services/geminiService.ts:19-26 | the first value or terminal error within the budget ends the call, is returned or rethrown, and no later attempt is made |
| GeminiService.RetryTerminalErrorNoDelay | services/geminiService.ts:26 | a terminal error on the first attempt is rethrown after one attempt with no sleep |
| GeminiService.RetryExhaustsBudget | services/geminiService.ts:26 | if every attempt fails transiently, exactly `Budget(retries)` attempts are made and the last error is rethrown |
| GeminiService.RetrySleepsIncrease | services/geminiService.ts:29-30 | with a positive initial delay, each sleep of a run meeting the retry policy (by RetryRunUnique, the run callWithRetry performs) is strictly longer than the previous one |
| GeminiService.RetryDefaultSchedule | services/geminiService.ts:18-30 | with the defaults, at most 4 attempts are made and the sleeps are a prefix of 1500, 2250, 3375 ms |
| GeminiService.RetryRecoversAfterTwoTransientFailures | services/geminiService.ts:18-31 | with the defaults, two transient failures then a value: the run meeting the retry policy returns the value after 3 attempts, having slept 1500 and 2250 ms |
| GeminiService.EditImage | services/geminiService.ts:61-72 | a call error is rethrown unchanged; no candidate/content/parts gives null; otherwise null iff no part has inline data, else `data:image/png;base64,` followed by the data of the first part with inline data (text parts skipped) |
| GeminiService.EditedImagePayloadRoundTrip | services/geminiService.ts:65 | cleanBase64 recovers the comma-free payload of the data URL editImage builds |
| GeminiService.FetchSuggestions | services/geminiService.ts:115-124 | a call error propagates unchanged; a delivered reply never fails: non-empty text that parses gives its parse unchanged, empty or unparsable text gives `[]` |
| GeminiService.GetPromptSuggestions | services/geminiService.ts:127-132 | once the client exists it never fails; a non-empty result is the parsed list of some non-empty reply, unchanged (the value in each case is fixed by SuggestionsFromFirstDeliveredReply and SuggestionsWhenCallFails) |
| GeminiService.SuggestionsFromFirstDeliveredReply | services/geminiService.ts:115-128 | once a reply arrives within the budget, it decides the result: `[]` for empty or unparsable text, else the parsed list unchanged |
| GeminiService.SuggestionsWhenCallFails | services/geminiService.ts:127-132 | if the call ultimately throws, after a run of transient errors, by a terminal error or by the last budgeted attempt failing, the result is `[]`, whatever later replies would have been |
| AppComponent.EditErrorMessage | App.tsx:66-72 | the error message after a failed edit is never empty: the thrown message, else the default; a null result gives the empty-result message |
| AppComponent.App.constructor | App.tsx:8-13 | the initial state: Idle, no images, empty prompt, no suggestions, no error |
| AppComponent.App.FetchSuggestionsForImage | App.tsx:16-26 | always ends in Idle; a fetched list replaces the suggestions, a failure leaves them; nothing else changes |
| AppComponent.App.HandleFileChange | App.tsx:28-36 | no file: no change; a file: Uploading, with error, edited image and suggestions cleared; prompt and original image untouched |
| AppComponent.App.ReaderLoad | App.tsx:38-47 | the read data URL with the file's MIME type becomes the original image, then the suggestion fetch ends in Idle |
| AppComponent.App.ReaderError | App.tsx:48-51 | status Error with "Could not read the uploaded file."; nothing else changes |
| AppComponent.App.HandleEdit | App.tsx:55-75 | no-op without an original image or with an empty prompt; a non-empty result gives Success with that image and no error; otherwise Error with the error's message (default if empty, empty-result message for null), with the old edited image, prompt, suggestions and original image kept |
| AppComponent.App.ApplySuggestion | App.tsx:77-79 | sets the prompt and changes no other field |
| AppComponent.App.Reset | App.tsx:81-88 | restores the initial state of App.tsx:8-13 |

Every `App` method also preserves the invariant `Valid()`:
- no request is in flight between events;
- Success comes with an edited image and no error;
- Error comes with a non-empty message;
- Uploading shows no edit, suggestion or error;
- an edited image exists only alongside an original image.

## Left out

- The `GoogleGenAI` client, `process.env.API_KEY`, the model names, the request bodies (including the `cleanBase64` call on the outgoing payload), the prompt text and the response schema: SDK and network I/O. Their results are parameters. `getPromptSuggestions` builds its client (services/geminiService.ts:79) outside the `try` of lines 127-132, so a failure while building it escapes the function instead of becoming `[]`; the model does not capture that path.
- `JSON.parse` and the `as PromptSuggestion[]` cast: an oracle from text to a suggestion list or a failure. A parse that yields something other than an array is not modelled.
- `setTimeout` and `await` scheduling: sleeps are recorded as values. Interleavings of async handlers are not modelled, for example a stale `reader.onload` arriving after `reset`, or an edit finishing during an upload. The statuses Suggesting and Editing, shown while a call is pending, are set but not visible between events.
- `retries` is an integer and `delay` an exact real. JavaScript numbers are doubles, but the default schedule (1500, 2250, 3375) is exact in both.
- GeminiService.CallWithRetry: the operation is a finite sequence of outcomes that must cover the retry budget, so the requirement `|outcomes| >= Budget(retries)` describes the model's input, not the callers of the source.
- Thrown values that are not error objects (for example `throw null`, on which `err.message` would itself throw). An error without a message is modelled as an empty message.
- `FileReader`, `URL.createObjectURL` and the `fileInputRef` reset in `reset`: browser I/O. The data URL and preview URL are parameters.
- `console.warn` and `console.error` logging.
- The JSX in `App.tsx` from line 91 on, and `components/Layout.tsx`: rendering, with the download link built from `document.createElement` and `Date.now()`.
