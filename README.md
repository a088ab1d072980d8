# Image generator core in Dafny

This project models the core of a web front end for an image-generation service. The prompt is a
text with optional modifiers: `--ar W:H` for the aspect ratio, `--s N` for stylization and
`--sref word` for a style reference. The model has three parts:

- **Prompt modifiers** (`text.dfy`, `prompt_commands.dfy`, `prompt_settings.dfy`,
  `prompt_round_trips.dfy`). `parsePromptAndCommands` splits a prompt into its base text and its
  modifiers. Four settings handlers rebuild the prompt text when a setting changes. The regular
  expressions of the source are written as anchored matchers over `seq<char>`:
  - a global `replace` is a left-to-right scan;
  - `match` is a search for the leftmost position where the anchored matcher succeeds.

  The proofs show what the parse gives back after a handler has rebuilt a prompt. After the two
  handlers that strip all three flags, on any prompt whose remaining text holds no `--`, and for
  a well-formed aspect ratio (digits `:` digits, or none) and a one-word style reference (word
  characters, or none), it is that text trimmed, followed by exactly the set modifiers in the
  order ar, s, sref. The two
  handlers that strip only `--ar`/`--s` are covered for prompts a handler has already rebuilt.
- **The client job list** (`images.dfy`, `client_jobs.dfy`, `client_job_properties.dfy`). The
  class `ClientJobs.ImageGenerator` holds:
  - the ordered list of `GeneratedImage` entries;
  - the dictionaries `pollingTimers`, `pollStartTimes` and `progressTrackers`.

  Each handler is a method whose `ensures` equates its new state with a step function of the old
  state. The lemmas in `client_job_properties.dfy` state what each step does to the job it concerns
  and that it leaves every other job alone. `images.dfy` also models the grouping of derived jobs
  under their originals that the page renders.
- **The server job table** (`job_store.dfy`). The class `Jobs.JobStore` keeps a map from hash to
  job record and offers add, get, update and an age-based cleanup loop. The cleanup is proved to
  delete exactly the stale entries.

Replies of the service are parameters of the methods, as are the current time in milliseconds and
fresh job ids. A pending `setTimeout` is an entry of `pollingTimers` that records the hash it will
poll and its due time.

`pollImageStatus` and the derivative handlers have a separate method for the part after their
`await`:

- `StartPoll` stamps the start time and checks the timeout;
- `HandlePollResponse` handles the reply;
- `PollImageStatus` runs both at one instant;
- `HandleDerivative` runs the guard and then `HandleDerivativeResponse` with the reply.

`GenerateImage` runs in one call. `AddGeneratedImage` applies the prepend of the new entry
(line 150) and the reply's patch (lines 167-186) together.

## Model

| member | source | states |
|---|---|---|
| PromptCommands.FlagArgumentMatch | src/components/ImageGenerator.tsx:51 | `\s+[^\s]+` after a flag name matches only past the name and at least one more character |
| PromptCommands.AlternativeMatch | src/components/ImageGenerator.tsx:51 | a match of the alternation consumes at least one character and stays within the text |
| PromptCommands.FlagMatch | src/components/ImageGenerator.tsx:51 | a match of the removal pattern starts with whitespace and lies within the text |
| PromptCommands.RemoveFlags | src/components/ImageGenerator.tsx:51 | the global replacement never lengthens the text |
| PromptCommands.ValueMatch | src/components/ImageGenerator.tsx:53-55 | a capture is a prefix of the rest, is well formed for its tag (digits `:` digits, digits, word characters), and is greedy: the next character cannot extend it |
| PromptCommands.TagMatch | src/components/ImageGenerator.tsx:53-55 | an anchored capture pattern matches only at `--<flag>` and captures a well-formed value |
| PromptCommands.FirstTagMatch | src/components/ImageGenerator.tsx:53-55 | the first match of a capture pattern yields a well-formed value |
| PromptCommands.FirstTagMatchIsLeftmost | src/components/ImageGenerator.tsx:53-55 | `match` succeeds iff the pattern occurs somewhere, and then returns the capture at the leftmost position where it occurs |
| PromptCommands.FirstTagMatchFound | src/components/ImageGenerator.tsx:53-55 | a successful `match` returns the capture at a position where the pattern matches and before which it matches nowhere |
| PromptCommands.FirstTagMatchNone | src/components/ImageGenerator.tsx:53-55 | a failed `match` means the pattern matches at no position |
| PromptCommands.Canonical | src/components/ImageGenerator.tsx:57-59 | the pushed commands are in strictly increasing ar, s, sref order, hold at most one entry per tag, and the entry for each tag is exactly its match |
| PromptCommands.CommandForAppend | src/components/ImageGenerator.tsx:57-59 | looking a tag up in two command lists joined gives the first list's entry when it has one |
| PromptCommands.ParsePromptAndCommands | src/components/ImageGenerator.tsx:49-62 | the base prompt has no leading or trailing whitespace; commands are ordered ar, s, sref; each tag's entry is the first match of its pattern in the whole input; all values are well formed |
| PromptCommands.LeadingNonSpaceKept | src/components/ImageGenerator.tsx:51 | a flag with no whitespace before it, such as one at position 0, is never removed |
| PromptCommands.RemoveFlagsWithoutDashes | src/components/ImageGenerator.tsx:51 | the replacement leaves a text without `--` unchanged |
| PromptSettings.RemovesIsMembership | src/components/ImageGenerator.tsx:107 | the ar/s alternation removes a piece iff its flag is `ar` or `s`; the ar/s/sref alternation removes all three |
| PromptSettings.HandleAspectRatioChange | src/components/ImageGenerator.tsx:105-110 | only the ratio and the prompt change; the prompt is the text stripped of `--ar`/`--s` followed by the rendered ratio and stylization |
| PromptSettings.HandleStylizationChange | src/components/ImageGenerator.tsx:112-117 | only the stylization and the prompt change; the prompt is the text stripped of `--ar`/`--s` followed by the rendered ratio and stylization |
| PromptSettings.HandleStyleReferenceChange | src/components/ImageGenerator.tsx:119-125 | only the style reference and the prompt change; the prompt is the text stripped of all three flags followed by the three rendered settings |
| PromptSettings.HandleRandomStyleToggle | src/components/ImageGenerator.tsx:127-138 | the checkbox takes the new state and the style reference becomes `random` or empty; the prompt is the stripped text followed by the rendered settings |
| PromptSettings.SettingsSuffixIsRendered | src/components/ImageGenerator.tsx:119-124 | the text the handlers append is the rendering of the set modifiers in the order ar, s, sref |
| PromptSettings.FlagArgumentOfOwnName | src/components/ImageGenerator.tsx:51 | on a flag name, one space and a plain value, `name\s+[^\s]+` consumes exactly those |
| PromptSettings.ShortFlagInsideLong | src/components/ImageGenerator.tsx:51 | the alternative `s\s+` does not match at `sref`, so the alternation backtracks to `sref` |
| PromptSettings.AlternativeMatchOfPiece | src/components/ImageGenerator.tsx:51 | on a rendered modifier the alternation matches the whole flag and value iff the alternation names that flag |
| PromptSettings.RemovedPieceMatch | src/components/ImageGenerator.tsx:51 | a rendered modifier the alternation names, preceded by whitespace, is one whole match of the removal pattern |
| PromptSettings.KeptPieceMatch | src/components/ImageGenerator.tsx:51 | a rendered modifier the alternation does not name is no match of the removal pattern |
| PromptSettings.KeptPieceNoMatch | src/components/ImageGenerator.tsx:107 | an `--sref` piece survives the removal with the ar/s alternation |
| PromptSettings.InsideSrefPieceNoMatch | src/components/ImageGenerator.tsx:107 | inside an `--sref` piece, away from its inner space, no match of the removal pattern starts |
| PromptSettings.RemoveFlagsOfRebuilt | src/components/ImageGenerator.tsx:105-125 | on a rebuilt prompt the replacement deletes exactly the pieces its alternation names, and the base's trailing whitespace when the first piece goes |
| PromptSettings.OwnTagMatch | src/components/ImageGenerator.tsx:53-55 | at a modifier's `--`, its own capture pattern captures exactly its value |
| PromptSettings.OtherTagMatch | src/components/ImageGenerator.tsx:53-55 | at a modifier's `--`, another tag's capture pattern does not match; `--s\s+` fails on `--sref` |
| PromptSettings.ShortFlagAtSref | src/components/ImageGenerator.tsx:54 | `--s\s+` does not match at `--sref`, since a letter follows the `s` |
| PromptSettings.SrefAtShortFlag | src/components/ImageGenerator.tsx:55 | `--sref` does not match at `--s` followed by a space |
| PromptSettings.FirstTagMatchOfRender | src/components/ImageGenerator.tsx:53-55 | in a rendering of modifiers, each tag's capture is the value of its first piece of that type |
| PromptSettings.FirstTagMatchOfRebuilt | src/components/ImageGenerator.tsx:53-55 | in a rebuilt prompt, captures come from the modifiers and never from the base text |
| PromptSettings.StripRebuilt | src/components/ImageGenerator.tsx:51 | removing all flags from a rebuilt prompt leaves the base, less trailing whitespace when a modifier followed |
| PromptSettings.ParseRebuilt | src/components/ImageGenerator.tsx:49-62 | parsing a rebuilt prompt returns the trimmed base and, in order ar, s, sref, the first rendered value of each tag |
| PromptRoundTrips.SettingsCommandsWellFormed | src/components/ImageGenerator.tsx:119-124 | well-formed settings render commands that the capture patterns accept |
| PromptRoundTrips.KeptByAspectAndStyle | src/components/ImageGenerator.tsx:107 | the removal with the ar/s alternation keeps only the `--sref` modifiers, the first one included |
| PromptRoundTrips.StyleReferenceChangeRoundTrip | src/components/ImageGenerator.tsx:119-125 | on any prompt whose text without modifiers holds no `--`, and for a well-formed aspect ratio and a one-word reference `v`, parsing after `handleStyleReferenceChange(v)` gives that text trimmed and exactly the set aspect ratio, stylization and `v`, in that order |
| PromptRoundTrips.StyleReferenceChangeOfRebuilt | src/components/ImageGenerator.tsx:119-125 | on a rebuilt prompt the text kept is the trimmed base before the old modifiers |
| PromptRoundTrips.AspectAndStyleRoundTrip | src/components/ImageGenerator.tsx:105-117 | stripping `--ar`/`--s` and appending both settings parses to those settings plus the style reference the prompt already held |
| PromptRoundTrips.AspectRatioChangeRoundTrip | src/components/ImageGenerator.tsx:105-110 | after `handleAspectRatioChange(r)`, parsing shows `r`, the stylization setting and the old style reference |
| PromptRoundTrips.StylizationChangeRoundTrip | src/components/ImageGenerator.tsx:112-117 | after `handleStylizationChange(n)`, parsing shows the aspect ratio setting, `n` when positive, and the old style reference |
| PromptRoundTrips.RandomStyleOffClearsReference | src/components/ImageGenerator.tsx:127-138 | unchecking random style is clearing the style reference, apart from the checkbox state |
| PromptRoundTrips.RandomStyleToggleRoundTrip | src/components/ImageGenerator.tsx:127-138 | on any prompt whose text without modifiers holds no `--`, and for a well-formed aspect ratio, the toggle sets the checkbox; parsing then shows that text trimmed, the two other settings and `--sref random` exactly when checked |
| PromptRoundTrips.RandomStyleToggleOfRebuilt | src/components/ImageGenerator.tsx:127-138 | the toggle on a rebuilt prompt: the text kept is the trimmed base before the old modifiers |
| PromptRoundTrips.RandomStyleOnRoundTrip | src/components/ImageGenerator.tsx:127-131 | checking the box parses to the stripped text trimmed and the settings with `--sref random` |
| PromptRoundTrips.RandomStyleOffRoundTrip | src/components/ImageGenerator.tsx:132-137 | unchecking the box parses to the stripped text trimmed and the settings without a style reference |
| Text.TrimStart | src/components/ImageGenerator.tsx:51 | the result is a suffix whose dropped prefix is all whitespace, and it does not start with whitespace |
| Text.TrimEnd | src/components/ImageGenerator.tsx:51 | the result is a prefix whose dropped suffix is all whitespace, and it does not end with whitespace |
| Text.Trim | src/components/ImageGenerator.tsx:51 | the result neither starts nor ends with whitespace |
| Text.TrimInfix | src/components/ImageGenerator.tsx:51 | `trim` keeps the infix between leading and trailing whitespace, and drops only whitespace |
| Text.DecimalRoundTrip | src/components/ImageGenerator.tsx:108 | the decimal text of `n` that a handler writes reads back as `n` |
| Images.Apply | src/components/ImageGenerator.tsx:407-423 | each object spread sets its own fields and keeps the others: the hash update sets only the hash; a failure sets failed and the message; completion sets completed, 100, the URL and the reply's hash and actions; progress is capped at 100 and makes the job completed at 100 or more and pending below; the hash update is the spread at lines 167-173 and the completion the one at lines 237-246 |
| Images.MapImages | src/components/ImageGenerator.tsx:407-413 | `map` keeps the length, patches every entry with the id and leaves all others unchanged |
| Images.FindIndex | src/components/ImageGenerator.tsx:301 | `findIndex` returns the first position holding the id, or -1 when there is none |
| Images.FindImage | src/components/ImageGenerator.tsx:271 | `find` returns an entry with the id iff the list holds one, and then the first such entry |
| Images.InsertAtIsOneMore | src/components/ImageGenerator.tsx:315-316 | the splice adds exactly one entry: removing it gives back the list, the entries before and after keep their order, and the multiset grows by that entry |
| Images.InsertDerivative | src/components/ImageGenerator.tsx:298-317 | when the parent is in the list, the result is one longer, holds the new entry right after the parent, and keeps every other entry in order; when the parent is gone the list is unchanged |
| Images.GroupImagesByRoot | src/components/ImageGenerator.tsx:620-626 | the fold yields one group per entry without a parent, in list order: that entry, then the entries naming it as parent |
| Images.ShownImages | src/components/ImageGenerator.tsx:620-626 | an entry is rendered iff it has no parent or its parent id names an entry without one |
| ClientJobs.ImageGenerator.constructor | src/components/ImageGenerator.tsx:70-79 | the initial list, settings and dictionaries are empty |
| ClientJobs.ImageGenerator.ClearPollingTimer | src/components/ImageGenerator.tsx:193-199 | drops the job's timer and its start time |
| ClientJobs.ImageGenerator.ScheduleNextPoll | src/components/ImageGenerator.tsx:201-207 | clears, then sets the one timer polling `hash` a second later |
| ClientJobs.ImageGenerator.UpdateProgress | src/components/ImageGenerator.tsx:393-414 | counts an attempt on the tracker (creating it at `now`) and applies the capped progress to the job |
| ClientJobs.ImageGenerator.HandleError | src/components/ImageGenerator.tsx:416-429 | clears the timer, drops the tracker and fails the job with the message |
| ClientJobs.ImageGenerator.StartPoll | src/components/ImageGenerator.tsx:211-218 | stamps a missing or zero start time, and reports and handles the 60-second timeout |
| ClientJobs.ImageGenerator.HandlePollResponse | src/components/ImageGenerator.tsx:220-265 | the new state is the poll-reply step of the old one |
| ClientJobs.ImageGenerator.PollImageStatus | src/components/ImageGenerator.tsx:209-266 | the new state is the timeout check followed, unless it fired, by the reply step |
| ClientJobs.ImageGenerator.GenerateImage | src/components/ImageGenerator.tsx:140-191 | the new state is the generate step of the old one |
| ClientJobs.ImageGenerator.AddGeneratedImage | src/components/ImageGenerator.tsx:144-187 | the new job goes in front of the list and the reply's patch is applied to it, all else unchanged |
| ClientJobs.ImageGenerator.FinishGeneration | src/components/ImageGenerator.tsx:188-191 | generation ends and the prompt box is cleared, all else unchanged |
| ClientJobs.ImageGenerator.HandleDerivativeResponse | src/components/ImageGenerator.tsx:284-326 | the new state is the derivative-reply step of the old one |
| ClientJobs.ImageGenerator.AddDerivedImage | src/components/ImageGenerator.tsx:298-317 | the new job is inserted after its parent, all else unchanged |
| ClientJobs.ImageGenerator.HandleDerivative | src/components/ImageGenerator.tsx:269-272 | the guard, then the reply step |
| ClientJobs.ImageGenerator.HandleUpscale | src/components/ImageGenerator.tsx:269-329 | the derivative step for an upscale |
| ClientJobs.ImageGenerator.HandleVariation | src/components/ImageGenerator.tsx:331-391 | the derivative step for a variation |
| ClientJobs.StampStart | src/components/ImageGenerator.tsx:211-213 | the job has a start time afterwards |
| ClientJobProperties.ScheduleNextPollReplacesTimer | src/components/ImageGenerator.tsx:193-207 | exactly one timer for the job, for this hash a second later, replacing any other; its start time is dropped; nothing else changes |
| ClientJobProperties.TimeoutNeedsEarlierStart | src/components/ImageGenerator.tsx:211-218 | the timeout fires iff a nonzero start time from an earlier call is over 60 s old |
| ClientJobProperties.RescheduledPollNeverTimesOut | src/components/ImageGenerator.tsx:193-218 | a poll scheduled by `scheduleNextPoll` re-stamps its start time and never reaches the timeout, however late it runs |
| ClientJobProperties.PollDoneWithUrl | src/components/ImageGenerator.tsx:234-247 | `done` with a URL completes the job at 100 with the URL, hash and actions of the reply, and leaves it no timer and no start time; other jobs unchanged |
| ClientJobProperties.PollDoneWithoutUrl | src/components/ImageGenerator.tsx:234-249 | `done` without a URL schedules nothing; the job's status stays as it was when no progress is reported, and otherwise is completed at 100 or more and pending below |
| ClientJobProperties.PollErrorFails | src/components/ImageGenerator.tsx:228-253 | `error` fails the job with `status_reason` or `'Unknown error'`, ignores the progress, and removes the job's timer, start time and tracker |
| ClientJobProperties.PollContinues | src/components/ImageGenerator.tsx:229-261 | `sent`/`waiting`/`progress`/`queued` leave exactly one timer for the job, in place of any earlier one; the job takes the reported progress, capped at 100, pending below 100 and completed (yet still polled) at 100 or more |
| ClientJobProperties.PollRequestFails | src/components/ImageGenerator.tsx:263-265 | a failed request fails the job with the exception's message or `'Network error'` |
| ClientJobProperties.PollTimesOut | src/components/ImageGenerator.tsx:215-218 | a timed-out poll fails the job with `'Generation timeout'` and sends no request |
| ClientJobProperties.UpdateProgressOnlyMatching | src/components/ImageGenerator.tsx:393-414 | progress becomes min(p, 100), with no lower bound; the job is completed iff p ≥ 100, else pending; one more attempt is counted; nothing else changes |
| ClientJobProperties.HandleErrorOnlyMatching | src/components/ImageGenerator.tsx:416-429 | only the matching job changes, to failed with the message; its timer, start time and tracker go, and every other key stays |
| ClientJobProperties.GenerateBlankPrompt | src/components/ImageGenerator.tsx:141 | a blank prompt changes nothing |
| ClientJobProperties.GenerateAddsJob | src/components/ImageGenerator.tsx:140-191 | one new job with the trimmed prompt goes in front of the others. It fails with the reply's error, `'Missing hash from API'` or the exception's message, or else gets the hash and a start time. The prompt is cleared and generating ends; the other settings and the progress trackers are unchanged. |
| ClientJobProperties.GeneratePatchCases | src/components/ImageGenerator.tsx:162-187 | the three ways `generateImage` fails and the one way it goes on to poll |
| ClientJobProperties.DerivativeIgnored | src/components/ImageGenerator.tsx:270-272 | when the choice is outside 1–4, or the parent is missing or has no hash, nothing changes |
| ClientJobProperties.DerivativeInserted | src/components/ImageGenerator.tsx:298-320 | a returned hash inserts exactly one pending job at parentIndex+1, with progress 0, the parent id, type, choice, hash and the derived prompt; every other job keeps its relative order |
| ClientJobProperties.DerivativeReplyInserts | src/components/ImageGenerator.tsx:298-320 | a returned hash is the insertion after the parent followed by the new job's start time, nothing else |
| ClientJobProperties.InsertDerivativeRemovable | src/components/ImageGenerator.tsx:315-316 | taking the spliced-in entry out again gives back the list |
| ClientJobProperties.DerivativeParentGone | src/components/ImageGenerator.tsx:301-302 | when the parent has left the list, the list is unchanged |
| ClientJobProperties.DerivativeFailureFailsParent | src/components/ImageGenerator.tsx:291-325 | a failed request marks the parent job failed, with the HTTP status or the message, and adds no job |
| Jobs.JobStore.constructor | src/utils/jobStore.ts:5 | the table starts empty |
| Jobs.JobStore.AddJob | src/utils/jobStore.ts:7-20 | stores a job with status sent, progress 0 and created = updated = now under `hash`, replacing any entry there; every other key untouched |
| Jobs.JobStore.GetJob | src/utils/jobStore.ts:22-28 | returns the stored job or none, and changes nothing |
| Jobs.JobStore.UpdateJob | src/utils/jobStore.ts:30-46 | on a missing hash, exactly `addJob` with the supplied prompt or `''` and the supplied type or `'imagine'`; otherwise the old job with each supplied field replaced and `updated_at = now`, under the same key; no other key changes |
| Jobs.JobStore.Cleanup | src/utils/jobStore.ts:49-58 | the table afterwards is the old one with every entry older than `maxAgeHours` (default 24) deleted |
| Jobs.StaleIsAgeInHours | src/utils/jobStore.ts:52-53 | the millisecond test equals the source's comparison of fractional hours |
| Jobs.SweptKeepsFresh | src/utils/jobStore.ts:51-56 | cleanup keeps exactly the entries that are not stale, with their values unchanged |
| Jobs.SweptAgeBound | src/utils/jobStore.ts:51-56 | after cleanup every entry's age is at most `maxAgeHours`, and no key was added |
| Jobs.SweptIdempotent | src/utils/jobStore.ts:51-56 | a second cleanup at the same instant deletes nothing |
| Jobs.MergeReplacesSupplied | src/utils/jobStore.ts:38-42 | the spread replaces exactly the supplied fields and restamps `updated_at`; a supplied `hash` is applied even though the key stays |
| Jobs.EmptyUpdateRestamps | src/utils/jobStore.ts:38-42 | an update supplying nothing only restamps the record |

## Left out

- Network calls (`fetch` to the generate, status, upscale and variation routes) are not modelled. Their outcomes are parameters: `PollOutcome`, `GenerateOutcome` and `DerivativeOutcome`.
  - The status route always sends a number for `progress` (src/app/api/status/route.ts:40). The client's `typeof` guard is kept in `StatusReply.progress: Option<int>`.
- The route handlers, the database and the API layer are not part of this model.
- `setTimeout`/`clearTimeout` and the event loop are not modelled. A timer is an entry of `pollingTimers`, and nothing fires it: a later poll is a separate `PollImageStatus` call.
  - No reply arrives while another handler is running, so interleaved `await`s are not modelled.
  - The component's unmount cleanup and the hourly `setInterval` of the job store are not modelled.
- `Date.now()` is the `now` parameter, and the ids it generates are the `newId` parameter.
  - Two same-millisecond ids colliding is not modelled. `GenerateAddsJob` and `DerivativeInserted` require a fresh id.
- `progress` is an integer. `Math.round` on fractional progress is not modelled.
- Stylization is an integer written in decimal. A fractional slider value is not modelled.
- The job store's ages are whole milliseconds and `maxAgeHours` is an integer. `Jobs.StaleIsAgeInHours` shows that this is the source's real-valued comparison. Floating-point rounding is not modelled.
- `ClientJobs.ImageGenerator.GenerateImage` does not model the interim `isGenerating = true` (line 143). It is always followed by `false` in the `finally` block before any other handler can observe it, because replies are parameters.
- The `actionLoadingStates` bookkeeping of `handleUpscale`/`handleVariation` is not modelled. Neither is the component's global `error` banner state. Both only drive the display.
- The unused `requestQueue`/`isProcessingQueue` refs are not modelled.
- The rendering (JSX), `Settings.tsx`, `PromptInput.tsx`, `ImageDisplay.tsx`, the loaders and the progress bar are not modelled. The grouping fold that the page renders is modelled.
- AspectRatioChangeRoundTrip, StylizationChangeRoundTrip and AspectAndStyleRoundTrip: proved only for prompts of the rebuilt form, a text without `--` followed by rendered modifiers. On a typed prompt, the `--sref` pieces that the ar/s replacement keeps can sit anywhere in the text, and they are not characterised there.
- StyleReferenceChangeRoundTrip and RandomStyleToggleRoundTrip: proved for a one-word style reference (word characters only) and a well-formed aspect ratio only. The handler accepts any string, and the number input that feeds it (src/components/ImageGenerator.tsx:600-605) already produces values outside that set. For `1.5` the capture `\w+` takes only `1`. For `-3` the pattern `--sref\s+(\w+)` does not match at all, so the parse gives no style reference, although the removal pattern still strips ` --sref -3`.
- GenerateImage: the prepend and the reply's patch happen in one call. A handler running while the generate request is in flight is not modelled.
- Logging (`logger.ts` and the console calls) is not modelled.
- `Jobs.JobUpdate` has one `Option` per `Partial<Job>` field. A key that is present but explicitly `undefined` is not modelled. The spread would copy it through.
- `created_at` and `updated_at` of a new job are one instant, where the source calls `new Date()` twice.
- The `switch` of `pollImageStatus` on an unknown status does nothing. It is modelled as `StatusOther`.
- Whitespace is the set of characters matched by JavaScript's `\s`, listed explicitly. Unicode normalisation is not modelled.
