# Image-generation job server: a Dafny model of its core

The server takes text prompts and turns them into image-generation jobs on a ComfyUI backend. This project models and proves four parts of it:

- **Prompt directives** (`directives.dfy`, module `Directives`). `parseMidjourneyParams` finds the inline directives `--ar W:H`, `--q n`, `--seed n`, `--chaos n`, `--s n` and `--no text`, turns them into generation options, and removes them from the prompt. Each regular expression is modelled as a matcher at one position (`MatchAt`) and a scan for the leftmost position where it matches (`Scan`, `Search`, `First`). The helpers for whitespace, digits and decimal text are in `text.dfy` (module `Text`).
- **Workflow graphs** (`workflow.dfy`, module `WorkflowGenerator`):
  - `generateTextToImage` builds the seven-node SDXL graph. Each setting comes from the options, or from a default when the key is absent.
  - Node ids are numbers; the JSON object's keys are their decimal numerals ("3" to "10"). The ten settings a graph reads from the options are enumerated by `Param`, each with its option key (`Key`), its input slot (`Slot`) and its default (`Default`).
  - `generateWithUpscale` adds an image-scale node and rewires the save node to it.
  - A graph is *closed* when every link points at a node of the graph. It is *ranked* when every link points at a node of lower rank. Ranked rules out cycles.
- **The job registry** (`job_queue.dfy`, module `Jobs`, class `JobQueue`). The registry is a map from id to job record. A sequence records the `Map`'s insertion order. The class has:
  - the status helpers, which go through `updateJob` and throw for an unknown id;
  - the newest-first listings (a stable sort);
  - the hourly sweep of completed jobs.
- **The two server routines** (`server.dfy`, module `Handlers`, class `Server`):
  - `processJob` parses the prompt, merges the options, generates and submits the workflow, and records the backend session.
  - `handleWebSocketMessage` turns progress, completion and error messages into registry updates. On completion it downloads every output image and records a reference to each. It closes the job's session as the source does.

Common values are in `values.dfy` (module `Values`):

- `Option` and `Result`;
- scalar JSON values;
- thrown values and `error.message || String(error)`;
- `Math.min/Math.max` clamping;
- `Math.round` of a quotient.

The model is built like this:

- **Imperative code.** Code that changes state step by step is modelled imperatively. The registry and the server are classes whose methods update fields. Each method is proved equal to a specification function of the old state: `Updated`, `Prune`, `Survivors`, `Dispatch`, `Launch`. The lemmas are stated about those functions.
- **Pure code.** Pure code is modelled as functions.
- **Inputs.** Time (`Date.now()`), the random seed, the session handle, the prompt id, the history reply, and the outcome of each image download-and-write are inputs of each step.

## Model

| member | source | states |
|---|---|---|
| Values.Clamp | server/job-queue.js:61-65 | the clamped value lies in [lo, hi], equals v inside the range and the nearer bound outside it |
| Values.RoundDiv | server/index.js:97 | the result is the integer nearest to a/b with halves rounded up: 2(r·b − a) lies in (−b, b] |
| Text.TrimStart | server/workflow-generator.js:147 | the result is a suffix of the input; everything dropped is whitespace and the result does not start with whitespace |
| Text.TrimEnd | server/workflow-generator.js:147 | the result is a prefix of the input; everything dropped is whitespace and the result does not end with whitespace |
| Text.Trim | server/workflow-generator.js:147 | `.trim()`: the result is a slice of the input with only whitespace cut off either side, and it has no whitespace at either end |
| Text.SpaceEnd | server/workflow-generator.js:142 | `\s+` greedy run: every character scanned is whitespace and the run stops at a non-space or the end |
| Text.DigitEnd | server/workflow-generator.js:142 | `\d+` greedy run: the scanned slice is all digits and the run stops at a non-digit or the end |
| Text.DashEnd | server/workflow-generator.js:182 | `[^-]+` greedy run: no scanned character is `-` and the run stops at `-` or the end |
| Text.NatToString | server/index.js:123 | the decimal text of a number is non-empty, all digits, and has no leading zero |
| Text.DecimalRoundTrip | server/workflow-generator.js:144 | `parseInt` of the decimal text of n is n |
| Directives.MatchAt | server/workflow-generator.js:142-182 | a match of a directive at i starts at i, begins with `--` and the keyword in any case, and its numeric groups are non-empty digit runs; where the groups sit is stated by `MatchPlaced` and `MatchAtComplete` |
| Directives.MatchPlaced | server/workflow-generator.js:142-182 | a match at i is laid out as its regular expression says: after `--keyword` at least one whitespace, then the groups (`(\d+):(\d+)` for `--ar`, `\d+` ending at a non-digit, `[^-]+` ending at `-` or the end) as slices of the text, up to the match's end |
| Directives.MatchAtComplete | server/workflow-generator.js:142-182 | the converse: any span at i laid out that way is found, with the same end and, for a numeric directive, the same groups; so no match is missed |
| Directives.TextAfter | server/workflow-generator.js:182 | `\s+([^-]+)` after `--no`: a match starts at the marker, ends inside the text and has a non-empty group |
| Directives.NumberAfter | server/workflow-generator.js:142-174 | `\s+(\d+)` or `\s+(\d+):(\d+)`: a match starts at the marker, ends inside the text and its groups are digit runs |
| Directives.MatchAfter | server/workflow-generator.js:142-182 | once the marker is seen, a match of the rest of the pattern starts at the marker, ends inside the text and is well formed (placed by `MatchPlaced`) |
| Directives.Scan | server/workflow-generator.js:142 | the position found lies in the scanned range and the matcher matches there |
| Directives.ScanLeftmost | server/workflow-generator.js:142 | the scan stops at the leftmost position that matches, and finding none means no position in the range matches |
| Directives.Search | server/workflow-generator.js:142 | a match found from a position starts at or after it and is the match at that start |
| Directives.SearchLeftmost | server/workflow-generator.js:142 | `.match` finds the leftmost match: nothing matches before it, and no match at all means no position matches |
| Directives.First | server/workflow-generator.js:142-182 | the first match lies inside the text and is well formed |
| Directives.FirstPlaced | server/workflow-generator.js:142-182 | the first match begins with the directive's marker and its groups sit as `MatchPlaced` says |
| Directives.FirstAtStart | server/workflow-generator.js:142-182 | a match at position 0 is the first match |
| Directives.Strip | server/workflow-generator.js:147 | `.replace(re, '')` leaves the text unchanged without a match and makes it strictly shorter with one |
| Directives.StripSpan | server/workflow-generator.js:147 | with a match, the result is the text before the first match followed by the text after it, shorter by the match's length |
| Directives.QualitySteps | server/workflow-generator.js:151-154 | `--q n` gives steps in [10, 50], exactly 10·n for n in 1..5 |
| Directives.StylizeSteps | server/workflow-generator.js:174-177 | `--s n` gives the integer nearest to 20 + 3n/100; at least 20, and at most 50 for n ≤ 1000 |
| Directives.ChaosCfg | server/workflow-generator.js:166-169 | `--chaos n` gives cfg 7.5 + n/20; at least 7.5, and at most 12.5 for n ≤ 100 |
| Directives.CleanedUnfolds | server/workflow-generator.js:135-189 | the cleaned prompt removes the directives in the fixed order --ar, --q, --seed, --chaos, --s, --no |
| Directives.ApplyDirective | server/workflow-generator.js:142-148 | one directive block adds that directive's options (read from the original prompt) and removes its first match from the current prompt, then trims |
| Directives.ParseMidjourneyParams | server/workflow-generator.js:135-189 | the returned prompt and options are exactly `Cleaned` and `ParsedOptions` of the input; the option values are stated by `ParsedValues` and `ParsedNegative`, the steps by `StylizeDecidesSteps` and `QualityBoundsSteps` |
| Directives.CleanFromIdle | server/workflow-generator.js:135-189 | directives absent from the original prompt leave the text unchanged |
| Directives.NoDirectiveNoChange | server/workflow-generator.js:136-139 | a prompt with no directive comes back unchanged (not even trimmed) with no options |
| Directives.CleanFromShrinks | server/workflow-generator.js:142-186 | removal never lengthens the text; it is trimmed once any directive matched, and strictly shorter when applied to the original |
| Directives.DirectivesShortenPrompt | server/workflow-generator.js:142-186 | a prompt that holds any directive comes back strictly shorter and trimmed |
| Directives.KeysOf | server/workflow-generator.js:145-184 | each directive sets at least one option key, all among width, height, steps, seed, cfg, negativePrompt |
| Directives.FoundHas | server/workflow-generator.js:142-186 | a directive contributes key k exactly when it matches and k is one of its keys |
| Directives.ParsedHas | server/workflow-generator.js:136-188 | key k is in the parsed options iff some directive that sets k matches |
| Directives.ParsedOptionsKnown | server/workflow-generator.js:136-188 | the parser sets no option key outside the six it knows |
| Directives.ParsedSizeKeys | server/workflow-generator.js:142-148 | width and height appear iff `--ar` matches |
| Directives.ParsedStepsKey | server/workflow-generator.js:151-179 | steps appears iff `--q` or `--s` matches |
| Directives.ParsedScalarKeys | server/workflow-generator.js:159-186 | seed appears iff `--seed` matches, cfg iff `--chaos`, negativePrompt iff `--no` |
| Directives.StylizeDecidesSteps | server/workflow-generator.js:151-179 | with `--s`, steps come from the stylize value whatever `--q` says |
| Directives.UnionSteps | server/workflow-generator.js:151-179 | in the union of the six directives' options, steps come from `--s` when it set them, otherwise from `--q` |
| Directives.ResultSteps | server/workflow-generator.js:151-179 | for six search results: steps are `StylizeSteps` of the `--s` value when `--s` matched, otherwise `QualitySteps` of the `--q` value |
| Directives.UnionValues | server/workflow-generator.js:136-188 | in the union of six results in the parser's order, width, height, seed, cfg and negativePrompt hold the value of the one directive that sets them |
| Directives.ResultValues | server/workflow-generator.js:142-186 | for six search results: width and height, seed, cfg and negativePrompt hold the value of the one directive that sets them |
| Directives.ParsedValues | server/workflow-generator.js:142-170 | `--ar W:H` sets width and height to `AspectSize(W, H)`, `--seed n` sets seed n, `--chaos n` sets cfg `ChaosCfg(n)`, `--no` sets its captured text trimmed, each from the first match in the original prompt |
| Directives.MatchText | server/workflow-generator.js:182-184 | the text a `--no` match captures, trimmed, equals all of the match after `--no`, trimmed |
| Directives.FirstText | server/workflow-generator.js:182-184 | the same for the first `--no` match of the prompt |
| Directives.ParsedNegative | server/workflow-generator.js:182-184 | `--no` sets negativePrompt to the text after `--no` up to the end of the match, trimmed |
| Directives.QualityBoundsSteps | server/workflow-generator.js:151-179 | with `--q n` and no `--s`, steps are `QualitySteps(n)`, so they lie in [10, 50] |
| Directives.RenderedDirectiveMatches | server/workflow-generator.js:151-179 | `--q`, `--seed`, `--chaos` or `--s` followed by a space and a number is recognised at position 0 with that number as its value, and the value parses back to the number |
| Directives.RenderedRatioMatches | server/workflow-generator.js:142-144 | `--ar W:H` written out is recognised at position 0 with the two numerals as its groups |
| Directives.RenderedRatioSize | server/workflow-generator.js:142-146 | `--ar W:H` written out sets width and height to `AspectSize(W, H)` |
| Directives.RenderedExcludeMatches | server/workflow-generator.js:182 | `--no t`, for non-empty t without `-`, is recognised as one match covering the whole text |
| Directives.RenderedExcludeText | server/workflow-generator.js:182-184 | `--no t` written out sets negativePrompt to t trimmed |
| Directives.AspectExamples | server/workflow-generator.js:142-169 | 16:9 gives 1024×576, 9:16 gives 576×1024, 1:1 gives 1024×1024; quality 3, 10 and 0 give 30, 50 and 10 steps; chaos 0 and 100 give cfg 7.5 and 12.5 |
| Directives.AspectSizeKeepsRatio | server/workflow-generator.js:142-146 | the longer side becomes 1024 and the other side is the rounded 1024·other/longer, within [0, 1024] |
| WorkflowGenerator.GraphFromNodes | server/workflow-generator.js:24-103 | nodes whose links all point to present nodes of lower rank form a closed, ranked graph |
| WorkflowGenerator.SamplerLinks | server/workflow-generator.js:25-40 | the sampler links only the model, the two encoders and the latent image |
| WorkflowGenerator.LoaderLinks | server/workflow-generator.js:41-60 | the checkpoint loader and the empty latent have no links |
| WorkflowGenerator.EncodeLinks | server/workflow-generator.js:61-80 | the text encoders link only the checkpoint's CLIP output |
| WorkflowGenerator.OutputLinks | server/workflow-generator.js:81-100 | the decoder links the sampler and the VAE; the save node links only the image source it is given |
| WorkflowGenerator.GenerateTextToImage | server/workflow-generator.js:9-106 | the graph has exactly the nodes 3 to 9 |
| WorkflowGenerator.BaseNodes | server/workflow-generator.js:24-103 | node 3 is the sampler, 4 the checkpoint loader, 5 the empty latent, 6 the prompt encoder, 7 the negative encoder, 8 the decoder, 9 the save node fed by 8 |
| WorkflowGenerator.BaseNodeLinks | server/workflow-generator.js:24-103 | every node of the generated graph links only to present nodes of lower rank |
| WorkflowGenerator.TextToImageLinks | server/workflow-generator.js:24-103 | the generated graph has the nodes 3 to 9 and each links only to present nodes of lower rank |
| WorkflowGenerator.TextToImageWellFormed | server/workflow-generator.js:24-103 | the generated graph is closed and ranked (acyclic) |
| WorkflowGenerator.Key | server/workflow-generator.js:10-21 | each of the ten settings is read from one of the known option keys |
| WorkflowGenerator.Slot | server/workflow-generator.js:25-100 | each setting has an input slot on one of the nodes 3 to 9 |
| WorkflowGenerator.SamplerSetting | server/workflow-generator.js:10-40 | a setting whose slot is on the sampler holds the option when its key is present, its default otherwise |
| WorkflowGenerator.LoaderSetting | server/workflow-generator.js:10-60 | a setting whose slot is on the checkpoint loader or the empty latent holds the option when its key is present, its default otherwise |
| WorkflowGenerator.OptionReachesInput | server/workflow-generator.js:10-100 | each of the ten settings reaches its input slot: the option's value when the key is present (even a present `null`), the default otherwise |
| WorkflowGenerator.PromptReachesEncoder | server/workflow-generator.js:61-70 | the positive encoder's text is the prompt |
| WorkflowGenerator.OnlySettingsMatter | server/workflow-generator.js:10-21 | options that agree on the ten setting keys give the same graph |
| WorkflowGenerator.Retext | server/workflow-generator.js:61-70 | an encoder node with its text replaced is the encoder built from the new text |
| WorkflowGenerator.PromptOnlyInEncoder | server/workflow-generator.js:61-70 | two prompts give graphs that differ only in the positive encoder's text |
| WorkflowGenerator.RandomSeedOnlyDefault | server/workflow-generator.js:18 | with an explicit seed option the random default has no effect |
| WorkflowGenerator.UpscaleLinks | server/workflow-generator.js:115-127 | the scale node links only the decoder, and the rewired save node links only the scale node |
| WorkflowGenerator.Widen | server/workflow-generator.js:115 | links into a graph stay valid when nodes are added |
| WorkflowGenerator.Rewire | server/workflow-generator.js:127 | a save node with its image input replaced is the save node built from the new input |
| WorkflowGenerator.UpscaleShape | server/workflow-generator.js:111-130 | adding node 10 and rewiring node 9 adds exactly node 10, changes only node 9's image input, and leaves every other node as it was |
| WorkflowGenerator.UpscaledWellFormed | server/workflow-generator.js:111-130 | any well-linked base graph with node 10 added as the scale node and the save node fed from it is closed and ranked |
| WorkflowGenerator.GenerateWithUpscale | server/workflow-generator.js:111-130 | the base graph plus node 10 (nearest-exact, scale 2, from the decoder), the save node rewired to it, every other node unchanged; closed and ranked |
| Jobs.Apply | server/job-queue.js:43 | `Object.assign`: the supplied fields are overwritten, `updatedAt` becomes now, id, prompt, options and createdAt are kept |
| Jobs.ApplyIdempotent | server/job-queue.js:43 | applying the same update twice equals applying it once |
| Jobs.ProgressPatch | server/job-queue.js:61-65 | the progress update is clamped to [0, 100] and touches no other field |
| Jobs.Updated | server/job-queue.js:37-46 | updating one id keeps the key set and every other record, and leaves the registry unchanged for an unknown id |
| Jobs.Prune | server/job-queue.js:114-123 | a record survives the sweep iff it is not completed-and-older-than-an-hour; survivors are unchanged |
| Jobs.PruneKeepsUnfinished | server/job-queue.js:119 | queued, processing and failed jobs of any age, and recent completed ones, survive |
| Jobs.PruneIdempotent | server/job-queue.js:114-123 | sweeping twice at the same time removes nothing more |
| Jobs.Without | server/job-queue.js:120 | deleting a key from the order removes exactly it and keeps the order free of repetitions |
| Jobs.WithoutAbsent | server/job-queue.js:120 | deleting an absent key changes nothing |
| Jobs.WithoutAppend | server/job-queue.js:120 | deletion distributes over concatenation |
| Jobs.Survivors | server/job-queue.js:118-123 | the order after the sweep holds exactly the surviving keys, in their old order, without repetition |
| Jobs.SurvivorsAppend | server/job-queue.js:118-123 | the sweep's order extends key by key |
| Jobs.Lookup | server/job-queue.js:99 | `Array.from(values())` lists the record of each key, in order |
| Jobs.ConsSorted | server/job-queue.js:99 | a job no older than every element, put in front of a newest-first sequence, keeps it newest first |
| Jobs.Insert | server/job-queue.js:99 | inserting into a newest-first sequence keeps it newest first and adds exactly the job |
| Jobs.SortNewestFirst | server/job-queue.js:99 | the sort result is newest first and a permutation of its input |
| Jobs.WithStatus | server/job-queue.js:107 | the filter keeps exactly the occurrences of jobs with the status |
| Jobs.WithStatusSorted | server/job-queue.js:106-108 | filtering keeps a newest-first sequence newest first |
| Jobs.WithStatusInsert | server/job-queue.js:106-108 | filtering commutes with insertion into a newest-first sequence |
| Jobs.SortWithStatus | server/job-queue.js:98-109 | filtering then sorting equals sorting then filtering |
| Jobs.LookupOnce | server/job-queue.js:99 | each stored record occurs exactly once in the listing of a repetition-free order |
| Jobs.LookupMembers | server/job-queue.js:99 | every listed job is the record stored under its own id |
| Jobs.SweepStep | server/job-queue.js:118-123 | visiting one key of the sweep removes it from the order exactly when it is stale, leaving the survivors so far followed by the keys not yet visited |
| Jobs.SweepDone | server/job-queue.js:114-129 | after visiting every key, the registry is the pruned one and the count equals the number of records removed |
| Jobs.JobQueue.constructor | server/job-queue.js:7-10 | a new registry is empty |
| Jobs.JobQueue.CreateJob | server/job-queue.js:15-32 | stores a queued record with zero progress, no images, no error and no prompt id; a new id is appended to the order, an existing one is replaced in place |
| Jobs.JobQueue.UpdateJob | server/job-queue.js:37-46 | an unknown id fails with "Job <id> not found" and changes nothing; otherwise the record becomes the patched one and the order is kept |
| Jobs.JobQueue.SetProcessing | server/job-queue.js:51-56 | status processing and the prompt id recorded, or not-found |
| Jobs.JobQueue.UpdateProgress | server/job-queue.js:61-65 | the clamped progress recorded, or not-found |
| Jobs.JobQueue.SetCompleted | server/job-queue.js:70-76 | status completed, progress 100 and the images recorded, or not-found |
| Jobs.JobQueue.SetFailed | server/job-queue.js:81-86 | status failed and `error.message || String(error)` recorded, or not-found |
| Jobs.JobQueue.GetJob | server/job-queue.js:91-93 | the record under the id, present iff the id is stored |
| Jobs.JobQueue.GetAllJobs | server/job-queue.js:98-100 | the stored records, newest first, as a permutation of the registry's values |
| Jobs.JobQueue.GetJobsByStatus | server/job-queue.js:105-109 | the stored records with the status, newest first, as a permutation of the filtered values |
| Jobs.JobQueue.ByStatusIsFilteredListing | server/job-queue.js:98-109 | the listing by status is the full listing with other statuses left out, in the same order |
| Jobs.ListedOnce | server/job-queue.js:98-100 | a permutation of the listing of a repetition-free order holds each stored record once, only stored records, and as many as the registry has |
| Jobs.JobQueue.AllJobsExactlyOnce | server/job-queue.js:98-100 | every stored record is listed exactly once and nothing else is listed |
| Jobs.JobQueue.JobsByStatusExact | server/job-queue.js:105-109 | every stored record with the status is listed exactly once and only such records are |
| Jobs.JobQueue.Delete | server/job-queue.js:120 | the record and its place in the order are removed |
| Jobs.JobQueue.CleanOldJobs | server/job-queue.js:114-130 | the registry becomes the pruned one, the order keeps the survivors in order, and the returned count is the number of records removed |
| Handlers.Or | server/index.js:118-119 | `v || default`: a missing or empty string falls back to the default |
| Handlers.FileNamesDistinct | server/index.js:123 | images of one job saved at different milliseconds get different local names |
| Handlers.SaveFrom | server/index.js:111-134 | on success, one reference per image |
| Handlers.SavedAt | server/index.js:114-131 | on success, the i-th reference is built from the i-th image, its save time and its backend file name |
| Handlers.SaveFailedAt | server/index.js:114-131 | a failure is the error of the first image that could not be saved, all earlier ones having been saved |
| Handlers.SaveAllSucceeds | server/index.js:114-131 | when every image is saved, collecting succeeds |
| Handlers.SaveFromAppend | server/index.js:111-134 | saving two lists in a row is saving the first, then the second, numbered after it |
| Handlers.SaveImages | server/index.js:114-132 | the inner loop appends the node's references to those collected so far, or stops at the first error |
| Handlers.CollectImages | server/index.js:108-134 | the nested loops produce exactly `SaveFrom` of all images of all output nodes in visiting order |
| Handlers.FetchOutcome | server/index.js:101-136 | fetching the history and saving the images yields exactly the outcome the completion step is defined on |
| Handlers.Release | server/index.js:142-147 | closing a job's session appends its handle to the closed ones and forgets it; no session, no change |
| Handlers.DispatchFrame | server/index.js:90-164 | a message touches only its own job's record and session, keeps ids and order, and does nothing for an unknown job |
| Handlers.PercentBounds | server/index.js:97 | the rounded percentage of a value within [0, max] lies in [0, 100] |
| Handlers.DispatchProgress | server/index.js:95-98 | a progress message records the rounded percentage, clamped, status and session unchanged |
| Handlers.DispatchCompleted | server/index.js:99-147 | when every image is saved the job completes at 100% with one reference per image, in order, and its session is closed |
| Handlers.EmptyOutputsComplete | server/index.js:107-136 | an outputs entry with no images completes the job with no images |
| Handlers.DispatchNoOutputs | server/index.js:138-147 | missing outputs fail the job with "No outputs found in ComfyUI history" and close the session |
| Handlers.DispatchCrashKeepsSession | server/index.js:160-163 | when the history request or a save throws, the job fails with that error's message and the session stays open |
| Handlers.SaveErrorRecorded | server/index.js:114-131 | a failing save records the message of the first image that could not be saved |
| Handlers.DispatchExecutionError | server/index.js:148-158 | an execution error fails the job with the backend's message, or "Execution error", and closes the session |
| Handlers.DispatchIgnored | server/index.js:95-159 | other messages, and `executing` for a particular node, change nothing |
| Handlers.BuildWorkflow | server/index.js:50-56 | the graph built for a job is the text-to-image graph of its cleaned prompt and merged options |
| Handlers.JobWorkflowSettings | server/index.js:50-56 | the submitted graph's prompt has its directives removed; each of the ten settings comes from the job's options, then from the directives, then from the default |
| Handlers.LaunchSubmitted | server/index.js:59-71 | an accepted job is marked processing with the backend's prompt id and its session recorded; nothing else changes |
| Handlers.LaunchFails | server/index.js:74-84 | a connection or submission error fails the job with its message and closes the session; the workflow counts as sent once connected |
| Handlers.SubmitUnknown | server/index.js:76 | submitting for a job not in the registry ends with the not-found error escaping and nothing else changed |
| Handlers.LaunchUnknownJob | server/index.js:76 | for a job not in the registry `setFailed` throws "not found", which escapes before cleanup, so an opened session stays recorded |
| Handlers.Server.constructor | server/index.js:26-29 | a new server has no sessions and has closed none |
| Handlers.Server.Close | server/index.js:142-147 | the session state becomes `Release` of the old one |
| Handlers.Server.HandleWebSocketMessage | server/index.js:90-164 | the new registry and sessions are `Dispatch` of the old ones |
| Handlers.Server.Open | server/index.js:59-64 | the connection opened for a job is recorded under its id and nothing else changes |
| Handlers.Server.Finish | server/index.js:136-147 | the registry and sessions become the settlement of the completion outcome |
| Handlers.Server.SubmitJob | server/index.js:66-84 | the new state, submitted graph and escaping error are those of submitting the graph from the old state |
| Handlers.Server.AbortJob | server/index.js:74-84 | the catch block: fail the job and close the session, or let not-found escape |
| Handlers.Server.ProcessJob | server/index.js:45-85 | the new registry, sessions, submitted graph and escaping error are `Launch` of the old state |

## Left out

- Floating point is not modelled. Numbers are exact: `Math.round(a / b * 100)` and the aspect-ratio arithmetic are computed on rationals, so answers at exact halves can differ from IEEE doubles.
- Handlers.Dispatch requires `max > 0` on progress messages. With `max` 0 the source divides by zero and stores NaN or ±Infinity clamped; that case is not modelled.
- Concurrency is not modelled. Each routine is one step: the `await` points of `processJob` and `handleWebSocketMessage` are not interleaved with other messages or with the sweep.
- Events are not modelled: the `EventEmitter` notifications (`jobCreated`, `jobUpdated`).
- Logging is not modelled: `console.log` and `console.error`.
- File-system paths and the image bytes are not modelled. Downloading and writing an image is one outcome per image, a save time or an error.
- CreateJob takes one `now` for both `createdAt` and `updatedAt`. The source reads the clock twice, and the two readings may differ by a millisecond.
- Records are values, not shared objects. A caller holding a job object does not see later updates through it; the registry's own copy is what the model tracks.
- Option values are scalar JSON only; nested objects and arrays are not represented.
- Messages are assumed well formed. A message without `data`, or with non-numeric progress fields, makes the source throw; that path is not modelled.
- Jobs.SortNewestFirst: the contract states newest-first order and permutation, not the tie order on its own. Ties keep insertion order by construction, and `SortWithStatus` depends on that.
- Directives.AspectSize has no contract of its own. Its behaviour is stated by `AspectSizeKeepsRatio` and `AspectExamples`; the `--ar 0:0` case (width NaN) is left to its definition.
- Concrete end-to-end parses of whole prompt strings are not stated. Recognition is stated for each directive written out on its own: `RenderedDirectiveMatches` for `--q`, `--seed`, `--chaos` and `--s`, `RenderedRatioMatches` for `--ar W:H`, `RenderedExcludeMatches` for `--no t`.
- Jobs.Apply / Jobs.JobQueue.UpdateJob: updates are limited to the five fields the status helpers pass (status, progress, images, error, comfyPromptId). `Object.assign` with arbitrary keys could overwrite id, prompt, options or createdAt; the model does not express that.
- The HTTP routes, authentication, the backend client's transport, and the client are not part of this model.
- The model follows the code in these behaviours, which a reader might not expect:
  - `createJob` silently replaces a record with the same id;
  - an outputs entry with no images completes the job with no images;
  - status helpers apply to jobs in any state, with no guard for terminal states;
  - an error thrown while collecting images fails the job without closing its session;
  - in `processJob`, an error from `setFailed` escapes before the session is closed.
