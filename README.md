# StealthBatchShot capture core in Dafny

StealthBatchShot takes screenshots of a batch of web pages in one or two
viewport modes. This project models its core:

- The server's `POST /api/capture` handler (server.js). It turns a request
  into a newline-delimited JSON (NDJSON) stream of `start`, `progress`,
  `waiting`, `success`, `error`, `fatal` and `done` messages. It runs one
  job per url and mode, and in stealth mode it can pause a job until the
  page sends a continue signal.
- The process-wide `pendingContinue` registry and the
  `POST /api/continue/:jobId` handler that resumes a paused job.
- The screenshot file-name sanitiser.
- The serialisation of messages as JSON text, one message per line.
- The browser script (public/script.js):
  - the url list (`addUrl`, `processInputString`, chip removal);
  - the run button's enabled state;
  - the click handler's reset;
  - the chunked NDJSON read loop;
  - `handleStreamMessage` with its counter, status items and progress bar;
  - `safeId`, the display url and `formatMode`.

Modules:

| file | module | contents |
|---|---|---|
| wrappers.dfy | Wrappers | `Option`, `Result` |
| text.dfy | TextUtil | JavaScript `trim`, ASCII case mapping, decimal rendering, concatenation |
| protocol.dfy | Protocol | modes, stream messages, `JSON.stringify` of a message, the NDJSON framing |
| ndjson.dfy | Ndjson | `split('\n')`, the blank-line filter, reading a framed stream back |
| filename.dfy | FileName | the screenshot file name and path |
| registry.dfy | Registry | the `pendingContinue` map as a class, the continue handler |
| capture.dfy | Capture | the job list, one job's steps, the whole handler as a function (`Handle`) and as imperative code over a `Response` object (`HandleCapture`) |
| facts.dfy | CaptureFacts | what the handler promises about the stream and the registry |
| client.dfy | Client | the browser script: url list, status board, the `Ui` class with the read loop |
| delivery.dfy | Delivery | server and browser together: what the page shows after reading a stream |

How the model is built:

- The browser session is represented by an `Env` value. Its fields say
  whether the launch fails, which step of which job fails (and with what
  message), whether a paused job's continue signal arrives, and what
  `new URL`, `Date.now()` and the downloads folder give.
- `Handle` is the whole handler as a function of the request, the
  environment and the registry's keys. `HandleCapture` is the imperative
  handler. It writes to a `Response` object and updates the registry, and
  it is proved to produce exactly what `Handle` describes.
- A stealth job whose continue signal never arrives leaves the handler
  suspended: the response stays open and the registry keeps the entry.

## Model

| member | source | states |
|---|---|---|
| Capture.SelectedModes | server.js:54-56 | desktop is in the list iff requested, mobile likewise, desktop before mobile |
| Capture.Job.Id | server.js:93 | the job id `url-mode`; `JobIdInjective` and `JobIdsUnique` state that it identifies the job |
| Capture.Jobs | server.js:91-93 | the jobs of the nested loops, url-major; `JobsLayout`, `JobsIndex` and `JobsCount` state their order and number |
| Capture.ErrorText | server.js:186 | a non-empty message is used as is; otherwise the fallback text is used |
| Capture.Row | server.js:91-93 | one job per mode, in mode order, for the url |
| Capture.JobsCount | server.js:64 | there are `urls.length * modes.length` jobs (as `Times`, which `TimesIsProduct` equates with the product) |
| Capture.TimesIsProduct | server.js:64 | the repeated-addition count equals the product |
| Capture.JobsIndex | server.js:91-93 | job `i * m + j`, for `m` modes, is url `i` in mode `j` (url-major order) |
| Capture.JobsLayout | server.js:91-93 | for `n` urls and `m` modes the job list has `n * m` entries and entry `i * m + j` is url `i` with mode `j` |
| Capture.JobsAppend | server.js:91-92 | the jobs of two url lists are the jobs of the first followed by those of the second |
| Capture.JobIdInjective | server.js:93 | `url-mode` job ids of different url/mode pairs differ |
| Capture.JobIdsUnique | server.js:91-93 | with distinct urls and distinct modes, equal job ids mean the same url and mode |
| Capture.FirstFaultSpec | server.js:97-181 | a job's step list runs cleanly iff no step faults; otherwise the first faulting step's message is reported |
| Capture.RunJob | server.js:94-190 | one job's messages and end as the environment decides; `JobMessages`, `JobEnds` and `StealthPause` state their shape |
| Capture.KeysAfterJob | server.js:128-190 | the registry keys after a job: a parked job's id added, a failed job's id deleted, otherwise unchanged |
| Capture.RunJobs | server.js:91-191 | the first `n` jobs run in order until one parks; `BatchTerminals`, `BatchKeys` and `ParkedStays` state what the batch reports and keeps |
| Capture.Handle | server.js:38-201 | the whole handler's answer; the `CaptureFacts` lemmas state its promises and `HandleCapture` is proved to produce it |
| Capture.JobOpening | server.js:94-126 | a job begins with `progress`, then opens its page (stealth: a fresh page and its viewport set; otherwise a fresh context, its init script and a page) and navigates |
| Capture.JobPause | server.js:128-133 | in stealth, after navigation, the job runs its pause |
| Capture.JobClosing | server.js:135-158 | after the pause point the job styles, scrolls and settles the page, then finishes |
| Capture.JobSaving | server.js:161-183 | the job names the file, sets the viewport, takes the screenshot, closes and reports `success` with the path |
| Capture.JobPhases | server.js:94-183 | a job's messages are `progress` followed by what navigation and the rest of the job produce |
| Capture.RunAwaits | server.js:97-181 | a run of awaited steps either faults at the first failing one or carries on with the rest of the script |
| Capture.ParkedStays | server.js:130-132 | once a job is parked waiting for its signal, no later job runs |
| Capture.Session | server.js:64-200 | a launched session answers 200 with the stream headers and no JSON body, and the response is ended exactly when the handler finishes |
| Capture.Finally | server.js:193-200 | the `finally` block answers 200 with the stream headers, and the response is ended exactly when the handler finishes, which a parked job or a failed close prevents |
| Capture.Response.constructor | server.js:38 | a fresh response: status 200, no headers, no body, not ended |
| Capture.Response.SetHeader | server.js:45-48 | appends one header and changes nothing else |
| Capture.Response.Send | server.js:50-52 | appends one message to the stream and changes nothing else |
| Capture.Response.Reject | server.js:42 | sets the status and JSON error body and ends the response |
| Capture.Response.End | server.js:60 | ends the response and changes nothing else |
| Capture.HandleCapture | server.js:38-201 | status, headers, JSON body, stream, ended flag, open session, registry keys and outcome are exactly those of `Handle` |
| Capture.RunSession | server.js:64-200 | from `start` on, the response and registry end as `Session` describes |
| Capture.CaptureAll | server.js:91-191 | the nested url/mode loops write the messages of the jobs run so far and leave the registry keys of that batch |
| Capture.CaptureUrl | server.js:92-191 | the inner loop over modes for url `i` extends the batch by that url's jobs, or stops at a parked job |
| Capture.CaptureMode | server.js:92-190 | one pass of the inner loop runs job `url-mode` as job number `k`: the batch grows by that job, or ends with it when it parks |
| Capture.CaptureJob | server.js:93-190 | one job extends the batch by its messages and registry change; the batch is parked exactly when this job parks |
| Capture.ProcessJob | server.js:94-190 | one job writes the messages of `RunJob` and leaves the registry keys `KeysAfterJob` describes; a parked job keeps a fresh, unresolved entry |
| Capture.Navigate | server.js:97-126 | opening and navigation write `Navigated`'s messages and registry change |
| Capture.PauseAndFinish | server.js:128-190 | the stealth pause and the rest of the job write `Resumed`'s messages and registry change |
| Capture.Pause | server.js:128-133 | writes `waiting`, parks the job in the registry, and removes it again iff the continue signal arrives |
| Capture.CompleteJob | server.js:135-190 | the rest of a job never parks; on failure the job's registry entry is deleted |
| Registry.PendingContinue.constructor | server.js:12 | the registry starts empty |
| Registry.PendingContinue.Park | server.js:130-132 | adds a fresh continuation, never resolved before, under the job id |
| Registry.PendingContinue.Continue | server.js:15-25 | resumes iff the id is pending, then removes it and invokes its continuation once; otherwise 404 with the not-found message and no change |
| Registry.PendingContinue.Cancel | server.js:186 | deletes the id's entry without invoking it |
| Registry.ContinueTwice | server.js:15-25 | of two continue signals for one id, the second is always refused, so no continuation runs twice |
| Protocol.ModeNamesDiffer | server.js:55-56 | the two modes have different names, which differ in their last letter |
| Protocol.Serialize | server.js:50-52 | `JSON.stringify` of a message; `SerializeIsOneLine` and `SerializePrintable` state its shape |
| Protocol.Wire | server.js:50-52 | the messages serialised, each followed by a line feed; `WireLines` states that it reads back |
| Protocol.SerializeIsOneLine | server.js:50-52 | every serialised message is a `{...}` object of printable characters without a line feed |
| Protocol.SerializePrintable | server.js:50-52 | every serialised message contains only characters at or above U+0020 |
| Ndjson.SplitLinesPieces | public/script.js:227 | no piece of a split contains a line feed |
| Ndjson.SplitLines | public/script.js:227 | `split('\n')`; `SplitJoin` and `JoinSplit` state it inverts joining with line feeds |
| Ndjson.OneLineSplit | public/script.js:227 | a text without a line feed splits into itself alone |
| Ndjson.SplitJoin | public/script.js:227 | joining the pieces of a split with line feeds gives the text back |
| Ndjson.JoinSplit | public/script.js:227 | splitting pieces joined by line feeds gives the pieces back |
| Ndjson.SplitAppend | public/script.js:224-228 | the split of a longer text is the earlier complete lines plus the split of the kept partial line continued |
| Ndjson.NonBlankAppend | public/script.js:231 | the blank-line filter distributes over concatenation |
| Ndjson.NonBlank | public/script.js:231 | no more lines than given, none of them blank |
| Ndjson.NonBlankOne | public/script.js:231 | a single line is dropped iff it is blank; with `NonBlankAppend` this fixes the filter on every list |
| Ndjson.NonBlankKeeps | public/script.js:231 | non-blank lines all pass the filter |
| Ndjson.FrameSplits | server.js:50-52 | framed one-line texts split into the texts plus one empty piece |
| Ndjson.FrameLines | public/script.js:227-231 | framed non-blank one-line texts read back as exactly those texts |
| Ndjson.WireLines | public/script.js:227-231 | the stream the server writes reads back as the serialised messages, each once, in order |
| TextUtil.TrimStart | public/script.js:36 | removes a blank prefix and leaves a result not starting with JavaScript white space |
| TextUtil.Trim | public/script.js:36 | `trim()`; `TrimStart`, `TrimEnd`, `TrimEmptyIffBlank` and `TrimIdempotent` state its properties |
| TextUtil.TrimEnd | public/script.js:36 | removes a blank suffix and leaves a result not ending with JavaScript white space |
| TextUtil.TrimEmptyIffBlank | public/script.js:37 | `trim()` is empty iff the text is blank |
| TextUtil.TrimIdempotent | public/script.js:36 | trimming twice equals trimming once |
| TextUtil.AsciiLower | server.js:162-163 | maps A-Z to a-z (32 apart) and leaves everything else alone |
| TextUtil.AsciiUpper | public/script.js:114 | maps a-z to A-Z (32 apart) and leaves everything else alone |
| TextUtil.Decimal | server.js:164 | a non-empty run of digits without a leading zero |
| TextUtil.DecimalRoundTrip | server.js:164 | reading the decimal digits back gives the number |
| FileName.SanitizePart | server.js:162-163 | same length; each unsafe character becomes a dash, every other character is lower-cased |
| FileName.Collapse | server.js:165 | no run of dashes is left, the text does not grow, the first character stays, and no new characters appear |
| FileName.CollapseIsFilter | server.js:165 | collapsing equals the left-to-right filter that drops each dash following a dash, so each run of dashes leaves one dash |
| FileName.CollapseRemovesOnlyDashes | server.js:165 | collapsing removes only dashes |
| FileName.CollapseFixesDashFree | server.js:165 | a text without a dash run is left unchanged |
| FileName.CollapseIdempotent | server.js:165 | collapsing twice equals collapsing once |
| FileName.StripEdges | server.js:165 | does not grow and adds no characters |
| FileName.StripEdgesRebuilds | server.js:165 | the text is the result with the removed leading dash, if the text started with one, in front and the removed trailing dash, if what remained ended with one, behind |
| FileName.StripEdgesDashes | server.js:165 | stripping the edges removes only dashes |
| FileName.IndexOf | server.js:165 | finds the first occurrence at or after the start, or -1 when there is none |
| FileName.ReplaceFirst | server.js:165 | the first occurrence of the pattern replaced, or the text unchanged; `ReplaceFirstDashes` states it for `-.png` |
| FileName.ReplaceFirstDashes | server.js:165 | rewriting the first `-.png` to `.png` removes only a dash |
| FileName.Name | server.js:161-165 | the sanitised host and path with the mode, timestamp and extension; `NameIsSafe`, `NameEndsWithTail` and `NameKeepsText` state its properties |
| FileName.FilePath | server.js:167-169 | the downloads folder, a slash and the file name |
| FileName.NameIsSafe | server.js:161-165 | the file name is non-empty, has no unsafe or upper-case character, no dash run and no leading dash |
| FileName.NameEndsWithTail | server.js:164-165 | the file name ends with `<mode>-<timestamp>.png` |
| FileName.TailText | server.js:164 | without its dashes the tail is the mode name, the timestamp and `.png` |
| FileName.NameKeepsText | server.js:161-165 | without dashes, the file name is the sanitised host and path, the mode name, the timestamp and `.png`, in order: only dashes are added or removed |
| CaptureFacts.TerminalIdsAppend | server.js:183-189 | the job ends reported by two streams in a row are those of the first, then those of the second |
| CaptureFacts.JobMessages | server.js:94-190 | a job's messages start with `progress`, all belong to that job, and only a stealth job writes `waiting` |
| CaptureFacts.JobEnds | server.js:183-189 | a job that does not park reports exactly one end (`success` or `error`) as its last message; a parked job reports none |
| CaptureFacts.StealthPause | server.js:128-133 | in stealth, navigation is followed by `waiting`; the job parks iff the signal never arrives, and when resumed it writes `progress` again right after |
| CaptureFacts.RunShaped | server.js:94-190 | every job run satisfies the per-job message and end shape |
| CaptureFacts.BatchEvents | server.js:91-191 | the jobs' messages all belong to jobs, and contain no `waiting` without stealth |
| CaptureFacts.BatchTerminals | server.js:91-191 | after `n` jobs, the reported ends are exactly those jobs' ids in order, or those before the parked job |
| CaptureFacts.BatchKeys | server.js:128-190 | after `n` jobs the registry lost the finished jobs' keys and gained only a parked job's key |
| CaptureFacts.FinallyOrder | server.js:64-200 | `start` is first, no later `start` or `fatal`, and `done` is last and unique iff the handler finishes |
| CaptureFacts.RejectsMissingUrls | server.js:41-43 | status 400 iff `urls` is missing or empty, and then the JSON error body, no header set by the handler, no stream, ended, registry unchanged |
| CaptureFacts.NoModesSingleError | server.js:58-62 | with urls but no mode: the single `error` message, ended, no session, registry unchanged |
| CaptureFacts.SessionOrder | server.js:64-200 | a launched session streams `start{total}` first, no other `start` or `fatal`, and `done` last and only iff it finishes |
| CaptureFacts.StartComesFirst | server.js:64 | once a mode is selected, `start` with `urls.length * modes.length` is the first and only `start` |
| CaptureFacts.DoneIsLast | server.js:195-200 | `done` appears iff the handler finishes, and then it is the last and only `done` |
| CaptureFacts.EndedWhenFinished | server.js:38-201 | the response is ended iff the handler finishes or refuses the request; otherwise it stays open |
| CaptureFacts.FatalOnlyAtLaunch | server.js:69-194 | a `fatal` message occurs only when the launch fails, and then the stream is `start`, `fatal`, `done` |
| CaptureFacts.EveryJobReportsOnce | server.js:91-200 | a finished, launched request reports each job's end exactly once in url-major order, as many as `start` announced |
| CaptureFacts.NoWaitingWithoutStealth | server.js:128 | without stealth there is no `waiting`, no suspension, and no registry key is added |
| CaptureFacts.SuspendedWaitsForContinue | server.js:128-133 | a suspended handler is in stealth at a job whose signal never came; the stream ends with its `waiting`, earlier jobs all reported, and its key is the one added |
| CaptureFacts.StealthLeavesNoEntries | server.js:128-186 | a finished stealth request leaves none of its job ids in the registry |
| Client.WithScheme | public/script.js:40-42 | the result has a scheme; a url with a scheme is kept and any other text gets `https://` in front |
| Client.StripScheme | public/script.js:127 | a url with a scheme is `https://` or `http://` followed by the result; any other text is returned as is |
| Client.DisplayUrl | public/script.js:84 | the url without its scheme, less one trailing slash exactly when it ends with a slash |
| Client.StripWithScheme | public/script.js:40-84 | adding the default scheme and stripping it gives back the text without a scheme |
| Client.Admit | public/script.js:35-47 | the url `addUrl` would add, if any; `AdmitSpec` states when and what |
| Client.WithSchemeIdempotent | public/script.js:40-42 | adding the scheme twice equals adding it once |
| Client.AdmitSpec | public/script.js:35-47 | a url is admitted iff its trimmed text is non-empty and valid once the scheme is added; it is then that text |
| Client.AdmitKept | public/script.js:35-47 | a trimmed, valid url with a scheme is admitted as itself |
| Client.AdmitIdempotent | public/script.js:35-47 | admitting an admitted url gives it back unchanged |
| Client.KeepAllStep | public/script.js:57 | handling one more piece adds at most that piece's url |
| Client.Keep | public/script.js:49-52 | an admitted url is added once at the end unless already present |
| Client.KeepAll | public/script.js:55-58 | `forEach(addUrl)` over the pieces; `KeepAllSpec` states the resulting list |
| Client.KeepAllSpec | public/script.js:49-57 | the list stays free of repeats, keeps its old urls first, and holds exactly the old urls and the admitted new ones |
| Client.AlreadyKept | public/script.js:49 | urls already in the list change nothing |
| Client.KeepAllIdempotent | public/script.js:55-58 | entering the same text twice equals entering it once |
| Client.Without | public/script.js:92 | the url is removed and every other url is kept |
| Client.WithoutAt | public/script.js:92 | removing the url at index `k` of a list without repeats leaves the urls before and after it in their order |
| Client.WithoutDistinct | public/script.js:92 | removal keeps the list free of repeats, shrinks it by one iff the url was there, and keeps schemes |
| Client.SplitSepClean | public/script.js:56 | no piece of the separator split holds a line feed, comma or space |
| Client.SplitSep | public/script.js:56 | `split(/[\n, ]+/)`; `SplitSepRebuilds`, `SplitSepShaped` and `SplitSepClean` state its pieces |
| Client.SplitSepRebuilds | public/script.js:56 | the text is the pieces with, between each two, a non-empty run of separators; a text ending in a separator has at least one such run |
| Client.SplitSepShaped | public/script.js:56 | interior pieces are non-empty; the last piece is empty iff the text is empty or ends with a separator |
| Client.SplitSepConcat | public/script.js:56 | the pieces joined give the text with its separators removed |
| Client.SafeId | public/script.js:125 | same length; each allowed character is kept and every other becomes a dash |
| Client.SafeIdIdempotent | public/script.js:125 | sanitising twice equals sanitising once, and an already safe id is unchanged |
| Client.SafeIdCollides | public/script.js:125 | two different job ids can share one element id |
| Client.DomId | public/script.js:125 | `job-` followed by `SafeId` of the job id |
| Client.FormatMode | public/script.js:114 | the label has the mode name's length |
| Client.FormatModeNames | public/script.js:114 | the modes show as `Desktop` and `Mobile` |
| Client.FormatModeSpec | public/script.js:114 | only the first letter changes, a lower-case first letter is capitalised, and formatting twice equals once |
| Client.Step | public/script.js:260-300 | the counter moves by one on `success` and job `error`; `start` sets the total; `done` turns the bar iff all tasks counted and the total is non-zero; only `progress` adds a status item, keyed by the job's element id, and events not about a job leave the items alone |
| Client.Mark | public/script.js:142-174 | the job's existing item gets the badge and, when given, the detail; with no such item nothing changes |
| Client.Replay | public/script.js:260-300 | the board after handling the messages in order; `ReplayAppend` and the `Delivery` lemmas state what it shows |
| Client.RunDisabled | public/script.js:104-107 | the button is disabled iff there is no url, no mode, or a capture running |
| Client.ProgressThenEnd | public/script.js:267-287 | after `progress` the job's item shows Capturing, and `waiting`, `success` or `error` turn it to Paused, Succeeded or Failed |
| Client.ReplayAppend | public/script.js:230-235 | handling two runs of messages in a row is handling their concatenation |
| Client.MessagesAppend | public/script.js:233-238 | parsing two runs of lines gives the messages of the first, then those of the second |
| Client.MessagesOf | public/script.js:233-235 | lines that each parse to a message give exactly those messages |
| Client.Ui.constructor | public/script.js:18-120 | no urls, button disabled, not processing, counters at zero |
| Client.Ui.ValidateRunButton | public/script.js:104-107 | the button is disabled iff there is no url, no mode, or a capture running |
| Client.Ui.AddUrl | public/script.js:35-53 | the list becomes the old list with the admitted url added once |
| Client.Ui.ProcessInputString | public/script.js:55-58 | the list becomes the old list with the separated pieces' admitted urls added in order |
| Client.Ui.RemoveUrl | public/script.js:90-95 | the list loses the url, the other urls keep their order, and the button state is refreshed |
| Client.Ui.SetModes | public/script.js:109-111 | the checkboxes change and the button state is refreshed |
| Client.Ui.SetStealth | public/script.js:201 | the stealth checkbox changes and nothing else |
| Client.Ui.BeginCapture | public/script.js:176-202 | no request iff the list is empty; otherwise pending input is added, the counter and items reset, and the request carries the list and modes |
| Client.Ui.ResetRun | public/script.js:185-193 | processing is on, the button disabled, counter zero and the status list empty |
| Client.Ui.EndCapture | public/script.js:253-257 | processing is off and the button is disabled iff no url or no mode |
| Client.Ui.HandleStreamMessage | public/script.js:260-300 | the board changes exactly as `Step` says |
| Client.Ui.UpdateStatusItem | public/script.js:142-174 | only the job's existing item changes its badge and, if given, its detail |
| Client.Ui.HandleLine | public/script.js:230-239 | a non-blank line that parses is handled; any other line changes nothing |
| Client.Ui.HandleLines | public/script.js:230-239 | the board changes as for the parsed non-blank lines, in order |
| Client.Ui.Drain | public/script.js:227-239 | the complete lines are handled and the partial last line is kept |
| Client.Ui.ReadStream | public/script.js:218-249 | whatever the chunks, the board ends as if every non-blank line of the whole text had been parsed and handled in order |
| Client.TextStep | public/script.js:224-228 | splitting the kept partial line plus a chunk gives the same complete lines and remainder as splitting everything |
| Delivery.StreamReadsBack | public/script.js:218-249 | whatever chunks the server's stream arrives in, the page handles exactly the messages written, in order |
| Delivery.ReplayCompleted | public/script.js:278-287 | the counter grows by the number of job ends |
| Delivery.ReplayTotal | public/script.js:263-266 | the total shown is the one `start` announced |
| Delivery.ReplayFinished | public/script.js:291-299 | `done` turns the bar exactly when the counter has reached a non-zero total |
| Delivery.NoDoneKeeps | public/script.js:291-299 | messages other than `done` leave the bar's colour alone |
| Delivery.AllEndedFinishes | public/script.js:260-300 | a stream with one `start`, one final `done` and as many ends as announced shows all tasks complete and the success colour |
| Delivery.FinishedRunCompletes | server.js:64-200 | a finished, launched request leaves the page showing total equal to completed, non-zero, and the success colour |
| Delivery.LaunchFailureLeavesBar | server.js:69-194 | a failed launch leaves the counter at zero, the total announced and the bar's colour unchanged |
| Delivery.EnabledRunIsAccepted | public/script.js:104-107 | a request the enabled button sends is answered 200 with the stream headers, neither refused nor a no-mode error |

## Left out

- main.js (the Electron window that hosts the page) is not part of this model.
- Playwright itself: launching the browser and the stealth plugin,
  creating contexts and pages, navigation, style injection, scrolling,
  screenshots and closing are fallible steps. Whether and how each step fails
  is an `Env` input, not modelled behaviour.
- The arguments of those Playwright calls are not modelled. These include
  the viewport passed to `newContext` and `setViewportSize` (1440 by 900
  for desktop, 390 by 844 for mobile), the device scale factor and the width
  given to the init script. The steps carry no arguments, and no modelled
  output depends on them.
- Protocol.Serialize: that distinct messages serialise to distinct texts is
  not proved. `Delivery.StreamReadsBack` takes as a hypothesis a `decode`
  that inverts `Serialize` on the messages written.
- The `networkidle` wait: its failure is swallowed in the source, so it
  is not a step. Scroll timers, `waitForTimeout` and the settle delays are
  left out because they only take time.
- `Date.now()`, `os.homedir()`, `fs.existsSync`/`mkdirSync` and
  `new URL(url)` are `Env` inputs (the timestamp, the downloads folder,
  and the hostname and pathname or the parse error). `path.join` is
  modelled as joining with `/`.
- `isValidUrl` (`new URL` in the browser) is the `valid` parameter and
  `JSON.parse` is the `decode` parameter. Neither is modelled.
- `TextDecoder`: chunks are taken as already decoded text, so a multi-byte
  character split across chunks is not modelled.
- Concurrency between requests: the registry is one shared object, but
  interleavings of two handlers are not modelled. A suspended handler is an
  outcome (`Suspended`); the rest of its run after a later continue signal
  is not modelled.
- The `urls` field of the request is taken to be an array of strings. Other
  JSON types (a string, numbers) are not modelled.
- Errors thrown while closing a page or context inside the job's `catch`
  are swallowed, as in the source. An error from `browser.close()` in
  `finally` is an `Env` input.
- DOM rendering, `alert`, `console.error`, button text and the continue
  button's own `fetch` are left out, as is the `fetch` of the capture
  request and its non-ok response check. The board models the counters,
  the status items and the bar's colour only.
- The progress bar's width (a floating-point percentage) is not modelled.
  The 300 ms `setTimeout` before the success colour is modelled as
  immediate.
- Client.SafeId: strings are sequences of code points here, while
  JavaScript's `replace` without the `u` flag works on UTF-16 code units.
  A character outside the Basic Multilingual Plane therefore becomes two
  dashes in the page but one dash in the model.
- `toLowerCase`/`toUpperCase` are modelled on ASCII letters only. Other
  Unicode case mappings are not modelled.
- Client.Step: the `title` of a `success` badge is not modelled, because
  `updateStatusItem` ignores the detail for that status.
- Client.Ui.ReadStream: a `reader.read()` that rejects partway is not
  modelled; the chunks are the whole body.
