# SparkClaw protocols and streaming algorithms, modelled and verified

This project models the stateful parts of SparkClaw whose correctness spans many calls, and
proves what they promise over every input, every run or every interleaving. Each module
follows one source component.

- **Audio.** `Pcm16` is the streaming box-filter rate converter, `PcmWorklet` the worklet that
  mixes and buffers the microphone, `PcmCapture` the path from one to the other.
  `Pcm16ClosedForm` defines conversion without streaming, as the mean of the clamped input over
  source time `[k*S/T, (k+1)*S/T)`; the streaming form refines it for every pair of rates and
  every way of cutting the stream.
- **Event stream.** `EventStream` is the incremental reader of streamed replies. Its reference is
  a machine over the lines of the whole text, which knows neither buffers nor blocks.
- **Realtime speech.** `AudioFrame` is the binary frame codec, `RealtimeSession` the message loop
  of the speech service, `RealtimeProtocol` what every session keeps, `OperationGate` the gate
  that transcriptions and realtime sessions share.
- **Chat history.** `TimelineUrl` recognises links, `TimelineScan` scans one rendered page,
  `TimelineDiscover` crawls linked pages, `TimelineRun` exports what was listed,
  `TimelineRerun` is about running twice and `TimelinePipeline` joins the stages. `StableSort`
  is the sort that they and the catalog share.
- **Evidence.** `StartupArgv` is the launch-argument parser, `EvidenceManifest` the two validators
  over it, `ArtifactCatalog` the catalog producer and the checks it must satisfy.
- **Host and deployment.** `SurfaceHost` clips and caches window geometry, `DeploymentRecord` is
  the crash-safe two-file protocol, `ActionIdentity` the store of retained action identities.
- `Outcomes` and `Sequences` hold shared definitions.

Code that changes state step by step is a class or a method with loops, proved against
specification functions; the properties are then proved about those functions. Concurrency
(handlers at the gate, processes on the disk, calls and late replies) is a state machine over
its steps, and the theorems are about every schedule.

## What the proofs found

- Running the history batch again on the same timeline does not always skip everything: one id
  listed under two addresses that read differently is saved again
  (`TimelineRerun.RepeatedIdSavesAgain`).
  `TimelineRerun.RerunSkipsExactlyWhen` gives the exact condition. A crawl never lists an id
  twice, so after a crawl the property holds (`TimelinePipeline.CrawlThenRerun`).
- The second launch-argument validator accepts no list at all when a manifest value written
  behind a flag begins with `--`, because its own canonical list then reads back differently
  (`EvidenceManifest.FlagLikeValueRefused`). Otherwise it accepts exactly one list
  (`EvidenceManifest.V2AcceptsExactly`).
- A history page whose list turns false midway stands both under `sources` and under `errors`
  and contributes what came before (`TimelineDiscover.HalfSoundPage`).
- A `complete` that returns successfully need not have made the completion durable: on a marker
  that already says complete it does not sync the directory
  (`scripts/record-deployment.py:57-58`). `DeploymentRecord.SuccessNotDurable` is a reachable
  history, `DeploymentRecord.SuccessDurableExactlyWhen` the exact condition.
- When the focus cannot be moved out of a task window the surface host unmaps the frame and
  stops, but the sync that ends the turn maps it again exactly when the surface is visible
  (`SurfaceHost.StuckButMapped`, and the contract of `SurfaceHost.SurfaceHost.EventLoop`).
- A cancel before any accepted frame must name frame 0, although a client that names nothing is
  read as naming -1 (`services/asr-runtime/runtime.py:373`,
  `RealtimeProtocol.SilentExactlyWhen`).

## Model

| member | source | states |
|---|---|---|
| Pcm16.FloatToPCM16Nearest | apps/webchat/src/audio/pcm16.ts:50-53 | quantising picks the 16-bit value closest to the scaled sample, the upper one on a tie; every other integer is at least as far away |
| Pcm16.FloatToPCM16Exact | apps/webchat/src/audio/pcm16.ts:50-53 | directly in the sample: full scale from -1 down and from 1 up, in between at most half a step from x * 32768 below zero and from x * 32767 otherwise |
| Pcm16.FloatToPCM16Monotone | apps/webchat/src/audio/pcm16.ts:50-53 | quantising keeps order and maps -1, 0 and 1 to -32768, 0 and 32767 |
| Pcm16.StatefulPCM16Resampler.Create | apps/webchat/src/audio/pcm16.ts:9-15 | a converter exists exactly for positive rates; any other rate is the invalid-rate error |
| Pcm16.StatefulPCM16Resampler.Process | apps/webchat/src/audio/pcm16.ts:17-38 | the output is exactly what the windows of the whole history add over those of the earlier history, and the carried fields are the residue of the whole history |
| Pcm16.StatefulPCM16Resampler.Consume | apps/webchat/src/audio/pcm16.ts:22-35 | spending one sample ends with precisely the completed windows emitted and the incomplete one carried |
| Pcm16.StatefulPCM16Resampler.Flush | apps/webchat/src/audio/pcm16.ts:40-47 | emits the mean of the incomplete window, if there is one, and forgets the history |
| Pcm16.EmittedAppend | apps/webchat/src/audio/pcm16.ts:17-38 | cutting a signal in two and carrying the residue across emits the same as not cutting |
| Pcm16.MergePCM16Chunks | apps/webchat/src/audio/pcm16.ts:55-64 | the merged array is the concatenation of the chunks |
| Pcm16ClosedForm.StreamingRefinesClosedForm | apps/webchat/src/audio/pcm16.ts:17-47 | floor(n*T/S) values before a flush, ceil(n*T/S) with it, each the quantised mean of the input over its own stretch of source time |
| Pcm16ClosedForm.EmittedAt | apps/webchat/src/audio/pcm16.ts:24-30 | value k emitted by the stream is the closed-form output k |
| Pcm16ClosedForm.TailAt | apps/webchat/src/audio/pcm16.ts:40-42 | what a flush adds is the last closed-form output, averaged over the input that is left |
| Pcm16ClosedForm.OutputBetween | apps/webchat/src/audio/pcm16.ts:20-36 | output k lies between what any bounds of the samples overlapping its source time convert to; a constant signal stays constant |
| Pcm16ClosedForm.SignalConserved | apps/webchat/src/audio/pcm16.ts:17-47 | before quantisation the averaged areas add up to the area of the clamped input: nothing is lost or counted twice |
| PcmWorklet.PcmProcessor.Process | apps/webchat/public/pcm-worklet.js:16-37 | everything posted plus what is buffered is the whole mixed input; only buffers of 4096 samples are posted here |
| PcmWorklet.PcmProcessor.MixSample | apps/webchat/public/pcm-worklet.js:23-27 | the channel loop computes the sample of Mix that the next three rows describe |
| PcmWorklet.MixBetween | apps/webchat/public/pcm-worklet.js:16-27 | one mixed sample per sample of the first channel, between any bounds of the channels' samples, a missing one counting as silence |
| PcmWorklet.MixConstant | apps/webchat/public/pcm-worklet.js:22-27 | channels that all carry x mix to x |
| PcmWorklet.MixShift | apps/webchat/public/pcm-worklet.js:22-27 | raising one channel's sample by d raises the mix there by d divided by the number of channels, and nowhere else |
| PcmWorklet.PcmProcessor.EmitBuffer | apps/webchat/public/pcm-worklet.js:39-47 | posts the buffered samples once and empties the buffer; an empty buffer posts nothing |
| PcmWorklet.LevelBetween | apps/webchat/public/pcm-worklet.js:30-43 | the posted mean square lies between any bounds of the squares of the posted samples |
| PcmWorklet.PcmProcessor.Flush | apps/webchat/public/pcm-worklet.js:8-13 | afterwards everything heard has been posted, followed by the flush's answer |
| PcmCapture.PCMInputCapture.HandleWorkletMessage | apps/webchat/src/audio/pcmCapture.ts:167-182 | what was handed on, and retained if asked for, stays the conversion of everything delivered while the capture accepted |
| PcmCapture.PCMInputCapture.FinishCapture | apps/webchat/src/audio/pcmCapture.ts:143-165 | everything handed on is the closed-form conversion of everything delivered; the merged result is the same if it was retained; the duration is the nearest millisecond |
| PcmCapture.Record | apps/webchat/src/audio/pcmCapture.ts:143-202 | however the microphone stream is cut into quanta, wherever flushes fall and whenever messages arrive, a recording is the one-pass conversion of a prefix of the mixed input, and of all of it when the last flush is answered in time |
| EventStream.RequestEventStream | apps/webchat/src/api/client.ts:252-285 | the delivered events are those of the line machine over the concatenated text, so they do not depend on the cut into reads |
| EventStream.DrainBlocks | apps/webchat/src/api/client.ts:273-280 | takes every complete block from the buffer, whatever is still to come |
| EventStream.FlushBlock | apps/webchat/src/api/client.ts:255-269 | one block delivers its last event name and its joined data lines, or nothing without data |
| EventStream.FieldMeaning | apps/webchat/src/api/client.ts:259-265 | a data line adds its text without the white space in front, an event line sets the event to its trimmed text, any other line changes nothing |
| EventStream.TrimMeaning | apps/webchat/src/api/client.ts:261-263 | trimming takes the white space at the ends and nothing else |
| EventStream.SpaceCharacters | apps/webchat/src/api/client.ts:261-263 | white space is exactly these 25 characters |
| EventStream.PlainLines | apps/webchat/src/api/client.ts:256 | text without LF is one line, lone CRs included |
| EventStream.LinesAppend | apps/webchat/src/api/client.ts:256 | an LF or a CRLF ends a line, and the lines behind it are those of the rest |
| EventStream.JoinRoundTrip | apps/webchat/src/api/client.ts:266-268 | joined data lines are read back as they were, separated by single LFs |
| EventStream.BoundaryStable | apps/webchat/src/api/client.ts:273-279 | the leftmost blank-line boundary of a buffer stays the leftmost, with the same length, under every extension |
| EventStream.BlocksFollowLines | apps/webchat/src/api/client.ts:255-285 | cutting a text into blocks and reading each gives the same events as reading the text line by line |
| EventStream.CutAtBoundary | apps/webchat/src/api/client.ts:273-279 | the lines of a text are those of its first block, an empty line and those of the rest |
| EventStream.RoundTrip | apps/webchat/src/api/client.ts:252-285 | messages written with either line end, with or without a name and with lines to ignore, arrive as exactly those that have data, in order, each with its name and its data lines; also the last one without its closing empty line |
| AudioFrame.DecodeEncoded | services/asr-runtime/runtime.py:404-412 | an encoded frame of 1 to 1600 samples decodes to itself under its own number |
| AudioFrame.EncodeDecoded | services/asr-runtime/runtime.py:404-412 | whatever decodes is the encoding of the decoded samples under the expected number |
| AudioFrame.DecodesExactlyWhen | services/asr-runtime/runtime.py:404-412 | byte for byte, which raw messages are frames, what their samples are and which error the others get |
| RealtimeSession.SamplesToMsNearest | services/asr-runtime/runtime.py:449-450 | milliseconds are the nearest integer to the exact duration, the even one on a tie |
| RealtimeSession.SamplesToMsMonotone | services/asr-runtime/runtime.py:449-450 | more samples never report a shorter duration, and the growth is bounded |
| RealtimeSession.ServeRealtime | services/asr-runtime/runtime.py:308-401 | the loop's events, accepted frames and way of ending are those determined by the accepted frames and the first message that is not one |
| RealtimeSession.HandleFrame | services/asr-runtime/runtime.py:335-362 | a frame is either the next accepted one, with every local variable following, one acknowledgement and, exactly when text or language changed, one partial; or it ends the session and sends nothing |
| RealtimeProtocol.AcksInOrder | services/asr-runtime/runtime.py:345-349 | acknowledgements carry 0, 1, 2, ... with the rounded durations of the prefixes |
| RealtimeProtocol.PartialsRise | services/asr-runtime/runtime.py:350-361 | partial revisions rise by exactly one, consecutive partials differ, and the last shows the text and language that the recogniser now gives |
| RealtimeProtocol.PartialsFollowAcks | services/asr-runtime/runtime.py:345-361 | each partial directly follows an acknowledgement and covers the same audio |
| RealtimeProtocol.AcceptedFrames | services/asr-runtime/runtime.py:335-344 | accepted frames are a prefix of the messages, each its sender's own encoding under the next number; they fit the maximum; the model heard exactly them in order |
| RealtimeProtocol.StopsAtFirst | services/asr-runtime/runtime.py:322-401 | acceptance stops at the first message that is not an acceptable frame |
| RealtimeProtocol.FinalExactlyWhen | services/asr-runtime/runtime.py:376-401 | a final event is sent exactly when the first other message finishes the session within the limits; it is the last event and carries what the finished model says, a revision above every partial's, the accepted duration, the time of all model calls, the client's reason and the configured name |
| RealtimeProtocol.SilentExactlyWhen | services/asr-runtime/runtime.py:322-401 | a run returns without a final event exactly when its first message that is not an accepted frame disconnects, or cancels naming the last accepted frame, frame 0 when there is none |
| RealtimeProtocol.RefusalCodes | services/asr-runtime/runtime.py:322-385 | every other end is refused with the code of the first thing wrong, or crashes on a field that cannot be read |
| RealtimeProtocol.ClientSucceeds | services/asr-runtime/runtime.py:314-401 | frames within the limits numbered from 0, taken by the model, and a finish within 10 ms get one acknowledgement each and exactly one final, whatever the model raises on elsewhere |
| RealtimeProtocol.OneEnding | services/asr-runtime/runtime.py:233-273 | a client is sent at most one of final, error and fallback, and nothing after it |
| RealtimeProtocol.SessionSeen | services/asr-runtime/runtime.py:233-273 | a session that cannot start sends its one event; a started one sends ready, its own events, and an error or fallback exactly when it was refused or crashed |
| RealtimeProtocol.VisibleEnding | services/asr-runtime/runtime.py:233-273 | a started session ends visibly exactly when it was refused, crashed or finished |
| OperationGate.OperationGate.Acquire | services/asr-runtime/runtime.py:105-109 | succeeds exactly when the gate was free, never waits, and leaves it held |
| OperationGate.OperationGate.Release | services/asr-runtime/runtime.py:111-113 | leaves the gate free |
| OperationGate.AcquireStep | services/asr-runtime/runtime.py:206-241 | an acquire step of the interleaving is what the class does: it succeeds exactly on a free gate |
| OperationGate.FinishStep | services/asr-runtime/runtime.py:229-273 | a finally block frees the gate exactly when its handler acquired it |
| OperationGate.OtherSteps | services/asr-runtime/runtime.py:190-273 | a handler turned away early never touches the gate, and one that leaves its try block enters its finally block |
| OperationGate.StepKeepsExclusive | services/asr-runtime/runtime.py:206-273 | no step of any handler breaks exclusion, and only the holder's finally block frees the gate |
| OperationGate.AlwaysExclusive | services/asr-runtime/runtime.py:206-273 | over every interleaving at most one handler is between acquire and release, the gate is held exactly when one is, and it is free when all are over |
| OperationGate.StartsExclusive | services/asr-runtime/runtime.py:101-117 | this holds from a free gate for any number and mix of handlers |
| TimelineUrl.ConversationIdempotent | tools/browser-userscripts/src/timeline-batch.js:8-15 | a recognised conversation's canonical URL is recognised as itself with the same id |
| TimelineUrl.ConversationExactlyWhen | tools/browser-userscripts/src/timeline-batch.js:2-15 | the recognised links, written out: https, the provider's own host, no credentials, one of its path forms with or without a closing slash; the id is the last segment |
| TimelineUrl.WordCharacters | tools/browser-userscripts/src/timeline-batch.js:3-6 | by code points, what an id and an account number are made of |
| TimelineUrl.CollectionIdempotent | tools/browser-userscripts/src/timeline-batch.js:16-25 | a followed collection URL is already canonical |
| TimelineUrl.CollectionExactlyWhen | tools/browser-userscripts/src/timeline-batch.js:16-25 | the followed links, written out, without search and hash |
| TimelineScan.ScanBatchTimeline | tools/browser-userscripts/src/timeline-batch.js:26-53 | a scan stops at the first moment it may, or at the first unreadable step or failed scroll, or at the step limit, and returns what that moment determines |
| TimelineScan.TakeSnapshot | tools/browser-userscripts/src/timeline-batch.js:33-42 | one snapshot moves rows, collections and the stability counter to those of the longer prefix of replies |
| TimelineScan.AddItem | tools/browser-userscripts/src/timeline-batch.js:36-40 | an unseen id is appended with its rank; a seen one keeps title and URL and takes only a later time |
| TimelineScan.CollectedExactly | tools/browser-userscripts/src/timeline-batch.js:34 | the collected URLs are every recognised link that was shown, each once |
| TimelineScan.SettledExactlyWhen | tools/browser-userscripts/src/timeline-batch.js:42-43 | a scan may stop exactly when its last five steps showed nothing new at the end and not busy, and it found a conversation, or the page says it is empty, or thirty steps have passed |
| TimelineScan.ConclusionExactly | tools/browser-userscripts/src/timeline-batch.js:44-48 | it fails exactly when nothing was found on a page that does not say it is empty, and otherwise returns all that was found |
| TimelineScan.NewestIsMaximum | tools/browser-userscripts/src/timeline-batch.js:40 | a row's timestamp is the greatest one seen for its id, absent only if none was dated |
| TimelineScan.QuietRunMeaning | tools/browser-userscripts/src/timeline-batch.js:42-43 | the stability counter counts an unbroken run of steps at the end that showed nothing new and were not busy |
| TimelineScan.ComparatorTotal | tools/browser-userscripts/src/timeline-batch.js:48 | on the rows of a scan the comparator is a total order that tells every two rows apart |
| TimelineScan.ScanResultUnique | tools/browser-userscripts/src/timeline-batch.js:48 | the result is the only ordered permutation of the rows |
| TimelineScan.ScanResultOrder | tools/browser-userscripts/src/timeline-batch.js:48 | dated rows ascend with ties by id and come before undated rows in reverse order of discovery; no id repeats |
| TimelineScan.ScanIdentities | tools/browser-userscripts/src/timeline-batch.js:35-39 | every row's URL is read back as a conversation of the row's own id |
| TimelineDiscover.DiscoverBatchHistory | tools/browser-userscripts/src/timeline-batch.js:54-82 | a finished crawl visited exactly the pages reachable through links of pages that did not err and reports on exactly those; the page limit is an error only when more pages are reachable; by position, dated conversations ascend with ties by id and the undated follow as they were found |
| TimelineDiscover.VisitPage | tools/browser-userscripts/src/timeline-batch.js:61-76 | one page keeps the crawl's invariant and is listed as source or error by what it returned |
| TimelineDiscover.AddItem | tools/browser-userscripts/src/timeline-batch.js:69-70 | an unseen id goes behind; a seen one keeps its place and is replaced only by a strictly later report |
| TimelineDiscover.AddItems | tools/browser-userscripts/src/timeline-batch.js:66-71 | exactly the conversations before the first false identity are taken up, in order of discovery |
| TimelineDiscover.ValidPrefixExactly | tools/browser-userscripts/src/timeline-batch.js:66-68 | these go up to the first whose URL does not give its own id |
| TimelineDiscover.AddLinks | tools/browser-userscripts/src/timeline-batch.js:72-75 | exactly the unvisited collections are added behind what was pending |
| TimelineDiscover.TooMany | tools/browser-userscripts/src/timeline-batch.js:60 | the limit is only reached when more than that many pages are reachable |
| TimelineDiscover.Closed | tools/browser-userscripts/src/timeline-batch.js:57-77 | with nothing pending the visited pages are exactly the reachable ones |
| TimelineDiscover.HistoryIsNewest | tools/browser-userscripts/src/timeline-batch.js:66-81 | the listed conversations are the reported ids, each once, with the greatest timestamp reported for it |
| TimelineDiscover.OrderIndependent | tools/browser-userscripts/src/timeline-batch.js:54-82 | the same of any two sites whose pages lead to the same pages and contribute the same conversations |
| TimelineDiscover.ListingOrderFree | tools/browser-userscripts/src/timeline-batch.js:54-82 | finished crawls of sites whose pages list their links in different orders visit the same pages and list the same conversations with the same timestamps |
| TimelineDiscover.HalfSoundPage | tools/browser-userscripts/src/timeline-batch.js:65-76 | a page that fails identity midway is both source and error, leads nowhere and contributes its prefix |
| TimelineDiscover.WholePages | tools/browser-userscripts/src/timeline-batch.js:62-76 | a failed or unrecognised page is an error only and contributes nothing; one that holds throughout is a source only and contributes everything |
| TimelineDiscover.HistoryIdentities | tools/browser-userscripts/src/timeline-batch.js:66-70 | every listed conversation passes the identity check of the batch run |
| TimelineDiscover.HistoryOrdered | tools/browser-userscripts/src/timeline-batch.js:81 | a dated conversation has only dated ones before it, none later, ties by id; the undated keep their order |
| TimelineRun.TimelineBatch.Run | tools/browser-userscripts/src/timeline-batch.js:108-140 | at every end, aborted or not, the processed conversations are split in order among exported, skipped and failed, each position in exactly one; every ledger entry is initial or was verified and then committed, and its file and hash are its own conversation's; only documents of the conversation itself are ever saved; in a calm world the run is the fold of its steps |
| TimelineRun.TimelineBatch.Process | tools/browser-userscripts/src/timeline-batch.js:112-136 | abort and identity errors end the run; otherwise one conversation fails and changes nothing, is skipped with a verified file and only redated, or gets its own new entry |
| TimelineRun.TimelineBatch.Export | tools/browser-userscripts/src/timeline-batch.js:117-136 | an unchanged and verified export is only redated; anything else is saved |
| TimelineRun.ValidDocExactly | tools/browser-userscripts/src/timeline-batch.js:121 | the accepted exports, written out: the provider's name, this conversation's URL, an exporter, and messages of user or ai with text |
| TimelineRun.ContentHashExactly | tools/browser-userscripts/src/timeline-batch.js:118-123 | there is a hash exactly for such an export, and it is the digest of that document |
| TimelineRun.TimelineBatch.Redate | tools/browser-userscripts/src/timeline-batch.js:124-128 | an unchanged export keeps its entry except for the date, once committed |
| TimelineRun.TimelineBatch.Save | tools/browser-userscripts/src/timeline-batch.js:129-135 | an entry is stored only after save, read-back, abort check and commit |
| TimelineRun.SavedExactly | tools/browser-userscripts/src/timeline-batch.js:129-135 | in a calm world a save counts only if the file it reports verifies; then the entry has its receipt, the hash, the date and the link, and no other entry changes |
| TimelineRun.TimelineBatch.Commit | tools/browser-userscripts/src/timeline-batch.js:126-134 | the entry enters memory exactly when the durable commit succeeded |
| TimelineRerun.RerunSkipsExactlyWhen | tools/browser-userscripts/src/timeline-batch.js:108-140 | after a clean run a second one skips everything exactly when conversations recaptured under one id agree in content |
| TimelineRerun.RerunSkipsAll | tools/browser-userscripts/src/timeline-batch.js:108-140 | with distinct ids a second run always skips everything, undated conversations included, and leaves the ledger as it was |
| TimelineRerun.RunTwice | tools/browser-userscripts/src/timeline-batch.js:108-140 | the same of two actual runs, in terms of the lists they return |
| TimelineRerun.RepeatedIdSavesAgain | tools/browser-userscripts/src/timeline-batch.js:115-135 | a concrete timeline, one conversation under two addresses that read differently, on which the second run saves again |
| TimelineRerun.FirstRunHash | tools/browser-userscripts/src/timeline-batch.js:122-134 | a conversation that a rerun captures again finds its own content hash in the ledger |
| TimelineRerun.FreshAfter | tools/browser-userscripts/src/timeline-batch.js:115-134 | an entry is verified and dated as its last processed conversation left it; other entries are untouched |
| TimelinePipeline.ScannedPageSound | tools/browser-userscripts/src/timeline-batch.js:26-71 | whatever a scan returns never raises the identity error in the crawl |
| TimelinePipeline.CrawlThenRerun | tools/browser-userscripts/src/timeline-batch.js:54-140 | what a crawl returns never raises the identity error in the batch, and a second batch run on it changes nothing |
| DeploymentRecord.HistoryDurable | scripts/record-deployment.py:11-63 | over every interleaving of begin and complete, kill, crash and retry a durable marker keeps its mode, durable completion is never taken back, a durable record never changes, and fresh-and-complete implies a durable record |
| DeploymentRecord.NextValid | scripts/record-deployment.py:11-63 | one system call, kill or crash keeps the invariant for every process |
| DeploymentRecord.NextDurable | scripts/record-deployment.py:21-32 | one action never undoes what is durable |
| DeploymentRecord.CallKeeps | scripts/record-deployment.py:47-63 | no call changes the mode of a valid marker, takes back completion or changes a record |
| DeploymentRecord.StartsValid | scripts/record-deployment.py:55-63 | a synced directory is a sound start unless it claims a fresh completed installation without a record |
| DeploymentRecord.Workspace.WriteMarker | scripts/record-deployment.py:11-34 | afterwards the directory is synced and holds the new marker, or the old one where a link found it |
| DeploymentRecord.Workspace.State | scripts/record-deployment.py:37-44 | returns the marker exactly when it is there and valid |
| DeploymentRecord.Workspace.Begin | scripts/record-deployment.py:47-52 | an existing marker stays; a new one is durable, pending, and remembers how the installation began; it is the uninterrupted run of its steps |
| DeploymentRecord.Workspace.Complete | scripts/record-deployment.py:55-63 | a pending marker is completed under its own mode, a fresh one with its record; without a valid marker nothing changes; success is durable exactly when the marker was pending or durably complete already; it is the uninterrupted run of its steps |
| DeploymentRecord.SuccessDurableExactlyWhen | scripts/record-deployment.py:55-63 | under any interleaving a completion that returns successfully leaves a durably complete marker exactly when it replaced the marker itself or the marker was durably complete already |
| DeploymentRecord.SuccessNotDurable | scripts/record-deployment.py:55-63 | a reachable history in which a retried completion succeeds and a crash can still bring the pending marker back |
| StartupArgv.ParseStartupArgv | scripts/e2_reranker_evidence.py:611-632 | the index-driven loop reads the list as its groups from the left and refuses a repeated name |
| StartupArgv.TwoDashes | scripts/e2_reranker_evidence.py:617 | a flag is a token that begins with two dashes |
| StartupArgv.ParsedMeaning | scripts/e2_reranker_evidence.py:611-632 | parsing succeeds exactly when no name repeats; the result then holds exactly the flags and the words in order |
| StartupArgv.RenderReadsBack | scripts/e2_reranker_evidence_v2.py:159-180 | a readable rendering in any mix of spellings is read as exactly its groups, whatever follows |
| StartupArgv.ParseRendered | scripts/e2_reranker_evidence_v2.py:159-180 | parsing a rendered flag map and word list returns them |
| StartupArgv.OrderAndSpellingFree | scripts/e2_reranker_evidence.py:611-632 | permuting flag groups and respelling them does not change the parse |
| StartupArgv.MisreadValue | scripts/e2_reranker_evidence_v2.py:170-174 | a spaced value that begins with two dashes leaves its flag a bare switch |
| EvidenceManifest.V1VerdictExactly | scripts/e2_reranker_evidence.py:635-665 | the first validator's verdict, error code included, read off the groups of the list: Ok exactly when names are distinct, required flags have the manifest's values, both switches are on, the model is named, quantization is none if given and no listed or prefixed feature is enabled |
| EvidenceManifest.V1OrderAndSpellingFree | scripts/e2_reranker_evidence.py:635-665 | that verdict is unchanged by order and spelling |
| EvidenceManifest.V2AcceptsExactly | scripts/e2_reranker_evidence_v2.py:193-340 | the second validator accepts a list exactly when the manifest is coherent, no value looks like a flag and the list is the canonical one |
| EvidenceManifest.V2VerdictExactly | scripts/e2_reranker_evidence_v2.py:183-340 | the second validator's verdict, error code included, read off the groups of the list: the first thing that is wrong with it |
| EvidenceManifest.ExpectedTokens | scripts/e2_reranker_evidence_v2.py:303-338 | the canonical list, token by token |
| EvidenceManifest.CoherentExactly | scripts/e2_reranker_evidence_v2.py:268-300 | a coherent manifest, field by field |
| EvidenceManifest.StripSlashesExactly | scripts/e2_reranker_evidence_v2.py:294-296 | every slash at the end of the snapshot root goes, and nothing else |
| EvidenceManifest.ExpectedPasses | scripts/e2_reranker_evidence_v2.py:193-340 | the canonical list passes every flag, JSON, positional and boolean check before the final comparison |
| EvidenceManifest.FlagLikeValueRefused | scripts/e2_reranker_evidence_v2.py:230-340 | a manifest value that looks like a flag makes every list unacceptable |
| EvidenceManifest.ExpectedDistinct | scripts/e2_reranker_evidence_v2.py:303-338 | the canonical list repeats no flag |
| SurfaceHost.FrameIsIntersection | tools/browser-surface-host/src/surface_host.c:325-362 | the frame covers exactly the requested pixels on the anchor, the child's corner stands where requested, and no narrowing changes a value |
| SurfaceHost.HiddenExactlyWhenDisjoint | tools/browser-surface-host/src/surface_host.c:329-349 | a viewable anchor's surface is hidden exactly when no requested pixel lies on it |
| SurfaceHost.ClippedCases | tools/browser-surface-host/src/surface_host.c:328-353 | an anchor that is not viewable hides the surface; a visible surface is unavailable exactly when its corner has no X coordinates |
| SurfaceHost.SurfaceHost.SyncFrame | tools/browser-surface-host/src/surface_host.c:370-407 | after success the server shows what a fresh look at the anchor asks for, above the anchor, even when the move was skipped; the cache keeps telling the truth after failure too |
| SurfaceHost.SurfaceHost.InStepMeaning | tools/browser-surface-host/src/surface_host.c:370-407 | in step means that a mapped frame covers exactly the requested pixels on the anchor with the child in full size where it was requested, and that an unmapped one has no viewable pixel to show |
| SurfaceHost.SurfaceHost.HandleEvents | tools/browser-surface-host/src/surface_host.c:528-554 | any queue of events keeps cache and server in agreement, leaves the frame mapped as the fold of the events says, and the flags say which endings it held |
| SurfaceHost.SurfaceHost.EventLoop | tools/browser-surface-host/src/surface_host.c:521-561 | after every turn that left both windows alive the server is in step with the anchor; it stops exactly on the turn in which the focus was stuck, or in which a window was lost; on a stopping turn with both windows alive the frame is mapped exactly when the surface is visible |
| SurfaceHost.StuckButMapped | tools/browser-surface-host/src/surface_host.c:533-558 | a concrete run in which the focus is stuck, the loop stops, and the frame is mapped |
| SurfaceHost.SurfaceHost.RestoreChild | tools/browser-surface-host/src/surface_host.c:409-422 | the child returns to its parent, or to the root if that is gone, with its place, size and mapping |
| SurfaceHost.SurfaceHost.Run | tools/browser-surface-host/src/surface_host.c:498-566 | attaching fails exactly on a reported error or a failed first sync; whatever happened in between, a living child ends where it started and the frame is gone |
| ActionIdentity.ActionStore.RetainedAction | apps/webchat/src/api/actionIdentity.ts:8-16 | returns the stored identity, or stores the fresh one, or refuses a malformed one and changes nothing |
| ActionIdentity.ActionStore.Delivered | apps/webchat/src/api/actionIdentity.ts:17-24 | a conclusive reply removes exactly its own identity; any other reply changes nothing |
| ActionIdentity.ConclusiveExactlyWhen | apps/webchat/src/api/actionIdentity.ts:3-19 | server failures unless of a repeatable check, 429 and the three unresolved codes keep the identity; every other reply settles |
| ActionIdentity.UuidShape | apps/webchat/src/api/actionIdentity.ts:2 | a stored identity is 36 characters, hyphens at four places and hexadecimal digits elsewhere |
| ActionIdentity.SharedUntilSettled | apps/webchat/src/api/actionIdentity.ts:8-26 | over every interleaving all calls for a request share its identity, and it stays stored exactly until a conclusive reply to it, which retires it |
| ActionIdentity.RetiredForever | apps/webchat/src/api/actionIdentity.ts:13-23 | a retired identity is never stored or handed out again |
| ActionIdentity.LateReplyHarmless | apps/webchat/src/api/actionIdentity.ts:23 | a late reply for a retired identity never removes its successor |
| ActionIdentity.OneRequestKept | apps/webchat/src/api/actionIdentity.ts:9-14 | over every run no identity is stored for two requests |
| ArtifactCatalog.Visit | scripts/e2_reranker_evidence.py:701-719 | the recursive visit with its growing list yields the files in order or the first thing that is not allowed |
| ArtifactCatalog.VisitedWhenPlain | scripts/e2_reranker_evidence.py:707-719 | the visit succeeds exactly on trees of ASCII names, directories and regular files |
| ArtifactCatalog.RefusalMeaning | scripts/e2_reranker_evidence.py:707-719 | each refusal code means that there is such an entry in the tree |
| ArtifactCatalog.VisitedLists | scripts/e2_reranker_evidence.py:701-719 | it finds exactly the regular files of the tree, each once |
| ArtifactCatalog.JoinInjective | scripts/e2_reranker_evidence.py:710-711 | different part lists of names give different path texts |
| ArtifactCatalog.CompareExactly | scripts/e2_reranker_evidence.py:706-722 | a proper prefix comes first, otherwise the smaller of the first two characters that differ |
| ArtifactCatalog.EnumeratedExactly | scripts/e2_reranker_evidence.py:692-722 | the inventory is the strictly ascending list of unique ASCII paths of exactly the regular files |
| ArtifactCatalog.HashFiles | scripts/e2_reranker_evidence.py:774-782 | entry i describes path i with its component, digest and size; it fails exactly when some file cannot be hashed |
| ArtifactCatalog.BuildArtifactCatalog | scripts/e2_reranker_evidence.py:753-799 | every catalog that is built passes the verifier; where the classification covers snapshot and components, every file can be hashed and the inventory is unchanged, only the schema can refuse, and then it refuses the catalog of that inventory |
| ArtifactCatalog.CatalogUnique | scripts/e2_reranker_evidence.py:774-792 | an inventory, its classification and its file contents have one catalog |
| ArtifactCatalog.BuiltPasses | scripts/e2_reranker_evidence.py:421-443 | recorded entries over an inventory satisfy order, closure, count, size and digest checks |
| ArtifactCatalog.CheckExactly | scripts/e2_reranker_evidence.py:421-443 | the verifier's verdict, error code included: Ok exactly when paths ascend strictly, components are exactly the schema's, and count, total size and digest are those of the list |
| ArtifactCatalog.TotalSizeAdds | scripts/e2_reranker_evidence.py:440 | the total is the sum of the sizes |
| ArtifactCatalog.AscendingPasses | scripts/e2_reranker_evidence.py:424-425 | a strictly ascending list passes the sorted-and-unique test |

## Left out

Audio

- Floating-point rounding, NaN and infinities: samples are `real`, rates are positive integers, and the 1e-9 guards become comparisons with 0, since the smallest non-zero residue is 1/T.
- PcmWorklet.PcmProcessor.EmitBuffer: posts the mean square of a buffer; the square root that makes it a level is not modelled.
- Pcm16.StatefulPCM16Resampler.Create: rates are integers, so infinite and NaN rates are not covered; the source uses only the ratio of the two, and two rational rates are in the ratio of two integers.
- The capture object's stream, watchdog, start-up timeout and cancellation. The time that the last flush is awaited is a choice of which messages arrive.
- Microphones, silence detection and the WAV writer.

Event stream

- UTF-8 decoding: the decoded chunks are taken to concatenate to the decoded whole.
- The request itself and its error branch (`apps/webchat/src/api/client.ts:226-251`).
- The reader follows the code and not section 9.2.6 of the WHATWG HTML Standard: it drops all leading white space of a data line, ends no line at a lone CR and delivers an unfinished last block.

Realtime speech

- Clocks and deadlines: an expired deadline is a message that may arrive at any time, and each model call's duration is a parameter.
- A websocket whose send fails: the session then only stops early.
- Validation of the start message and of the language: their outcome is a parameter. WAV decoding, health endpoints and the contents of the transcription route are not modelled.
- Conversion of a control field to an integer: each field carries what that conversion gives.
- Taking a free asyncio lock is taken not to yield.

Chat history

- Reading the page, scrolling, the page bridge and the other userscript, which repeats this code.
- URL parsing and printing: a URL is the record it parses into, and printing it and parsing again is taken to give it back.
- Date parsing: a timestamp is an instant; ISO texts order the same way for the years 0 to 9999.
- `localeCompare`: a parameter, taken to be a total order on the listed ids where a lemma needs one.
- The `count` and `coverage` fields, the fixed warnings and the progress callback.
- TimelineRerun.RerunSkipsAll: needs distinct ids, because the property fails for a repeated id; the exact condition is in TimelineRerun.RerunSkipsExactlyWhen.
- The ledger is a map. In the source it is a plain object, in which the id `__proto__` would set the prototype and be lost when the object is copied.
- SHA-256 and JSON are functions. Verification sees only a record's path and digest, as in `scripts/ai-chat/batch-export.mjs:58-64`.

Deployment

- Temporary files, permissions and the size limit of the marker file: an oversized or invalid marker is one case of an invalid one.

Evidence

- JSON Schema validation (a parameter), Python's equality of objects (a parameter), the canonical bytes, SHA-256 and the reading of a single file (`scripts/e2_reranker_evidence.py:725-750`): functions.
- The number-to-text conversion of the block size and of the first validator's integers: the manifest holds the texts.
- The second version's catalog producer and the other manifest checks.
- The test at `scripts/e2_reranker_evidence.py:777-778`: it cannot fail, as the line above it has compared the whole set of components.
- Directory reading errors. A directory is its entries in sorted order, with unique names without slashes, as a file system guarantees.

Surface host

- Window identity checks, option parsing, the save set, and the 16-bit truncation of coordinates in the X protocol.
- Only this program is taken to move the windows it attached.
- The constructor of SurfaceHost is the attached state; an X error on the way to it is a parameter of Run.

Action identity

- Collisions of the digest in a storage key and repeated UUIDs; a call's read and write of the storage are one step.
