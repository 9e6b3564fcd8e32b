# HAProxy Controller: a verified model

HAProxy Controller keeps proxies, routes, rules, error pages, certificates and
snippets in a database, compiles them into one `haproxy.cfg`, deploys that file
through a series of steps each of which may fail, and decides whether HAProxy
really runs it. This project models those parts in Dafny and proves what an
operator relies on.

- `Text`: the string operations the controller uses, on sequences of bytes.
- `LineBuffer`: the bounded log buffer, against the unbounded log it stands for.
- `ShowProc`, `WaitHealthy`, `Reload`: reading the master's process table, the poll
  loop that judges a start or reload, and a master whose workers fork, retire and die
  while it is watched.
- `Supervisor`: Start, Reload, Restart, Shutdown and the watchers of the children,
  interleaved one action at a time.
- `ErrorPages`, `Publish`, `References`, `Staging`: raw HTTP responses, the directories
  that hold them and the certificates, the references in the generated file, and the
  staged copy that is checked first.
- `Versions`, `Deploy`, `EndToEnd`: the version table, Apply and Rollback, and what an
  Apply without error guarantees once the supervisor has confirmed it.
- `RouteNames`, `Routing`: generated names, and the frontend section as a compiler with
  an evaluator for the lines it emits.
- `RuleOrder`: listing and moving rules.
- `Snippets`: where operator snippets land in the file.
- `Verdict`, `Agent`: the verdict read from JSON text, and one turn of the assistant.

Code that updates state is a method, proved against a function of the old state;
what the controller promises is then proved about that function, for every input
and every run. A call that may fail for reasons outside the code (the file system, the
database, a signal, the model) is a parameter that says how it answers.

Where the natural claim is stronger than what the code gives, the project holds the
exact condition or a concrete input on which the claim fails:

- A program that HAProxy lists under the name `master` overwrites the reload count
  (`ShowProc.MasterProgramMisleads`); the table is read back if and only if the last such
  program happens to have the master's count (`ShowProc.ReloadsReadExactly`).
- A reload of a running master can be relied on if and only if its baseline was read
  (`Reload.BaselineReadDecides`). Without it, on every host with a worker, a reload can
  be confirmed exactly when no earlier reload failed, whatever the workers run
  (`Reload.UnreadBaseline`). A reply that is cut short counts as read and is no better
  (`Reload.CutBaselineIsUnsound`).
- A newline-free run of more than 8192 bytes makes the log depend on how the stream was
  cut (`LineBuffer.LongRunIsCut`), except in the cases `LineBuffer.ChunkCut` lists.
- An operator header `Content-Length` can contradict the one the controller adds
  (`ErrorPages.LengthIsExact`, `ErrorPages.OperatorLengthContradicts`).
- The version log and the live file part exactly under `Deploy.ApplyParts` and
  `Deploy.RollbackParts`, each of which happens (`Deploy.ApplyCanPart`,
  `Deploy.RollbackCanPart`).
- A failed Apply puts back the file but not the directories, so the live file may name
  a page that is gone. `Deploy.RestoredResolves` and `Deploy.CertsFailedResolves` say
  exactly when its references survive each failure, `Deploy.PagesFailedResolves` that
  one failure breaks nothing; `Deploy.RestoredFileMayDangle` and
  `Deploy.UnreplacedFileMayDangle` are the Applies after which one does not.
- Staging replaces every mention of a live directory, an operator's own included
  (`Staging.OperatorMentionIsRewritten`); each of its two passes is right for every
  scratch directory if and only if the live directory occurs in generated paths alone.
  `Staging.PlainStaging` derives that from what can be read off the settings and the text.
- A route whose name an operator ACL also carries can be taken by a request that does not
  match it, and only then (`Routing.ClashesExactly`, `Routing.ClashMisroutes`), and a path
  prefix that holds white space becomes several patterns
  (`Routing.PathPrefixIsOnePattern`).
- The assistant's flag can be older than its last change (`Agent.VerdictCanBeStale`), and
  a validation call that itself fails keeps the safety net from running, so that a
  broken configuration nobody has looked at is reported as valid
  (`Agent.FailedValidationSilencesTheNet`). `Agent.VouchedExactly` says when the flag can
  be trusted.

## Model

| member | source | states |
|---|---|---|
| LineBuffer.RingBuffer.constructor | internal/hap/supervisor.go:560-562 | a new buffer stands for the empty log |
| LineBuffer.RingBuffer.ShiftDown | internal/hap/supervisor.go:592-594 | the in-place shift of a full buffer: every line moves down one slot |
| LineBuffer.RingBuffer.AppendLocked | internal/hap/supervisor.go:587-601 | blank lines are not recorded; any other line is appended to the log while the slots keep the newest lines |
| LineBuffer.RingBuffer.Write | internal/hap/supervisor.go:565-585 | the loop over newlines and the 8192-byte flush record exactly what reading the bytes one at a time records |
| LineBuffer.FeedSplits | internal/hap/supervisor.go:565-601 | a write cuts the pending bytes and the chunk at the newlines: each piece but the last that carries ink becomes a line without its returns at the end, the last stays pending up to 8192 bytes and is recorded as it stands beyond |
| LineBuffer.RingBuffer.Tail | internal/hap/supervisor.go:603-614 | the last min(n, retained) of the newest max lines ever recorded |
| LineBuffer.RingBuffer.Len | internal/hap/supervisor.go:618-622 | the number of lines ever recorded |
| LineBuffer.RingBuffer.Since | internal/hap/supervisor.go:624-636 | exactly the lines recorded after the mark, or the newest max of them on overflow |
| LineBuffer.LinesSinceMark | internal/hap/supervisor.go:616-636 | writes after a mark never move an earlier line; the lines behind the mark are those a fresh log would record from the same pending bytes |
| LineBuffer.ChunkCut | internal/hap/supervisor.go:565-585 | Write(p) then Write(q) equals Write(p+q) if and only if what p leaves pending is within 8192 bytes or the cut leaves no trace |
| LineBuffer.ChunkIndependence | internal/hap/supervisor.go:565-601 | within the limit, any division of a byte stream into writes records the same lines, total and partial line |
| LineBuffer.LongRunIsCut | internal/hap/supervisor.go:578-583 | behind every newline-free run over the limit a cut shows |
| ShowProc.ParseShowProc | internal/hap/supervisor.go:331-376 | the parser loop computes the tally of the table's rows |
| ShowProc.ReadLine | internal/hap/supervisor.go:334-374 | one line: section headers, the master row with its failed mark, worker rows of the current section, everything else |
| ShowProc.ParseInvertsPrint | internal/hap/supervisor.go:309-376 | parsing a printed process table of any length, with or without the failed mark of a zero count and the headers of empty sections, returns its reload count, failed count and current pids in order; old workers and programs leave no trace, but a program named master replaces the reload count |
| ShowProc.ReloadsReadExactly | internal/hap/supervisor.go:346-363 | the table is read back exactly if and only if the last program named master, if any, has the master's reload count |
| ShowProc.MasterProgramMisleads | internal/hap/supervisor.go:346-363 | a table whose reload count is read from a program named master |
| ShowProc.NoMasterProgram | internal/hap/supervisor.go:346-363 | when no program is named master the reload count is the master's own |
| ShowProc.ParseTop | internal/hap/supervisor.go:331-376 | a reply cut behind the third line reads as a master without workers |
| ShowProc.TallyTable | internal/hap/supervisor.go:331-376 | section by section, only workers under the first header are counted |
| WaitHealthy.NewWorkersSince | internal/hap/supervisor.go:204-216 | the current pids the baseline does not have, in order |
| WaitHealthy.ContainsAny | internal/hap/supervisor.go:225-236 | holds exactly when one of the pids is current |
| WaitHealthy.WaitForWorker | internal/hap/supervisor.go:385-454 | the loop stops at the first poll whose verdict is final and returns that verdict; from the fields of the polls: when a master without socket is healthy, when a reload failed, when the new worker was lost or has settled, and which of the three endings a poll without decision has |
| WaitHealthy.PollMeans | internal/hap/supervisor.go:393-454 | the verdict of every poll, read off its fields, the sighting behind it and the two clocks |
| WaitHealthy.SightMeans | internal/hap/supervisor.go:405-438 | a sighted worker is still there when one of its pids is current, and has settled when the clock is more than 2500 ms past the sighting |
| WaitHealthy.SuccessIsConfirmation | internal/hap/supervisor.go:385-454 | success at a reading holds if and only if a nonempty fresh pid set sighted earlier still overlaps every later successful reading, the settle time has passed, the master ran throughout and no failed reload was counted |
| WaitHealthy.SuccessOutlivesSettle | internal/hap/supervisor.go:405-438 | with one clock reading per poll a confirmed reload held a pid absent from the baseline for more than 2500 ms, at every successful reading, with no new failed reload |
| WaitHealthy.StopsByDeadline | internal/hap/supervisor.go:393-452 | with 200 ms between polls the loop ends within 77 polls |
| Reload.ReloadMaster | internal/hap/supervisor.go:157-190 | a reload that cannot start or signal fails as such; otherwise the wait judges it against the baseline, which is empty when its read failed; it ends without error exactly when the loop confirms it |
| Reload.SuccessMeansNewWorkerOnFile | internal/hap/supervisor.go:160-190 | over every run of master and workers, success with a good baseline read means that at the deciding reading some current worker runs the file that was in place at the signal |
| Reload.RunKeepsFile | internal/hap/supervisor.go:160-190 | in every reachable state each current worker is of the baseline or was forked on the new file |
| Reload.FailedBaselineReadIsUnsound | internal/hap/supervisor.go:181-188 | for every failed baseline read, a run that is confirmed on a worker of the old file |
| Reload.BaselineReadDecides | internal/hap/supervisor.go:181-188 | when replies arrive whole, every confirmed reload of a running master ends on a worker that runs the file if and only if the baseline was read |
| Reload.UnreadBaseline | internal/hap/supervisor.go:181-188 | with an unread baseline, on every host with a worker, some run is confirmed if and only if no reload had failed before |
| Reload.OldFailureCondemns | internal/hap/supervisor.go:405-416 | with an unread baseline, an earlier failed reload keeps every later one from being confirmed |
| Reload.CutBaselineIsUnsound | internal/hap/supervisor.go:295-299 | with a baseline reply cut short, every host with a worker confirms the reload without any change |
| Supervisor.StepKeepsInv | internal/hap/supervisor.go:70-155 | every action of every thread, watcher and child keeps the lock and child accounting |
| Supervisor.RunKeepsInv | internal/hap/supervisor.go:70-155 | the accounting holds in every reachable state |
| Supervisor.AtMostOneChild | internal/hap/supervisor.go:82-135 | in every interleaving at most one child is not yet reaped |
| Supervisor.StartsAfterReaping | internal/hap/supervisor.go:82-135 | a child is started only after every earlier one has been reaped |
| Supervisor.ChannelsCloseOnce | internal/hap/supervisor.go:137-155 | an exit channel is closed at most once, and only after its child was reaped |
| Supervisor.OneReloadAtATime | internal/hap/supervisor.go:160-176 | two threads are never between entering Reload and returning from it |
| Supervisor.RestartWaitsForExit | internal/hap/supervisor.go:457-529 | over every run, a thread that asked a child to stop and goes on to start finds that child reaped and its exit channel closed |
| Supervisor.StopWaitsForExit | internal/hap/supervisor.go:493-534 | over every run, a stop that returns without its timeout branch finds the child it asked to leave reaped and its exit channel closed |
| Supervisor.StopIsNoted | internal/hap/supervisor.go:493-510 | whoever leaves the lock to stop a child has noted that the controller wants it down, and the child is the recorded one |
| Supervisor.ReloadPicksRecorded | internal/hap/supervisor.go:160-190 | the child that Reload is about to signal is the recorded one |
| Supervisor.StartReports | internal/hap/supervisor.go:89-135 | a start that succeeded leaves a recorded child behind, one that failed no running child |
| Supervisor.StartRecords | internal/hap/supervisor.go:89-135 | over every run, a start succeeds at once when a child runs and otherwise only after recording a new one |
| Supervisor.ReloadSignalsOrStarts | internal/hap/supervisor.go:160-190 | over every run, a reload that finds a child running signals that child before it waits and starts nothing; otherwise it starts one before it waits and signals nothing |
| Supervisor.StopReports | internal/hap/supervisor.go:493-529 | over every run, a stop that finds nothing running succeeds, and one that finds a child running waits for that child before it returns |
| Supervisor.AfterStop | internal/hap/supervisor.go:457-467 | the caller goes on to start if and only if it is a Restart whose stop succeeded |
| Supervisor.NoDeadlock | internal/hap/supervisor.go:82-190 | in every reachable state a thread can act, or the holder of the mutex it stands before can, or the one that this holder waits for |
| Supervisor.ExitIsPublished | internal/hap/supervisor.go:137-155 | from every reachable state in which a child has died, its watcher can reap it and close its channel within two actions |
| Supervisor.StopCanReturn | internal/hap/supervisor.go:511-529 | from every reachable state in which a thread waits for a dead child, it can be told and return, and a Restart goes on to start |
| ErrorPages.RawHttp | internal/store/errorpages.go:213-230 | the string builder produces status line, headers and normalised body |
| ErrorPages.HeadSpelled | internal/store/errorpages.go:218-227 | the head line by line: status line, cache control, connection and content type, the operator lines in order without carriage returns, and the length of the normalised body |
| ErrorPages.RawRoundTrip | internal/store/errorpages.go:213-230 | for every accepted page, reading up to the first empty line (section 2.1 of RFC 9112) gives back the status line, the headers in order and exactly the normalised body |
| ErrorPages.LengthIsExact | internal/store/errorpages.go:218-227 | the last header declares the length of the body as sent (section 6.3 of RFC 9112); the head declares one length if and only if no operator header declares another |
| ErrorPages.OperatorLengthContradicts | internal/store/errorpages.go:147-167 | every wrong length that an operator header declares is accepted and contradicts the right one |
| ErrorPages.NormalisedIsIdempotent | internal/store/errorpages.go:215-216 | normalising line ends twice is normalising them once |
| ErrorPages.NormalisedMeans | internal/store/errorpages.go:215-216 | every line feed of a normalised body follows a carriage return, and contracting its line ends gives what contracting those of the body gives |
| ErrorPages.NormalisedLineEnds | internal/store/errorpages.go:215-216 | after expanding line feeds every one of them follows a carriage return |
| ErrorPages.UndoCrlf | internal/store/errorpages.go:215-216 | the expansion of line feeds can be undone |
| ErrorPages.AcceptedHead | internal/store/errorpages.go:147-167 | what saving accepts has a head of single non-empty lines |
| ErrorPages.AcceptExactly | internal/store/errorpages.go:147-167 | a page is saved if and only if both names are valid, the code can be served, the content type is blank or one line, and every header line is blank or has a colon; only a blank content type is filled in |
| ErrorPages.FileNamesApart | internal/store/errorpages.go:205-208 | two pages share a file name if and only if group and code are the same |
| Text.SplitLines | internal/store/store.go:98-107 | the non-blank lines of a field, trimmed, in order |
| Publish.Directory.WriteFile | internal/hap/deploy.go:305-334 | whichever step fails, a reader sees the old entry or the whole new file, nothing else changes and no temporary file is left |
| Publish.Directory.Prune | internal/hap/deploy.go:289-303 | removes exactly the stale files with the suffix |
| Publish.Directory.WriteErrorPages | internal/hap/deploy.go:233-256 | on success the `.http` files are exactly those of the enabled pages, each the raw response of the last page of its name; on failure a prefix of them was written and nothing removed |
| Publish.Directory.WriteCertificates | internal/hap/deploy.go:258-287 | the same for the `.pem` bundles: trimmed key, leaf and chain, each closed by a newline |
| Publish.OverlayThenPrune | internal/hap/deploy.go:233-303 | writing all and then pruning publishes: wanted files hold their content, stale ones are gone, folders and other names are untouched |
| Publish.PublishedExactly | internal/hap/deploy.go:233-303 | when all artifacts carry the suffix, the files with that suffix are exactly the artifacts and no other name is touched |
| Publish.PagesSuffixed | internal/store/errorpages.go:205-208 | every page file carries the suffix `.http`, whatever its group and code |
| Publish.CertsSuffixed | internal/store/certs.go:129 | every stored certificate's file carries the suffix `.pem` |
| Publish.OverlayAt | internal/hap/deploy.go:238-251 | after the writes a name holds the last content written to it, or what it held before |
| Publish.PagesHeld | internal/hap/deploy.go:233-256 | a published directory holds under every page name the raw response of the last page of that name |
| Publish.CertsHeld | internal/hap/deploy.go:258-287 | a published directory holds under every certificate name the trimmed key, leaf and chain of the last one of that name |
| References.RenderHttpErrors | internal/hap/render.go:246-273 | a page path is emitted if and only if an enabled page has that file name |
| References.BindLine | internal/hap/render_proxy.go:257-297 | the tokens of a bind line, the warning if and only if its certificate is missing, and white space around the path |
| References.BindTextRefs | internal/hap/render_proxy.go:271-285 | a bind line names a certificate if and only if it is TLS and the certificate it refers to is stored, and the directory if and only if it is TLS and refers to none that is |
| References.RenderProxy | internal/hap/render_proxy.go:57-76 | the section of one proxy: its head, the lines of its enabled binds in order and nothing of a disabled one, and its tail |
| References.ProxyRefs | internal/hap/render_proxy.go:65-76 | a section names a certificate if and only if an enabled TLS bind refers to it, and the directory if and only if an enabled TLS bind falls back to it |
| References.ErrorFileLine | internal/hap/render.go:268-270 | the line of one page: its status code and the path of its file |
| References.EnabledOfExactly | internal/hap/render.go:249-254 | the pages of a group are exactly its enabled ones |
| References.CertsByName | internal/hap/render.go:135-138 | the lookup table holds stored certificates under their own names, and one for every name |
| References.RenderText | internal/hap/render.go:98-192 | the text of the whole file: settings, the groups of enabled pages, and the section of every enabled proxy in list order, nothing of a disabled one; a page path is there if and only if an enabled page has that name, a certificate path if and only if an enabled TLS bind of an enabled proxy refers to a stored certificate with that file; white space stands around each path |
| References.PublishedResolves | internal/hap/deploy.go:233-303 | every path of a text that RenderText gives for some rows has its file once those rows are published |
| Staging.PublishText | internal/hap/deploy.go:96-140 | rendering and publishing the same rows leaves no reference dangling, and the `.http` and `.pem` files are exactly those of the rows |
| Staging.PathsSpelled | internal/hap/deploy.go:89-91 | a page is printed as its directory, a slash and its name, a certificate likewise, and the certificate directory with its slash |
| Staging.BindSpelled | internal/hap/render_proxy.go:257-297 | a bind line as printed: the address, a word for each option that is on, the path of the certificate or of the directory, and the trimmed operator text |
| Staging.StageForCheck | internal/hap/deploy.go:62-92 | scratch directories filled from the rows, and any text without chance occurrences carried over to them |
| Staging.Preview | internal/hap/deploy.go:43-60 | every reference of the text that is checked has its file in the scratch directories, which hold nothing else |
| Staging.PassIsExact | internal/hap/deploy.go:89-91 | replacing a directory gives the text over every other directory if and only if it occurs only where it is meant |
| Staging.PagePassIsExact | internal/hap/deploy.go:90 | the same for the page directory in the generated text |
| Staging.CertPassIsExact | internal/hap/deploy.go:91 | the same for the certificate directory |
| Staging.StagingRewritesPaths | internal/hap/deploy.go:89-91 | the two replacements together give the same text over the staging directories |
| Staging.UnmentionedPages | internal/hap/deploy.go:90 | absolute directories of several parts without white space, neither leading into the other nor mentioned by the operator, are enough for the first pass over a rendered text |
| Staging.UnmentionedCerts | internal/hap/deploy.go:91 | the same for the second pass |
| Staging.PlainStaging | internal/hap/deploy.go:89-91 | with both, the staged text is the rendered text over the scratch directories |
| Staging.SampleStagesPlainly | internal/hap/deploy.go:89-91 | a text with a page and a certificate that meets all of it |
| Staging.PublishedFromNothing | internal/hap/deploy.go:71-88 | publishing into an empty directory leaves the artifacts and nothing else |
| Staging.OperatorMentionIsRewritten | internal/hap/deploy.go:89-91 | wherever an operator mentions the page directory, some staging directory gives a wrong text |
| Versions.VersionTable.AddVersion | internal/store/versions.go:24-36 | the id is larger than every other, no other row is touched, the order is kept, and an applied row becomes the latest applied |
| Versions.VersionTable.MarkVersion | internal/store/versions.go:100-107 | only the row with the id changes, the order is kept, and a row that is no longer applied leaves the newest applied row among the others |
| Versions.VersionTable.TrimVersions | internal/store/versions.go:109-121 | deleting the ids outside the newest keeps the newest rows in order, at most the limit and never fewer than five if there are, and the latest applied row while it is among them |
| Versions.AddedLatest | internal/store/versions.go:90-98 | an applied row becomes the latest applied; any other leaves the latest as it was |
| Versions.MarkedLatest | internal/store/versions.go:90-107 | after a row is marked as not applied, the newest applied row among the others counts |
| Versions.TrimmedLatest | internal/store/versions.go:109-121 | the latest applied row survives trimming if it is kept; otherwise none is left |
| Versions.TrimmedKeepsNewest | internal/store/versions.go:109-121 | an applied newest row is still the latest applied after trimming |
| Versions.AddedThenMarked | internal/hap/deploy.go:152-171 | adding a row as applied and marking it failed equals adding it as failed |
| Deploy.Deployer.Apply | internal/hap/deploy.go:94-188 | for every combination of answers, which of the ten outcomes comes when; the rows after a rejected check, a rejected reload and a success, field by field, and which rows trimming leaves; the file and both directories after each outcome; no other outcome touches the table |
| Deploy.Deployer.Prepare | internal/hap/deploy.go:96-133 | rendering, staging, check and backup, each with its outcome; only a rejected check adds a row |
| Deploy.Deployer.Replace | internal/hap/deploy.go:134-143 | pages, certificates and file in this order, with what each failure leaves behind |
| Deploy.Deployer.ApplyRows | internal/hap/deploy.go:94-188 | when the text is rendered from the rows that are published, the references of an applied live file resolve in the live directories |
| Deploy.Deployer.Record | internal/hap/deploy.go:150-187 | the part behind the write: record, reload, status, mark and restore, or trim, with the row each outcome leaves |
| Deploy.RowsAfterRecord | internal/hap/deploy.go:150-187 | the new row field by field: failed with the text of the reload when it was rejected, applied otherwise, and the newest rows kept |
| Deploy.Deployer.Rollback | internal/hap/deploy.go:351-392 | for every combination of answers, which outcome comes when; the file; the new applied row with its comment; and that only the row rolled back to is marked as such |
| Deploy.RowsAfterRollback | internal/hap/deploy.go:373-391 | a rollback adds one applied row with the old content and marks the old row as rolled back |
| Deploy.ApplyAgreement | internal/hap/deploy.go:117-187 | Apply keeps the newest applied version equal to the live file if and only if its answers are not those of ApplyParts |
| Deploy.RollbackAgreement | internal/hap/deploy.go:352-392 | the same for Rollback and RollbackParts |
| Deploy.RunsAgree | internal/hap/deploy.go:94-392 | over every run of Apply and Rollback with a working store, restore and rollback reload, file and log agree |
| Deploy.EmptyTableAgrees | internal/hap/deploy.go:94-392 | the same from an empty table and any live file |
| Deploy.RejectedReloadIsUndone | internal/hap/deploy.go:165-180 | a rejected reload leaves the file as it was and adds one failed row |
| Deploy.PagesFailedResolves | internal/hap/deploy.go:135-137 | an Apply that fails while writing pages breaks no reference of the live file |
| Deploy.CertsFailedResolves | internal/hap/deploy.go:138-140 | after one that fails while writing certificates, the live file's references resolve if and only if each page it names is in the failed deployment, lacks the suffix or could not be removed |
| Deploy.RestoredResolves | internal/hap/deploy.go:141-179 | after a file write that failed or a rejected reload, the live file's references resolve if and only if each names a row of the failed deployment, lacks the suffix or could not be removed |
| Deploy.UnreplacedFileMayDangle | internal/hap/deploy.go:135-143 | every Apply that stops between its pages and the file leaves a page reference dangling that its rows no longer have |
| Deploy.RestoredFileMayDangle | internal/hap/deploy.go:172-179 | every rejected Apply without a page that the live file names puts that file back with its reference dangling |
| Deploy.ApplyCanPart | internal/hap/deploy.go:141-180 | an Apply for each way of ApplyParts |
| Deploy.RollbackCanPart | internal/hap/deploy.go:373-391 | a Rollback for each way of RollbackParts |
| EndToEnd.AppliedMeansServing | internal/hap/deploy.go:96-188 | after an Apply without error whose reload is the supervisor's over a master socket, the live file, the newest applied version and a current worker hold exactly the rendered text |
| EndToEnd.FirstApplyServes | internal/hap/deploy.go:96-188 | a first Apply on an empty host that meets every assumption of AppliedMeansServing |
| RouteNames.NamesInjective | internal/hap/render_proxy.go:14-26 | generated names are equal if and only if prefix, row id and sanitised base are |
| RouteNames.NameSpelled | internal/hap/render_proxy.go:14-26 | a generated name is the prefix, the runs of letters and digits of the lower-cased host joined by single underscores, or route when there are none, and the row id |
| RouteNames.NameIsWord | internal/hap/render_proxy.go:14-26 | a generated name is one word of letters, digits, underscores and signs |
| RouteNames.SubdomainIsLabelSuffix | internal/hap/render_proxy.go:238-255 | the wildcard line holds if and only if the labels of the name (section 3.1 of RFC 1034) are a proper suffix of the host's, both lines together if and only if they are a suffix |
| Routing.RenderFrontend | internal/hap/render_proxy.go:32-234 | the method emits the compiled lines and exactly the warnings due; it warns of a missing or a disabled default backend if and only if there is one to warn of, and writes the lines of the rate table if and only if the frontend limits rates |
| Routing.DefaultWarnedExactly | internal/hap/render_proxy.go:202-214 | nothing to serve is warned of if and only if there is no default backend and no enabled route, a disabled default if and only if the default backend is there and disabled, under its name |
| Routing.UndecidedExactly | internal/hap/render_proxy.go:95-104 | beside the operator's own, the lines that decide nothing are those of the rate table, written if and only if rates are limited |
| Routing.LimitLeads | internal/hap/render_proxy.go:95-104 | the rate table, the line that counts and the line that refuses with 429 lead the section |
| Routing.RenderRoutes | internal/hap/render_proxy.go:138-148 | the ACL lines of the enabled routes, in order |
| Routing.RenderRedirects | internal/hap/render_proxy.go:150-169 | the redirect lines of the enabled routes, in order |
| Routing.RenderRules | internal/hap/render_proxy.go:171-177 | the lines of the enabled rules, in order |
| Routing.RenderBackends | internal/hap/render_proxy.go:179-206 | a use_backend line for each route with a usable backend, a warning for each other |
| Routing.TermMeansRoute | internal/hap/render_proxy.go:120-148 | the condition on a route's lines holds if and only if host and path of the route match |
| Routing.CompilationPreservesMeaning | internal/hap/render_proxy.go:120-214 | for every section and request, evaluating the emitted lines gives what a first-match walk over the enabled rows gives |
| Routing.NamesOfSection | internal/hap/render_proxy.go:120-148 | the names that hold in the emitted lines are those the rows mean, clash or no clash |
| Routing.ClashesExactly | internal/hap/render_proxy.go:120-148 | the condition emitted for a route holds for some request that the route does not match if and only if an operator ACL carries a name emitted for it |
| Routing.ClashMisroutes | internal/hap/render_proxy.go:120-148 | an operator ACL with a generated name sends a request to a route that does not match it |
| Routing.PathPrefixIsOnePattern | internal/hap/render_proxy.go:143-146 | a path prefix is matched as written if and only if it is one word |
| Routing.RoutedOrWarned | internal/hap/render_proxy.go:179-206 | a route that names a backend gets its line if that backend exists and is enabled and its warning otherwise, never both, in the order of the routes |
| RuleOrder.SortSorts | internal/store/routing.go:297-321 | the listing is sorted by order index and id and holds the same rules |
| RuleOrder.SortedIsUnique | internal/store/routing.go:297-321 | only one sorted sequence enumerates a set of rules |
| RuleOrder.ListedExactly | internal/store/routing.go:297-321 | the listing holds exactly the owner's rules and each once |
| RuleOrder.ListedInOrder | internal/store/routing.go:297-321 | one rule is listed ahead of another if and only if its order index is less, or its id where the indexes are equal |
| RuleOrder.RuleTable.MoveRule | internal/store/routing.go:385-421 | unknown rule, move out of range, failed transaction and success, each with the whole new table |
| RuleOrder.RuleTable.Renumber | internal/store/routing.go:406-420 | all updates of the transaction happen or none |
| RuleOrder.Locate | internal/store/routing.go:394-400 | the position of the rule in the listing, or -1 |
| RuleOrder.ListedAfterRenumbering | internal/store/routing.go:406-420 | listing after renumbering gives back the list that was written, numbered from 0 |
| RuleOrder.MoveSwapsTwo | internal/store/routing.go:385-421 | a move swaps exactly two rules of the listing and leaves every other owner's rows alone |
| RuleOrder.MoveBackRestores | internal/store/routing.go:385-421 | moving by delta and back restores the order |
| Snippets.Buffer.RawText | internal/hap/render.go:79-91 | operator text is emitted as its non-blank lines, trimmed and indented |
| Snippets.BodyHolds | internal/hap/render.go:79-91 | the printed body holds a line if and only if it is a line of the text that is not blank, trimmed, behind four spaces |
| Snippets.Buffer.RenderKind | internal/hap/render.go:284-293 | one pass over the snippets emits the enabled ones of a kind |
| Snippets.Buffer.RenderSectionSnippets | internal/hap/render.go:275-294 | the kinds in their order, list order within each |
| Snippets.Buffer.RenderDefaults | internal/hap/render.go:330-364 | a defaults section ends with the snippets that extend it |
| Snippets.Buffer.Render | internal/hap/render.go:153-186 | the lines of the whole file, section after section |
| Snippets.SnippetsConserved | internal/hap/render.go:153-186 | for every kind the file shows the enabled snippets once, in list order; those extending defaults once per enabled defaults section; a kind outside the sixteen never |
| Snippets.SnippetsCounted | internal/hap/render.go:277-328 | every snippet appears exactly as often as its state and kind call for |
| Snippets.KindPlace | internal/store/snippets.go:13-17 | every valid kind but defaults-extra has one place in the file |
| Snippets.EachStands | internal/hap/render.go:153-186 | every snippet stands where its kind belongs: inside the globals, inside an enabled defaults section, ahead of the defaults or behind the proxies |
| Snippets.KindsInOrder | internal/hap/render.go:277-328 | down the file the kinds follow one another in their fixed order |
| Snippets.SectionOfKeyword | internal/store/snippets.go:13-17 | comparing stored section types is comparing kinds |
| Snippets.BodyKept | internal/hap/render.go:79-91 | printing the printed body again gives the same lines; no line with text is lost |
| Verdict.RunFinds | internal/ai/agent.go:118 | an automaton over the bytes finds the pattern exactly when the substring search does |
| Verdict.EscapedRun | internal/ai/tools.go:670-676 | text escaped as in section 7 of RFC 8259 never completes the pattern's key |
| Verdict.ValueRun | internal/ai/tools.go:670-676 | behind a key only the value true completes the pattern, and only behind the key valid |
| Verdict.SearchIsExact | internal/ai/tools.go:670-676 | the compact JSON of an object contains the pattern if and only if a field valid is true |
| Verdict.VerdictIsExact | internal/ai/tools.go:318-330 | for all texts, the result of the validation tool contains `"valid":true` if and only if the preview returned no error |
| Verdict.StringReadsBack | internal/ai/tools.go:670-676 | unescaping as in section 7 of RFC 8259 gives every escaped text back and stops at its closing quote |
| Verdict.ObjectReadsBack | internal/ai/tools.go:670-676 | the compact JSON of every object with plain keys reads back as its fields |
| Verdict.ResultSays | internal/ai/tools.go:318-330 | read back, the result of the validation tool holds the error if there was one, the trimmed output of the checker, the number of line ends, the verdict and the warnings |
| Agent.Agent.Run | internal/ai/agent.go:67-172 | reply, steps, messages, flags, tokens and final state of a turn, or the client's error, within 16 completions where no other limit is set; the reply is what was spoken, followed by the warning and the first line of the checker's output if and only if the net ran on a state that does not validate |
| Agent.Perform | internal/ai/agent.go:96-132 | one tool call: kind, summary and detail of its trace line, its answer cut at 6000 bytes, and the two flags |
| Agent.PerformAll | internal/ai/agent.go:96-134 | the calls of one completion, in order |
| Agent.SafetyNet | internal/ai/agent.go:138-158 | changes without any validation step are validated on the final state; when it does not validate the reply says so in full, with the first line of the checker's output behind what was spoken, and otherwise the reply stays as it is |
| Agent.SummarySays | internal/ai/agent.go:138-158 | the same of the reply of a whole turn |
| Agent.FirstLineSays | internal/ai/agent.go:187-200 | the first line of a trimmed text, cut at 200 bytes with an ellipsis |
| Agent.ValidatedInSteps | internal/ai/agent.go:178-185 | holds exactly when some step is a validation |
| Agent.Invoke | internal/ai/tools.go:57-70 | unknown tools and malformed arguments leave the state alone; an answered validation is the text for the state it saw |
| Agent.RoundsFollow | internal/ai/agent.go:80-134 | at most MaxSteps completions, each for the transcript so far; a turn ends early only on a completion without calls |
| Agent.TranscriptDiscipline | internal/ai/agent.go:67-172 | returned messages start with the user's; every call is answered by exactly one tool message, in order, in what is returned and in every transcript the model sees |
| Agent.ChangedIsValidated | internal/ai/agent.go:138-158 | changed is never reported without a validation step |
| Agent.FlagMeans | internal/ai/agent.go:67-172 | the valid flag case by case: the final state's verdict when the safety net ran, otherwise the verdict of the last answered validation, otherwise true |
| Agent.VouchedExactly | internal/ai/agent.go:112-158 | a turn vouches for its flag if and only if the safety net ran or a validation in it saw the final state and the last validation said the same |
| Agent.VerdictCanBeStale | internal/ai/agent.go:138-140 | a turn that reports valid changes on a broken state, because it validated before the last change |
| Agent.FailedValidationSilencesTheNet | internal/ai/agent.go:98-140 | a turn that reports valid changes although nothing was ever validated |

## Left out

- Text: strings are bytes and white space and letter case are those of ASCII; Unicode spaces and case mapping, invalid UTF-8 and the escaping of U+2028 and U+2029 in JSON are not modelled.
- SQL, scanning, connections and migrations: a table is a sequence of rows, a query its filter and order.
- Sockets, signals, process spawning, temporary directories, fsync and backups: each is a call with a given answer.
- Environment of a reload: between the baseline and the verdict the file is not edited by others, a retired worker does not become current again, and no earlier reload is still booting an older file; these are stated in `Reload.Next` and `Reload.Quiescent`.
- Replies of the master CLI: a successful reading is taken to be a whole table. The code takes whatever arrived before the line went quiet; `Reload.CutBaselineIsUnsound` is what a cut baseline leads to.
- Signals after unlocking: Reload and stop signal a pid read under the lock; reuse of that pid by another process is not modelled.
- Request contexts and their timeouts: a cancelled caller is one answer during the retry pause.
- Concurrent edits: one Apply sees one snapshot of the rows, and two Applies do not interleave.
- Directory paths: taken as clean, without a trailing slash, and the two directories are distinct.
- Temporary files of an atomic write: their names are new and removing them succeeds.
- Result messages: Apply says that the previous file was restored even when there was none to restore; the outcome in the model distinguishes states, not words.
- HAProxy's lexer: quotes, comments and backslashes in operator text, and `quoteIfNeeded`.
- Regular-expression routes and operator ACL expressions: a given predicate of the request.
- Operator directives other than final `http-request` rules, redirects, `use_backend` and ACLs, as well as HSTS, logging, statistics, bind and raw extra lines, do not take part in the evaluation of a frontend.
- Backend sections and server lines: printed field by field, with no choice that a later part relies on.
- Header, global and proxy lines around the snippets: given lines in `Snippets.Frame`.
- Order of `http-errors` groups and of pages within a group: library sorts.
- Certificate parsing and key encryption: a certificate row holds its bundle text.
- Log classification after a stop and the last error text: read after the exit channel is closed, so no claim is made.
- Quality of the model's replies, the prompt and the tools' own effects: any completions, any handler.
- Previews: taken as a function of the stored state, so that two previews of one state agree.
- Web handlers, templates, sessions, passwords and formatting helpers: easy members that would add little.
