# A verified model of libosdp-rs

libosdp-rs wraps LibOSDP, a C implementation of the Open Supervised Device
Protocol, and carries the scripts its maintainers release it with. This project
models four parts of it and proves what they promise.

**The submission, reply and wake engine** (`Engine*.dfy`, `Queues.dfy`,
`Context.dfy`, `CallbackSlots.dfy`). An application submits commands or events;
each is boxed and handed to C, which gives every accepted box back once. Replies
to PIV and authenticate commands are routed through a map to the handle that
waits, or to a bounded queue; wakers are collected in callbacks and fired once the
outermost C call has returned; a `busy` flag makes re-entry harmless. `Engine` is a
step system whose stack holds a frame for each call that has not returned, so that
its runs cover every way callbacks and wakers can call back into the context, and
LibOSDP is any environment that keeps its documented contract. `Context.dfy` has
the same code as classes whose methods update their fields; every method performs
a run of the step system, for any LibOSDP and any application around it.

**Release files** (`Text.dfy`, `Dates.dfy`, `Changelog*.dfy`). The line parser of a
release file, with wrapped bullets, and its printer: as functions, of which a grammar
of what is accepted, the reasons of what is refused and the round trips are proved,
and as the loops the script has (`ChangelogTool.dfy`), proved equal to the functions.

**The release helper** (`Release*.dfy`). `prepare`, `publish` with its rollback,
and the pre-commit gate, over a checkout of commits, HEAD, tags, index and
worktree. `ReleaseHelper.dfy` has the commands step by step as methods of a class.

**The raw structures** (`Raw.dfy`, `Biometrics.dfy`, `Commands.dfy`, `Events.dfy`,
`CommandLaws.dfy`, `EventLaws.dfy`, `PdInfo.dfy`). Commands and events to and from the
tagged unions of the C library, with their counted durations, fixed buffers and length
fields, and the capability array whose length the destructor finds by walking to a
sentinel. `CommandMeaning.dfy` and `EventMeaning.dfy` say what a raw value means by
the codes of the C header (`Header.dfy`), and prove encoder and decoder against that.

## Where the code is not what its documentation says

- `libosdp/src/wake.rs:6-8` says that no application code runs inside a callback.
  `flush` calls C without the `busy` flag (`libosdp/src/cp.rs:359-363`), so a callback that
  it runs can refresh the context, which fires wakers there
  (`EngineExamples.FlushCallbackWakesInsideC`). It is true as long as the application calls
  from inside C only while the context is busy (`EngineTheorems.WakersFireOutsideC`), and
  that condition is exact (`EngineTheorems.GuardIsExact`). No waker is ever fired below a
  refresh or a panel's submit (`EngineTheorems.WakersFireUnguarded`).
- `libosdp/src/cp.rs:285-293` says that the handle of `piv_data` resolves into the card's
  reply. It reports a failure instead if a waker that `piv_data` itself fires refreshes the
  context, and LibOSDP answers there (`EngineExamples.RefreshingWakerLosesReply`).
  `EngineTheorems.HandleReportsItsReply` says exactly when it resolves into the reply, and
  `EngineTheorems.CalmHandleReportsItsReply` that it always does if no refresh is called
  before the submit call of a card command has returned.
- `scripts/make_release.py:572-574` says that untracked files survive the hard reset. The
  release file itself does not when HEAD does not have it: publish adds it to the Release
  commit, and the rollback of a cycle removes it with that commit
  (`ReleaseExamples.UncommittedReleaseFileIsLost`). `ReleaseRollback.ReleaseFileSurvives` says
  exactly when it survives, and `ReleaseRollback.FailureIsRetryable` when publish can be run
  again.

## What is assumed

- LibOSDP keeps the contract at `libosdp-sys/src/bindings.rs:1224-1249`: an accepted
  submission completes exactly once, and a refused one never; a flush completes only what is
  in the queue, as flushed, teardown all that is left, as aborted, and a refresh anything; a
  PD runs one PIV or authenticate command at a time, which ends in a refresh or in teardown;
  a reply comes in a refresh, from a PD that runs such a command, and before the command
  completes OK; callbacks of the application run in a refresh, in a flush, and in a submit
  that opens a file. This is `Engine.Legal`; every theorem about runs is about all of its
  runs, but for those whose rows say that no refresh is called in the window between the
  return of a card command's C call and that of its submit call, which is `Engine.Calm`.
- Rust's ownership: a handle is used only while it exists, a context is torn down only when
  no handle borrows it. The `async` feature is on.
- The user of the release helper edits, stages, unstages and restores files but writes no
  crate's version by hand, commits what is staged through the gate, abandons a prepared
  release with the `git restore` that `prepare` prints, and reverts a Prepare commit to the
  version it was made on, with the pin of then or of HEAD.
- The registry, signing key and network answer anything. Stamping the date into a release
  file changes nothing else about it.

## Model

| member | source | states |
|---|---|---|
| EngineTheorems.InvKept | libosdp/src/cp.rs:200-390 | every step of the application, LibOSDP or the context keeps the whole invariant: nesting and `busy`, ownership, wakers, events |
| EngineTheorems.BoxesConserved | libosdp/src/ffi/submit.rs:26-60 | in every reachable state each box ever made was freed once or is live and freed not at all; between calls the live boxes are what LibOSDP accepted and has not completed |
| EngineTheorems.TeardownFreesAll | libosdp/src/cp.rs:576-580 | after teardown no box and no slot is left, and every box was freed once |
| EngineTheorems.QuiescentBetweenCalls | libosdp/src/cp.rs:209-239 | when no call is running the flag is clear, no waker is deferred, and a parked stream waker means an empty queue |
| EngineTheorems.NoLostWakeup | libosdp/src/ffi/submit.rs:47-60 | the task that last polled a submission to pending is parked in a slot still pending, or has been woken since |
| EngineTheorems.NestedCallsDoNothing | libosdp/src/busy.rs:20-36 | `busy` holds exactly below a guarded call; there a refresh changes nothing and a panel's submit is refused with no effect |
| EngineTheorems.WakersFireUnguarded | libosdp/src/cp.rs:225-239 | wakers fire one at a time, only from a wake loop, and never below a guarded call |
| EngineTheorems.WakersFireOutsideC | libosdp/src/wake.rs:16-30 | if the application calls from inside C only while the context is busy, no waker is ever fired from inside C |
| EngineTheorems.GuardIsExact | libosdp/src/cp.rs:359-363 | that guard is exact: where the application may call, a call can have a waker fired from inside C if and only if a C call is running and the context is not busy |
| EngineTheorems.EventsConserved | libosdp/src/queue.rs:31-43 | popped then queued is exactly what was accepted, in order; the queue is within its capacity; converted events are delivered, popped, queued or counted as dropped |
| EngineAnswers.EventIsQueued | libosdp/src/ffi/callback.rs:116-129 | an event that is no card reply goes to the end of the queue as long as there is room, and only else is counted as dropped; it changes no slot, route or waker |
| EngineAnswers.EventComesInTurn | libosdp/src/queue.rs:31-43 | over every run from then on, that event waits behind those ahead of it, or was taken right after them |
| EngineAnswers.RouteOfCommand | libosdp/src/cp.rs:340-347 | an accepted PIV or authenticate command sets its PD's route, or removes it if it does not want the reply; any other command and any other PD's route are left alone |
| EngineAnswers.CompletionIsReported | libosdp/src/ffi/submit.rs:47-74 | the completed submission's slot reports OK for code 0, flushed for 2, aborted for 3 and failed for any other; no other slot changes, the box is freed, and the parked waker is last of those to fire |
| EngineAnswers.HandleReportsCompletion | libosdp/src/submit.rs:117-137 | over every run, the handle reports that outcome whenever it is there, even if it was handed out later; one that a flush completed reports flushed; a card command reports the same failures, and after an OK the reply it had caught or else a failure |
| EngineTheorems.OutcomeStable | libosdp/src/submit.rs:117-137 | over every run, an outcome that a handle reports stays the same until the handle is dropped, for plain and card submissions |
| EngineTheorems.ReplyGoesToRunning | libosdp/src/ffi/callback.rs:50-62 | in every run, a reply lands in the slot of the command running on its PD, if the route leads to it and its handle is there, and then that wants it; otherwise in the queue, or in the dropped count when that is full; no other slot changes |
| EngineTheorems.WantedReplyArrives | libosdp/src/cp.rs:337-347 | with no refresh before a card command's submit call has returned, the running command's slot takes a reply exactly if it wants one, its handle is there and none came before |
| EngineTheorems.PendingRouteIsRunning | libosdp/src/ffi/callback.rs:39-45 | in every run, a slot in the reply map that is still pending belongs to the command its PD is running, which wants a reply: no stale route captures one |
| EngineTheorems.HandleReportsItsReply | libosdp/src/submit.rs:127-136 | in every run, a wanted card command that completed OK with its handle there caught its first reply if and only if its own submit call was the last of its PD's card commands to return before that; answered once, its handle reports that reply exactly then, and else a failure |
| EngineTheorems.CalmHandleReportsItsReply | libosdp/src/submit.rs:127-136 | with no refresh before a card command's submit call has returned, the handle always reports its first reply |
| EngineRouting.TracedKept | libosdp/src/ffi/callback.rs:39-62 | every step keeps the account of the reply map, the slots' replies and the history of calls that returned and replies that came |
| EngineRouting.RouteIsRunning | libosdp/src/ffi/callback.rs:39-45 | a route to a pending slot is the running command's |
| EngineRouting.ReplyReaches | libosdp/src/ffi/callback.rs:54-61 | the lookup of a reply's slot finds the running command's slot if and only if the route leads to it and its handle is there |
| EngineCalm.CalmlyKept | libosdp/src/cp.rs:337-347 | without a refresh in that window, every step keeps the route of each unanswered wanted command until its reply comes |
| EngineExamples.RefreshingWakerLosesReply | libosdp/src/cp.rs:337-347 | a run in which a task woken by the refresh calls `piv_data`, the stream's task woken inside that refreshes, and the answered command's handle reports a failure |
| EngineExamples.FlushCallbackWakesInsideC | libosdp/src/cp.rs:359-363 | a run in which a waker fires while a flush is still inside C |
| Contexts.Context.constructor | libosdp/src/cp.rs:135-143 | a new context is in the step system's first state |
| Contexts.Context.Refresh | libosdp/src/cp.rs:209-217 | performs a run that begins with the refresh step and returns with the stack and flag it found; busy, it changes nothing |
| Contexts.Context.WakeWaiting | libosdp/src/cp.rs:225-239 | every waker collected is fired before it returns, unless a callback is running |
| Contexts.Context.FireNext | libosdp/src/wake.rs:26-28 | fires the first waker that waits, and then whatever its task calls |
| Contexts.Context.WakeStream | libosdp/src/cp.rs:232-237 | fires the stream's parked waker when events are queued |
| Contexts.Context.QueueCommand | libosdp/src/cp.rs:326-354 | refused while busy or when the command does not convert, with no effect; refused by LibOSDP, its box is freed once; accepted, its handle exists and its PD's route leads to a card command that wants its reply, and to nothing for one that does not |
| Contexts.Context.Offer | libosdp/src/cp.rs:332-339 | boxes the command, has C take or refuse it, and clears the flag |
| Contexts.Context.HandOver | libosdp/src/cp.rs:337-339 | the C call returns, the flag clears if the submit held it, and the waiting tasks are woken |
| Contexts.Context.Conclude | libosdp/src/cp.rs:340-353 | takes a refused box back, or makes the handle and, for a PIV or authenticate command only, sets or removes the PD's route |
| Contexts.Context.Submit | libosdp/src/cp.rs:280-283 | a plain submit wants no reply of its own, and a card command sent so leaves its PD without a route |
| Contexts.Context.SubmitCard | libosdp/src/cp.rs:294-321 | an accepted card command is the one its PD's replies are routed to |
| Contexts.Context.SubmitEvent | libosdp/src/pd.rs:290-299 | a device's submit: refused boxes are freed once, accepted ones get a handle |
| Contexts.Context.Reply | libosdp/src/pd.rs:109-123 | refused with no effect exactly for a status of another kind than queried or an event that does not convert; otherwise refused and freed, or held by LibOSDP with no handle |
| Contexts.Context.SubmitReply | libosdp/src/pd.rs:117-122 | hands the reply's box over or takes it back |
| Contexts.Context.Flush | libosdp/src/cp.rs:359-363 | performs a run that begins with the flush step; returns the number of queued submissions that LibOSDP dropped and whose boxes are freed |
| Contexts.Context.NextEvent | libosdp/src/cp.rs:383-385 | gives the oldest event |
| Contexts.Context.PollStream | libosdp/src/stream.rs:33-41 | gives the oldest event, or parks the waker exactly when there is none, and only then |
| Contexts.Context.Poll | libosdp/src/submit.rs:169-177 | gives the outcome, or parks the waker exactly when there is none; nothing else changes |
| Contexts.Context.PollCard | libosdp/src/submit.rs:184-192 | the same for a card command: how it failed, the reply its slot caught, or a failure without one |
| Contexts.Context.DropHandle | libosdp/src/submit.rs:139-143 | the handle and its share of the slot are gone; the submission goes on, and the slot with it, exactly as long as its box lives |
| Contexts.Context.Drop | libosdp/src/cp.rs:576-580 | teardown completes everything held and leaves no box and no slot |
| Contexts.Context.DeliverReply | libosdp/src/ffi/callback.rs:50-62 | a reply takes its PD's route and goes to the slot there if that waits with its handle; anything else is given back |
| Contexts.Context.EventTrampoline | libosdp/src/ffi/callback.rs:103-130 | is the event step: -1 and no effect for an event that does not convert; any other that is no card reply is queued last while there is room, and else counted as dropped |
| Contexts.Context.CommandComplete | libosdp/src/ffi/submit.rs:47-60 | is the completion step: the outcome of the code is set and no other slot changes, the waker is deferred last, a live box freed |
| Contexts.Context.LibRuns | libosdp-sys/src/bindings.rs:1224-1238 | whatever LibOSDP and the callbacks it runs do in a C call is a run of the step system |
| Contexts.Context.BetweenCalls | libosdp/src/cp.rs:209-239 | between calls the objects themselves are quiescent and hold exactly LibOSDP's boxes |
| CallbackSlots.SlotKeepsCallback | libosdp/src/ffi/callback.rs:78-101 | after any finite tree of nested calls and replacements the slot holds the callback installed last, else the original; none was freed twice or while it ran |
| CallbackSlots.CallKeepsCallback | libosdp/src/ffi/callback.rs:92-100 | the same for one call of the slot |
| CallbackSlots.InstallsCounted | libosdp/src/ffi/callback.rs:92-100 | a callback called while it is in its slot runs, and no other does: a tree of calls installs exactly what those that run install |
| CallbackSlots.CallbackSlot.Replace | libosdp/src/ffi/callback.rs:85-87 | installs the callback and frees the one it replaces, unless that runs |
| CallbackSlots.CallbackSlot.Call | libosdp/src/ffi/callback.rs:92-100 | runs the callback out of the slot and puts it back unless it was replaced |
| ChangelogRoundTrip.ParseOfRender | scripts/changelog_tool.py:127-241 | printing a well-formed entry and parsing that gives the entry, or is refused exactly when the text has a TODO marker |
| ChangelogRoundTrip.ParseOfPrinted | scripts/changelog_tool.py:127-241 | the same without an ISO date, which is then refused |
| ChangelogRoundTrip.RenderedText | scripts/changelog_tool.py:224-241 | what is printed, line by line: the fenced front matter, the subject, and the sections with their blank lines and bullets |
| Dates.WhenIso | scripts/changelog_tool.py:95-106 | a date that is accepted becomes one in ISO form if and only if it was one, or its year is 1000 or later, or the platform pads years |
| Dates.DateTextThroughIso | scripts/changelog_tool.py:95-106 | of what is written as a date, exactly the ISO form is read back |
| Dates.LongDateIsTheDay | scripts/changelog_tool.py:101-105 | a long date is accepted exactly if it is a day, the name of a month, in full or cut to three letters and in any case, and a year, and there is such a day; and it is that day |
| Dates.DateIsTheDay | scripts/changelog_tool.py:95-106 | a date is read as itself if it is in ISO form, and else as text whose fields are the year, month and day that were written |
| ChangelogVersions.ThreePassesAreOne | scripts/changelog_tool.py:77-79 | the three replacements make one dash of each run of white space and dashes, as one pass over the text does |
| ChangelogVersions.NormalizedVersion | scripts/changelog_tool.py:73-83 | a version is normalized to `v` and its small letters, digits, dots, pluses and single dashes exactly if it has nothing else |
| ChangelogVersions.TagIs | scripts/changelog_tool.py:86-92 | a tag is read as a crate and version exactly if it is the crate's name, a dash and text normalized to that version |
| ChangelogGrammar.HeadingIs | scripts/changelog_tool.py:46 | a line is a heading exactly if, stripped, it is two hashes, a blank, a capital and then letters and blanks |
| ChangelogGrammar.BulletIs | scripts/changelog_tool.py:194-198 | a line is a bullet exactly if, stripped, it is a dash, white space and the item |
| ChangelogGrammar.SectionsByGrammar | scripts/changelog_tool.py:168-214 | the parser accepts exactly the sections of a grammar, and reads them as what it says: headings with distinct titles, bullets that go on over indented lines, blank lines between and after but not among them |
| ChangelogGrammar.BodyByGrammar | scripts/changelog_tool.py:153-217 | the same for a body: blank lines, a subject without headings, sections |
| ChangelogReading.MetaIs | scripts/changelog_tool.py:109-124 | front matter is read exactly if each line that is not blank has a colon, and gives each key its last value |
| ChangelogReading.ParsedIsFileOf | scripts/changelog_tool.py:127-221 | a text is read as an entry if and only if it has no TODO marker and is fenced front matter with exactly the three keys, whose values are the entry's crate, version and date, and a body of that grammar |
| ChangelogReading.ParsedUnderTag | scripts/changelog_tool.py:144-150 | asking for a tag refuses exactly the entries it does not name |
| ChangelogReading.FileTagIs | scripts/changelog_tool.py:43-45 | a file name gives a tag exactly if it is a crate, a dash, a version with its `v`, and `.md` |
| ChangelogReading.ValidatedIs | scripts/changelog_tool.py:257-275 | a file validates as an entry exactly if it is read as that entry, its name gives the entry's tag, and so does the tag asked for, if any |
| ChangelogRefusals.RefusalIsTrue | scripts/changelog_tool.py:127-221 | every refusal of a text is for something wrong in it: the marker, the fence, the line, the key, the crate, version, tag or date, or the heading, bullet or section that it names |
| ChangelogRefusals.BodyFault | scripts/changelog_tool.py:153-217 | the same for a body |
| ChangelogRoundTrip.ValidateOfRender | scripts/changelog_tool.py:257-270 | a printed entry validates under its own file name |
| ChangelogRoundTrip.TagRoundTrip | scripts/changelog_tool.py:59-92 | an entry's tag splits into its crate and version; the longer crate name wins |
| ChangelogRoundTrip.FileTagOfPathName | scripts/changelog_tool.py:260-263 | an entry's file name is read as its tag |
| ChangelogRoundTrip.WrappedItem | scripts/changelog_tool.py:199-204 | an indented line is joined to the item above it |
| ChangelogMarkers.SecondReading | scripts/changelog_tool.py:127-241 | for every accepted text, printing and parsing again gives the same entry, unless two adjacent lines of its sections join to a TODO marker, or its date is a long one of a year below 1000 that the platform does not pad; then it is refused |
| ChangelogMarkers.MarkerOnlyByJoining | scripts/changelog_tool.py:199-204 | what an accepted text is printed as has a TODO marker if and only if, in the lines of its sections, one that ends in `##` is followed by one that starts with `TODO` |
| ChangelogMarkers.AcceptedTextPrintsRefused | scripts/changelog_tool.py:127-241 | a complete text that is accepted, and whose printed form is refused |
| ChangelogAccepted.ParseRenderParse | scripts/changelog_tool.py:127-241 | for every accepted text, what parsing the printed entry again gives |
| ChangelogAccepted.ParsedIsGood | scripts/changelog_tool.py:127-221 | everything the parser accepts is well-formed, wrapped bullets included; its date is in ISO form except exactly for a long date of a year below 1000 that the platform does not pad |
| ChangelogAccepted.NormalizeIsIdempotent | scripts/changelog_tool.py:73-83 | a normalized version is normal |
| ChangelogAccepted.SubjectIsGood | scripts/changelog_tool.py:157-166 | an accepted subject is stripped and has no heading line |
| ChangelogAccepted.ItemsAreGood | scripts/changelog_tool.py:184-208 | accepted items are single stripped lines |
| ChangelogAccepted.SectionsAreGood | scripts/changelog_tool.py:168-217 | accepted sections have distinct heading titles and items |
| ChangelogTool.ReadFrontMatter | scripts/changelog_tool.py:109-124 | the loop over front matter lines fills the map the function gives |
| ChangelogTool.ReadItems | scripts/changelog_tool.py:184-208 | the item loop gives the function's items and stops at its line |
| ChangelogTool.ReadSection | scripts/changelog_tool.py:175-214 | one section, and the line after it |
| ChangelogTool.ReadSections | scripts/changelog_tool.py:168-214 | the section loop gives the function's sections |
| ChangelogTool.SkipBlankLines | scripts/changelog_tool.py:154-156 | skips exactly the blank lines ahead |
| ChangelogTool.ReadSubject | scripts/changelog_tool.py:157-162 | takes the lines before the first heading |
| ChangelogTool.ReadLines | scripts/changelog_tool.py:157-217 | subject and sections, or the function's refusal |
| ChangelogTool.ReadBody | scripts/changelog_tool.py:153-217 | the same from the body text |
| ChangelogTool.ParseMarkdownRelease | scripts/changelog_tool.py:127-221 | the whole parser, with its refusals in the order of its checks |
| ChangelogTool.RenderRelease | scripts/changelog_tool.py:224-241 | the printing loops give the function's text |
| ReleaseHistory.StepKeeps | scripts/make_release.py:647-827 | every prepare, edit, commit, abandon, revert and publish, failed or not, keeps the history sound |
| ReleaseHistory.TagsRiseInEveryRun | scripts/make_release.py:757-801 | over every run, one of a crate's tags is on an earlier commit than another exactly if its version is lower |
| ReleaseHistory.TagsNameReleasesInEveryRun | scripts/make_release.py:600-625 | over every run, each tag's commit has exactly its version with the marker cleared, its finished release file, and the vendored version or the exact pin of that same commit |
| ReleaseHistory.TagsStayInEveryRun | scripts/make_release.py:803-827 | over every run no tag moves or goes away and no commit changes |
| ReleaseHistory.StagedIsRelease | scripts/make_release.py:790-801 | what publish stages is the release it will tag, in both shapes |
| ReleaseEffects.BumpIsNext | scripts/make_release.py:108-113 | a bump gives the next version of its kind: above the old one, with the lower parts zero, and none such between |
| ReleaseEffects.WhenPrepared | scripts/make_release.py:647-704 | prepare moves on if and only if the crate is at rest and the version asked for is above its own and has no tag and no release file; then that is its version, with a marker exactly for a cycle |
| ReleaseEffects.PrepareRefused | scripts/make_release.py:660-704 | a refused prepare changes nothing but the vendored sources and bindings, and for `libosdp` nothing at all; without a lock file nothing is staged |
| ReleaseEffects.SourcesMoved | scripts/make_release.py:660-704 | the vendored sources move exactly if what was asked for `libosdp-sys` is acceptable and can be checked out, and the bindings if it is also built |
| ReleaseEffects.PreparedMustBeEdited | scripts/make_release.py:434-443 | what was prepared cannot be published before its release file is edited |
| ReleaseEffects.AbandonUndoesPrepare | scripts/make_release.py:654-658 | the restore that prepare prints undoes it, but for the release file it started and the pin of a `libosdp` it pointed at the new `libosdp-sys` |
| ReleaseEffects.PublishedFile | scripts/make_release.py:446-451 | a publish commits the release file of the worktree, unchanged but dated that day |
| ReleaseEffects.PublishedTree | scripts/make_release.py:790-801 | the Release commit, file by file: the dated release file, the version with the marker cleared, what the release brings with it, and else HEAD's; the tag is on it |
| ReleaseEffects.BumpOverCycleIsRefused | scripts/make_release.py:766-768 | a bump that was not committed is not published over an open cycle |
| ReleaseEffects.GateOnPin | scripts/make_release.py:908-912 | a commit that changes the manifest of `libosdp` is refused without an exact pin; of a commit that changes no release file, that is all the gate asks |
| ReleaseEffects.GateOnReleaseFile | scripts/make_release.py:914-931 | a commit of one release file passes exactly if that is not deleted, and is finished or that of the open cycle |
| ReleaseEffects.PinStaysExactInEveryRun | scripts/make_release.py:908-912 | over every run from an exact pin, HEAD and every commit added have an exact pin |
| ReleaseRollback.FailureIsRetryable | scripts/make_release.py:790-827 | after any failure HEAD, the tags and the tag to make are as before; the same checks pass again exactly for a quick release, or for one rolled back whose release file HEAD has |
| ReleaseRollback.ReleaseFileSurvives | scripts/make_release.py:803-814 | the release file survives as it was but for its date, except exactly when a cycle is rolled back and HEAD does not have it; the date is that of the publish, or the old one after a cycle's rollback |
| ReleaseRollback.RetryReleasesTheSame | scripts/make_release.py:803-814 | a publish run again after a failure commits the same tree and makes the same tag |
| ReleaseRollback.ReleaseCommitIsOnlyTheRelease | scripts/make_release.py:571-597 | the Release commit changes no file but the release's own |
| ReleaseRollback.QuickRetry | scripts/make_release.py:803-814 | a failed quick release is still quick and passes its checks |
| ReleaseRollback.CycleRollback | scripts/make_release.py:803-814 | a rolled back cycle leaves index and worktree as they were but for a release file HEAD does not have |
| ReleaseRollback.CycleStuck | scripts/make_release.py:790-801 | a cycle that fails before its Release commit has nothing prepared any more |
| ReleaseRollback.GateOnStagedRelease | scripts/make_release.py:872-931 | the gate passes what publish staged exactly for publish itself, or when the release file is no part of the commit, though the version bump is |
| ReleaseRollback.PrepareThenPublish | scripts/make_release.py:647-789 | with its release file finished, a prepared release passes publish's checks at once, exactly unless a `libosdp-sys` prepare re-pinned a `libosdp` in mid-cycle |
| ReleaseExamples.UncommittedReleaseFileIsLost | scripts/make_release.py:803-814 | a run from a clean checkout whose failed signature deletes the release file |
| ReleaseHelper.Checkout.Prepare | scripts/make_release.py:647-719 | the command, write by write, has the effect of the function and keeps the history sound |
| ReleaseHelper.Checkout.Resolve | scripts/make_release.py:660-704 | chooses the version, moving the sources on the way, or refuses |
| ReleaseHelper.Checkout.Checked | scripts/make_release.py:757-789 | passes exactly if the checkout may publish |
| ReleaseHelper.Checkout.Publish | scripts/make_release.py:757-831 | begins exactly if every check passes, and then has the effect of the function; the released file has that day's date and is otherwise the worktree's; a publish that does not begin changes nothing |
| ReleaseHelper.Checkout.MakeRelease | scripts/make_release.py:790-827 | stamps, clears, stages, commits, tags and verifies, and rolls back where the script does; the released file has that day's date and is otherwise the worktree's |
| ReleaseHelper.Checkout.Rollback | scripts/make_release.py:803-814 | deletes the tag and resets, softly or hard |
| ReleaseHelper.Checkout.PorcelainNames | scripts/make_release.py:560-568 | lists exactly the dirty tracked files |
| ReleaseHelper.Checkout.RequireCleanTree | scripts/make_release.py:571-577 | passes exactly if no tracked file is dirty |
| ReleaseHelper.Checkout.RequireReleaseOnlyDirt | scripts/make_release.py:580-597 | passes exactly if only the release's own files are dirty |
| ReleaseHelper.Checkout.ReleaseInvariants | scripts/make_release.py:600-625 | passes exactly for a cleared marker with the vendored version or the exact pin |
| ReleaseHelper.Checkout.RefreshPinIfMidCycle | scripts/make_release.py:252-262 | re-pins exactly a `libosdp` in mid-cycle |
| ReleaseHelper.Checkout.CheckManifests | scripts/make_release.py:890-911 | refuses a staged release that publish did not announce |
| ReleaseHelper.Checkout.CheckStaged | scripts/make_release.py:872-931 | passes exactly what the gate lets through |
| Raw.ToCountIsExact | libosdp/src/commands.rs:24-42 | a count is made exactly for whole durations that fit, over the integers, and stands for that duration: checked 64-bit arithmetic refuses none of them |
| Raw.FromCountIsExact | libosdp/src/commands.rs:44-46 | every count comes back from its duration |
| Raw.CopyInto | libosdp/src/lib.rs:144-151 | succeeds exactly if the bytes fit, with the bytes in front |
| Raw.CopyInArray | libosdp/src/lib.rs:144-151 | the array written in place is what the function gives |
| Raw.FillThenRead | libosdp/src/piv.rs:18-23 | bytes that fit are read back through the narrowed length |
| Raw.BytesThroughWord | libosdp/src/pdid.rs:57-64 | four bytes survive the little-endian word |
| Raw.WordThroughBytes | libosdp/src/pdid.rs:57-64 | a word survives its bytes |
| CommandLaws.CommandThroughRaw | libosdp/src/commands.rs:934-1122 | any command is encoded exactly if it can be sent, and then decodes to itself, with defined colors and biometric codes by their names |
| CommandLaws.DecodedThroughRaw | libosdp/src/commands.rs:1063-1122 | what was decoded is encoded and decoded to the same, unless it is an out-of-range date or an empty challenge, which is refused |
| CommandLaws.LedThroughRaw | libosdp/src/commands.rs:132-319 | LED commands, temporary and permanent, with their times |
| CommandLaws.BuzzerThroughRaw | libosdp/src/commands.rs:358-407 | buzzer commands |
| CommandLaws.TextThroughRaw | libosdp/src/commands.rs:456-524 | text commands |
| CommandLaws.OutputThroughRaw | libosdp/src/commands.rs:570-646 | output commands |
| CommandLaws.ChallengeThroughRaw | libosdp/src/piv.rs:71-99 | challenges of 1 to 256 bytes, and no others |
| CommandLaws.PinThroughRaw | libosdp/src/trs.rs:122-200 | PIN entries; an absent length field is one of size zero |
| CommandLaws.TrsThroughRaw | libosdp/src/trs.rs:235-275 | transparent reader commands |
| CommandLaws.ScanInMilliseconds | libosdp/src/trs.rs:552-562 | scan times are encoded exactly if they are whole milliseconds that fit |
| CommandMeaning.EncodingIsMeaning | libosdp/src/commands.rs:934-1060 | an encoded command has the header's codes, counts of its times, and its fields in the fields of those names; what it leaves open is zero, and buffers have the C library's sizes |
| CommandMeaning.DecodingIsMeaning | libosdp/src/commands.rs:1063-1122 | a raw command decodes to a command if and only if it means it, by the header's codes and counts |
| CommandMeaning.RefusedAs | libosdp/src/lib.rs:144-151 | a command is too long only if its data is, and a raw one is refused as malformed |
| CommandMeaning.ScanIsSaid | libosdp/src/trs.rs:552-562 | each time of a scan in its own field, in milliseconds |
| EventLaws.EventThroughRaw | libosdp/src/events.rs:347-496 | any event is encoded exactly if it can be sent, and then decodes to itself, with card data cut to its bits and defined reader states and biometric codes by their names |
| EventLaws.DecodedThroughRaw | libosdp/src/events.rs:450-496 | what was decoded is encoded and decoded to the same, unless it is an empty smart card answer, which is refused |
| EventLaws.CardThroughRaw | libosdp/src/events.rs:120-158 | card reads, whose bits may not exceed the data |
| EventLaws.StatusThroughRaw | libosdp/src/status.rs:144-186 | status reports of every kind |
| EventLaws.ReplyThroughRaw | libosdp/src/trs.rs:379-530 | transparent reader replies |
| EventMeaning.EncodingIsMeaning | libosdp/src/events.rs:347-448 | an encoded event has the header's codes and its fields in the fields of those names; what it leaves open is zero, and buffers have the C library's sizes |
| EventMeaning.DecodingIsMeaning | libosdp/src/events.rs:450-496 | a raw event decodes to an event if and only if it means it |
| Biometrics.MatchThroughRaw | libosdp/src/bio.rs:179-210 | match commands of templates that fit, and no others |
| Biometrics.ReadReplyThroughRaw | libosdp/src/bio.rs:230-261 | scans that fit, and no others |
| PdInfo.IdThroughRaw | libosdp/src/pdid.rs:41-82 | an id survives LibOSDP's form |
| PdInfo.IdMeans | libosdp/src/pdid.rs:57-82 | each part of an id in the field of its name, its bytes lowest first |
| PdInfo.RawThroughId | libosdp/src/pdid.rs:41-82 | LibOSDP's form survives exactly if its parts fit OSDP's bytes |
| PdInfo.CapMeans | libosdp/src/pdcap.rs:242-252 | a raw capability decodes exactly if its code is one of the header's functions, and to that function, compliance and count |
| PdInfo.WalkEndsAtSentinel | libosdp/src/pdinfo.rs:294-304 | a walk stops at the appended entry exactly if no capability has the sentinel's code |
| PdInfo.CapabilitiesComeBack | libosdp/src/pdinfo.rs:109-114 | every list given to the builder is read back |
| PdInfo.Builder.Add | libosdp/src/pdinfo.rs:214-217 | pushes one capability, never the sentinel, with its code, compliance and count |
| PdInfo.Builder.AddAll | libosdp/src/pdinfo.rs:220-228 | pushes all, in order |
| PdInfo.Builder.Capabilities | libosdp/src/pdinfo.rs:109-114 | gives the defined capabilities, in order |
| PdInfo.Handle.constructor | libosdp/src/pdinfo.rs:306-329 | allocates the terminated list, or nothing for an empty one |
| PdInfo.Handle.Drop | libosdp/src/pdinfo.rs:331-357 | the sentinel walk stays inside the array and finds the allocated length |

## Left out

- Contexts.Context.Flush: that its count leaves out nothing it dropped is not in its contract.
- Contexts.Context.Application: nested calls go as deep as `fuel`, an arbitrary number, so that the methods terminate; the theorems over `Engine` have no such bound.
- ChangelogTool.ParseMarkdownRelease: the digits of dates are those of ASCII, and the names of months English.
- A peripheral device shares the class `Context` with the panel, told apart by its role; its notification queue is the event queue.
- The codes a device's command handler answers LibOSDP with, the width of the dropped counter, `Submission::cancel`, the online bit mask, the builders of a context, and the loops that refresh for ever.
- A callback's body is a finite tree of calls and replacements of its slot.
- A union's tag and content are one datatype constructor, so a raw value whose tag names another member than was written is not modelled; `Sized` says that buffers have their C sizes.
- Notifications, metrics, error tables, and the file, channel and logging callbacks: tables and thin trampolines like those modelled.
- The text of manifests: versions, pins and release files are values, and a file that does not parse, which stops the script before it writes, is not modelled.
- Git commands that fail, except the Release commit, the signature and its verification; moving HEAD by hand; branches, merges and remotes.
- `vendor`, which is an instance of editing and staging files; `check-changelog`; `check-release`, whose conditions `TagsNameReleasesInEveryRun` shows of every tag.
- Regular expressions are written out as functions over characters.
