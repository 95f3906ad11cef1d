# Verified model of the Volcengine Supabase CLI's stateful cores

Most of this command-line program forwards requests to remote services. This project models the parts that
carry their own state, parsing or interleaving, and proves what they promise, for all inputs and all runs.

| file | what it models |
|---|---|
| `TagLexer.dfy`, `TagParser.dfy` | `--tag` text: the quote-and-escape lexer, separator search, unquoting, and the printer they invert |
| `LauncherCache.dfy` | the launcher's native-binary cache: lock directory, stealing, private directories, rename, mirroring, crashes |
| `ConnectFrames.dfy`, `ProcessEvents.dfy` | Connect framing of sandbox processes and the fold of their events |
| `PendingLogin.dfy` | the MCP server's pending console login under a mutex, with background waiters and expiry |
| `ToolRegistry.dfy` | MCP tool catalog, policy, registration, alias rewriting |
| `CommandDocs.dfy` | order of the generated command reference |
| `SampleDownload.dfy`, `ArchiveWalk.dfy` | breadth-first sample download; pruned archive walk |
| `GatewayUsers.dfy` | paging loops over AI Gateway users |
| `ProfileStore.dfy` | the configure commands on the profile and agent-plan files |
| `FastCreate.dfy` | the fast-create pipeline and its two polling waits |
| `Text.dfy`, `StringOrder.dfy`, `SlashPaths.dfy`, `Wrappers.dfy` | `TrimSpace`, string order and sorting, path joining and cleaning, Option and Result |

Code that loops or updates fields is a method with loop invariants, equated with a specification function; the
promises are lemmas about that function. The launcher's processes share nothing but the file system, so they are
one state machine whose event list is an arbitrary interleaving of single file-system operations, refusals of the
operating system, crashes, respawns and clock changes.

## What does not hold, and when it does

- The lock comment calls the launcher single-flight. That is so in every run in which nobody sees a lock older than
  15 minutes (`MutualExclusion`, `NoInstallAfterPublication`). `LosesExclusionExactly` says from which states two holders
  can come about while the clock stands still, `EverLosesExclusionExactly` from which at all; such states are reachable
  (`ExclusionCanBeLost`). An install can then follow a publication (`InstallCanFollowPublication`), from exactly the
  states of `InstallsAgainExactly`. The cached binary is safe either way (`PublicationSafety`).
- A frame's length field holds 32 bits: the round trip holds if and only if every payload is shorter than 2^32
  bytes (`RoundTripExact`).
- A frame with both a top-level error and an end event can report an error with exit code 0
  (`BothInOneFrameHidesFailure`); `FailureShown` says exactly when a failure shows everywhere.
- One process frame that is not JSON, an empty one included, makes the whole result an error when it is encoded,
  output and exit code of the other frames included (`RespondReportsFrames`, `EmptyFrameLosesTheResult`).
- Joined tag values can mean something else than separate ones (`GluedExample`, `SwallowedExample`):
  `JoinedExactly` and `JoinedValuesExactly` say exactly when.
- Removing every feature name from the options enables all groups again; `NarrowingFeatures` says exactly when that
  makes a new name callable.
- The paging offset advances by the size asked for: a server that returns shorter pages makes the loops skip users
  (`ConservationExact` gives the exact condition).
- A profile deletion cut between its two files leaves an agent-plan entry behind that a later profile of the same
  name inherits (`InterruptedDeleteLeavesPlan`); `ReachableStores` says after exactly which runs an entry is left over.
- A configure command can report an error after it changed the files, from the chmod that follows the rename or from
  printing its message (`CutsChangeNothingExactly`).

## Contracts assumed of the outside

- npm exiting with status 0 leaves the binary whole or absent, and the binary in `node_modules` is whole.
- Live processes have different ids; a process id is reused only after its owner died and the npm child it may have
  left behind has ended. Installed binaries are not modified in place.
- Renaming a directory succeeds only onto nothing or an empty directory; it may also be refused for other reasons.
- The clock of the login manager does not go back. The launcher's clock may.
- JSON, base64, HTTP, npm and the cloud APIs are parameters: frames carry what their JSON says, services answer with
  arbitrary replies, failures included.

## Model

| member | source | states |
|---|---|---|
| `TagLexer.SplitTagFields` | cmd/projects_helpers.go:326-372 | the field splitter computes `Split`; it fails exactly when the text ends inside a quote; every returned field splits again to itself alone |
| `TagLexer.RunMode` | cmd/projects_helpers.go:326-421 | the splitter and the separator search agree, after every prefix, on what is quoted and escaped |
| `TagLexer.AtomicIsFixed` | cmd/projects_helpers.go:326-372 | a trimmed text without a plain separator, ending in plain mode or in a dangling backslash, is one field |
| `TagLexer.SplitIdempotent` | cmd/projects_helpers.go:326-372 | every field of any text, dangling backslashes included, is a fixed point of the splitter |
| `TagLexer.SeparatorsExactly` | cmd/projects_helpers.go:326-372 | between two words exactly blank, tab, newline and return separate |
| `TagLexer.SplitConcat` | cmd/projects_helpers.go:326-372 | a text closed outside quotes, whitespace and any further text split like the two apart, though the builder survives whitespace-only chunks |
| `TagLexer.ExpandTagValues` | cmd/projects_helpers.go:314-324 | the fields of all values in order, or the first error |
| `TagLexer.ExpandFailsExactly` | cmd/projects_helpers.go:314-324 | expansion fails exactly when some value ends inside a quote |
| `TagLexer.JoinedExactly` | cmd/projects_helpers.go:314-372 | for any two values and any whitespace: joined they split like the two apart if and only if the first ends closed, or in a quote the second leaves open, or with a pending backslash that meets two separators, a second value in error or one that begins blank |
| `TagLexer.JoinedValuesExactly` | cmd/projects_helpers.go:314-372 | several values mean the same as their whitespace join if and only if, when none ends inside a quote, nothing is glued, and otherwise the join ends inside a quote too |
| `TagLexer.PendingBackslashGlues` | cmd/projects_helpers.go:326-372 | a pending backslash before one separator: the same fields when the second text begins blank, otherwise exactly one field fewer |
| `TagLexer.OpenQuoteSwallows` | cmd/projects_helpers.go:326-372 | a value ending inside a quote is always an error apart, and joined is none exactly when the second value closes the quote |
| `TagParser.FindTagSeparator` | cmd/projects_helpers.go:394-421 | the first equals sign outside quotes and escapes, -1 exactly when there is none |
| `TagParser.UnescapeTagPart` | cmd/projects_helpers.go:437-457 | the escape loop computes the recursive unescaping, a dangling backslash kept |
| `TagParser.UnescapeEscape` | cmd/projects_helpers.go:437-457 | unescaping inverts escaping for every text |
| `TagParser.ParseTags` | cmd/projects_helpers.go:295-312 | one tag per field, each printable; the first bad field is the error reported |
| `TagParser.PlainTag` | cmd/projects_helpers.go:374-435 | `key=value` is that tag, for all trimmed texts without quotes, apostrophes, backslashes, equals signs and separators |
| `TagParser.BareRoundTripExact` | cmd/projects_helpers.go:374-457 | without quotes, special characters behind backslashes, a tag parses to itself if and only if it survives printing at all and neither part ends in a double quote |
| `TagParser.RefusedExactly` | cmd/projects_helpers.go:374-435 | a field is refused, and named in the error, if and only if it holds an apostrophe, has no plain equals sign, a half-quoted part beside the first one, or a key that names nothing |
| `TagParser.ParsePrinted` | cmd/projects_helpers.go:374-435 | parsing any printed pair yields its trimmed parts, or nothing when there is an apostrophe |
| `TagParser.PrintedTagsRoundTrip` | cmd/projects_helpers.go:295-457 | printed tags joined by any whitespace parse back to exactly those tags in order if and only if keys are non-empty, parts trimmed and without apostrophe |
| `TagParser.PrintIsNormalForm` | cmd/projects_helpers.go:295-457 | whatever spelling was parsed, printing the result parses to the same tags |
| `TagParser.PromptAgreesWithFlag` | cmd/projects_helpers.go:105-118 | splitting at the prompt and again at parsing gives the tags or the error of the flag path; only a text without fields is rejected |
| `LauncherCache.ApplySafe` | bin/cli.js:47-159 | every file-system step, crash and orphan write keeps: no half-written target, private files intact, a true result means a present target; no step removes a present target |
| `LauncherCache.PublicationSafety` | bin/cli.js:47-159 | in every interleaving with crashes and stealing the target is absent or whole, never disappears, and is there for every download that returned true |
| `LauncherCache.PresentTargetIsFound` | bin/cli.js:117-159 | a launcher that looks for the target while it is there, waiting ones included, answers true in every run in which it finishes, and can finish |
| `LauncherCache.StaysSettled` | bin/cli.js:47-159 | once a launcher's answer is decided, by a failed install or by a target that is there, nothing others do changes it |
| `LauncherCache.FalseExactly` | bin/cli.js:117-159 | a launcher comes to the answer false exactly by not finding the target after publishing or at the end of its wait; any refusal makes it throw |
| `LauncherCache.PublishDecides` | bin/cli.js:104-111 | renaming a finished install into place ends in true if the cache directory is absent, empty or holds the target, and in a throw if another process has put anything else there |
| `LauncherCache.AloneItMirrors` | bin/cli.js:47-65 | a launcher mirroring on its own puts the whole binary in the cache, with hard links or without |
| `LauncherCache.ApplyKeepsOneHolder` | bin/cli.js:127-159 | a step that sees no stale lock keeps: one holder at most, and a holder means a lock directory |
| `LauncherCache.MutualExclusion` | bin/cli.js:126-159 | in every run where nobody sees a stale lock, at most one process, dead or alive, is between acquiring and releasing |
| `LauncherCache.SingleFlightForFifteenMinutes` | bin/cli.js:126-159 | in every run that lasts no longer than fifteen minutes at most one process has the lock |
| `LauncherCache.ExecStaysSealed` | bin/cli.js:146-159 | once the target is there and nobody is past the re-check, nobody gets past it again |
| `LauncherCache.NoInstallAfterPublication` | bin/cli.js:146-159 | in such a run no npm install starts after one has published the target |
| `LauncherCache.AloneItInstalls` | bin/cli.js:88-159 | a launcher on its own can publish, release and return true |
| `LauncherCache.StealingBreaksMutualExclusion` | bin/cli.js:134-141 | from every state with a stale lock, any two launchers that can decide to steal it can both end up holding the lock |
| `LauncherCache.LosesExclusionExactly` | bin/cli.js:126-159 | from any state, those in the middle of a steal included, two holders can come about before the clock moves if and only if there are two, or two processes clash, or the target is absent and a starting launcher clashes with a stale lock or with a holder or stealer without a lock |
| `LauncherCache.StaysOutOfDanger` | bin/cli.js:126-159 | no run without a clock move leads from outside these states into them |
| `LauncherCache.EverLosesExclusionExactly` | bin/cli.js:126-159 | time passing or not, two holders can come about if and only if there are two, or the target is absent, or two processes clash |
| `LauncherCache.ExclusionCanBeLost` | bin/cli.js:134-141 | a state from which exclusion can be lost is reachable from an empty cache |
| `LauncherCache.InstallsAgainExactly` | bin/cli.js:88-111 | with the target present, stealing or not, an npm install can still start if and only if a process is past the re-check with an attempt left |
| `LauncherCache.StealersInstallTwice` | bin/cli.js:126-159 | from every state with a stale lock and no cache, any two launchers that can steal have a run in which one publishes and the other can still start npm |
| `LauncherCache.InstallCanFollowPublication` | bin/cli.js:126-159 | such a run exists from an empty cache on |
| `ConnectFrames.EncodeConnectFrame` | internal/sandbox/client.go:458-464 | the filled buffer is flag 0, the length modulo 2^32 in big-endian order and the payload |
| `ConnectFrames.EncodedOnTheWire` | internal/sandbox/client.go:458-464 | the five header bytes are flag 0 and the payload's length in base 256, highest digit first |
| `ConnectFrames.FrameOnTheWire` | internal/sandbox/client.go:466-481 | a frame is flag 0 or 2, four length bytes with the highest first, and a payload of that length |
| `ConnectFrames.DecodeConnectFrames` | internal/sandbox/client.go:466-481 | the offset loop computes the recursive decoder and terminates |
| `ConnectFrames.DecodeSplits` | internal/sandbox/client.go:466-481 | the input is the decoded frames followed by a rest that starts with no complete frame |
| `ConnectFrames.DecodeIsMaximal` | internal/sandbox/client.go:466-481 | every way of reading frames off the front is an initial part of what is decoded |
| `ConnectFrames.DecodeExtends` | internal/sandbox/client.go:466-481 | more input never changes decoded frames; decoding resumes at the rest |
| `ConnectFrames.RoundTripExact` | internal/sandbox/client.go:458-481 | decoding concatenated encodings returns the payloads if and only if every length is below 2^32 |
| `ConnectFrames.Stream.ReadFull` | internal/sandbox/client.go:351-362 | whatever chunks the reader delivers: exactly the requested bytes, or nothing when the stream is shorter |
| `ConnectFrames.ReadFirstPayload` | internal/sandbox/client.go:351-362 | one header and one payload are read and not a byte more; short and flagged input is the matching error |
| `ConnectFrames.StreamAgreesWithBatch` | internal/sandbox/client.go:351-362 | the reader returns a payload exactly when the input starts with a complete frame of flag 0, and it is the batch decoder's first; each error has its exact cause |
| `ProcessEvents.AggregateProcessFrames` | internal/sandbox/client.go:382-444 | succeeds exactly when every frame is JSON; then outputs, events and error are their declarative counterparts over all frames |
| `ProcessEvents.AggregateConcat` | internal/sandbox/client.go:382-444 | aggregating a followed by b succeeds exactly when both do, and then continues a's result with b |
| `ProcessEvents.FoldConcat` | internal/sandbox/client.go:382-445 | aggregating a followed by b is continuing a's result with b |
| `ProcessEvents.FoldOutputs` | internal/sandbox/client.go:382-445 | stdout and stderr are the decoded chunks in order; the raw frames are the events in order |
| `ProcessEvents.OutputRoundTrip` | internal/sandbox/client.go:446-456 | what a process wrote to its two outputs, in chunks sent as base64, is what is reported on each |
| `ProcessEvents.DigitsAreDecimal` | internal/sandbox/client.go:433-435 | an exit code is shown as its decimal numeral |
| `ProcessEvents.FoldError` | internal/sandbox/client.go:403-439 | the reported error is the last one carried, an end event's before a top-level one's |
| `ProcessEvents.FoldEnding` | internal/sandbox/client.go:403-439 | exit code and status are decided by the last control frame alone, except that a top-level error keeps an earlier non-zero code |
| `ProcessEvents.FailureShown` | internal/sandbox/client.go:403-439 | exactly when exit code, error and status all show a failure |
| `ProcessEvents.LastErrorShows` | internal/sandbox/client.go:403-439 | without a frame that has both a top-level error and an end event, a last control frame with an error always shows in all three |
| `ProcessEvents.BothInOneFrameHidesFailure` | internal/sandbox/client.go:403-439 | a frame with both can report an error with exit code 0 |
| `ProcessEvents.RespondReportsFrames` | internal/sandbox/client.go:333-348 | a response is answered if and only if it was successful, holds a frame, and every frame within the 16 MiB limit is JSON; the answer then reports an initial part of the sent frames |
| `ProcessEvents.EmptyFrameLosesTheResult` | internal/sandbox/client.go:440-443 | an empty frame anywhere among any others turns the whole response into an error |
| `PendingLogin.NextKeepsInv` | internal/mcp/policy.go:107-157 | every call, waiter and tick keeps: an open flow is the current one, only failed flows carry an error; payloads handed out are pending without error |
| `PendingLogin.SingleOpenFlow` | internal/mcp/policy.go:107-177 | the same over whole runs |
| `PendingLogin.ReachableStates` | internal/mcp/policy.go:107-177 | in every reachable state at most one started flow is pending and unexpired, and it is the manager's current one |
| `PendingLogin.StartsOnlyWhenNoneIsOpen` | internal/mcp/policy.go:113-141 | a flow is started only when no earlier one is open, and what is handed out is unexpired |
| `PendingLogin.AnswersFollowHistory` | internal/mcp/policy.go:107-177 | after any history, a call without credentials answers that login succeeded exactly when the current flow's waiter reported no error; after a reported error it starts a login and hands out that one's address and expiry; with no report it repeats those of the start behind the flow for ten minutes |
| `PendingLogin.LoginThenRetry` | internal/mcp/policy.go:107-157 | a whole login: handed out, reported, and the next call goes on or hands out the address of the login it starts |
| `PendingLogin.WindowRepeats` | internal/mcp/policy.go:114-121 | inside the window of an open flow repeated calls start nothing and all return the same payload |
| `PendingLogin.SupersededStays` | internal/mcp/policy.go:144-157 | a flow the manager no longer points at never becomes current again and its record never changes |
| `PendingLogin.LateWaiterChangesNothing` | internal/mcp/policy.go:144-150 | deleting a superseded flow's waiter from any run changes no reply before or after it, no flow and not the current one |
| `PendingLogin.LoginManager.RequireLogin` | internal/mcp/policy.go:107-142 | the method on the shared object makes exactly the machine's call step and touches no existing flow |
| `PendingLogin.LoginManager.Wait` | internal/mcp/policy.go:144-157 | the identity comparison on objects makes exactly the machine's wake step |
| `ToolRegistry.NewPolicy` | internal/mcp/policy.go:192-217 | the loops build the trimmed, blank-free sets; an empty feature list stands for all official groups |
| `ToolRegistry.AllSpecs` | internal/mcp/tools.go:43-50 | compaction in place leaves the available tools in order at the front of the array |
| `ToolRegistry.KeptIsFilter` | internal/mcp/tools.go:43-50 | what is kept is exactly what has no group or an official one |
| `ToolRegistry.RegisterTools` | internal/mcp/tools.go:61-78 | the nested loops build exactly the tool and alias tables |
| `ToolRegistry.HandleCall` | internal/mcp/aliases.go:25-38 | only tool calls are rewritten, in the request itself; the lookup uses the rewritten name |
| `ToolRegistry.ServeCall` | internal/mcp/tools.go:28-78 | start-up and one call on the options themselves: read-only reaches no mutating tool, a listed name nothing, a bound workspace no account tool; without restrictions every available tool answers to its name; in an unambiguous catalog a call reaches exactly the offered tool that goes by the name |
| `ToolRegistry.OptionsDecide` | internal/mcp/policy.go:192-217 | for any catalog exactly the names of offered tools and their aliases that are not disabled can be called, decided on the options |
| `ToolRegistry.RegisteredExactly` | internal/mcp/tools.go:61-78 | for any catalog the tables hold allowed tools only, all of them, and every enabled alias leads to a tool declaring it |
| `ToolRegistry.CallableExactly` | internal/mcp/tools.go:61-78 | for any catalog exactly the names and enabled aliases of allowed tools can be called |
| `ToolRegistry.DispatchRefinesRule` | internal/mcp/tools.go:28-78 | with unambiguous names a call reaches tool t if and only if t is available and allowed and was called by its name or an alias that is not disabled |
| `ToolRegistry.RestrictionsHold` | internal/mcp/policy.go:277-291 | for any catalog: a disabled name reaches nothing, read-only reaches no mutating tool, a bound server no account tool |
| `ToolRegistry.RestrictingIsMonotone` | internal/mcp/policy.go:277-291 | a stricter policy never makes a new name callable, and in an unambiguous catalog keeps what a name reaches |
| `ToolRegistry.NeverCallsMoreExactly` | internal/mcp/policy.go:277-291 | for any two policies: one never makes a name callable that the other does not, in any catalog, if and only if it disables at least as much, is read-only if the other is, and enables no further official group |
| `ToolRegistry.NarrowingFeatures` | internal/mcp/policy.go:193-202 | dropping features makes no name callable, in any catalog, if and only if some are left or the old selection had every default group but the account tools of a bound server |
| `CommandDocs.SpecDoc.GenYamlDoc` | docs/main.go:166-231 | the recursion appends exactly the post-order of the available commands to the shared list |
| `CommandDocs.SpecDoc.ReverseCommands` | docs/main.go:76-78 | the two-index swap loop reverses the list |
| `CommandDocs.SpecDoc.Generate` | docs/main.go:73-78 | the final list is the mirrored pre-order without the root |
| `CommandDocs.ReversedEmitIsMirror` | docs/main.go:76-78 | reversing the post-order emission gives the mirrored pre-order |
| `CommandDocs.PlacesAreExact` | docs/main.go:166-178 | a place is listed exactly when its command and all its ancestors are available |
| `CommandDocs.SubcommandsInOrder` | docs/main.go:167-186 | an entry lists its subcommands once each, in the order of their declaration, and all of those that have entries |
| `CommandDocs.EntriesDescribe` | docs/main.go:166-231 | an entry exists for exactly the shown places; its title is the command's path, its id the path with dashes, its tag the group or the catch-all of the top level |
| `CommandDocs.DocumentationOrder` | docs/main.go:76-178 | each available command not under an unavailable one has exactly one entry, before all its descendants |
| `SampleDownload.DownloadSample` | internal/bootstrap/bootstrap.go:306-331 | the worklist terminates; it succeeds if and only if no directory of the tree fails to list, no file to start and the final wait reports nothing, and then started every file once; otherwise a part of them; always level by level |
| `SampleDownload.EachFileOnce` | internal/bootstrap/bootstrap.go:309-330 | for every path and URL: one download when the tree has that file, none otherwise |
| `SampleDownload.LocalPathIsRelative` | internal/bootstrap/bootstrap.go:319-320 | the trimmed and cleaned host path is the path below the root, with or without a trailing slash on the root |
| `SampleDownload.DownloadsDoNotCollide` | internal/bootstrap/bootstrap.go:319-321 | no two downloads write to the same local path |
| `ArchiveWalk.Archive.AddDirectory` | internal/pages/pages.go:652-693 | the walk appends the collected files, named by their slash path, in walking order |
| `ArchiveWalk.SkipsBannedName` | internal/pages/pages.go:696-715 | below a clean directory the name-and-path test skips exactly banned names |
| `ArchiveWalk.PrunedWalkIsFilter` | internal/pages/pages.go:652-715 | the pruned walk equals the unpruned one filtered by path parts, order included |
| `ArchiveWalk.ArchiveHoldsKeptFiles` | internal/pages/pages.go:640-715 | the frontend archive holds exactly the files of the tree, with their contents, of which no part of the path is one of the named ones or begins with `._` |
| `ArchiveWalk.AllFilesExact` | internal/pages/pages.go:652-693 | the unpruned walk finds exactly the files of the tree |
| `GatewayUsers.AiGatewayUsage` | internal/mcp/ai_gateway_tools.go:314-339 | succeeds exactly when none of its calls fails; then totals and number of calls are those of the users visited |
| `GatewayUsers.AiGatewayGetUser` | internal/mcp/ai_gateway_tools.go:255-280 | an error exactly when a call fails before a page with the user; otherwise the first visited user with the trimmed id, or not found |
| `GatewayUsers.ConservationExact` | internal/mcp/ai_gateway_tools.go:320-337 | each user is visited exactly once if and only if the server honours the page size or everything fits on its first page |
| `GatewayUsers.CallCount` | internal/mcp/ai_gateway_tools.go:320-337 | against a full-page server the number of calls is the number of pages, one for an empty list |
| `GatewayUsers.TotalsAreSums` | internal/mcp/ai_gateway_tools.go:325-332 | each total is the sum of its own figure over the users |
| `GatewayUsers.FullServer` | internal/mcp/ai_gateway_tools.go:263-337 | against a full-page server the totals are over all users and lookup succeeds exactly when the id exists |
| `ProfileStore.ConfigFiles.ConfigureSet` | cmd/configure_factory.go:60-107 | file by file: the profile file gets this one profile, selected, exactly when the flags are accepted and the first rename happens; the agent-plan file gets this one entry exactly when a plan flag was given and its rename happens |
| `ProfileStore.ConfigFiles.ConfigureProfile` | cmd/configure_factory.go:161-176 | selects an existing profile exactly when the rename happens; nothing else changes |
| `ProfileStore.ConfigFiles.ConfigureRegion` | cmd/configure_factory.go:190-213 | changes the region of one existing profile, all other fields and profiles kept, exactly when the rename happens |
| `ProfileStore.ConfigFiles.ConfigureAgentPlan` | cmd/configure_factory.go:231-264 | writes the agent-plan entry of one existing profile exactly when the flags are accepted and the rename happens; without flags it shows help and changes nothing |
| `ProfileStore.ConfigFiles.ConfigureDelete` | cmd/configure_factory.go:272-307 | success removes one profile and its agent-plan entry; a deleted current profile is replaced by the least remaining name |
| `ProfileStore.ResolvedPlanOk` | cmd/configure_factory.go:419-434 | the seat is the trimmed one given; agent plan is on unless turned off without a seat; nothing changes exactly when neither flag is given; the only error is an explicit false with a non-blank seat |
| `ProfileStore.StepKeepsInvariant` | cmd/configure_factory.go:60-309 | every command keeps the store invariant, the agent-plan part unless a deletion is cut between the two files |
| `ProfileStore.PlansKeptExactly` | cmd/configure_factory.go:299-304 | a command leaves an agent-plan entry without a profile if and only if it is a confirmed deletion of a profile with an entry, cut between the two files |
| `ProfileStore.ReachableStores` | cmd/configure_factory.go:60-309 | from the empty store after any commands and faults: current is a key, a seat implies agent plan; every agent-plan entry belongs to a profile if and only if no profile with one was last deleted by a cut deletion |
| `ProfileStore.LastCommandDecides` | cmd/configure_factory.go:60-309 | after any run: a profile exists exactly when the last command that saved or deleted it saved it, with the keys given there, the region last saved for it and the agent-plan entry last saved for it; no other command leaves a trace in it |
| `ProfileStore.LastSelectionDecides` | cmd/configure_factory.go:86-302 | after any run the current profile is the one the last selecting command named, or the least name left when that deleted the current one |
| `ProfileStore.SaveIsAtomic` | internal/volcengine/config.go:230-276 | a save cut after any of its operations leaves the old file or the whole new one, the new one from the rename on |
| `ProfileStore.CutIsFault` | cmd/configure_factory.go:60-309 | a command cut after any of its operations leaves the files of its step under the fault this cut amounts to, and reports success exactly when nothing was cut off |
| `ProfileStore.CutsChangeNothingExactly` | cmd/configure_factory.go:60-309 | a failure leaves the files as they were, whatever the command, if and only if it strikes before the rename |
| `ProfileStore.InterruptedDeleteLeavesPlan` | cmd/configure_factory.go:299-304 | a deletion cut between the files leaves an entry that a later profile of that name inherits |
| `StringOrder.SortedFirstIsLeast` | cmd/configure_factory.go:293-297 | the first of the sorted names is the least one, whatever order the map yields |
| `FastCreate.Pipeline.RunFastCreate` | internal/pages/pages.go:403-545 | wherever a run ends its effects are an initial part of the plan; it succeeds exactly when every condition holds, and then did the whole plan and saw DeploySuccess last; the ready observation is only ever logged when a poll found the workspace Running and the branch Ready |
| `FastCreate.OrderOfEffects` | internal/pages/pages.go:403-545 | in the trace of any run: no workspace without a pages project and its id, no pages project without an upload and its answer, workspace effects after the ready observation, migrations before functions before the binding before the deployment, and nothing after a failed call |
| `FastCreate.Pipeline.RunMigrations` | internal/pages/pages.go:816-852 | an initial part of the sorted non-blank migrations, all of them exactly on success; on failure exactly those up to the first file that cannot be read or fails |
| `FastCreate.MigrationNamesExactly` | internal/pages/pages.go:821-826 | the files taken are those that are no directories, not hidden, and end in .sql in any case |
| `FastCreate.Pipeline.DeployFunctions` | internal/pages/pages.go:858-912 | an initial part of the visible functions, all of them exactly on success |
| `FastCreate.Pipeline.WaitForWorkspace` | internal/pages/pages.go:750-779 | the branch of the first poll that is Running and Ready, nothing after a failed call or a timeout |
| `FastCreate.Pipeline.WaitForDeploy` | internal/pages/pages.go:781-814 | true exactly when a listing shows the deployment, first entry with its id, as successful before any failure |
| `FastCreate.ReadyFirstMeans` | internal/pages/pages.go:479-516 | every migration, function, binding and deployment comes after the ready observation |
| `FastCreate.ReadyExactly` | internal/pages/pages.go:750-779 | the wait finds a branch if and only if some poll shows it Running and Ready and none before ends the wait |
| `FastCreate.DeploySucceedsExactly` | internal/pages/pages.go:781-814 | the wait for the deployment ends well if and only if some listing says so of the first entry with its id and no call failed up to then |
| `FastCreate.SqlPlanIsOrdered` | internal/pages/pages.go:816-856 | the migrations run are the readable non-blank selected files in ascending order of their names |

## Left out

- HTTP, npm, OAuth, Postgres and container calls, and the console-login callback server: abstract inputs.
- Command wiring, flags, prompts, tables, help text, telemetry: no state worth a proof.
- JSON decoding of frames: a frame carries its decoded view, or that it is JSON of another shape or no JSON.
- The launcher's waiting time: a waiting process re-checks any number of times before it gives up.
- LauncherCache is modelled on values as a state machine, not as methods that write the file system: its subject is the interleaving.
- UTF-8 validity and 32-bit `int`: text is a sequence of code points, integers are unbounded except the 32-bit frame length.
- `ShouldSkip` symbolic links and I/O errors of the archive walk: entries are plain files and directories that can be read.
- `ValidateRegion`, `resolveWorkspace`, `validateOptions`, page-flag checks and value maskers: single-branch tests.
- Flags, descriptions, examples and usage of the documented commands: only ids, titles, tags and subcommands are kept.
- Whether a command is available (cobra's own recursion over subcommands) is an input of the documentation order.
- Agent-plan defaults of the MCP policy: they do not influence which tools can be called.
- Null entries of a hand-edited profile file: stores are those the commands can produce.
- The concurrency of the sample downloader's job queue: jobs are recorded in the order they are put, and which failures show where is an input.
