# opencode-pty: a verified model

The repository runs terminal and exec sessions behind a daemon (TypeScript) that starts one worker
process (Rust) per session. This project models the parts whose correctness spans several
functions, parties or crashes, and proves what they keep.

- **Start, recovery and deletion** (`StartProtocol`, `StartSafety`): daemon, worker, child, disk and
  control pipe as one state machine with crash and restart steps. Tokens are opaque, fingerprints
  injective, an atomic write is one step that may fail before or after taking effect.
- **The output pipeline** (`Utf8`, `Redaction`, `OutputReader`, `Journal`, `JournalReader`,
  `OutputLines`, `SessionLoad`): incremental decoding, streaming redaction and the size-bounded
  journal, each against the function of the whole stream it stands for, and the daemon's reading
  and reconciling of the result.
- **The session lifecycle** (`Lifecycle`, `SessionStore`): the reducer, the refresh of evidence, the
  projection and the validator of persisted states, and the V2 form of a record.
- **Approvals** (`Approvals`, `ApprovalSafety`, `ApprovalServer`): the ledger of requests and grants
  beside the table of claim tokens, with a history that explains every approval.
- **Accounting and routing** (`Tallies`, `Registry`, `RegistryRuns`, `Router`, `VersionFence`, `InputLimit`).
- **Worker utilities** (`Containment`, `WindowsQuoting`, `CivilDate`, `Timestamps`).

`Options` and `Sets` hold small shared definitions. `dafny verify dfyconfig.toml` checks everything.

Six results qualify what the code or its documentation suggests:

- A daemon that dies can leave a session that recovery never deletes. Before the start frame it does
  so exactly when the boot does not delete the record and no receipt of an unattempted start is
  there or can still be written; after it, exactly when the record does not prove the exit, no
  no-child receipt is bound by its descriptor, and no worker with its descriptor is up
  (`StartSafety.DownIsReapedExactly`). Runs reach such a session by a crash after the authority is
  persisted and before the worker is spawned, a crash before the bootstrap is sent, a worker that
  dies before its receipt, a crash after `workerStartAttempted = true` is persisted, a boot that
  fails to delete and then records a loss, a running command whose worker dies, and a lost
  descriptor. An ended conversation is never deleted once its worker has left and its daemon died,
  although all evidence is on disk (`StartSafety.EndedConversationStrands`).
- A PTY session whose worker has written since its record was saved is refused on load and
  quarantined; if its journal has been evicted to nothing it loads with stale numbers
  (`SessionLoad.LoadsExactly`, `StaleCursorIsRefused`, `EvictedJournalLoadsStale`).
- Every write of the record that carries no version, except that of a stop, can come after the deletion
  of its session and put it back on disk with no record held
  (`VersionFence.WritesAfterDeletionExactly`).
- The redactor's chunking is invisible for one secret exactly when the secret does not overlap
  itself (`Redaction.SingleSecretExact`). For several secrets the proofs assume that no secret
  overlaps itself or another and none can match inside or across the marker.
- The arguments of a Windows command line always read back. The whole line does exactly when the
  program name holds no quote and does not both need quoting and end in a backslash
  (`WindowsQuoting.LineRoundTrips`).
- The worker reads the clock twice for one timestamp, so timestamps can step back by up to a second
  (`Timestamps.StampsIncreaseExactly`).

Where a reservation object carries a `released` flag, the registry keeps the flags of wait and
input tickets in a set by ticket number. Iterations over a map that the code does in key order are
loops over the least remaining key.

## Model

| member | source | states |
|---|---|---|
| `StartSafety.StepKeepsInv` | src/daemon/supervisor.ts:415-502 | Every action of daemon, worker, child or world keeps the protocol invariant, and a session that is safe to delete stays safe |
| `StartSafety.DecisionIsSafe` | src/daemon/supervisor.ts:1247-1315 | Each of the reasons for which recovery or cleanup decides to delete implies that no child exists or can exist, or that it has exited |
| `StartSafety.DeletionIsSafe` | src/daemon/supervisor.ts:201-216 | In every interleaving with crashes and restarts, once a session is deleted its child is not alive then or later, and if it had not been started it never is, before or after |
| `StartSafety.StartedAtMostOnce` | src/daemon/supervisor.ts:441-468 | Over every run at most one start frame is sent and at most one child is created |
| `StartSafety.StartIsRecorded` | src/daemon/supervisor.ts:448-468 | While a start frame is in the pipe or a child has existed, a record on disk says that the start was attempted |
| `StartSafety.AcceptedReceiptExcludesChild` | src/daemon/worker-client.ts:119-171 | A prestart or spawn-failure receipt that the daemon would accept never coexists with a child, although others may write receipts without the token |
| `StartSafety.ReceiptLeadsToDeletion` | src/daemon/supervisor.ts:266-282 | With the worker receipt on disk and an unattempted record, a restarted daemon can delete the session |
| `StartSafety.WorkerLeadsToDeletion` | worker/src/main.rs:4216-4272 | A worker left waiting by a crash answers the closed pipe with its receipt, and the session can then be deleted |
| `StartSafety.StuckForever` | src/daemon/supervisor.ts:1247-1287 | A session that no one can prove never ran stays undeleted along every continuation |
| `StartSafety.CrashBeforeStartIsReapedExactly` | src/daemon/supervisor.ts:201-216 | For every reachable state in which the daemon is down before any start frame: the session can still be deleted if and only if its record is one that the boot deletes, or it says that no start was attempted and the receipt is there or the worker can still write it |
| `StartSafety.CrashBeforeSpawnStrands` | src/daemon/supervisor.ts:441-446 | A run to such a session: the daemon dies with the authority persisted and no worker spawned |
| `StartSafety.CrashBeforeBootstrapStrands` | src/daemon/worker-client.ts:504-515 | A run to such a session: the worker is spawned and the daemon dies before the bootstrap |
| `StartSafety.DeadWorkerStrands` | worker/src/main.rs:4216-4272 | A run to such a session: the worker dies before it has written its receipt, then the daemon |
| `StartSafety.CrashBeforeFrameStrands` | src/daemon/supervisor.ts:452-459 | A run to such a session: the daemon dies between persisting the attempt and sending the start frame |
| `StartSafety.FailedBootDeletionStrands` | src/daemon/supervisor.ts:203-215 | A run to such a session: the boot fails to delete a record without an authority, finds no worker, records the session as lost, and the daemon dies |
| `StartSafety.DownIsReapedExactly` | src/daemon/supervisor.ts:1247-1315 | For every reachable state with the daemon down, a start frame sent included: the session can still be deleted if and only if recovery finds what it needs; after a frame that is a record that proves the exit (and, for an ended conversation, not only that), a no-child receipt bound by its descriptor, or a worker that is up and has its descriptor |
| `StartSafety.SilentForever` | src/daemon/supervisor.ts:1264-1302 | A session without any of these after a start frame stays undeleted along every continuation |
| `StartSafety.HostLeadsToDeletion` | src/daemon/supervisor.ts:1268-1285 | A worker that hosts its command and has its descriptor can be reached again, asked after the exit, and the session deleted |
| `StartSafety.DeadHostStrands` | src/daemon/supervisor.ts:1264-1278 | A run to a session that is never deleted: the worker of a running command dies, then the daemon |
| `StartSafety.LostDescriptorStrands` | src/daemon/worker-client.ts:752-780 | A run to a session that is never deleted: the descriptor of a hosting worker is lost while the daemon is down |
| `StartSafety.EndedConversationStrands` | src/daemon/supervisor.ts:1287-1302 | A run to a session that is never deleted: a conversation ends with all its evidence on disk, its worker leaves, and the daemon dies |
| `StartSafety.SessionCanRun` | src/daemon/supervisor.ts:415-468 | From the initial state there is a run to a live child under a persisted record that says running |
| `StartSafety.RunningCanEnd` | src/daemon/supervisor.ts:1287-1314 | From a running session there is a run in which the child exits and the session is deleted |
| `Utf8.ValidHeadIsEncoding` | worker/src/main.rs:2689-2694 | A head is valid with a scalar exactly when the bytes begin with the encoding of that scalar (section 4 of RFC 3629) |
| `Utf8.IncompleteHeadIsProperPrefix` | worker/src/main.rs:2706-2708 | A head is incomplete exactly when the bytes are a proper prefix of the encoding of some scalar |
| `Utf8.InvalidHeadIsMaximalSubpart` | worker/src/main.rs:2702-2706 | An invalid head is replaced over a maximal subpart: the section 3.9 practice of the Unicode Standard |
| `Utf8.LossyInvertsEncode` | worker/src/main.rs:2716-2718 | Lossy decoding gives back every text that was encoded |
| `Utf8.LossySplits` | worker/src/main.rs:2684-2714 | Decoding a stream in two parts with the carry in between equals decoding it whole, at any cut |
| `Utf8.ChunkingIsInvisible` | worker/src/main.rs:2684-2718 | For any chunking, the decoded pieces and the final flush make the lossy decoding of all the bytes |
| `Utf8.SettleFollowsFromUtf8` | worker/src/main.rs:2688-2711 | One round of the loop, as `from_utf8` reports it, emits exactly the settled text and leaves the carry |
| `Utf8.DecodeStream` | worker/src/main.rs:2684-2714 | The loop over the carry emits all settled text and keeps only an incomplete sequence, which the type of the result bounds by three bytes |
| `Utf8.FlushOfCarry` | worker/src/main.rs:2716-2718 | Flushing emits one replacement character for a non-empty carry and nothing otherwise |
| `Redaction.RedactStream` | worker/src/main.rs:1424-1490 | The loops compute the declared cut; the output is the redaction of what lies before it, and the tail is the rest; finishing also hides a partial secret |
| `Redaction.OpenSplitIsClean` | worker/src/main.rs:1464-1477 | For secrets that do not overlap, the open cut never falls inside a secret, whatever text follows |
| `Redaction.HoldsBackLittle` | worker/src/main.rs:1426-1437 | For secrets that do not overlap, an open stream holds back at most 2*(L-1) characters, L the length of the longest secret |
| `Redaction.RedactIsMask` | worker/src/main.rs:1401-1408 | For secrets of four bytes or more that do not overlap and cannot match in or across the marker, replacing secret after secret equals masking all occurrences in one pass from the left |
| `Redaction.CloseSplitIsLeast` | worker/src/main.rs:1438-1463 | For secrets that do not overlap, the finishing cut is the start of the longest partial secret of four or more characters that ends the text |
| `Redaction.CloseIsMask` | worker/src/main.rs:1410-1422 | For secrets of four bytes or more that do not overlap and cannot match in or across the marker, the finishing call is the mask of the text before that partial secret, followed by one marker if there is one |
| `Redaction.StreamIsOneShot` | worker/src/main.rs:1424-1490 | For separable secrets the output of any chunking with the final flush equals the one call on the whole text |
| `Redaction.StreamHidesSecrets` | worker/src/main.rs:1424-1490 | For separable secrets no secret occurs anywhere in the output of any stream |
| `Redaction.OverlapBreaksStream` | worker/src/main.rs:1466-1475 | A secret that overlaps itself: the concrete stream whose output differs from the one call on the whole text |
| `Redaction.OverlapExists` | worker/src/main.rs:1466-1475 | Such a secret exists: "abcabc", with a stream whose output differs |
| `Redaction.SingleSecretExact` | worker/src/main.rs:1424-1490 | For one secret, chunking is invisible for all streams if and only if the secret does not overlap itself |
| `OutputReader.ReadStream` | worker/src/main.rs:2728-2783 | One reader thread over any reads emits the redaction of the lossy decoding of all the bytes, keeps back at most 3 bytes and twice the hold in between, and a PTY journals exactly that output |
| `OutputReader.Emit` | worker/src/main.rs:2770-2779 | Each piece is journalled after those before it |
| `OutputReader.StaysInStep` | worker/src/main.rs:2771-2780 | Each read keeps what was emitted and what is held in step with the text settled so far |
| `OutputReader.EndsInStep` | worker/src/main.rs:2735-2747 | The flush at the end of the stream completes exactly the redaction of the whole text |
| `Journal.OutputJournal.Append` | worker/src/main.rs:2441-2538 | While storage works, an append journals exactly the part kept: everything for a PTY, otherwise the longest whole-character prefix that fits, added to the right stream; the stop reason is exact |
| `Journal.OutputJournal.Store` | worker/src/main.rs:2470-2529 | The bytes kept grow the last chunk or start a new one, in memory and on disk alike, and all totals follow |
| `Journal.OutputJournal.Evict` | worker/src/main.rs:2530-2557 | Eviction never takes from an empty list and leaves exactly what dropping the oldest whole chunks down to the cap leaves, with files and totals in step |
| `Journal.EvictsJustEnough` | worker/src/main.rs:2530-2552 | Eviction keeps a suffix of whole chunks within the cap and drops no more than it must |
| `Journal.PushSound` | worker/src/main.rs:2470-2520 | Appending keeps the chunks contiguous, mirrored by the files, made of whole characters, and counted by the totals |
| `Journal.DropSound` | worker/src/main.rs:2530-2552 | Dropping the oldest chunk keeps all of that and moves the start to the end of that chunk |
| `Journal.CutOfText` | worker/src/main.rs:2456-2460 | A cut leaves the encoding of a prefix of the text: no character is ever split |
| `Journal.OutputJournal.CountersAreExact` | worker/src/main.rs:3062-3065 | The reported line count and partial-line flag are those of the retained bytes |
| `JournalReader.ReadChunks` | src/daemon/storage.ts:838-863 | Reading the files back succeeds exactly on the files of a contiguous journal and returns that journal, whatever order the directory lists |
| `JournalReader.ListingIsUnique` | src/daemon/storage.ts:845-851 | The ascending listing of the files of a contiguous journal is that journal |
| `JournalReader.RetainedOutput` | src/daemon/storage.ts:884-915 | The daemon trims by sequence numbers to exactly the chunks that the worker would keep, and reports their size and start |
| `OutputLines.OutputLines` | src/daemon/journal-reader.ts:11-24 | The running-sequence loop computes the lines of the text, one after another |
| `OutputLines.LineHasStart` | src/daemon/journal-reader.ts:18-23 | The sequence of every line is the absolute byte position where that line starts, and its text runs to the next newline |
| `OutputLines.StartHasLine` | src/daemon/journal-reader.ts:11-24 | Every position where a line starts has its line in the result |
| `OutputLines.LinesIncrease` | src/daemon/journal-reader.ts:18-23 | Sequences increase strictly from the first retained byte |
| `OutputLines.TrimmingKeepsLines` | src/daemon/journal-reader.ts:50-58 | Trimming any prefix leaves every line that starts after the cut with the same text and sequence |
| `OutputLines.TrimmingBetweenLines` | src/daemon/journal-reader.ts:50-58 | Trimming whole lines leaves every line that starts at or after the cut, and those are the lines of the rest |
| `OutputLines.PagesCoverAllLines` | src/daemon/journal-reader.ts:56-64 | Reading successive pages by offset with a positive limit yields every line exactly once, in order |
| `OutputLines.CursorCoversAllLines` | src/daemon/journal-reader.ts:53-64 | Reading on from the last sequence seen also yields every line exactly once, in order |
| `OutputLines.CountsAgree` | src/daemon/journal-reader.ts:5-9 | The count from text is the number of lines, and equals the newline bytes plus one for a partial line |
| `SessionLoad.ReadOutput` | src/daemon/storage.ts:861-863 | Whatever a worker journals, the daemon reads back the retained bytes as text, with the line count and partial-line flag that the worker reports |
| `SessionLoad.DiscardOutputBefore` | src/daemon/storage.ts:1802-1812 | Exactly the files of the chunks that end by the sequence go |
| `SessionLoad.FilesAfterMirror` | src/daemon/storage.ts:1802-1812 | What is left of a contiguous journal is contiguous: a run of whole chunks at its end |
| `SessionLoad.MigrateSession` | src/daemon/storage.ts:1636-1701 | On the files of any contiguous journal, loading refuses when the cursors differ and otherwise reconciles what is left after discarding |
| `SessionLoad.LoadsExactly` | src/daemon/storage.ts:1664-1684 | Loading succeeds if and only if the journal is empty or the saved cursor is the worker cursor, and gives the numbers of the worker if and only if the cursor is the same and nothing retained lies before the saved start |
| `SessionLoad.EarlierReportLoadsExactly` | src/daemon/storage.ts:1664-1684 | For a record saved from any earlier report of the worker, its numbers come back if and only if the saved cursor is still the worker cursor |
| `SessionLoad.StaleCursorIsRefused` | src/daemon/storage.ts:1664-1670 | A concrete journal that the daemon refuses: the worker has written since the record was saved |
| `SessionLoad.EvictedJournalLoadsStale` | src/daemon/storage.ts:1703-1723 | A concrete journal that loads with numbers that are not those of the worker: everything has been evicted since |
| `SessionLoad.TextSuffix` | worker/src/main.rs:2530-2552 | When retained bytes are whole text, they are the end of the whole output as text |
| `SessionLoad.ReadSession` | worker/src/main.rs:2728-2783 | End to end: whatever the reads, the text the daemon reads back is the end of the redacted output and no secret occurs in it, evictions included |
| `SessionStore.SessionRecord.Transition` | src/daemon/supervisor.ts:1667-1680 | A transition is the step of the run; accepted or not, the first outcome, a stored payload and the cleaning kind stay, and coherent evidence keeps the state valid; a rejected event changes nothing |
| `SessionStore.SessionRecord.WriteSession` | src/daemon/storage.ts:795-807 | What is persisted is valid and reads back as this very record; it is refused exactly when the state is invalid, and never under coherent evidence; what was recorded stays |
| `SessionStore.ReadsBackExactly` | src/daemon/storage.ts:1125-1140 | Reading back a written object gives it if and only if its version is current and its root fields are the projection of its state |
| `SessionStore.RecordReadsBackExactly` | src/daemon/storage.ts:1125-1140 | A record of metadata, state and flat view reads back as itself if and only if the flat view is the projection of the state |
| `SessionStore.SpreadIsInjective` | src/daemon/storage.ts:210-236 | No field of a flat view is lost among the root fields |
| `SessionStore.WritesBack` | src/daemon/storage.ts:1125-1153 | Writing what was read from a valid V2 object gives that object |
| `SessionStore.WrittenIsValidExactly` | src/daemon/storage.ts:1142-1153 | What is written passes the V2 test if and only if its state does: no root field is left |
| `SessionStore.WriteSessionIsIdempotent` | src/daemon/storage.ts:795-807 | Writing a record again writes the same object, also after reading it back |
| `Lifecycle.RunIsWellFormed` | src/daemon/lifecycle.ts:163-218 | Every state reachable by refreshes and reductions has the fields of its kind only, and is an end state only when its end is proven |
| `Lifecycle.RunKeepsRecord` | src/daemon/lifecycle.ts:280-353 | Along every run the first recorded terminal outcome, a stored terminal payload and the cleaning kind never change |
| `Lifecycle.ValidExactly` | src/daemon/storage.ts:1155-1295 | The V2 validator accepts a reachable state if and only if an end state has its termination confirmed |
| `Lifecycle.ReachableIsValid` | src/daemon/storage.ts:1155-1295 | With the evidence the supervisor keeps coherent, every reachable state passes the validator and is terminal only when proven |
| `Lifecycle.FreshRunIsValid` | src/daemon/lifecycle.ts:83-124 | From a fresh record all persisted states are valid and agree on the first outcome recorded |
| `Lifecycle.IncoherentEvidenceIsRefused` | src/daemon/lifecycle.ts:83-101 | Without that coherence the reducer accepts a failed start whose terminal state the validator refuses |
| `Lifecycle.RefreshOfProjection` | src/daemon/lifecycle.ts:220-278 | Refreshing a state from its own projection changes nothing: the codec loses no field |
| `Lifecycle.RecoveryExactly` | src/daemon/lifecycle.ts:126-133 | A lost session can recover if and only if it was live when it was lost, and then runs again with its evidence |
| `Lifecycle.FirstEndDecides` | src/daemon/lifecycle.ts:103-218 | The first end event that a running session accepts decides its recorded outcome in every later state, proven or not, whatever is observed or delivered afterwards |
| `ApprovalSafety.RunIsExplained` | src/daemon/server.ts:508-699 | In every reachable state of the ledger every claim, decision, approval, use and grant is justified by the events before it |
| `ApprovalSafety.RunNeverRepeats` | src/daemon/server.ts:562-583 | Over every run a request is claimed, decided and consumed at most once, and tokens and grants belong to one claim or decision |
| `ApprovalSafety.DecisionIsJustified` | src/daemon/server.ts:585-621 | A decision that passes the token check was made with the token of the only claim and before its lease ended |
| `ApprovalSafety.ConsumeIsEntitled` | src/daemon/server.ts:646-683 | A granted consume is backed by an unspent, unexpired approval of that request by its claimant or natively, or by a live unrevoked grant issued by such a decision for the same owner, digest, capability and directory |
| `ApprovalSafety.PrepareIsEntitled` | src/daemon/server.ts:508-560 | A preparation is answered as approved only under such a grant |
| `ApprovalSafety.StepKeepsInv` | src/daemon/server.ts:883-902 | Every call, whether it refuses or its write throws before or after taking effect, every delayed token step and every restart keeps ledger, tokens and history consistent |
| `ApprovalSafety.ApproveOnceGoesThrough` | src/daemon/server.ts:470-683 | A request created for the UI, claimed, decided and consumed at any times within its leases is granted, and a later consume is refused |
| `ApprovalSafety.ApproveSessionGoesThrough` | src/daemon/server.ts:585-737 | After a session approval every open request of the same owner and intent is answered as approved until the grant expires, none need be made, and once it is revoked they are rejected |
| `ApprovalServer.Server.WriteBack` | src/daemon/server.ts:883-902 | The end of an operation commits its edit: nothing if the write fails, the ledger alone if it throws after taking effect |
| `ApprovalServer.Server.Refreshed` | src/daemon/server.ts:798-827 | Refreshing expires, falls back or keeps a request, and deletes its token exactly when its claim has ended |
| `ApprovalServer.Server.Prepare` | src/daemon/server.ts:508-560 | The operation is exactly the protocol step: live grants kept, reuse or a new request |
| `ApprovalServer.Server.Claim` | src/daemon/server.ts:562-583 | The operation is exactly the protocol step; the token is stored later, only if the ledger was written |
| `ApprovalServer.Server.Decide` | src/daemon/server.ts:585-621 | The operation is exactly the protocol step, refusals and failed writes included |
| `ApprovalServer.Server.Consume` | src/daemon/server.ts:646-683 | The operation is exactly the protocol step, in each of its status branches |
| `ApprovalServer.Server.NativeApprove` | src/daemon/server.ts:685-699 | The operation is exactly the protocol step |
| `ApprovalServer.Server.Cancel` | src/daemon/server.ts:739-752 | The operation is exactly the protocol step; the token goes even if the write fails |
| `WindowsQuoting.QuoteArg` | worker/src/main.rs:607-629 | The loop that counts backslashes computes the declared quoted form |
| `WindowsQuoting.CommandLine` | worker/src/main.rs:706-712 | The command line is the quoted program name and the quoted arguments, joined by spaces |
| `WindowsQuoting.ScanEscaped` | worker/src/main.rs:611-628 | The escaped form of any argument, read by the documented rules inside a quoted group, is that argument |
| `WindowsQuoting.ArgumentsRoundTrip` | worker/src/main.rs:706-712 | For every list of arguments, parsing the quoted line after the program name gives back exactly that list |
| `WindowsQuoting.LineRoundTrips` | worker/src/main.rs:706-712 | The whole line reads back if and only if the program name has no quote and is not a quoted name that ends in a backslash |
| `Containment.Descendants` | worker/src/main.rs:1793-1804 | On any parent graph the worklist search ends with exactly the processes reachable from the root |
| `Containment.Containment.ResolveEscapes` | worker/src/main.rs:1704-1724 | A complete scan drops the escapes it does not list, in ascending order up to the first reused pid |
| `Containment.Containment.ReportLive` | worker/src/main.rs:1776-1833 | With the identified root listed, what joins the record is exactly the descendants listed outside its session, under their identities; report and status follow |
| `Containment.Containment.ReportGone` | worker/src/main.rs:1835-1875 | Without the root the report is unknown exactly when a group or session process was never seen before, and empty exactly when none is left and no escape is on record |
| `Containment.Containment.ReportFromScan` | worker/src/main.rs:1668-1875 | One scan changes the records and reports as its branches say |
| `Containment.LiveScanRecordsExactly` | worker/src/main.rs:1793-1833 | After a complete scan of a live tree the record holds exactly the old escapes still listed and the descendants outside the session |
| `Containment.EmptyIsEarned` | worker/src/main.rs:1835-1875 | An escape stays on record until a complete scan lacks its pid, and an empty report needs a complete scan without root, members or escapes |
| `Containment.EscapeBlocksEmpty` | worker/src/main.rs:1704-1724 | Over every run, from its recording no report says empty until a complete scan lacks the pid of the escape |
| `Registry.SessionRegistry.Reserve` | src/daemon/session-registry.ts:103-129 | A session is admitted exactly when the limits leave room, and then takes its slot, record and output together; the caps are kept |
| `Registry.SessionRegistry.Commit` | src/daemon/session-registry.ts:131-134 | Only a reservation that is neither committed nor released can be committed |
| `Registry.SessionRegistry.ReleaseReservation` | src/daemon/session-registry.ts:136-140 | The first release gives everything back, the second changes nothing |
| `Registry.SessionRegistry.Release` | src/daemon/session-registry.ts:147-156 | Releasing removes slot, record and output and keeps the caps |
| `Registry.SessionRegistry.ReleaseIfSettled` | src/daemon/session-registry.ts:142-145 | A settled record gives back its slot; while output stays within what was reserved, the caps are kept |
| `Registry.SessionRegistry.RebuildSlots` | src/daemon/session-registry.ts:87-100 | After a rebuild owners, slots and reserved output are exactly those of the records held, session by session |
| `RegistryRuns.RunKeepsCaps` | src/daemon/session-registry.ts:103-156 | Over every sequence of calls in which output stays within its limit and settled sessions stay settled, the caps on sessions, records and output, and on the sessions of each owner, stay kept |
| `RegistryRuns.CapsHold` | src/daemon/session-registry.ts:103-156 | A registry that starts empty meets all those caps after every such sequence |
| `RegistryRuns.LaterAsksNoMore` | src/daemon/session-registry.ts:283-287 | A later version of a record never asks for more output than is reserved for it |
| `Registry.SessionRegistry.ReserveWait` | src/daemon/session-registry.ts:158-178 | A wait is admitted exactly within its three limits and then counted once under its session and owner |
| `Registry.SessionRegistry.ReleaseWait` | src/daemon/session-registry.ts:180-190 | The first release removes that wait alone, the second changes nothing |
| `Registry.SessionRegistry.ReserveInput` | src/daemon/session-registry.ts:192-207 | Input is admitted exactly within its three limits and then counted under its session and owner |
| `Registry.SessionRegistry.ReleaseInput` | src/daemon/session-registry.ts:209-215 | The first release subtracts exactly its bytes, the second changes nothing |
| `Registry.TotalsAddUp` | src/daemon/session-registry.ts:231-298 | Active, record and output totals equal the sums of their per-owner and per-session tables |
| `Registry.OutstandingAddUp` | src/daemon/session-registry.ts:158-215 | Wait and input totals equal the sums of their tables and of the outstanding reservations |
| `Registry.ReleaseUndoesReserve` | src/daemon/session-registry.ts:136-156 | Releasing the reservation of a new session restores the tables |
| `Registry.WithOutputOk` | src/daemon/session-registry.ts:289-298 | Setting one session's output moves its owner's total and the total by the difference and nothing else |
| `Router.LaneRunsInOrder` | src/daemon/session-router.ts:31-57 | In every schedule a task starts only after all earlier tasks of its lane have settled, even when tasks fail or the lane is dropped, so never two at once |
| `Router.LaneCanMove` | src/daemon/session-router.ts:31-57 | While a lane has an unsettled task, one of them is running or may start |
| `Router.PromiseLanes.Enqueue` | src/daemon/session-router.ts:31-38 | A task is chained to the tail of its lane and becomes the tail |
| `Router.PromiseLanes.Cleanup` | src/daemon/session-router.ts:39-41 | A settled task drops the lane only if it is still its tail |
| `VersionFence.StaleSnapshotsPersistNothing` | src/daemon/supervisor.ts:983-999 | In every schedule, of the writes that carry a version none begins with one read before a raise, none older lands after a terminal write or the start of a deletion, none at all after a deletion, and they land in the order of their versions |
| `VersionFence.StepKeepsInv` | src/daemon/supervisor.ts:1476-1489 | Queueing, finalizing, starting and ending tasks, entering and removing the worker, failures and the writes without a version included, keep the fence |
| `VersionFence.WritesAfterDeletionExactly` | src/daemon/supervisor.ts:1121-1141 | Some schedule has a given write after the deletion of its session if and only if it carries no version and is not that of a stop |
| `VersionFence.LateWrite` | src/daemon/supervisor.ts:304-312 | The schedule for each such writer, a failed finalization included: recovery enters the worker after the deletion |
| `VersionFence.OnlyLateWritesBringBack` | src/daemon/supervisor.ts:1611-1624 | A session is on disk with no record held only if such a write came after its deletion |
| `VersionFence.FinalizationShutsOutOlder` | src/daemon/supervisor.ts:924-945 | A finalization on an idle lane is stored and shuts out every snapshot whose version was read before it ended |
| `CivilDate.CivilIsExact` | worker/src/main.rs:1313-1325 | For every day number the computation yields a valid Gregorian date with that day count |
| `CivilDate.CivilInvertsDayNumber` | worker/src/main.rs:1313-1325 | On every valid date the computation inverts the day count |
| `CivilDate.CivilFollowsCalendar` | worker/src/main.rs:1313-1325 | Later days give later dates, and the next day gives the next calendar date |
| `CivilDate.YearOfEraIsExact` | worker/src/main.rs:1317-1320 | The year formula finds the one year of the 400-year era that contains the day |
| `Timestamps.StampIsWellFormed` | worker/src/main.rs:1326-1335 | For years up to 9999 the text has the date-time shape of section 5.6 of RFC 3339, with fields in range that denote the second of the first clock reading and the fraction of the second |
| `Timestamps.StampsSort` | worker/src/main.rs:1326-1335 | Timestamps compare as texts exactly as the instants they denote |
| `Timestamps.StampsCanStepBack` | worker/src/main.rs:1309-1335 | Because the clock is read twice, a timestamp can sort before one taken earlier: concrete readings |
| `Timestamps.StampsIncreaseExactly` | worker/src/main.rs:1308-1336 | A timestamp sorts before none taken earlier if and only if its milliseconds did not wrap between the two readings |
| `InputLimit.Limiter.UseInput` | src/daemon/server.ts:1010-1021 | Input is accepted exactly within the size limit and what its window has left; a rejection leaves every budget as it was |
| `InputLimit.AnyMinuteIsBounded` | src/daemon/server.ts:1010-1021 | For every nondecreasing run, any closed 60-second interval sees at most twice the per-minute limit accepted |
| `InputLimit.BoundIsReached` | src/daemon/server.ts:1015-1020 | The bound is tight: a run that reaches twice the limit inside one minute |

## Left out

- Start lock acquisition and handoff (src/daemon/storage.ts:532-745): it rests on liveness probes and non-atomic file steps, so there is no exclusion theorem to state.
- Legacy V0 and V1 records, log import and the compatibility state (src/daemon/lifecycle.ts:357-398): field-by-field validation without a harder property.
- OS and foreign calls (ConPTY, Job Objects, signals, `/proc`, PowerShell probes, HTTP, JSON, fsync, SHA-256): oracles, atomic steps or injective functions.
- `cmd.exe` batch quoting, the TUI, tool formatting, preview expressions, permission parsing and release scripts.
- The TypeScript twin of the stream redactor (src/daemon/worker-client.ts:239-302): the same algorithm over UTF-16 code units.
- Wall-clock waits, retries and deadlines: time is an arbitrary nondecreasing input.
- Approval waits, listing results and the validation of texts and directories in approval requests: they change no request.
- StartSafety.DeletionIsSafe: the worker's acknowledgement of a rollback and its replies beyond the exit are left open, so runs that the code excludes are covered too; nothing is stated about descendants of the direct child.
- StartSafety.DownIsReapedExactly: "can be deleted" means that some continuation deletes; no scheduler is modelled, the worker's protocol version is the daemon's, and a worker answers calls only while it hosts its command.
- Redaction.StreamIsOneShot: the separability of the secrets is a hypothesis for several secrets; the exact condition is proved for one secret only, because for several it depends on their order in the list.
- OutputReader.ReadStream: a Unix input write that flushes the redactor's tail in between is not modelled, so the equality is between flushes.
- Journal.OutputJournal.Append: timestamps and diagnostics are not modelled, and nothing is promised after a storage failure.
- JournalReader.ReadChunks: a chunk is its parsed JSON; file name patterns, timestamps and JSON errors are not modelled.
- OutputLines.PagesCoverAllLines: the output does not change between the pages; line numbers are the index plus one and are not part of a line.
- SessionLoad.MigrateSession: sessions of the current version in PTY mode; exec sessions, the import of legacy output and the quarantine itself are not modelled, and the worker writes nothing while it runs.
- SessionLoad.ReadSession: storage works throughout; there is one reader, as in a PTY session.
- SessionStore.SessionRecord.WriteSession: the compatibility test of metadata fields (src/daemon/storage.ts:1297-1615) and the file write are not modelled, and metadata that observations carry along is left as it is.
- Lifecycle.ReachableIsValid: the coherence of the evidence that the supervisor sets up at src/daemon/supervisor.ts:485-491 is a hypothesis; `IncoherentEvidenceIsRefused` shows that it is needed.
- ApprovalSafety.RunIsExplained: the several clock readings inside one refresh are one reading; identifiers and tokens are fresh because they are random; creation without preparation, revocation, cleanup and the listings are steps of the protocol without an in-place form.
- Registry.SessionRegistry.Reserve: an id is never reserved for two owners; the per-owner session limit is a parameter of each call, bounded over a run in `RegistryRuns`.
- Router.LaneRunsInOrder: promises are scheduled by the runtime, so starting and settling a task are steps of the model, not methods.
- VersionFence.StaleSnapshotsPersistNothing: one session, whose persist lane is taken to be the queue that the lanes are proved to be; the content of the record is not modelled, and a write without a version is one step.
- Containment.Containment.ReportFromScan: reading and parsing `/proc` is not modelled; a scan that fails altogether reports unknown and changes nothing. The Windows and macOS reports are not part of this model.
- InputLimit.Limiter.UseInput: the key of an owner is one string.
