# Proofs about pytest-failure-instrumentation

A Dafny model of the parts of pytest-failure-instrumentation that keep state
across an unbounded run and owe a later reader an exact answer, and proofs of
what they promise. `dafny verify dfyconfig.toml` checks the whole project.

| file | what it models |
|---|---|
| `HistoryFormat.dfy`, `ResourceHistory.dfy`, `HistoryReader.dfy`, `HistoryGuarantees.dfy`, `HistoryPolls.dfy` | the segmented live history: a byte-budgeted log of numbered samples with rotation, inventories written once per segment, recovery from short writes, and a paged reader |
| `StderrTee.dfy` | the tee over file descriptor 2, with writers running throughout |
| `StackService.dfy` | the claim, serve and stop handshake of the live stack server |
| `Schedule.dfy`, `ScheduleRuns.dfy`, `ScheduleRecord.dfy`, `RecordText.dfy` | how many tests each worker was given, across reruns, and the record of it that a reader may catch half written |
| `ResourceSampler.dfy` | the sampler's bounded event queue and its table of tracked processes |
| `Recorder.dfy` | a worker's own counters, and their join with the controller's |
| `Heartbeat.dfy`, `SlowTestWatchdog.dfy`, `FrozenFallback.dfy` | the heartbeat's thread and the two timed watchdogs it drives |
| `Inventory.dfy` | the bounded directory inventory and its differences |
| `Collections.dfy` | what the workers collected and how two collections differ |
| `LaneCpu.dfy`, `Stall.dfy` | the lanes' CPU ring and the verdicts drawn from it |

An object whose methods update its fields is a class here, its methods proved
against functions and predicates on values; what is promised over whole runs
is proved about those. Where two threads interleave, the model is a step
system whose steps are the reads and writes both can see.

Failures are inputs: the history takes a failed or short write, a failed
unlink, open or publication at any point of an append; the sampler an append
that raises with or without the batch on disk; the watchdog a dump that cannot
be moved into place. Writers other than the tee may append to any file between
any two of its calls. Times are integers or reals, and only their order and
differences matter.

## Where the code and its documentation differ

- `FrozenInterpreterFallback.stop` is documented to make a racing tick a no-op
  "whichever way the two threads interleave"
  (`src/pytest_failure_instrumentation/capture/crash_stack.py:401-403`). A tick past its check of the flag still
  arms the timer: `FrozenFallback.OutlivesIffPastItsCheck` says exactly when, and
  `FrozenFallback.RaceIsReachable` gives a whole run that comes to it. Joining the
  thread first, as `Heartbeat.stop` does, does exclude it
  (`FrozenFallback.NothingOutlivesAJoin`).
- A failed dump is documented to be tried again at the next tick
  (`src/pytest_failure_instrumentation/capture/crash_stack.py:276-282`). That holds for the
  single clock (`SlowTests.SlowTestHasAStack`); lanes count as dumped before the dump is taken, so it is tried again within a timeout
  exactly if a lane has come due since (`SlowTests.LanesRetryIffNewlyOverdue`), and
  `SlowTests.FailureIsNotRetried` gives a run in which none has.
- The stack on disk is documented to be at most one timeout old
  (`src/pytest_failure_instrumentation/capture/crash_stack.py:92-95`). For a lane that has run a timeout and a gap between ticks there is
  one less than a timeout and a gap old exactly if the process last took a dump since that
  lane's test passed its timeout (`SlowTests.FreshStackIff`): a dump taken for another lane
  before that holds the next one back (`src/pytest_failure_instrumentation/capture/crash_stack.py:246`), and
  `SlowTests.FirstStackMayTakeTwoTimeouts` gives a run in which it does. After two timeouts
  and a gap there always is one (`SlowTests.StuckLaneHasAStack`).
- `settled` is documented to say when the totals have stopped moving
  (`src/pytest_failure_instrumentation/schedule.py:18-23`). Under worksteal it can be true and then false:
  `ScheduleRuns.SettledIsFinalIff` says exactly when it is final, and
  `ScheduleRuns.SettledTakenBack` gives a whole run in which it is not.
- The code is followed in each case.

## Model

| member | source | states |
|---|---|---|
| HistoryFormat.CompactNoLongerIff | src/pytest_failure_instrumentation/capture/resource_history.py:139-146 | a record whose inventory is replaced by a reference is no longer than the full one exactly when the inventory text is at least as long as the reference, which is what lets the budget be checked on the full form alone |
| HistoryFormat.DigitsAre | src/pytest_failure_instrumentation/capture/resource_history.py:143 | a number is written with as many digits as its size takes |
| HistoryFormat.DigitsMonotone | src/pytest_failure_instrumentation/capture/resource_history.py:143 | a later sequence number is written with no fewer digits, so a reference to an earlier record is never longer than one to this record |
| HistoryFormat.LinesConcat | src/pytest_failure_instrumentation/capture/resource_history.py:153-158 | the bytes of a segment are the bytes of its records one after the other, however the records are split |
| HistoryFormat.MeansAt | src/pytest_failure_instrumentation/capture/resource_history.py:248-261 | a record of a segment, expanded with the last whole inventory before it, is the sample that was appended under that number |
| HistoryFormat.ViewKeeps | src/pytest_failure_instrumentation/capture/resource_history.py:267-269 | seen for one worker a sample has all of that worker’s rows in their order and no others, and is the sample in all else; with no worker named it is the sample |
| HistoryWriter.ResourceHistory.constructor | src/pytest_failure_instrumentation/capture/resource_history.py:93-113 | a new history is empty, published, and holds every invariant, with the budgets clamped as the program clamps them |
| HistoryWriter.ResourceHistory.Append | src/pytest_failure_instrumentation/capture/resource_history.py:123-167 | for any sample and any failure at any point of it: the writer invariant is kept, samples and lines recorded before stay recorded and manifests published stay published, nothing is recorded by an append that fails before its write is whole, exactly this sample is recorded otherwise, refused samples change nothing, a new segment is begun exactly when the last has no room for the whole record, and an inventory is written as a reference exactly when it is unchanged within its segment |
| HistoryWriter.ResourceHistory.WriteDown | src/pytest_failure_instrumentation/capture/resource_history.py:147-167 | making room, writing, indexing and publishing keep the invariant whatever fails, and without a failure commit the record |
| HistoryWriter.ResourceHistory.Roll | src/pytest_failure_instrumentation/capture/resource_history.py:131-134 | a segment is opened exactly when there is none or the last has no room, and the record then fits the last segment |
| HistoryWriter.ResourceHistory.Rotate | src/pytest_failure_instrumentation/capture/resource_history.py:147-150 | the oldest segments are given up until the record fits the budget, never the last one, and a failed unlink leaves the index and the files agreeing |
| HistoryWriter.ResourceHistory.WriteShort | src/pytest_failure_instrumentation/capture/resource_history.py:153-158 | a write that fails part way leaves every published promise and the index as they were |
| HistoryWriter.ResourceHistory.Commit | src/pytest_failure_instrumentation/capture/resource_history.py:151-166 | a whole write indexes exactly this record and sample, in the same last segment |
| HistoryWriter.ResourceHistory.Publish | src/pytest_failure_instrumentation/capture/resource_history.py:115-121 | the manifest in place is that of the index, and every manifest ever published stays honoured |
| HistoryWriter.AccurateExtended | src/pytest_failure_instrumentation/capture/resource_history.py:159-161 | widening a segment by a record keeps its window around all its records, its byte count, and every reference inside it |
| HistoryWriter.RollingStands | src/pytest_failure_instrumentation/capture/resource_history.py:131-134 | opening a segment keeps segments contiguous in sequence numbers and every published promise |
| HistoryWriter.DroppingStands | src/pytest_failure_instrumentation/capture/resource_history.py:147-150 | dropping the oldest segment keeps the invariant with the bytes about to be written in view, including the lower bound on what is retained |
| HistoryWriter.WritingStands | src/pytest_failure_instrumentation/capture/resource_history.py:153-158 | writing any bytes at all behind what a segment is known to hold breaks no promise: truncation never cuts below a published length |
| HistoryWriter.IndexingStands | src/pytest_failure_instrumentation/capture/resource_history.py:159-166 | indexing a record that was written whole keeps contiguity, accuracy, self-contained references and both retention bounds |
| HistoryWriter.NextFollows | src/pytest_failure_instrumentation/capture/resource_history.py:139-146 | the record chosen for a sample expands, inside its own segment, to that sample |
| HistoryWriter.ToldOn | src/pytest_failure_instrumentation/capture/resource_history.py:123-167 | a step of the writer leaves every moment of the run so far, and the new one, honouring every manifest published by then, what it indexes being on disk until it is rotated out of the index, and nothing recorded is taken back |
| HistoryWriter.DroppingLasts | src/pytest_failure_instrumentation/capture/resource_history.py:147-150 | what any manifest ever published indexes is still on disk once the oldest segment has gone, or lies before the first sample the index still holds |
| HistoryReader.MeetKeeps | src/pytest_failure_instrumentation/capture/resource_history.py:262-277 | taking, skipping or refusing one more sample leaves the page the longest admissible prefix of what was asked for |
| HistoryReader.ReadLineOf | src/pytest_failure_instrumentation/capture/resource_history.py:241-246 | a bounded read of a line that fits returns exactly that line |
| HistoryReader.ParsedIsAcceptable | src/pytest_failure_instrumentation/capture/resource_history.py:239-256 | a line is taken exactly when it is whole, in reach, a record, of a number its segment covers and without a reference that was not read; else the error says which of these failed |
| HistoryReader.ReadSegment | src/pytest_failure_instrumentation/capture/resource_history.py:236-279 | reading a segment that begins with what was promised of it meets its samples in order, each expanded to what was appended, and stops exactly where the page is full; reading any file at all takes whole records of that segment from its start, and all that was published of it unless the page is full before, or fails |
| HistoryReader.ReadHistory | src/pytest_failure_instrumentation/capture/resource_history.py:195-289 | a read over a manifest and files that keep its promises succeeds with a page of what is retained: in order, within the limit and the reply budget; nothing on it is at or before the cursor, earlier than `from` or later than `to`, and nothing that is neither has been passed over; its new cursor is never past the manifest’s latest sample but over an indexed segment still empty; arguments are refused exactly when negative, out of 1..500 or back to front; a segment gone meanwhile is skipped |
| HistoryReader.WantedAfter | src/pytest_failure_instrumentation/capture/resource_history.py:262-267 | what is still wanted after a page is what was wanted less what the page returned |
| HistoryReader.PagesMoveOn | src/pytest_failure_instrumentation/capture/resource_history.py:271-277 | a page that says there is more has advanced the cursor and returned something, so following pages ends |
| HistoryReader.PaginationExact | src/pytest_failure_instrumentation/capture/resource_history.py:195-289 | over an unchanged history, following next_after while has_more concatenates to exactly the retained samples above the cursor that are not earlier than `from` nor later than `to`, each once and in order, seen through the worker filter, in a bounded number of pages |
| HistoryGuarantees.RetentionBound | src/pytest_failure_instrumentation/capture/resource_history.py:96-97 | in a run with no failed I/O the segment files hold at most max_bytes, and once anything was rotated more than max_bytes less one segment |
| HistoryGuarantees.FilesTotal | src/pytest_failure_instrumentation/capture/resource_history.py:147 | the bytes in the directory are the bytes the index counts |
| HistoryGuarantees.RetainedIsTheLog | src/pytest_failure_instrumentation/capture/resource_history.py:115-121 | what the manifest promises is the log of appended samples from the earliest retained number to the latest, with no hole |
| HistoryGuarantees.HistoryReadBack | src/pytest_failure_instrumentation/capture/resource_history.py:123-289 | samples appended come back through pagination as they were appended: everything not rotated away, above the cursor and inside the window, once and in order |
| HistoryGuarantees.ReadAtAnyMoment | src/pytest_failure_instrumentation/capture/resource_history.py:195-289 | a read that takes a manifest published by the first of the moments it takes, and finds each file as it is at any of them, each at its own, or gone, succeeds with a page of the samples of the files found, whatever was appended, rotated away, half written or failed meanwhile |
| HistoryGuarantees.GlimpsesAreHonest | src/pytest_failure_instrumentation/capture/resource_history.py:228-283 | over any run: whatever manifest of it and later states of its files a reader comes upon, the manifest promises what was appended, and each file still there begins with exactly the promised lines |
| HistoryGuarantees.GoneIsRotated | src/pytest_failure_instrumentation/capture/resource_history.py:280-283 | a promised file that a read does not find is gone because all its samples were rotated out of the index by the time the read was over |
| HistoryGuarantees.LatestIsNewest | src/pytest_failure_instrumentation/capture/resource_history.py:225-226 | asked for the latest, a read gives the newest published sample and no other, or nothing where it was already had or is outside the window |
| HistoryGuarantees.Drive | src/pytest_failure_instrumentation/capture/resource_history.py:115-167 | any sequence of appends, each with any failure, and of publications only adds to the moments, the samples and the manifests of a run |
| HistoryGuarantees.NoGap | src/pytest_failure_instrumentation/capture/resource_history.py:262-283 | a sample the cursor has passed was returned, or is outside the window, or was rotated out of the index by the time the read was over |
| HistoryPolls.ReadAll | README.md:1968-1976 | a client that continues with next_after while has_more is true stops, and has been given exactly the retained samples inside its window, once and in order; over a history whose manifest is current, all that were appended and not rotated away |
| HistoryPolls.Tail | README.md:1968-1976 | a client that passes next_after on to each next poll while the writer goes on: no poll fails, each sample is given once, in order and as it was appended, and a sample its cursor has passed was given to it, or is outside its window, or was rotated out of the index by the end of the poll that passed it |
| HistoryPolls.ShownOnce | src/pytest_failure_instrumentation/capture/resource_history.py:195-289 | however polls fall among appends, rotations and failures, their pages together ascend, and every sample in them is as it was appended |
| HistoryPolls.NoneMissed | src/pytest_failure_instrumentation/capture/resource_history.py:262-283 | however polls fall among appends, rotations and failures, no sample inside the window that the cursor has passed is missed unless the index had let go of it by the end of a poll |
| StderrTee.FromTagged | src/pytest_failure_instrumentation/capture/output.py:281-286 | bytes passed on for one file are added to that file’s stream and to no other |
| StderrTee.PassingConserves | src/pytest_failure_instrumentation/capture/output.py:280-286 | passing on the next bytes of a file keeps the saved stderr equal, file by file, to the file from where it was taken up to where it has been passed on |
| StderrTee.ConservedOnward | src/pytest_failure_instrumentation/capture/output.py:294-302 | nothing other writers append at any moment disturbs that account |
| StderrTee.LineFromOneFile | src/pytest_failure_instrumentation/capture/output.py:255-261 | in the saved stderr no line of one file is interrupted by bytes of another; the only thing put behind an unfinished line is the newline that ends it |
| StderrTee.LineCut | src/pytest_failure_instrumentation/capture/output.py:273-275 | the cut of a chunk is just behind its last newline, or nowhere |
| StderrTee.StderrTee.OffsetsAtLines | src/pytest_failure_instrumentation/capture/output.py:245-286 | between any two calls of a run of short lines, each file still read has been passed on to where it was taken up or just behind a newline |
| StderrTee.HolePunched | src/pytest_failure_instrumentation/capture/output.py:234-237 | freeing the blocks before the last `limit` bytes passed on frees nothing still to be passed on |
| StderrTee.RetiredClosed | src/pytest_failure_instrumentation/capture/output.py:335-353 | the last copy of the retired file, with the newline that completes it where it ends unfinished, leaves every offset at a line’s start |
| StderrTee.AllStayFollowed | src/pytest_failure_instrumentation/capture/output.py:288-353 | one drain more, whether it rotates or not, leaves every file ever taken up either still read or read to its end |
| StderrTee.StderrTee.Take | src/pytest_failure_instrumentation/capture/output.py:117-139 | fd 2 points at the capture file and what it pointed at is saved; where an older stderr was still saved that one is restored first and saved again; a file already taken is left alone |
| StderrTee.StderrTee.HandBack | src/pytest_failure_instrumentation/capture/output.py:141-177 | fd 2 is restored to the saved stderr, and every byte that had reached the capture file by then, and the retired file by the call, has been passed on once and in order |
| StderrTee.StderrTee.Chunk | src/pytest_failure_instrumentation/capture/output.py:267-279 | what is read next is the file’s next bytes within the bound, cut after its last newline when whole lines are asked for; nothing is returned only where no whole line, or no byte, is left |
| StderrTee.StderrTee.Pass | src/pytest_failure_instrumentation/capture/output.py:281-286 | a chunk is passed on whole and once however short the writes are |
| StderrTee.StderrTee.Copy | src/pytest_failure_instrumentation/capture/output.py:245-286 | from the offset on, exactly the bytes up to the new offset are passed on, never past the bound; what was in the file at the start is all passed on, up to its last newline where whole lines are asked for; and the copy ends though others keep writing |
| StderrTee.StderrTee.FollowRetired | src/pytest_failure_instrumentation/capture/output.py:327-333 | every line whole in the retired file at the call is passed on |
| StderrTee.StderrTee.DrainRetired | src/pytest_failure_instrumentation/capture/output.py:335-353 | all of the retired file as it was at the call is passed on, ended with a newline where it does not end with one, and it is read no more |
| StderrTee.StderrTee.Forward | src/pytest_failure_instrumentation/capture/output.py:203-207 | no byte of the current file is passed on that was not in it at a moment by which every whole line of the retired file is passed on too |
| StderrTee.StderrTee.Rotate | src/pytest_failure_instrumentation/capture/output.py:288-325 | fd 2 and the path name a fresh empty file; of the replaced file everything up to its last newline when fd 2 had been pointed away is passed on, after all that the file retired before it held at the call; the last `limit` bytes passed on are kept beside the new file; the new file is taken up at 0 and the replaced one followed |
| StderrTee.StderrTee.Release | src/pytest_failure_instrumentation/capture/output.py:213-243 | disk is given back by a hole, or by rotating where holes cannot be punched, or not at all where fd 2 cannot be swapped; the ring stays readable in every case, and a file is read no more only when all it held at the call has been passed on |
| StderrTee.StderrTee.Drain | src/pytest_failure_instrumentation/capture/output.py:179-211 | what is passed on comes in order across the two files, nothing passed on is taken back, a file that stops being read has had all it held at the call passed on, and where fd 2 can be swapped the bytes passed on and still on disk in the current file stay under two rings or a ring and a block; where it cannot, nothing is given back and only how often that is asked is bounded |
| StderrTee.Trimmed | src/pytest_failure_instrumentation/capture/output.py:388-398 | what is kept is the longest suffix of at most `limit` bytes that starts a line, or all of the last `limit` bytes where no line starts in them |
| StderrTee.StderrTee.Trim | src/pytest_failure_instrumentation/capture/output.py:381-403 | a per-phase file is cut to its last `limit` bytes from the first line that starts in them; a session’s file is left alone |
| StderrTee.StderrTee.Close | src/pytest_failure_instrumentation/capture/output.py:418-431 | closing hands fd 2 back if it was still taken |
| StderrTee.StderrTee.Session | src/pytest_failure_instrumentation/capture/output.py:117-353 | over a whole session of any number of drains, releases and rotations, with others writing and pytest pointing fd 2 elsewhere at any moment: each capture file’s bytes reach the saved stderr exactly once and in order, from where it was taken up (0 but for the first): of the last file all written before fd 2 was given back, and of every earlier one all that it held when the drain began that rotated its successor away, or fd 2 was given back, as the turns recorded by each drain have it; nothing but newlines is added, each behind an unfinished last line; nothing in the ring is freed; and lines that fit a read are never split |
| StackService.TurnKeepsInv | src/pytest_failure_instrumentation/stack_server.py:1179-1365 | every step of the claiming thread, of stop, and of time keeps the handshake invariant |
| StackService.ShutDownIsReleased | src/pytest_failure_instrumentation/stack_server.py:1209-1234 | shutdown is called only on a server whose thread has set the shut-down event or has that step ahead of it |
| StackService.StopOrHandleIsSeen | src/pytest_failure_instrumentation/stack_server.py:1310-1335 | either the claim sees the stop flag or stop sees the handle: a stop that saw no handle finds no server past its stand-down, then or later |
| StackService.ClosedOnce | src/pytest_failure_instrumentation/stack_server.py:1247-1365 | at most one server is constructed, none is closed twice or while it serves, and when stop returns without giving up its join the server is closed once and its address retracted |
| StackService.PublishedWhileUp | src/pytest_failure_instrumentation/stack_server.py:1339-1365 | in every interleaving the address is written down exactly from before the server is said to be up until before it is closed, unless writing it failed |
| StackService.GivesUpOnlyWhenRefused | src/pytest_failure_instrumentation/stack_server.py:1247-1305 | the claiming thread ends without a server only when told to stop or when the address cannot be bound at all |
| StackService.TriesAgain | src/pytest_failure_instrumentation/stack_server.py:1238-1260 | a claim that found the port taken is tried again within a reclaim time, at any moment of any run, unless stop was called |
| StackService.GivesUpOnlyInTime | src/pytest_failure_instrumentation/stack_server.py:1179-1207 | stop gives up on the accept loop, or on its join, only at the end of the time it allows, and then says so |
| StackService.NobodyToWaitFor | src/pytest_failure_instrumentation/stack_server.py:1179-1207 | a stop that finds no server, or whose server stands down before it looks at the clock, never times out waiting for its loop, and with none to begin with does not wait at all |
| StackService.ClaimerFalls | src/pytest_failure_instrumentation/stack_server.py:1346-1358 | while stop waits in shutdown every turn of the serving thread brings the event it waits for nearer |
| StackService.TurnNeverRaises | src/pytest_failure_instrumentation/stack_server.py:1179-1234 | no turn of either thread and no passing of time takes stop further from its end |
| StackService.StopReturns | src/pytest_failure_instrumentation/stack_server.py:1179-1207 | from whatever moment stop is called at and however the threads are scheduled, it has returned after a fixed number of fair rounds |
| StackService.NoOrphan | src/pytest_failure_instrumentation/stack_server.py:1238-1245 | past its waits, with none given up, stop leaves the claiming thread at most seven steps from done, its server closed once |
| Schedule.ScheduleTracker.SawATestFinish | src/pytest_failure_instrumentation/schedule.py:218-255 | a finish is counted unless it names the test the worker finished last, and ends a rerun |
| Schedule.ScheduleTracker.SawATestStart | src/pytest_failure_instrumentation/schedule.py:271-337 | a start takes the finish back exactly when it is of the test that worker finished last, the worker being named or the only one that finished it last |
| Schedule.ScheduleTracker.WorkerThatLastFinished | src/pytest_failure_instrumentation/schedule.py:339-358 | the one worker whose last finished test this is, where the mode gives a test to one worker and there is exactly one |
| Schedule.ScheduleTracker.SawAWorkerGo | src/pytest_failure_instrumentation/schedule.py:257-269 | a worker let go is no longer rerunning, and nothing else changes |
| Schedule.ScheduleTracker.UpdateRows | src/pytest_failure_instrumentation/schedule.py:367-377 | every worker the scheduler knows gets a fresh row and every other keeps its own |
| Schedule.ScheduleTracker.MakeRecord | src/pytest_failure_instrumentation/schedule.py:362-428 | the record holds those rows; nothing is settled while workers are collecting, it is unknown where the scheduler does not say what is nobody’s yet, and otherwise settled exactly where nothing is and no idle worker could be given a test from a queue above the floor under worksteal |
| ScheduleRuns.WhoseRerun | src/pytest_failure_instrumentation/schedule.py:339-358 | in any reachable state a bare id names the worker whose rerun it is, if it is one |
| ScheduleRuns.EventKeepsInv | src/pytest_failure_instrumentation/schedule.py:218-337 | every event of a distributed run keeps the finished count of every worker equal to protocols ended, or one more while a counted attempt’s protocol is still open |
| ScheduleRuns.TotalsExact | src/pytest_failure_instrumentation/schedule.py:32-53 | over any run with any number of attempts per test, the record written as a worker’s attempt starts has that worker’s total equal to protocols ended plus tests outstanding, every other worker’s that or one more, and no negative count |
| ScheduleRuns.AtAnyInstant | src/pytest_failure_instrumentation/schedule.py:40-53 | at any other instant a total is exact, or one more exactly while a counted attempt’s protocol is open, and the row reads rerunning exactly while a worker is inside a test of which an attempt was torn down before |
| ScheduleRuns.RerunningIff | src/pytest_failure_instrumentation/schedule.py:218-337 | over any run a worker is marked as rerunning exactly from the start of a later attempt of its test to that attempt’s teardown |
| ScheduleRuns.GivenIsExact | src/pytest_failure_instrumentation/schedule.py:367-373 | where the scheduler says how much it gave each worker, the total is exact at every instant |
| ScheduleRuns.SuiteConserved | src/pytest_failure_instrumentation/schedule.py:3-30 | whatever is handed out, stolen, rerun and ended, tests nobody has yet, tests owed and protocols ended add up to the suite |
| ScheduleRuns.SettledIsFinalIff | src/pytest_failure_instrumentation/schedule.py:400-428 | a settled total is final for every later run exactly when the mode is not worksteal, or no queue holds more than the floor, or there is one worker |
| ScheduleRuns.UnsettledStillMoves | src/pytest_failure_instrumentation/schedule.py:400-428 | a total that reads unsettled can still change, by a hand-out or a steal, and totals that cannot change read settled |
| ScheduleRuns.SettledTakenBack | src/pytest_failure_instrumentation/schedule.py:400-428 | a whole worksteal run from its start: three tests handed to each of two workers read settled; when one has run two of its own they do not; and a steal then changes both totals |
| ScheduleRecord.ValueLocal | src/pytest_failure_instrumentation/schedule.py:131-145 | a value that shows its own end, or has something behind it, is parsed the same whatever follows |
| ScheduleRecord.PrefixFree | src/pytest_failure_instrumentation/schedule.py:455-464 | no object text is a proper prefix of another text the parser takes as that object |
| ScheduleRecord.TornIsNotJson | src/pytest_failure_instrumentation/schedule.py:460-464 | an object text with anything but blanks behind it is no JSON text, and with only blanks it is |
| ScheduleRecord.TornIffInvalid | src/pytest_failure_instrumentation/schedule.py:432-467 | after any sequence of overwrites and truncations, any of which may have failed, the file parses exactly when it is the record last written |
| ScheduleRecord.TornOnlyUntilCut | src/pytest_failure_instrumentation/schedule.py:430-468 | cut to its length the file is the last record again, and a record put over the start of the file leaves it whole unless what was there was longer |
| ScheduleRecord.Read | src/pytest_failure_instrumentation/schedule.py:118-145 | the first of two looks that parses is the answer, and neither is no answer |
| ScheduleRecord.PaddingIsNothing | src/pytest_failure_instrumentation/schedule.py:118-145 | a file of blanks holds no record, and blanks around a record are nothing to its reader |
| ScheduleRecord.ReadIsWhole | src/pytest_failure_instrumentation/schedule.py:118-145 | what a reader is given that looks at any two moments is a record as it was written, the one in force when it looked, or none; and none only before the first write or where both looks fell inside a write |
| RecordText.RecordIsObject | src/pytest_failure_instrumentation/schedule.py:430-450 | what is written of a record is accepted as a JSON object, whatever names, strings, numbers and nested values are in it |
| RecordText.RecordIsReadBack | src/pytest_failure_instrumentation/schedule.py:118-145 | over any writes of any records, a reader that looks at any two moments is given one of them as it was written, the one in force when it looked, or none, and none only before the first write or where both looks fell inside a write |
| ResourceSampling.StepKeepsBooks | src/pytest_failure_instrumentation/resource_sampling.py:104-108 | emitting, evicting, copying, committing, failing and acknowledging keep the account of every event |
| ResourceSampling.DeliveredAtLeastOnce | src/pytest_failure_instrumentation/resource_sampling.py:333-348 | over any interleaving every event emitted is in a batch whose append returned, or queued, or counted by events_dropped; the queue holds at most 256; and no event is in two batches whose append returned |
| ResourceSampling.ResourceSampler.EmitEvent | src/pytest_failure_instrumentation/resource_sampling.py:104-108 | an event goes to the end of the queue with what it carries, the oldest giving way and being counted where the queue is full |
| ResourceSampling.ResourceSampler.AcknowledgeBatch | src/pytest_failure_instrumentation/resource_sampling.py:346-349 | exactly the events the batch carried leave the queue, by identity, whatever came or was evicted meanwhile |
| ResourceSampling.ResourceSampler.SampleOnce | src/pytest_failure_instrumentation/resource_sampling.py:339-349 | a sample and its append, with others emitting at every point of it, is some sequence of those steps: one batch more and all that was queued at the call off the queue, or no batch |
| ResourceSampling.ResourceSampler.Run | src/pytest_failure_instrumentation/resource_sampling.py:333-370 | so is the whole loop, of whose turns each is a batch recorded or an error counted; it gives up exactly on five errors in a row, as soon as there are five |
| ResourceSampling.ResourceSampler.Track | src/pytest_failure_instrumentation/resource_sampling.py:232-249 | the table holds each process once and at most 512, is exactly what the emitted events tell, refuses a worker or the controller only where it is full of their kind, and otherwise adds the one row and emits that it did, for which at most one descendant gives way, only in a full table, and that is emitted too |
| ResourceSampling.ResourceSampler.Forget | src/pytest_failure_instrumentation/resource_sampling.py:283-286 | a process that is gone leaves the table, and one event says so |
| Recorder.WorkerSlot.PhaseStart | src/pytest_failure_instrumentation/capture/recorder.py:657-697 | the first setup of a protocol counts a test as started, a later one takes its finish back and counts an attempt, and the file is written with it |
| Recorder.WorkerSlot.PhaseEnd | src/pytest_failure_instrumentation/capture/recorder.py:726-754 | a teardown counts the test as finished and clears what names it |
| Recorder.SlotCountsTests | src/pytest_failure_instrumentation/capture/recorder.py:502-546 | after any run of protocols with any number of attempts the slot and its file count tests begun, and those begun and not inside an attempt, with the attempt, test and phase that are running |
| Recorder.ProtocolCountsOne | src/pytest_failure_instrumentation/capture/recorder.py:502-546 | one protocol of any number of attempts counts exactly one test started and one finished, and one that ends before its first setup counts none |
| Recorder.AnyAttemptsCountOne | src/pytest_failure_instrumentation/capture/recorder.py:502-546 | a test set up, called or not, and torn down any number of times in one protocol is one test started and one finished |
| Recorder.ProtocolBegins | src/pytest_failure_instrumentation/capture/recorder.py:657-697 | however a protocol goes on after its first setup, it begins that one test and no other |
| Recorder.JoinIsPossible | src/pytest_failure_instrumentation/topology.py:521-558 | joined with a schedule row of any other instant, finished, running and queued add up to the total, none is negative, and one test at most runs |
| SlowTests.SlowTestWatchdog.Tick | src/pytest_failure_instrumentation/capture/crash_stack.py:207-220 | a tick dumps exactly when the running test, or some lane, is due one and the process’s last dump is a timeout old |
| SlowTests.SlowTestWatchdog.TickLanes | src/pytest_failure_instrumentation/capture/crash_stack.py:222-252 | one dump marks every lane past the timeout |
| SlowTests.SlowTestWatchdog.EndLane | src/pytest_failure_instrumentation/capture/crash_stack.py:184-200 | the dump stays while another lane is past its timeout and goes once none is, unless it cannot be removed |
| SlowTests.SlowTestWatchdog.EndTest | src/pytest_failure_instrumentation/capture/crash_stack.py:160-173 | no dump of a test that is over is left, unless it cannot be removed |
| SlowTests.DumpsAreApart | src/pytest_failure_instrumentation/capture/crash_stack.py:222-252 | over any run, whatever dumps fail in it, two dumps of a process of lanes are never less than a timeout apart |
| SlowTests.PlayLanes | src/pytest_failure_instrumentation/capture/crash_stack.py:176-252 | any run of lanes, played to the watchdog, leaves it as the run says |
| SlowTests.KeptWhileOverdue | src/pytest_failure_instrumentation/capture/crash_stack.py:184-200 | over any run, however other lanes come and go and whatever fails, while a lane past its timeout stays so the dump is never discarded, only replaced by a later one |
| SlowTests.FreshStackIff | src/pytest_failure_instrumentation/capture/crash_stack.py:222-252 | at any instant of any such run, a lane whose test has run a timeout and a gap has such a dump exactly if the process last took one since that test passed its timeout |
| SlowTests.StuckLaneHasAStack | src/pytest_failure_instrumentation/capture/crash_stack.py:176-252 | with ticks at most a gap apart and no dump failed, a lane whose test has run two timeouts and a gap has a dump on disk taken once its test was past the timeout and less than a timeout and a gap old |
| SlowTests.FirstStackMayTakeTwoTimeouts | src/pytest_failure_instrumentation/capture/crash_stack.py:184-200 | a run in which a lane that has run a timeout and a gap has none, because a lane that ended took its dump with it |
| SlowTests.SlowTestHasAStack | src/pytest_failure_instrumentation/capture/crash_stack.py:207-220 | over any run of one test at a time, whatever dumps failed before, a test that has run a timeout and a gap has a dump taken past its timeout and less than a timeout and a gap old, unless the last tick’s own dump failed, and then the next tick tries again |
| SlowTests.PlayTests | src/pytest_failure_instrumentation/capture/crash_stack.py:152-220 | any run of one test at a time, played to the watchdog, leaves it as the run says |
| SlowTests.LanesRetryIffNewlyOverdue | src/pytest_failure_instrumentation/capture/crash_stack.py:244-252 | at any point of any run, and however lanes start and end after it, a dump that fails for lanes is tried again within a timeout exactly if a lane still running has come due since |
| SlowTests.FailureIsNotRetried | src/pytest_failure_instrumentation/capture/crash_stack.py:244-252 | a run in which the one stuck lane’s dump fails and no tick of the next timeout tries again |
| FrozenFallback.FiresOnlyOnSilence | src/pytest_failure_instrumentation/capture/crash_stack.py:348-386 | after any tick that aimed the timer, and whatever happens then, it does not go off until three intervals have passed |
| FrozenFallback.FiresOnSilence | src/pytest_failure_instrumentation/capture/crash_stack.py:348-386 | once aimed, and with nothing else happening, it goes off as soon as three intervals have passed and not before |
| FrozenFallback.FailureIsFinal | src/pytest_failure_instrumentation/capture/crash_stack.py:375-386 | a timer that could not be aimed once is never aimed again, whatever happens |
| FrozenFallback.NothingOutlivesAJoin | src/pytest_failure_instrumentation/capture/heartbeat.py:92-110 | in every interleaving where stopping the heartbeat joins its thread no deadline aimed here is left, whatever rearms failed |
| FrozenFallback.PatientStopJoins | src/pytest_failure_instrumentation/capture/heartbeat.py:92-110 | a stop that does not give up its join has joined the thread once it is past it, and leaves neither a deadline nor the mark of one |
| FrozenFallback.NeverArmedNeverCancels | src/pytest_failure_instrumentation/capture/crash_stack.py:410-426 | a fallback that never aimed the timer leaves it as others set it, and a disabled one never aims it |
| FrozenFallback.OutlivesIffPastItsCheck | src/pytest_failure_instrumentation/capture/crash_stack.py:391-426 | once stop has cleared the flag a deadline may still outlive it exactly if a tick was already past its check of the flag |
| FrozenFallback.RaceIsReachable | src/pytest_failure_instrumentation/capture/heartbeat.py:92-110 | a run from the start comes to that point, and one goes on to leave a deadline after stop has returned |
| Heartbeats.Heartbeat.SetNodeid | src/pytest_failure_instrumentation/capture/heartbeat.py:72-76 | the id and its own hash are published together |
| Heartbeats.Heartbeat.MakeBeat | src/pytest_failure_instrumentation/capture/heartbeat.py:112-135 | one measurement names one test, one that was current at some moment of the call, to the record and to every observer, by an id and the hash of that id, however the recorder moves on meanwhile |
| Heartbeats.Heartbeat.Run | src/pytest_failure_instrumentation/capture/heartbeat.py:137-146 | every wake ticks; beats come a full interval apart, and late by less than two of the longest gaps between wakes |
| Inventory.EntryKeepsDirectory | src/pytest_failure_instrumentation/capture/file_resources.py:72-96 | meeting one entry keeps the worklist, the entries met and the table in step |
| Inventory.WalkIsComplete | src/pytest_failure_instrumentation/capture/file_resources.py:68-107 | when nothing is waiting the entries met are all that can be reached without links and outside the excluded tree, and the table is exactly the regular files among them |
| Inventory.ListsAreShort | src/pytest_failure_instrumentation/capture/file_resources.py:84-92 | neither the worklist nor the file count can reach a limit the entries met have not |
| Inventory.Scanner.ReadEntries | src/pytest_failure_instrumentation/capture/file_resources.py:71-105 | one directory’s entries are each met once, until the entry limit |
| Inventory.Scanner.Scan | src/pytest_failure_instrumentation/capture/file_resources.py:50-137 | a scan ends; it is complete exactly when the entries to meet are within the limit and nothing to read fails, and then lists exactly the files to be listed; errors are counted once for each thing that could not be read; a partial one sets no baseline and reports no change |
| Inventory.Scanner.Compare | src/pytest_failure_instrumentation/capture/file_resources.py:121-131 | the reported change is the comparison of the two tables |
| Inventory.DifferenceAddsUp | src/pytest_failure_instrumentation/capture/file_resources.py:121-131 | between two complete inventories the counts are those of the paths only one has, the bytes are those of new files and of the growth of old ones, and together with what is gone and what shrank they make up the net change |
| Collections.EncodedInjective | src/pytest_failure_instrumentation/analysis/collection.py:70-75 | ids without NULs are told apart by the text that is hashed |
| Collections.EncodedAlikeIff | src/pytest_failure_instrumentation/analysis/collection.py:70-75 | for any ids at all, two lists are hashed alike exactly if cutting every id at its NULs leaves the same list |
| Collections.WithoutParameters | src/pytest_failure_instrumentation/analysis/collection.py:48-49 | an id that ends in a bracket loses everything from its first opening bracket on, and any other is kept |
| Collections.BeforeIff | src/pytest_failure_instrumentation/analysis/collection.py:246-260 | the order is that of the first differing character, a prefix coming first |
| Collections.MismatchIffListsDiffer | src/pytest_failure_instrumentation/analysis/collection.py:115-132 | with such ids and a hash that tells texts apart, digests differ exactly where the lists do, and stripped ones exactly where the tests without parameters do |
| Collections.CollectionTracker.MismatchIsReal | src/pytest_failure_instrumentation/analysis/collection.py:115-132 | has_mismatch holds exactly when two workers’ lists differ, and parameters_unstable exactly when only their parameters do |
| Collections.CollectionTracker.Record | src/pytest_failure_instrumentation/analysis/collection.py:95-113 | a worker’s digests and count replace its last; the lists kept are the first five distinct ones |
| Collections.VariantsPartition | src/pytest_failure_instrumentation/analysis/collection.py:179-205 | every worker is in exactly one variant, that of its digest, and among its replacements exactly if it is one; variants come by most workers, then most tests, then digest |
| Collections.CollectionTracker.VariantsAreReal | src/pytest_failure_instrumentation/analysis/collection.py:179-205 | two workers are in one variant exactly if they collected one list, and its test count is that list’s length |
| Collections.CollectionTracker.Variants | src/pytest_failure_instrumentation/analysis/collection.py:179-205 | one row per distinct collection with its workers, its test count and its replacements, most workers first, then most tests, then by digest |
| Collections.CollectionTracker.Summarise | src/pytest_failure_instrumentation/analysis/collection.py:207-243 | each minority is compared with the majority exactly where both lists are kept, and then the difference is of those two lists |
| Collections.Compare | src/pytest_failure_instrumentation/analysis/collection.py:246-260 | as multisets the baseline less what is missing plus what is extra is the variant, the two are disjoint, and both are sorted |
| Collections.MakeDifference | src/pytest_failure_instrumentation/analysis/collection.py:246-303 | the report is of order exactly when the two hold the same tests, and then names the first place they disagree unless they are the same; else it holds the first of each side and how many there are |
| Collections.FirstDivergence | src/pytest_failure_instrumentation/analysis/collection.py:306-310 | the first index at which two lists differ, everything before it agreeing, or none where one begins the other |
| Lanes.LaneCpu.Record | src/pytest_failure_instrumentation/lanes.py:201-225 | one reading appended to every list, the last six kept, lanes with none in them dropped, and the file replaced whole or not at all |
| Lanes.RecordHolds | src/pytest_failure_instrumentation/lanes.py:204-216 | every list stays in step with the times |
| Lanes.RingRefinesHistory | src/pytest_failure_instrumentation/lanes.py:201-283 | after any calls with lanes coming, going and coming back, the times in the file are those of the last six calls, and it gives each lane exactly what it read in those, in order, and no other lane |
| Lanes.ShortListsAlign | src/pytest_failure_instrumentation/lanes.py:240-283 | a lane’s list shorter than the times is read against the last of them, and a longer one is cut |
| Lanes.SameInstants | src/pytest_failure_instrumentation/lanes.py:181-186 | lanes measured in all the calls kept are read at the same instants |
| Stall.WindowIs | src/pytest_failure_instrumentation/analysis/stall.py:253-260 | a verdict is taken over just the beats of the silence and the five seconds before it, in order, or over the last two where there are none |
| Stall.LaneBeatsAre | src/pytest_failure_instrumentation/analysis/stall.py:67-115 | a lane has beats of its own exactly when it has two readings and the newest is no more than half a second behind the process’s last beat but one, or an interval more behind its only one; they are its readings |
| Stall.ProcessVerdict | src/pytest_failure_instrumentation/analysis/stall.py:213-234 | a process is silent exactly when it wrote no beat, to be looked at again exactly when its last is over two intervals old, and else working exactly when it burned more than a twentieth of a core |
| Stall.LaneVerdict | src/pytest_failure_instrumentation/analysis/stall.py:253-299 | a lane of a process whose beat is current, among any number of lanes in flight, is working exactly when it burned more than a twentieth of a core or, with others and in a process that burned four fifths of a core over its window, more than a quarter of its fair share; that it is blocked is said with little confidence exactly where it has no rate or its fair share of the window is under fifty milliseconds |
| Stall.BlockedBurnAQuarter | src/pytest_failure_instrumentation/analysis/stall.py:163-184 | whichever lanes of a saturated process are judged blocked, among working ones and ones not yet measured, together burned at most their part of a quarter of what the process did, each lane over its own window |
| Stall.SaturatedIsNotAllBlocked | src/pytest_failure_instrumentation/analysis/stall.py:163-184 | where lanes of a saturated process account for more than a quarter of the most it burned over their windows, one of them at least is judged working, for any number of lanes in flight, measured or not |
| Stall.LanesOfOneFile | src/pytest_failure_instrumentation/analysis/stall.py:187-205 | lanes measured in every call their file keeps are judged over one window, and so against one share, whatever other lanes are in flight; the blocked among the lanes of the file burned at most a quarter |

## Left out

- HistoryWriter.ResourceHistory.Append: requires the inventory text to be no shorter than the reference that may replace it, as every inventory the sampler sends is up to a sequence number of fifteen digits; `HistoryFormat.CompactNoLongerIff` says what happens below that length. A batch never carries the key `_files_sequence` itself.
- HistoryReader.ReadHistory: does not model the lease and the owner-process check; the run is taken to be active for the whole read, and both time bounds to be finite.
- HistoryFormat.LinesConcat: JSON is an encoding assumed to be a single line that decodes to what was encoded, with the lengths `HistoryFormat.Faithful` names; equality of inventories is equality of values, where Python also equates 1, 1.0 and True.
- HistoryPolls.Tail: allows a publication between a failed append and the next append, which the program makes only as it stops collecting; only then can a cursor pass the number of a sample not yet written (`HistoryReader.PastEmpty`).
- StderrTee.StderrTee.Session: does not model failed system calls (after one inside a copy the offset stays and a retry repeats bytes), a process that still writes a file once it is no longer read, or `compact` and `read_tail`. A line is short when it and its newline fit one read.
- StderrTee.StderrTee.Trim: takes the capture file to be written by nobody between phases, and does not model the program's clearing of a partly written trim.
- StackService.StopReturns: the announcer thread, whose join is bounded by two seconds, and request handling are not modelled; what stands in for the library's server is its two flags and the order its accept loop and its shutdown use them in.
- Schedule.ScheduleTracker.MakeRecord: the scheduler is what it answers when asked for lengths; the shapes its attributes are recognised by, the run id, the time and the scheduler's class name are not modelled.
- ScheduleRuns.TotalsExact: is about unique ids, a mode that gives a test to one worker and a scheduler that keeps what is outstanding (`ScheduleRuns.GivenIsExact` is about one that keeps what was given); duplicate ids, `--dist each` and crashed workers are not covered, except that a kept row stays as it was (`ScheduleRuns.KeptRow`).
- ScheduleRecord.ReadIsWhole: takes a record's overwrite to be seen by a reader whole or not at all; a reader between two parts of one write is not modelled. Records are ASCII, as `json.dumps` writes them.
- ResourceSampling.ResourceSampler.SampleOnce: what is sampled (processes, hosts, disks) and how the batch is appended are left to the probes and to the history; a sample is the copy of the queue and whether it failed.
- ResourceSampling.ResourceSampler.Track: the discovery that calls it, and the rates kept beside the table, are not modelled.
- Recorder.SlotCountsTests: every attempt runs its teardown, as pytest's protocol does; the clocks, the heartbeat's copy of the id and the table of lanes' slots are not modelled. What the join makes of a record something else has written is `Recorder.SplitIffPossible`.
- SlowTests.StuckLaneHasAStack: assumes, with `SlowTests.FreshStackIff`, that no dump has failed in the run; a process that mixes its own test with lanes is not covered.
- FrozenFallback.FiresOnlyOnSilence: a step of the heartbeat's thread is one of `rearm`; that it goes on waking is not assumed.
- Heartbeats.Heartbeat.Run: the baseline beat written before the thread starts, what a beat measures, and a beat that fails are not modelled.
- Inventory.Scanner.Scan: the tree stands still during a scan, and a directory is listed whole or not at all; the database's own size limit and failures, checkpoints, and the list of largest growths are not modelled.
- Collections.CollectionTracker.MismatchIsReal: the hash is a function assumed to tell texts apart, where the program keeps twelve digits of a SHA-1; ids hold no NUL there, without which `Collections.EncodedAlikeIff` and the two lists of `Collections.NulCollides` apply; characters stand for the bytes they encode to; ids hold no newline.
- Collections.CollectionTracker.Variants: a variant's workers are a set, where the program lists them in the order of their numbers; the samples of unstable parameters, the modules named and the hashes of ids are not modelled.
- Lanes.LaneCpu.Record: values are taken as already rounded to a thousandth.
- Stall.LaneVerdict: the second look that tells a frozen worker from a slow one is not modelled.
- Stall.SaturatedIsNotAllBlocked: arithmetic is over the reals, without rounding; the wording of a verdict is not modelled.
- HTTP requests, tokens and the client, stack sampling through other processes, the probes of each platform, incident models and alert text, severity and classification tables, configuration and registration: each is decided in one place or by code outside the repository, and adds no state to what is above.
