# nevr-anticheat: verified models

These Dafny modules model the parts of nevr-anticheat whose correctness is a statement about whole runs, and prove it.
`dafny verify dfyconfig.toml` checks everything. One module models one source component; its `…Proofs` module holds
the theorems about it. Code that updates state in place is a class whose methods are proved against a specification
function or against the steps of a state machine; the theorems are about those functions and steps, so they hold for
every input, every pattern of failures and every interleaving.

- **Exact decimal integers** (`Decimals`, `NumericJson`, `NumericJsonProofs`): the adapter's decoder for integers
  that recorders write as `1.0`, `1e3` or `10e-1`. It returns a value exactly for the texts that are JSON numbers
  (section 6 of RFC 8259) and denote an integer of the requested width.
- **Bridge delivery** (`Sender`, `SenderProofs`, `SenderOrder`, `SenderProgress`, `SenderRuns`,
  `WsSender`): pollers, one writer and a read loop for each
  connection generation around a bounded queue, an in-flight count and counters. Each mutex region, channel operation,
  socket operation or atomic update is a step, so `adopt` takes two steps and `dropConn` four.
- **Frame epochs and pollers** (`Epoch`, `EpochProofs`, `EpochTimes`, `Poller`, `PollerProofs`,
  `PollerTrace`): frame identity of one match id
  across poller restarts, and the messages a poller sends over its life.
- **Telemetry mapping** (`Mapper`, `MapperProofs`, `MapperTimes`, `MapperFrames`, `ReplayParser`, `ReplayParserProofs`,
  `ReplayParserErrors`): time base, frame identity
  and roster admission for the snapshots of one match, and the splitting of a recording into matches.
- **Calibration** (`UnionFind`, `DatasetSplits`, `DatasetSplitsProofs`, `DatasetSplitsWritten`, `Metrics`, `ClusterRanges`,
  `DetectorMetrics`, `Wilson`, `PromotionGate`, `PromotionProofs`, `Dashboard`, `Eligibility`, `ReportedRates`): matches linked by shared players share a dataset
  split, samples are counted into confusion metrics overall, for each split and for each stratum, and a gate decides
  from those counts whether a detector may be promoted.
- **Scheduled restore** (`Restore`, `RestoreProofs`, `RestoreOutcomes`, `RestoreRemains`): three live files are moved aside and one verified copy is
  installed; every file operation may fail and the power may fail after every change of the disk.
- **Shutdown and detached work** (`Shutdown`, `ShutdownProofs`, `ShutdownCompletes`, `ShutdownSteps`): request admission, single-flight rebuilds and the
  wait for both, in every interleaving.
- **Incidents** (`Incidents`, `IncidentsProofs`, `IncidentsReturned`) and **the app log** (`AppLog`, `AppLogProofs`,
  `AppLogPieces`).
- `Common`, `Strings` and `Events` are shared: small datatypes, Go's string order and sorting, detection events.

## What the proofs found

Where a property is false of the code, the code is modelled as it is, a lemma gives concrete cases, and a condition is
proved; each entry says whether it is exact.

- A failure record is documented to mean that the app starts on the untouched database
  (`cmd/desktop/restore_startup.go:30-33`). It stands beside a replaced one exactly when the copy went over a different
  database, the removal of the request was the first operation to break, and the record and the second removal worked
  (`RestoreOutcomes.RecordMisleadsExactlyWhen`); that single broken operation does it on every disk
  (`RestoreOutcomes.RecordedYetReplaced`).
- The start is documented to fail only when the database could not be put back (lines 43-48). It fails on an untouched
  database exactly when the restore was refused, or copied a database over its equal and stuck at the removal of the
  request, and then the record's write or the second removal broke (`RestoreOutcomes.StartFailsWronglyExactlyWhen`);
  on every disk with an unreadable request one broken write does it (`RestoreOutcomes.UnreadableRequestStopsTheStart`).
- After an earlier start was cut off, a record can stand beside a database that was moved away, on every disk
  (`RestoreOutcomes.RecordedYetMovedAway`): a record speaks of the files its own start found, exactly as stated by
  `RestoreOutcomes.RecordSpeaksOfFoundFiles`; the originals are then in a recovery directory.
- Frames that were sent can end in no counter at all. `adopt` and `dropConn` each take two locks; when a read loop has
  cleared its connection but not yet reset the in-flight count, the next `adopt` throws that count away, for any number
  of frames and without any unusual ack (`SenderProofs.NothingSentIsUnaccounted` holds when the two never overlap,
  `SenderRuns.SentFramesVanish` is the overlap). With acks of non-negative totals this overlap is the only way
  (`SenderProofs.AdoptDiscardsNothing`), and unless a count is clamped the missing frames are exactly those thrown away
  (`SenderProofs.MissingFramesAreWiped`).
- Outside that overlap `adopt` resets a nonzero count exactly if the server may send an ack of negative total
  (`SenderRuns.WipesNothingExactlyWhen`).
- `deliver` discards a batch silently not only after the sender was closed: the read loop of the connection that was
  just adopted can drop it before `deliver` looks (`SenderRuns.DiscardedWhileOpen`). The frames discarded are exactly
  those of batches whose `adopt` met one of the two (`SenderProofs.DiscardedExactlyWhen`).
- Frames can be counted both as lost and as dropped (`SenderRuns.FramesCountedTwice`): always when a read loop's
  `dropConn` resets the in-flight count during a write on its connection of which nothing was settled
  (`SenderProofs.DropDuringWriteCountsTwice`), and never when no read loop resets it during a write
  (`SenderProofs.LossesAreDisjoint`).
- Separate groups of matches may share a group key when ids contain `|`. Over all libraries whose ids are spelled with
  given characters, one of them neither a space nor `|`, keys never collide exactly if `|` is not among the characters
  (`DatasetSplitsProofs.KeysApartExactlyWhen`); whatever two players are joined in one id by `|`, two matches without
  a common player get one key (`DatasetSplitsProofs.SeparatorCollides`). For a single library the absence of `|` is
  sufficient, not exact.
- An event without a frame range is sorted at frame 0 but merged at its own frame, so incidents may then not be the
  components of near ranges (`IncidentsProofs.FallbackBreaksComponents`). For given kinds of events they are, in every
  sorted list, exactly if an event that an earlier one reaches also reaches back, and whatever the sort puts between
  the two is reached as well (`IncidentsProofs.ComponentsExactlyWhen`); events with explicit ranges are such kinds.
- A failing rename of the current log file breaks the size limit (`AppLogProofs.FailedRenameBreaksTheLimit`, exactly
  when in `AppLogProofs.LimitBreaksExactly`). The comment at `cmd/desktop/app_log.go:78` promises to keep logging when
  a rotation fails, but one failing close silences the log for good (`AppLogProofs.FailedCloseSilencesTheLog`, exactly
  when in `AppLogProofs.SilencedExactlyWhen`).
- The context that parsing returns is documented to be the first match's
  (`internal/adapter/replay_parser.go:218-224`). It is the last match's exactly when the reader failed before anything
  else did (`ReplayParserErrors.ReturnedMatch`, `ReplayParserErrors.ReadErrorReturnsTheLast`).
- A caller can join a detached run whose function has already returned, as long as its entry is still in the map
  (`ShutdownProofs.JoinsReturnedRun`); it never gets the result of a run whose entry was gone when it called.

## Model

| member | source | states |
|---|---|---|
| `NumericJsonProofs.ParseIsExact` | internal/adapter/numeric_json.go:28-90 | the decoder returns v if and only if the text, up to JSON white space, is a JSON number whose exact value is v and v fits the width; no cut-off on length or exponent rejects a representable integer |
| `NumericJsonProofs.SpelledValueIsUnique` | internal/adapter/numeric_json.go:28-90 | a text denotes at most one integer, so the decoded value is determined by the grammar |
| `NumericJsonProofs.WidthsAreTwosComplement` | internal/adapter/numeric_json.go:17-26 | the widths are those of two's complement: one bit holds -1 and 0, each further bit halves to the ones before, and 64 bits end at 9223372036854775807 |
| `NumericJson.ScanSound` | internal/adapter/numeric_json.go:37-39 | what the validity scan accepts is a number of the grammar, taken apart without loss |
| `NumericJson.ScanComplete` | internal/adapter/numeric_json.go:37-39 | the scan accepts every number of the grammar and finds its parts: reading back what was written |
| `NumericJsonProofs.TrimPeelsPadding` | internal/adapter/numeric_json.go:28-29 | trimming removes white space only, from both ends |
| `Decimals.SpelledIsRead` | internal/adapter/numeric_json.go:84-90 | the text of v, written by dividing by ten, spells v; so the digits mean what they should |
| `NumericJsonProofs.PiecesExact` | internal/adapter/numeric_json.go:40-90 | the mantissa and exponent arithmetic on digit strings yields v exactly when the number denotes v and v fits |
| `NumericJsonProofs.CutOffsAreSafe` | internal/adapter/numeric_json.go:58-64 | beyond the exponent bounds no integer of at most 64 bits is denoted |
| `NumericJsonProofs.ScaleExact` | internal/adapter/numeric_json.go:65-89 | dropping or appending zeros yields v exactly when the coefficient times the power of ten is v, with no fraction lost |
| `NumericJson.IntegralInt.UnmarshalJSON` | internal/adapter/numeric_json.go:17-26 | null keeps the old value; otherwise the receiver changes exactly when the text decodes, and to the decoded value |
| `SenderProofs.NothingOfferedIsLost` | cmd/bridge/sender.go:426-452 | in every interleaving, frames offered = dropped + sent + discarded + queued + being delivered + in the hands of a poller |
| `SenderProofs.NothingSentIsUnaccounted` | cmd/bridge/sender.go:253-425 | in every run in which no adopt resets the in-flight count between another goroutine's clearing and resetting in dropConn, whatever the server acknowledges, frames sent are covered by acked + rejected + ignored + lost + in flight + about to be counted as lost; without a connection the in-flight count is not needed |
| `SenderProofs.OnlyAdoptLosesSight` | cmd/bridge/sender.go:253-425 | in every run at all, what the counters miss is at most what adopt has thrown away |
| `SenderProofs.MissingFramesAreWiped` | cmd/bridge/sender.go:253-425 | in every run that clamps no count, the frames missing from the counters are exactly those adopt has thrown away, so all are accounted for if and only if it threw none away |
| `SenderRuns.SentFramesVanish` | cmd/bridge/sender.go:263-304 | whatever acks the server may send and for every n, a run ends with n frames sent, nobody counting, and every ack counter, the loss counter and the in-flight count at 0 |
| `SenderProofs.OutstandingZeroIsDrained` | cmd/bridge/sender.go:610-617 | pending = 0, which drain waits for, means nothing queued, in delivery or about to be queued |
| `SenderProofs.AdoptDiscardsNothing` | cmd/bridge/sender.go:253-307 | with acks of non-negative totals, adopt resets a nonzero in-flight count only while a read loop stands between clearing its connection and resetting that count |
| `SenderProofs.ApartAdoptsWipeNothing` | cmd/bridge/sender.go:253-307 | with such acks, a run in which the two never overlap throws nothing away |
| `SenderRuns.NegativeAckIsDiscarded` | cmd/bridge/sender.go:355-366 | for every ack of negative total, a run reaches an adopt about to reset a count of just that size, with no dropConn under way |
| `SenderRuns.WipesNothingExactlyWhen` | cmd/bridge/sender.go:253-425 | for any set of acks a server may send, no adopt outside another dropConn ever resets a nonzero count if and only if none of these acks has a negative total |
| `SenderRuns.DiscardedWhileOpen` | cmd/bridge/sender.go:513-526 | for every n, a run of an open sender that discards all n offered frames without counting them |
| `SenderProofs.DiscardedExactlyWhen` | cmd/bridge/sender.go:253-307 | in every run the frames discarded are exactly those of the batches for which adopt came after close had begun, or the read loop of the connection it installed had already left |
| `SenderProofs.LossesAreDisjoint` | cmd/bridge/sender.go:289-354 | with acks of non-negative totals, in every run in which no read loop resets the in-flight count during a write, only written frames are counted as lost, and dropped + discarded + lost never exceeds offered |
| `SenderProofs.DropDuringWriteCountsTwice` | cmd/bridge/sender.go:289-354 | when the read loop of the connection being written to resets the count during the write, nothing of it settled, then in every continuation the frames are counted as lost, the write can only fail, and they are counted as dropped too |
| `SenderRuns.FramesCountedTwice` | cmd/bridge/sender.go:289-354 | for every n, a run in which n offered frames are counted n times as lost and n times as dropped |
| `SenderProofs.RunKeepsInv` | cmd/bridge/sender.go:253-585 | every run keeps the offer balance, the pending balance, one read loop for each generation with the connection in use the last of them, and the coverage of sent frames |
| `SenderOrder.DeliveryIsInOrder` | cmd/bridge/sender.go:391-585 | in every interleaving the messages are taken in the order in which they were queued, each delivered before the next, and every counter holds what the events of the run counted: frames offered, of the message sent or dropped, and of each received ack |
| `SenderOrder.WritesExactlyWhileOpen` | cmd/bridge/sender.go:289-354 | in every reachable state a write can succeed exactly until the read loop of its connection has closed the socket, also after the connection was taken out of use |
| `SenderProgress.WriterSettles` | cmd/bridge/sender.go:480-585 | whatever the server does, at most 13 steps of the writer lead from any reachable state to its next message, unless it has stopped; nothing else has to happen first |
| `SenderProgress.QueueCanBeSent` | cmd/bridge/sender.go:513-585 | as long as the sender is open, an idle writer can send everything that is queued, and loses none of it on the way |
| `SenderProgress.ClosedStaysClosed` | cmd/bridge/sender.go:622-642 | a sender is closed from the first step of close on, and has no connection after the last, in every continuation |
| `WsSender.Link.EnqueueBatch` | cmd/bridge/sender.go:426-438 | is a run of protocol steps; the batch is queued exactly when there is room, and counted as dropped otherwise |
| `WsSender.Link.DeliverNext` | cmd/bridge/sender.go:513-585 | is a run of protocol steps that takes the oldest message and puts its frames into exactly one of sent, dropped and discarded |
| `WsSender.Link.HandleControl` | cmd/bridge/sender.go:391-424 | is a run of protocol steps; an ack raises the counters by at least what it takes from the in-flight count |
| `WsSender.Link.ReadLoopFails` | cmd/bridge/sender.go:289-380 | is a run of protocol steps; drops the connection only if it is still that read loop's, and then counts its in-flight frames as lost |
| `WsSender.Link.MonitorTick` | cmd/bridge/sender.go:480-511 | is a run of protocol steps; drops the connection exactly when an ack is overdue or a due ping fails |
| `EpochProofs.EpochSurvivesRestarts` | cmd/bridge/epoch.go:36-76 | over any sequence of get, touch, expire, stamp and session changes, an unexpired match's indices go up by one for each sample, times never decrease, and each player's deltas are non-negative and sum to last minus first time |
| `EpochProofs.EpochLivesExactlyWhile` | cmd/bridge/epoch.go:104-147 | over any continuation an epoch lives through all calls if and only if every expiry among them finds it seen within the ttl, and while it lives its frames only grow |
| `EpochTimes.EpochIsItsLife` | cmd/bridge/epoch.go:36-126 | an epoch is determined by the calls for its id since its creation: the k-th sample has index k and the longest time from the first sample to one so far, players and bindings follow their frames, and the last stamp, touch or creation is what an expiry measures from |
| `EpochTimes.OrderedSamplesKeepTheirTimes` | cmd/bridge/epoch.go:36-76 | when sample times never decrease, every frame carries the time from the first sample to its own |
| `Epoch.FrameEpoch.Stamp` | cmd/bridge/epoch.go:36-76 | rewrites the frames in place as specified, with the next index and a time that is never before the last one |
| `Epoch.EpochRegistry.Expire` | cmd/bridge/epoch.go:133-147 | drops exactly the stale epochs and returns how many |
| `PollerProofs.RunIsWellFormed` | cmd/bridge/poller.go:188-232 | every complete run sends (match_start batch+ match_end)*, all batches of one match from one session, and leaves no match open |
| `PollerProofs.OutageRecoversQuietly` | cmd/bridge/poller.go:298-344 | an outage of any length that recovers to the same session adds no control message |
| `PollerProofs.IdleClockIsTheLastLeave` | cmd/bridge/poller.go:337-350 | for every sequence of replies, the clock of a poller that ends idle shows the poll by which it last left the active phase, or is unchanged if it was idle all along |
| `PollerProofs.GivesUpWithin30` | cmd/bridge/poller.go:298-344 | past its give-up time an idle poller stops or becomes active within 30 polls, whatever the mix of failures and post_match replies |
| `PollerProofs.PolledKeeps` | cmd/bridge/poller.go:354-523 | every poll keeps the invariant that an open match carries the epoch's session and that none is open in post_match |
| `PollerTrace.TraceIsTheStory` | cmd/bridge/poller.go:188-232 | for every sequence of replies the messages sent, in their order, are those the replies tell: a batch for every fresh one in play, match_start before the first of a match, match_end when it is over, changes its session or the poller stops; none in a dry run |
| `PollerTrace.StopsAsTold` | cmd/bridge/poller.go:298-344 | the poller stops at the first reply that tells it to, and for the reason which that reply, the failures in a row and the idle clock give |
| `PollerTrace.BatchesAreFreshReplies` | cmd/bridge/poller.go:431-523 | the batches of a run are, in order, exactly the accepted replies in play whose body differs from the last one in play and which have frames and are not skipped |
| `PollerTrace.StateIsTold` | cmd/bridge/poller.go:298-523 | after any replies that do not stop it, phase, idle clock, failures, last body, known session and announced match are those the replies tell |
| `Poller.MatchPoller.Run` | cmd/bridge/poller.go:188-232 | the loop ends exactly where its polls end it, and then ends the match |
| `MapperProofs.TimestampsNeverDecrease` | internal/adapter/mapper.go:590-615 | over any sample times the timestamps of a match never decrease, and two unclamped samples of one source epoch are exactly as far apart as measured |
| `MapperProofs.ClockStepStartsEpoch` | internal/adapter/mapper.go:590-615 | a new epoch starts exactly on a backward step of at least the threshold; its first tick is the next timestamp, is not skipped, and has only zero deltas |
| `MapperTimes.TicksAreTheTimeLine` | internal/adapter/mapper.go:590-615 | the ticks of a match are the time line of its sample times: clamped exactly when measured before the last tick by less than a second, a new epoch exactly on a step back of a second or more, and otherwise the time measured in the base of the epoch |
| `MapperTimes.TimeLineIsUnique` | internal/adapter/mapper.go:590-615 | equal sample times have one time line, so these laws determine every tick |
| `MapperTimes.OrderedSamplesKeepTheirTimes` | internal/adapter/mapper.go:590-615 | when sample times never decrease, no tick is clamped, no epoch ends, and every timestamp is the time since the first sample |
| `MapperProofs.DeltasTelescope` | internal/adapter/mapper.go:525-546 | within an epoch a player's deltas are non-negative, start with 0 and sum to last minus first timestamp |
| `MapperProofs.FramesAreIdentified` | internal/adapter/mapper.go:502-556 | no two frames of a match share player and frame index, and indices never go down |
| `MapperProofs.RosterIsAdmitted` | internal/adapter/mapper.go:254-289 | with the limits on, the merged context of a match lists exactly the admitted players, each once, and at most 64 |
| `MapperFrames.RefusedExactlyWhen` | internal/adapter/mapper.go:228-289 | for any limits a snapshot is refused exactly when it has more playing entries or entries in all than allowed, or brings the roster above its limit; any other joins the roster as a whole |
| `MapperFrames.EnforcedLimits` | internal/adapter/mapper.go:195-226 | for recordings these limits are 32, 64 and 64 |
| `MapperProofs.RefusalsChangeNothing` | internal/adapter/mapper.go:383-401 | over any run, leaving out the refused snapshots changes neither the final state nor any other result |
| `Mapper.Mapper.MapSessionAt` | internal/adapter/mapper.go:383-556 | the mutating mapper does what the step function says, for every state and snapshot |
| `MapperFrames.LastSampleMapsTo` | internal/adapter/mapper.go:383-556 | what any sample of a match is mapped to, from the samples before it: a context of the first entry of every id, nothing more when change detection finds the last mapped snapshot again, and else one frame for every usable first entry, with the right player, role, index and delta |
| `Mapper.Mapper.AdmitMatchPlayers` | internal/adapter/mapper.go:254-289 | all of a snapshot's players join the roster, or none does |
| `Mapper.MergeMatchContext` | internal/adapter/mapper.go:838-864 | the roster is a union in order of appearance; the latest team and non-empty name win |
| `MapperFrames.MergedContextIsLatest` | internal/adapter/mapper.go:791-864 | the context of a match keeps the session and start of its first snapshot, and knows of every player the team and the name of the last snapshot that told it |
| `ReplayParserProofs.FileIsSplit` | internal/adapter/replay_parser.go:511-545 | the matches of a file are the maximal runs of one effective session id (snapshots without an id stay), each mapped by a fresh mapper and listed with the merged context of its run; after an error the same holds for what was taken before it |
| `ReplayParserErrors.SplitIsUnique` | internal/adapter/replay_parser.go:511-545 | there is only one way to cut snapshots into such runs |
| `ReplayParserProofs.MatchesAreAnnounced` | internal/adapter/replay_parser.go:531-567 | NewMatch is true exactly on the first delivered tick of each match, frame indices increase strictly, and a match's delivered frames stay within the budget |
| `ReplayParserErrors.FailsExactlyWhen` | internal/adapter/replay_parser.go:482-571 | parsing fails exactly on a file with a faulty line and with the error of the first one: a roster beyond the limits, a match whose frames pass the budget, counted from its own first snapshot, or a tick that the callback refuses |
| `ReplayParserErrors.EffectIsThatOfItsLines` | internal/adapter/replay_parser.go:482-590 | the matches, the ticks and the returned context are those of the lines that took effect: all of them, or those up to the fault; the context is that of the first match, merged over its snapshots |
| `ReplayParserErrors.ReturnedMatch` | internal/adapter/replay_parser.go:575-590 | the context returned is that of the last match exactly when the reader failed before anything else did, and that of the first match otherwise |
| `ReplayParserErrors.ReadErrorReturnsTheLast` | internal/adapter/replay_parser.go:575-590 | for any two session ids, a file of two matches that ends in a read error returns the second match |
| `ReplayParser.EchoReplayParser.ParseReader` | internal/adapter/replay_parser.go:361-590 | the loop with its local state and early returns yields the specified matches, ticks, first match and error |
| `UnionFind.UnionFind.Find` | cmd/desktop/calibration_gate.go:367-373 | returns the root and compresses the path without changing any root; it ends because parents are strictly smaller ids |
| `UnionFind.UnionFind.Union` | cmd/desktop/calibration_gate.go:375-385 | merges exactly the two classes, under the smaller root |
| `DatasetSplits.UniteByPlayers` | cmd/desktop/calibration_gate.go:403-428 | afterwards two matches share a root exactly when a chain of shared, trimmed, non-empty players links them |
| `DatasetSplits.GroupedDatasetSplits` | cmd/desktop/calibration_gate.go:403-465 | the split map and the sorted assignment list are those defined from the connected components |
| `DatasetSplitsProofs.RootIsMinimum` | cmd/desktop/calibration_gate.go:357-385 | a component's root is its smallest id |
| `DatasetSplitsProofs.ConnectedShareKey` | cmd/desktop/calibration_gate.go:429-465 | connected matches share group key and split |
| `DatasetSplitsProofs.NoPlayerLeaks` | cmd/desktop/calibration_gate.go:403-465 | no player appears in two splits |
| `DatasetSplitsProofs.OrderDoesNotMatter` | cmd/desktop/calibration_gate.go:403-465 | splits and assignments do not depend on the order of the matches |
| `DatasetSplitsProofs.UnrelatedMatchesChangeNothing` | cmd/desktop/calibration_gate.go:403-465 | matches that share no player with a component leave its key and split unchanged |
| `DatasetSplitsProofs.SameKeyMeansConnected` | cmd/desktop/calibration_gate.go:446-457 | when no id contains the separator, two matches have the same key exactly if they are connected |
| `DatasetSplitsProofs.SeparatorCollides` | cmd/desktop/calibration_gate.go:446-457 | for any two player ids in order, a match of one player whose id joins the two by the separator and a match of the two themselves are unconnected but have the same key |
| `DatasetSplitsProofs.KeysApartExactlyWhen` | cmd/desktop/calibration_gate.go:446-457 | over all libraries whose ids are spelled with given characters, one of them neither a space nor the separator, separate groups never share a key if and only if the separator is not among the characters |
| `DatasetSplitsWritten.SplitsAreTwoTwoSix` | cmd/desktop/calibration_gate.go:387-398 | every stored match and no other has a split, decided by its group key: of ten hash values two are held out, two are for validation and six for training |
| `DatasetSplitsWritten.KeySpellsTheGroup` | cmd/desktop/calibration_gate.go:429-453 | the group key names the trimmed players of all connected matches, each once and in order, or else the match alone |
| `DatasetSplitsWritten.AssignmentsAreListed` | cmd/desktop/calibration_gate.go:454-465 | the assignments are listed by match id, every match as often as it is stored, with its key and split |
| `Metrics.MetricAccumulator.Add` | cmd/desktop/calibration_gate.go:95-178 | each counter moves exactly for the samples it is defined to count, and the cluster, player and match sets follow |
| `Metrics.AddedTallies` | cmd/desktop/calibration_gate.go:95-178 | an accumulator always holds exactly the counts, players, matches and cluster counts of the samples it was given |
| `Metrics.Conservation` | cmd/desktop/calibration_gate.go:95-178 | TP+FN = positives, FP+TN = negatives, current+stale = decisive, decisive+uncertain = direct+window labels |
| `ClusterRanges.DescribeClusters` | cmd/desktop/calibration_gate.go:199-242 | group counts, the largest share, observed ranges that are attained and enclose every group's rate, and macro averages that are the mean and lie within their range |
| `ClusterRanges.Finish` | cmd/desktop/calibration_gate.go:180-197 | rates are quotients of the counts where defined, and each reported interval is that of the same counts, or none without trials |
| `ReportedRates.RatesAreThoseOfTheSamples` | cmd/desktop/calibration_gate.go:180-197 | precision, recall and false rate of a report are quotients of numbers of its samples, with the interval of the same two numbers |
| `ReportedRates.RangesAreThoseOfTheClusters` | cmd/desktop/calibration_gate.go:199-242 | the observed ranges are the smallest that hold the rates of all clusters with such samples, and the macro averages are the means of these rates |
| `DetectorMetrics.SamplePredicted` | cmd/desktop/calibration_gate.go:649-660 | true exactly when an event of the detector and player overlaps the sample's frames |
| `DetectorMetrics.OverlapIsACommonFrame` | cmd/desktop/calibration_gate.go:641-660 | for ordered ranges a sample and an event of its detector and player overlap exactly when they have a frame in common |
| `DetectorMetrics.LabelsAreThoseOfTheMatch` | cmd/desktop/calibration_gate.go:721-745 | a sample counts as predicted exactly if some event of its match meets it, and as in conflict exactly if its match is quarantined |
| `DetectorMetrics.MetricsForSamples` | cmd/desktop/calibration_gate.go:721-775 | a detector is reported exactly when it has samples, and every overall, split and stratum report holds exactly its own samples |
| `PromotionProofs.PartsAddUp` | cmd/desktop/calibration_gate.go:735-748 | every overall counter is the sum over training, validation, holdout and the unreported quarantined samples |
| `PromotionProofs.StrataAddUp` | cmd/desktop/calibration_gate.go:749-758 | each stratification by ping, capture rate, quality or legal context sums to the overall counter |
| `PromotionProofs.ConflictsAreQuarantined` | cmd/desktop/calibration_gate.go:733-745 | the isolation conflicts of a detector are exactly its decisive quarantined samples |
| `PromotionProofs.EligibleCountsAreSplit` | cmd/desktop/calibration_gate.go:813-834 | an eligible detector's decisive counts are the sums over training, validation and holdout, all of current provenance and with independent evidence |
| `PromotionProofs.BoundsAreInequalities` | cmd/desktop/calibration_gate.go:835-857 | the three Wilson checks pass exactly when polynomial inequalities in the counts hold, without a root |
| `PromotionProofs.EligibleMeansBounds` | cmd/desktop/calibration_gate.go:835-857 | eligibility forces those inequalities for overall, validation and holdout, and at least 381 legitimate samples each, 563 once one is flagged |
| `PromotionProofs.FalseRateNeedsSamples` | cmd/desktop/calibration_gate.go:835-857 | the one-percent false-rate bound needs 381 samples, or 563 with a false positive |
| `PromotionGate.ApplyPromotionGate` | cmd/desktop/calibration_gate.go:801-898 | the reasons are exactly the considered ones that apply, in the source's order, and the detector is eligible exactly when none applies |
| `Dashboard.GateDetectors` | cmd/desktop/calibration_gate.go:981-987 | the table has an entry for every detector with samples or configured; only configured ones are gated, on the report of their own samples or on the zero report |
| `Dashboard.EligibleSamplesAreSplit` | cmd/desktop/calibration_gate.go:721-898 | from samples to decision: an eligible detector has no decisive sample in quarantine, and its counts are the sums over the samples of the three splits, all current and independently evidenced |
| `Dashboard.EligibleSamplesMeetBounds` | cmd/desktop/calibration_gate.go:721-898 | from samples to decision: overall, in validation and in holdout, the counts of its samples satisfy the polynomial inequalities behind the three Wilson bounds, with at least 381 legitimate samples, 563 once one is flagged |
| `Eligibility.ReasonsExactlyWhen` | cmd/desktop/calibration_gate.go:721-898 | a reason stands against a detector exactly when the gate asks for it and the samples it is about do not meet it; counts, rates, groups, shares, strata and bounds are those of the samples, with the numbers written out |
| `Eligibility.EligibleExactlyWhen` | cmd/desktop/calibration_gate.go:721-898 | a detector is eligible if and only if it is configured and its samples meet everything the gate asks for |
| `Wilson.EndsAreTheRoots` | cmd/desktop/calibration_gate.go:244-254 | for every quantile the unclamped ends are exactly the two roots of the score equation n(p-t)(p-t) = w·t(1-t), which is negative strictly between them |
| `Wilson.ClampingIsIdle` | cmd/desktop/calibration_gate.go:244-254 | over the reals clamping changes nothing, so the result is exactly what the score equation cuts out |
| `Wilson.AroundRate` | cmd/desktop/calibration_gate.go:244-254 | the interval lies in [0, 1] and encloses k/n |
| `Wilson.LowerAtLeast` | cmd/desktop/calibration_gate.go:244-254 | the lower end reaches a exactly when k/n does and a polynomial inequality holds |
| `Wilson.UpperAtMost` | cmd/desktop/calibration_gate.go:244-254 | the upper end stays within b exactly when k/n does and a polynomial inequality holds |
| `Wilson.EndsIncrease` | cmd/desktop/calibration_gate.go:244-254 | more successes in as many trials move both ends up |
| `RestoreProofs.OutcomeIsHonest` | cmd/desktop/restore_startup.go:111-193 | for every pattern of failures the restore installs the verified copy, leaves the live files exactly as found, or says they could not all be put back |
| `RestoreProofs.CrashLosesNothing` | cmd/desktop/restore_startup.go:165-192 | at every moment of a restore each original file is at its live path or in a recovery directory |
| `RestoreProofs.BootsLoseNothing` | cmd/desktop/restore_startup.go:53-193 | the same over any number of starts of the app, each with its own failures and cut off at its own moment, in the restore or in the recording of its failure |
| `RestoreProofs.RetryCompletes` | cmd/desktop/restore_startup.go:53-193 | after a start with any failures, cut off at any moment, on an applicable request: if the request is still there a start without failures installs the copy, and if it is gone the copy is installed or the failure is on record and the database untouched |
| `RestoreProofs.RetriesComplete` | cmd/desktop/restore_startup.go:53-193 | after any number of such starts: if the request is still there a start without failures installs the copy, and if it is gone one of the starts ended it, by installing the copy or by recording its failure with the live files as it found them |
| `RestoreOutcomes.RestoreIsForetold` | cmd/desktop/restore_startup.go:111-193 | for every disk and every list of errors the restore ends as the first broken operation and the files present determine, having used just as many operations |
| `RestoreOutcomes.ResultsExactlyWhen` | cmd/desktop/restore_startup.go:111-193 | which errors lead to each result: with L live files all of 11 + L operations work for a restore, the last of them breaks for a failed cleanup, and a failed rollback needs a break after the first move and a second one among the files put back |
| `RestoreOutcomes.StartIsForetold` | cmd/desktop/restore_startup.go:53-83 | the same for the conclusion of the whole start |
| `RestoreRemains.StartLeaves` | cmd/desktop/restore_startup.go:53-83 | what every start leaves of request, failure record, source index and backups, from the errors alone: after a restore index and old record are gone unless their own removal broke, and a failure on record is the record of this failure |
| `RestoreRemains.StartClearsStaging` | cmd/desktop/restore_startup.go:111-193 | a staged copy stays behind only when its own removal broke |
| `RestoreOutcomes.RecordMeans` | cmd/desktop/restore_startup.go:53-83 | what each conclusion says about the live files, as a condition on the disk, the request and the errors |
| `RestoreOutcomes.RecordMisleadsExactlyWhen` | cmd/desktop/restore_startup.go:29-83 | a record beside a changed database occurs if and only if a different database was replaced, the removal of the request was the first operation to break, and recording worked |
| `RestoreOutcomes.RecordSpeaksOfFoundFiles` | cmd/desktop/restore_startup.go:29-83 | compared with any earlier state of the disk, a start that records leaves the live files untouched if and only if it found them so, or its copy equals what they were when the removal of the request was what broke |
| `RestoreOutcomes.RecordedYetMovedAway` | cmd/desktop/restore_startup.go:111-193 | on every disk with an applicable request and a database: a start cut off after the first move, then one that cannot read the request, end with a record and the database in the recovery directory only |
| `RestoreOutcomes.StartFailsWronglyExactlyWhen` | cmd/desktop/restore_startup.go:43-83 | an error with an untouched database occurs if and only if the restore was refused (or replaced a database by its equal and could not remove the request) and writing the record or removing the request broke |
| `RestoreOutcomes.RecordedYetReplaced` | cmd/desktop/restore_startup.go:186-191 | on every disk with an applicable request, the removal as the only broken operation leaves a failure record beside the replaced database |
| `RestoreOutcomes.UnreadableRequestStopsTheStart` | cmd/desktop/restore_startup.go:74-78 | on every disk with an unreadable request, a broken write of the record fails the start with every live file untouched |
| `RestoreProofs.RollbackHolds` | cmd/desktop/restore_startup.go:166-174 | rollback puts back every file whose rename works, and all of them when all work |
| `Restore.FileSystem.ApplyPendingRestore` | cmd/desktop/restore_startup.go:111-193 | the sequence of file operations has the specified effect for every pattern of failures |
| `Restore.FileSystem.ResolvePendingRestore` | cmd/desktop/restore_startup.go:53-83 | the start's handling of the outcome has the specified effect |
| `ShutdownProofs.ShutdownMeansQuiet` | cmd/desktop/shutdown.go:49-70 | once shutdownDesktop returned true, no admitted handler, detached run or worker is running, and this holds in every state the run reaches from there |
| `ShutdownCompletes.ShutdownCanComplete` | cmd/desktop/shutdown.go:30-70 | from every reachable state in which it has not timed out, the shutdown can still return true, with every run finished, every waiting call answered and nothing cut off |
| `ShutdownCompletes.QuietCompletes` | cmd/desktop/shutdown.go:30-70 | once handlers, runs and workers are done, at most five steps lead to true |
| `ShutdownCompletes.FalseMeansTimeOut` | cmd/desktop/shutdown.go:18-70 | it returns false only by its time limit, and requests are turned away only once it has begun |
| `ShutdownSteps.StateIsItsSteps` | cmd/desktop/detached_work.go:29-65 | in every interleaving runs, calls, handlers and shutdown are as far as the steps taken say; a call is settled once, by its result or by giving up, and its handler waits in no other call and does not leave before |
| `ShutdownSteps.AdmittedExactlyBefore` | cmd/desktop/shutdown.go:18-32 | a request is served if it entered before the shutdown, and turned away otherwise |
| `ShutdownSteps.TimeOutExactlyWhile` | cmd/desktop/shutdown.go:59-69 | the time limit can make it return false exactly while it still waits for handlers or workers |
| `ShutdownProofs.SingleFlight` | cmd/desktop/detached_work.go:29-58 | at most one run for each key is in flight |
| `ShutdownProofs.ResultsAreCurrent` | cmd/desktop/detached_work.go:29-65 | a caller waits for a run that was in flight when its call began, and gets its result only after it closed |
| `ShutdownProofs.JoinedIsTrue` | cmd/desktop/detached_work.go:29-58 | in every interleaving a new call waits for the one active run of its key, and a run is started for it exactly when there was none |
| `ShutdownProofs.JoinsReturnedRun` | cmd/desktop/detached_work.go:51-55 | an interleaving in which a call joins a run whose function already returned |
| `IncidentsProofs.ComponentsExactlyWhen` | cmd/desktop/investigation_suite.go:65-107 | for any kinds of events: in every sorted list of them two events are in one incident exactly when connected, if and only if one that an earlier one reaches reaches back, and one sorted between the two is reached too |
| `IncidentsProofs.IncidentsAreComponents` | cmd/desktop/investigation_suite.go:65-107 | in the returned incidents, which hold the sorted events one after the other, two events of such kinds are in the same incident exactly when a chain of events of their player with gaps of at most 20 frames connects them |
| `IncidentsProofs.ExplicitIsAdmitted` | cmd/desktop/investigation_suite.go:67-78 | events whose range is given and ends no earlier than it starts are such kinds |
| `IncidentsProofs.FoundAtPlace` | cmd/desktop/investigation_suite.go:79-99 | event number i of the sorted order is found at its own position in the incident that was being built when it was merged |
| `IncidentsProofs.IncidentsAreHulls` | cmd/desktop/investigation_suite.go:86-99 | when no range ends before it starts and each player's events come in the order of their starts, as explicit ranges do, an incident's range is the hull of its events' ranges |
| `IncidentsProofs.ConsecutiveAreApart` | cmd/desktop/investigation_suite.go:79-90 | consecutive incidents of a player are more than 20 frames apart |
| `IncidentsProofs.EventsArePartitioned` | cmd/desktop/investigation_suite.go:65-107 | every event is in exactly one incident, whatever its range |
| `IncidentsProofs.IncidentsReport` | cmd/desktop/investigation_suite.go:92-105 | severity is the highest one and at least 0, confidence sums over the incident's events, and its detectors are theirs, each once |
| `IncidentsReturned.ReturnedIncidents` | cmd/desktop/investigation_suite.go:65-107 | the returned incidents hold the events one after the other; each starts with its first event, ends with the latest end and sums up its own events, with the mean confidence and its detectors in order, each once; consecutive ones of a player are more than 20 frames apart |
| `IncidentsReturned.ReturnedHulls` | cmd/desktop/investigation_suite.go:65-107 | for explicit ranges every returned incident is the hull of its own events |
| `IncidentsProofs.FallbackBreaksComponents` | cmd/desktop/investigation_suite.go:67-78 | two events 994 frames apart that become one incident, because one has no range |
| `Incidents.BuildIncidents` | cmd/desktop/investigation_suite.go:65-107 | the loops yield the specified incidents of some sorted rearrangement of the events |
| `AppLogProofs.ReadingIsOrdered` | cmd/desktop/app_log.go:70-106 | whatever fails, the generations read from oldest to current hold whole accepted writes in order, none repeated |
| `AppLogProofs.ReadingIsSuffix` | cmd/desktop/app_log.go:70-106 | as long as renames work, whatever else fails, they are exactly the last accepted writes without a gap |
| `AppLogPieces.GenerationsArePieces` | cmd/desktop/app_log.go:70-106 | when every file operation works, every write is accepted and generation k is the k-th piece from the end of all writes, cut where the next write would have passed the limit: a rotation drops the oldest generation only |
| `AppLogProofs.SizesAreBounded` | cmd/desktop/app_log.go:76-89 | as long as the rename of the current file works, every file is within the limit or holds one oversized write |
| `AppLogProofs.LimitBreaksExactly` | cmd/desktop/app_log.go:76-105 | one accepted write breaks the limit exactly when a rotation was due, that rename failed and the write was not empty |
| `AppLogProofs.FailedRenameBreaksTheLimit` | cmd/desktop/app_log.go:99-105 | two writes of three bytes under a limit of four end in one file |
| `AppLogProofs.SilencedExactlyWhen` | cmd/desktop/app_log.go:70-106 | a usable log falls silent in one write exactly when a rotation was due and its close failed, or the rename or the opening failed and the file could not be opened again either |
| `AppLogProofs.SilentForever` | cmd/desktop/app_log.go:70-106 | once silent, every later write is refused and nothing changes, whatever works from then on |
| `AppLogProofs.FailedCloseSilencesTheLog` | cmd/desktop/app_log.go:76-96 | two writes, the second with a failing close, after which no further line is ever taken |
| `AppLog.RotatingLog.Write` | cmd/desktop/app_log.go:70-89 | the write with its rotation has the specified effect for every pattern of failures |

## Left out

- The `connected` flag that `drain` and `waitForAcks` read, and the timers of both.
- WsSender.Link.DeliverNext: an uninterrupted call; so are the other methods of that class, and interleavings are the subject of `Sender`.
- Age of the in-flight count, ping writing and the ack timeout: a connection may be dropped at any time instead.
- Widths of the int64 counters of the bridge: they are unbounded here.
- An exact count of sent frames once an ack settles more than is in flight: the code clamps the count there, so they are then bounded from above only.
- FNV and body hashes, change-detection fingerprints and the choice of the local player: parameters of the models.
- Floating-point rounding: Wilson intervals and rates are real numbers, timestamps are integer nanoseconds whose next value is + 1.
- The square root: a parameter that is a root at the points where the interval needs it.
- DetectorMetrics.MetricsForSamples: works on values, so the sharing of accumulators through pointers in maps is not captured.
- How review labels and windows become samples, and the storage side of dataset isolation: the samples and splits are inputs.
- Wording of the gate's reasons: each reason is a name, in the order of the source.
- Team names, user-id formats, positions, rotations and the disc of a snapshot: a team comes with its role, an entry with its id and whether it can be mapped.
- Native tape records, ZIP entries, line limits and JSON decoding of recordings: lines come decoded, the byte-order mark and separators included.
- Pointers from the list of matches to the context being merged: the list's last entry is replaced instead.
- Epoch.EpochRegistry.Get: returns the value of the epoch, so a poller that keeps an expired epoch's pointer and stamps through it is not captured.
- Whether the send queue takes a poller's batch: a batch that the full queue refuses still counts as a batch of the trace.
- Poll timers, status ticks and logging.
- Path resolution and the check that a backup lies in the backup directory: a request decodes to one of four documents.
- Files are moved and replaced atomically by a rename; a rename that fails changes nothing; temporary directories are always new.
- Handlers other than their calls of `runDetached`; runs are started by admitted handlers only, as in `cmd/desktop/telemetry_health.go:36` and `cmd/desktop/investigation_cache.go:65`.
- Start and end times and player names of incidents.
- Writes to the log that store only part of a text, and log files that exist before the log is opened.
- HTTP handlers, storage, rendering, the Nakama client, detectors and feature extraction.
