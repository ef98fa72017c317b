# droneOS: a model of its protocols, and proofs about it

droneOS is a base station, drones, and a tool that loads files onto a drone over its serial
console. This project models the parts of it that are hard to get right, in Dafny, and
proves what they are for. Every file is one module.

**The radio.** `Frames` says what a frame is and gives the reference, `Scan`, which splits a
whole byte stream. `Receiver` gives one call of the driver's `Receive` on values and proves
that any run of calls, however the port cuts the stream into reads and whatever errors it
mixes in, delivers what `Scan` finds. `LoRaHat` is the driver itself: one array of 65 540
bytes, two cursors, compaction in place; its `Receive` is proved equal to the one on values.
`Codec` is the length-prefixed message codec and its agreement with the scanner. `Resync`
says how a receiver that starts in the middle of a transmission finds its footing.

**Talking over the radio.** `RadioTransport` is the polling request, `KeepAlive` one tick of
the drone's keepalive and the base's receive loop as they are coded, `Handlers` the dispatch
table, `RadioStack` puts both on top of the driver, from the reply to a request down to the
bytes on the port, and `RadioLoop` is the step system of any number of drones and one base on
a shared, lossy, reordering, noisy channel. `RadioRounds` follows each ping of a drone through
that system to the pong that answers it.

**Controller commands.** `ControllerQueue` is the bounded queue, the handler of one TCP
request, and one iteration of the drone's poller. `ControllerRuns` is the step system of
handlers and drones in which requests, replies and handlers may be given up on at any time,
and in which only what encodes is ever sent.

**The lock.** `PriorityMutex` is the hand-off lock as a class, refining one ordered list of
waiters. `LockRuns` has any number of threads use it in every interleaving.

**The serial console.** `Text` searches text and parses the status line, `SerialRunner` is
the reader with its bounded buffer, `ShellWords` is quoting and the tokens that the shell
makes of a line, `EchoImmunity` the set-up line and its markers, `Base64` and `LineWriter` the
payload, `HereDocument` what the shell makes of the payload. `RemoteShell` has the commands
that begin, end and undo an upload as trees, writes them as text and executes them;
`ShellSpelling` and `ShellGrammar` read that text back, first as tokens, then as the tree it
came from; `ShellCuts` and `CutCommands` read what is left of it after a failed write. `Console` is what the terminal shows while they run, and what the reader makes of
it. `Upload` is the remote end during a conversation, `UploadClient` the client with its
deferred clean-up, and `BrokenOff` says what a client that gives up attempts, what arrives of
it, and what that leaves behind.

**Real time.** `Realtime` sets up and restores a thread's scheduling over system calls that
may each fail.

`Options`, `Seqs`, `Bytes` and `Contexts` are shared. Code that changes state in place is a class or a
method with a loop; its contract ties the new state to a function on values, and the theorems
are about those functions. `dafny verify dfyconfig.toml` checks everything.

## What the proofs brought to light

Seven expectations that a reader of the code may have do not hold. Each is settled by a
condition that is exact, in both directions, and by an input or a run that fails it.

- An upload may name a directory: the client refuses only an empty path, a NUL, a trailing
  slash, `.` and `..`. Then `mv` puts the file inside it under its temporary name, the status
  is 0 and the client succeeds. `Upload.ZeroMeansInstalled` and `UploadClient.RunUpload`:
  success means that the file is at its destination if and only if that is not a directory.
  `Upload.DirectoryAccepted` is an upload to `/opt` that reports success and installs nothing.
- A control algorithm gets its place in the list plus one as its priority, but `Unlock` looks
  at 1 to 10 only. `LockRuns.GrantedExactlyWhen`: a waiter gets the lock in some continuation
  if and only if its priority is one of these; `LockRuns.UnservedForGood`: otherwise it waits
  in every continuation. `LockRuns.EleventhIsStranded` shows two threads that get there.
- A receiver that joins inside a frame's header may take payload bytes for a length.
  `Resync.JoinExactlyWhen` says for which lengths and positions exactly the following frames
  are delivered, `Resync.LateByOneIsDeaf` how long the receiver can be deaf otherwise.
- A keepalive round does not know which ping its pong answers.
  `RadioRounds.AnswersItselfExactlyWhen`: it is sure to be this round's if and only if no ping
  and no pong of the drone is under way when the round begins. `RadioLoop.FreshExactlyWhen` says
  when all later pongs are covered, one for one, by new receptions at the base;
  `RadioLoop.StaleRun` is a run in which one is not.
- An accepted controller command may never reach its drone. The queue takes any command, but
  the reply with it must marshal and fit a frame. `ControllerRuns.AcceptedExactlyWhen`: as long
  as no drone has it, it can still be received if and only if it is queued and, for some drone,
  the poll and the reply with the command encode, or it is on offer to a connection on which its
  drone still waits and the reply encodes. `ControllerRuns.CommandLost` is a run of four steps
  that loses one to a poll that was given up, `ControllerRuns.OversizedLost` a run of one step
  that loses one to its size. `ControllerRuns.LoggableExactlyWhen` is the same for the
  acknowledgement, which may be too large when the command is not. `ControllerRuns.AllHappens`
  exhibits runs in which these things happen.
- `Validate` does not confirm that a configuration can be applied. `Realtime.SetupExactlyWhen`:
  it is applied if and only if no system call of the set-up fails and the CPU, if one is named,
  is within the mask of 1024 and online. `Realtime.AbsentCpu` is CPU 4 on a machine with four.
- Without a `Report`, which `New` does not insist on, a fault may reach nobody.
  `Realtime.ToldExactlyWhen`: every fault is returned or reported if and only if the run is
  strict, or there is a `Report`, or the set-up did not fail. `Realtime.FaultUntold` is such a
  fault.

The deferred clean-up of an upload mends a payload that a failed write cut off, because the
line writer sends the broken line again (`BrokenOff.BrokenOffCleans`), but not a delimiter:
the one sent again ends a longer line, and the document swallows the clean-up command too
(`BrokenOff.CutDelimiterStaysOpen`).

The shell check after login is not protected against echo as the set-up lines are:
`EchoImmunity.ConfirmationIsEchoed`. The README of droneOS (line 376) calls the radio's log
evidence causal. `RadioLoop.Causality` proves that, per drone and as counts; the fourth item
above says what it does not mean.

## Model

| member | source | states |
|---|---|---|
| Bytes.Uint32OfPut | internal/protocol/codec.go:23 | reading back a big-endian length that was written gives the length |
| Bytes.PutOfUint32 | internal/drivers/radio/SX1262/main.go:169 | writing a length that was read gives the same four bytes |
| Frames.FoundIsFrame | internal/drivers/radio/SX1262/main.go:167-189 | what the search delivers is exactly one plausible header and the payload it announces, of 1 to 65536 bytes |
| Frames.NeedMoreMeans | internal/drivers/radio/SX1262/main.go:167-178 | when nothing is found, less than a header or an incomplete plausible frame is left, and searching again changes nothing |
| Frames.NoStall | internal/drivers/radio/SX1262/main.go:34-35 | a search that needs more bytes leaves room for at least one in the buffer |
| Frames.NextFrameAppend | internal/drivers/radio/SX1262/main.go:167-193 | bytes that arrive later never change what was found |
| Frames.ScanAppend | internal/drivers/radio/SX1262/main.go:167-193 | scanning can stop anywhere in a stream and go on from the undecided bytes |
| Frames.AccountsConserve | internal/drivers/radio/SX1262/main.go:167-193 | an account of skipped bytes, whole frames and a rest spells exactly the stream |
| Frames.AccountsMeanScan | internal/drivers/radio/SX1262/main.go:167-193 | every such account, in which a byte is skipped only at an impossible header, has exactly the scanned frames |
| Frames.AccountExists | internal/drivers/radio/SX1262/main.go:167-193 | every stream has one |
| Receiver.ReadConserves | internal/drivers/radio/SX1262/main.go:153-156 | reads lose, invent and reorder no byte |
| Receiver.OutcomeIs | internal/drivers/radio/SX1262/main.go:147-165 | one call returns a frame that is already buffered, without a read; otherwise an error exactly if the port answers with one that fits the room left; otherwise the first frame of all the bytes exactly if they hold one; otherwise nothing |
| Receiver.Receive | internal/drivers/radio/SX1262/main.go:147-165 | one call never leaves more than the array can hold |
| Receiver.ReceiveRefinesScan | internal/drivers/radio/SX1262/main.go:147-165 | frames delivered by one call, then a scan of the buffer, are the scan of what was buffered and taken |
| Receiver.StepKeepsScan | internal/drivers/radio/SX1262/main.go:147-165 | one call keeps all bytes read and all frames returned so far in agreement with the scan |
| Receiver.RunRefinesScan | internal/drivers/radio/SX1262/main.go:147-202 | the same over any run of calls, with every byte taken accounted for |
| Receiver.EveryFrameDelivered | internal/drivers/radio/SX1262/main.go:147-202 | calling often enough delivers exactly the frames of the whole stream, whatever errors came in between |
| Receiver.EveryFailureReported | internal/drivers/radio/SX1262/main.go:157-159 | calling often enough reports every error of the port, each once, and no other |
| Receiver.RunKeepsFailures | internal/drivers/radio/SX1262/main.go:157-159 | over any run, errors reported and errors still to come are those of the port |
| Receiver.ChunkingIndependent | internal/drivers/radio/SX1262/main_test.go:73-130 | two ways of cutting the same bytes into reads deliver the same frames |
| LoRaHat.LoRaHAT.constructor | internal/drivers/radio/SX1262/main.go:38-46 | a new driver holds an empty buffer of its own |
| LoRaHat.LoRaHAT.Receive | internal/drivers/radio/SX1262/main.go:147-165 | outcome, buffered bytes and what is left on the port are those of the call on values |
| LoRaHat.LoRaHAT.Fill | internal/drivers/radio/SX1262/main.go:152-156 | after compaction the read goes behind the buffered bytes, and all of the free array is offered to it |
| LoRaHat.LoRaHAT.NextFrame | internal/drivers/radio/SX1262/main.go:167-193 | the loop over the array finds the first frame, or none, and leaves the bytes that the search on values leaves |
| LoRaHat.LoRaHAT.CompactReceiveBuffer | internal/drivers/radio/SX1262/main.go:195-202 | moving the bytes to the front of the array keeps them |
| Codec.DecodeEncode | internal/protocol/codec.go:13-48 | an encoded message decodes to itself, and what follows it is left unread |
| Codec.EncodeExactlyWhen | internal/protocol/codec.go:13-26 | a message is refused exactly if it does not marshal, or if its text exceeds 65536 bytes |
| Codec.DecodeExactlyWhen | internal/protocol/codec.go:28-48 | for every announced length and whatever follows: refused exactly if it is not from 1 to 65536, incomplete exactly if less follows, otherwise the payload decides; what is left unread |
| Codec.ShortExactlyWhen | internal/protocol/codec.go:28-32 | reading the length fails exactly on less than four bytes |
| Codec.ScanInvertsFraming | internal/protocol/codec.go:22-25 | a stream of framed payloads is cut exactly where it was joined, with nothing held back |
| Codec.FramesSuitDecoder | internal/protocol/codec.go:28-52 | a delivered frame never fails the decoder's length checks and leaves no byte over |
| Codec.MessagesSurvive | internal/protocol/codec.go:13-52 | messages encoded, sent as one stream, scanned and decoded come back as they were |
| Codec.EncodeMessage | internal/protocol/codec.go:13-26 | the buffer filled in place holds the encoded message; a message too large, or one that does not marshal, is refused |
| Codec.DecodeMessage | internal/protocol/codec.go:28-48 | the stepwise reader gives the result, and leaves the unread bytes, of decoding on values |
| Resync.NonZeroIsImplausible | internal/drivers/radio/SX1262/main.go:169-172 | four bytes that start with a non-zero one cannot head a frame |
| Resync.NoiseSkipped | internal/drivers/radio/SX1262/main.go:167-173 | non-zero noise before a frame is skipped whole |
| Resync.JoinInPayload | internal/drivers/radio/SX1262/main.go:167-193 | joining anywhere inside a zero-free payload delivers exactly all following frames |
| Resync.JoinInHeader | internal/drivers/radio/SX1262/main.go:167-193 | joining inside a header, in front of another plausible header, skips the bytes of the broken frame and no others if and only if the header's tail is harmless |
| Resync.HarmlessJoinDelivers | internal/drivers/radio/SX1262/main.go:167-193 | in the harmless case exactly all following frames are delivered |
| Resync.JoinExactlyWhen | internal/drivers/radio/SX1262/main.go:167-193 | a receiver that joins inside a header delivers exactly all following frames if and only if the header's tail is harmless |
| Resync.LateByOneIsDeaf | internal/drivers/radio/SX1262/main.go:167-178 | one byte late for a payload under 256 bytes, and nothing is delivered until 256 times its length has come in |
| RadioTransport.WithinBound | internal/protocol/transport.go:70-97 | another poll keeps the bound, timeout over interval rounded down plus two, as long as all sleeps but the last fit the timeout |
| RadioTransport.Send | internal/protocol/transport.go:58-105 | at most that many polls, each after one look at the context, and none once it is done; the first non-empty frame decides and is never discarded; no byte of the link is skipped; a timeout is reported only after the deadline |
| RadioTransport.Poll | internal/protocol/transport.go:76-104 | the same for the loop alone, with its deadline given |
| RadioTransport.EffectiveRetry | internal/protocol/transport.go:71-74 | the interval is the one configured, or 50 milliseconds if that is not positive |
| Handlers.DispatchCauses | internal/protocol/main.go:15-66 | only a ping makes a pong, only a debug_log makes its acknowledgement, and only for the drone that sent it |
| Handlers.DispatchExactlyWhen | internal/protocol/main.go:60-66 | five commands are answered and no others, to whoever asked, under the same name but for next_command |
| KeepAlive.KeepAliveRound | cmd/drone/main.go:500-563 | how a round ends is what the frames read justify; the confirmation goes out only after the drone's own pong was decoded; a failure has one of the failing causes |
| KeepAlive.ServeRadio | internal/protocol/radio.go:12-79 | the base sends exactly the answers to the reads it served, in order, counts failures, and looks at its context before each read, never reading once it is done |
| KeepAlive.FailuresSince | internal/protocol/radio.go:21-39 | the count is that of the failed reads since the last frame; empty reads neither count nor end it |
| KeepAlive.ServeFrame | internal/protocol/radio.go:41-71 | one frame causes its answer or nothing |
| KeepAlive.AnswersWhatWasSent | internal/protocol/radio.go:41-71 | a message that arrives whole is answered by its own handler's reply |
| KeepAlive.ExchangeConfirms | cmd/drone/main.go:503-563 | what the base answers to ping and confirmation is what the drone accepts, end to end |
| RadioStack.FirstAnswer | internal/drivers/radio/SX1262/main.go:147-165 | however the port cuts the stream, the first read of the link that is not idle gives the first frame of the bytes not yet delivered, and loses none behind it |
| RadioStack.RequestTakesNextFrame | internal/protocol/transport.go:58-105 | the reply that a request returns, or fails to decode, is the first frame of the bytes that were not yet delivered |
| RadioStack.FailuresSeen | internal/drivers/radio/SX1262/main.go:157-159 | the failed reads that a requester or the base sees are the errors of the port, as far as it was read |
| RadioStack.ServesDelivered | internal/protocol/radio.go:12-79 | over any run the base answers the frames that the driver delivered, in order, and nothing else |
| RadioStack.BaseAnswersStream | internal/protocol/radio.go:12-79 | when the port is exhausted the base has answered exactly the frames of the whole byte stream |
| RadioLoop.SlackGrows | cmd/drone/main.go:490-566 | no step of any drone, the base or the channel lets a stage catch up by more than the stage before it has moved |
| RadioLoop.RunSlack | cmd/drone/main.go:490-566 | nor does any run |
| RadioLoop.Causality | README.md:376 | in every reachable state, per drone: rounds confirmed, acknowledgements sent, confirmations received, confirmations sent, pongs taken, pongs sent, pings received, pings sent, each at most the next |
| RadioLoop.HearDecides | cmd/drone/main.go:507-563 | only its own pong makes a drone go on and only its own acknowledgement confirms the round; anything else ends it |
| RadioLoop.SendDecides | cmd/drone/main.go:500-549 | a drone waits for an answer exactly if sending reported no error; what has gone on the air counts, whatever was reported |
| RadioLoop.EveryoneElseHears | README.md:376 | what a drone sends reaches the base and every other drone, what the base sends every drone |
| RadioLoop.GivesUp | cmd/drone/main.go:507-513 | whoever waits can give up and begin another round |
| RadioLoop.StretchBounded | cmd/drone/main.go:507-527 | in any stretch of a run a drone takes no more pongs than pings received in it plus the pongs there at its start |
| RadioLoop.StaleRun | cmd/drone/main.go:507-528 | a pong that was there before is taken for the answer to a new ping |
| RadioLoop.RoundCompletes | cmd/drone/main.go:490-566 | from every state, whatever is in the air, an idle drone can complete a confirmed round |
| RadioLoop.FreshExactlyWhen | cmd/drone/main.go:507-528 | an idle drone's later pongs are all covered by new receptions at the base if and only if none is waiting for it |
| RadioRounds.EveryStepMoves | cmd/drone/main.go:490-566 | every step that the system can take can be followed with the rounds of its pings and pongs |
| RadioRounds.MoveKeepsAgreement | cmd/drone/main.go:490-566 | the rounds kept are those of exactly the pings and pongs that are under way |
| RadioRounds.AnswersItselfExactlyWhen | cmd/drone/main.go:503-528 | in every continuation a pong taken in a round answers the ping of that round if and only if no ping and no pong of the drone was under way when the round began |
| ControllerQueue.Channel.Enqueue | internal/protocol/controller.go:26-33 | a command is accepted exactly when fewer than 100 wait, and goes to the end |
| ControllerQueue.Channel.Next | internal/protocol/controller.go:35-48 | the oldest command is taken out and marshaled, or nothing is taken and the data is empty |
| ControllerQueue.TcpHandler | internal/protocol/main.go:69-106 | one connection takes at most one command, only for a well-formed next_command, logs at most one acknowledgement, and writes the framed reply or nothing |
| ControllerQueue.PollOnce | cmd/drone/main.go:287-332 | one poll; then, only for a command that was read, one acknowledgement of it |
| ControllerQueue.LoggedExactlyWhen | internal/protocol/controller.go:50-74 | an acknowledgement is logged exactly if there is one and it was understood, and the answer says which |
| ControllerQueue.CommandSurvives | internal/protocol/controller.go:35-74 | a command goes through handler, reply, drone and acknowledgement unchanged |
| ControllerQueue.ReadExactlyWhenWritten | internal/protocol/main.go:93-105 | a reply is read back if and only if it encodes; otherwise the reader fails on the length |
| ControllerQueue.CommandCrossesExactlyWhen | internal/protocol/codec.go:13-26 | in bytes, from the handler to the drone: the command is taken out if and only if it marshals and its reply encodes |
| ControllerQueue.AckCrossesExactlyWhen | cmd/drone/main.go:311-330 | the acknowledgement is logged if and only if it encodes |
| ControllerQueue.JsonExists | internal/protocol/codec.go:13-26 | for every command there is JSON that reads back and under which poll, reply and acknowledgement encode, and JSON under which the command has any given text too long for a frame |
| ControllerQueue.NothingToTake | cmd/drone/main.go:300-304 | no command, or one that does not marshal, gives the drone nothing to take |
| ControllerRuns.StepKeepsInv | internal/protocol/controller.go:23-48 | every step of handlers, drones and channel keeps the bookkeeping of queue, offers, deliveries and acknowledgements |
| ControllerRuns.WriteEnds | internal/protocol/main.go:100-105 | a write ends the connection and changes no queue and no log; only if it arrives is the drone free again, perhaps to acknowledge |
| ControllerRuns.DropEnds | internal/protocol/main.go:69-78 | a request that never arrives ends its connection and changes nothing else |
| ControllerRuns.HandedOnce | internal/protocol/controller.go:23-48 | in every reachable state accepted is dequeued then queued, at most 100 wait, every command went to one connection, no connection took two, and no two drones have the same one |
| ControllerRuns.ReceivedInOrder | cmd/drone/main.go:277-335 | what a drone has received is a subsequence of what was accepted, in order |
| ControllerRuns.PicksSubsequence | cmd/drone/main.go:277-335 | increasing positions pick out a subsequence |
| ControllerRuns.LoggedWasReceived | internal/protocol/controller.go:50-74 | acknowledgements logged are a sub-multiset of commands received, per drone |
| ControllerRuns.OfferIsNew | internal/protocol/controller.go:35-42 | a command on offer has not been acknowledged by anybody |
| ControllerRuns.UndeliveredIsLost | internal/protocol/main.go:100-105 | when the reply with a command fails to be written, nobody receives the command, whatever follows |
| ControllerRuns.DeliveryCompletes | cmd/drone/main.go:287-332 | from every state, whatever handlers hang about, a drone can get the next command and have its acknowledgement logged, if its poll, the reply and the acknowledgement encode |
| ControllerRuns.MissedForGood | internal/protocol/main.go:100-105 | a command whose connection ended without delivery is received by no drone in any continuation |
| ControllerRuns.DeliverableExactlyWhen | internal/protocol/main.go:69-106 | a command on offer is received in some continuation if and only if its drone still waits on that connection and the reply marshals and encodes |
| ControllerRuns.QueuedExactlyWhen | internal/protocol/controller.go:35-48 | a queued command is received in some continuation if and only if there is a drone whose poll encodes and for which the reply with it marshals and encodes |
| ControllerRuns.AcceptedExactlyWhen | internal/protocol/controller.go:23-48 | so for every accepted command that nobody has: queued with such a drone, or on offer, with such a reply, to a connection that is still awaited |
| ControllerRuns.TakenTooLate | cmd/drone/main.go:292-299 | a command taken by the handler of a poll that was given up is received in no continuation |
| ControllerRuns.CommandLost | cmd/drone/main.go:292-299 | for every drone that can poll, a run of four steps after which an accepted command is in no queue and can never arrive |
| ControllerRuns.OversizedLost | internal/protocol/codec.go:18-20 | a command whose text exceeds 65536 bytes is accepted, is received in no continuation, and makes the handler write nothing |
| ControllerRuns.LoggableExactlyWhen | internal/protocol/controller.go:50-74 | the acknowledgement of a queued command is logged in some continuation if and only if there is a drone that can poll, that it can be carried to, and that can send the acknowledgement |
| ControllerRuns.AllHappens | cmd/drone/main.go:287-332 | none of this is empty: for every command there is JSON with a run that delivers it and logs its acknowledgement and one that loses it, and JSON with a run that accepts it, too large for a frame, for good |
| PriorityMutex.EnqueueEffect | internal/drone/control/main.go:28-34 | a newcomer is inserted behind its equals in the one ranked list, or is invisible outside 1 to 10 |
| PriorityMutex.DequeueTakesHead | internal/drone/control/main.go:48-58 | removing the first waiter of the first non-empty queue takes the head of the ranked list |
| PriorityMutex.PriorityMutex.constructor | internal/drone/control/main.go:14-18 | a new lock is free and nobody waits |
| PriorityMutex.PriorityMutex.Lock | internal/drone/control/main.go:20-35 | the lock is acquired if it was free; otherwise the caller is queued and the lock stays taken |
| PriorityMutex.PriorityMutex.Unlock | internal/drone/control/main.go:41-65 | the lock is handed to the head of the ranked list, which leaves it, or is freed when the list is empty |
| LockRuns.StepKeepsInv | internal/drone/control/main.go:20-65 | every critical section and every wake-up keeps waiters, channels and owner in agreement |
| LockRuns.Safety | internal/drone/control/main.go:20-65 | in every reachable state: one holder at most, isLocked exactly when somebody owns the lock, no channel closed twice, and nobody waiting at 1 to 10 when it is free |
| LockRuns.GrantOrder | internal/drone/control/main.go:48-62 | a release goes to a waiter, and to none that ranks behind another |
| LockRuns.SmallerGoesFirst | internal/drone/control/main.go:43-66 | for any two priorities from 1 to 10, runs from an initial state in which the waiter at the smaller number gets the lock first, though it came last, and then the other |
| LockRuns.StrandedExactlyWhen | internal/drone/control/main.go:45-64 | a release leaves the lock free if and only if no waiter waits at 1 to 10 |
| LockRuns.UnservedForGood | internal/drone/control/main.go:48-64 | a waiter outside 1 to 10 waits after every continuation, on the same channel |
| LockRuns.GrantedExactlyWhen | internal/drone/control/main.go:41-65 | in every reachable state some continuation gives a waiter the lock if and only if its priority is from 1 to 10 |
| LockRuns.EleventhIsStranded | cmd/drone/main.go:610-622 | a run in which the lock ends up free and the eleventh algorithm waits after every continuation |
| LockRuns.Rank | internal/drone/control/main.go:48-62 | the rank of a waiter is its position in the ranked list |
| LockRuns.RankMoves | internal/drone/control/main.go:20-65 | one step moves a waiter back only for a newcomer with a smaller number, and forward at every release |
| LockRuns.BoundedOvertaking | internal/drone/control/main.go:20-65 | over any stretch: releases while waiting are at most the waiters ahead plus the callers with smaller numbers |
| Text.IndexStable | cmd/dev/pi_runner/main.go:858 | the first occurrence stays the first whatever arrives later |
| Text.NextLineStable | cmd/dev/pi_runner/main.go:858-872 | so does a complete line |
| Text.StatusStable | cmd/dev/pi_runner/main.go:852-874 | a status once read stays the same whatever arrives later |
| Text.StatusUnique | cmd/dev/pi_runner/main.go:852-874 | all parts of a stream that show a status show the same one |
| Text.StatusOfFirstLine | cmd/dev/pi_runner/main.go:862-872 | a complete line decides if it is a number and is passed over if it is not |
| Text.StatusBehind | cmd/dev/pi_runner/main.go:852-874 | a numeric status line at the beginning of a line is the one that counts, however much of the text in front is still there, if none comes before it |
| Text.NoneMeansNoStatus | cmd/dev/pi_runner/main.go:857-861 | no part of a text without the marker shows a status |
| Text.AtoiOfDecimal | cmd/dev/pi_runner/main.go:867-870 | a status that is printed is read back |
| Text.AtoiExactlyWhen | cmd/dev/pi_runner/main.go:867 | a text is read as a number exactly if it is an optional sign and digits, and as which, if that fits 64 bits |
| Text.Trimmed | cmd/dev/pi_runner/main.go:867 | trimming takes all white space off both ends and nothing else |
| Text.NoNumber | cmd/dev/pi_runner/main.go:867-871 | a line that holds any character but digits, signs and white space is no number |
| Text.OddLinePassed | cmd/dev/pi_runner/main.go:867-871 | such a line behind the marker is passed over |
| Text.TemplateSkipped | cmd/dev/pi_runner/main_test.go:638-655 | an echoed template is skipped and the status printed behind it is read, for every status below 2^63 |
| Text.EchoIsNoStatus | cmd/dev/pi_runner/main.go:852-871 | a line that ends in a character foreign to numbers and marker shows no status, wherever markers stand in it |
| SerialRunner.SurvivesTrimming | cmd/dev/pi_runner/main.go:937-950 | a text survives trimming if and only if it and what came after it fit the buffer |
| SerialRunner.FoundAtItsRead | cmd/dev/pi_runner/main.go:893-917 | a text of at most 64513 characters is in the buffer when the read that completes it returns |
| SerialRunner.StatusNotMissed | cmd/dev/pi_runner/main.go:852-891 | on streams of any length: the first status line, if it begins a line and has at most 64513 characters with its marker, is the status that is read, and no search after its completion fails |
| SerialRunner.SerialRunner.Append | cmd/dev/pi_runner/main.go:920-951 | the buffer is always the last 65536 characters appended since the reset; a failing mirror keeps the data out |
| SerialRunner.SerialRunner.Expect | cmd/dev/pi_runner/main.go:893-918 | a match is real; no needle that was completed since the call has been missed; everything read is appended; each error has its cause; every error of the port ends the wait and is reported, and no other |
| SerialRunner.SerialRunner.ScanStatus | cmd/dev/pi_runner/main.go:855-873 | the scan with its offset stays in bounds, ends, and reads the status of the buffer |
| SerialRunner.SerialRunner.WaitExitStatus | cmd/dev/pi_runner/main.go:852-891 | every read is followed by a search, all but the last of which have failed; the status is what the last one shows, and while the output fits the buffer that of the whole stream; every error of the port ends the wait and is reported, and no other |
| SerialRunner.SerialRunner.Reset | cmd/dev/pi_runner/main.go:953-955 | starts the stream afresh |
| ShellWords.QuoteIsOneWord | cmd/dev/pi_runner/main.go:1023-1025 | a quoted value adds exactly the value to the word being read, wherever it stands |
| ShellWords.QuoteInverted | cmd/dev/pi_runner/main.go:1023-1025 | the shell reads a quoted value as that one word if and only if it holds no NUL |
| ShellWords.QuoteAllInverted | cmd/dev/pi_runner/main_test.go:623-636 | quoted values with blanks between come back as the list they were |
| ShellWords.CommandReads | cmd/dev/pi_runner/main.go:705-721 | a line of bare words, quoted values, expansions and substitutions, with `;` and `&&`, reads as exactly those |
| ShellWords.HeaderReads | cmd/dev/pi_runner/main.go:652 | whatever the path and the delimiter, the header redirects base64 -d into that path, from a document that ends at that delimiter |
| ShellSpelling.TextReads | cmd/dev/pi_runner/main.go:705-721 | the text of every tree reads as the tokens of that tree, whatever stands in its quoted values |
| ShellSpelling.CleanupReads | cmd/dev/pi_runner/main.go:719-721 | whatever the path, the clean-up removes that path and no other, then turns echo on |
| ShellGrammar.ReadsBack | cmd/dev/pi_runner/main.go:705-721 | parsing the text of a tree gives the tree back |
| ShellGrammar.FinishReadsBack | cmd/dev/pi_runner/main.go:705-717 | so for the finish command, whatever the paths and the digest |
| ShellGrammar.SetUpReadsBack | cmd/dev/pi_runner/main.go:629-635 | so for the set-up line: if echo can be turned off print the halves of the ready marker, else those of the failed one |
| ShellGrammar.CleanUpReadsBack | cmd/dev/pi_runner/main.go:719-721 | so for the clean-up command, whatever the path |
| EchoImmunity.EchoImmune | cmd/dev/pi_runner/main.go:524-534 | the set-up line contains neither marker, for either prefix and every quote-free token |
| EchoImmunity.PrefixesInUse | cmd/dev/pi_runner/main.go:629-635 | the prefixes of exec and upload are such prefixes |
| EchoImmunity.UploadMarkers | cmd/dev/pi_runner/main.go:602-605 | the markers that the prefixes make of a token |
| EchoImmunity.AnswerIsUnambiguous | cmd/dev/pi_runner/main.go:524-542 | what printf prints contains exactly the marker that was meant |
| EchoImmunity.ConfirmationIsEchoed | cmd/dev/pi_runner/main.go:841-850 | the line that asks for the login marker contains it |
| Base64.DecodeEncode | cmd/dev/pi_runner/main.go:725 | decoding inverts encoding, section 4 of RFC 4648 |
| Base64.EncodeDecode | cmd/dev/pi_runner/main.go:725 | a text that a strict decoder accepts is the encoding of what it decodes to, so that no other text is accepted for it; unused bits are zero |
| Base64.DigitIs | cmd/dev/pi_runner/main.go:725 | the digits are the letters, numerals and signs of the standard alphabet, in its order |
| Base64.GroupIs | cmd/dev/pi_runner/main.go:725 | three bytes and the four digits they become spell the same 24 bits |
| Base64.EncodeAppend | cmd/dev/pi_runner/main.go:725-727 | encoding in groups of three bytes is encoding the whole |
| Base64.EncodeAlphabet | cmd/dev/pi_runner/main.go:725 | encoded text holds nothing but the alphabet and padding |
| LineWriter.LinesAppend | cmd/dev/pi_runner/main.go:755-774 | lines and remainder do not depend on where the text was cut |
| LineWriter.LinesAre | cmd/dev/pi_runner/main.go:749-788 | lines are 76 characters and a carriage return, the last one shorter, and there is no empty one |
| LineWriter.WriteAll | cmd/dev/pi_runner/main.go:790-804 | success exactly if no write failed or took nothing; it writes everything; failure has written a prefix |
| LineWriter.Base64LineWriter.Write | cmd/dev/pi_runner/main.go:755-774 | whatever the pieces, the destination holds all full lines of the text so far, and the array the rest; every failed write is reported, and no other |
| LineWriter.Base64LineWriter.Close | cmd/dev/pi_runner/main.go:776-788 | the last line comes out shorter, and the destination holds all lines of the text |
| HereDocument.LinesRead | cmd/dev/pi_runner/main.go:651-664 | a text without some character of the delimiter fills the document, which ends exactly at the delimiter and strips back to the text |
| HereDocument.LinesStayOpen | cmd/dev/pi_runner/main.go:657-661 | until the delimiter comes the document stays open |
| HereDocument.PayloadSurvives | cmd/dev/pi_runner/main.go:611-664 | for every source and token the payload ends at its delimiter and nowhere before, and decodes to the source |
| HereDocument.OtherLinesRead | cmd/dev/pi_runner/main.go:651-664 | any whole lines without some character of the delimiter keep the document open, and the delimiter behind them ends it |
| HereDocument.StreamBase64Upload | cmd/dev/pi_runner/main.go:723-739 | for every way the encoder cuts its text, it succeeds exactly if no write failed or took nothing, and has then written exactly the lines of the encoded source |
| RemoteShell.VerifyMoves | cmd/dev/pi_runner/main.go:705-717 | the conjunction of the finish command moves the file exactly if it is there, its digest is right, all utilities work and `mv` can put it there: at the destination, or inside it if that is a directory; it changes nothing else |
| RemoteShell.FinishMoves | cmd/dev/pi_runner/main.go:705-717 | the whole effect of the finish command on every file, on echo, on the status it reports and on what it prints, on every file system |
| RemoteShell.FinishInstalls | cmd/dev/pi_runner/main.go:705-717 | after a reported 0 the verified file is at the destination if and only if that is not a directory; if it is, the file is inside it and nothing is at the destination |
| RemoteShell.SetUpText | cmd/dev/pi_runner/main.go:629-635 | the set-up tree is written as the set-up line |
| RemoteShell.SetUpAnswers | cmd/dev/pi_runner/main.go:524-542 | what the set-up prints holds the ready marker if and only if echo could be turned off, and the failed marker if and only if not |
| RemoteShell.CleanUpText | cmd/dev/pi_runner/main.go:719-721 | the clean-up tree is written as the clean-up command |
| Upload.FinishRefines | cmd/dev/pi_runner/main.go:666-681 | the finish command, executed as a tree, has the effect that the conversation counts on, with a directory as destination or without, and leaves every other file alone |
| Upload.CleanUpRefines | cmd/dev/pi_runner/main.go:719-721 | so has the clean-up command |
| Upload.SetUpRefines | cmd/dev/pi_runner/main.go:629-649 | so has the set-up line, whose markers are the answers of the conversation |
| Upload.CommandsReadBack | cmd/dev/pi_runner/main.go:705-721 | the set-up, finish and clean-up lines parse as the trees that these refinements execute, and the header as a here-document for the temporary file |
| Upload.Wires | cmd/dev/pi_runner/main.go:602-605 | marker and delimiter of an upload are made of its prefix and token, and differ |
| Console.SetUpIsRead | cmd/dev/pi_runner/main.go:629-649 | the screen, echo and all, holds the ready marker if and only if echo could be turned off, and the failed one if and only if not |
| Console.AnswerIsRight | cmd/dev/pi_runner/main.go:641-649 | whenever the buffer holds one of the two markers, the client decides right |
| Console.ExitIsRight | cmd/dev/pi_runner/main.go:852-891 | the status read, at whatever moments and after however much output, is the reported one, and it is read once its line is complete |
| Console.UploadAnswerIsRight | cmd/dev/pi_runner/main.go:641-649 | so the answer that the client of an upload reads is the one of the remote end |
| Console.UploadStatusIsRight | cmd/dev/pi_runner/main.go:669-680 | and so is the status |
| Console.EchoedFinish | cmd/dev/pi_runner/main.go:705-717 | neither a text without the marker nor the echo of the finish command behind it, which holds the marker, shows a status |
| Console.UploadStatusDespiteEcho | cmd/dev/pi_runner/main.go:669-680 | so the status read is the remote end's whether or not the terminal echoes the command |
| Upload.TempPathIsBeside | cmd/dev/pi_runner/main.go:692-703 | the temporary path is another one, in the directory of the destination, without a NUL |
| Upload.TempPathExactlyWhen | cmd/dev/pi_runner/main.go:692-703 | exactly which destinations are refused, by their text: empty, with a NUL, ending in a slash, `.` or `..` or ending in one of these behind a slash |
| ShellCuts.LineCut | cmd/dev/pi_runner/main.go:616-627 | a line of fitting pieces, cut after any number of characters, with the clean-up command run together behind it, reads, if it reads at all, as some of the line's tokens and then those of the clean-up, whose first word the cut may have begun |
| CutCommands.CutFinishIsSafe | cmd/dev/pi_runner/main.go:616-627 | wherever a failed write cuts the finish command, what the shell can parse of it and the clean-up behind it removes no file but the temporary one, and moves that to its target only if it has the digest and everything else holds that the whole command checks |
| CutCommands.CutSetUpIsHarmless | cmd/dev/pi_runner/main.go:616-627 | a set-up line cut anywhere, with the clean-up behind it, touches no file but the temporary one |
| Upload.CutFinishIsSafe | cmd/dev/pi_runner/main.go:666-681 | so for the finish command of every upload whose temporary path is plain |
| Upload.CutSetUpIsHarmless | cmd/dev/pi_runner/main.go:629-639 | so for its set-up line |
| Upload.DestinationSafe | cmd/dev/pi_runner/main.go:705-717 | whatever was sent, whole or cut, the destination is as it was or has the digest |
| Upload.AlwaysSafe | cmd/dev/pi_runner/main.go:585-682 | so it is after every prefix of the input |
| Upload.AfterData | cmd/dev/pi_runner/main.go:651-664 | the payload arrives in the temporary file as far as base64 -d works, and the prompt is back |
| Upload.ZeroMeansPlaced | cmd/dev/pi_runner/main.go:666-681 | status 0 means that a file with the digest has been moved to where `mv` puts it, no temporary file, no open document, echo on |
| Upload.ZeroMeansInstalled | cmd/dev/pi_runner/main.go:666-681 | after status 0 a file with the digest is at the destination if and only if that is not a directory; nothing else is left behind |
| Upload.DirectoryAccepted | cmd/dev/pi_runner/main.go:692-703 | for every source and token, an upload to the directory /opt passes the checks, reports status 0 and installs nothing at that path |
| Upload.LuckyUpload | cmd/dev/pi_runner/main.go:585-682 | when every command works, the destination is the source if and only if it is not a directory; if it is, the source is inside it |
| BrokenOff.DeferredArrives | cmd/dev/pi_runner/main.go:616-627 | deferred writes that are not cut off or lost arrive, in order, behind what came before |
| BrokenOff.BrokenOffCleans | cmd/dev/pi_runner/main.go:616-627 | wherever an upload stops, because a write was lost or reported as failed, a part of the payload was cut off, the source failed, or an answer did not come or was the wrong one: if the deferred writes get through, the remote end is clean |
| BrokenOff.CutDelimiterStaysOpen | cmd/dev/pi_runner/main.go:616-627 | after a delimiter that was cut off, wherever, the document is still open when everything deferred has arrived |
| Upload.RefusedIsClean | cmd/dev/pi_runner/main.go:645-648 | after a refusal nothing is left to undo |
| UploadClient.Link.Wait | cmd/dev/pi_runner/main.go:641-644 | an answer was printed by the shell after a prefix of the input |
| UploadClient.BeginUpload | cmd/dev/pi_runner/main.go:629-649 | goes on exactly if the set-up line was written and its answer is that the terminal is ready; the flag for restoring stays up unless the terminal refused |
| UploadClient.SendDocument | cmd/dev/pi_runner/main.go:651-664 | writes in order up to the first failure; the document flag is up exactly as long as the document may be open |
| UploadClient.FinishUpload | cmd/dev/pi_runner/main.go:666-681 | succeeds exactly if the command was written and status 0 has been printed by the end of the wait |
| UploadClient.Converse | cmd/dev/pi_runner/main.go:629-681 | the items attempted are the first ones of the script, none after a failure; what is then open; and exactly when it succeeds |
| UploadClient.Undo | cmd/dev/pi_runner/main.go:616-627 | whatever becomes of each write, it attempts in order what the line writer holds, the delimiter and the clean-up, as far as the flags ask for them; what arrives is exactly these if none is cut off or lost |
| UploadClient.Abandon | cmd/dev/pi_runner/main.go:616-627 | so for an upload that has failed, and what that leaves behind |
| UploadClient.RunUpload | README.md:302 | success is reported exactly if no write failed, the source was read, and both answers were the right ones; everything attempted is the whole script, or its first items and then all that is deferred; the destination is safe at every moment; success means the verified file has been moved and, if and only if the destination is not a directory, is installed there, as the source if the hash is injective; a smooth run succeeds; after a refusal nothing more is sent; without failed writes, or after one as in `BrokenOff.BrokenOffCleans`, the remote ends clean |
| Realtime.SetupUndoable | internal/realtime/realtime_linux.go:227-257 | each setting is left alone or as requested, and the flags say which and remember the original |
| Realtime.EndsAsItWas | internal/realtime/realtime_linux.go:188-218 | for every pattern of failures each setting ends as it was unless its own restoration failed |
| Realtime.AlteredExactlyWhen | internal/realtime/realtime_linux.go:266-279 | a thread does not get its settings back if and only if a restoration failed that mattered |
| Realtime.CalledUnder | internal/realtime/realtime_linux.go:199-212 | a strict run calls back only under the requested settings, a lenient one after a failed set-up only under the original ones unless undoing failed |
| Realtime.CalledOnce | internal/realtime/realtime_linux.go:188-218 | the callback runs once, or not at all when it is nil or a strict set-up failed |
| Realtime.NothingSilent | internal/realtime/realtime_linux.go:200-217 | every fault is in the result or handed to `reportError`, and no error means none but lenient set-up faults |
| Realtime.ToldExactlyWhen | internal/realtime/realtime_linux.go:281-285 | every fault is in the result or reaches the `Report` if and only if the run is strict, there is a `Report`, or the set-up did not fail |
| Realtime.FaultUntold | internal/realtime/realtime_linux.go:199-212 | a lenient run for a CPU that is not there, without a `Report`: its fault reaches nobody |
| Realtime.UndoneInReverse | internal/realtime/realtime_linux_test.go:162-242 | restoring undoes the changes of a set-up in reverse order |
| Realtime.SetupExactlyWhen | internal/realtime/realtime_linux.go:227-257 | set-up succeeds if and only if none of its two or four calls fails and the CPU, if one is named, is within the mask and online |
| Realtime.SetupFaultIs | internal/realtime/realtime_linux.go:227-257 | a set-up that fails names the first of its calls that failed, or the setting of a CPU that is not there |
| Realtime.ValidExactlyWhen | internal/realtime/realtime_linux.go:112-125 | policy fifo or rr, priority 1 to 99, CPU -1 or more: exactly these pass, and the first of several faults is named |
| Realtime.Untouched | internal/realtime/realtime_linux.go:188-194 | without a callback, or when real time is not enabled, no system call is made |
| Realtime.ValidatedMeansApplied | internal/realtime/realtime_linux.go:112-125 | the callback of a validated configuration runs under exactly the settings it asks for if that condition holds; if and only if it does not, set-up fails, and a strict run does not call |
| Realtime.AbsentCpu | internal/realtime/realtime_linux.go:112-125 | a validated configuration for CPU 4 fails on a machine with the CPUs 0 to 3, though no call fails otherwise |
| Realtime.Restore | internal/realtime/realtime_linux.go:266-279 | the calls made and the faults joined are those on values |
| Realtime.Runtime.SetupThread | internal/realtime/realtime_linux.go:227-257 | the same for set-up, failure by failure |
| Realtime.Runtime.Run | internal/realtime/realtime_linux.go:188-218 | thread, result, reports and calls of the callback are those on values; what it returns and hands out tells all faults exactly under the condition above |
| Realtime.Runtime.RunOnThread | internal/realtime/realtime_linux.go:196-218 | the same for an enabled configuration on its pinned thread |
| Realtime.Runtime.Prepare | internal/realtime/realtime_linux.go:170-185 | memory is locked once, a lenient failure is reported once, and the answer is always the same |

## Left out

- Serial ports, GPIO lines, sockets, files, clocks and contexts are lists of the answers they will give; a context is done after some number of checks.
- JSON is a pair of functions. Where they matter the proofs ask that text reads back, is never empty, for `Resync` holds no zero byte and for `ControllerRuns.OversizedLost` is not shorter than the data in it. A command's payload stands for its JSON value.
- SHA-256 is any function; that it is injective is a hypothesis only where equal bytes are claimed.
- Text.StatusStable: `TrimSpace` knows the white space of ASCII only; the status lines in question hold no other.
- ShellWords.CommandReads: the reader of tokens gives up on characters special to the shell other than those that the commands sent use. `ShellGrammar` reads lists, `&&` and conditionals with an `else` or a negated condition, no other compound commands.
- RemoteShell.FinishInstalls: `sha256sum` prints the digest, without blanks, first; GNU's puts a backslash before it for a path with a backslash or a newline, and the upload then fails.
- Upload.ZeroMeansInstalled: for a destination that is a directory, what is left inside it is counted as the moved file, not as something to undo; symbolic links to directories are directories here.
- ControllerRuns.AcceptedExactlyWhen: says what some continuation can do; that drones go on polling, and how soon, is not modelled. A drone whose poll does not encode cannot ask; the number of a drone is any natural number here, so that its poll may be too long.
- Upload.DestinationSafe: what a line garbled by a failed write does to the terminal and the temporary file is arbitrary; that it can install only by way of a finish command in it is an assumption, and so is that it does not touch the destination otherwise. `Upload.CutFinishIsSafe` and `Upload.CutSetUpIsHarmless` prove as much of cut lines behind which the clean-up command stands, for plain paths and as far as the reader here can parse them; a line left open, to which the shell would go on reading, is none of these.
- BrokenOff.BrokenOffCleans: supposes that `rm` and `stty echo` work on the remote. After a command line or a delimiter that was cut off cleanliness is not claimed, nor after a deferred write that was lost; `Upload.CutFinishIsSafe` says what a cut command cannot do.
- Base64.EncodeDecode: the decoder refuses unused bits that are not zero; `base64 -d` may accept them, and no such text is sent.
- UploadClient.Link.Wait: answers are taken at the level of markers; that the reader gets them from the text is `Console`, which supposes that prompts and messages on the screen hold no marker.
- HereDocument.PayloadSurvives: the terminal's line discipline is its turning of a carriage return into a newline; flow control and line-length limits of the terminal are not modelled, nor are characters on which a terminal or its shell acts while a line is typed (erase, kill, tab): a remote path may hold them (cmd/dev/pi_runner/main.go:692-703), and the shell then reads another path.
- HereDocument.StreamBase64Upload: a source that fails to read is in `UploadClient`, where what could be read is the payload; the digest is computed there.
- RadioLoop.Causality: drones have distinct numbers and send pings and confirmations only; other stations that forge messages are not modelled, nor is duplication on the air.
- KeepAlive.ServeRadio: ends when the link has nothing more, where the code polls for ever; logging and sleeping are left out.
- ControllerRuns.HandedOnce: the queue is drained over TCP; a next_command that came by radio would be one more client whose reply may be lost.
- ControllerQueue.TcpHandler: which case of a `select` goes ahead is given; a receive goes ahead only when something is queued.
- PriorityMutex.PriorityMutex.Lock: the critical section; the wait on the channel is the step `Wake` of `LockRuns`. A thread that unlocks without holding the lock is not modelled.
- Realtime.Runtime.Run: the callback leaves scheduling alone, a failed system call changes nothing, and the kernel refuses a mask without an existing CPU, as sched_setaffinity(2) says.
- The body of `runExec` beyond its set-up line, `login`, the wake-up poke, output normalisation, command-line options and device discovery: sequences of the same parts, or plumbing.
- `AutoTransport`, `WiFiTransport`, kernel detection, parsing of the environment, sensors, motors, the joystick and GPIO tables: finite or single-branch facts that would only add easy members.
