# IoTConnect ModusToolbox SDK: model and proofs

This Dafny 4.11 project models four parts of the SDK and proves properties of them over all inputs and all runs:

- the SNTP client (`source/sntp.c`): its fixed-point clock arithmetic, and its state machine of timers, DNS queries,
  packets, server table, retry backoff and reachability registers;
- the time service on top of it (`source/iotc_mtb_time.c`), as a poller interleaved with the network stack's thread;
- the inbound message queue (`source/iotc_mqtt_mq.c`), with heap ownership, re-entrant handlers, and the race between
  the MQTT thread and a disconnecting application;
- the MQTT client's lifecycle (`source/iotc_mqtt_client.c`) under the SDK's connect, disconnect and deinit
  (`source/iotconnect.c`).

Verify it with `dafny verify dfyconfig.toml`. Nothing was executed.

## How the project is built

| file | content |
|---|---|
| `CInt.dfy`, `SntpTime.dfy`, `SntpPacket.dfy`, `SntpProcess.dfy` | C integers; time conversions; message bytes; `sntp_process` and its accuracy |
| `SntpModel.dfy` | the client's state and what each handler does to it; runs are sequences of events, and an event that cannot happen where it stands changes nothing |
| `SntpClient.dfy` | the client as an object that updates its variables, its server array and its timers in place, proved against `SntpModel`; between events it has every invariant of `SntpInvariants.dfy` |
| `SntpActions.dfy` | every step of the client is a path of a few kinds of actions on its visible part; an invariant of the actions is one of every run |
| `SntpCounting.dfy` | how often an event is observed to do something, once for all kinds of observation |
| `SntpAccounting.dfy`, `SntpBackoff.dfy`, `SntpServers.dfy`, `SntpRotation.dfy`, `SntpReachability.dfy`, `SntpCredit.dfy`, `SntpOriginate.dfy`, `SntpClockSet.dfy`, `SntpRequests.dfy`, `SntpSpacing.dfy`, `SntpPunctual.dfy` | one property family each |
| `SntpInvariants.dfy` | the invariants of those families as one, and the order of the timer lists |
| `SntpStart.dfy` | the concrete runs behind the counterexamples: from power-up to the first request |
| `TimeObtain.dfy` | the poller and the hook, interleaved |
| `MessageQueue.dfy`, `InboundQueue.dfy`, `QueueRace.dfy` | the queue as a value, as an object with atomic calls, and between two threads |
| `MqttLifecycle.dfy`, `SdkLifecycle.dfy` | the MQTT client; the SDK's calls over client and queue, with the library's callbacks between their steps |

The configuration is `SNTP_CHECK_RESPONSE` 2, round trip compensation, exponential retry, reachability monitoring, DNS
and several servers. Other option values are symbolic (`SntpModel.Options`): 1 < SNTP_MAX_SERVERS <= 255,
0 < SNTP_RETRY_TIMEOUT <= SNTP_RETRY_TIMEOUT_MAX < 2^32, 15000 <= SNTP_UPDATE_DELAY. Words in memory are those of a
little-endian host. Clock readings, allocation results, DNS answers, library results and what other threads do are
parameters of the events, so every statement is over all of them.

What is assumed of the libraries, whose code is not part of this model: `sys_untimeout` removes the earliest matching
entry if there is one; a fired timer has left the list; each query in progress calls back once, with no address or with
one that is not the "any" address; a library call that creates no MQTT handle leaves the variable alone; taking from
the message queue fails only when it is empty; a queue that could not be created takes no message; one thread delivers
MQTT messages. Timers may fire at any moment unless a lemma says otherwise (`SntpSpacing.Timely`).

## What the code does not do

- A Kiss-o'-Death does not cancel the receive timer, so work can multiply; `SntpAccounting` says by how much, and
  `StopLeaves` says exactly when a stop is then still clean. After one that is not, the client works on without a
  socket: `StoppedClientWorksOn` is such a run.
- The difference of receive and originate time is not range checked: for every clock reading there is an answer that is
  accepted, passes the guard and sets a wrong time (`SntpClockSet.UnguardedReceiveTime`). `SafeReceiveDifference` gives
  the exact safe differences, and `SafeClockRange` the exact clock readings for which the final addition is safe too.
- The comment at source/sntp.c:139-144 promises dates from 1968; the hook's unsigned Unix second makes 1970 the exact
  limit (`SntpTime.EraRule`).
- When no packet buffer can be allocated the server index has already moved, so that a late answer is credited to the
  wrong server (`SntpCredit.LateAnswerMiscredited`); `MatchKeptExactly` says which events do that.
- A resolver's answer goes to the current server even if its configuration has been taken away meanwhile, and so
  configures it again: exactly then the configured servers change without a setter (`ConfigurationKeptExactly`), and
  `NameTakenAway` is a run that gets there.
- An accepted answer is not forgotten: a copy of it is accepted too and postpones the next request again. So the time
  without a request is bounded only from the last response on (`SntpPunctual.SilenceBound`), and copies that keep
  arriving keep the client from sending (`SilenceUnbounded`).
- A handler that returns without a client while a message is queued or on its way makes `iotc_mq_process` call a null
  pointer: `QueueRace.DisconnectingHandlerCallsNull` is such a run, `HandlerReturnExactly` the exact condition, and
  `NeverCallsNull` says that handlers that avoid it, which includes all that connect again, are safe in every
  interleaving. It cannot happen when calls are atomic (`InboundQueue.Queue.Process`).
- `iotc_mq_init` marks the queue as initialized even if it could not be created (`InboundQueue.Queue.Init`).
- The `if` at source/iotc_mqtt_client.c:252 guards only the next assignment; the model keeps that (`ResetFor`).
- Between the end of `iotc_mqtt_client_init` and the registration at source/iotconnect.c:268, and from the queue's
  deregistration until the MQTT client is cleaned up, a message that the event callback forwards finds no client and is
  lost: exactly there, and after a deinit that left the MQTT client up (`SdkLifecycle.ForwardedExactly`). A requested
  disconnect stops only the first message (`LostWhileDisconnecting`).
- Reconnecting after a dropped connection without disconnecting leaks a handle and a library init (`ReconnectLeaks` is
  such a run, `ConnectBalanceExactly` and `LeakExactly` the exact conditions), and `iotconnect_sdk_deinit` leaves a
  dropped connection behind (`DeinitLeavesDropped`, `DeinitReleasesExactly`).

## Model

| member | source | states |
|---|---|---|
| SntpTime.SubsecondRoundTrip | source/sntp.c:131-167 | for every microsecond below 10^6 the 32-bit expression with its wrap equals the unwrapped one, lies within 5 ticks of the middle of that microsecond, and the 64-bit macro maps it back exactly |
| SntpTime.WrappedFractionExact | source/sntp.c:166 | only the first product can wrap, and the final addition undoes it |
| SntpTime.SubsecondMonotone | source/sntp.c:155-167 | the fraction is strictly increasing in the microsecond |
| SntpTime.EpochDays | source/sntp.c:126-127 | the distances of the three epochs, from calendar years and leap days |
| SntpTime.EraRule | source/sntp.c:127-148 | for every wire second, signed reading plus the 2036 difference gives the true Unix time of section 3 of RFC 4330 exactly for the dates from 1970 on, and 2^32 more before |
| SntpTime.SecondsBijection | source/sntp.c:147-165 | Unix and NTP seconds convert back and forth without loss, in both directions |
| SntpTime.PackMeaning | source/sntp.c:179-182 | sign extension, shift and or mean sec * 2^32 + frac, for signed seconds and for wire words alike |
| SntpTime.PackSplit | source/sntp.c:179-333 | packing then splitting and splitting then packing are the identity |
| SntpTime.HookMicros | source/sntp.c:131-148 | the two arguments of the hook are the NTP time in whole microseconds of Unix time |
| SntpPacket.SwapLoaded | source/sntp.c:303-304 | byte order conversion reads the number the four bytes mean on the wire |
| SntpPacket.SwapInvolution | source/sntp.c:359-360 | converting to network order and back is the identity |
| SntpPacket.RequestStamp | source/sntp.c:350-367 | a request carries its timestamp in its last eight bytes |
| SntpPacket.RequestHeader | source/sntp.c:350-351 | a request starts with 0x23 (version 4, client) and is zero up to its timestamp |
| SntpPacket.ReplyTimes | source/sntp.c:119-195 | the client reads from an answer the three timestamps the server put there |
| SntpPacket.TimesEqualBytes | source/sntp.c:484-485 | comparing two timestamps word by word compares exactly their eight bytes |
| SntpProcess.Process | source/sntp.c:297-338 | the step-wise computation, with its branches and its wrapping arithmetic, gives the time that SntpClockSet is about |
| SntpProcess.StepSecondsMeaning | source/sntp.c:318-322 | the wrapping step is the distance of the two seconds for all s32 values, and the shift tests it against 2^30 |
| SntpProcess.HalfTruncates | source/sntp.c:330 | the division by two truncates toward zero |
| SntpProcess.CompensationFits | source/sntp.c:320-333 | under the guard and with receive and originate within 2^30 s no difference or sum overflows, and the result is exact exactly if representable, with two ranges of dates for which it is |
| SntpProcess.SafeReceiveDifference | source/sntp.c:322-330 | exactly which receive differences keep the sum in range whatever passes the guard |
| SntpProcess.SafeClockRange | source/sntp.c:318-333 | exactly which local clock readings keep the final addition in range, whatever response passes the guard with a receive time in range |
| SntpProcess.FarReceiveOverflows | source/sntp.c:320-330 | for every clock reading, timestamps that pass the guard, overflow the first subtraction and give a wrong time |
| SntpProcess.OffsetError | source/sntp.c:329-330 | the offset formula misses the server's time by half the difference of the delays, rounded by at most half a tick |
| SntpProcess.WrappedAccuracy | source/sntp.c:321-330 | the wrapping 64-bit computation has that accuracy wherever it does not overflow |
| SntpProcess.ClockAccuracy | source/sntp.c:306-338 | the time set is within half the round trip of the server's true time, and equal to it for equal delays (section 5 of RFC 4330) |
| SntpProcess.HookAccuracy | source/sntp.c:131-338 | the same bound on the seconds and microseconds the hook receives |
| SntpProcess.StampDecodes | source/sntp.c:353-368 | a request's timestamp decodes to the local time at which it was prepared |
| SntpClient.Client.constructor | source/sntp.c:235-281 | the static variables start as zeros, and every invariant holds |
| SntpClient.Client.InitializeRequest | source/sntp.c:347-370 | fills the buffer with the request and remembers its timestamp |
| SntpClient.Client.SelectNextServer | source/sntp.c:417-438 | the loop finds the cyclically nearest other configured server, or restores the index if there is none |
| SntpClient.Client.Recv | source/sntp.c:447-545 | classifies the packet and accepts, moves on, or ignores it |
| SntpClient.Client.Stop | source/sntp.c:697-713 | clears every register, cancels at most one timer of each kind, closes |
| SntpClient.Client.Handle | source/sntp.c:377-713 | every event does to the object what it does to the state machine, and keeps every invariant of its runs |
| SntpClient.Client.Run | source/sntp.c:377-713 | every run of the object is a run of the state machine, after which every invariant holds |
| SntpClient.Client.GetReachability | source/sntp.c:756-762 | returns non-zero exactly if the server answered one of the last eight requests sent to it since the last stop |
| SntpModel.InsertDueSorts | source/sntp.c:386-582 | arming a timer adds that one entry and keeps the list sorted |
| SntpModel.Exec | source/sntp.c:417-438 | over every run the server table keeps its size and the index stays below it |
| SntpActions.StepPath | source/sntp.c:377-713 | every event is a path of allowed actions, with an answer only if the event accepts a packet |
| SntpActions.ExecPath | source/sntp.c:377-713 | and so is every run |
| SntpActions.StepExtendsTrace | source/sntp.c:377-713 | no event takes back what was observed |
| SntpActions.AcceptTrace | source/sntp.c:514-535 | an accepted packet is observed as the hook call, then the credit, then in poll mode the reset of the backoff |
| SntpStart.FirstRequestAsks | source/sntp.c:551-691 | with two addresses set, the start leads to one request to the first, with one receive timeout pending |
| SntpAccounting.HandlerAddsOne | source/sntp.c:411-652 | requesting and trying the next server each leave exactly one more thing pending |
| SntpAccounting.CallbackPreservesPending | source/sntp.c:411-652 | timer and DNS events preserve the number of pending timers and queries |
| SntpAccounting.PacketPending | source/sntp.c:447-545 | a kiss adds one; an accepted poll response sends (request, next) to (max(1, request), max(0, next - 1)) |
| SntpAccounting.InitPending | source/sntp.c:659-691 | starting to poll adds one |
| SntpCounting.StepCounts | source/sntp.c:377-713 | how many observations of any kind other than requests and retries each event makes |
| SntpAccounting.NeverDead | source/sntp.c:377-713 | over every run, while it polls, the client has a timer or a query pending |
| SntpAccounting.PendingBound | source/sntp.c:377-713 | over every run pending work grows at most by starts, kisses and responses accepted without a timer |
| SntpAccounting.SingleOutstandingWork | source/sntp.c:377-713 | from power-up, with one start and none of the others, exactly one thing is pending while polling |
| SntpAccounting.StopLeaves | source/sntp.c:697-713 | a stop zeroes every register and leaves nothing pending exactly if no query and at most one timer of each kind was |
| SntpAccounting.QuietWhileStopped | source/sntp.c:697-713 | with nothing pending a stopped client does nothing until started |
| SntpAccounting.CleanStop | source/sntp.c:697-713 | after stopping with one timer outstanding no request goes out until the next start |
| SntpAccounting.StoppedClientWorksOn | source/sntp.c:411-713 | a run in which a kiss and a stop leave a receive timeout: the stopped client overwrites its timestamp, hands a request to the stack without a socket and arms the next timeout |
| SntpBackoff.OverflowDetected | source/sntp.c:392-395 | the comparison with the old timeout detects exactly the doublings that wrap |
| SntpBackoff.DoublingMeaning | source/sntp.c:392-397 | the timeout is doubled exactly if twice its value is within the limit, in unbounded arithmetic |
| SntpBackoff.DoublingStep | source/sntp.c:388-398 | one retry turns the n-th backoff value into the next |
| SntpBackoff.BackoffClosedForm | source/sntp.c:263-431 | in every reachable state the timeout is SNTP_RETRY_TIMEOUT * 2^min(n, K) for n retries since the last reset |
| SntpBackoff.ResetsExactly | source/sntp.c:431-679 | the timeout is reset exactly when polling starts, a polled response is accepted, or another server is found |
| SntpServers.NextServerMeaning | source/sntp.c:417-438 | the search lands on the cyclically nearest other configured server and fails exactly if there is none |
| SntpServers.TryNextLands | source/sntp.c:411-440 | so does trying the next server, which requests at once or retries with the index unchanged |
| SntpServers.StepIndex | source/sntp.c:411-440 | a receive timeout, a failed query or a kiss puts the index where the search ends, which is where it was if there is no other server; no other event changes it |
| SntpRequests.StepToStored | source/sntp.c:551-652 | every event sends at most one request, to the address then stored for the current server, named ones included; queries are for its own name, and only an address at hand is asked right after one |
| SntpRequests.AnswerIsAsked | source/sntp.c:590-606 | a resolver's answer is stored for the current server and asked |
| SntpRequests.ResolvedIsAsked | source/sntp.c:622-648 | so is an address the resolver has at hand |
| SntpRequests.QueryIsAsked | source/sntp.c:622-633 | a query in progress is for the server's name, sends nothing and sets no timer |
| SntpRequests.UnreachableIsLeft | source/sntp.c:638-651 | a server whose name does not resolve, or that has neither name nor address, is left for the next one SNTP_RETRY_TIMEOUT later |
| SntpRequests.BufferIsAwaited | source/sntp.c:578-583 | without a buffer the same server is asked SNTP_RETRY_TIMEOUT later |
| SntpRequests.StartSchedules | source/sntp.c:659-691 | a startup delay postpones the first request by just that; listening schedules nothing; without a socket nothing happens |
| SntpRequests.SettersSet | source/sntp.c:788-863 | what the two setters store, for every server |
| SntpRequests.ModeIsSet | source/sntp.c:730-736 | the mode is set while the client is closed |
| SntpServers.StepKeepsConfigured | source/sntp.c:590-641 | no event but a table setter makes a configured server unconfigured |
| SntpServers.ConfiguredStays | source/sntp.c:590-641 | nor does any run without table setters |
| SntpRotation.TableRound | source/sntp.c:411-440 | on one table with k >= 2 configured servers any k moves visit each of them, and only them, exactly once |
| SntpRotation.ConfigurationKeptExactly | source/sntp.c:590-641 | an event other than a setter keeps which servers are configured, exactly unless it is an answer for a current server that is not |
| SntpRotation.NameTakenAway | source/sntp.c:590-641 | a run from power-up to such an answer |
| SntpRotation.VisitsFollowTable | source/sntp.c:411-641 | over every run without setters the index goes where it would on the table at the start, though addresses are rewritten between the moves |
| SntpRotation.RoundRobin | source/sntp.c:411-641 | in every such run any k consecutive searches visit each of the k >= 2 configured servers, and only them, exactly once |
| SntpRotation.SetupSettles | source/sntp.c:788-863 | a client configured before its start meets the precondition of those two |
| SntpReachability.AnsweredAppend | source/sntp.c:520-706 | how a request, a credit or a stop changes which epochs count as answered |
| SntpReachability.ReachabilityRefinement | source/sntp.c:520-706 | over every run bit i of a register is set exactly if the server's i-th last epoch was answered, and the register is non-zero exactly if one of the last eight was (sections 9.2 and 13 of RFC 5905) |
| SntpCredit.CreditedServerMatched | source/sntp.c:461-576 | from power-up, with a table of addresses set before and then left alone: if every search for another server keeps the match, every polled response is credited to the server with its source address |
| SntpCredit.MatchKeptExactly | source/sntp.c:411-583 | with servers given by address, an event that leaves the table alone keeps the current server the one last asked, exactly unless it looks for another, finds one with another address and has no buffer |
| SntpCredit.LateAnswerMiscredited | source/sntp.c:411-583 | a run in which a receive timeout without a buffer makes a late answer count for a server with another address |
| SntpOriginate.AcceptedAreGenuine | source/sntp.c:447-576 | over every run every accepted packet has 48 bytes, mode 4 when polled and 5 when listening, a non-zero stratum, and echoes the last request's timestamp bytes; when polled it comes from that request's destination |
| SntpOriginate.AcceptedExactly | source/sntp.c:458-510 | after every run and in both modes, on the wire's own numbers: exactly which packets are accepted and exactly which are a Kiss-o'-Death |
| SntpOriginate.GenuineIsAccepted | source/sntp.c:458-495 | after every run a polled server's mode 4 answer with a non-zero stratum that echoes the last request is accepted |
| SntpOriginate.ForeignPacketsIgnored | source/sntp.c:461-510 | packets of another length, port or address change nothing |
| SntpOriginate.EchoDecodes | source/sntp.c:171-327 | the echoed bytes decode to the client's clock at the request |
| SntpClockSet.ClockSetByAnswers | source/sntp.c:297-516 | over every run, each time set is the one computed from the packet accepted with it and the clock read on its arrival |
| SntpClockSet.ClockSetAccuracy | source/sntp.c:297-576 | over every run, the seconds and microseconds of each time set are within half the round trip, a microsecond and a tick of the server's time, if the exchange has the described delays and nothing overflows |
| SntpClockSet.UncompensatedExactly | source/sntp.c:306-323 | on the packet's bytes and the clock: the round trip is not compensated exactly if the receive time is zero or the transmit second is 2^30 s or more away |
| SntpClockSet.UncompensatedTime | source/sntp.c:303-338 | over every run, what is set without compensation is the packet's own transmit time in seconds and whole microseconds, by the era rule of section 3 of RFC 4330 |
| SntpClockSet.UncompensatedLag | source/sntp.c:303-338 | and lags a server's true time by the time its answer took, up to a microsecond |
| SntpClockSet.UnguardedReceiveTime | source/sntp.c:297-338 | from power-up and for every clock reading, an answer to the first request that is accepted, passes the guard, overflows the first subtraction and sets a wrong time |
| SntpSpacing.SendSpacing | source/sntp.c:385-713 | in timely runs with addresses only and no kiss, over any stops and restarts, one timer is pending while polling and none while stopped, and any two requests of one session are at least min(receive timeout, retry timeout, update delay) apart |
| SntpSpacing.RetryGaps | source/sntp.c:385-582 | for a single unanswering server the gap after the n-th timeout is the receive timeout plus the n-th backoff value, exactly if timers are prompt and at least that otherwise |
| SntpSpacing.ReachableStart | source/sntp.c:385-582 | in the runs of SendSpacing every state right after an event that has sent starts such a sequence |
| SntpSpacing.LoneServerGaps | source/sntp.c:385-691 | from power-up with one server that never answers, the gaps grow with the backoff from its first value on |
| SntpPunctual.SilenceBound | source/sntp.c:385-713 | with addresses only, buffers, timers on time and no kiss: after its first request a polling client is never longer than max(update delay, receive timeout + retry limit) without sending or accepting a response |
| SntpPunctual.AnswerRepeats | source/sntp.c:483-532 | an accepted answer postpones the next request and is accepted again |
| SntpPunctual.SilenceUnbounded | source/sntp.c:483-532 | for every n there is a run of n copies of one answer over which nothing is sent, almost n update delays long |
| SntpInvariants.StepKeepsSorted | source/sntp.c:386-582 | every event keeps both timer lists in the order of expiry, so that timers fire and are cancelled earliest first |
| SntpInvariants.StepSound | source/sntp.c:377-713 | every event keeps the backoff's closed form, the meaning of the registers, the genuineness of answers, the source of every time set, the bounds on pending work and the order of the timers |
| SntpInvariants.RunSound | source/sntp.c:377-713 | they hold over every run |
| TimeObtain.ThreadStepConsistent | source/sntp.c:514-521 | every step of the stack's thread, even between the hook and the credit, keeps answers behind clock writes |
| TimeObtain.ReachableMeansObtained | source/sntp.c:514-521 | in every interleaving a non-zero register means that a response was written to the clock and then credited to that server |
| TimeObtain.StartBegins | source/iotc_mtb_time.c:58-60 | the three calls before polling: server 0 has the name, the client polls, has observed its start and has something pending; without a socket it stays closed |
| TimeObtain.FirstReadingSet | source/iotc_mtb_time.c:58-62 | from power-up, an answered query followed by a reply with an echo makes the first reading non-zero |
| TimeObtain.TimeService.PollRegister | source/iotc_mtb_time.c:62-69 | every reading before the last was zero; at most 15 delays, and 15 if the last was zero too |
| TimeObtain.TimeService.Check | source/iotc_mtb_time.c:71-80 | fails exactly if the reading was zero |
| TimeObtain.TimeService.Obtain | source/iotc_mtb_time.c:56-81 | whatever the thread does meanwhile, 0 means that a reading was non-zero and a response of server 0 was accepted and written to the clock; -1 exactly that all 16 readings were zero; the missing callback failure does not occur; answered at once after power-up, it returns 0 without a delay |
| MessageQueue.CreateOwned | source/iotc_mqtt_mq.c:40-51 | creating a message gives the producer two new blocks holding copies, or leaves nothing allocated |
| MessageQueue.DestroyOwned | source/iotc_mqtt_mq.c:28-38 | destroying a message frees each of its blocks once |
| MessageQueue.PutOwned | source/iotc_mqtt_mq.c:87 | an accepted put moves the blocks from the producer to the end of the queue |
| MessageQueue.DeliverOwned | source/iotc_mqtt_mq.c:103-110 | delivering moves them from the head of the queue to the client |
| MessageQueue.FlushOwned | source/iotc_mqtt_mq.c:134-136 | flushing moves them from the head of the queue to the freed ones |
| MessageQueue.NeverFreedTwice | source/iotc_mqtt_mq.c:28-38 | single ownership means that no block is freed twice |
| MessageQueue.NeverFreedInUse | source/iotc_mqtt_mq.c:28-38 | nor one that was never allocated or that someone still has |
| InboundQueue.Queue.Init | source/iotc_mqtt_mq.c:54-62 | creates an empty queue of the given capacity, or reports that there is none, and is initialized either way |
| InboundQueue.Queue.DestroyMessage | source/iotc_mqtt_mq.c:28-38 | frees what is there and clears the fields |
| InboundQueue.Queue.CreateMessage | source/iotc_mqtt_mq.c:40-51 | copies topic and message or fails with nothing left behind |
| InboundQueue.Queue.OnInbound | source/iotc_mqtt_mq.c:68-92 | refuses invalid arguments and arrivals without a client, else queues the copy or frees it |
| InboundQueue.Queue.Register | source/iotc_mqtt_mq.c:64-66 | registers a client and changes nothing else |
| InboundQueue.Queue.Flush | source/iotc_mqtt_mq.c:128-137 | removes and frees everything queued, in order |
| InboundQueue.Queue.Deregister | source/iotc_mqtt_mq.c:139-142 | flushes, then has no client |
| InboundQueue.Queue.DisconnectQueue | source/iotconnect.c:233-235 | deregisters and flushes once more |
| InboundQueue.Queue.Deinit | source/iotc_mqtt_mq.c:144-154 | deregisters, flushes and uninitializes |
| InboundQueue.Queue.CallClient | source/iotc_mqtt_mq.c:110 | may only be called with a client, for the message just taken, and is the only way to account for its delivery |
| InboundQueue.Queue.Process | source/iotc_mqtt_mq.c:94-126 | however handlers re-enter the SDK the client pointer called is never null, the first message is handed to the client, and it returns with the queue empty; if no handler disconnects, at any depth, all that was queued and all that arrives is handed over in order and nothing is flushed; with no arrivals and silent handlers the queue's messages are delivered and nothing else changes |
| InboundQueue.ArrivalBeforeTaking | source/iotc_mqtt_mq.c:100-123 | what arrives before the queue is found empty is handed to the client by the same call |
| InboundQueue.ArrivalWhileHandling | source/iotc_mqtt_mq.c:100-123 | so is what arrives while the client handles a message, after it |
| InboundQueue.DisconnectWhilePolling | source/iotc_mqtt_mq.c:100-142 | a handler that disconnects has all but its own message flushed and freed, whether or not it then connects |
| InboundQueue.PollWhilePolling | source/iotc_mqtt_mq.c:100-142 | one that first polls has handed all of them to the client by then, and nothing is freed |
| InboundQueue.ArrivalOwned | source/iotc_mqtt_mq.c:68-92 | an arrival keeps single ownership and order in every outcome |
| InboundQueue.ArrivalExactly | source/iotc_mqtt_mq.c:68-92 | exactly which arrivals are queued, each as a copy of its topic and message at the end |
| InboundQueue.FlushedOwned | source/iotc_mqtt_mq.c:128-137 | so does a flush |
| QueueRace.Conservation | source/iotc_mqtt_mq.c:28-137 | in every interleaving each block has exactly one owner, and what was removed followed by what is queued is what was put, within the capacity |
| QueueRace.ArrivalIsCopied | source/iotc_mqtt_mq.c:68-87 | what is put is a copy of what arrived, though check, allocation and put are separate steps |
| QueueRace.TeardownRace | source/iotc_mqtt_mq.c:77-142 | in every interleaving, after a disconnect's second flush and until the next register at most one message is queued or past the check |
| QueueRace.OneMessageSurvives | source/iotc_mqtt_mq.c:77-142 | the bound is reached in a run from the start: a message past the check outlives the disconnect |
| QueueRace.NeverCallsNull | source/iotc_mqtt_mq.c:94-110 | in every interleaving in which handlers return with a client or with nothing queued or on its way, the client pointer is not null when called |
| QueueRace.HandlerReturnExactly | source/iotc_mqtt_mq.c:94-110 | after a handler's return, while the application only polls, null can be called exactly if there is no client and a message is queued or on its way |
| QueueRace.DisconnectingHandlerCallsNull | source/iotc_mqtt_mq.c:94-110 | a run from the start in which it is |
| MqttLifecycle.MqttClient.Init | source/iotc_mqtt_client.c:243-345 | succeeds exactly if the configuration, a root certificate and every library call are there, with 150 attempts to connect and 3 to subscribe; is then connected with the new handle, both callbacks and no request to disconnect; a failure releases everything but for the missing root certificate; keeps the balance exactly if released before or ended before a second init |
| MqttLifecycle.MqttClient.Establish | source/iotc_mqtt_client.c:322-340 | succeeds exactly if registration does and some permitted attempt to connect and to subscribe does |
| MqttLifecycle.MqttClient.Retry | source/iotc_mqtt_client.c:111-163 | succeeds exactly if one of the permitted attempts does, and stops at the first |
| MqttLifecycle.MqttClient.CleanUp | source/iotc_mqtt_client.c:171-206 | leaves the client released and the balance kept, whatever the library answers |
| MqttLifecycle.MqttClient.RequestDisconnect | source/iotc_mqtt_client.c:208-209 | marks the disconnect as requested and changes nothing else |
| MqttLifecycle.ConnectBalanceExactly | source/iotc_mqtt_client.c:243-345 | an attempt keeps inits and creates matched exactly if the client was released or the attempt ends before a second init |
| MqttLifecycle.LeakExactly | source/iotc_mqtt_client.c:243-345 | a handle whose connection has dropped is lost exactly if the next attempt gets as far as creating another |
| MqttLifecycle.FailureReleases | source/iotc_mqtt_client.c:259-344 | a failed attempt releases what it acquired exactly unless there is no root certificate, which a checked connection type excludes |
| SdkLifecycle.SdkCoherent | source/iotconnect.c:233-344 | over every run, with calls of the queue and of the event callback taken as atomic and the library's callbacks anywhere between the steps of connect, disconnect and deinit: the queue keeps ownership and order, is empty without a client, and has a client only while initialized |
| SdkLifecycle.LifecycleBalance | source/iotc_mqtt_client.c:51-345 | over every such run that disconnects after a drop before reconnecting, one handle at most is live, connected implies handle and library, every init and create is matched by one deinit and delete, and MQTT is up without a registered client exactly in the two windows and after a deinit that left it up |
| SdkLifecycle.ForwardedExactly | source/iotconnect.c:233-344 | in those runs a forwarded message that lacks nothing is lost exactly there, and a copy of it queued otherwise |
| SdkLifecycle.MessageIsQueued | source/iotconnect.c:253-270 | a run in which a message is queued for the client |
| SdkLifecycle.ConnectedForwards | source/iotc_mqtt_client.c:243-345 | after any successful attempt, also one after a disconnect, the first message is forwarded |
| SdkLifecycle.LostBeforeRegistering | source/iotconnect.c:253-268 | a run in which one is lost between connection and registration |
| SdkLifecycle.LostWhileDisconnecting | source/iotconnect.c:233-237 | a run in which one is lost before the disconnect is requested, and the second of two after it |
| SdkLifecycle.ReconnectLeaks | source/iotconnect.c:253-270 | a run that reconnects after a drop and leaves a handle neither deleted nor live, and the balance lost |
| SdkLifecycle.DeinitReleasesExactly | source/iotconnect.c:333-344 | deinit releases the MQTT client exactly if it is connected or released already |
| SdkLifecycle.DeinitLeavesDropped | source/iotconnect.c:333-344 | a run in which it does not, and the event callback still forwards |
| SdkLifecycle.HistoryHolds | source/iotconnect.c:233-344 | the invariant of the SDK's object: what the runs keep, for its own history |
| SdkLifecycle.SdkClient.Init | source/iotconnect.c:283 | creates the queue; keeps all invariants of the history |
| SdkLifecycle.SdkClient.Connect | source/iotconnect.c:253-270 | succeeds exactly if it was not connected and subscribes, and then the queue has its client, whatever the library does before; keeps all invariants of the history |
| SdkLifecycle.SdkClient.Disconnect | source/iotconnect.c:233-237 | releases everything and leaves an empty queue without a client, whatever the library does meanwhile; keeps all invariants of the history |
| SdkLifecycle.SdkClient.Deinit | source/iotconnect.c:333-344 | takes down the queue, and releases the MQTT client exactly if it was connected or released, whatever the library does meanwhile; keeps all invariants of the history |
| SdkLifecycle.SdkClient.OnEvent | source/iotc_mqtt_client.c:44-97 | a message or a lost connection changes neither handle nor registration and keeps all invariants of the history |

## Left out

- Rows for the handlers of `SntpClient.Client`: each is proved equal to the `SntpModel` function of its name, and the
  row of `Handle` stands for them.
- Packet authentication, TLS and certificates, the HTTP client, OTA and certificate generation: calls into libraries
  that are not part of this model.
- `run_http_identity`, configuration copying and the qualification loop of source/iotconnect.c: what matters of the
  latter, a handler that disconnects, connects and polls, is in `InboundQueue.Call`.
- Debug output, `sntp_format_time`, the other getters, DHCP server lists and the fraction conversion without 64-bit
  integers.
- The stack's 32-bit millisecond clock: due times are unbounded integers.
- The result of `udp_sendto`, which the client ignores; a request counts as sent when it is handed over, and the trace
  records whether there was a socket. What the stack does without one is not part of this model.
- The RTC write in `iotc_set_system_time_us`, which drops the microseconds; the model stops at the hook's arguments.
- What `iotc_mq_process` delivers is never freed by the SDK, so nothing is claimed about it beyond its ownership.
- The application's status callback, beyond whether it is installed.
- Return codes of `iotc_cleanup_mqtt`: later results overwrite earlier ones.
- Callbacks of the MQTT library inside `iotc_mqtt_client_init` or inside `iotc_cleanup_mqtt`, and calls of the SDK
  before its init or after its deinit.
- MessageQueue.Message: the C functions clear the fields of a message through a pointer; here the cleared message is
  returned.
- InboundQueue.Queue.Process: the number of arrivals and reactions is finite in one call; the C loop runs on as long as
  messages keep arriving.
