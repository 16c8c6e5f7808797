# Verified model of the LoRa link runtime

This project models the parts of the repository in which the hard guarantees live, and proves them:

- **The ARQ link.** A transmit node samples, windows, encodes, queues, sends, retries, gives up and
  acknowledges windows under an 8-bit SEQ; a gate paces the channel and keeps the in-flight table; a mock
  link delays, reorders and drops frames; a receive node echoes one acknowledgement per frame; `run_pair`
  and `TxNode.run` interleave them with a clock. `ArqModel` holds the state and the functions that
  describe each operation; `ArqNodes` and `ArqTxRun` hold the objects and loops of the program, each method
  proved equal to its function; `ArqRuns` shows that these loops only take elementary steps, so a property
  of every reachable state holds at every point of every run, under every loss pattern, sampler and
  schedule.
- **The byte stream.** The incremental UART frame parser and the packet codec.
- **The logs.** The two scripts that rebuild from a log which windows were delivered, and the counting part
  of the metrics report, against the true state of the node that wrote the log.
- **The arithmetic.** Time on air and the timeouts derived from it, streaming normalisation under a shuffle
  buffer, the BAM transmission function with its layers and packing, the fixed-point codecs, and the
  Pareto sweep.

Every main result is a statement about all inputs, all runs or all reachable states. Time is an integer
number of milliseconds that stands still during one `process_once`; times on air, weights and samples are
real numbers.

## How the link is modelled

`Sys` is the state of the whole system. `Env` holds everything the program does not decide: the n-th drop
decision in each direction and the n-th answer of the sampler. The loss settings of the mock link, rates
and patterns for both directions or for each, are such decisions, and every sequence of decisions comes from
some setting (`ArqLoss`). `Config` holds the run specification, with
time on air and timeout as functions of the frame length; `ArqDerivedTimeouts.ConfigOf` builds it from
radio settings. Three pieces of history are kept beside the program's own state: `fed` (all samples), the
payloads inside `tx_sent` and `rx_ok` events (the program logs their lengths), and `lost` (windows whose
table entry was taken over by a later window with the same SEQ). "No SEQ was reused in flight" is `lost ==
{}`; it is proved from a table of one, from at most 256 windows, or from timing
(`ArqLiveness.NothingLost`); with the program's own derived timeouts the timing condition holds on every
radio setting whose frames are at least a millisecond apart
(`ArqDerivedTimeouts.DefaultTimeoutsNeverWrap`), and without such a condition reuse happens
(`ArqSeqReuse.NoReuseIff`).

The functions of the model take a codec whose payloads keep to the limit and a sampler whose rows have the
right length. The objects take any codec and any sampler: as long as they raise nothing they compute what
the model computes, and when they raise, the error and the state are given (`ArqNodes.Plugs`).

Where the code does something its documentation does not say, the code is followed:

- The design document treats the maximum number of retries as a control of the link. In the code a retry
  needs room in the in-flight table, and the entry to be retried takes that room itself: with
  `max_inflight = 1`, the default, nothing is ever resent; with retries enabled nothing is ever given up
  either, and a run finishes if and only if its sampler suffices and nothing it sends is dropped
  (`ArqStuck`, and `ArqCompletion.OneSlotDoneIffNoLoss`). Larger tables, too, can fill with windows that may
  be retried and never are; `ArqRetryEnds.AlwaysEndsIff` says for which timeouts every run still ends.
- An acknowledgement names a SEQ and nothing else, and the transmitter takes it for the window that is in
  flight under that SEQ. So the answer to window 0 can confirm window 256, which was never received, even
  over a link that drops nothing. Acknowledgements are sound in all runs if and only if at most 256
  windows are sent, or `max_inflight = 1` and retries are allowed (so that nothing is given up), or the
  encoding cannot tell the two windows apart (`ArqStaleAck.AckSoundIff`). In any run, an acknowledgement is
  sound unless the window that was really answered was first transmitted at least 256 send spacings before
  (`ArqFreshness.AckSoundUnlessStale`).
- With `guard_ms = 0` the gate can open up to a millisecond before the estimated end of the transmission
  (`ArqPacing.OverlapIffNoGuard`). Whether transmissions then overlap is a matter of what can follow at once:
  with a table of one, the default, the answer must be back by then, or without retries the window must
  have been given up, or a late answer with its SEQ must free its place. `ArqOverlap.OverlapIff` is the
  exact condition on every valid configuration; the example radio settings without guard time meet it
  (`ArqExample.ExampleOverlaps`).
- With `max_windows` set, `is_done` ignores that the sampler has run dry; without it, it waits for just that.
  `ArqLiveness.DoneIff` says exactly which samplers let a run end.
- A shuffle-buffer reader with `max_samples = 0` yields one window (`Dataset.Cap`).
- `phase3_report` numbers windows wrongly when some log lines carry their `window_id` and others do not;
  `validate_run` does not (`ArqReplay.MixedIdsMislead`; `ArqReplay.Phase3ExactIff` gives the exact condition).

## Model

| member | source | states |
|---|---|---|
| ArqNodes.LossModel.ShouldDrop | loralink_mllc/radio/mock.py:18-30 | with a pattern, decision n is entry n modulo its length; without, whether the n-th draw is below the rate; the count advances either way |
| ArqNodes.TxGate.CanSend | loralink_mllc/runtime/scheduler.py:67-73 | room in the table and the pacing deadline passed, nothing else |
| ArqNodes.TxGate.RecordSend | loralink_mllc/runtime/scheduler.py:75-103 | first attempt or repetition, counters, pacing state, error on a timeout that is not positive |
| ArqNodes.TxGate.MarkAcked | loralink_mllc/runtime/scheduler.py:105-110 | the entry leaves the table and is counted, an unknown SEQ changes nothing |
| ArqNodes.TxGate.CollectExpired | loralink_mllc/runtime/scheduler.py:112-118 | the SEQs due for a retry, in table order |
| ArqNodes.TxGate.TakeExpiredFailures | loralink_mllc/runtime/scheduler.py:120-126 | the entries to be given up leave the table, in table order, and are returned as they were |
| ArqNodes.MockLink.Send | loralink_mllc/radio/mock.py:62-68 | a frame is dropped or queued for the peer in order of delivery time, then bytes |
| ArqNodes.MockLink.Recv | loralink_mllc/radio/mock.py:70-84 | the polling loop returns the first frame due by the deadline, at the instant it is due, else ends at the deadline |
| ArqNodes.TxNode.constructor | loralink_mllc/runtime/tx_node.py:95-134 | a fresh node is the initial state of the model; the gate's default timeout is that of the longest frame |
| ArqNodes.TxNode.IsDone | loralink_mllc/runtime/tx_node.py:139-149 | completion with and without a window limit |
| ArqNodes.TxNode.QueueWindow | loralink_mllc/runtime/tx_node.py:151-197 | one sample taken, and the window it completes logged, encoded and queued; or which error is raised, and what has been done by then, for any codec and sampler |
| ArqNodes.TxNode.HandleIncoming | loralink_mllc/runtime/tx_node.py:199-231 | all frames due are read; only one-byte payloads naming a SEQ in flight acknowledge |
| ArqNodes.TxNode.RetryDueEntries | loralink_mllc/runtime/tx_node.py:233-267 | expired entries are resent in table order, each only while the gate is open |
| ArqNodes.TxNode.FailDueEntries | loralink_mllc/runtime/tx_node.py:268-278 | popping all failures first and reporting them afterwards is giving them up one by one |
| ArqNodes.TxNode.SendPending | loralink_mllc/runtime/tx_node.py:280-317 | the oldest pending window goes out under the next SEQ, if the gate is open |
| ArqNodes.TxNode.ProcessOnce | loralink_mllc/runtime/tx_node.py:319-325 | the four phases in this order, or the error of the first one |
| ArqNodes.RxNode.ProcessOnce | loralink_mllc/runtime/rx_node.py:48-93 | one frame is read, logged and answered under the receiver's own SEQ, or reported malformed |
| ArqNodes.RunPair | loralink_mllc/experiments/controller.py:8-20 | the bounded loop with its early exit is the model's loop, state for state; an error ends it in the state in which it is raised |
| ArqNodes.Experiment | loralink_mllc/experiments/controller.py:8-20 | for every loss setting of both directions, codec and sampler there are objects whose run is the model's run from the initial state, under exactly those losses, until an error is raised |
| ArqNodes.NothingRaised | loralink_mllc/runtime/tx_node.py:43-45 | rows of the right length and a codec that keeps to the limit raise nothing, in any state of any run |
| ArqTxRun.Run | loralink_mllc/runtime/tx_node.py:327-330 | the unbounded loop, from any state in which it stops at all: it ends done, or in the error of the call that raised it; done means that the sampler sufficed and, without reuse, that every window has been reported exactly once |
| ArqTxRun.RunStops | loralink_mllc/runtime/tx_node.py:327-330 | it stops, from any state of a run and whatever codec and sampler do, if the sampler suffices and retries cannot be shut out |
| ArqRuns.TxProcessOnceReachable | loralink_mllc/runtime/tx_node.py:319-325 | one call of process_once is a sequence of enabled elementary steps |
| ArqRuns.RunPairReachable | loralink_mllc/experiments/controller.py:8-20 | every state run_pair ends in is reachable by elementary steps |
| ArqClock.RunPairSleeps | loralink_mllc/experiments/controller.py:15-20 | the clock advances by one step per round except after the one that finds the transmitter done; the run ends done exactly if a round was left, and more rounds change nothing |
| ArqRuns.LoopReachable | loralink_mllc/runtime/tx_node.py:327-330 | likewise beside a receiver that is scheduled in any way |
| ArqRuns.OrderInvariant | loralink_mllc/runtime/scheduler.py:61-126 | the insertion order of the in-flight dictionary lists exactly its keys, once each |
| ArqTableOrder.OldestFirst | loralink_mllc/runtime/scheduler.py:75-103 | in every reachable state the table lists its entries by first transmission, and without reuse by window |
| ArqTableOrder.FailuresOldestFirst | loralink_mllc/runtime/tx_node.py:268-278 | the windows one call gives up are reported in increasing order |
| ArqTableOrder.RetriesOldestFirst | loralink_mllc/runtime/tx_node.py:233-267 | before a call resends a window it has resent every earlier one that was due as well |
| ArqTableOrder.ResendsTheOldest | loralink_mllc/runtime/tx_node.py:233-267 | where frames keep the channel for a millisecond, the one window a call resends is the earliest of all that are due |
| ArqCore.WindowConservation | loralink_mllc/runtime/tx_node.py:151-317 | generated windows are pending, in flight, acknowledged, failed or lost; payload keys are the in-flight keys; the table never exceeds its limit |
| ArqCore.ExactlyOneFate | loralink_mllc/runtime/tx_node.py:199-317 | every window sent is at every moment in exactly one of: in flight, reported once, lost to a reuse |
| ArqCore.FrameConservation | loralink_mllc/radio/mock.py:62-84 | data sent is dropped, queued or received; acked <= acknowledgements sent = received <= sent |
| ArqLink.ReplyIff | loralink_mllc/runtime/tx_node.py:199-214 | the transmit node takes exactly the frames [1, x, sn] for acknowledgements, whoever sent them, and ignores other well-formed frames |
| ArqLink.IncomingIff | loralink_mllc/runtime/rx_node.py:48-66 | the receive node accepts exactly the frames of a packet within the limit |
| ArqAnswers.AnswersConserved | loralink_mllc/runtime/rx_node.py:88-93 | in every run, what the transmitter has read and what is on its way to it are, each once, the answers the link did not drop; the k-th answer is [1, k mod 256, sn] of the k-th answer line; the receiver's SEQ is the number of receptions mod 256 |
| ArqAnswers.AllAnswersArrive | loralink_mllc/runtime/rx_node.py:88-93 | over a link that drops no answer, those are all answers |
| ArqAnswers.QueuedAnswer | loralink_mllc/runtime/rx_node.py:88-93 | in every reachable state a frame on its way to the transmitter is [1, k mod 256, sn], with k answers logged before the line that reports it |
| ArqDelivery.NextDelivery | loralink_mllc/radio/mock.py:12-15 | the next frame handed over is due no later than any other, and of those due at once the first of a dictionary |
| ArqDelivery.FrameLessIff | loralink_mllc/radio/mock.py:12-15 | the comparison of frames is that of dictionary words: a proper prefix, or a smaller byte at the first difference |
| ArqLoss.EachDirection | loralink_mllc/radio/mock.py:34-56 | each direction uses its own rate and pattern where given, the common ones otherwise, and its own draws |
| ArqLoss.RateEnds | loralink_mllc/radio/mock.py:28-30 | with draws in [0, 1), rate 0 never drops and rate 1 always |
| ArqLoss.RateGrows | loralink_mllc/radio/mock.py:28-30 | with the same draws, a higher rate drops whatever a lower one drops |
| ArqLoss.AnyLosses | loralink_mllc/radio/mock.py:18-30 | every sequence of drop decisions comes from some setting, so what holds in every environment holds for all settings and the other way round |
| ArqLossRuns.PatternLoses | loralink_mllc/radio/mock.py:25-30 | in every run, received plus queued frames number n minus the i < n with P[i mod length], for n data sends over a pattern P |
| ArqLossRuns.HitsInPeriods | loralink_mllc/radio/mock.py:25-27 | k whole periods hit k times as many frames as one |
| ArqLossRuns.SparingPatternDelivers | loralink_mllc/radio/mock.py:25-27 | a pattern that is false throughout delivers every window on its first attempt, in order |
| ArqLossRuns.FullPatternLosesAll | loralink_mllc/radio/mock.py:25-27 | with one that is true throughout nothing is received, answered or acknowledged in any run |
| ArqCore.TransmittedPayload | loralink_mllc/runtime/tx_node.py:170-197 | every transmission of window k carries the encoding of dataset record k, which is samples k*stride to k*stride + W, under SEQ k mod 256, and reports time on air and timeout of its frame and the guard time |
| ArqCore.TransmittedSamples | loralink_mllc/runtime/tx_node.py:43-55 | entry by entry: entry r * dims + d of that record is coordinate d of sample k*stride + r |
| ArqAttempts.AttemptsBounded | loralink_mllc/runtime/tx_node.py:233-278 | without reuse: at most max_retries + 1 transmissions of a window, numbered in order; given up after exactly that many |
| ArqBudget.SendsBounded | loralink_mllc/runtime/scheduler.py:81-118 | in every run, reuse or not, at most max_retries + 1 transmissions for each window sent |
| ArqAttempts.LatencyAccounts | loralink_mllc/runtime/tx_node.py:215-231 | queue_ms is the age at the first transmission, rtt_ms counts from that transmission also after retries, e2e_ms is their sum |
| ArqPatience.WaitsForAnswers | loralink_mllc/runtime/tx_node.py:233-278 | in every run no window is resent or given up before the timeout of its frame has passed since each of its earlier transmissions |
| ArqPatience.AgesAgree | loralink_mllc/runtime/tx_node.py:251-317 | the ages that transmissions of one window report differ by the time between them |
| ArqPacing.ChannelPacing | loralink_mllc/runtime/scheduler.py:67-103 | consecutive transmissions, first attempts and retries alike, are at least floor(toa + guard) apart; with a guard they never overlap |
| ArqPacing.OverlapIffNoGuard | loralink_mllc/runtime/scheduler.py:70-73 | the gate opens before the end of the transmission if and only if there is no guard and the time on air is not whole |
| ArqOverlap.OverlapIff | loralink_mllc/runtime/scheduler.py:67-73 | on every valid configuration: consecutive transmissions of some run overlap if and only if there is no guard time and some window's time on air is not whole and can be followed at once, by another window or by its own repetition |
| ArqTurnaround.Turnaround | loralink_mllc/runtime/tx_node.py:233-317 | how soon a transmission can follow the one before it in any run: with a table of one not before its answer can be back, it can be given up, or from window 256 on a millisecond has passed; with one window not before it expires |
| ArqLatePair.LatePair | loralink_mllc/runtime/tx_node.py:209-231 | without retries, the answer to window 0 can free the place of window 256 in a table of one while that is on the air, and window 257 overlaps it |
| ArqExample.ExampleOverlaps | configs/examples/raw.json:5-35 | on the example radio settings without guard time, with the default table of one and a latency of at most 30 ms, transmissions overlap |
| ArqPacing.AirtimeBudget | loralink_mllc/runtime/scheduler.py:99-103 | total time on air except the last is at most the elapsed time minus (n-1)(guard-1) |
| ArqSeqWrap.NoReuseByCount | loralink_mllc/runtime/scheduler.py:81-98 | no SEQ is reused in flight up to 256 windows or with a table of one |
| ArqSeqWrap.SeqWrapIsSafe | loralink_mllc/runtime/tx_node.py:233-299 | without retries, and if the first frame of any 256 consecutive windows that can occur expires within their spacings taken together, the next SEQ is never in flight when a window is sent, in runs of any length |
| ArqSeqWrap.LostInvariant | loralink_mllc/runtime/scheduler.py:81-98 | a window is only ever lost to one sent at least 256 windows later under the same SEQ, whose first transmission is logged as a repetition, and only with a table of two or more |
| ArqSeqReuse.ReuseHappens | loralink_mllc/runtime/tx_node.py:280-300 | for rows whose first frame outlives the spacings of windows 0 to 255 there is a run of the transmit loop in which only that frame is dropped and window 256 takes over its entry, with any retry limit |
| ArqSeqReuse.NoReuseIff | loralink_mllc/runtime/tx_node.py:280-300 | for any codec, without retries and with round trips within the spacings: no run of the transmit loop reuses a SEQ in flight if and only if frames always expire in time, or the table has one place, or at most 256 windows are sent |
| ArqSeqReuse.UniformInTimeIff | loralink_mllc/runtime/tx_node.py:289-296 | for frames of one length, expiring in time is a timeout of at most 256 spacings |
| ArqDerivedTimeouts.ConfigIsValid | loralink_mllc/runtime/toa.py:16-66 | accepted radio settings give every frame a time on air and a positive timeout; all other settings are taken over as they are |
| ArqDerivedTimeouts.TimeoutIsLeast | loralink_mllc/runtime/tx_node.py:288-296 | the timeout of a frame of n bytes is the given one, else the least whole number of milliseconds covering the time on air of n bytes, that of 3 bytes and 40 ms |
| ArqDerivedTimeouts.AnswersHaveTime | loralink_mllc/runtime/toa.py:51-66 | with derived timeouts, in every run, no window is resent or given up before its own time on air, an answer's and 40 ms have passed since each of its transmissions |
| ArqDerivedTimeouts.DefaultTimeoutsNeverWrap | loralink_mllc/runtime/tx_node.py:289-296 | with derived timeouts, no retries and a spacing of at least a millisecond no SEQ is ever reused in flight, on every accepted radio setting |
| ArqSoundness.AckProvenance | loralink_mllc/runtime/tx_node.py:199-231 | an acknowledgement answers an earlier reception of an earlier transmission with the same SEQ, with the latencies between them |
| ArqSoundness.AckSoundUpTo256 | loralink_mllc/runtime/rx_node.py:48-93 | up to 256 windows, an acknowledged window had been received with exactly its payload |
| ArqFreshness.AckSoundUnlessStale | loralink_mllc/runtime/tx_node.py:199-231 | in any run with any retry limit: an acknowledgement is sound, or answers a window whose first transmission (its only one without retries) is at least 256 spacings old |
| ArqStaleAck.AckSoundIff | loralink_mllc/runtime/tx_node.py:209-231 | acknowledgements are sound in all runs of the transmit loop if and only if at most 256 windows are sent, or the table holds one entry and retries are allowed, or the encoding cannot tell windows 0 and 256 apart |
| ArqStaleAck.UnsoundUnlessSafe | loralink_mllc/runtime/tx_node.py:209-231 | otherwise there is a run over a link that drops nothing in which the answer to window 0 acknowledges window 256, which the receiver has not received |
| ArqAckSound.OneSlotSound | loralink_mllc/runtime/tx_node.py:199-231 | with a table of one that never gives up every acknowledgement is sound, in runs of any length |
| ArqAckSound.AckSoundWhenSafe | loralink_mllc/runtime/tx_node.py:199-231 | each of the three conditions makes every acknowledgement in every reachable state sound |
| ArqAckSound.TellsIff | loralink_mllc/runtime/tx_node.py:40-55 | unless windows 0 and 256 overlap, telling them apart is to encode some two windows differently |
| ArqExample.RadioAckSoundIff | loralink_mllc/runtime/toa.py:16-66 | the same condition decides on every accepted radio setting, with its own times on air and timeouts |
| ArqExample.ExampleIsUnsound | configs/examples/raw.json:5-35 | on the example settings with the raw codec and no window limit there is such an unsound run |
| ArqTimedSoundness.AckSoundByTiming | loralink_mllc/experiments/controller.py:15-20 | in run_pair with round trips of at most 256 spacings every acknowledgement is sound, whatever is dropped |
| ArqLiveness.Terminates | loralink_mllc/runtime/tx_node.py:139-149 | the transmit loop reaches is_done from every reachable state, under any loss and receiver schedule, if the sampler suffices and retries cannot be shut out of a full table |
| ArqLiveness.DoneIff | loralink_mllc/runtime/tx_node.py:139-168 | if retries cannot be shut out, a run ends if and only if its sampler suffices, for every plan of pauses in which the clock keeps advancing |
| ArqRoom.RoomKept | loralink_mllc/runtime/tx_node.py:233-299 | if no windows that can occur linger (none of them expires before the gate opens again after all of them) until they take all places but one, the table never fills, because expired entries are resent before anything new is sent |
| ArqRetryEnds.AlwaysEndsIff | loralink_mllc/runtime/tx_node.py:233-299 | for any codec, if windows can be strung together in any order (they do not overlap, or all frames have one length): every run whose sampler suffices ends if and only if there are no retries, or the table has more places than there are SEQs or windows, or no windows can linger until they take all of its places but one |
| ArqRetryEnds.UniformLingerIff | loralink_mllc/runtime/tx_node.py:289-296 | for frames of one length, windows linger if and only if the timeout is longer than max_inflight - 1 spacings |
| ArqRetryEnds.NeverDone | loralink_mllc/runtime/tx_node.py:233-243 | rows whose windows linger fill the table, over a dead link, with entries that may be retried and never are, and that run is never done |
| ArqSampling.SufficesWithLimit | loralink_mllc/runtime/tx_node.py:139-168 | with a limit of N windows: N is 0, or W + (N-1)*stride rows come before the sampler ends |
| ArqLiveness.DoneMeansResolved | loralink_mllc/runtime/tx_node.py:139-149 | at is_done all windows that limit and sampler allow have been built, and each has been reported acknowledged or failed exactly once |
| ArqLiveness.NothingLost | loralink_mllc/runtime/scheduler.py:81-98 | the three conditions that rule out a reuse of SEQ in flight |
| ArqLiveness.EveryRunEndsExactlyOnce | loralink_mllc/runtime/tx_node.py:327-330 | termination and exactly-once resolution of every run from its start |
| ArqLiveness.RunPairEndsExactlyOnce | loralink_mllc/experiments/controller.py:8-20 | the same for run_pair with enough rounds |
| ArqStuck.StuckIsClosed | loralink_mllc/runtime/tx_node.py:233-243 | a full table of retryable entries is left unchanged by every step except an acknowledgement for one of them |
| ArqStuck.StuckForever | loralink_mllc/runtime/tx_node.py:233-243 | with the link silent such a state is kept for ever and is never done |
| ArqStuck.OneSlotNeverRetries | loralink_mllc/runtime/scheduler.py:67-69 | with a table of one nothing is ever resent |
| ArqStuck.OneSlotNeverFails | loralink_mllc/runtime/scheduler.py:120-126 | with a table of one and retries enabled nothing is ever given up |
| ArqStuck.OneSlotDoneNeedsNoLoss | loralink_mllc/runtime/tx_node.py:139-149 | such a run can only be done if none of its frames was dropped |
| ArqLossFree.ReadableFrom | loralink_mllc/radio/mock.py:66-78 | in which round a frame sent in some round can first be read |
| ArqLossFree.LongTimeoutsArePatient | loralink_mllc/runtime/scheduler.py:112-126 | timeouts of at least twice the latency and a step outlast every round trip |
| ArqLossFree.LossFreeDelivery | loralink_mllc/experiments/controller.py:15-20 | without drops every window is acknowledged on attempt one, in send order, and nothing is resent, failed or lost |
| ArqCompletion.LossFreeCompletes | loralink_mllc/experiments/controller.py:15-20 | such a run completes for every sampler that suffices, with all its windows acknowledged and PDR and ETX equal to one |
| ArqCompletion.OneSlotDoneIffNoLoss | loralink_mllc/runtime/tx_node.py:238-239 | with a table of one and retries enabled a run completes if and only if its sampler suffices and nothing it sends is dropped |
| PacketCodec.RoundTrip | loralink_mllc/protocol/packet.py:27-60 | parsing and serialising are inverse in both directions, under every limit, errors included |
| PacketCodec.PrefixFree | loralink_mllc/protocol/packet.py:40-60 | no accepted frame is a proper prefix of another |
| PacketCodec.ErrorIff | loralink_mllc/protocol/packet.py:27-60 | which error a frame or a packet meets: the first check it fails |
| Windows.WindowBuilder.FeedSample | loralink_mllc/runtime/tx_node.py:43-55 | the deque update, the emission rule and the flattening; an error leaves the builder unchanged |
| Windows.BufferIsLastRows | loralink_mllc/runtime/tx_node.py:40-47 | the deque holds exactly the last rows |
| Windows.EmitsWhenDue | loralink_mllc/runtime/tx_node.py:48-55 | sample n emits if and only if n >= W and n - W is a multiple of the stride |
| Windows.WindowJoin | loralink_mllc/runtime/tx_node.py:43-55 | the k-th window is exactly samples k*stride to k*stride + W, and there are as many as fit |
| Windows.WindowEntry | loralink_mllc/runtime/tx_node.py:52-55 | entry i * dims + d of the k-th window is coordinate d of sample k*stride + i |
| UartFraming.UartFrameParser.Create | loralink_mllc/radio/uart_framing.py:23-28 | the range check of the constructor |
| UartFraming.UartFrameParser.Pop | loralink_mllc/radio/uart_framing.py:34-52 | the deleting loop computes the scan of the buffer |
| UartFraming.DrainIffDecomposition | loralink_mllc/radio/uart_framing.py:34-52 | the frames and residue of a stream are the ones of its only decomposition into noise bytes and frames |
| UartFraming.EveryStreamDecomposes | loralink_mllc/radio/uart_framing.py:34-52 | every stream has such a decomposition |
| UartFraming.ChunkingIndependence | loralink_mllc/radio/uart_framing.py:30-52 | however a stream is cut into feeds and wherever pops are interleaved, frames, RSSI values and residue are those of the whole stream |
| UartFraming.ResidueBounded | loralink_mllc/radio/uart_framing.py:36-44 | what stays buffered after an empty pop is shorter than one largest frame |
| UartFraming.PoppedFrameIsPacket | loralink_mllc/radio/uart_framing.py:45-52 | every popped frame is accepted by the packet codec and serialises to itself |
| UartFraming.RoundTripAfterNoise | loralink_mllc/radio/uart_framing.py:34-52 | packets after any run of bytes too large to be a length come out exactly, in order, with empty residue |
| UartFraming.NoiseAlone | loralink_mllc/radio/uart_framing.py:35-41 | noise alone leaves exactly its last byte |
| LogReplay.StableSortCorrect | scripts/phase3_report.py:63-64 | the sort is stable: ordered, a permutation, equal time stamps keep their order |
| LogReplay.InferAckedWindowIds | scripts/phase3_report.py:62-100 | the loop over the sorted transmit lines computes the replay of this script |
| LogReplay.AckedWindowIds | scripts/validate_run.py:118-157 | the loop of the other script and its two warnings |
| LogJoin.EntryIff | scripts/phase3_report.py:66-99 | for any log: a SEQ has an entry exactly if some line that could put one has not been cleared since |
| LogJoin.Held | scripts/validate_run.py:126-157 | for any log: the entry is the window of the line that holds it, the last first attempt or else the first later line that names one; its id or the number inferred for it |
| LogJoin.FollowingIs | scripts/validate_run.py:135-140 | the number validate_run infers is one more than the largest window so far, and at least 0 |
| LogJoin.ScriptJoins | scripts/validate_run.py:144-155 | for any log: an answer is joined to the window it names, else to that of the line holding the entry under its SEQ |
| LogJoin.ScriptCounts | scripts/validate_run.py:126-157 | for any log: how many answers are joined; validate_run counts exactly the others, and exactly the first attempts without an id |
| ArqReplay.ReplayExact | scripts/validate_run.py:118-157 | on the log of any run without reuse both scripts return exactly the acknowledged windows in order, with all ids in place and with all ids stripped |
| ArqReplay.ValidateRunExact | scripts/validate_run.py:118-157 | validate_run does so with any selection of ids stripped, warns of no acknowledgement, and of exactly as many inferred ids as first attempts have lost theirs |
| ArqReplay.MergedReplay | scripts/validate_run.py:118-157 | the same from the merged log of both nodes, of which only the transmitter's lines are replayed |
| ArqReplay.Phase3ExactIff | scripts/phase3_report.py:62-100 | phase3_report does so if and only if each acknowledgement line, or the first attempt of its window, has kept the id, or else no first attempt before that one has |
| ArqReplay.ReplayExactWithIds | scripts/phase3_report.py:62-100 | with all ids in place this holds in every run, and there is nothing to warn about |
| ArqReplay.ReplayedTable | scripts/phase3_report.py:66-99 | the replayed table has exactly the SEQs in flight as keys; with no id stripped, or all, it is the live join between SEQs and windows |
| ArqReplay.MixedIdsMislead | scripts/phase3_report.py:77-81 | in every run in which a window after the first is acknowledged, a single id left in the log makes phase3_report name a wrong window; validate_run is right |
| ArqCompletion.OneIdMisleads | scripts/phase3_report.py:77-81 | this happens after every loss-free run of two or more windows |
| LogMetrics.ComputeMetrics | loralink_mllc/experiments/metrics.py:65-124 | the comprehensions and the accumulating loop compute the report |
| LogMetrics.CountsLines | loralink_mllc/experiments/metrics.py:65-124 | for any log: the lines of each kind are counted, and the retries are the lines with an attempt number beyond 1 |
| LogMetrics.RatiosOfReport | loralink_mllc/experiments/metrics.py:77-96 | for any log: receptions, or without any acknowledgements, over transmissions; transmissions over acknowledgements; delivered over sent windows; when each is absent |
| ArqMetrics.MetricsMatch | loralink_mllc/experiments/metrics.py:65-124 | on a transmit log the report equals the live counters and ratios: sent, acknowledged, failed, retries, air time, windows; the delivery ratio is at most one |
| ArqMetrics.MergedMetrics | loralink_mllc/experiments/metrics.py:92-96 | with the receiver's log added its lines are counted too, the ratio is that of receptions and at least the live one, and no frame is ever unreadable |
| TimeOnAir.DefinedIff | loralink_mllc/runtime/toa.py:8-24 | the estimate exists exactly for one-byte lengths and accepted settings, and is positive |
| TimeOnAir.ErrorIff | loralink_mllc/runtime/toa.py:8-66 | which error estimate and timeout meet: the first check that fails, data frame before answer |
| TimeOnAir.DatasheetEquations | loralink_mllc/runtime/toa.py:26-48 | the estimate solves the data sheet's equations: fewest blocks that hold all bits, both preamble constants, when the optimisation is on |
| TimeOnAir.MoreTakesLonger | loralink_mllc/runtime/toa.py:26-48 | nondecreasing in length, preamble, coding rate, CRC, header and optimisation together; strictly shorter with more bandwidth |
| TimeOnAir.StrictlyDecreasingInBandwidth | loralink_mllc/runtime/toa.py:26-48 | also where bandwidth switches the automatic optimisation off |
| TimeOnAir.StrictlyIncreasingInSf | loralink_mllc/runtime/toa.py:30-48 | strictly increasing over 5..12, across the change of formula and the automatic optimisation |
| TimeOnAir.TimeoutCovers | loralink_mllc/runtime/toa.py:51-66 | the timeout is the least whole number of milliseconds covering data, acknowledgement and margin; when it is defined |
| TimeOnAir.DerivedTimeoutFits | loralink_mllc/runtime/toa.py:51-66 | a derived timeout is at most 256 times the spacing after any frame, if that spacing is at least a millisecond |
| Dataset.IterDatasetRecords | scripts/phase2_train_bam.py:49-113 | for every shuffle buffer and random choice the yields are a permutation of the accepted records, or as many as the limit allows; a faulty line is reported exactly if the yields before it, whose number is given, have not reached the limit |
| Dataset.AcceptedGrows | scripts/phase2_train_bam.py:64-91 | nothing is accepted after the first faulty line |
| Dataset.JudgedBy | scripts/phase2_train_bam.py:64-91 | exactly which lines raise what, which are taken and which skipped |
| Dataset.SplitTakes | scripts/phase2_train_bam.py:39-46 | a window is taken if and only if its hash lies below the ratio; a larger ratio takes all a smaller one does |
| Shuffling.Shuffle | scripts/phase2_train_bam.py:107-109 | the swap loop of the final shuffle |
| Shuffling.EveryOrder | scripts/phase2_train_bam.py:107-109 | every order of the elements comes out for some draws |
| Shuffling.OneChoice | scripts/phase2_train_bam.py:107-109 | of different elements each order comes out by only one choice of places, so uniform draws make all orders equally likely |
| Normalisation.WelfordStep | scripts/phase2_train_bam.py:142-147 | one update keeps mean and m2 equal to arithmetic mean and sum of squared deviations |
| Normalisation.OrderIrrelevant | scripts/phase2_train_bam.py:132-147 | both depend only on the multiset of windows |
| Normalisation.ComputeNormZscore | scripts/phase2_train_bam.py:116-158 | the streaming result is the two-pass mean and deviation of the accepted records, whatever the shuffle |
| Normalisation.ZscoreIff | scripts/phase2_train_bam.py:161-172 | normalising fails exactly where lengths differ; each coordinate less its mean, over its spread, or zero without spread |
| Normalisation.NormalisedDataset | scripts/phase2_train_bam.py:161-172 | normalising the dataset gives every coordinate with spread mean zero and sample variance one |
| BamDynamics.NoClippingIff | loralink_mllc/codecs/bam.py:169-175 | nothing in [-1, 1] is clipped if and only if -4 <= delta <= 1/2 |
| BamDynamics.ClippedIsNearest | loralink_mllc/codecs/bam.py:169-175 | for every delta and x: the point of [-1, 1] nearest to (delta + 1) x - delta x^3, and the only one |
| BamDynamics.BeyondOne | loralink_mllc/codecs/bam.py:169-175 | for x > 1: 1 if and only if delta x (x + 1) <= 1, and -1 if and only if delta x (x - 1) >= 1; the same below -1 with signs exchanged |
| BamDynamics.ClippedIncreases | loralink_mllc/codecs/bam.py:169-175 | strictly increasing and odd |
| BamDynamics.NeverShrinks | loralink_mllc/codecs/bam.py:169-175 | sign kept, magnitude never smaller, and only -1, 0 and 1 stay where they are |
| BamDynamics.IterateNeverShrinks | loralink_mllc/codecs/bam.py:254-258 | the same after any number of iterations |
| BamDynamics.IterateIncreases | loralink_mllc/codecs/bam.py:254-258 | different values stay different and in order |
| Bam.RunEncodeLayer | loralink_mllc/codecs/bam.py:246-259 | the cycle loop of one layer |
| Bam.RunDecodeLayer | loralink_mllc/codecs/bam.py:270-283 | the cycle loop of one layer in reverse |
| Bam.Encode | loralink_mllc/codecs/bam.py:236-260 | the packed latent vector of the window, or which error |
| Bam.Decode | loralink_mllc/codecs/bam.py:262-285 | the reconstruction of the unpacked latent vector, or which error |
| BamPaths.LatentPath | loralink_mllc/codecs/bam.py:236-260 | for any layers, cycles and windows: which matrix each vector on the way to the latent vector has passed through; after each, every component is the nearest point of [-1, 1] to the polynomial, or unchanged without delta |
| BamPaths.ReconstructionPath | loralink_mllc/codecs/bam.py:262-285 | the same for the way back, last layer first, V before W |
| BamPaths.OneOutcome | loralink_mllc/codecs/bam.py:169-175 | so a pass through a matrix has one outcome |
| BamProperties.MatrixActs | loralink_mllc/codecs/bam.py:247 | a matrix acts linearly and maps unit vectors to its columns |
| BamProperties.NormActs | loralink_mllc/codecs/bam.py:146-167 | each coordinate less its mean, over its spread, or zero without spread; and the inverse |
| BamProperties.OneLayerLatent | loralink_mllc/codecs/bam.py:236-260 | one layer, no cycles, any window: each component is the nearest point to the polynomial of the weighted sum |
| BamProperties.OutsideTheInterval | loralink_mllc/codecs/bam.py:169-175 | for the value 3 and delta 1/10 it is 6/10, packed as 19660 |
| BamProperties.DynamicsErrorIff | loralink_mllc/codecs/bam.py:55-63 | which dynamics the constructor refuses, and how |
| BamProperties.PackErrorIff | loralink_mllc/codecs/bam.py:177-223 | when packing and unpacking fail, and how |
| BamProperties.StoredIs | loralink_mllc/codecs/bam.py:191-202 | rounded to the nearest integer with ties to even, saturated, two's complement, lower byte first |
| BamProperties.CheckedDynamicsNeverClip | loralink_mllc/codecs/bam.py:55-63 | what the constructor checks is enough to rule out clipping |
| BamProperties.LatentBounded | loralink_mllc/codecs/bam.py:236-260 | with nonzero delta every latent component lies in [-1, 1], for all weights and cycles |
| BamProperties.PackedReturns | loralink_mllc/codecs/bam.py:185-223 | unpacking returns every number as its stored level |
| BamProperties.LatentRoundTrip | loralink_mllc/codecs/bam.py:185-223 | at scales up to 127 or 32767 nothing saturates and components come back within 1/(2 scale) |
| BamProperties.IdentityLayersIterate | loralink_mllc/codecs/bam.py:246-283 | identity layers apply the transmission function 2 + 2e + 2d times per layer |
| BamProperties.IdentityLayersNeverShrink | loralink_mllc/codecs/bam.py:246-283 | so no component shrinks or leaves the interval |
| BamProperties.IdentityCodecLoads | loralink_mllc/codecs/bam.py:55-63 | codecs of identity layers exist for every size and depth; which dynamics the constructor accepts for them |
| BamProperties.LinearReconstruction | loralink_mllc/codecs/bam.py:236-285 | without dynamics, layers that undo each other reconstruct exactly for any number of layers and cycles |
| RawCodec.Encode | loralink_mllc/codecs/raw.py:18-29 | the clamping and rounding loop and the packing |
| FixedPoint.RoundIff | loralink_mllc/codecs/raw.py:25 | rounding is to the nearest integer, ties to even |
| RawCodec.BytesOfValue | loralink_mllc/codecs/raw.py:18-29 | the bytes of a value in numbers: nearest point of [-1, 1], scaled, rounded, saturated, lower byte first |
| RawCodec.ValueOfBytes | loralink_mllc/codecs/raw.py:31-37 | and read back |
| RawCodec.EncodeIsStable | loralink_mllc/codecs/raw.py:18-37 | encode, decode, encode gives the same bytes at every positive scale |
| RawCodec.DecodeError | loralink_mllc/codecs/raw.py:18-37 | at scales up to 32767 values in [-1, 1] come back within half a step |
| Sensor12.Encode | loralink_mllc/codecs/sensor12_packed.py:60-101 | the fields of every step in order, 30 bytes for 12 values, or the length error |
| Sensor12.Decode | loralink_mllc/codecs/sensor12_packed.py:103-141 | the fields read back from their places, or the length error |
| Sensor12.FieldAt | loralink_mllc/codecs/sensor12_packed.py:84-101 | every field occupies exactly its own place |
| Sensor12.FloatsAt | loralink_mllc/codecs/sensor12_packed.py:84-101 | the three 32-bit fields of step t at offset 30 t |
| Sensor12.IntegersAt | loralink_mllc/codecs/sensor12_packed.py:84-101 | the nine 16-bit fields of step t at offset 30 t + 12, each with its own scale, in numbers |
| Sensor12.IntegersFrom | loralink_mllc/codecs/sensor12_packed.py:103-141 | and read back |
| Sensor12.FieldReturns | loralink_mllc/codecs/sensor12_packed.py:60-141 | every field comes back as its 32-bit self or its 16-bit level |
| Sensor12.FieldError | loralink_mllc/codecs/sensor12_packed.py:10-15 | integer fields come back within 1/(2 scale) or saturate at the limit they lie beyond |
| Sensor12.EncodeIsStable | loralink_mllc/codecs/sensor12_packed.py:60-141 | encode, decode, encode gives the same bytes |
| Sensor12Truncate.Truncating.Encode | loralink_mllc/codecs/sensor12_packed_truncate.py:46-59 | cut or zero-padded to the payload length, or which error |
| Sensor12Truncate.Truncating.Decode | loralink_mllc/codecs/sensor12_packed_truncate.py:61-67 | any payload is refitted to the full length and decoded |
| Sensor12Truncate.TruncatedField | loralink_mllc/codecs/sensor12_packed_truncate.py:46-67 | fields inside the payload decode as in the full codec, fields beyond it as zero |
| Sensor12Truncate.SplitField | loralink_mllc/codecs/sensor12_packed_truncate.py:46-67 | an integer field cut in the middle decodes as its low byte |
| Sensor12Truncate.LongPayloadIsLossless | loralink_mllc/codecs/sensor12_packed_truncate.py:46-67 | thirty bytes per step lose nothing |
| Pareto.ParetoFront | scripts/phase2_sweep_bam.py:311-320 | no kept point is dominated, every point is covered by a kept one, and the front is strictly increasing in x and decreasing in y |
| Pareto.FrontIsUnique | scripts/phase2_sweep_bam.py:311-320 | these properties determine the coordinates of the front |

## Left out

- Both nodes write to one log object in `ArqNodes`, which fixes the order of their events; the program writes one file per node. Log replay and metrics are stated for the transmitter's file, for any interleaving with the receiver's lines (replay), and for the merged file (metrics).
- Records of the in-flight table, pending windows and deliveries are values, not shared objects; the program never shares them.
- The priority queues of the mock link are kept as sorted lists; the array layout of a heap is not modelled.
- The stop flags of both nodes, `RxNode.run` with its limits, and `stop()`.
- Sensor time stamps, RSSI, encoding times and the reconstruction events of the receiver: they are logged and influence nothing.
- `max_payload_bytes` is at most 253, because a frame of 2 + payload bytes has no time on air beyond 255; a longer frame raises an error that is not modelled. A codec of a transmit node returns bytes for every window; errors it raises itself are not modelled there.
- A clock that starts before zero; `RealClock`, the serial radio and the real medium with collisions.
- ArqRetryEnds.AlwaysEndsIff: for overlapping windows whose frames have different lengths the two directions are proved apart (`ArqRoom.RoomKept` with `ArqLiveness.DoneIff`; `ArqRetryEnds.NeverDone`), because which windows can follow each other is then a matter of the codec; spacings of less than a millisecond are left out.
- ArqSeqReuse.NoReuseIff: with retries only the failing direction is proved (`ArqSeqReuse.ReuseHappens`); round trips longer than a spacing are left out, because with them the size of the table decides how fast windows can follow each other.
- ArqTxRun.Run: a method must terminate, so the loop is modelled from states in which it stops; which runs never stop is proved of the model's loop (`ArqLiveness.DoneIff`, `ArqRetryEnds.NeverDone`).
- Rounding of floating-point numbers, the bit patterns of 16-bit and 32-bit floats (the GPS fields are four opaque bytes that round-trip), and overflow when packing them.
- Bam.Encode: the packings `float16` and `float32` are not modelled, because they would need the bit patterns of floats.
- Bam.Decode: likewise. File loading is left out too; what the loader checks is the predicate `Bam.Loaded`.
- LogMetrics.ComputeMetrics: quantiles and summary statistics of the report, which would only add easy members.
- ArqNodes.RxNode.ProcessOnce: decoding the payload in LATENT mode and its `recon_*` events, which influence nothing else.
- The random generators and the SHA-256 split are arbitrary functions.
- Run specification and manifest validation, sensor schema mapping, command line, energy and KPI reports.
- Windows.WindowBuilder.FeedSample: rows are values, so the copy the program makes of each row is not visible.
