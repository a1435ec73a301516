# End-to-end OSC latency harness — a Dafny model

This project models the measurement core of the `e2e` latency harness of
taposc (`src/e2e.cpp`). A sender transmits serial numbers `0, 1, 2, …` in
OSC messages on `/timer`. A receiver, built on liblo or oscpack, records each
serial together with a latency sample. Both run in one process, and the
receiver gets the sender's own messages over the loopback port. The sender
waits until its current serial has been received before sending the next
one. At the end the samples are
sorted, and the mean, the squared-deviation sum and five cut points are
reported: the 50th, 75th, 90th and 99th percentiles and the worst sample.

Modules:

- `OscArgs` (`osc_args.dfy`): the received argument list. It defines how
  liblo and oscpack each read a serial out of it, or reject the list.
- `Measurement` (`measurement.dfy`): the shared `State` record as a class.
  It has liblo's receive callback, oscpack's `OscPackReceiver` class, the
  in-place sort, the wait predicate `Released`, and the pure effect of one
  delivered message (`Receive`, `Deliver`).
- `Sender` (`sender.dfy`): the sender's round loop. The two threads become an
  explicit schedule. Each `Round` has three parts: the messages the receiver
  handles after the sender's `quit` check and before the stamp, the stamp
  time, and the messages the receiver handles while the sender waits.
  `SenderLoop` and `Await` are pure specifications. The lemmas about them
  prove the loop's properties. `SendLoop` and `Wait` are the imperative loops,
  proved equal to them.
- `Stats` (`stats.dfy`): the statistics block. It includes the source's
  unsigned mean and its unchecked empty report, modelled as written (see
  Findings).
- `E2E` (`e2e.dfy`): `main`'s control flow. It selects the libraries by
  name, lets the started receiver handle the messages that reach it before
  the first round, runs the loop, sorts the samples and builds the
  corrected report.
- `Wrappers` (`wrappers.dfy`): `Option` and `Result`.

Timestamps are integers in nanoseconds, supplied by the caller. Samples and
sums are unbounded integers.

The harness's documented intent differs from its code in four places. The
model of the receivers and of the loop follows the code. The statistics
block is modelled twice: as written (`Stats.MeanAsWritten`,
`Stats.WorstIndexAsWritten`) and corrected (`Stats.Summarize`), and the
whole run (`E2E.RunE2E`) reports the corrected statistics named in the two
"## Findings" rows:

- By intent, the number of samples never exceeds the number of
  iterations. The code appends one sample per accepted message, so a
  duplicated delivery of one message adds a second sample for one send
  (`Sender.DuplicatedDeliveryAddsSample`).
- By intent, a relaxed completion predicate (`serial >= i`) is allowed.
  The code uses strict equality only (`Released`).
- By intent, a bad iteration count is a configuration error. The code does
  not check it: a count of zero or less runs no round.
- By intent, an empty sample set is reported as an error. The code divides
  by zero instead. This is modelled as a finding; the corrected
  `Summarize` returns `NoSamples`.

## Model

| member | source | states |
|---|---|---|
| `OscArgs.LibloSerial` | src/e2e.cpp:48-53 | accepted iff there is exactly one argument and its type tag is 'i'; the serial read is that argument's value |
| `OscArgs.ReadInt32` | src/e2e.cpp:68-70 | `args >> serial`: MissingArgument iff the list is empty, WrongArgumentType iff the first tag is not 'i', otherwise the first argument's value |
| `OscArgs.OscPackSerial` | src/e2e.cpp:67-81 | oscpack accepts iff the first argument is an int32; later arguments are ignored |
| `OscArgs.OscPackAcceptsWhatLibloAccepts` | src/e2e.cpp:48-81 | whatever liblo accepts, oscpack accepts with the same serial |
| `OscArgs.ReceiversDisagreeOnlyOnTrailingArgs` | src/e2e.cpp:48-81 | the two receivers differ exactly on lists that start with an int32 and have further arguments; on those, liblo rejects |
| `Measurement.Receive` | src/e2e.cpp:48-56 | an accepted serial is recorded, exactly one sample `receiveTime - startTime` is appended, and quit is unchanged; a rejected message sets quit and leaves serial and samples unchanged; startTime is never touched |
| `Measurement.Released` | src/e2e.cpp:156 | quit releases every round; without quit, exactly the round equal to the recorded serial is released (strict equality) |
| `Measurement.State.RoundDone` | src/e2e.cpp:156 | the object's wait predicate holds iff `Released` holds of its current value |
| `Measurement.Deliver` | src/e2e.cpp:111-132 | any delivered message keeps quit once set, keeps startTime, and extends the samples by at most one, keeping the existing ones as a prefix |
| `Measurement.InitialStateWaits` | src/e2e.cpp:99-101 | from the initial state, no round `i >= 0` is released, before or after stamping |
| `Measurement.ReplyReleasesOnlyItsOwnRound` | src/e2e.cpp:156 | without quit, a well-formed reply releases round `i` iff its serial is exactly `i` |
| `Measurement.MalformedReplyReleases` | src/e2e.cpp:48-51 | a rejected reply sets quit, which releases any round, and adds no sample |
| `Measurement.State.constructor` | src/e2e.cpp:99-101 | serial -1, quit false, no samples; no round `i >= 0` is done |
| `Measurement.State.StampStart` | src/e2e.cpp:151 | only startTime changes, to the given time |
| `Measurement.State.LibloHandleReceive` | src/e2e.cpp:44-59 | the new state is `Receive` applied with liblo's reading: with one 'i' argument, serial set and one sample appended, quit kept; otherwise quit set, serial and samples unchanged |
| `Measurement.State.SortDurations` | src/e2e.cpp:187 | the samples become sorted and stay a permutation of the old ones; the other fields are unchanged |
| `Measurement.OscPackReceiver.constructor` | src/e2e.cpp:63 | the receiver points at the given shared state |
| `Measurement.OscPackReceiver.ProcessMessage` | src/e2e.cpp:65-84 | the new state is `Receive` applied with oscpack's reading: a readable first int32 records the serial and one sample; a thrown read sets quit and leaves the samples unchanged |
| `Sender.DeliverAll` | src/e2e.cpp:44-84 | the receiver handling messages in order keeps quit once set, keeps startTime, and only appends samples, keeping the old ones as a prefix |
| `Sender.SenderLoop` | src/e2e.cpp:147-158 | the pure form of the loop: the send log only grows; quit is never cleared; QuitSeen ends with quit set; Stalled(k) ends with round k's predicate false |
| `Sender.Await` | src/e2e.cpp:153-157 | waiting never changes what the receiver does to the state; a wait that is never released ends with the predicate false |
| `Sender.AwaitReleasedIff` | src/e2e.cpp:156 | the sender is released iff the predicate holds before the first reply or after one of the replies |
| `Sender.StaleRepliesKeepWaiting` | src/e2e.cpp:156 | well-formed replies carrying serials other than `i`, such as `i - 1`, never release round `i` |
| `Sender.MalformedReplyEndsWait` | src/e2e.cpp:48-57 | any rejected reply during a wait releases the sender, with quit set |
| `Sender.SenderLoopShape` | src/e2e.cpp:147-158 | serials are sent as 0, 1, 2, … with at most `iterations` sends; Completed means every round was sent; QuitSeen means quit is set and no further send happened; Stalled(k) means k was the last send and its predicate is false; quit is never cleared |
| `Sender.SentCountsUp` | src/e2e.cpp:147-152 | the send log keeps the serials already sent and appends `i`, `i + 1`, … in order, ending with at most `max(iterations, i)` entries |
| `Sender.ExitMatchesSent` | src/e2e.cpp:147-158 | Completed means every round up to `iterations` was sent; QuitSeen(k) means k rounds were sent and k < iterations; Stalled(k) means k + 1 rounds were sent |
| `Sender.SendsCountUp` | src/e2e.cpp:147-152 | from round 0, sends carry serials 0, 1, 2, … in order, there are at most `max(iterations, 0)` of them, and all of them on completion |
| `Sender.QuitStopsSending` | src/e2e.cpp:148-150 | a round that starts with quit set sends nothing and the loop exits |
| `Sender.MalformedReplyEndsRun` | src/e2e.cpp:165-178 | a rejected reply in round `i` makes `i` the last serial sent, and the loop stops at the top of the next round |
| `Sender.MalformedFirstReplyLeavesNoSamples` | src/e2e.cpp:147-158 | a malformed first reply ends the run with quit set, one send and no sample |
| `Sender.OwnSerialRoundsCollectEverySample` | src/e2e.cpp:165-178 | if every round delivers the sender's own message once, the loop completes and appends one sample per round, sample `k` being that message's receive time minus the stamp time |
| `Sender.OwnSerialRoundReleases` | src/e2e.cpp:151-156 | a round that delivers the sender's own message once records its serial and one sample (receive time minus stamp) and releases the sender |
| `Sender.HealthyRunMeasuresEveryRound` | src/e2e.cpp:147-158 | a healthy run of N rounds from the initial state completes with N sends and exactly N samples; the samples are non-negative when no message is received before its stamp |
| `Sender.HealthyRunFrom` | src/e2e.cpp:147-158 | the same as `HealthyRunMeasuresEveryRound`, from any state without quit and without samples |
| `Sender.DuplicatedDeliveryAddsSample` | src/e2e.cpp:53-55 | a one-round run whose own message is delivered twice completes with two samples |
| `Sender.Dispatch` | src/e2e.cpp:111-132 | the receiver selected by the library name handles one message, with the effect `Deliver` gives |
| `Sender.DispatchAll` | src/e2e.cpp:44-84 | the receiver object handles the messages in order, with the effect `DeliverAll` gives |
| `Sender.Wait` | src/e2e.cpp:153-157 | the state and release flag after the wait equal `Await`'s |
| `Sender.SendLoop` | src/e2e.cpp:147-158 | the final state, serials sent and exit reason equal `SenderLoop` from round 0 |
| `Stats.Sum` | src/e2e.cpp:189-192 | the samples' sum is non-negative when every sample is, and non-positive when every sample is |
| `Stats.TruncDiv` | src/e2e.cpp:193 | the intended signed division at this line, truncating toward zero as C++ does (the line as written divides unsigned, see Findings): the remainder `a - q*n` is strictly smaller than n in magnitude and has the sign of `a` |
| `Stats.SquaredDeviations` | src/e2e.cpp:194-198 | the squared-deviation sum is non-negative, and zero iff every sample equals the mean |
| `Stats.SortSeq` | src/e2e.cpp:187 | the result is sorted, is a permutation of the samples, and has the same length |
| `Stats.SumBetween` | src/e2e.cpp:189-192 | if every sample lies in `[lo, hi]`, the sum lies in `[n*lo, n*hi]` |
| `Stats.MeanWithinSamples` | src/e2e.cpp:193 | for a non-empty sample set, the truncated mean lies between the smallest and the largest sample |
| `Stats.Variance` | src/e2e.cpp:199 | the value under the square root lies in `[0, squared-deviation sum]`, and equals that sum for a single sample |
| `Stats.Cuts` | src/e2e.cpp:202-206 | for `size >= 1`, the indices size/2, size*3/4, size*9/10, size*99/100 and size-1 are non-decreasing and all below size |
| `Stats.CutPointsOrdered` | src/e2e.cpp:202-206 | in sorted samples, p50 <= p75 <= p90 <= p99 <= worst, and worst is the maximum |
| `Stats.SumOf` | src/e2e.cpp:189-192 | the first accumulation loop yields the samples' sum, which lies between n*min and n*max |
| `Stats.DeviationsOf` | src/e2e.cpp:194-198 | the second accumulation loop yields the squared-deviation sum: non-negative, and zero iff all samples equal the mean |
| `Stats.Summarize` | src/e2e.cpp:186-206 | an empty sample set is the NoSamples error; otherwise: mean is the truncated mean and lies within [min, max]; the deviation sum is non-negative; the cut points are read at the `Cuts` indices and, for sorted samples, are ordered with worst equal to the maximum |
| `Stats.MeanAsWritten` | src/e2e.cpp:193 | the source's int64 / size_t mean is always a valid int64 |
| `Stats.MeanAsWrittenAgreesWhenNonNegative` | src/e2e.cpp:193 | for a non-negative sum, the source's mean equals the truncated mean |
| `Stats.MeanAsWrittenLeavesSampleRange` | src/e2e.cpp:193 | for samples [-2, 0] the source's mean is 2^63-1, above the largest sample, while the truncated mean is -1 |
| `Stats.WorstIndexAsWritten` | src/e2e.cpp:206 | the source's `size() - 1` is an unsigned 64-bit value, equal to size-1 when size >= 1 |
| `Stats.EmptyReportReadsPastTheEnd` | src/e2e.cpp:206 | with no samples, the worst sample is read at index 2^64-1 |
| `E2E.ParseLibrary` | src/e2e.cpp:111-136 | a recognised name is exactly the name of the library it selects |
| `E2E.ParseLibraryRoundTrip` | src/e2e.cpp:111-136 | every library is recognised by its own name and by no other name |
| `E2E.MalformedMessageBeforeLoopSendsNothing` | src/e2e.cpp:111-150 | a malformed message handled by the started receiver before round 0 sets quit, so nothing is sent and the loop exits at its first check (QuitSeen(0), or Completed when there is no round to run) |
| `E2E.RunE2E` | src/e2e.cpp:93-218 | an unknown receiver, then an unknown sender, is a configuration error; otherwise the receiver handles the messages that arrive before the loop, and the run follows `SenderLoop` from the resulting state (no loop for oscpkt/oscpp senders); a stalled round hangs; a finished run reports the sorted samples with the corrected statistics of the Findings: NoSamples iff there are none, and otherwise the mean is the signed truncated mean `TruncDiv(Sum, n)`, the deviation sum and variance are `SquaredDeviations` and `Variance` of that mean, and the five cut points are the samples at the `Cuts` indices; the mean lies within [min, max], the deviation sum is non-negative, and the cut points are ordered and end at the maximum |

## Left out

- Threads, `sendMutex`, `sendCondition`, `notify_all` and the detached
  oscpack thread are not modelled: the receiver's steps are interleaved
  explicitly through the `Round` schedule, at the granularity of whole
  callbacks.
- Sender.Await: the model assumes the sender re-checks `quit || serial == i`
  before the first reply and after every callback, without losing a
  notification. The real `sendCondition.wait` (src/e2e.cpp:156, 176)
  re-checks only when it wins `sendMutex` back, so it can miss a state in
  which its predicate held. For example, with the replies [message carrying `i`,
  well-formed message carrying `j != i`] handled back to back, the model releases
  the sender and the real program keeps waiting. The interleavings left out
  are those in which two or more callbacks run between two checks of the
  sender.
- Sender.MalformedReplyEndsWait and Sender.MalformedReplyEndsRun hold only
  under that assumption. liblo (src/e2e.cpp:50, 57) and oscpack
  (src/e2e.cpp:80, 83) set `quit` and call `notify_all` without holding
  `sendMutex`. The notification can fall between the sender's check and its
  block, so in the real program a malformed reply can leave the sender
  waiting forever.
- The data races of the source are not modelled. liblo and oscpack write
  `quit` without the lock, the sender writes `startTime` and reads `quit`
  without it, and the sort and statistics (src/e2e.cpp:187-206) read
  `durations` while the receiver thread is still running and may still
  append to it. The model sees only sequentially consistent interleavings,
  with the receiver idle once the loop has exited.
- Liveness is not modelled beyond `Stalled`. A wait whose predicate never
  holds blocks the real process forever; the model reports `Stalled` and
  stops.
- UDP transport, OSC wire encoding and decoding, and the `lo_server_thread_*`,
  `lo_address_new`, `UdpTransmitSocket` and `UdpListeningReceiveSocket` calls
  are foreign library code and are left out. This includes their setup
  failures (the `return -1` paths at src/e2e.cpp:115-123 and 143-146),
  packets that oscpack rejects before `ProcessMessage` runs, and packets
  that liblo fails to parse, which go to `libloError` (src/e2e.cpp:40-42,
  114) and never reach `libloHandleReceive`; neither kind changes the
  state. Neither receiver
  looks at the message path, so the model has none.
- Receiver shutdown (`lo_server_thread_stop`/`_free`, `AsynchronousBreak`,
  src/e2e.cpp:208-215) releases foreign resources only and is not modelled.
- The clock is left out: receive and stamp times are integer parameters.
- `sqrt` (floating point) is left out; the model stops at the integer value
  under the square root (`Stats.Variance`).
- Flag parsing and console output are left out; library names and the
  iteration count are parameters.
- int64 overflow of samples, sums and `diff * diff` is left out: all are
  unbounded integers. So is the overflow of `size() * 99` for sizes near
  2^64, which is unreachable.
- `std::sort`'s algorithm is not modelled, only its effect (a sorted
  permutation, `Stats.SortSeq`).
- The oscpkt and oscpp branches are empty in the source. As receivers they
  ignore every message; as senders they run no loop.
- `src/bench.cpp` is not part of this model: it only times calls into
  liblo's serialisation, whose source is not available.
- Stats.Variance: states only the bounds `0 <= v <= sum` of the floor
  division `sum / size()`, not its exact value.

## Findings

| source | as written | input that shows it | evidently intended | confidence | as-written member | corrected member |
|---|---|---|---|---|---|---|
| src/e2e.cpp:193 | `sum / state->durations.size()` divides an `int64_t` by a `size_t`, so with a 64-bit `size_t` (LP64 and LLP64 targets) a negative sum is converted to unsigned 64-bit before the division (`Stats.MeanAsWritten`) | samples [-2, 0]: mean 2^63-1 instead of -1. A negative sample arises when a late reply's receive time is taken before the next round's stamp. | signed mean, truncated toward zero, lying between the smallest and largest sample | medium; not executed | `Stats.MeanAsWrittenLeavesSampleRange` | `Stats.MeanWithinSamples` |
| src/e2e.cpp:193-206 | no check for an empty sample set: it divides by `size() == 0` and reads `durations[size() - 1]` at index 2^64-1 (`Stats.WorstIndexAsWritten`) | `--iterations=0`, an oscpkt/oscpp sender, or a malformed first reply (`Sender.MalformedFirstReplyLeavesNoSamples`) | report that there are no samples | high; not executed | `Stats.EmptyReportReadsPastTheEnd` | `Stats.Summarize` |
