/**
 * `main` of the latency harness (src/e2e.cpp:93-218) with flags, console
 * output and sockets taken away: select the receiver and the sender by name,
 * let the receiver handle whatever reaches the port before the first round,
 * run the measurement loop, sort the samples and compute the report. The
 * report is the corrected statistics block (`Stats.Summarize`): a signed
 * mean and a `NoSamples` error where the source, as written, divides
 * unsigned or by zero (`Stats.MeanAsWritten`, `Stats.WorstIndexAsWritten`).
 */
module E2E {
  import opened Wrappers
  import opened OscArgs
  import opened Measurement
  import opened Sender
  import Stats

  /** The `--sender` / `--receiver` value naming each library. */
  function LibraryName(lib: Library): string
  {
    match lib
    case Liblo => "liblo"
    case OscPack => "oscpack"
    case OscPkt => "oscpkt"
    case OscPp => "oscpp"
  }

  /** The chain of name comparisons in `main`; any other name is unrecognised. */
  function ParseLibrary(name: string): (lib: Option<Library>)
    ensures lib.Some? ==> LibraryName(lib.value) == name
  {
    if name == "liblo" then Some(Liblo)
    else if name == "oscpack" then Some(OscPack)
    else if name == "oscpkt" then Some(OscPkt)
    else if name == "oscpp" then Some(OscPp)
    else None
  }

  /** Every library is recognised by its own name, so the two functions are inverse. */
  lemma ParseLibraryRoundTrip(lib: Library, name: string)
    ensures ParseLibrary(LibraryName(lib)) == Some(lib)
    ensures ParseLibrary(name) == Some(lib) <==> name == LibraryName(lib)
  {
  }

  /** How a run of the harness ends. */
  datatype Outcome =
    | UnknownReceiver   // "Unrecognized receiver library", exit status -1
    | UnknownSender     // "Unrecognized sender library", exit status -1
    | Hangs(round: nat, sent: seq<int>)   // blocked forever waiting in `round`
    | Finished(sent: seq<int>, exit: Exit, samples: seq<int>,
               report: Result<Stats.Summary, Stats.ReportError>)

  /** Only the senders with a loop transmit anything; the oscpkt and oscpp branches are empty. */
  predicate Transmits(sender: Library)
  {
    sender == Liblo || sender == OscPack
  }

  /**
   * The sender loop's run for this configuration. The receiver is started
   * first, so it handles `before` (messages reaching the port ahead of round
   * 0's `quit` check) from the state `main` sets up.
   */
  function PlannedRun(sender: Library, receiver: Library, iterations: int, rounds: seq<Round>,
                      before: seq<Delivery>): Run
    requires iterations <= |rounds|
  {
    var start := DeliverAll(receiver, Initial, before);
    if Transmits(sender) then SenderLoop(receiver, start, iterations, rounds, 0, [])
    else Run(start, [], Completed)
  }

  /**
   * A malformed message reaching the receiver before the first round sets
   * `quit`, so the loop breaks at its first check with nothing sent.
   */
  lemma MalformedMessageBeforeLoopSendsNothing(sender: Library, receiver: Library, iterations: int,
                                               rounds: seq<Round>, before: seq<Delivery>, k: nat)
    requires iterations <= |rounds|
    requires receiver == Liblo || receiver == OscPack
    requires k < |before| && SerialRead(receiver, before[k].args).None?
    ensures var run := PlannedRun(sender, receiver, iterations, rounds, before);
      && run.sent == []
      && run.final.quit
      && run.exit == if Transmits(sender) && 0 < iterations then QuitSeen(0) else Completed
  {
    MalformedSetsQuit(receiver, Initial, before, k);
  }

  method RunE2E(senderName: string, receiverName: string, iterations: Int32, rounds: seq<Round>,
                before: seq<Delivery>)
    returns (o: Outcome)
    requires iterations <= |rounds|
    ensures ParseLibrary(receiverName).None? ==> o == UnknownReceiver
    ensures ParseLibrary(receiverName).Some? && ParseLibrary(senderName).None? ==> o == UnknownSender
    ensures ParseLibrary(receiverName).Some? && ParseLibrary(senderName).Some? ==>
      var run := PlannedRun(ParseLibrary(senderName).value, ParseLibrary(receiverName).value,
                            iterations, rounds, before);
      if run.exit.Stalled? then o == Hangs(run.exit.round, run.sent)
      else o.Finished? && o.sent == run.sent && o.exit == run.exit
           && o.samples == Stats.SortSeq(run.final.durations)
    ensures o.Finished? ==> Stats.Sorted(o.samples)
    ensures o.Finished? ==> (o.report.Failure? <==> o.samples == [])
    ensures o.Finished? && o.report.Success? ==>
      var m := o.report.value;
      && m.mean == Stats.TruncDiv(Stats.Sum(o.samples), |o.samples|)
      && m.squaredDeviations == Stats.SquaredDeviations(o.samples, m.mean)
      && m.variance == Stats.Variance(m.squaredDeviations, |o.samples|)
      && (var c := Stats.Cuts(|o.samples|);
          && m.p50 == o.samples[c.p50] && m.p75 == o.samples[c.p75]
          && m.p90 == o.samples[c.p90] && m.p99 == o.samples[c.p99]
          && m.worst == o.samples[c.worst])
      && Stats.Min(o.samples) <= m.mean <= Stats.Max(o.samples)
      && m.squaredDeviations >= 0
      && m.p50 <= m.p75 <= m.p90 <= m.p99 <= m.worst == Stats.Max(o.samples)
  {
    var s := new State();
    var receiver := ParseLibrary(receiverName);
    if receiver.None? {
      return UnknownReceiver;
    }
    var rx: OscPackReceiver? := null;
    if receiver.value == OscPack {
      rx := new OscPackReceiver(s);
    }
    DispatchAll(s, rx, receiver.value, before);
    var sender := ParseLibrary(senderName);
    if sender.None? {
      return UnknownSender;
    }
    var sent: seq<int> := [];
    var exit := Completed;
    if Transmits(sender.value) {
      sent, exit := SendLoop(s, rx, receiver.value, iterations, rounds);
    }
    if exit.Stalled? {
      return Hangs(exit.round, sent);
    }
    s.SortDurations();
    var report := Stats.Summarize(s.durations);
    o := Finished(sent, exit, s.durations, report);
  }
}
