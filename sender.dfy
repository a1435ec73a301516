/**
 * The sender's measurement loop of `main` (src/e2e.cpp:147-158 for liblo,
 * 165-178 for oscpack; the two differ only in how they transmit). For each
 * round `i` it stops if `quit` is set, stamps `startTime`, transmits serial
 * `i` and waits on the condition variable until `quit || serial == i`.
 *
 * The receiver thread is replaced by an explicit schedule: for every round,
 * the messages the receiver processes after the sender checked `quit` and
 * before it stamped (`early`), the stamp time, and the messages the receiver
 * processes while the sender waits (`replies`). The model assumes the
 * sender re-evaluates its predicate before the first reply and after each
 * one, that is, that it wins the mutex back after every callback and that no
 * notification is lost. The real wait re-checks only when it reacquires
 * `sendMutex`, so a second callback can run before it looks, and liblo and
 * oscpack set `quit` and notify without holding the mutex, so a wakeup can
 * be lost. Replies after the one that released the sender stand for messages
 * processed before it reaches its next `quit` check. A round whose predicate
 * never holds at any of these points blocks the real program forever.
 */
module Sender {
  import opened OscArgs
  import opened Measurement

  datatype Round = Round(early: seq<Delivery>, stampAt: int, replies: seq<Delivery>)

  /** How the loop ended: ran all rounds, saw `quit` at the top of a round, or blocked for good. */
  datatype Exit = Completed | QuitSeen(round: nat) | Stalled(round: nat)

  /** The final state, the serials transmitted in order, and how the loop ended. */
  datatype Run = Run(final: Record, sent: seq<int>, exit: Exit)

  // ---------------------------------------------------------------------------
  // Specification

  /** The receiver processes `ds` in order. */
  function DeliverAll(lib: Library, r: Record, ds: seq<Delivery>): (r': Record)
    ensures r.quit ==> r'.quit
    ensures r'.startTime == r.startTime
    ensures |r.durations| <= |r'.durations| && r'.durations[..|r.durations|] == r.durations
    decreases |ds|
  {
    if ds == [] then r else DeliverAll(lib, Deliver(lib, r, ds[0]), ds[1..])
  }

  /**
   * The wait of round `i` while the receiver processes `ds`: the final state
   * and whether the sender was released. Waiting never changes what the
   * receiver does, and a sender that is not released is left with its
   * predicate false.
   */
  function Await(lib: Library, r: Record, ds: seq<Delivery>, i: int): (res: (Record, bool))
    ensures res.0 == DeliverAll(lib, r, ds)
    ensures !res.1 ==> !Released(res.0, i)
    decreases |ds|
  {
    if Released(r, i) then (DeliverAll(lib, r, ds), true)
    else if ds == [] then (r, false)
    else Await(lib, Deliver(lib, r, ds[0]), ds[1..], i)
  }

  /** Rounds `i` .. `iterations - 1` of the loop, from state `r`, after transmitting `sent`. */
  function SenderLoop(lib: Library, r: Record, iterations: int, rounds: seq<Round>,
                      i: nat, sent: seq<int>): (run: Run)
    requires iterations <= |rounds|
    ensures |sent| <= |run.sent|
    ensures r.quit ==> run.final.quit
    ensures run.exit.QuitSeen? ==> run.final.quit
    ensures run.exit.Stalled? ==> !Released(run.final, run.exit.round)
    decreases iterations - i
  {
    if i >= iterations then Run(r, sent, Completed)
    else if r.quit then Run(r, sent, QuitSeen(i))
    else
      var stamped := DeliverAll(lib, r, rounds[i].early).(startTime := rounds[i].stampAt);
      var (after, released) := Await(lib, stamped, rounds[i].replies, i);
      if released then SenderLoop(lib, after, iterations, rounds, i + 1, sent + [i])
      else Run(after, sent + [i], Stalled(i))
  }

  // ---------------------------------------------------------------------------
  // The wait

  /**
   * The sender is released exactly when its predicate held at one of the
   * points where it checks it: before the first reply or after one of them.
   */
  lemma {:induction false} AwaitReleasedIff(lib: Library, r: Record, ds: seq<Delivery>, i: int)
    ensures Await(lib, r, ds, i).1
        <==> exists k :: 0 <= k <= |ds| && Released(DeliverAll(lib, r, ds[..k]), i)
    decreases |ds|
  {
    if Released(r, i) {
      assert ds[..0] == [];
    } else if ds == [] {
      assert forall k :: 0 <= k <= |ds| ==> ds[..k] == [];
    } else {
      var r1 := Deliver(lib, r, ds[0]);
      AwaitReleasedIff(lib, r1, ds[1..], i);
      forall k | 1 <= k <= |ds|
        ensures DeliverAll(lib, r, ds[..k]) == DeliverAll(lib, r1, ds[1..][..k - 1])
      {
        assert ds[..k][1..] == ds[1..][..k - 1];
      }
      assert ds[..0] == [];
      if Await(lib, r, ds, i).1 {
        var k' :| 0 <= k' <= |ds| - 1 && Released(DeliverAll(lib, r1, ds[1..][..k']), i);
        assert Released(DeliverAll(lib, r, ds[..k' + 1]), i);
      } else {
        forall k | 0 <= k <= |ds|
          ensures !Released(DeliverAll(lib, r, ds[..k]), i)
        {
          if k > 0 {
            assert DeliverAll(lib, r, ds[..k]) == DeliverAll(lib, r1, ds[1..][..k - 1]);
          }
        }
      }
    }
  }

  /**
   * Strict completion: replies that are well formed but carry a serial other
   * than `i` (for instance the previous round's) never release round `i`.
   */
  lemma {:induction false} StaleRepliesKeepWaiting(lib: Library, r: Record, ds: seq<Delivery>, i: int)
    requires lib == Liblo || lib == OscPack
    requires !Released(r, i)
    requires forall k :: 0 <= k < |ds| ==>
      SerialRead(lib, ds[k].args).Some? && SerialRead(lib, ds[k].args).value != i
    ensures !Await(lib, r, ds, i).1
    decreases |ds|
  {
    if ds != [] {
      ReplyReleasesOnlyItsOwnRound(lib, r, ds[0], i);
      StaleRepliesKeepWaiting(lib, Deliver(lib, r, ds[0]), ds[1..], i);
    }
  }

  /** Any malformed reply among those processed during the wait releases the sender with `quit` set. */
  lemma {:induction false} MalformedReplyEndsWait(lib: Library, r: Record, ds: seq<Delivery>, i: int, k: nat)
    requires lib == Liblo || lib == OscPack
    requires k < |ds| && SerialRead(lib, ds[k].args).None?
    ensures Await(lib, r, ds, i).1
    ensures Await(lib, r, ds, i).0.quit
    decreases |ds|
  {
    MalformedSetsQuit(lib, r, ds, k);
    if !Released(r, i) {
      var r1 := Deliver(lib, r, ds[0]);
      if k == 0 {
        MalformedReplyReleases(lib, r, ds[0], i);
        assert Released(r1, i);
      } else {
        MalformedReplyEndsWait(lib, r1, ds[1..], i, k - 1);
      }
    }
  }

  lemma {:induction false} MalformedSetsQuit(lib: Library, r: Record, ds: seq<Delivery>, k: nat)
    requires lib == Liblo || lib == OscPack
    requires k < |ds| && SerialRead(lib, ds[k].args).None?
    ensures DeliverAll(lib, r, ds).quit
    decreases |ds|
  {
    if k == 0 {
      MalformedReplyReleases(lib, r, ds[0], 0);
    } else {
      MalformedSetsQuit(lib, Deliver(lib, r, ds[0]), ds[1..], k - 1);
    }
  }

  // ---------------------------------------------------------------------------
  // The loop

  /**
   * Serials go out as 0, 1, 2, ... with at most `iterations` sends, and the
   * way the loop ended matches what was sent: all rounds, a `quit` seen at
   * the top of the round after the last send, or a block in the last round
   * sent with its predicate false. `quit` is never cleared.
   */
  lemma SenderLoopShape(lib: Library, r: Record, iterations: int,
                        rounds: seq<Round>, i: nat, sent: seq<int>)
    requires iterations <= |rounds|
    requires |sent| == i && forall k :: 0 <= k < i ==> sent[k] == k
    ensures var run := SenderLoop(lib, r, iterations, rounds, i, sent);
      var last := if iterations > i then iterations else i;
      && i <= |run.sent| <= last
      && run.sent[..i] == sent
      && (forall k :: 0 <= k < |run.sent| ==> run.sent[k] == k)
      && (run.exit == Completed ==> |run.sent| == last)
      && (run.exit.QuitSeen? ==> run.final.quit && |run.sent| == run.exit.round < iterations)
      && (run.exit.Stalled? ==>
            |run.sent| == run.exit.round + 1 && !Released(run.final, run.exit.round))
      && (r.quit ==> run.final.quit)
  {
    SentCountsUp(lib, r, iterations, rounds, i, sent);
    ExitMatchesSent(lib, r, iterations, rounds, i, sent);
  }

  /** The serials sent extend `sent` by `i`, `i + 1`, ... up to at most `iterations - 1`. */
  lemma {:induction false} SentCountsUp(lib: Library, r: Record, iterations: int,
                                        rounds: seq<Round>, i: nat, sent: seq<int>)
    requires iterations <= |rounds|
    requires |sent| == i && forall k :: 0 <= k < i ==> sent[k] == k
    ensures var run := SenderLoop(lib, r, iterations, rounds, i, sent);
      && i <= |run.sent| <= (if iterations > i then iterations else i)
      && run.sent[..i] == sent
      && (forall k :: 0 <= k < |run.sent| ==> run.sent[k] == k)
    decreases iterations - i
  {
    if i < iterations && !r.quit {
      var stamped := DeliverAll(lib, r, rounds[i].early).(startTime := rounds[i].stampAt);
      var (after, released) := Await(lib, stamped, rounds[i].replies, i);
      if released {
        SentCountsUp(lib, after, iterations, rounds, i + 1, sent + [i]);
        var run := SenderLoop(lib, after, iterations, rounds, i + 1, sent + [i]);
        assert run.sent[..i] == run.sent[..i + 1][..i];
      }
    }
  }

  /** How the loop ended agrees with the number of serials sent. */
  lemma {:induction false} ExitMatchesSent(lib: Library, r: Record, iterations: int,
                                           rounds: seq<Round>, i: nat, sent: seq<int>)
    requires iterations <= |rounds|
    requires |sent| == i
    ensures var run := SenderLoop(lib, r, iterations, rounds, i, sent);
      && (run.exit == Completed ==> |run.sent| == (if iterations > i then iterations else i))
      && (run.exit.QuitSeen? ==> |run.sent| == run.exit.round < iterations)
      && (run.exit.Stalled? ==> |run.sent| == run.exit.round + 1)
    decreases iterations - i
  {
    if i < iterations && !r.quit {
      var stamped := DeliverAll(lib, r, rounds[i].early).(startTime := rounds[i].stampAt);
      var (after, released) := Await(lib, stamped, rounds[i].replies, i);
      if released {
        ExitMatchesSent(lib, after, iterations, rounds, i + 1, sent + [i]);
      }
    }
  }

  /** The whole loop from its first round: serials 0, 1, 2, ... and no more than `iterations` of them. */
  lemma SendsCountUp(lib: Library, r: Record, iterations: int, rounds: seq<Round>)
    requires iterations <= |rounds|
    ensures var run := SenderLoop(lib, r, iterations, rounds, 0, []);
      && |run.sent| <= (if iterations > 0 then iterations else 0)
      && (forall k :: 0 <= k < |run.sent| ==> run.sent[k] == k)
      && (run.exit == Completed ==> |run.sent| == (if iterations > 0 then iterations else 0))
  {
    SenderLoopShape(lib, r, iterations, rounds, 0, []);
  }

  /** Once `quit` is set at the top of a round, nothing more is sent and the loop exits. */
  lemma QuitStopsSending(lib: Library, r: Record, iterations: int, rounds: seq<Round>,
                         i: nat, sent: seq<int>)
    requires iterations <= |rounds| && r.quit
    ensures SenderLoop(lib, r, iterations, rounds, i, sent)
         == Run(r, sent, if i < iterations then QuitSeen(i) else Completed)
  {
  }

  /**
   * A malformed reply during round `i` ends the run: serial `i` was the last
   * one sent, and the loop stops at the top of the next round.
   */
  lemma MalformedReplyEndsRun(lib: Library, r: Record, iterations: int, rounds: seq<Round>,
                              i: nat, sent: seq<int>, k: nat)
    requires iterations <= |rounds|
    requires lib == Liblo || lib == OscPack
    requires i < iterations && !r.quit
    requires k < |rounds[i].replies| && SerialRead(lib, rounds[i].replies[k].args).None?
    ensures var run := SenderLoop(lib, r, iterations, rounds, i, sent);
      && run.sent == sent + [i]
      && run.final.quit
      && run.exit == if i + 1 < iterations then QuitSeen(i + 1) else Completed
  {
    var stamped := DeliverAll(lib, r, rounds[i].early).(startTime := rounds[i].stampAt);
    MalformedReplyEndsWait(lib, stamped, rounds[i].replies, i, k);
  }

  /**
   * A malformed first reply ends the run with no sample at all: the report
   * that follows has nothing to divide by.
   */
  lemma MalformedFirstReplyLeavesNoSamples(lib: Library, iterations: int, rounds: seq<Round>)
    requires 1 <= iterations <= |rounds|
    requires lib == Liblo || lib == OscPack
    requires rounds[0].early == [] && |rounds[0].replies| == 1
    requires SerialRead(lib, rounds[0].replies[0].args).None?
    ensures var run := SenderLoop(lib, Initial, iterations, rounds, 0, []);
      run.sent == [0] && run.final.quit && run.final.durations == []
  {
    MalformedReplyEndsRun(lib, Initial, iterations, rounds, 0, [], 0);
    var stamped := Initial.(startTime := rounds[0].stampAt);
    assert DeliverAll(lib, stamped, rounds[0].replies)
        == DeliverAll(lib, Deliver(lib, stamped, rounds[0].replies[0]), []);
  }

  /**
   * A round in which nothing goes wrong: the receiver, in the same process,
   * gets the sender's own message for the round (its serial, nothing else)
   * once, and nothing early.
   */
  predicate OwnSerialRound(rd: Round, k: int)
  {
    && rd.early == []
    && |rd.replies| == 1
    && |rd.replies[0].args| == 1
    && rd.replies[0].args[0].Int32Arg?
    && rd.replies[0].args[0].value == k
  }

  /** The sample such a round yields: receive time minus stamp time. */
  function OwnSerialSample(rd: Round): int
    requires |rd.replies| >= 1
  {
    rd.replies[0].at - rd.stampAt
  }

  lemma {:induction false} OwnSerialRoundsCollectEverySample(lib: Library, r: Record, iterations: int,
                                                        rounds: seq<Round>, i: nat, sent: seq<int>)
    requires iterations <= |rounds|
    requires lib == Liblo || lib == OscPack
    requires !r.quit
    requires forall k :: i <= k < iterations ==> OwnSerialRound(rounds[k], k)
    ensures var run := SenderLoop(lib, r, iterations, rounds, i, sent);
      && run.exit == Completed
      && !run.final.quit
      && |run.final.durations| == |r.durations| + (if iterations > i then iterations - i else 0)
      && run.final.durations[..|r.durations|] == r.durations
      && forall k :: i <= k < iterations ==>
           OwnSerialRound(rounds[k], k)
           && run.final.durations[|r.durations| + (k - i)] == OwnSerialSample(rounds[k])
    decreases iterations - i
  {
    if i < iterations {
      var rd := rounds[i];
      var r1 := r.(startTime := rd.stampAt, serial := i, durations := r.durations + [OwnSerialSample(rd)]);
      OwnSerialRoundReleases(lib, r, rd, i);
      OwnSerialRoundsCollectEverySample(lib, r1, iterations, rounds, i + 1, sent + [i]);
      var run := SenderLoop(lib, r1, iterations, rounds, i + 1, sent + [i]);
      assert SenderLoop(lib, r, iterations, rounds, i, sent) == run;
      var all := run.final.durations;
      assert all[..|r1.durations|] == r1.durations;
      assert all[..|r.durations|] == r.durations by {
        assert all[..|r.durations|] == all[..|r1.durations|][..|r.durations|];
      }
      forall k | i <= k < iterations
        ensures OwnSerialRound(rounds[k], k) && all[|r.durations| + (k - i)] == OwnSerialSample(rounds[k])
      {
        if k == i {
          assert all[|r.durations|] == all[..|r1.durations|][|r.durations|];
        } else {
          assert |r.durations| + (k - i) == |r1.durations| + (k - (i + 1));
        }
      }
    }
  }

  /** A round that delivers its own message: the serial is recorded with its sample and releases the sender. */
  lemma OwnSerialRoundReleases(lib: Library, r: Record, rd: Round, i: int)
    requires lib == Liblo || lib == OscPack
    requires OwnSerialRound(rd, i)
    ensures var stamped := DeliverAll(lib, r, rd.early).(startTime := rd.stampAt);
      Await(lib, stamped, rd.replies, i)
        == (r.(startTime := rd.stampAt, serial := i, durations := r.durations + [OwnSerialSample(rd)]), true)
  {
    var stamped := r.(startTime := rd.stampAt);
    assert DeliverAll(lib, r, rd.early) == r;
    var d := rd.replies[0];
    assert rd.replies[1..] == [];
    var r1 := Deliver(lib, stamped, d);
    assert r1 == stamped.(serial := i, durations := r.durations + [OwnSerialSample(rd)]);
    assert Released(r1, i);
    assert DeliverAll(lib, stamped, rd.replies) == r1 by {
      assert DeliverAll(lib, r1, rd.replies[1..]) == r1;
    }
    if !Released(stamped, i) {
      assert Await(lib, stamped, rd.replies, i) == Await(lib, r1, [], i);
    }
  }

  /**
   * A healthy run of N >= 0 rounds, from the state `main` sets up, completes
   * with exactly N samples, sample k being the receive time of round k's own message minus
   * its stamp; samples are non-negative when no message is received before its stamp.
   */
  lemma HealthyRunMeasuresEveryRound(lib: Library, iterations: nat, rounds: seq<Round>)
    requires iterations <= |rounds|
    requires lib == Liblo || lib == OscPack
    requires forall k :: 0 <= k < iterations ==> OwnSerialRound(rounds[k], k)
    ensures var run := SenderLoop(lib, Initial, iterations, rounds, 0, []);
      && run.exit == Completed
      && |run.sent| == iterations
      && |run.final.durations| == iterations
      && (forall k :: 0 <= k < iterations ==>
            OwnSerialRound(rounds[k], k) && run.final.durations[k] == OwnSerialSample(rounds[k]))
      && ((forall k :: 0 <= k < iterations ==>
             OwnSerialRound(rounds[k], k) && rounds[k].stampAt <= rounds[k].replies[0].at)
            ==> forall k :: 0 <= k < iterations ==> run.final.durations[k] >= 0)
  {
    HealthyRunFrom(lib, Initial, iterations, rounds);
  }

  lemma HealthyRunFrom(lib: Library, r: Record, iterations: nat, rounds: seq<Round>)
    requires iterations <= |rounds|
    requires lib == Liblo || lib == OscPack
    requires !r.quit && r.durations == []
    requires forall k :: 0 <= k < iterations ==> OwnSerialRound(rounds[k], k)
    ensures var run := SenderLoop(lib, r, iterations, rounds, 0, []);
      && run.exit == Completed
      && |run.sent| == iterations
      && |run.final.durations| == iterations
      && (forall k :: 0 <= k < iterations ==>
            OwnSerialRound(rounds[k], k) && run.final.durations[k] == OwnSerialSample(rounds[k]))
      && ((forall k :: 0 <= k < iterations ==>
             OwnSerialRound(rounds[k], k) && rounds[k].stampAt <= rounds[k].replies[0].at)
            ==> forall k :: 0 <= k < iterations ==> run.final.durations[k] >= 0)
  {
    OwnSerialRoundsCollectEverySample(lib, r, iterations, rounds, 0, []);
    SendsCountUp(lib, r, iterations, rounds);
    var samples := SenderLoop(lib, r, iterations, rounds, 0, []).final.durations;
    if forall k :: 0 <= k < iterations ==>
         OwnSerialRound(rounds[k], k) && rounds[k].stampAt <= rounds[k].replies[0].at
    {
      forall k | 0 <= k < iterations
        ensures samples[k] >= 0
      {
        assert samples[k] == OwnSerialSample(rounds[k]);
      }
    }
  }

  /**
   * The number of samples is not bounded by the number of sends: a duplicated
   * delivery of the sender's own message in a one-round run yields two
   * samples.
   */
  lemma DuplicatedDeliveryAddsSample()
    ensures var own := Delivery([Int32Arg(0)], 7);
      var run := SenderLoop(Liblo, Initial, 1, [Round([], 2, [own, own])], 0, []);
      && run.exit == Completed && run.sent == [0] && run.final.durations == [5, 5]
  {
    var own := Delivery([Int32Arg(0)], 7);
    var stamped := Initial.(startTime := 2);
    var r1 := Deliver(Liblo, stamped, own);
    assert r1.durations == [5];
    var r2 := Deliver(Liblo, r1, own);
    assert Released(r1, 0) && !Released(stamped, 0);
    assert [own, own][1..] == [own] && [own][1..] == [];
    assert DeliverAll(Liblo, r1, [own]) == r2;
    assert Await(Liblo, stamped, [own, own], 0) == Await(Liblo, r1, [own], 0);
  }

  // ---------------------------------------------------------------------------
  // The imperative loop

  /** The receiver object `lib` delivers to is wired to the shared state. */
  predicate Wired(s: State, rx: OscPackReceiver?, lib: Library)
  {
    lib == OscPack ==> rx != null && rx.state == s
  }

  /** The receiver selected by `lib` handles one message. */
  method Dispatch(s: State, rx: OscPackReceiver?, lib: Library, d: Delivery)
    requires Wired(s, rx, lib)
    modifies s
    ensures s.Value() == Deliver(lib, old(s.Value()), d)
  {
    match lib {
      case Liblo => s.LibloHandleReceive(d.args, d.at);
      case OscPack => rx.ProcessMessage(d.args, d.at);
      case OscPkt =>
      case OscPp =>
    }
  }

  /** The receiver handles `ds` in order. */
  method DispatchAll(s: State, rx: OscPackReceiver?, lib: Library, ds: seq<Delivery>)
    requires Wired(s, rx, lib)
    modifies s
    ensures s.Value() == DeliverAll(lib, old(s.Value()), ds)
  {
    for k := 0 to |ds|
      invariant DeliverAll(lib, s.Value(), ds[k..]) == DeliverAll(lib, old(s.Value()), ds)
    {
      assert ds[k..][1..] == ds[k + 1..];
      Dispatch(s, rx, lib, ds[k]);
    }
  }

  /**
   * `sendCondition.wait(lock, [] { return quit || serial == i; })` while the
   * receiver handles `ds`: the predicate is checked first and after every
   * message, and the result says whether it ever held.
   */
  method Wait(s: State, rx: OscPackReceiver?, lib: Library, ds: seq<Delivery>, i: int)
    returns (released: bool)
    requires Wired(s, rx, lib)
    modifies s
    ensures (s.Value(), released) == Await(lib, old(s.Value()), ds, i)
  {
    released := s.RoundDone(i);
    for k := 0 to |ds|
      invariant !released ==> !Released(s.Value(), i)
      invariant Await(lib, old(s.Value()), ds, i)
             == if released then (DeliverAll(lib, s.Value(), ds[k..]), true)
                else Await(lib, s.Value(), ds[k..], i)
    {
      assert ds[k..][1..] == ds[k + 1..];
      Dispatch(s, rx, lib, ds[k]);
      released := released || s.RoundDone(i);
    }
  }

  /**
   * The sender's `for` loop over `i = 0 .. iterations - 1`: stop on `quit`,
   * let the early messages through, stamp, transmit `i` (recorded in `sent`),
   * wait. A wait that is never released ends the model with `Stalled(i)`.
   */
  method SendLoop(s: State, rx: OscPackReceiver?, lib: Library, iterations: Int32, rounds: seq<Round>)
    returns (sent: seq<int>, exit: Exit)
    requires iterations <= |rounds|
    requires Wired(s, rx, lib)
    modifies s
    ensures Run(s.Value(), sent, exit) == SenderLoop(lib, old(s.Value()), iterations, rounds, 0, [])
  {
    sent := [];
    exit := Completed;
    var i := 0;
    while i < iterations
      invariant 0 <= i
      invariant SenderLoop(lib, s.Value(), iterations, rounds, i, sent)
             == SenderLoop(lib, old(s.Value()), iterations, rounds, 0, [])
      decreases iterations - i
    {
      if s.quit {
        exit := QuitSeen(i);
        return;
      }
      DispatchAll(s, rx, lib, rounds[i].early);
      s.StampStart(rounds[i].stampAt);
      sent := sent + [i];
      var released := Wait(s, rx, lib, rounds[i].replies, i);
      if !released {
        exit := Stalled(i);
        return;
      }
      i := i + 1;
    }
  }
}
