/**
 * The shared measurement state of the latency harness (src/e2e.cpp:31-38) and
 * the two receive callbacks that update it: liblo's `libloHandleReceive`
 * (src/e2e.cpp:44-59) and oscpack's `OscPackReceiver::ProcessMessage`
 * (src/e2e.cpp:65-84). Timestamps are integers in nanoseconds supplied by the
 * caller in place of the clock.
 */
module Measurement {
  import opened Wrappers
  import opened OscArgs
  import Stats

  /** The OSC libraries the harness can send or receive with. */
  datatype Library = Liblo | OscPack | OscPkt | OscPp

  /** The value held by a `State` object at one moment. */
  datatype Record = Record(serial: int, quit: bool, startTime: int, durations: seq<int>)

  /** The state `main` sets up before any receiver starts: no serial yet, no error, no samples. */
  const Initial: Record := Record(-1, false, 0, [])

  /**
   * The sender's wait predicate for round `i`: a fatal error was flagged, or
   * the receiver recorded exactly serial `i` (strict equality).
   */
  predicate Released(r: Record, i: int): (done: bool)
    ensures r.quit ==> done
    ensures !r.quit ==> (done <==> i == r.serial)
  {
    r.quit || r.serial == i
  }

  /**
   * What a receive callback does with the serial it read: a serial records it
   * and appends one latency sample measured from the last stamp; an
   * unreadable message (None) sets the terminal `quit` flag.
   */
  function Receive(r: Record, serial: Option<Int32>, receiveTime: int): (r': Record)
    ensures r'.startTime == r.startTime
    ensures serial.Some? ==> r'.serial == serial.value && r'.quit == r.quit
    ensures serial.Some? ==> r'.durations == r.durations + [receiveTime - r.startTime]
    ensures serial.None? ==> r'.quit && r'.serial == r.serial && r'.durations == r.durations
  {
    match serial
    case Some(v) => r.(serial := v, durations := r.durations + [receiveTime - r.startTime])
    case None => r.(quit := true)
  }

  /** The serial a working receiver reads out of an argument list, or None when it rejects it. */
  function SerialRead(lib: Library, args: seq<Arg>): Option<Int32>
    requires lib == Liblo || lib == OscPack
  {
    if lib == Liblo then LibloSerial(args) else OscPackSerial(args)
  }

  /** One message arriving at the receiver: its arguments and its receive time. */
  datatype Delivery = Delivery(args: seq<Arg>, at: int)

  /**
   * The effect of delivering a message to the receiver selected by `lib`.
   * The oscpkt and oscpp receivers are empty stubs that listen to nothing.
   */
  function Deliver(lib: Library, r: Record, d: Delivery): (r': Record)
    ensures r.quit ==> r'.quit
    ensures r'.startTime == r.startTime
    ensures |r.durations| <= |r'.durations| <= |r.durations| + 1
    ensures r'.durations[..|r.durations|] == r.durations
  {
    match lib
    case Liblo => Receive(r, LibloSerial(d.args), d.at)
    case OscPack => Receive(r, OscPackSerial(d.args), d.at)
    case OscPkt => r
    case OscPp => r
  }

  /** From the initial state no round i >= 0 is released, before or after stamping. */
  lemma InitialStateWaits(i: int, now: int)
    requires i >= 0
    ensures !Released(Initial, i)
    ensures !Released(Initial.(startTime := now), i)
  {
  }

  /**
   * From a state without the error flag, a well-formed reply releases round
   * `i` exactly when it carries serial `i`; a reply carrying `i - 1` (or any
   * other serial) keeps the sender waiting.
   */
  lemma ReplyReleasesOnlyItsOwnRound(lib: Library, r: Record, d: Delivery, i: int)
    requires !r.quit
    requires lib == Liblo || lib == OscPack
    requires SerialRead(lib, d.args).Some?
    ensures Released(Deliver(lib, r, d), i) <==> SerialRead(lib, d.args).value == i
  {
  }

  /** A malformed reply (as judged by the receiver) always releases the sender, with quit set. */
  lemma MalformedReplyReleases(lib: Library, r: Record, d: Delivery, i: int)
    requires lib == Liblo || lib == OscPack
    requires SerialRead(lib, d.args).None?
    ensures Deliver(lib, r, d).quit && Released(Deliver(lib, r, d), i)
    ensures Deliver(lib, r, d).durations == r.durations
  {
  }

  /**
   * The shared `State` record. `sendMutex` and `sendCondition` are not
   * modelled: every step below runs alone, in an order the caller chooses.
   */
  class State {
    var serial: int
    var quit: bool
    var startTime: int
    var durations: seq<int>

    function Value(): Record
      reads this
    {
      Record(serial, quit, startTime, durations)
    }

    /** `main`'s initialisation: serial -1, quit false, no samples. */
    constructor ()
      ensures Value() == Initial
      ensures forall i :: 0 <= i ==> !RoundDone(i)
    {
      serial := -1;
      quit := false;
      startTime := 0;
      durations := [];
    }

    /** The wait predicate `quit || serial == i` for round `i`. */
    predicate RoundDone(i: int)
      reads this
      ensures RoundDone(i) <==> Released(Value(), i)
    {
      quit || serial == i
    }

    /** The sender's `startTime = now()` just before it transmits a serial. */
    method StampStart(now: int)
      modifies this
      ensures Value() == old(Value()).(startTime := now)
    {
      startTime := now;
    }

    /**
     * liblo's receive callback: exactly one 'i' argument records the serial
     * and a sample; any other argument list sets `quit`.
     */
    method LibloHandleReceive(args: seq<Arg>, receiveTime: int)
      modifies this
      ensures Value() == Receive(old(Value()), LibloSerial(args), receiveTime)
      ensures |args| == 1 && args[0].Tag() == 'i' ==>
        serial == args[0].value && quit == old(quit)
        && durations == old(durations) + [receiveTime - old(startTime)]
      ensures |args| != 1 || args[0].Tag() != 'i' ==>
        quit && serial == old(serial) && durations == old(durations)
      ensures startTime == old(startTime)
    {
      if |args| != 1 || args[0].Tag() != 'i' {
        quit := true;
      } else {
        serial := args[0].value;
        durations := durations + [receiveTime - startTime];
      }
    }

    /** The in-place `std::sort` of the samples before the report. */
    method SortDurations()
      modifies this
      ensures Stats.Sorted(durations)
      ensures multiset(durations) == multiset(old(durations))
      ensures durations == Stats.SortSeq(old(durations))
      ensures serial == old(serial) && quit == old(quit) && startTime == old(startTime)
    {
      durations := Stats.SortSeq(durations);
    }
  }

  /** oscpack's listener object, holding a pointer to the shared state. */
  class OscPackReceiver {
    const state: State

    constructor (state: State)
      ensures this.state == state
    {
      this.state := state;
    }

    /**
     * Reads the first argument as an int32; on success records the serial
     * and a sample, and when the read throws sets `quit`. Trailing arguments
     * are not rejected.
     */
    method ProcessMessage(args: seq<Arg>, receiveTime: int)
      modifies state
      ensures state.Value() == Receive(old(state.Value()), OscPackSerial(args), receiveTime)
      ensures ReadInt32(args).Success? ==>
        state.serial == ReadInt32(args).value && state.quit == old(state.quit)
        && state.durations == old(state.durations) + [receiveTime - old(state.startTime)]
      ensures ReadInt32(args).Failure? ==>
        state.quit && state.serial == old(state.serial) && state.durations == old(state.durations)
    {
      var read := ReadInt32(args);
      match read {
        case Success(serial) =>
          state.serial := serial;
          state.durations := state.durations + [receiveTime - state.startTime];
        case Failure(_) =>
          state.quit := true;
      }
    }
  }
}
