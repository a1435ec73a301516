/**
 * The argument list of a received OSC message, and how each of the two
 * receiving libraries of the latency harness reads the serial number out of
 * it (src/e2e.cpp, libloHandleReceive and OscPackReceiver::ProcessMessage).
 * Only the type tag of an argument and, for 32-bit integers, its value matter
 * here; the message path is never inspected by either receiver.
 */
module OscArgs {
  import opened Wrappers

  /** A signed 32-bit integer, the type of OSC's 'i' argument and of the harness's serials. */
  type Int32 = x: int | -0x8000_0000 <= x < 0x8000_0000

  /** A type tag other than 'i' (float 'f', string 's', blob 'b', int64 'h', ...). */
  type OtherTag = c: char | c != 'i' witness 'f'

  /** One typed OSC argument. The value of a non-int32 argument is never read. */
  datatype Arg = Int32Arg(value: Int32) | OtherArg(tag: OtherTag)
  {
    /** The argument's character in the message's type tag string. */
    function Tag(): (c: char)
      ensures c == 'i' <==> Int32Arg?
    {
      match this
      case Int32Arg(_) => 'i'
      case OtherArg(t) => t
    }
  }

  /**
   * liblo's acceptance test: exactly one argument whose type tag is 'i'.
   * Any other list is a malformed message.
   */
  function LibloSerial(args: seq<Arg>): (r: Option<Int32>)
    ensures r.Some? <==> |args| == 1 && args[0].Tag() == 'i'
    ensures r.Some? ==> [Int32Arg(r.value)] == args
  {
    if |args| != 1 || args[0].Tag() != 'i' then None
    else Some(args[0].value)
  }

  /** The exceptions oscpack's argument stream throws when reading an int32. */
  datatype ReadError = MissingArgument | WrongArgumentType

  /**
   * oscpack's `args >> serial`: reads the FIRST argument as an int32, throwing
   * MissingArgument on an empty list and WrongArgumentType on another type tag.
   * Arguments after the first are never looked at.
   */
  function ReadInt32(args: seq<Arg>): (r: Result<Int32, ReadError>)
    ensures r == Failure(MissingArgument) <==> args == []
    ensures r == Failure(WrongArgumentType) <==> args != [] && args[0].Tag() != 'i'
    ensures r.Success? ==> args[0] == Int32Arg(r.value)
  {
    if |args| == 0 then Failure(MissingArgument)
    else
      match args[0]
      case Int32Arg(v) => Success(v)
      case OtherArg(_) => Failure(WrongArgumentType)
  }

  /** The serial oscpack's receiver records, or None when reading it throws. */
  function OscPackSerial(args: seq<Arg>): (r: Option<Int32>)
    ensures r.Some? <==> |args| >= 1 && args[0].Int32Arg?
  {
    ReadInt32(args).ToOption()
  }

  /** Wherever liblo accepts a message, oscpack accepts it with the same serial. */
  lemma OscPackAcceptsWhatLibloAccepts(args: seq<Arg>)
    ensures LibloSerial(args).Some? ==> OscPackSerial(args) == LibloSerial(args)
  {
  }

  /**
   * The two receivers disagree exactly on lists that start with an int32 and
   * carry further arguments: oscpack accepts them, liblo rejects them.
   */
  lemma ReceiversDisagreeOnlyOnTrailingArgs(args: seq<Arg>)
    ensures OscPackSerial(args) != LibloSerial(args)
        <==> |args| > 1 && args[0].Int32Arg?
    ensures OscPackSerial(args) != LibloSerial(args) ==> LibloSerial(args).None?
  {
  }
}
