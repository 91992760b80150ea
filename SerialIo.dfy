/**
 * The platform serial layer the client drives: opening the port, writing
 * and reading bytes, the RESET and BOOT0 lines and a millisecond delay.
 * The hardware is replaced by a scripted port: the outcome of each write
 * and read is taken from a script given at construction, and every call
 * is appended to an event log, so that the order of side effects becomes
 * part of the state that contracts can speak about.
 */
module SerialIo {
  import opened Bytes
  import opened BootRecords

  /** One observable side effect of the serial layer. */
  datatype Event =
    | PortInit               // the serial port is opened and configured
    | BootLine(high: bool)   // the BOOT0 line is driven
    | ResetLine(high: bool)  // the RESET line is driven
    | Wait(ms: nat)          // a delay
    | Sent(data: seq<byte>)  // bytes handed to the port for writing
    | ReadRequest(size: nat) // a read of up to `size` bytes

  /** What one write reports: a status and the number of bytes written. */
  datatype WriteReply = WriteReply(status: ErrorCode, written: nat)

  /** What one read reports: a status and the bytes received. */
  datatype ReadReply = ReadReply(status: ErrorCode, data: seq<byte>)

  /**
   * The reply to a write of `size` bytes: the next scripted one, never
   * claiming more than was asked; once the script is used up, every write
   * goes through whole.
   */
  function NextWrite(script: seq<WriteReply>, size: nat): (w: WriteReply)
    ensures w.written <= size
    ensures script == [] ==> w == WriteReply(Ok, size)
    ensures script != [] ==> w.status == script[0].status
  {
    if script == [] then WriteReply(Ok, size)
    else WriteReply(script[0].status, if script[0].written <= size then script[0].written else size)
  }

  /**
   * The reply to a read of up to `size` bytes: the next scripted one, cut
   * to `size` bytes; once the script is used up, every read times out
   * (success with no byte, as a serial read with a total timeout does).
   */
  function NextRead(script: seq<ReadReply>, size: nat): (r: ReadReply)
    ensures |r.data| <= size
    ensures script == [] ==> r == ReadReply(Ok, [])
    ensures script != [] ==> r.status == script[0].status && r.data <= script[0].data
  {
    if script == [] then ReadReply(Ok, [])
    else ReadReply(script[0].status, if |script[0].data| <= size then script[0].data else script[0].data[..size])
  }

  /** The script left after one reply has been consumed. */
  function Rest<T>(script: seq<T>): (r: seq<T>)
    ensures script != [] ==> r == script[1..]
    ensures script == [] ==> r == []
  {
    if script == [] then [] else script[1..]
  }

  /** A serial port with scripted replies and a log of everything done to it. */
  class Port {
    var openStatus: ErrorCode
    var writeScript: seq<WriteReply>
    var readScript: seq<ReadReply>
    var log: seq<Event>

    constructor (openStatus: ErrorCode, writeReplies: seq<WriteReply>, readReplies: seq<ReadReply>)
      ensures this.openStatus == openStatus
      ensures writeScript == writeReplies && readScript == readReplies
      ensures log == []
    {
      this.openStatus := openStatus;
      writeScript := writeReplies;
      readScript := readReplies;
      log := [];
    }

    /** Opens and configures the port; reports the scripted outcome. */
    method Init() returns (e: ErrorCode)
      modifies this`log
      ensures e == openStatus
      ensures log == old(log) + [PortInit]
    {
      e := openStatus;
      log := log + [PortInit];
    }

    /** Writes `data`; reports a status and how many bytes went out. */
    method Write(data: seq<byte>) returns (e: ErrorCode, written: nat)
      modifies this`log, this`writeScript
      ensures WriteReply(e, written) == NextWrite(old(writeScript), |data|)
      ensures writeScript == Rest(old(writeScript))
      ensures log == old(log) + [Sent(data)]
    {
      var reply := NextWrite(writeScript, |data|);
      e, written := reply.status, reply.written;
      writeScript := Rest(writeScript);
      log := log + [Sent(data)];
    }

    /** Reads up to `size` bytes; reports a status and the bytes received. */
    method Read(size: nat) returns (e: ErrorCode, data: seq<byte>)
      modifies this`log, this`readScript
      ensures ReadReply(e, data) == NextRead(old(readScript), size)
      ensures readScript == Rest(old(readScript))
      ensures log == old(log) + [ReadRequest(size)]
    {
      var reply := NextRead(readScript, size);
      e, data := reply.status, reply.data;
      readScript := Rest(readScript);
      log := log + [ReadRequest(size)];
    }

    /** Drives the RESET line. */
    method SetResetLine(high: bool)
      modifies this`log
      ensures log == old(log) + [ResetLine(high)]
    {
      log := log + [ResetLine(high)];
    }

    /** Drives the BOOT0 line. */
    method SetBootLine(high: bool)
      modifies this`log
      ensures log == old(log) + [BootLine(high)]
    {
      log := log + [BootLine(high)];
    }

    /** Waits `ms` milliseconds. */
    method DelayMs(ms: nat)
      modifies this`log
      ensures log == old(log) + [Wait(ms)]
    {
      log := log + [Wait(ms)];
    }
  }
}
