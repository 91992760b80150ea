/**
 * The bootloader client's operations over the serial layer: opening the
 * port, forcing the target into its ROM bootloader and probing it with
 * the attention byte, and the text of each result code.
 */
module BootClient {
  import opened Bytes
  import opened BootRecords
  import opened SerialIo

  /** Milliseconds the RESET line is held low. */
  const ResetPulseDelay: nat := 100

  // ---------------------------------------------------------------------
  // init
  // ---------------------------------------------------------------------

  /** What `init` does to the port: open it, then wait only if that worked. */
  function InitTrace(e: ErrorCode): (t: seq<Event>)
    ensures |t| == if e == Ok then 2 else 1
    ensures t[0] == PortInit
    ensures Wait(BootReadyDelay) in t <==> e == Ok
  {
    [PortInit] + (if e == Ok then [Wait(BootReadyDelay)] else [])
  }

  /** Opens the serial port and gives the bootloader time to get ready. */
  method Init(port: Port) returns (e: ErrorCode)
    modifies port`log
    ensures e == port.openStatus
    ensures port.log == old(port.log) + InitTrace(e)
  {
    e := port.Init();
    if e == Ok {
      port.DelayMs(BootReadyDelay);
    }
  }

  // ---------------------------------------------------------------------
  // ResetMCU
  // ---------------------------------------------------------------------

  /** A reset pulse: RESET low, hold, RESET high. */
  const ResetPulse: seq<Event> := [ResetLine(false), Wait(ResetPulseDelay), ResetLine(true)]

  /** Pulses the target's RESET line. */
  method ResetMcu(port: Port)
    modifies port`log
    ensures port.log == old(port.log) + ResetPulse
  {
    port.SetResetLine(false);
    port.DelayMs(ResetPulseDelay);
    port.SetResetLine(true);
  }

  // ---------------------------------------------------------------------
  // checkMcuPresence
  // ---------------------------------------------------------------------

  /** The probe went out: the write succeeded and sent its one byte. */
  predicate ProbeSent(w: WriteReply)
  {
    w.status == Ok && w.written == 1
  }

  /** The bootloader answered the probe: exactly the ACK byte came back. */
  predicate ProbeAcknowledged(w: WriteReply, r: ReadReply)
  {
    ProbeSent(w) && r.status == Ok && r.data == [AckRespCode]
  }

  /**
   * A status the serial layer itself can report: never one of the codes
   * that speak about the bootloader's answer, and never the debug code.
   */
  predicate IsTransportStatus(s: ErrorCode)
  {
    s != AckOk && s != AckFailed && s != DbgCode
  }

  /**
   * The result of the probe exchange, given what the write of the probe
   * byte and the one-byte read reported. Presence is signalled only by
   * ACK_OK: the exchange never yields OK.
   */
  function ProbeOutcome(w: WriteReply, r: ReadReply): (e: ErrorCode)
    ensures e != Ok
  {
    if w.status != Ok then w.status
    else if w.written != 1 then Failed
    else if r.status != Ok then r.status
    else if |r.data| != 1 then Failed
    else if r.data[0] == AckRespCode then AckOk
    else AckFailed
  }

  /**
   * What the probe does to the port: BOOT0 high, a reset pulse, the
   * attention byte, and a one-byte read only if that byte went out.
   */
  function ProbeTrace(w: WriteReply): (t: seq<Event>)
    ensures |t| == if ProbeSent(w) then 6 else 5
  {
    [BootLine(true)] + ResetPulse + [Sent([AckAskCode])] + (if ProbeSent(w) then [ReadRequest(1)] else [])
  }

  /**
   * Forces the target into its bootloader, sends it the attention byte
   * and classifies its answer.
   */
  method CheckMcuPresence(port: Port) returns (e: ErrorCode)
    modifies port`log, port`writeScript, port`readScript
    ensures e == ProbeOutcome(NextWrite(old(port.writeScript), 1), NextRead(old(port.readScript), 1))
    ensures port.log == old(port.log) + ProbeTrace(NextWrite(old(port.writeScript), 1))
    ensures port.writeScript == Rest(old(port.writeScript))
    ensures port.readScript ==
      if ProbeSent(NextWrite(old(port.writeScript), 1)) then Rest(old(port.readScript)) else old(port.readScript)
  {
    var txbuff := [AckAskCode];
    port.SetBootLine(true);
    ResetMcu(port);
    var result, written := port.Write(txbuff);
    if result == Ok {
      result := if written == |txbuff| then Ok else Failed;
      if result == Ok {
        var rxbuff;
        result, rxbuff := port.Read(1);
        if result == Ok {
          result := if |rxbuff| == 1 then Ok else Failed;
          if result == Ok {
            result := if rxbuff[0] == AckRespCode then AckOk else AckFailed;
          }
        }
      }
    }
    e := result;
  }

  /** A failed write of the probe is reported unchanged, whatever follows. */
  lemma ProbeWriteFailurePropagates(w: WriteReply, r1: ReadReply, r2: ReadReply)
    requires w.status != Ok
    ensures ProbeOutcome(w, r1) == w.status
    ensures ProbeOutcome(w, r1) == ProbeOutcome(w, r2)
  {
  }

  /** A write that succeeds but does not send exactly one byte is a general error. */
  lemma ProbeShortWriteFails(w: WriteReply, r: ReadReply)
    requires w.status == Ok && w.written != 1
    ensures ProbeOutcome(w, r) == Failed
  {
  }

  /** Once the probe is out, a failed read is reported unchanged and a short read is a general error. */
  lemma ProbeReadFailures(w: WriteReply, r: ReadReply)
    requires ProbeSent(w)
    ensures r.status != Ok ==> ProbeOutcome(w, r) == r.status
    ensures r.status == Ok && |r.data| != 1 ==> ProbeOutcome(w, r) == Failed
  {
  }

  /**
   * Over a serial layer that reports only transport statuses, the probe
   * yields ACK_OK exactly when the ACK byte came back, and ACK_FAILED
   * exactly when some other single byte did.
   */
  lemma ProbeAcknowledgedIff(w: WriteReply, r: ReadReply)
    requires IsTransportStatus(w.status) && IsTransportStatus(r.status)
    ensures ProbeOutcome(w, r) == AckOk <==> ProbeAcknowledged(w, r)
    ensures ProbeOutcome(w, r) == AckFailed <==>
      ProbeSent(w) && r.status == Ok && |r.data| == 1 && r.data[0] != AckRespCode
  {
  }

  /** A NACK in answer to the probe is not an acknowledgement. */
  lemma ProbeNackIsNotAck(w: WriteReply)
    requires ProbeSent(w)
    ensures ProbeOutcome(w, ReadReply(Ok, [NackRespCode])) == AckFailed
  {
  }

  /**
   * The order of side effects: BOOT0 high, RESET low, a 100 ms hold and
   * RESET high all come before the one write, which carries only the
   * attention byte; BOOT0 is never lowered; the read happens only after
   * a complete write.
   */
  lemma ProbeTraceOrder(w: WriteReply)
    ensures ProbeTrace(w)[..4] == [BootLine(true), ResetLine(false), Wait(100), ResetLine(true)]
    ensures ProbeTrace(w)[4] == Sent([0x7F])
    ensures forall i :: 0 <= i < |ProbeTrace(w)| && ProbeTrace(w)[i].Sent? ==> i == 4
    ensures BootLine(false) !in ProbeTrace(w)
    ensures ReadRequest(1) in ProbeTrace(w) <==> ProbeSent(w)
  {
  }

  /**
   * Over a serial layer that never reports the debug code, the probe's
   * result always has a text, so the caller can always print it.
   */
  lemma ProbeOutcomeHasText(w: WriteReply, r: ReadReply)
    requires w.status != DbgCode && r.status != DbgCode
    ensures CodeOf(ProbeOutcome(w, r)) as int < |ErrorMessages|
  {
  }

  /** A target that acknowledges the probe is found. */
  method ProbeAnsweredWithAck() returns (e: ErrorCode)
    ensures e == AckOk
  {
    var port := new Port(Ok, [WriteReply(Ok, 1)], [ReadReply(Ok, [AckRespCode])]);
    e := CheckMcuPresence(port);
  }

  /** A target that stays silent is not found, and the timeout is a general error. */
  method ProbeTimesOut() returns (e: ErrorCode)
    ensures e == Failed
  {
    var port := new Port(Ok, [], []);
    e := CheckMcuPresence(port);
  }

  // ---------------------------------------------------------------------
  // errorCode2String
  // ---------------------------------------------------------------------

  /** The message table, indexed by the numeric value of a result code. */
  const ErrorMessages: seq<string> :=
    ["OK", "Generic Error", "ACK has been received", "No ACK received", "Can't open serial port"]

  /** The text of a result code; the debug code has none. */
  function ErrorCodeToString(e: ErrorCode): (s: string)
    requires CodeOf(e) as int < |ErrorMessages|
    ensures |s| > 0
  {
    ErrorMessages[CodeOf(e)]
  }

  /** The texts of the five printable codes, and the debug code being outside the table. */
  lemma ErrorCodeToStringTable()
    ensures ErrorCodeToString(Ok) == "OK"
    ensures ErrorCodeToString(Failed) == "Generic Error"
    ensures ErrorCodeToString(AckOk) == "ACK has been received"
    ensures ErrorCodeToString(AckFailed) == "No ACK received"
    ensures ErrorCodeToString(SerialCantOpen) == "Can't open serial port"
    ensures CodeOf(DbgCode) as int >= |ErrorMessages|
  {
  }

  /** Distinct printable codes have distinct texts. */
  lemma ErrorCodeToStringInjective(a: ErrorCode, b: ErrorCode)
    requires CodeOf(a) as int < |ErrorMessages| && CodeOf(b) as int < |ErrorMessages|
    ensures ErrorCodeToString(a) == ErrorCodeToString(b) ==> a == b
  {
  }
}
