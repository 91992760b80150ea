/**
 * The declarations shared by the bootloader client and its serial layer:
 * the result codes, the protocol constants of the USART bootloader
 * (ST application note AN3155) and the two fixed-layout response records
 * of the GET and GET VERSION & READ PROTECTION STATUS commands with their
 * accessors.
 */
module BootRecords {
  import opened Bytes
  import Decimal

  // ---------------------------------------------------------------------
  // Result codes and command opcodes
  // ---------------------------------------------------------------------

  /** The closed set of results every client operation returns. */
  datatype ErrorCode =
    | Ok              // no error
    | Failed          // general error without clarification
    | AckOk           // an ACK has been received
    | AckFailed       // no ACK has been received
    | SerialCantOpen  // the serial port could not be opened
    | DbgCode         // debug code

  /** The numeric value of a result code (the enum's underlying byte). */
  function CodeOf(e: ErrorCode): (c: byte)
    ensures c <= 5
    ensures c == 0 <==> e == Ok
  {
    match e
    case Ok => 0
    case Failed => 1
    case AckOk => 2
    case AckFailed => 3
    case SerialCantOpen => 4
    case DbgCode => 5
  }

  /** Distinct result codes have distinct numeric values. */
  lemma CodeOfInjective(a: ErrorCode, b: ErrorCode)
    ensures CodeOf(a) == CodeOf(b) ==> a == b
  {
  }

  /**
   * A bootloader command opcode. The client converts any received byte
   * into this type, so every byte value is a command, not only the named
   * ones below.
   */
  newtype Command = x: int | 0 <= x < 256

  const CommandGet: Command := 0x00     // get the version and the allowed commands
  const CommandGvRps: Command := 0x01   // get version and read protection status
  const CommandGetId: Command := 0x02   // get the chip identifier

  // ---------------------------------------------------------------------
  // Protocol constants
  // ---------------------------------------------------------------------

  /** The byte that asks the bootloader for attention (auto-baud probe). */
  const AckAskCode: byte := 0x7F
  /** The bootloader's acknowledgement. */
  const AckRespCode: byte := 0x79
  /** The bootloader's negative acknowledgement. */
  const NackRespCode: byte := 0x1F
  /** Milliseconds to wait after the serial port has been opened. */
  const BootReadyDelay: nat := 777

  /** The probe, ACK and NACK bytes are pairwise distinct. */
  lemma ControlBytesDistinct()
    ensures AckAskCode != AckRespCode
    ensures AckAskCode != NackRespCode
    ensures AckRespCode != NackRespCode
  {
  }

  // ---------------------------------------------------------------------
  // Response records
  // ---------------------------------------------------------------------

  /** The number of entries of the GET record's command array. */
  const CommandListSize: nat := 11

  type CommandList = s: seq<byte> | |s| == 11
    witness [0, 0, 0, 0, 0, 0, 0, 0, 0, 0, 0]

  /** The GET response: byte count, boot version, supported opcodes. */
  datatype GetResponse = GetResponse(byteCount: byte, bootVersion: byte, supportedCommands: CommandList)

  /** The GET VERSION & READ PROTECTION STATUS response. */
  datatype GvRpsResponse = GvRpsResponse(bootVersion: byte, option1: byte, option2: byte)

  /** A boot version split into its two BCD-style halves. */
  datatype BootVersion = BootVersion(high: byte, low: byte)

  /** A version is well formed when both halves are nibbles. */
  predicate IsNibblePair(v: BootVersion)
  {
    v.high < 16 && v.low < 16
  }

  /** The byte a version pair packs into: high nibble first. */
  function JoinBootVersion(v: BootVersion): (b: byte)
    requires IsNibblePair(v)
  {
    (v.high * 16 + v.low) as byte
  }

  /**
   * The nibble split of a boot-version byte: a right shift by four and a
   * mask with 0x0F, which on an unsigned byte are the quotient and the
   * remainder of a division by 16.
   */
  function SplitBootVersion(b: byte): (v: BootVersion)
    ensures IsNibblePair(v)
    ensures JoinBootVersion(v) == b
  {
    BootVersion(b / 16, b % 16)
  }

  /** Splitting a packed nibble pair gives the pair back. */
  lemma SplitJoinBootVersion(v: BootVersion)
    requires IsNibblePair(v)
    ensures SplitBootVersion(JoinBootVersion(v)) == v
  {
  }

  /** `getBootVer` of the GET record. */
  function GetBootVer(r: GetResponse): (v: BootVersion)
    ensures v.high < 16 && v.low < 16
    ensures v.high as int * 16 + v.low as int == r.bootVersion as int
  {
    SplitBootVersion(r.bootVersion)
  }

  /** `getBootVer` of the GET VERSION & READ PROTECTION STATUS record. */
  function GvRpsGetBootVer(r: GvRpsResponse): (v: BootVersion)
    ensures v.high < 16 && v.low < 16
    ensures v.high as int * 16 + v.low as int == r.bootVersion as int
  {
    SplitBootVersion(r.bootVersion)
  }

  /** "high.low", each half written in decimal. */
  function BootVersionString(v: BootVersion): (s: string)
    ensures ParseBootVersionString(s) == Some(v) || !IsNibblePair(v)
  {
    var hs, ls := Decimal.FromNat(v.high as nat), Decimal.FromNat(v.low as nat);
    BootVersionStringParses(v, hs, ls);
    hs + "." + ls
  }

  /** `getBootVerStr` of the GET record. */
  function GetBootVerStr(r: GetResponse): (s: string)
    ensures 3 <= |s| <= 5
    ensures ParseBootVersionString(s) == Some(GetBootVer(r))
  {
    BootVersionString(GetBootVer(r))
  }

  /** `getBootVerStr` of the GET VERSION & READ PROTECTION STATUS record. */
  function GvRpsGetBootVerStr(r: GvRpsResponse): (s: string)
    ensures 3 <= |s| <= 5
    ensures ParseBootVersionString(s) == Some(GvRpsGetBootVer(r))
  {
    BootVersionString(GvRpsGetBootVer(r))
  }

  /** Two GET records with the same version string have the same version byte. */
  lemma GetBootVerStrInjective(r1: GetResponse, r2: GetResponse)
    ensures GetBootVerStr(r1) == GetBootVerStr(r2) ==> r1.bootVersion == r2.bootVersion
  {
  }

  /** `getCommandListSize`: the fixed size of the array, whatever the byte count says. */
  function GetCommandListSize(r: GetResponse): (n: nat)
    ensures n == |r.supportedCommands|
    ensures n == CommandListSize
  {
    |r.supportedCommands|
  }

  /**
   * `getCommand`: the index-th advertised opcode, or the GET opcode when
   * the index is past the end of the array.
   */
  function GetCommand(r: GetResponse, index: nat): (c: Command)
    ensures index < CommandListSize ==> c as int == r.supportedCommands[index] as int
    ensures index >= CommandListSize ==> c == CommandGet
  {
    if index < |r.supportedCommands| then r.supportedCommands[index] as int as Command else CommandGet
  }

  // ---------------------------------------------------------------------
  // Packed wire layout of the records
  // ---------------------------------------------------------------------

  /** The size of the packed GET record in bytes. */
  const GetResponseSize: nat := 2 + CommandListSize
  /** The size of the packed GET VERSION & READ PROTECTION STATUS record. */
  const GvRpsResponseSize: nat := 3

  /** The packed bytes of a GET record, in field order. */
  function GetResponseBytes(r: GetResponse): (raw: seq<byte>)
    ensures |raw| == GetResponseSize
    ensures raw[0] == r.byteCount && raw[1] == r.bootVersion
    ensures raw[2..] == r.supportedCommands
  {
    [r.byteCount, r.bootVersion] + r.supportedCommands
  }

  /** Reading a GET record out of its packed bytes. */
  function ParseGetResponse(raw: seq<byte>): (r: Option<GetResponse>)
    ensures r.Some? <==> |raw| == GetResponseSize
    ensures r.Some? ==> r.value.byteCount == raw[0] && r.value.bootVersion == raw[1]
    ensures r.Some? ==> r.value.supportedCommands == raw[2..]
  {
    if |raw| == GetResponseSize then Some(GetResponse(raw[0], raw[1], raw[2..])) else None
  }

  /** The packed bytes of a GET VERSION & READ PROTECTION STATUS record. */
  function GvRpsResponseBytes(r: GvRpsResponse): (raw: seq<byte>)
    ensures |raw| == GvRpsResponseSize
    ensures raw[0] == r.bootVersion && raw[1] == r.option1 && raw[2] == r.option2
  {
    [r.bootVersion, r.option1, r.option2]
  }

  /** Reading a GET VERSION & READ PROTECTION STATUS record out of its packed bytes. */
  function ParseGvRpsResponse(raw: seq<byte>): (r: Option<GvRpsResponse>)
    ensures r.Some? <==> |raw| == GvRpsResponseSize
    ensures r.Some? ==> r.value.bootVersion == raw[0] && r.value.option1 == raw[1] && r.value.option2 == raw[2]
  {
    if |raw| == GvRpsResponseSize then Some(GvRpsResponse(raw[0], raw[1], raw[2])) else None
  }

  lemma GetResponseRoundTrip(r: GetResponse)
    ensures ParseGetResponse(GetResponseBytes(r)) == Some(r)
  {
  }

  lemma GetResponseBytesRoundTrip(raw: seq<byte>)
    requires |raw| == GetResponseSize
    ensures GetResponseBytes(ParseGetResponse(raw).value) == raw
  {
  }

  lemma GvRpsResponseRoundTrip(r: GvRpsResponse)
    ensures ParseGvRpsResponse(GvRpsResponseBytes(r)) == Some(r)
  {
  }

  lemma GvRpsResponseBytesRoundTrip(raw: seq<byte>)
    requires |raw| == GvRpsResponseSize
    ensures GvRpsResponseBytes(ParseGvRpsResponse(raw).value) == raw
  {
  }

  /**
   * Reading a GET record off the line: the accessor yields the received
   * opcode at offset 2 + index, and GET past the array's end; the boot
   * version comes from the second byte.
   */
  lemma GetCommandFromWire(raw: seq<byte>, index: nat)
    requires |raw| == GetResponseSize
    ensures index < CommandListSize ==> GetCommand(ParseGetResponse(raw).value, index) as int == raw[2 + index] as int
    ensures index >= CommandListSize ==> GetCommand(ParseGetResponse(raw).value, index) == CommandGet
    ensures GetBootVer(ParseGetResponse(raw).value) == SplitBootVersion(raw[1])
  {
  }

  /** Reading a GET VERSION & READ PROTECTION STATUS record off the line: the version comes from the first byte. */
  lemma GvRpsBootVerFromWire(raw: seq<byte>)
    requires |raw| == GvRpsResponseSize
    ensures GvRpsGetBootVer(ParseGvRpsResponse(raw).value) == SplitBootVersion(raw[0])
  {
  }

  // ---------------------------------------------------------------------
  // Reading a version string back (the partner of the rendering)
  // ---------------------------------------------------------------------

  /** The position of the first '.' in `s`, or |s| if there is none. */
  function IndexOfDot(s: string): (k: nat)
    ensures k <= |s|
    ensures k < |s| ==> s[k] == '.'
    ensures forall i :: 0 <= i < k ==> s[i] != '.'
  {
    if s == [] || s[0] == '.' then 0 else 1 + IndexOfDot(s[1..])
  }

  /** Reads "high.low": two decimal halves below 16, neither with a leading zero. */
  function ParseBootVersionString(s: string): (v: Option<BootVersion>)
    ensures v.Some? ==> IsNibblePair(v.value)
  {
    var k := IndexOfDot(s);
    if k == |s| then None
    else
      var hs, ls := s[..k], s[k + 1..];
      if Decimal.IsCanonical(hs) && Decimal.IsCanonical(ls)
         && Decimal.ToNat(hs) < 16 && Decimal.ToNat(ls) < 16
      then Some(BootVersion(Decimal.ToNat(hs) as byte, Decimal.ToNat(ls) as byte))
      else None
  }

  /** The rendering of a nibble pair reads back to that pair and is 3 to 5 characters long. */
  lemma BootVersionStringParses(v: BootVersion, hs: string, ls: string)
    requires hs == Decimal.FromNat(v.high as nat) && ls == Decimal.FromNat(v.low as nat)
    ensures IsNibblePair(v) ==> ParseBootVersionString(hs + "." + ls) == Some(v)
    ensures IsNibblePair(v) ==> 3 <= |hs + "." + ls| <= 5
  {
    if IsNibblePair(v) {
      var s := hs + "." + ls;
      var k := IndexOfDot(s);
      assert s[|hs|] == '.';
      assert forall i :: 0 <= i < |hs| ==> s[i] == hs[i];
      assert k == |hs|;
      assert s[..k] == hs;
      assert s[k + 1..] == ls;
      Decimal.ToNatFromNat(v.high as nat);
      Decimal.ToNatFromNat(v.low as nat);
      LengthOfSmallRendering(v.high as nat);
      LengthOfSmallRendering(v.low as nat);
    }
  }

  /**
   * The only string reading back to a pair is that pair's rendering, so a
   * read-back to the version pair pins the version string exactly.
   */
  lemma ParseBootVersionStringCanonical(s: string)
    requires ParseBootVersionString(s).Some?
    ensures s == BootVersionString(ParseBootVersionString(s).value)
  {
    var k := IndexOfDot(s);
    var hs, ls := s[..k], s[k + 1..];
    Decimal.FromNatToNat(hs);
    Decimal.FromNatToNat(ls);
    assert s == hs + "." + ls;
  }

  /** A string that reads back to a GET record's version pair is its version string. */
  lemma GetBootVerStrUnique(r: GetResponse, s: string)
    requires ParseBootVersionString(s) == Some(GetBootVer(r))
    ensures s == GetBootVerStr(r)
  {
    ParseBootVersionStringCanonical(s);
  }

  /** A string that reads back to a GET VERSION & READ PROTECTION STATUS record's pair is its version string. */
  lemma GvRpsGetBootVerStrUnique(r: GvRpsResponse, s: string)
    requires ParseBootVersionString(s) == Some(GvRpsGetBootVer(r))
    ensures s == GvRpsGetBootVerStr(r)
  {
    ParseBootVersionStringCanonical(s);
  }

  /** A number below 16 renders to one or two digits. */
  lemma LengthOfSmallRendering(n: nat)
    requires n < 16
    ensures 1 <= |Decimal.FromNat(n)| <= 2
  {
  }
}
