/** The wire format of application10/msg.c on byte sequences: what the printer writes, and what the
    parser makes of a buffer.

    A frame is a signature, the payload length, the payload, zero to three bytes of padding and
    the payload's checksum. */
module Codec {
  import Crc

  type u8 = x: int | 0 <= x < 0x100
  type u16 = x: int | 0 <= x < 0x1_0000
  type u32 = x: int | 0 <= x < 0x1_0000_0000

  type Bytes = seq<u8>

  const SIGNATURE: u32 := 0x4356537e
  const ENVELOPE_HEADER: nat := 8
  const ENVELOPE: nat := 12
  const PAYLOAD_HEADER: nat := 4
  const MAX_PAYLOAD: nat := 1032
  const MAX_LCN: nat := 1024
  const RAW_MAX: nat := 8192
  const STRING_MAX: nat := 255

  datatype Body =
    | Data(q: u8, pr: u16, ps: u16, data: Bytes)
    | RR(pr: u16)
    | RNR(pr: u16)
    | CallRequest(calling: Bytes, called: Bytes, packet: u8, window: u16, throughput: u8, data: Bytes)
    | CallAccepted(calling: Bytes, called: Bytes, packet: u8, window: u16, throughput: u8, data: Bytes)
    | ClearRequest(cause: u8, diagnostic: u8)
    | ClearConfirmation
    | ResetRequest(cause: u8, diagnostic: u8)
    | ResetConfirmation
    | Connect(calling: Bytes, iodir: u8)
    | ConnectIndication
    | Disconnect
    | DisconnectIndication
    | Diagnostic(diagnostic: u8, diagnosticVersion: u8, diagnosticId: u8, diagnosticLcn: u16)
    | DirectoryRequest
    | Directory
    | Enq
    | Ack
    | RestartRequest(cause: u8, diagnostic: u8)
    | RestartConfirmation

  datatype Message = Message(version: u8, lcn: u16, body: Body)

  function Id(b: Body): u8 {
    match b
    case Data(_, _, _, _) => 0
    case RR(_) => 1
    case RNR(_) => 2
    case CallRequest(_, _, _, _, _, _) => 3
    case CallAccepted(_, _, _, _, _, _) => 4
    case ClearRequest(_, _) => 5
    case ClearConfirmation => 6
    case ResetRequest(_, _) => 7
    case ResetConfirmation => 8
    case Connect(_, _) => 9
    case ConnectIndication => 10
    case Disconnect => 11
    case DisconnectIndication => 12
    case Diagnostic(_, _, _, _) => 13
    case DirectoryRequest => 14
    case Directory => 15
    case Enq => 16
    case Ack => 17
    case RestartRequest(_, _) => 18
    case RestartConfirmation => 19
  }

  // Printing

  function Put2(x: u16): (s: Bytes)
    ensures |s| == 2
  {
    [x / 0x100, x % 0x100]
  }

  function Put4(x: u32): (s: Bytes)
    ensures |s| == 4
  {
    [x / 0x100_0000, x / 0x1_0000 % 0x100, x / 0x100 % 0x100, x % 0x100]
  }

  /** A one-byte length, and the string. */
  function PutString(s: Bytes): Bytes {
    [|s| % 0x100] + s
  }

  /** A two-byte length, and the block. */
  function PutRaw(s: Bytes): Bytes {
    Put2(|s| % 0x1_0000) + s
  }

  function PutBody(b: Body): Bytes {
    match b
    case Data(q, pr, ps, data) => [q] + (Put2(pr) + (Put2(ps) + PutRaw(data)))
    case RR(pr) => Put2(pr)
    case RNR(pr) => Put2(pr)
    case CallRequest(calling, called, packet, window, throughput, data) =>
      PutCall(calling, called, packet, window, throughput, data)
    case CallAccepted(calling, called, packet, window, throughput, data) =>
      PutCall(calling, called, packet, window, throughput, data)
    case ClearRequest(cause, diagnostic) => [cause] + [diagnostic]
    case ResetRequest(cause, diagnostic) => [cause] + [diagnostic]
    case RestartRequest(cause, diagnostic) => [cause] + [diagnostic]
    case Connect(calling, iodir) => PutString(calling) + [iodir]
    case Diagnostic(d, v, i, l) => [d] + ([v] + ([i] + Put2(l)))
    case _ => []
  }

  function PutCall(calling: Bytes, called: Bytes, packet: u8, window: u16, throughput: u8, data: Bytes): Bytes {
    PutString(calling) + (PutString(called) + ([packet] + (Put2(window) + ([throughput] + PutRaw(data)))))
  }

  function Payload(m: Message): Bytes {
    [m.version] + ([Id(m.body)] + (Put2(m.lcn) + PutBody(m.body)))
  }

  function Padding(n: nat): (p: nat)
    ensures p < 4 && (n + p) % 4 == 0
  {
    if n % 4 == 0 then 0 else 4 - n % 4
  }

  function Zeros(n: nat): Bytes {
    seq(n, _ => 0)
  }

  function Sum(s: Bytes): u32 {
    Crc.Checksum(Words(s)) as int
  }

  function Words(s: Bytes): seq<bv8> {
    seq(|s|, i requires 0 <= i < |s| => s[i] as bv8)
  }

  /** A payload in its envelope, with the given checksum. */
  function Frame(payload: Bytes, sum: u32): Bytes
    requires |payload| < 0x1_0000_0000
  {
    Put4(SIGNATURE) + (Put4(|payload|) + (payload + (Zeros(Padding(|payload|)) + Put4(sum))))
  }

  /** What jz_msg_to_byte_array returns. */
  function Encode(m: Message): Bytes
    requires |Payload(m)| < 0x1_0000_0000
  {
    Frame(Payload(m), Sum(Payload(m)))
  }

  // Parsing

  /** Why a payload was not taken. */
  datatype Reason =
    | InvalidEnvelope | TooShort | TooLong | UnassignedChannel | UnknownVersion | UnknownType | Unspecified

  /** The cursor after a read, or where it stopped. */
  datatype Got<T> = Got(value: T, rest: Bytes) | Stopped(reason: Reason, at: Bytes)
  {
    predicate IsFailure() {
      Stopped?
    }

    function PropagateFailure<U>(): Got<U>
      requires Stopped?
    {
      Stopped(reason, at)
    }

    function Extract(): (T, Bytes)
      requires Got?
    {
      (value, rest)
    }
  }

  /** A read moves the cursor forward, if at all. */
  predicate Within<T>(r: Got<T>, s: Bytes) {
    match r
    case Got(_, rest) => |rest| <= |s|
    case Stopped(_, at) => |at| <= |s|
  }

  function Get1(s: Bytes): (r: Got<u8>)
    ensures Within(r, s)
  {
    if |s| < 1 then Stopped(TooShort, s) else Got(s[0], s[1..])
  }

  function Number2(s: Bytes): u16
    requires |s| >= 2
  {
    var a: int, b: int := s[0], s[1];
    0x100 * a + b
  }

  function Number4(s: Bytes): u32
    requires |s| >= 4
  {
    var a: int, b: int, c: int, d: int := s[0], s[1], s[2], s[3];
    0x100_0000 * a + 0x1_0000 * b + 0x100 * c + d
  }

  function Get2(s: Bytes): (r: Got<u16>)
    ensures Within(r, s)
  {
    if |s| < 2 then Stopped(TooShort, s) else Got(Number2(s), s[2..])
  }

  function GetString(s: Bytes): (r: Got<Bytes>)
    ensures Within(r, s)
  {
    var (n, t) :- Get1(s);
    if |t| < n then Stopped(TooShort, t) else Got(t[..n], t[n..])
  }

  function GetRaw(s: Bytes): (r: Got<Bytes>)
    ensures Within(r, s)
  {
    var (n, t) :- Get2(s);
    if |t| < n then Stopped(TooShort, t)
    else if n > RAW_MAX then Stopped(Unspecified, t)
    else Got(t[..n], t[n..])
  }

  datatype CallFields = CallFields(calling: Bytes, called: Bytes, packet: u8, window: u16, throughput: u8, data: Bytes)

  function GetCall(s: Bytes): (r: Got<CallFields>)
    ensures Within(r, s)
  {
    var (calling, s1) :- GetString(s);
    var (called, s2) :- GetString(s1);
    var (packet, s3) :- Get1(s2);
    var (window, s4) :- Get2(s3);
    var (throughput, s5) :- Get1(s4);
    var (data, s6) :- GetRaw(s5);
    Got(CallFields(calling, called, packet, window, throughput, data), s6)
  }

  function GetData(s: Bytes): (r: Got<Body>)
    ensures Within(r, s)
  {
    var (q, s1) :- Get1(s);
    var (pr, s2) :- Get2(s1);
    var (ps, s3) :- Get2(s2);
    var (data, s4) :- GetRaw(s3);
    Got(Data(q, pr, ps, data), s4)
  }

  function GetDiagnostic(s: Bytes): (r: Got<Body>)
    ensures Within(r, s)
  {
    var (d, s1) :- Get1(s);
    var (v, s2) :- Get1(s1);
    var (i, s3) :- Get1(s2);
    var (l, s4) :- Get2(s3);
    Got(Diagnostic(d, v, i, l), s4)
  }

  function GetCause(s: Bytes): (r: Got<(u8, u8)>)
    ensures Within(r, s)
  {
    var (cause, s1) :- Get1(s);
    var (diagnostic, s2) :- Get1(s1);
    Got((cause, diagnostic), s2)
  }

  /** The switch of jz_msg_new_from_data. */
  function GetBody(id: u8, s: Bytes): (r: Got<Body>)
    ensures Within(r, s)
  {
    if id == 0 then GetData(s)
    else if id == 1 then
      var (pr, t) :- Get2(s); Got(RR(pr), t)
    else if id == 2 then
      var (pr, t) :- Get2(s); Got(RNR(pr), t)
    else if id == 3 then
      var (f, t) :- GetCall(s);
      Got(CallRequest(f.calling, f.called, f.packet, f.window, f.throughput, f.data), t)
    else if id == 4 then
      var (f, t) :- GetCall(s);
      Got(CallAccepted(f.calling, f.called, f.packet, f.window, f.throughput, f.data), t)
    else if id == 5 then
      var (c, t) :- GetCause(s); Got(ClearRequest(c.0, c.1), t)
    else if id == 6 then Got(ClearConfirmation, s)
    else if id == 7 then
      var (c, t) :- GetCause(s); Got(ResetRequest(c.0, c.1), t)
    else if id == 8 then Got(ResetConfirmation, s)
    else if id == 9 then
      var (calling, t) :- GetString(s);
      var (iodir, u) :- Get1(t);
      Got(Connect(calling, iodir), u)
    else if id == 10 then Got(ConnectIndication, s)
    else if id == 11 then Got(Disconnect, s)
    else if id == 12 then Got(DisconnectIndication, s)
    else if id == 13 then GetDiagnostic(s)
    else if id == 14 then Got(DirectoryRequest, s)
    else if id == 15 then Got(Directory, s)
    else if id == 16 then Got(Enq, s)
    else if id == 17 then Got(Ack, s)
    else if id == 18 then
      var (c, t) :- GetCause(s); Got(RestartRequest(c.0, c.1), t)
    else if id == 19 then Got(RestartConfirmation, s)
    else Stopped(UnknownType, s)
  }

  datatype Unpacked =
    | Valid(message: Message, size: nat)
    | Invalid(reason: Reason, version: u8, id: u8, lcn: u16, size: nat)

  /** jz_msg_new_from_data on a whole frame: everything up to the parser's ceiling. */
  function Unpack(frame: Bytes): (u: Unpacked)
    requires |frame| >= ENVELOPE + PAYLOAD_HEADER
    ensures 12 <= u.size <= |frame|
  {
    var version, id, lcn := frame[8], frame[9], Number2(frame[10..]);
    var body := frame[12..];
    if version != 1 then Invalid(UnknownVersion, version, id, lcn, 12)
    else
      match GetBody(id, body)
      case Stopped(reason, at) => Invalid(reason, version, id, lcn, |frame| - |at|)
      case Got(b, rest) =>
        var pad := Padding(Number4(frame[4..]));
        if |rest| < pad then Invalid(TooShort, version, id, lcn, |frame|)
        else if |rest| < pad + 4 then Invalid(TooShort, version, id, lcn, |frame| - |rest| + pad)
        else
          var size := |frame| - |rest| + pad + 4;
          if size < |frame| then Invalid(TooLong, version, id, lcn, size)
          else Valid(Message(version, lcn, b), size)
  }

  // The envelope

  predicate Signed(buf: Bytes) {
    |buf| >= 4 && Number4(buf) == SIGNATURE
  }

  function BodyLength(buf: Bytes): u32
    requires |buf| >= ENVELOPE_HEADER
  {
    Number4(buf[4..])
  }

  /** The announced length of a frame, in 32-bit arithmetic. */
  function Announced(buf: Bytes): nat
    requires |buf| >= ENVELOPE_HEADER
  {
    (ENVELOPE + BodyLength(buf) + Padding(BodyLength(buf))) % 0x1_0000_0000
  }

  /** A whole frame: signed, and exactly as long as it announces. */
  predicate Framed(f: Bytes) {
    && |f| >= ENVELOPE && Signed(f)
    && BodyLength(f) <= MAX_PAYLOAD
    && |f| == ENVELOPE + BodyLength(f) + Padding(BodyLength(f))
  }

  predicate SumOk(f: Bytes)
    requires Framed(f)
  {
    Number4(f[|f| - 4..]) == Sum(f[8..8 + BodyLength(f)])
  }

  datatype Report = Report(reason: Reason, version: u8, id: u8, lcn: u16)

  /** What jz_buffer_parse_into_message makes of the front of a buffer. */
  datatype Parsed =
    | NeedMore
    | Fatal
    | Abort
    | Diagnosed(report: Report, size: nat)
    | Delivered(message: Message, size: nat)

  /** The checks of a complete frame, and then its payload. */
  function ParseFrame(f: Bytes): (r: Parsed)
    requires Framed(f)
    ensures (r.Diagnosed? || r.Delivered?) && 12 <= r.size <= |f|
  {
    if !SumOk(f) then Diagnosed(Report(InvalidEnvelope, 0, 0, 0), |f|)
    else if BodyLength(f) < PAYLOAD_HEADER then Diagnosed(Report(TooShort, 0, 0, 0), |f|)
    else if Number2(f[10..]) > MAX_LCN then Diagnosed(Report(UnassignedChannel, 0, 0, 0), |f|)
    else
      match Unpack(f)
      case Valid(m, size) => Delivered(m, size)
      case Invalid(reason, version, id, lcn, size) => Diagnosed(Report(reason, version, id, lcn), size)
  }

  function ParseBuffer(buf: Bytes): (r: Parsed)
    ensures r.Diagnosed? || r.Delivered? ==> 12 <= r.size <= |buf|
  {
    if |buf| < ENVELOPE then NeedMore
    else if !Signed(buf) then Fatal
    else if |buf| < Announced(buf) then NeedMore
    else if BodyLength(buf) > MAX_PAYLOAD then Abort
    else
      var f := buf[..Announced(buf)];
      SliceFramed(buf);
      ParseFrame(f)
  }

  lemma SliceFramed(buf: Bytes)
    requires |buf| >= ENVELOPE && Signed(buf) && BodyLength(buf) <= MAX_PAYLOAD && |buf| >= Announced(buf)
    ensures Framed(buf[..Announced(buf)]) && BodyLength(buf[..Announced(buf)]) == BodyLength(buf)
  {
    var f := buf[..Announced(buf)];
    assert f[4..][..4] == buf[4..][..4];
    assert Number4(f[4..]) == Number4(buf[4..]) && Number4(f) == Number4(buf) by {
      assert f[4..][0] == buf[4..][0] && f[4..][1] == buf[4..][1];
      assert f[4..][2] == buf[4..][2] && f[4..][3] == buf[4..][3];
    }
  }
}
