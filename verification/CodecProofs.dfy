/** Round trips of the wire format, and how far the parser looks. */
module CodecProofs {
  import opened Codec

  // Framing

  lemma HeaderIsLocal(f: Bytes, rest: Bytes)
    requires |f| >= ENVELOPE
    ensures Signed(f + rest) == Signed(f) && BodyLength(f + rest) == BodyLength(f)
    ensures Announced(f + rest) == Announced(f)
  {
    var buf := f + rest;
    assert buf[4..] == f[4..] + rest;
    hide Padding;
  }

  lemma AnnouncedOfFramed(f: Bytes)
    requires Framed(f)
    ensures Announced(f) == |f|
  {
    hide Number4;
  }

  /** The parser looks no further than the end of the frame: what follows does not matter. */
  lemma ParserIsLocal(f: Bytes, rest: Bytes)
    requires Framed(f)
    ensures ParseBuffer(f + rest) == ParseFrame(f)
  {
    hide ParseFrame, Number4, Number2, Padding;
    var buf := f + rest;
    HeaderIsLocal(f, rest);
    AnnouncedOfFramed(f);
    assert buf[..|f|] == f;
  }

  /** No strict prefix of a frame is taken as complete, or as an error. */
  lemma PrefixNeedsMore(f: Bytes, k: nat)
    requires Framed(f) && k < |f|
    ensures ParseBuffer(f[..k]).NeedMore?
  {
    hide ParseFrame, Number4, Number2, Padding;
    if k >= ENVELOPE {
      assert f == f[..k] + f[k..];
      HeaderIsLocal(f[..k], f[k..]);
      AnnouncedOfFramed(f);
    }
  }

  // Fields

  lemma GetPut2(x: u16, rest: Bytes)
    ensures Get2(Put2(x) + rest) == Got(x, rest)
  {
    assert (Put2(x) + rest)[2..] == rest;
  }

  lemma NumberPut4(x: u32, rest: Bytes)
    ensures Number4(Put4(x) + rest) == x
  {
    var s, t := Put4(x), Put4(x) + rest;
    assert t[0] == s[0] && t[1] == s[1] && t[2] == s[2] && t[3] == s[3];
    Digits(x);
  }

  lemma Digits(x: u32)
    ensures 0x100_0000 * (x / 0x100_0000) + 0x1_0000 * (x / 0x1_0000 % 0x100) + 0x100 * (x / 0x100 % 0x100)
            + x % 0x100 == x
  {
    var a := x / 0x100;
    var b := a / 0x100;
    assert x / 0x1_0000 == b && x / 0x100_0000 == b / 0x100;
    assert x == 0x100 * a + x % 0x100 && a == 0x100 * b + a % 0x100;
  }

  lemma GetPut1(x: u8, rest: Bytes)
    ensures Get1([x] + rest) == Got(x, rest)
  {
    assert ([x] + rest)[1..] == rest;
  }

  lemma GetPutString(s: Bytes, rest: Bytes)
    requires |s| <= STRING_MAX
    ensures GetString(PutString(s) + rest) == Got(s, rest)
  {
    var t := s + rest;
    assert PutString(s) + rest == [|s|] + t;
    GetPut1(|s|, t);
    assert t[..|s|] == s && t[|s|..] == rest;
  }

  lemma GetPutRaw(s: Bytes, rest: Bytes)
    requires |s| <= RAW_MAX
    ensures GetRaw(PutRaw(s) + rest) == Got(s, rest)
  {
    var t := s + rest;
    assert PutRaw(s) + rest == Put2(|s|) + t;
    GetPut2(|s|, t);
    assert t[..|s|] == s && t[|s|..] == rest;
  }

  lemma Regroup(a: Bytes, b: Bytes, c: Bytes)
    ensures (a + b) + c == a + (b + c)
  {
  }

  lemma GetPutCall(calling: Bytes, called: Bytes, packet: u8, window: u16, throughput: u8, data: Bytes, rest: Bytes)
    requires |calling| <= STRING_MAX && |called| <= STRING_MAX && |data| <= RAW_MAX
    ensures GetCall(PutCall(calling, called, packet, window, throughput, data) + rest)
            == Got(CallFields(calling, called, packet, window, throughput, data), rest)
  {
    var t5 := PutRaw(data);
    var t4 := [throughput] + t5;
    var t3 := Put2(window) + t4;
    var t2 := [packet] + t3;
    var t1 := PutString(called) + t2;
    Regroup(PutString(calling), t1, rest);
    Regroup(PutString(called), t2, rest);
    Regroup([packet], t3, rest);
    Regroup(Put2(window), t4, rest);
    Regroup([throughput], t5, rest);
    GetPutString(calling, t1 + rest);
    GetPutString(called, t2 + rest);
    GetPut1(packet, t3 + rest);
    GetPut2(window, t4 + rest);
    GetPut1(throughput, t5 + rest);
    GetPutRaw(data, rest);
    hide PutString, Put2, PutRaw, GetString, Get1, Get2, GetRaw;
  }

  lemma GetPutData(q: u8, pr: u16, ps: u16, data: Bytes, rest: Bytes)
    requires |data| <= RAW_MAX
    ensures GetData(PutBody(Data(q, pr, ps, data)) + rest) == Got(Data(q, pr, ps, data), rest)
  {
    var t3 := PutRaw(data);
    var t2 := Put2(ps) + t3;
    var t1 := Put2(pr) + t2;
    Regroup([q], t1, rest);
    Regroup(Put2(pr), t2, rest);
    Regroup(Put2(ps), t3, rest);
    GetPut1(q, t1 + rest);
    GetPut2(pr, t2 + rest);
    GetPut2(ps, t3 + rest);
    GetPutRaw(data, rest);
    hide Put2, PutRaw, Get1, Get2, GetRaw;
  }

  lemma GetPutDiagnostic(d: u8, v: u8, i: u8, l: u16, rest: Bytes)
    ensures GetDiagnostic(PutBody(Diagnostic(d, v, i, l)) + rest) == Got(Diagnostic(d, v, i, l), rest)
  {
    Regroup([d], [v] + ([i] + Put2(l)), rest);
    Regroup([v], [i] + Put2(l), rest);
    Regroup([i], Put2(l), rest);
    GetPut1(d, ([v] + ([i] + Put2(l))) + rest);
    GetPut1(v, ([i] + Put2(l)) + rest);
    GetPut1(i, Put2(l) + rest);
    GetPut2(l, rest);
    hide Put2, Get1, Get2;
  }

  lemma GetPutCause(cause: u8, diagnostic: u8, rest: Bytes)
    ensures GetCause(([cause] + [diagnostic]) + rest) == Got((cause, diagnostic), rest)
  {
    Regroup([cause], [diagnostic], rest);
    GetPut1(cause, [diagnostic] + rest);
    GetPut1(diagnostic, rest);
    hide Get1;
  }

  /** The fields of a printable message fit their places on the wire: strings of at most 255 bytes,
      without the NUL that would end them early. DIRECTORY has no printer. */
  predicate BodyOk(b: Body) {
    && !b.Directory?
    && (b.Data? ==> |b.data| <= RAW_MAX)
    && (b.CallRequest? || b.CallAccepted? ==>
          TextOk(b.calling) && TextOk(b.called) && |b.data| <= RAW_MAX)
    && (b.Connect? ==> TextOk(b.calling))
  }

  predicate TextOk(s: Bytes) {
    |s| <= STRING_MAX && forall i :: 0 <= i < |s| ==> s[i] != 0
  }

  predicate Bare(b: Body) {
    || b.ClearConfirmation? || b.ResetConfirmation? || b.ConnectIndication? || b.Disconnect? || b.DisconnectIndication?
    || b.DirectoryRequest? || b.Enq? || b.Ack? || b.RestartConfirmation?
  }

  lemma GetPutBare(b: Body, rest: Bytes)
    requires Bare(b)
    ensures GetBody(Id(b), PutBody(b) + rest) == Got(b, rest)
  {
    hide GetBody;
    BareIsEmpty(b);
    NothingBefore(rest);
    BareIsRead(b, rest);
  }

  lemma BareIsEmpty(b: Body)
    requires Bare(b)
    ensures PutBody(b) == []
  {
    hide PutCall, PutString, PutRaw, Put2;
  }

  lemma NothingBefore(rest: Bytes)
    ensures [] + rest == rest
  {
  }

  lemma BareIsRead(b: Body, rest: Bytes)
    requires Bare(b)
    ensures GetBody(Id(b), rest) == Got(b, rest)
  {
    hide GetCall, GetData, GetDiagnostic, GetCause, GetString, Get1, Get2;
  }

  lemma GetPutNumbered(b: Body, rest: Bytes)
    requires b.RR? || b.RNR? || b.ClearRequest? || b.ResetRequest? || b.RestartRequest?
    ensures GetBody(Id(b), PutBody(b) + rest) == Got(b, rest)
  {
    hide GetCall, GetData, GetDiagnostic, GetCause, GetString, Get1, Get2, PutCall, PutString, Put2;
    if b.RR? || b.RNR? {
      GetPut2(b.pr, rest);
    } else {
      GetPutCause(b.cause, b.diagnostic, rest);
    }
  }

  lemma GetPutConnect(b: Body, rest: Bytes)
    requires b.Connect? && BodyOk(b)
    ensures GetBody(Id(b), PutBody(b) + rest) == Got(b, rest)
  {
    hide GetCall, GetData, GetDiagnostic, GetCause, GetString, Get1, Get2, PutCall, PutString, Put2;
    Regroup(PutString(b.calling), [b.iodir], rest);
    GetPutString(b.calling, [b.iodir] + rest);
    GetPut1(b.iodir, rest);
  }

  lemma GetPutLong(b: Body, rest: Bytes)
    requires BodyOk(b) && (b.Data? || b.Diagnostic? || b.CallRequest? || b.CallAccepted?)
    ensures GetBody(Id(b), PutBody(b) + rest) == Got(b, rest)
  {
    hide GetCall, GetData, GetDiagnostic, GetCause, GetString, Get1, Get2, PutCall, PutString, PutRaw, Put2;
    if b.Data? {
      GetPutData(b.q, b.pr, b.ps, b.data, rest);
    } else if b.Diagnostic? {
      GetPutDiagnostic(b.diagnostic, b.diagnosticVersion, b.diagnosticId, b.diagnosticLcn, rest);
    } else {
      GetPutCall(b.calling, b.called, b.packet, b.window, b.throughput, b.data, rest);
    }
  }

  /** Every body is read back as it was printed, whatever follows. */
  lemma GetPutBody(b: Body, rest: Bytes)
    requires BodyOk(b)
    ensures GetBody(Id(b), PutBody(b) + rest) == Got(b, rest)
  {
    hide GetBody, PutBody;
    if Bare(b) {
      GetPutBare(b, rest);
    } else if b.Connect? {
      GetPutConnect(b, rest);
    } else if b.Data? || b.Diagnostic? || b.CallRequest? || b.CallAccepted? {
      GetPutLong(b, rest);
    } else {
      GetPutNumbered(b, rest);
    }
  }

  // Frames

  /** The parts of a printed frame. */
  lemma FrameParts(p: Bytes, sum: u32)
    requires |p| <= MAX_PAYLOAD
    ensures var f := Frame(p, sum);
            && Framed(f) && BodyLength(f) == |p|
            && f[8..8 + |p|] == p
            && f[8..] == p + (Zeros(Padding(|p|)) + Put4(sum))
            && Number4(f[|f| - 4..]) == sum
  {
    var f := Frame(p, sum);
    var tail := Zeros(Padding(|p|)) + Put4(sum);
    NumberPut4(SIGNATURE, Put4(|p|) + (p + tail));
    NumberPut4(|p|, p + tail);
    NumberPut4(sum, []);
    assert f[4..] == Put4(|p|) + (p + tail);
    assert f[8..] == p + tail;
    assert f[|f| - 4..] == Put4(sum) + [];
    hide Put4, Number4;
  }

  /** A message that the printer can print and a receive buffer can hold. */
  predicate Printable(m: Message) {
    && m.version == 1 && m.lcn <= MAX_LCN && BodyOk(m.body)
    && |Payload(m)| <= 1012
  }

  lemma PrintableSize(m: Message)
    requires Printable(m)
    ensures |Encode(m)| == ENVELOPE + |Payload(m)| + Padding(|Payload(m)|)
    ensures ENVELOPE + PAYLOAD_HEADER <= |Encode(m)| <= 1024 && |Payload(m)| >= PAYLOAD_HEADER
  {
    hide BodyOk, PutBody, Put4, Sum, Id, Padding;
    FrameLength(Payload(m), Sum(Payload(m)));
    PaddedLength(|Payload(m)|);
  }

  lemma FrameLength(p: Bytes, sum: u32)
    requires |p| < 0x1_0000_0000
    ensures |Frame(p, sum)| == ENVELOPE + |p| + Padding(|p|)
  {
    hide Padding;
  }

  lemma PaddedLength(n: nat)
    requires PAYLOAD_HEADER <= n <= 1012
    ensures n + Padding(n) <= 1012
  {
  }

  /** The payload as the parser sees it, followed by padding and checksum. */
  lemma PayloadParts(m: Message, f: Bytes, tail: Bytes)
    requires |f| >= 12 && f[8..] == Payload(m) + tail
    ensures f[8] == m.version && f[9] == Id(m.body)
    ensures f[10..] == Put2(m.lcn) + (PutBody(m.body) + tail)
    ensures f[12..] == PutBody(m.body) + tail
    ensures Number2(f[10..]) == m.lcn
  {
    hide PutBody, Put2, Number2, Id;
    var version, id, lcn, body := [m.version], [Id(m.body)], Put2(m.lcn), PutBody(m.body);
    Regroup(version, id + (lcn + body), tail);
    Regroup(id, lcn + body, tail);
    Regroup(lcn, body, tail);
    HeaderSlices(f, m.version, Id(m.body), lcn, body + tail);
    NumberPut2(m.lcn, body + tail);
  }

  lemma NumberPut2(x: u16, rest: Bytes)
    ensures Number2(Put2(x) + rest) == x
  {
  }

  /** Two bytes, a number of two, and the rest, from position 8 on. */
  lemma HeaderSlices(f: Bytes, a: u8, b: u8, c: Bytes, d: Bytes)
    requires |f| >= 12 && |c| == 2 && f[8..] == [a] + ([b] + (c + d))
    ensures f[8] == a && f[9] == b
    ensures f[10..] == c + d && f[12..] == d
  {
    var tail := f[8..];
    SliceAt(f, 8, 0);
    SliceAt(f, 8, 1);
    SliceFrom(f, 8, 2);
    SliceFrom(f, 8, 4);
    DropOne(a, [b] + (c + d));
    DropOne(b, c + d);
    SliceFrom(tail, 1, 1);
    SliceFrom(tail, 2, 2);
    assert (c + d)[2..] == d;
  }

  lemma SliceAt(s: Bytes, i: nat, j: nat)
    requires i + j < |s|
    ensures s[i + j] == s[i..][j]
  {
  }

  lemma SliceFrom(s: Bytes, i: nat, j: nat)
    requires i + j <= |s|
    ensures s[i + j..] == s[i..][j..]
  {
  }

  lemma DropOne(a: u8, s: Bytes)
    ensures ([a] + s)[0] == a && ([a] + s)[1..] == s
  {
  }

  lemma UnpackEncoded(m: Message, f: Bytes)
    requires Printable(m) && f == Encode(m)
    ensures |f| >= 16 && Unpack(f) == Valid(m, |f|) && Number2(f[10..]) == m.lcn
  {
    hide GetBody, PutBody, Put2, Put4, Sum, Number4, Number2, Payload, Frame, BodyOk, Padding, Zeros, Framed;
    var p := Payload(m);
    var tail := Zeros(Padding(|p|)) + Put4(Sum(p));
    PrintableSize(m);
    FrameParts(p, Sum(p));
    PayloadParts(m, f, tail);
    GetPutBody(m.body, tail);
    TailLength(|p|, Sum(p));
  }

  lemma TailLength(n: nat, sum: u32)
    ensures |Zeros(Padding(n)) + Put4(sum)| == Padding(n) + 4
  {
  }

  /** Round trip: the bytes of a printable message, with anything appended, parse to the same
      message, and exactly the frame is consumed. */
  lemma RoundTrip(m: Message, rest: Bytes)
    requires Printable(m)
    ensures Framed(Encode(m)) && ParseFrame(Encode(m)) == Delivered(m, |Encode(m)|)
    ensures ParseBuffer(Encode(m) + rest) == Delivered(m, |Encode(m)|)
  {
    hide Unpack, Sum, Number4, Number2, Payload, Frame, ParseBuffer, BodyOk, Put2, Put4, Padding;
    var f := Encode(m);
    PrintableSize(m);
    FrameParts(Payload(m), Sum(Payload(m)));
    UnpackEncoded(m, f);
    ParserIsLocal(f, rest);
  }

  /** Different messages never print the same. */
  lemma EncodeInjective(m1: Message, m2: Message)
    requires Printable(m1) && Printable(m2) && Encode(m1) == Encode(m2)
    ensures m1 == m2
  {
    RoundTrip(m1, []);
    RoundTrip(m2, []);
  }
}
