/** The printer and the parser of application10/msg.c as they are written: a cursor (`needle`) that
    moves over a buffer, up to a ceiling when reading. */
module CodecMachine {
  import opened Codec
  import opened CodecProofs
  import opened CodecLayout

  // Printing

  method PutNumber1(buf: array<u8>, needle: nat, x: u8) returns (next: nat)
    requires needle + 1 <= buf.Length
    modifies buf
    ensures next == needle + 1 && buf[..next] == old(buf[..needle]) + [x]
  {
    buf[needle] := x;
    next := needle + 1;
  }

  method PutNumber2(buf: array<u8>, needle: nat, x: u16) returns (next: nat)
    requires needle + 2 <= buf.Length
    modifies buf
    ensures next == needle + 2 && buf[..next] == old(buf[..needle]) + Put2(x)
  {
    buf[needle] := x / 0x100 % 0x100;
    buf[needle + 1] := x % 0x100;
    next := needle + 2;
  }

  method PutNumber4(buf: array<u8>, needle: nat, x: u32) returns (next: nat)
    requires needle + 4 <= buf.Length
    modifies buf
    ensures next == needle + 4 && buf[..next] == old(buf[..needle]) + Put4(x)
  {
    buf[needle] := x / 0x100_0000 % 0x100;
    buf[needle + 1] := x / 0x1_0000 % 0x100;
    buf[needle + 2] := x / 0x100 % 0x100;
    buf[needle + 3] := x % 0x100;
    next := needle + 4;
  }

  /** memcpy. */
  method PutBlock(buf: array<u8>, needle: nat, s: Bytes) returns (next: nat)
    requires needle + |s| <= buf.Length
    modifies buf
    ensures next == needle + |s| && buf[..next] == old(buf[..needle]) + s
  {
    for i := 0 to |s|
      invariant buf[..needle + i] == old(buf[..needle]) + s[..i]
    {
      buf[needle + i] := s[i];
      assert s[..i + 1] == s[..i] + [s[i]];
    }
    assert s[..|s|] == s;
    next := needle + |s|;
  }

  method PutStringAt(buf: array<u8>, needle: nat, s: Bytes) returns (next: nat)
    requires needle + |PutString(s)| <= buf.Length
    modifies buf
    ensures next == needle + |PutString(s)| && buf[..next] == old(buf[..needle]) + PutString(s)
  {
    next := PutNumber1(buf, needle, |s| % 0x100);
    next := PutBlock(buf, next, s);
    Regroup(old(buf[..needle]), [|s| % 0x100], s);
  }

  method PutRawAt(buf: array<u8>, needle: nat, s: Bytes) returns (next: nat)
    requires needle + |PutRaw(s)| <= buf.Length
    modifies buf
    ensures next == needle + |PutRaw(s)| && buf[..next] == old(buf[..needle]) + PutRaw(s)
  {
    next := PutNumber2(buf, needle, |s| % 0x1_0000);
    next := PutBlock(buf, next, s);
    Regroup(old(buf[..needle]), Put2(|s| % 0x1_0000), s);
  }

  method PutCallAt(buf: array<u8>, needle: nat, f: CallFields) returns (next: nat)
    requires needle + |PutCall(f.calling, f.called, f.packet, f.window, f.throughput, f.data)| <= buf.Length
    modifies buf
    ensures var s := PutCall(f.calling, f.called, f.packet, f.window, f.throughput, f.data);
            next == needle + |s| && buf[..next] == old(buf[..needle]) + s
  {
    ghost var start := buf[..needle];
    next := PutStringAt(buf, needle, f.calling);
    next := PutStringAt(buf, next, f.called);
    next := PutNumber1(buf, next, f.packet);
    next := PutNumber2(buf, next, f.window);
    next := PutNumber1(buf, next, f.throughput);
    next := PutRawAt(buf, next, f.data);
    hide PutString, PutRaw, Put2;
    SixParts(start, PutString(f.calling), PutString(f.called), [f.packet], Put2(f.window), [f.throughput],
             PutRaw(f.data));
  }

  lemma SixParts(start: Bytes, a: Bytes, b: Bytes, c: Bytes, d: Bytes, e: Bytes, f: Bytes)
    ensures (((((start + a) + b) + c) + d) + e) + f == start + (a + (b + (c + (d + (e + f)))))
  {
    Regroup(((((start + a) + b) + c) + d), e, f);
    Regroup((((start + a) + b) + c), d, e + f);
    Regroup(((start + a) + b), c, d + (e + f));
    Regroup((start + a), b, c + (d + (e + f)));
    Regroup(start, a, b + (c + (d + (e + f))));
  }

  lemma FourParts(start: Bytes, a: Bytes, b: Bytes, c: Bytes, d: Bytes)
    ensures (((start + a) + b) + c) + d == start + (a + (b + (c + d)))
  {
    Regroup(((start + a) + b), c, d);
    Regroup((start + a), b, c + d);
    Regroup(start, a, b + (c + d));
  }

  method PutDataAt(buf: array<u8>, needle: nat, b: Body) returns (next: nat)
    requires b.Data? && needle + |PutBody(b)| <= buf.Length
    modifies buf
    ensures next == needle + |PutBody(b)| && buf[..next] == old(buf[..needle]) + PutBody(b)
  {
    ghost var start := buf[..needle];
    next := PutNumber1(buf, needle, b.q);
    next := PutNumber2(buf, next, b.pr);
    next := PutNumber2(buf, next, b.ps);
    next := PutRawAt(buf, next, b.data);
    FourParts(start, [b.q], Put2(b.pr), Put2(b.ps), PutRaw(b.data));
  }

  method PutDiagnosticAt(buf: array<u8>, needle: nat, b: Body) returns (next: nat)
    requires b.Diagnostic? && needle + |PutBody(b)| <= buf.Length
    modifies buf
    ensures next == needle + |PutBody(b)| && buf[..next] == old(buf[..needle]) + PutBody(b)
  {
    ghost var start := buf[..needle];
    next := PutNumber1(buf, needle, b.diagnostic);
    next := PutNumber1(buf, next, b.diagnosticVersion);
    next := PutNumber1(buf, next, b.diagnosticId);
    next := PutNumber2(buf, next, b.diagnosticLcn);
    FourParts(start, [b.diagnostic], [b.diagnosticVersion], [b.diagnosticId], Put2(b.diagnosticLcn));
  }

  /** The second switch of jz_msg_to_byte_array. */
  method PutBodyAt(buf: array<u8>, needle: nat, b: Body) returns (next: nat)
    requires needle + |PutBody(b)| <= buf.Length
    modifies buf
    ensures next == needle + |PutBody(b)| && buf[..next] == old(buf[..needle]) + PutBody(b)
  {
    ghost var start := buf[..needle];
    next := needle;
    if b.Data? {
      next := PutDataAt(buf, needle, b);
    } else if b.RR? || b.RNR? {
      next := PutNumber2(buf, needle, b.pr);
    } else if b.CallRequest? || b.CallAccepted? {
      next := PutCallAt(buf, needle, CallFields(b.calling, b.called, b.packet, b.window, b.throughput, b.data));
    } else if b.ClearRequest? || b.ResetRequest? || b.RestartRequest? {
      next := PutNumber1(buf, needle, b.cause);
      next := PutNumber1(buf, next, b.diagnostic);
      Regroup(start, [b.cause], [b.diagnostic]);
    } else if b.Connect? {
      next := PutStringAt(buf, needle, b.calling);
      next := PutNumber1(buf, next, b.iodir);
      Regroup(start, PutString(b.calling), [b.iodir]);
    } else if b.Diagnostic? {
      next := PutDiagnosticAt(buf, needle, b);
    } else {
      assert start + [] == start;
    }
    hide PutCall, PutString, PutRaw, Put2;
  }

  /** The first switch of jz_msg_to_byte_array: the payload is counted before it is written. */
  function FrameSize(m: Message): (n: nat)
    ensures n == |Payload(m)|
  {
    PAYLOAD_HEADER +
    match m.body
    case Data(_, _, _, data) => 1 + 2 + 2 + (2 + |data|)
    case RR(_) => 2
    case RNR(_) => 2
    case CallRequest(calling, called, _, _, _, data) =>
      (1 + |calling|) + (1 + |called|) + 1 + 2 + 1 + (2 + |data|)
    case CallAccepted(calling, called, _, _, _, data) =>
      (1 + |calling|) + (1 + |called|) + 1 + 2 + 1 + (2 + |data|)
    case ClearRequest(_, _) => 1 + 1
    case ResetRequest(_, _) => 1 + 1
    case RestartRequest(_, _) => 1 + 1
    case Connect(calling, _) => (1 + |calling|) + 1
    case Diagnostic(_, _, _, _) => 1 + 1 + 1 + 2
    case _ => 0
  }

  method PutPayloadAt(buf: array<u8>, needle: nat, m: Message) returns (next: nat)
    requires needle + |Payload(m)| <= buf.Length
    modifies buf
    ensures next == needle + |Payload(m)| && buf[..next] == old(buf[..needle]) + Payload(m)
  {
    ghost var start := buf[..needle];
    next := PutNumber1(buf, needle, m.version);
    next := PutNumber1(buf, next, Id(m.body));
    next := PutNumber2(buf, next, m.lcn);
    next := PutBodyAt(buf, next, m.body);
    hide PutBody, Put2, Id;
    FourParts(start, [m.version], [Id(m.body)], Put2(m.lcn), PutBody(m.body));
  }

  method PutPaddingAt(buf: array<u8>, needle: nat, n: nat) returns (next: nat)
    requires needle + n <= buf.Length
    modifies buf
    ensures next == needle + n && buf[..next] == old(buf[..needle]) + Zeros(n)
  {
    next := needle;
    for i := 0 to n
      invariant next == needle + i && buf[..next] == old(buf[..needle]) + Zeros(i)
    {
      next := PutNumber1(buf, next, 0);
      assert Zeros(i + 1) == Zeros(i) + [0];
    }
  }

  lemma PayloadSlice(s: Bytes, a: Bytes, p: Bytes, z: Bytes)
    requires s == (a + p) + z && |a| == 8
    ensures s[8..8 + |p|] == p
  {
  }

  /** Printable lengths are small. */
  lemma SizeFits(m: Message)
    requires BodyOk(m.body)
    ensures |Payload(m)| < 0x1_0000
  {
    PayloadEnd(m);
    hide Payload;
  }

  /** jz_msg_to_byte_array: the buffer is allocated at the counted size, and what is written fills
      it exactly. */
  method ToByteArray(m: Message) returns (buf: array<u8>)
    requires BodyOk(m.body) && FrameSize(m) < 0x1_0000_0000
    ensures fresh(buf) && buf[..] == Encode(m) && LaidOut(buf[..], m)
  {
    SizeFits(m);
    EncodeLayout(m);
    hide LaidOut, Encode, Frame, Put4, Payload, Sum, FrameSize, Zeros;
    var size := FrameSize(m);
    var padding := Padding(size);
    buf := new u8[ENVELOPE + size + padding];
    var needle := PutNumber4(buf, 0, SIGNATURE);
    needle := PutNumber4(buf, needle, size);
    ghost var header := buf[..8];
    needle := PutPayloadAt(buf, needle, m);
    needle := PutPaddingAt(buf, needle, padding);
    PayloadSlice(buf[..needle], header, Payload(m), Zeros(padding));
    assert buf[8..8 + size] == buf[..needle][8..8 + size];
    var sum := Sum(buf[8..8 + size]);
    needle := PutNumber4(buf, needle, sum);
    assert buf[..] == buf[..needle];
    assert buf[..] == (((Put4(SIGNATURE) + Put4(size)) + Payload(m)) + Zeros(padding)) + Put4(sum) by {
      assert [] + Put4(SIGNATURE) == Put4(SIGNATURE);
    }
    FourParts(Put4(SIGNATURE), Put4(size), Payload(m), Zeros(padding), Put4(sum));
  }

  // Parsing

  /** What a read gave, or why it could not be done. */
  datatype Field<T> = Field(value: T) | NoField(reason: Reason)

  /** A read by cursor agrees with a read from the rest of the frame. */
  ghost predicate Shows<T>(g: Got<T>, f: Field<T>, rest: Bytes) {
    match g
    case Got(v, r) => f == Field(v) && r == rest
    case Stopped(k, at) => f == NoField(k) && at == rest
  }

  method GetNumber1(buf: array<u8>, needle: nat, ceiling: nat) returns (f: Field<u8>, next: nat)
    requires needle <= ceiling <= buf.Length
    ensures needle <= next <= ceiling && Shows(Get1(buf[needle..ceiling]), f, buf[next..ceiling])
  {
    if needle + 1 > ceiling {
      return NoField(TooShort), needle;
    }
    return Field(buf[needle]), needle + 1;
  }

  method GetNumber2(buf: array<u8>, needle: nat, ceiling: nat) returns (f: Field<u16>, next: nat)
    requires needle <= ceiling <= buf.Length
    ensures needle <= next <= ceiling && Shows(Get2(buf[needle..ceiling]), f, buf[next..ceiling])
  {
    if needle + 2 > ceiling {
      return NoField(TooShort), needle;
    }
    var a: int, b: int := buf[needle], buf[needle + 1];
    return Field(0x100 * a + b), needle + 2;
  }

  method GetStringAt(buf: array<u8>, needle: nat, ceiling: nat) returns (f: Field<Bytes>, next: nat)
    requires needle <= ceiling <= buf.Length
    ensures needle <= next <= ceiling && Shows(GetString(buf[needle..ceiling]), f, buf[next..ceiling])
  {
    var n, at := GetNumber1(buf, needle, ceiling);
    if n.NoField? {
      return NoField(n.reason), at;
    }
    if at + n.value > ceiling {
      return NoField(TooShort), at;
    }
    assert buf[at..ceiling][..n.value] == buf[at..at + n.value];
    return Field(buf[at..at + n.value]), at + n.value;
  }

  method GetRawAt(buf: array<u8>, needle: nat, ceiling: nat) returns (f: Field<Bytes>, next: nat)
    requires needle <= ceiling <= buf.Length
    ensures needle <= next <= ceiling && Shows(GetRaw(buf[needle..ceiling]), f, buf[next..ceiling])
  {
    var n, at := GetNumber2(buf, needle, ceiling);
    if n.NoField? {
      return NoField(n.reason), at;
    }
    if at + n.value > ceiling {
      return NoField(TooShort), at;
    }
    if n.value > RAW_MAX {
      return NoField(Unspecified), at;
    }
    assert buf[at..ceiling][..n.value] == buf[at..at + n.value];
    return Field(buf[at..at + n.value]), at + n.value;
  }

  method GetCallAt(buf: array<u8>, needle: nat, ceiling: nat) returns (f: Field<CallFields>, next: nat)
    requires needle <= ceiling <= buf.Length
    ensures needle <= next <= ceiling && Shows(GetCall(buf[needle..ceiling]), f, buf[next..ceiling])
  {
    hide GetString, GetRaw, Get1, Get2;
    next := needle;
    var calling; calling, next := GetStringAt(buf, next, ceiling);
    if calling.NoField? {
      return NoField(calling.reason), next;
    }
    var called; called, next := GetStringAt(buf, next, ceiling);
    if called.NoField? {
      return NoField(called.reason), next;
    }
    var packet; packet, next := GetNumber1(buf, next, ceiling);
    if packet.NoField? {
      return NoField(packet.reason), next;
    }
    var window; window, next := GetNumber2(buf, next, ceiling);
    if window.NoField? {
      return NoField(window.reason), next;
    }
    var throughput; throughput, next := GetNumber1(buf, next, ceiling);
    if throughput.NoField? {
      return NoField(throughput.reason), next;
    }
    var data; data, next := GetRawAt(buf, next, ceiling);
    if data.NoField? {
      return NoField(data.reason), next;
    }
    f := Field(CallFields(calling.value, called.value, packet.value, window.value, throughput.value, data.value));
  }

  method GetDataAt(buf: array<u8>, needle: nat, ceiling: nat) returns (f: Field<Body>, next: nat)
    requires needle <= ceiling <= buf.Length
    ensures needle <= next <= ceiling && Shows(GetData(buf[needle..ceiling]), f, buf[next..ceiling])
  {
    hide GetRaw, Get1, Get2;
    next := needle;
    var q; q, next := GetNumber1(buf, next, ceiling);
    if q.NoField? {
      return NoField(q.reason), next;
    }
    var pr; pr, next := GetNumber2(buf, next, ceiling);
    if pr.NoField? {
      return NoField(pr.reason), next;
    }
    var ps; ps, next := GetNumber2(buf, next, ceiling);
    if ps.NoField? {
      return NoField(ps.reason), next;
    }
    var data; data, next := GetRawAt(buf, next, ceiling);
    if data.NoField? {
      return NoField(data.reason), next;
    }
    return Field(Data(q.value, pr.value, ps.value, data.value)), next;
  }

  method GetDiagnosticAt(buf: array<u8>, needle: nat, ceiling: nat) returns (f: Field<Body>, next: nat)
    requires needle <= ceiling <= buf.Length
    ensures needle <= next <= ceiling && Shows(GetDiagnostic(buf[needle..ceiling]), f, buf[next..ceiling])
  {
    hide Get1, Get2;
    next := needle;
    var d; d, next := GetNumber1(buf, next, ceiling);
    if d.NoField? {
      return NoField(d.reason), next;
    }
    var v; v, next := GetNumber1(buf, next, ceiling);
    if v.NoField? {
      return NoField(v.reason), next;
    }
    var i; i, next := GetNumber1(buf, next, ceiling);
    if i.NoField? {
      return NoField(i.reason), next;
    }
    var l; l, next := GetNumber2(buf, next, ceiling);
    if l.NoField? {
      return NoField(l.reason), next;
    }
    return Field(Diagnostic(d.value, v.value, i.value, l.value)), next;
  }

  method GetCauseAt(buf: array<u8>, needle: nat, ceiling: nat) returns (f: Field<(u8, u8)>, next: nat)
    requires needle <= ceiling <= buf.Length
    ensures needle <= next <= ceiling && Shows(GetCause(buf[needle..ceiling]), f, buf[next..ceiling])
  {
    hide Get1;
    next := needle;
    var cause; cause, next := GetNumber1(buf, next, ceiling);
    if cause.NoField? {
      return NoField(cause.reason), next;
    }
    var diagnostic; diagnostic, next := GetNumber1(buf, next, ceiling);
    if diagnostic.NoField? {
      return NoField(diagnostic.reason), next;
    }
    return Field((cause.value, diagnostic.value)), next;
  }

  method GetConnectAt(buf: array<u8>, needle: nat, ceiling: nat) returns (f: Field<Body>, next: nat)
    requires needle <= ceiling <= buf.Length
    ensures needle <= next <= ceiling && Shows(GetBody(9, buf[needle..ceiling]), f, buf[next..ceiling])
  {
    hide GetString, Get1;
    next := needle;
    var calling; calling, next := GetStringAt(buf, next, ceiling);
    if calling.NoField? {
      return NoField(calling.reason), next;
    }
    var iodir; iodir, next := GetNumber1(buf, next, ceiling);
    if iodir.NoField? {
      return NoField(iodir.reason), next;
    }
    return Field(Connect(calling.value, iodir.value)), next;
  }

  /** The switch of jz_msg_new_from_data. */
  method GetBodyAt(buf: array<u8>, needle: nat, ceiling: nat, id: u8) returns (f: Field<Body>, next: nat)
    requires needle <= ceiling <= buf.Length
    ensures needle <= next <= ceiling && Shows(GetBody(id, buf[needle..ceiling]), f, buf[next..ceiling])
  {
    hide GetString, GetRaw, Get1, Get2, GetCall, GetData, GetDiagnostic, GetCause;
    if id == 0 {
      f, next := GetDataAt(buf, needle, ceiling);
    } else if id == 1 || id == 2 {
      var pr;
      pr, next := GetNumber2(buf, needle, ceiling);
      f := if pr.NoField? then NoField(pr.reason) else Field(if id == 1 then RR(pr.value) else RNR(pr.value));
    } else if id == 3 || id == 4 {
      var c;
      c, next := GetCallAt(buf, needle, ceiling);
      if c.NoField? {
        return NoField(c.reason), next;
      }
      var v := c.value;
      f := Field(if id == 3 then CallRequest(v.calling, v.called, v.packet, v.window, v.throughput, v.data)
                 else CallAccepted(v.calling, v.called, v.packet, v.window, v.throughput, v.data));
    } else if id == 5 || id == 7 || id == 18 {
      var c;
      c, next := GetCauseAt(buf, needle, ceiling);
      if c.NoField? {
        return NoField(c.reason), next;
      }
      var v := c.value;
      f := Field(if id == 5 then ClearRequest(v.0, v.1)
                 else if id == 7 then ResetRequest(v.0, v.1) else RestartRequest(v.0, v.1));
    } else if id == 9 {
      f, next := GetConnectAt(buf, needle, ceiling);
    } else if id == 13 {
      f, next := GetDiagnosticAt(buf, needle, ceiling);
    } else {
      next := needle;
      f := if id == 6 then Field(ClearConfirmation) else if id == 8 then Field(ResetConfirmation)
           else if id == 10 then Field(ConnectIndication) else if id == 11 then Field(Disconnect)
           else if id == 12 then Field(DisconnectIndication) else if id == 14 then Field(DirectoryRequest)
           else if id == 15 then Field(Directory) else if id == 16 then Field(Enq)
           else if id == 17 then Field(Ack) else if id == 19 then Field(RestartConfirmation)
           else NoField(UnknownType);
    }
  }

  /** The header of a frame inside a buffer. */
  lemma FrameHeader(frame: Bytes, s: Bytes, start: nat, ceiling: nat)
    requires start + 12 <= ceiling <= |s| && frame == s[start..ceiling]
    ensures frame[8] == s[start + 8] && frame[9] == s[start + 9] && frame[12..] == s[start + 12..ceiling]
    ensures var a: int, b: int := s[start + 10], s[start + 11]; Number2(frame[10..]) == 0x100 * a + b
  {
    assert frame[10..][0] == s[start + 10] && frame[10..][1] == s[start + 11];
  }

  /** jz_msg_new_from_data: the payload is read below the ceiling that the frame length sets. */
  method NewFromData(buf: array<u8>, start: nat, ceiling: nat) returns (u: Unpacked)
    requires start + ENVELOPE + PAYLOAD_HEADER <= ceiling <= buf.Length
    ensures u == Unpack(buf[start..ceiling])
    ensures u.Valid? ==> Carries(buf[start..ceiling], u.message)
  {
    hide Carries, End, GetBody, Number4, Number2, Padding;
    ghost var frame := buf[start..ceiling];
    UnpackReads(frame);
    var version, id := buf[start + 8], buf[start + 9];
    var a: int, b: int := buf[start + 10], buf[start + 11];
    var lcn := 0x100 * a + b;
    FrameHeader(frame, buf[..], start, ceiling);
    if version != 1 {
      return Invalid(UnknownVersion, version, id, lcn, 12);
    }
    var padding := PaddingOf(buf, start, ceiling);
    var body, needle := GetBodyAt(buf, start + 12, ceiling, id);
    if body.NoField? {
      return Invalid(body.reason, version, id, lcn, needle - start);
    }
    for i := 0 to padding
      invariant start + 12 <= needle <= ceiling
      invariant needle - i >= start + 12 && GetBody(id, frame[12..]) == Got(body.value, buf[needle - i..ceiling])
    {
      if needle + 1 > ceiling {
        return Invalid(TooShort, version, id, lcn, needle - start);
      }
      needle := needle + 1;
    }
    if needle + 4 > ceiling {
      return Invalid(TooShort, version, id, lcn, needle - start);
    }
    needle := needle + 4;
    if needle < ceiling {
      return Invalid(TooLong, version, id, lcn, needle - start);
    }
    return Valid(Message(version, lcn, body.value), needle - start);
  }

  method PaddingOf(buf: array<u8>, start: nat, ceiling: nat) returns (padding: nat)
    requires start + ENVELOPE <= ceiling <= buf.Length
    ensures padding == Padding(BodyLength(buf[start..ceiling]))
  {
    var n := Number4At(buf, start + 4);
    assert buf[start..ceiling][4..] == buf[start + 4..ceiling];
    padding := Padding(n);
  }

  /** A big-endian number of four bytes at a position. */
  method Number4At(buf: array<u8>, i: nat) returns (n: u32)
    requires i + 4 <= buf.Length
    ensures forall end :: i + 4 <= end <= buf.Length ==> n == Number4(buf[i..end])
  {
    var a: int, b: int, c: int, d: int := buf[i], buf[i + 1], buf[i + 2], buf[i + 3];
    n := 0x100_0000 * a + 0x1_0000 * b + 0x100 * c + d;
  }
}
