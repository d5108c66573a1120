/** Where each byte of a frame is (application10/msg.c). The layout is written down here in plain
    offsets and numbers; the printer writes it and the parser reads it. */
module CodecLayout {
  import opened Codec
  import opened CodecProofs

  // The layout

  /** Two bytes, the more significant first. */
  predicate NumberAt(f: Bytes, i: nat, x: u16) {
    i + 2 <= |f| && f[i] == x / 256 && f[i + 1] == x % 256
  }

  /** Four bytes, the most significant first. */
  predicate LongAt(f: Bytes, i: nat, x: u32) {
    && i + 4 <= |f|
    && f[i] == x / 16777216 && f[i + 1] == x / 65536 % 256 && f[i + 2] == x / 256 % 256 && f[i + 3] == x % 256
  }

  /** One byte of length, and the text. */
  predicate TextAt(f: Bytes, i: nat, s: Bytes) {
    i + 1 + |s| <= |f| && f[i] == |s| && forall k :: 0 <= k < |s| ==> f[i + 1 + k] == s[k]
  }

  /** Two bytes of length, and the block. */
  predicate BlockAt(f: Bytes, i: nat, s: Bytes) {
    && |s| < 0x1_0000 && NumberAt(f, i, |s|)
    && i + 2 + |s| <= |f| && forall k :: 0 <= k < |s| ==> f[i + 2 + k] == s[k]
  }

  predicate ByteAt(f: Bytes, i: nat, x: u8) {
    i < |f| && f[i] == x
  }

  /** Two addresses, the facilities and the user data, from position 12 on. */
  predicate CallAt(f: Bytes, calling: Bytes, called: Bytes, packet: u8, window: u16, throughput: u8, data: Bytes) {
    var k := 14 + |calling| + |called|;
    && TextAt(f, 12, calling) && TextAt(f, 13 + |calling|, called)
    && ByteAt(f, k, packet) && NumberAt(f, k + 1, window) && ByteAt(f, k + 3, throughput) && BlockAt(f, k + 4, data)
  }

  /** The kind and its fields. */
  predicate BodyAt(f: Bytes, b: Body) {
    match b
    case Data(q, pr, ps, data) =>
      ByteAt(f, 9, 0) && ByteAt(f, 12, q) && NumberAt(f, 13, pr) && NumberAt(f, 15, ps) && BlockAt(f, 17, data)
    case RR(pr) => ByteAt(f, 9, 1) && NumberAt(f, 12, pr)
    case RNR(pr) => ByteAt(f, 9, 2) && NumberAt(f, 12, pr)
    case CallRequest(calling, called, packet, window, throughput, data) =>
      ByteAt(f, 9, 3) && CallAt(f, calling, called, packet, window, throughput, data)
    case CallAccepted(calling, called, packet, window, throughput, data) =>
      ByteAt(f, 9, 4) && CallAt(f, calling, called, packet, window, throughput, data)
    case ClearRequest(cause, diagnostic) => ByteAt(f, 9, 5) && ByteAt(f, 12, cause) && ByteAt(f, 13, diagnostic)
    case ClearConfirmation => ByteAt(f, 9, 6)
    case ResetRequest(cause, diagnostic) => ByteAt(f, 9, 7) && ByteAt(f, 12, cause) && ByteAt(f, 13, diagnostic)
    case ResetConfirmation => ByteAt(f, 9, 8)
    case Connect(calling, iodir) => ByteAt(f, 9, 9) && TextAt(f, 12, calling) && ByteAt(f, 13 + |calling|, iodir)
    case ConnectIndication => ByteAt(f, 9, 10)
    case Disconnect => ByteAt(f, 9, 11)
    case DisconnectIndication => ByteAt(f, 9, 12)
    case Diagnostic(d, v, i, l) =>
      ByteAt(f, 9, 13) && ByteAt(f, 12, d) && ByteAt(f, 13, v) && ByteAt(f, 14, i) && NumberAt(f, 15, l)
    case DirectoryRequest => ByteAt(f, 9, 14)
    case Directory => ByteAt(f, 9, 15)
    case Enq => ByteAt(f, 9, 16)
    case Ack => ByteAt(f, 9, 17)
    case RestartRequest(cause, diagnostic) => ByteAt(f, 9, 18) && ByteAt(f, 12, cause) && ByteAt(f, 13, diagnostic)
    case RestartConfirmation => ByteAt(f, 9, 19)
  }

  /** The position after the last field. */
  function End(b: Body): (e: nat)
    ensures e >= 12
  {
    match b
    case Data(_, _, _, data) => 19 + |data|
    case RR(_) => 14
    case RNR(_) => 14
    case CallRequest(calling, called, _, _, _, data) => 20 + |calling| + |called| + |data|
    case CallAccepted(calling, called, _, _, _, data) => 20 + |calling| + |called| + |data|
    case ClearRequest(_, _) => 14
    case ResetRequest(_, _) => 14
    case RestartRequest(_, _) => 14
    case Connect(calling, _) => 14 + |calling|
    case Diagnostic(_, _, _, _) => 17
    case _ => 12
  }

  /** The version, the LCN, and the body. */
  predicate Carries(f: Bytes, m: Message) {
    End(m.body) <= |f| && ByteAt(f, 8, m.version) && NumberAt(f, 10, m.lcn) && BodyAt(f, m.body)
  }

  /** The whole frame: "CVS~", the payload's length, the payload, zeros up to a multiple of four, and
      the payload's checksum. */
  predicate LaidOut(f: Bytes, m: Message) {
    var end := End(m.body);
    && Carries(f, m)
    && |f| % 4 == 0 && end + 4 <= |f| < end + 8 && end < 0x1_0000_0000
    && ByteAt(f, 0, 0x43) && ByteAt(f, 1, 0x56) && ByteAt(f, 2, 0x53) && ByteAt(f, 3, 0x7E)
    && LongAt(f, 4, end - 8)
    && (forall i :: end <= i < |f| - 4 ==> f[i] == 0)
    && LongAt(f, |f| - 4, Sum(f[8..end]))
  }

  // Pieces of a frame

  predicate Holds(f: Bytes, i: nat, s: Bytes) {
    i + |s| <= |f| && f[i..i + |s|] == s
  }

  lemma HoldsAt(f: Bytes, i: nat, s: Bytes, k: nat)
    requires Holds(f, i, s) && k < |s|
    ensures f[i + k] == s[k]
  {
    assert f[i..i + |s|][k] == s[k];
  }

  lemma HoldsSplit(f: Bytes, i: nat, a: Bytes, b: Bytes)
    requires Holds(f, i, a + b)
    ensures Holds(f, i, a) && Holds(f, i + |a|, b)
  {
    assert f[i..i + |a + b|][..|a|] == f[i..i + |a|];
    assert f[i..i + |a + b|][|a|..] == f[i + |a|..i + |a| + |b|];
  }

  lemma HoldsOne(f: Bytes, i: nat, x: u8)
    requires Holds(f, i, [x])
    ensures ByteAt(f, i, x)
  {
    HoldsAt(f, i, [x], 0);
  }

  lemma HoldsTwo(f: Bytes, i: nat, x: u16)
    requires Holds(f, i, Put2(x))
    ensures NumberAt(f, i, x)
  {
    HoldsAt(f, i, Put2(x), 0);
    HoldsAt(f, i, Put2(x), 1);
  }

  lemma HoldsFour(f: Bytes, i: nat, x: u32)
    requires Holds(f, i, Put4(x))
    ensures LongAt(f, i, x)
  {
    HoldsAt(f, i, Put4(x), 0);
    HoldsAt(f, i, Put4(x), 1);
    HoldsAt(f, i, Put4(x), 2);
    HoldsAt(f, i, Put4(x), 3);
  }

  lemma HoldsText(f: Bytes, i: nat, s: Bytes)
    requires Holds(f, i, PutString(s)) && |s| <= STRING_MAX
    ensures TextAt(f, i, s) && |PutString(s)| == 1 + |s|
  {
    HoldsSplit(f, i, [|s| % 0x100], s);
    HoldsOne(f, i, |s| % 0x100);
    forall k | 0 <= k < |s|
      ensures f[i + 1 + k] == s[k]
    {
      HoldsAt(f, i + 1, s, k);
    }
  }

  lemma HoldsBlock(f: Bytes, i: nat, s: Bytes)
    requires Holds(f, i, PutRaw(s)) && |s| <= RAW_MAX
    ensures BlockAt(f, i, s)
  {
    hide Put2;
    HoldsSplit(f, i, Put2(|s| % 0x1_0000), s);
    HoldsTwo(f, i, |s| % 0x1_0000);
    forall k | 0 <= k < |s|
      ensures f[i + 2 + k] == s[k]
    {
      HoldsAt(f, i + 2, s, k);
    }
  }

  // The printer

  lemma CallPrinted(f: Bytes, calling: Bytes, called: Bytes, packet: u8, window: u16, throughput: u8, data: Bytes)
    requires Holds(f, 12, PutCall(calling, called, packet, window, throughput, data))
    requires |calling| <= STRING_MAX && |called| <= STRING_MAX && |data| <= RAW_MAX
    ensures CallAt(f, calling, called, packet, window, throughput, data)
    ensures 20 + |calling| + |called| + |data| <= |f|
  {
    hide Holds, Put2, PutString, PutRaw;
    var t5 := PutRaw(data);
    var t4 := [throughput] + t5;
    var t3 := Put2(window) + t4;
    var t2 := [packet] + t3;
    var t1 := PutString(called) + t2;
    var k := 14 + |calling| + |called|;
    HoldsSplit(f, 12, PutString(calling), t1);
    HoldsText(f, 12, calling);
    HoldsSplit(f, 13 + |calling|, PutString(called), t2);
    HoldsText(f, 13 + |calling|, called);
    HoldsSplit(f, k, [packet], t3);
    HoldsOne(f, k, packet);
    HoldsSplit(f, k + 1, Put2(window), t4);
    HoldsTwo(f, k + 1, window);
    HoldsSplit(f, k + 3, [throughput], t5);
    HoldsOne(f, k + 3, throughput);
    HoldsBlock(f, k + 4, data);
  }

  lemma DataPrinted(f: Bytes, q: u8, pr: u16, ps: u16, data: Bytes)
    requires Holds(f, 12, PutBody(Data(q, pr, ps, data))) && |data| <= RAW_MAX
    ensures ByteAt(f, 12, q) && NumberAt(f, 13, pr) && NumberAt(f, 15, ps) && BlockAt(f, 17, data)
  {
    hide Holds, Put2, PutRaw;
    HoldsSplit(f, 12, [q], Put2(pr) + (Put2(ps) + PutRaw(data)));
    HoldsOne(f, 12, q);
    HoldsSplit(f, 13, Put2(pr), Put2(ps) + PutRaw(data));
    HoldsTwo(f, 13, pr);
    HoldsSplit(f, 15, Put2(ps), PutRaw(data));
    HoldsTwo(f, 15, ps);
    HoldsBlock(f, 17, data);
  }

  lemma CausePrinted(f: Bytes, cause: u8, diagnostic: u8)
    requires Holds(f, 12, [cause] + [diagnostic])
    ensures ByteAt(f, 12, cause) && ByteAt(f, 13, diagnostic)
  {
    hide Holds;
    HoldsSplit(f, 12, [cause], [diagnostic]);
    HoldsOne(f, 12, cause);
    HoldsOne(f, 13, diagnostic);
  }

  lemma ConnectPrinted(f: Bytes, calling: Bytes, iodir: u8)
    requires Holds(f, 12, PutString(calling) + [iodir]) && |calling| <= STRING_MAX
    ensures TextAt(f, 12, calling) && ByteAt(f, 13 + |calling|, iodir)
  {
    hide Holds, PutString;
    HoldsSplit(f, 12, PutString(calling), [iodir]);
    HoldsText(f, 12, calling);
    HoldsOne(f, 13 + |calling|, iodir);
  }

  lemma DiagnosticPrinted(f: Bytes, d: u8, v: u8, i: u8, l: u16)
    requires Holds(f, 12, [d] + ([v] + ([i] + Put2(l))))
    ensures ByteAt(f, 12, d) && ByteAt(f, 13, v) && ByteAt(f, 14, i) && NumberAt(f, 15, l)
  {
    hide Holds, Put2;
    HoldsSplit(f, 12, [d], [v] + ([i] + Put2(l)));
    HoldsOne(f, 12, d);
    HoldsSplit(f, 13, [v], [i] + Put2(l));
    HoldsOne(f, 13, v);
    HoldsSplit(f, 14, [i], Put2(l));
    HoldsOne(f, 14, i);
    HoldsTwo(f, 15, l);
  }

  lemma BodyPrinted(f: Bytes, b: Body)
    requires BodyOk(b) && ByteAt(f, 9, Id(b)) && Holds(f, 12, PutBody(b))
    ensures BodyAt(f, b)
  {
    hide Holds, PutString, PutRaw, Put2, PutCall, CallAt, TextAt, BlockAt, NumberAt, TextOk;
    match b
    case Data(q, pr, ps, data) => DataPrinted(f, q, pr, ps, data);
    case RR(pr) => HoldsTwo(f, 12, pr);
    case RNR(pr) => HoldsTwo(f, 12, pr);
    case CallRequest(calling, called, packet, window, throughput, data) =>
      TextShort(calling);
      TextShort(called);
      CallPrinted(f, calling, called, packet, window, throughput, data);
    case CallAccepted(calling, called, packet, window, throughput, data) =>
      TextShort(calling);
      TextShort(called);
      CallPrinted(f, calling, called, packet, window, throughput, data);
    case ClearRequest(cause, diagnostic) => CausePrinted(f, cause, diagnostic);
    case ResetRequest(cause, diagnostic) => CausePrinted(f, cause, diagnostic);
    case RestartRequest(cause, diagnostic) => CausePrinted(f, cause, diagnostic);
    case Connect(calling, iodir) =>
      TextShort(calling);
      ConnectPrinted(f, calling, iodir);
    case Diagnostic(d, v, i, l) => DiagnosticPrinted(f, d, v, i, l);
    case _ =>
  }

  lemma TextShort(s: Bytes)
    requires TextOk(s)
    ensures |s| <= STRING_MAX
  {
  }

  /** The length of a payload. */
  lemma PayloadEnd(m: Message)
    ensures |Payload(m)| == End(m.body) - 8
  {
    hide Put2, PutBody, End;
    BodyEnd(m.body);
  }

  lemma BodyEnd(b: Body)
    ensures |PutBody(b)| == End(b) - 12
  {
  }

  lemma FrameHolds(p: Bytes, sum: u32)
    requires |p| < 0x1_0000_0000
    ensures var f, pad := Frame(p, sum), Padding(|p|);
            && |f| == 12 + |p| + pad
            && Holds(f, 0, Put4(SIGNATURE)) && Holds(f, 4, Put4(|p|)) && Holds(f, 8, p)
            && Holds(f, 8 + |p|, Zeros(pad)) && Holds(f, 8 + |p| + pad, Put4(sum))
  {
    hide Put4, Holds;
    var f, pad := Frame(p, sum), Padding(|p|);
    var t3 := Zeros(pad) + Put4(sum);
    var t2 := p + t3;
    var t1 := Put4(|p|) + t2;
    HoldsAll(f);
    HoldsSplit(f, 0, Put4(SIGNATURE), t1);
    HoldsSplit(f, 4, Put4(|p|), t2);
    HoldsSplit(f, 8, p, t3);
    HoldsSplit(f, 8 + |p|, Zeros(pad), Put4(sum));
  }

  lemma HoldsAll(f: Bytes)
    ensures Holds(f, 0, f)
  {
  }

  lemma PayloadPrinted(f: Bytes, m: Message)
    requires BodyOk(m.body) && Holds(f, 8, Payload(m))
    ensures Carries(f, m)
  {
    hide Holds, Put2, PutBody, BodyAt, BodyOk, Id, End;
    HoldsSplit(f, 8, [m.version], [Id(m.body)] + (Put2(m.lcn) + PutBody(m.body)));
    HoldsOne(f, 8, m.version);
    HoldsSplit(f, 9, [Id(m.body)], Put2(m.lcn) + PutBody(m.body));
    HoldsOne(f, 9, Id(m.body));
    HoldsSplit(f, 10, Put2(m.lcn), PutBody(m.body));
    HoldsTwo(f, 10, m.lcn);
    BodyPrinted(f, m.body);
    BodyEnd(m.body);
    HoldsWithin(f, 12, PutBody(m.body));
  }

  lemma HoldsWithin(f: Bytes, i: nat, s: Bytes)
    requires Holds(f, i, s)
    ensures i + |s| <= |f| && f[i..i + |s|] == s
  {
  }

  /** What the printer writes, byte by byte. */
  lemma EncodeLayout(m: Message)
    requires BodyOk(m.body) && |Payload(m)| < 0x1_0000_0000 - 8
    ensures LaidOut(Encode(m), m)
  {
    hide Put4, Holds, Payload, Sum, BodyOk, Carries, Zeros, LongAt, ByteAt, Padding, Frame;
    var p := Payload(m);
    var f, pad := Encode(m), Padding(|p|);
    PayloadEnd(m);
    FrameHolds(p, Sum(p));
    PayloadPrinted(f, m);
    SignatureHeld(f);
    HoldsFour(f, 4, |p|);
    HoldsFour(f, |f| - 4, Sum(p));
    HoldsWithin(f, 8, p);
    ZerosHeld(f, 8 + |p|, pad);
    WholeWords(|p|);
  }

  lemma WholeWords(n: nat)
    ensures (12 + n + Padding(n)) % 4 == 0 && Padding(n) < 4
  {
  }

  lemma SignatureHeld(f: Bytes)
    requires Holds(f, 0, Put4(SIGNATURE))
    ensures ByteAt(f, 0, 0x43) && ByteAt(f, 1, 0x56) && ByteAt(f, 2, 0x53) && ByteAt(f, 3, 0x7E)
  {
    HoldsFour(f, 0, SIGNATURE);
  }

  lemma ZerosHeld(f: Bytes, i: nat, n: nat)
    requires Holds(f, i, Zeros(n))
    ensures forall k :: i <= k < i + n ==> k < |f| && f[k] == 0
  {
    forall k | i <= k < i + n
      ensures k < |f| && f[k] == 0
    {
      HoldsAt(f, i, Zeros(n), k - i);
    }
  }

  // The parser

  lemma ReadOne(f: Bytes, i: nat)
    requires i <= |f|
    ensures match Get1(f[i..])
            case Got(x, rest) => i + 1 <= |f| && ByteAt(f, i, x) && rest == f[i + 1..]
            case Stopped(_, _) => i == |f|
  {
  }

  lemma ReadTwo(f: Bytes, i: nat)
    requires i <= |f|
    ensures match Get2(f[i..])
            case Got(x, rest) => i + 2 <= |f| && NumberAt(f, i, x) && rest == f[i + 2..]
            case Stopped(_, _) => |f| < i + 2
  {
    if i + 2 <= |f| {
      assert f[i..][0] == f[i] && f[i..][1] == f[i + 1];
    }
  }

  lemma ReadText(f: Bytes, i: nat)
    requires i <= |f|
    ensures match GetString(f[i..])
            case Got(s, rest) => i + 1 + |s| <= |f| && TextAt(f, i, s) && rest == f[i + 1 + |s|..]
            case Stopped(_, _) => true
  {
    ReadOne(f, i);
  }

  lemma ReadBlock(f: Bytes, i: nat)
    requires i <= |f|
    ensures match GetRaw(f[i..])
            case Got(s, rest) => i + 2 + |s| <= |f| && BlockAt(f, i, s) && |s| <= RAW_MAX && rest == f[i + 2 + |s|..]
            case Stopped(_, _) => true
  {
    ReadTwo(f, i);
    hide Get2, NumberAt;
  }

  lemma ReadCall(f: Bytes)
    requires 12 <= |f|
    ensures match GetCall(f[12..])
            case Got(c, rest) =>
              && CallAt(f, c.calling, c.called, c.packet, c.window, c.throughput, c.data)
              && var end := 20 + |c.calling| + |c.called| + |c.data|; end <= |f| && rest == f[end..]
            case Stopped(_, _) => true
  {
    hide Get1, Get2, GetString, GetRaw, TextAt, NumberAt, BlockAt, ByteAt;
    ReadText(f, 12);
    match GetString(f[12..])
    case Stopped(_, _) =>
    case Got(calling, _) =>
      ReadText(f, 13 + |calling|);
      match GetString(f[13 + |calling|..])
      case Stopped(_, _) =>
      case Got(called, _) =>
        var k := 14 + |calling| + |called|;
        ReadOne(f, k);
        if k + 1 <= |f| {
          ReadTwo(f, k + 1);
          if k + 3 <= |f| {
            ReadOne(f, k + 3);
            if k + 4 <= |f| {
              ReadBlock(f, k + 4);
            }
          }
        }
  }

  lemma ReadData(f: Bytes)
    requires 12 <= |f|
    ensures match GetData(f[12..])
            case Got(b, rest) =>
              && b.Data? && ByteAt(f, 12, b.q) && NumberAt(f, 13, b.pr) && NumberAt(f, 15, b.ps)
              && BlockAt(f, 17, b.data)
              && 19 + |b.data| <= |f| && rest == f[19 + |b.data|..]
            case Stopped(_, _) => true
  {
    hide Get1, Get2, GetRaw, NumberAt, BlockAt, ByteAt;
    ReadOne(f, 12);
    if 13 <= |f| {
      ReadTwo(f, 13);
      if 15 <= |f| {
        ReadTwo(f, 15);
        if 17 <= |f| {
          ReadBlock(f, 17);
        }
      }
    }
  }

  lemma ReadDiagnostic(f: Bytes)
    requires 12 <= |f|
    ensures match GetDiagnostic(f[12..])
            case Got(b, rest) =>
              && b.Diagnostic? && ByteAt(f, 12, b.diagnostic) && ByteAt(f, 13, b.diagnosticVersion)
              && ByteAt(f, 14, b.diagnosticId) && NumberAt(f, 15, b.diagnosticLcn) && 17 <= |f| && rest == f[17..]
            case Stopped(_, _) => true
  {
    hide Get1, Get2, NumberAt, ByteAt;
    ReadOne(f, 12);
    if 13 <= |f| {
      ReadOne(f, 13);
      if 14 <= |f| {
        ReadOne(f, 14);
        if 15 <= |f| {
          ReadTwo(f, 15);
        }
      }
    }
  }

  lemma ReadCause(f: Bytes)
    requires 12 <= |f|
    ensures match GetCause(f[12..])
            case Got(c, rest) => ByteAt(f, 12, c.0) && ByteAt(f, 13, c.1) && 14 <= |f| && rest == f[14..]
            case Stopped(_, _) => true
  {
    hide Get1, ByteAt;
    ReadOne(f, 12);
    if 13 <= |f| {
      ReadOne(f, 13);
    }
  }

  lemma ReadConnect(f: Bytes)
    requires 12 <= |f|
    ensures match GetString(f[12..])
            case Stopped(_, _) => true
            case Got(s, t) =>
              match Get1(t)
              case Stopped(_, _) => true
              case Got(x, rest) =>
                TextAt(f, 12, s) && ByteAt(f, 13 + |s|, x) && 14 + |s| <= |f| && rest == f[14 + |s|..]
  {
    hide Get1, GetString, TextAt, ByteAt;
    ReadText(f, 12);
    match GetString(f[12..])
    case Stopped(_, _) =>
    case Got(s, _) => ReadOne(f, 13 + |s|);
  }

  /** A body that the parser accepts is in its place, and the rest follows it. */
  lemma BodyRead(f: Bytes)
    requires 12 <= |f|
    ensures match GetBody(f[9], f[12..])
            case Got(b, rest) => BodyAt(f, b) && End(b) <= |f| && rest == f[End(b)..]
            case Stopped(_, _) => true
  {
    hide GetCall, GetData, GetDiagnostic, GetCause, GetString, Get1, Get2, CallAt, TextAt, NumberAt, BlockAt;
    if f[9] == 0 {
      ReadData(f);
    } else if f[9] <= 2 {
      ReadTwo(f, 12);
    } else if f[9] <= 4 {
      ReadCall(f);
    } else if f[9] == 9 {
      ReadConnect(f);
    } else if f[9] == 13 {
      ReadDiagnostic(f);
    } else {
      ReadCause(f);
    }
  }

  /** A message that the parser delivers is what the bytes of the frame say, and its payload,
      padding and checksum are the whole frame. */
  lemma UnpackReads(f: Bytes)
    requires |f| >= ENVELOPE + PAYLOAD_HEADER
    ensures match Unpack(f)
            case Valid(m, size) =>
              && m.version == 1 && Carries(f, m)
              && size == |f| == End(m.body) + Padding(Number4(f[4..])) + 4
            case Invalid(_, _, _, _, _) => true
  {
    hide GetBody, BodyAt, End, Number4, Padding;
    BodyRead(f);
    LcnRead(f);
  }

  lemma LcnRead(f: Bytes)
    requires |f| >= 12
    ensures NumberAt(f, 10, Number2(f[10..]))
  {
    assert f[10..][0] == f[10] && f[10..][1] == f[11];
  }

  // Both directions

  lemma NumberHeld(f: Bytes, i: nat, x: u16)
    requires NumberAt(f, i, x)
    ensures Holds(f, i, Put2(x))
  {
  }

  lemma TextHeld(f: Bytes, i: nat, s: Bytes)
    requires TextAt(f, i, s)
    ensures Holds(f, i, PutString(s)) && |PutString(s)| == 1 + |s|
  {
    var t := f[i + 1..i + 1 + |s|];
    assert forall k :: 0 <= k < |s| ==> t[k] == f[i + 1 + k];
    assert t == s;
    assert f[i..i + 1 + |s|] == [f[i]] + t;
  }

  lemma BlockHeld(f: Bytes, i: nat, s: Bytes)
    requires BlockAt(f, i, s)
    ensures Holds(f, i, PutRaw(s))
  {
    NumberHeld(f, i, |s|);
    hide Put2, NumberAt;
    var t := f[i + 2..i + 2 + |s|];
    assert forall k :: 0 <= k < |s| ==> t[k] == f[i + 2 + k];
    assert t == s;
    assert f[i..i + 2 + |s|] == f[i..i + 2] + t;
  }

  lemma HoldsJoin(f: Bytes, i: nat, a: Bytes, b: Bytes)
    requires Holds(f, i, a) && Holds(f, i + |a|, b)
    ensures Holds(f, i, a + b)
  {
    assert f[i..i + |a| + |b|] == f[i..i + |a|] + f[i + |a|..i + |a| + |b|];
  }

  lemma ByteHeld(f: Bytes, i: nat, x: u8)
    requires ByteAt(f, i, x)
    ensures Holds(f, i, [x])
  {
  }

  lemma CallHeld(f: Bytes, calling: Bytes, called: Bytes, packet: u8, window: u16, throughput: u8, data: Bytes)
    requires CallAt(f, calling, called, packet, window, throughput, data)
    ensures Holds(f, 12, PutCall(calling, called, packet, window, throughput, data))
  {
    hide Holds, Put2, PutString, PutRaw, TextAt, NumberAt, BlockAt, ByteAt;
    var t5 := PutRaw(data);
    var t4 := [throughput] + t5;
    var t3 := Put2(window) + t4;
    var t2 := [packet] + t3;
    var k := 14 + |calling| + |called|;
    TextHeld(f, 12, calling);
    TextHeld(f, 13 + |calling|, called);
    ByteHeld(f, k, packet);
    NumberHeld(f, k + 1, window);
    ByteHeld(f, k + 3, throughput);
    BlockHeld(f, k + 4, data);
    HoldsJoin(f, k + 3, [throughput], t5);
    HoldsJoin(f, k + 1, Put2(window), t4);
    HoldsJoin(f, k, [packet], t3);
    HoldsJoin(f, 13 + |calling|, PutString(called), t2);
    HoldsJoin(f, 12, PutString(calling), PutString(called) + t2);
  }

  lemma DataHeld(f: Bytes, q: u8, pr: u16, ps: u16, data: Bytes)
    requires ByteAt(f, 12, q) && NumberAt(f, 13, pr) && NumberAt(f, 15, ps) && BlockAt(f, 17, data)
    ensures Holds(f, 12, PutBody(Data(q, pr, ps, data)))
  {
    hide Holds, Put2, PutRaw, NumberAt, BlockAt, ByteAt;
    ByteHeld(f, 12, q);
    NumberHeld(f, 13, pr);
    NumberHeld(f, 15, ps);
    BlockHeld(f, 17, data);
    HoldsJoin(f, 15, Put2(ps), PutRaw(data));
    HoldsJoin(f, 13, Put2(pr), Put2(ps) + PutRaw(data));
    HoldsJoin(f, 12, [q], Put2(pr) + (Put2(ps) + PutRaw(data)));
  }

  lemma DiagnosticHeld(f: Bytes, d: u8, v: u8, i: u8, l: u16)
    requires ByteAt(f, 12, d) && ByteAt(f, 13, v) && ByteAt(f, 14, i) && NumberAt(f, 15, l)
    ensures Holds(f, 12, [d] + ([v] + ([i] + Put2(l))))
  {
    hide Holds, Put2, NumberAt, ByteAt;
    ByteHeld(f, 12, d);
    ByteHeld(f, 13, v);
    ByteHeld(f, 14, i);
    NumberHeld(f, 15, l);
    HoldsJoin(f, 14, [i], Put2(l));
    HoldsJoin(f, 13, [v], [i] + Put2(l));
    HoldsJoin(f, 12, [d], [v] + ([i] + Put2(l)));
  }

  lemma CauseHeld(f: Bytes, cause: u8, diagnostic: u8)
    requires ByteAt(f, 12, cause) && ByteAt(f, 13, diagnostic)
    ensures Holds(f, 12, [cause] + [diagnostic])
  {
    hide Holds, ByteAt;
    ByteHeld(f, 12, cause);
    ByteHeld(f, 13, diagnostic);
    HoldsJoin(f, 12, [cause], [diagnostic]);
  }

  lemma ConnectHeld(f: Bytes, calling: Bytes, iodir: u8)
    requires TextAt(f, 12, calling) && ByteAt(f, 13 + |calling|, iodir)
    ensures Holds(f, 12, PutString(calling) + [iodir])
  {
    hide Holds, ByteAt, TextAt, PutString;
    TextHeld(f, 12, calling);
    ByteHeld(f, 13 + |calling|, iodir);
    HoldsJoin(f, 12, PutString(calling), [iodir]);
  }

  lemma BodyHeld(f: Bytes, b: Body)
    requires BodyAt(f, b) && 12 <= |f|
    ensures f[9] == Id(b) && Holds(f, 12, PutBody(b))
  {
    hide Holds, PutString, PutRaw, Put2, PutCall, CallAt, TextAt, BlockAt, NumberAt;
    match b
    case Data(q, pr, ps, data) => DataHeld(f, q, pr, ps, data);
    case RR(pr) => NumberHeld(f, 12, pr);
    case RNR(pr) => NumberHeld(f, 12, pr);
    case CallRequest(calling, called, packet, window, throughput, data) =>
      CallHeld(f, calling, called, packet, window, throughput, data);
    case CallAccepted(calling, called, packet, window, throughput, data) =>
      CallHeld(f, calling, called, packet, window, throughput, data);
    case ClearRequest(cause, diagnostic) => CauseHeld(f, cause, diagnostic);
    case ResetRequest(cause, diagnostic) => CauseHeld(f, cause, diagnostic);
    case RestartRequest(cause, diagnostic) => CauseHeld(f, cause, diagnostic);
    case Connect(calling, iodir) => ConnectHeld(f, calling, iodir);
    case Diagnostic(d, v, i, l) => DiagnosticHeld(f, d, v, i, l);
    case _ => NothingHeld(f);
  }

  lemma NothingHeld(f: Bytes)
    requires 12 <= |f|
    ensures Holds(f, 12, [])
  {
  }

  /** The parser delivers a printable message from a frame exactly when the frame's bytes are laid out
      as that message and nothing but padding and a checksum follows. */
  lemma DeliveredIff(f: Bytes, m: Message)
    requires |f| >= ENVELOPE + PAYLOAD_HEADER && m.version == 1 && BodyOk(m.body)
    ensures Unpack(f) == Valid(m, |f|) <==> Carries(f, m) && |f| == End(m.body) + Padding(Number4(f[4..])) + 4
  {
    hide GetBody, BodyAt, End, Number4, Padding, Carries, Unpack, BodyOk;
    UnpackReads(f);
    if Carries(f, m) && |f| == End(m.body) + Padding(Number4(f[4..])) + 4 {
      CarriedIsDelivered(f, m);
    }
  }

  lemma CarriedIsDelivered(f: Bytes, m: Message)
    requires |f| >= ENVELOPE + PAYLOAD_HEADER && m.version == 1 && BodyOk(m.body)
    requires Carries(f, m) && |f| == End(m.body) + Padding(Number4(f[4..])) + 4
    ensures Unpack(f) == Valid(m, |f|)
  {
    hide GetBody, BodyAt, End, Number4, Padding, BodyOk, PutBody, Id, Holds;
    var b := m.body;
    BodyHeld(f, b);
    BodyEnd(b);
    HoldsWithin(f, 12, PutBody(b));
    assert f[12..] == f[12..End(b)] + f[End(b)..];
    GetPutBody(b, f[End(b)..]);
    LcnIs(f, m.lcn);
  }

  lemma LcnIs(f: Bytes, lcn: u16)
    requires |f| >= 12 && NumberAt(f, 10, lcn)
    ensures Number2(f[10..]) == lcn
  {
    assert f[10..][0] == f[10] && f[10..][1] == f[11];
  }

  /** What becomes of a frame with a wrong version, or a kind above nineteen: twelve bytes of it are
      read, and the report repeats its header. */
  lemma UnpackRefuses(f: Bytes)
    requires |f| >= ENVELOPE + PAYLOAD_HEADER
    ensures var high: int, low: int := f[10], f[11];
            var lcn := high * 256 + low;
            && (f[8] != 1 ==> Unpack(f) == Invalid(UnknownVersion, f[8], f[9], lcn, 12))
            && (f[8] == 1 && f[9] > 19 ==> Unpack(f) == Invalid(UnknownType, 1, f[9], lcn, 12))
  {
    assert f[10..][0] == f[10] && f[10..][1] == f[11];
    hide GetCall, GetData, GetDiagnostic, GetCause, GetString, Get1, Get2, Number4, Padding;
  }

  /** A text or a block that does not end within the frame is too short, and the parser stops after
      its length. */
  lemma UnpackTruncated(f: Bytes)
    requires |f| >= 19 && f[8] == 1
    ensures var high: int, low: int := f[10], f[11];
            var lcn := high * 256 + low;
            && (f[9] in {3, 4, 9} && 13 + f[12] as int > |f| ==> Unpack(f) == Invalid(TooShort, 1, f[9], lcn, 13))
            && (f[9] == 0 && 19 + f[17] as int * 256 + f[18] as int > |f| ==>
                  Unpack(f) == Invalid(TooShort, 1, 0, lcn, 19))
  {
    assert f[10..][0] == f[10] && f[10..][1] == f[11];
    hide Number4, Padding, GetBody;
    if f[9] in {3, 4, 9} && 13 + f[12] as int > |f| {
      TextTruncated(f);
    } else if f[9] == 0 && 19 + f[17] as int * 256 + f[18] as int > |f| {
      BlockTruncated(f);
    }
  }

  lemma TextTruncated(f: Bytes)
    requires |f| >= 19 && f[9] in {3, 4, 9} && 13 + f[12] as int > |f|
    ensures GetBody(f[9], f[12..]) == Stopped(TooShort, f[13..])
  {
    hide GetData, GetDiagnostic, GetCause, Get2, GetRaw;
    assert f[12..][0] == f[12] && f[12..][1..] == f[13..];
  }

  lemma BlockTruncated(f: Bytes)
    requires |f| >= 19 && f[9] == 0 && 19 + f[17] as int * 256 + f[18] as int > |f|
    ensures GetBody(0, f[12..]) == Stopped(TooShort, f[19..])
  {
    hide GetCall, GetDiagnostic, GetCause, GetString, Number2;
    assert f[12..][1..] == f[13..];
    assert f[13..][2..] == f[15..];
    assert f[15..][2..] == f[17..];
    assert f[17..][2..] == f[19..];
    BlockLength(f);
  }

  lemma BlockLength(f: Bytes)
    requires |f| >= 19
    ensures Number2(f[17..]) == f[17] as int * 256 + f[18] as int
  {
    assert f[17..][0] == f[17] && f[17..][1] == f[18];
  }

  /** A body that is there in full is refused for what follows it: too little for padding and
      checksum, or too much. */
  lemma UnpackWrongLength(f: Bytes, m: Message)
    requires |f| >= ENVELOPE + PAYLOAD_HEADER && m.version == 1 && BodyOk(m.body) && Carries(f, m)
    ensures var end, pad := End(m.body), Padding(Number4(f[4..]));
            && (|f| < end + pad ==> Unpack(f) == Invalid(TooShort, 1, f[9], m.lcn, |f|))
            && (end + pad <= |f| < end + pad + 4 ==> Unpack(f) == Invalid(TooShort, 1, f[9], m.lcn, end + pad))
            && (|f| > end + pad + 4 ==> Unpack(f) == Invalid(TooLong, 1, f[9], m.lcn, end + pad + 4))
  {
    hide GetBody, BodyAt, End, Number4, Padding, BodyOk, PutBody, Id, Holds;
    var b := m.body;
    BodyHeld(f, b);
    BodyEnd(b);
    HoldsWithin(f, 12, PutBody(b));
    assert f[12..] == f[12..End(b)] + f[End(b)..];
    GetPutBody(b, f[End(b)..]);
    LcnIs(f, m.lcn);
  }

  predicate SignedAt(buf: Bytes) {
    ByteAt(buf, 0, 0x43) && ByteAt(buf, 1, 0x56) && ByteAt(buf, 2, 0x53) && ByteAt(buf, 3, 0x7E)
  }

  /** What becomes of the front of any buffer, from its first eight bytes: too short to tell, not a
      frame, not all there, a length that fails an assertion, or a frame to look into. */
  lemma BufferCases(buf: Bytes, n: u32)
    requires |buf| >= 12 ==> LongAt(buf, 4, n)
    ensures var total := (12 + n + (4 - n % 4) % 4) % 4294967296;
            if |buf| < 12 then ParseBuffer(buf).NeedMore?
            else if !SignedAt(buf) then ParseBuffer(buf).Fatal?
            else if |buf| < total then ParseBuffer(buf).NeedMore?
            else if n > 1032 then ParseBuffer(buf).Abort?
            else Framed(buf[..total]) && ParseBuffer(buf) == ParseFrame(buf[..total])
  {
    hide ParseFrame, Framed, Number4;
    if |buf| >= 12 {
      LongIs(buf[4..], n);
      SignatureIs(buf);
      assert Padding(n) == (4 - n % 4) % 4;
      hide Signed, BodyLength, Padding;
      if Signed(buf) && |buf| >= Announced(buf) && BodyLength(buf) <= MAX_PAYLOAD {
        SliceFramed(buf);
      }
    }
  }

  lemma LongIs(s: Bytes, n: u32)
    requires |s| >= 8 && LongAt(s, 0, n)
    ensures Number4(s) == n
  {
    Digits(n);
  }

  lemma SignatureIs(buf: Bytes)
    requires |buf| >= 12
    ensures Signed(buf) <==> SignedAt(buf)
  {
  }

  /** Which envelope error a whole frame is reported for, in the order of the checks; after them its
      payload decides. */
  lemma EnvelopeReasons(f: Bytes)
    requires Framed(f)
    ensures var n, r := |f| - 12 - Padding(BodyLength(f)), ParseFrame(f);
            var high: int, low: int := f[10], f[11];
            && n == BodyLength(f)
            && (!SumOk(f) ==> r == Diagnosed(Report(InvalidEnvelope, 0, 0, 0), |f|))
            && (SumOk(f) && n < 4 ==> r == Diagnosed(Report(TooShort, 0, 0, 0), |f|))
            && (SumOk(f) && n >= 4 && high * 256 + low > 1024 ==>
                  r == Diagnosed(Report(UnassignedChannel, 0, 0, 0), |f|))
            && (SumOk(f) && n >= 4 && high * 256 + low <= 1024 ==>
                  match Unpack(f)
                  case Valid(m, size) => r == Delivered(m, size)
                  case Invalid(reason, version, id, lcn, size) =>
                    r == Diagnosed(Report(reason, version, id, lcn), size))
  {
    hide SumOk, Unpack, Signed;
    assert f[10..][0] == f[10] && f[10..][1] == f[11];
  }
}
