/** The receive side of a client as it is written (application10/client.c): a fixed buffer that
    reads append to, a loop that takes messages off its front, and a memmove of what is left. */
module ReceiveLoop {
  import opened Codec
  import opened CodecMachine
  import opened Reassembly

  /** jz_buffer_begins_with_signature and jz_buffer_msg_body_length. */
  method ReadHeader(buf: array<u8>, p: nat, end: nat) returns (signed: bool, n: u32)
    requires p + ENVELOPE <= end <= buf.Length
    ensures signed == Signed(buf[p..end]) && n == BodyLength(buf[p..end])
  {
    hide Number4;
    SliceOfSlice(buf[..], p, end, 4, end - p);
    assert buf[p..end][4..] == buf[p + 4..end];
    var signature := Number4At(buf, p);
    signed := signature == SIGNATURE;
    n := Number4At(buf, p + 4);
  }

  lemma FrontOfBuffer(buf: Bytes)
    requires |buf| >= ENVELOPE && Signed(buf) && |buf| >= Announced(buf) && BodyLength(buf) <= MAX_PAYLOAD
    ensures Framed(buf[..Announced(buf)]) && BodyLength(buf[..Announced(buf)]) == BodyLength(buf)
    ensures ParseBuffer(buf) == ParseFrame(buf[..Announced(buf)])
  {
    SliceFramed(buf);
    hide ParseFrame, Number4, Padding;
  }

  /** jz_buffer_parse_into_message on `buf[p..end]`. */
  method ParseIntoMessage(buf: array<u8>, p: nat, end: nat) returns (r: Parsed)
    requires p < end <= buf.Length
    ensures r == ParseBuffer(buf[p..end])
  {
    hide ParseFrame, Signed, BodyLength, Padding, Framed;
    if end - p < ENVELOPE {
      return NeedMore;
    }
    var signed, n := ReadHeader(buf, p, end);
    if !signed {
      return Fatal;
    }
    var announced := (ENVELOPE + n + Padding(n)) % 0x1_0000_0000;
    if end - p < announced {
      return NeedMore;
    }
    if n > MAX_PAYLOAD {
      return Abort;
    }
    FrontOfBuffer(buf[p..end]);
    hide ParseBuffer;
    SliceOfSlice(buf[..], p, end, 0, announced);
    r := ParseWholeFrame(buf, p, n, p + announced);
  }

  lemma SliceOfSlice(s: Bytes, p: nat, end: nat, i: nat, j: nat)
    requires p <= end <= |s| && i <= j <= end - p
    ensures s[p..end][i..j] == s[p + i..p + j]
  {
    var a, b := s[p..end][i..j], s[p + i..p + j];
    assert |a| == |b| && forall k :: 0 <= k < |a| ==> a[k] == b[k];
  }

  /** The checks of a complete frame in the buffer. */
  method ParseWholeFrame(buf: array<u8>, p: nat, n: nat, end: nat) returns (r: Parsed)
    requires p <= end <= buf.Length && Framed(buf[p..end]) && BodyLength(buf[p..end]) == n
    ensures r == ParseFrame(buf[p..end])
  {
    hide Sum, Unpack, Number4, Number2, Padding, Signed;
    ghost var f := buf[p..end];
    SliceOfSlice(buf[..], p, end, |f| - 4, |f|);
    SliceOfSlice(buf[..], p, end, 8, 8 + n);
    SliceOfSlice(buf[..], p, end, 10, |f|);
    assert f[|f| - 4..] == buf[end - 4..end] && f[8..8 + n] == buf[p + 8..p + 8 + n];
    var sum := Number4At(buf, end - 4);
    if sum != Sum(buf[p + 8..p + 8 + n]) {
      return Diagnosed(Report(InvalidEnvelope, 0, 0, 0), end - p);
    }
    if n < PAYLOAD_HEADER {
      return Diagnosed(Report(TooShort, 0, 0, 0), end - p);
    }
    assert f[10..] == buf[p + 10..end];
    var lcn, at := GetNumber2(buf, p + 10, end);
    if lcn.value > MAX_LCN {
      return Diagnosed(Report(UnassignedChannel, 0, 0, 0), end - p);
    }
    var u := NewFromData(buf, p, end);
    match u {
      case Valid(m, size) => r := Delivered(m, size);
      case Invalid(reason, version, id, l, size) => r := Diagnosed(Report(reason, version, id, l), size);
    }
  }

  function Messages(items: seq<Item>): seq<Message> {
    if items == [] then []
    else if items[0].Queued? then [items[0].message] + Messages(items[1..])
    else Messages(items[1..])
  }

  function Reports(items: seq<Item>): seq<Report> {
    if items == [] then []
    else if items[0].Reported? then [items[0].report] + Reports(items[1..])
    else Reports(items[1..])
  }

  lemma {:induction false} ItemsApart(a: seq<Item>, b: seq<Item>)
    ensures Messages(a + b) == Messages(a) + Messages(b)
    ensures Reports(a + b) == Reports(a) + Reports(b)
  {
    if a == [] {
      assert a + b == b;
    } else {
      assert (a + b)[0] == a[0] && (a + b)[1..] == a[1..] + b;
      ItemsApart(a[1..], b);
    }
  }

  /** A message goes to the queue, a diagnostic to the client; with `ItemsApart` that is all there is
      to say of the two lists, and every item is in one of them. */
  lemma OneItem(m: Message, r: Report)
    ensures Messages([Queued(m)]) == [m] && Reports([Queued(m)]) == []
    ensures Messages([Reported(r)]) == [] && Reports([Reported(r)]) == [r]
  {
    var a, b := [Queued(m)], [Reported(r)];
    assert a[1..] == [] && b[1..] == [];
  }

  lemma {:induction false} NoItemIsLost(items: seq<Item>)
    ensures |Messages(items)| + |Reports(items)| == |items|
  {
    if items != [] {
      NoItemIsLost(items[1..]);
    }
  }

  /** If every item is a message, they are the queue, and nothing was reported. */
  lemma {:induction false} OnlyMessages(ms: seq<Message>)
    ensures Messages(Queue(ms)) == ms && Reports(Queue(ms)) == []
  {
    if ms != [] {
      assert Queue(ms)[1..] == Queue(ms[1..]);
      OnlyMessages(ms[1..]);
      assert ms == [ms[0]] + ms[1..];
    }
  }

  class Connection {
    const recvBuffer: array<u8>
    var size: nat
    var incoming: seq<Message>
    var sent: seq<Report>

    /** Messages and diagnostics in the order in which their frames arrived. */
    ghost var items: seq<Item>

    ghost predicate Valid()
      reads this, recvBuffer
    {
      && recvBuffer.Length == RECV_BUFFER && size <= RECV_BUFFER
      && incoming == Messages(items) && sent == Reports(items)
    }

    ghost function View(): Receiver
      requires Valid()
      reads this, recvBuffer
    {
      Receiver(items, Buffered(), Running)
    }

    ghost function Buffered(): Bytes
      requires recvBuffer.Length == RECV_BUFFER && size <= RECV_BUFFER
      reads this, recvBuffer
    {
      recvBuffer[..size]
    }

    constructor ()
      ensures Valid() && View() == Receiver([], [], Running) && incoming == [] && sent == [] && fresh(recvBuffer)
    {
      recvBuffer := new u8[RECV_BUFFER];
      size, incoming, sent, items := 0, [], [], [];
    }

    /** _jz_client_read_into_recv_buffer: `data` is what the socket had, up to the space left. */
    method Read(data: Bytes)
      requires Valid() && size < RECV_BUFFER && size + |data| <= RECV_BUFFER
      modifies this`size, recvBuffer
      ensures Valid() && Buffered() == old(Buffered()) + data
    {
      hide Messages, Reports;
      var next := PutBlock(recvBuffer, size, data);
      size := next;
    }

    /** memmove of `recvBuffer[p..end]` to the front. */
    method MoveDown(p: nat, end: nat)
      requires recvBuffer.Length == RECV_BUFFER && p <= end <= RECV_BUFFER
      modifies recvBuffer
      ensures recvBuffer[..end - p] == old(recvBuffer[p..end])
    {
      for i := 0 to end - p
        invariant recvBuffer[..i] == old(recvBuffer[p..p + i])
        invariant recvBuffer[p + i..end] == old(recvBuffer[p + i..end])
      {
        ghost var ahead := recvBuffer[p + i..end];
        assert recvBuffer[p + i] == ahead[0];
        recvBuffer[i] := recvBuffer[p + i];
        assert recvBuffer[p + i + 1..end] == ahead[1..];
      }
    }

    /** _jz_client_parse_recv_buffer_into_messages. */
    method ParseMessages() returns (status: Status)
      requires Valid()
      modifies this, recvBuffer
      ensures status == Drain(old(Buffered())).status
      ensures status != Aborted ==>
                var d := Drain(old(Buffered()));
                && Valid() && Buffered() == d.rest
                && incoming == old(incoming) + Messages(d.items)
                && sent == old(sent) + Reports(d.items)
                && items == old(items) + d.items
    {
      hide Drain, Ahead, ParseBuffer, Messages, Reports;
      ghost var all := Drain(Buffered());
      var p, end := 0, size;
      status := Running;
      assert recvBuffer[0..end] == Buffered();
      NothingDone(Buffered(), incoming, sent);
      while p < end && status == Running
        invariant p <= end == size <= RECV_BUFFER && items == old(items)
        invariant status == Running ==> Ahead(all, recvBuffer[p..end], incoming, sent, old(incoming), old(sent))
        invariant status != Running ==>
                    Finished(all, recvBuffer[p..end], incoming, sent, old(incoming), old(sent), status)
        decreases end - p, if status == Running then 1 else 0
      {
        ghost var ahead := recvBuffer[p..end];
        var r := ParseIntoMessage(recvBuffer, p, end);
        TakeOne(all, ahead, incoming, sent, old(incoming), old(sent));
        match r {
          case NeedMore =>
            assert Finished(all, ahead, incoming, sent, old(incoming), old(sent), Running);
            break;
          case Fatal =>
            status := Corrupt;
          case Abort =>
            return Aborted;
          case Diagnosed(report, siz) =>
            sent := sent + [report];
            assert ahead[siz..] == recvBuffer[p + siz..end];
            p := p + siz;
          case Delivered(message, siz) =>
            incoming := incoming + [message];
            assert ahead[siz..] == recvBuffer[p + siz..end];
            p := p + siz;
        }
      }
      if p == end && status == Running {
        assert recvBuffer[p..end] == [];
        NothingLeft(all, incoming, sent, old(incoming), old(sent));
      }
      MoveDown(p, end);
      size := end - p;
      ItemsApart(items, all.items);
      items := items + all.items;
    }

    /** _jz_client_input_available_callback, when the socket had `data`. A buffer that cannot be
        parsed is thrown away; what came before it stays in the queue. */
    method InputAvailable(data: Bytes) returns (status: Status)
      requires Valid() && size < RECV_BUFFER && size + |data| <= RECV_BUFFER
      modifies this, recvBuffer
      ensures status == Feed(old(View()), data).status
      ensures status == Running ==> Valid() && View() == Feed(old(View()), data)
      ensures status == Corrupt ==> Valid() && View() == Receiver(Feed(old(View()), data).items, [], Running)
    {
      Read(data);
      status := ParseMessages();
      if status == Corrupt {
        size := 0;
      }
    }
  }

  /** What is done so far, and what draining the rest of the buffer will add. */
  ghost predicate Ahead(all: Drained, front: Bytes, incoming: seq<Message>, sent: seq<Report>,
                        incoming0: seq<Message>, sent0: seq<Report>)
  {
    var d := Drain(front);
    && all.rest == d.rest && all.status == d.status
    && incoming0 + Messages(all.items) == incoming + Messages(d.items)
    && sent0 + Reports(all.items) == sent + Reports(d.items)
  }

  /** Nothing more can be taken off the buffer. */
  ghost predicate Finished(all: Drained, front: Bytes, incoming: seq<Message>, sent: seq<Report>,
                           incoming0: seq<Message>, sent0: seq<Report>, status: Status)
  {
    && all.status == status && all.rest == front
    && incoming == incoming0 + Messages(all.items) && sent == sent0 + Reports(all.items)
  }

  lemma NothingDone(front: Bytes, incoming: seq<Message>, sent: seq<Report>)
    ensures Ahead(Drain(front), front, incoming, sent, incoming, sent)
  {
  }

  lemma NothingLeft(all: Drained, incoming: seq<Message>, sent: seq<Report>,
                    incoming0: seq<Message>, sent0: seq<Report>)
    requires Ahead(all, [], incoming, sent, incoming0, sent0)
    ensures Finished(all, [], incoming, sent, incoming0, sent0, Running)
  {
    assert incoming + [] == incoming && sent + [] == sent;
  }

  /** One pass of the loop. */
  lemma TakeOne(all: Drained, front: Bytes, incoming: seq<Message>, sent: seq<Report>,
                incoming0: seq<Message>, sent0: seq<Report>)
    requires front != [] && Ahead(all, front, incoming, sent, incoming0, sent0)
    ensures match ParseBuffer(front)
            case NeedMore => Finished(all, front, incoming, sent, incoming0, sent0, Running)
            case Fatal => Finished(all, front, incoming, sent, incoming0, sent0, Corrupt)
            case Abort => all.status == Aborted
            case Diagnosed(report, size) => Ahead(all, front[size..], incoming, sent + [report], incoming0, sent0)
            case Delivered(message, size) => Ahead(all, front[size..], incoming + [message], sent, incoming0, sent0)
  {
    hide ParseBuffer;
    match ParseBuffer(front)
    case Diagnosed(report, size) => TakeReport(all, front, report, size, incoming, sent, incoming0, sent0);
    case Delivered(message, size) => TakeMessage(all, front, message, size, incoming, sent, incoming0, sent0);
    case _ =>
      assert incoming + [] == incoming && sent + [] == sent;
  }

  lemma TakeReport(all: Drained, front: Bytes, report: Report, size: nat, incoming: seq<Message>, sent: seq<Report>,
                   incoming0: seq<Message>, sent0: seq<Report>)
    requires front != [] && Ahead(all, front, incoming, sent, incoming0, sent0)
    requires ParseBuffer(front) == Diagnosed(report, size)
    ensures Ahead(all, front[size..], incoming, sent + [report], incoming0, sent0)
  {
    hide ParseBuffer;
    var d := Drain(front[size..]);
    assert Drain(front).items == [Reported(report)] + d.items;
    assert ([Reported(report)] + d.items)[1..] == d.items;
    assert (sent + [report]) + Reports(d.items) == sent + ([report] + Reports(d.items));
  }

  lemma TakeMessage(all: Drained, front: Bytes, message: Message, size: nat, incoming: seq<Message>, sent: seq<Report>,
                    incoming0: seq<Message>, sent0: seq<Report>)
    requires front != [] && Ahead(all, front, incoming, sent, incoming0, sent0)
    requires ParseBuffer(front) == Delivered(message, size)
    ensures Ahead(all, front[size..], incoming + [message], sent, incoming0, sent0)
  {
    hide ParseBuffer;
    var d := Drain(front[size..]);
    assert Drain(front).items == [Queued(message)] + d.items;
    assert ([Queued(message)] + d.items)[1..] == d.items;
    assert (incoming + [message]) + Messages(d.items) == incoming + ([message] + Messages(d.items));
  }
}
