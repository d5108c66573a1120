/** Cutting a byte stream back into messages (the receive loop of application10/client.c). */
module Reassembly {
  import Crc
  import CrcWord
  import opened Codec
  import opened CodecProofs

  const RECV_BUFFER: nat := 1024

  /** What one frame becomes: a queued message, or a diagnostic sent back. */
  datatype Item = Queued(message: Message) | Reported(report: Report)

  datatype Status = Running | Corrupt | Aborted

  datatype Drained = Drained(items: seq<Item>, rest: Bytes, status: Status)

  /** The loop of _jz_client_parse_recv_buffer_into_messages. Every iteration that continues
      advances by at least twelve bytes. */
  function Drain(buf: Bytes): (d: Drained)
    ensures |d.rest| <= |buf|
    decreases |buf|
  {
    if buf == [] then Drained([], [], Running)
    else
      match ParseBuffer(buf)
      case NeedMore => Drained([], buf, Running)
      case Fatal => Drained([], buf, Corrupt)
      case Abort => Drained([], buf, Aborted)
      case Diagnosed(report, size) =>
        var d := Drain(buf[size..]);
        d.(items := [Reported(report)] + d.items)
      case Delivered(message, size) =>
        var d := Drain(buf[size..]);
        d.(items := [Queued(message)] + d.items)
  }

  lemma SuffixOfSuffix(buf: Bytes, size: nat, rest: Bytes)
    requires size <= |buf| && |rest| <= |buf| - size && rest == buf[size..][|buf| - size - |rest|..]
    ensures rest == buf[|buf| - |rest|..]
  {
  }

  /** What stays in the buffer is its unread end; each item has cost at least twelve bytes. */
  lemma {:induction false} DrainKeepsTail(buf: Bytes)
    ensures var d := Drain(buf);
            d.rest == buf[|buf| - |d.rest|..] && 12 * |d.items| <= |buf| - |d.rest|
    decreases |buf|
  {
    hide ParseBuffer;
    if buf != [] {
      var r := ParseBuffer(buf);
      if r.Diagnosed? || r.Delivered? {
        DrainKeepsTail(buf[r.size..]);
        SuffixOfSuffix(buf, r.size, Drain(buf[r.size..]).rest);
      }
    }
  }

  /** The loop stops for what is at the front of the bytes it leaves. */
  lemma {:induction false} DrainStopsAt(buf: Bytes)
    ensures var d := Drain(buf);
            && (d.status == Running <==> d.rest == [] || ParseBuffer(d.rest).NeedMore?)
            && (d.status == Corrupt <==> d.rest != [] && ParseBuffer(d.rest).Fatal?)
            && (d.status == Aborted <==> d.rest != [] && ParseBuffer(d.rest).Abort?)
    decreases |buf|
  {
    hide ParseBuffer;
    if buf != [] {
      var r := ParseBuffer(buf);
      if r.Diagnosed? || r.Delivered? {
        DrainStopsAt(buf[r.size..]);
      }
    }
  }

  /** Whatever bytes arrive: the buffer stays full, and the space check before the next read fails,
      iff it holds the beginning of a frame that does not fit. */
  lemma FullBufferIff(buf: Bytes)
    requires |buf| <= RECV_BUFFER
    ensures var d := Drain(buf);
            d.status == Running && |d.rest| == RECV_BUFFER
            <==> |buf| == RECV_BUFFER && Signed(buf) && Announced(buf) > RECV_BUFFER
  {
    hide Drain, Signed, Announced, ParseFrame;
    DrainKeepsTail(buf);
    DrainStopsAt(buf);
    FillsBuffer(buf);
  }

  lemma FillsBuffer(buf: Bytes)
    requires |buf| <= RECV_BUFFER
    ensures |buf| >= ENVELOPE ==> (Signed(buf) && Announced(buf) > |buf| <==> ParseBuffer(buf).NeedMore?)
    ensures ParseBuffer(buf).NeedMore? && buf != [] ==> Drain(buf).rest == buf
  {
    hide ParseFrame, Signed, Announced;
  }

  /** The assertion on the payload length fails iff the loop comes to a header whose length is so
      large that the frame length wraps around in 32 bits. */
  lemma AbortedIff(buf: Bytes)
    requires |buf| <= RECV_BUFFER
    ensures var d := Drain(buf);
            d.status == Aborted <==> |d.rest| >= ENVELOPE && Signed(d.rest) && BodyLength(d.rest) >= 0xFFFF_FFF1
  {
    hide Drain, Signed, BodyLength, ParseFrame, Padding;
    DrainStopsAt(buf);
    var rest := Drain(buf).rest;
    if |rest| >= ENVELOPE {
      WrapsIff(BodyLength(rest), |rest|);
    }
  }

  lemma WrapsIff(n: u32, space: nat)
    requires ENVELOPE <= space <= RECV_BUFFER
    ensures space >= (ENVELOPE + n + Padding(n)) % 0x1_0000_0000 && n > MAX_PAYLOAD <==> n >= 0xFFFF_FFF1
  {
    var size := ENVELOPE + n + Padding(n);
    if size < 0x1_0000_0000 {
      assert size % 0x1_0000_0000 == size;
    } else {
      assert size % 0x1_0000_0000 == size - 0x1_0000_0000;
    }
  }

  /** A frame that fits the receive buffer and that the parser consumes exactly. */
  predicate Whole(f: Bytes) {
    Framed(f) && |f| <= RECV_BUFFER && ParseFrame(f).size == |f|
  }

  function ItemOf(f: Bytes): Item
    requires Whole(f)
  {
    match ParseFrame(f)
    case Diagnosed(report, _) => Reported(report)
    case Delivered(message, _) => Queued(message)
  }

  predicate AllWhole(fs: seq<Bytes>) {
    forall i :: 0 <= i < |fs| ==> Whole(fs[i])
  }

  function Items(fs: seq<Bytes>): (items: seq<Item>)
    requires AllWhole(fs)
    ensures |items| == |fs| && forall i :: 0 <= i < |fs| ==> items[i] == ItemOf(fs[i])
  {
    seq(|fs|, i requires 0 <= i < |fs| => ItemOf(fs[i]))
  }

  function Join(ss: seq<Bytes>): Bytes {
    if ss == [] then [] else ss[0] + Join(ss[1..])
  }

  lemma {:induction false} JoinConcat(a: seq<Bytes>, b: seq<Bytes>)
    ensures Join(a + b) == Join(a) + Join(b)
  {
    if a == [] {
      assert a + b == b;
    } else {
      assert (a + b)[1..] == a[1..] + b;
      JoinConcat(a[1..], b);
    }
  }

  lemma JoinOne(s: Bytes)
    ensures Join([s]) == s
  {
    assert Join([s]) == s + Join([s][1..]);
  }

  // Which frames are whole

  /** Every printable message makes a whole frame, and comes out as itself. */
  lemma PrintedIsWhole(m: Message)
    requires Printable(m)
    ensures Whole(Encode(m)) && ItemOf(Encode(m)) == Queued(m)
  {
    PrintableSize(m);
    RoundTrip(m, []);
    hide ParseFrame, Encode;
  }

  /** A frame with a wrong checksum, a payload shorter than its header, or an LCN out of range. */
  predicate EnvelopeError(f: Bytes) {
    && Framed(f) && |f| <= RECV_BUFFER
    && (!SumOk(f) || BodyLength(f) < PAYLOAD_HEADER || Number2(f[10..]) > MAX_LCN)
  }

  /** Such a frame is consumed whole and yields one diagnostic. */
  lemma EnvelopeErrorIsWhole(f: Bytes)
    requires EnvelopeError(f)
    ensures Whole(f) && ItemOf(f).Reported?
    ensures ItemOf(f).report.reason in {InvalidEnvelope, TooShort, UnassignedChannel}
  {
  }

  // Draining a stream

  lemma DrainWhole(f: Bytes, rest: Bytes)
    requires Whole(f)
    ensures Drain(f + rest) == Drain(rest).(items := [ItemOf(f)] + Drain(rest).items)
  {
    hide ParseFrame, ParseBuffer, Framed;
    WholeIsFramed(f);
    ParserIsLocal(f, rest);
    assert (f + rest)[|f|..] == rest;
  }

  lemma WholeIsFramed(f: Bytes)
    requires Whole(f)
    ensures Framed(f) && f != []
  {
  }

  lemma DrainPrefix(f: Bytes, k: nat)
    requires Framed(f) && k < |f|
    ensures Drain(f[..k]) == Drained([], f[..k], Running)
  {
    PrefixNeedsMore(f, k);
    hide ParseBuffer;
  }

  /** How many frames lie wholly within the first `n` bytes of their concatenation. */
  function Complete(fs: seq<Bytes>, n: nat): (k: nat)
    ensures k <= |fs|
  {
    if fs == [] || n < |fs[0]| then 0 else 1 + Complete(fs[1..], n - |fs[0]|)
  }

  /** The part of the first `n` bytes that no complete frame covers. */
  function Leftover(fs: seq<Bytes>, n: nat): Bytes {
    if fs == [] then []
    else if n < |fs[0]| then fs[0][..n]
    else Leftover(fs[1..], n - |fs[0]|)
  }

  lemma JoinCons(f: Bytes, gs: seq<Bytes>)
    ensures Join([f] + gs) == f + Join(gs)
  {
    assert ([f] + gs)[1..] == gs;
  }

  lemma ItemsCons(f: Bytes, gs: seq<Bytes>)
    requires Whole(f) && AllWhole(gs)
    ensures AllWhole([f] + gs) && Items([f] + gs) == [ItemOf(f)] + Items(gs)
  {
    hide Whole, ItemOf;
    var all := [f] + gs;
    forall i | 0 <= i < |all|
      ensures Whole(all[i])
    {
      if i > 0 {
        assert all[i] == gs[i - 1];
      }
    }
    forall i | 0 <= i < |all|
      ensures Items(all)[i] == ([ItemOf(f)] + Items(gs))[i]
    {
      if i > 0 {
        assert all[i] == gs[i - 1];
      }
    }
  }

  lemma TakeCons(fs: seq<Bytes>, k: nat)
    requires k < |fs|
    ensures fs[..k + 1] == [fs[0]] + fs[1..][..k]
  {
  }

  /** The complete frames and the leftover are the first `n` bytes. */
  lemma {:induction false} LeftoverParts(fs: seq<Bytes>, n: nat)
    requires n <= |Join(fs)|
    ensures var k := Complete(fs, n);
            && Join(fs[..k]) + Leftover(fs, n) == Join(fs)[..n]
            && (k < |fs| ==> |Leftover(fs, n)| < |fs[k]| && Leftover(fs, n) == fs[k][..|Leftover(fs, n)|])
            && (k == |fs| ==> Leftover(fs, n) == [])
    decreases |fs|
  {
    if fs == [] {
    } else if n < |fs[0]| {
      assert fs[..0] == [];
      assert Join(fs)[..n] == fs[0][..n];
    } else {
      var f, gs, m := fs[0], fs[1..], n - |fs[0]|;
      LeftoverParts(gs, m);
      var k := Complete(gs, m);
      TakeCons(fs, k);
      JoinCons(f, gs[..k]);
      assert Join(fs)[..n] == f + Join(gs)[..m];
      Regroup(f, Join(gs[..k]), Leftover(gs, m));
      assert k < |gs| ==> fs[k + 1] == gs[k];
    }
  }

  /** Draining any part of a stream of whole frames yields the items of the complete frames, and
      keeps the leftover. */
  lemma {:induction false} DrainStream(fs: seq<Bytes>, n: nat)
    requires AllWhole(fs) && n <= |Join(fs)|
    ensures Drain(Join(fs)[..n]) == Drained(Items(fs[..Complete(fs, n)]), Leftover(fs, n), Running)
    decreases |fs|
  {
    hide Drain, Whole, ItemOf, Items, Join;
    if fs == [] {
      DrainNothing(fs);
    } else if n < |fs[0]| {
      DrainBegun(fs, n);
      assert Items([]) == [];
    } else {
      JoinTake(fs, n);
      DrainStream(fs[1..], n - |fs[0]|);
      DrainOneMore(fs, Complete(fs[1..], n - |fs[0]|), Join(fs[1..])[..n - |fs[0]|], Leftover(fs[1..], n - |fs[0]|));
    }
  }

  lemma DrainNothing(fs: seq<Bytes>)
    requires fs == []
    ensures Join(fs) == [] && Drain([]) == Drained([], [], Running) && Items(fs[..0]) == []
  {
  }

  lemma JoinTake(fs: seq<Bytes>, n: nat)
    requires fs != [] && |fs[0]| <= n <= |Join(fs)|
    ensures n - |fs[0]| <= |Join(fs[1..])| && Join(fs)[..n] == fs[0] + Join(fs[1..])[..n - |fs[0]|]
  {
  }

  lemma DrainOneMore(fs: seq<Bytes>, k: nat, tail: Bytes, left: Bytes)
    requires AllWhole(fs) && fs != [] && k < |fs|
    requires Drain(tail) == Drained(Items(fs[1..][..k]), left, Running)
    ensures Drain(fs[0] + tail) == Drained(Items(fs[..k + 1]), left, Running)
  {
    hide Drain, Whole, ItemOf, Items;
    DrainWhole(fs[0], tail);
    TakeCons(fs, k);
    ItemsCons(fs[0], fs[1..][..k]);
  }

  lemma DrainBegun(fs: seq<Bytes>, n: nat)
    requires AllWhole(fs) && fs != [] && n < |fs[0]|
    ensures |Join(fs)| >= n && Drain(Join(fs)[..n]) == Drained([], fs[0][..n], Running)
    ensures fs[..Complete(fs, n)] == [] && Leftover(fs, n) == fs[0][..n]
  {
    hide Drain;
    assert Join(fs)[..n] == fs[0][..n];
    assert Whole(fs[0]);
    DrainPrefix(fs[0], n);
  }

  // Reading it in pieces

  datatype Receiver = Receiver(items: seq<Item>, buffer: Bytes, status: Status)

  /** One read, and the parsing that follows it. */
  function Feed(r: Receiver, chunk: Bytes): Receiver {
    var d := Drain(r.buffer + chunk);
    Receiver(r.items + d.items, d.rest, d.status)
  }

  /** Reads from an empty buffer, each no longer than the space there was. */
  predicate Reads(rs: seq<Receiver>, chunks: seq<Bytes>) {
    && |rs| == |chunks| + 1
    && rs[0] == Receiver([], [], Running)
    && (forall i :: 0 <= i < |chunks| ==> |rs[i].buffer| + |chunks[i]| <= RECV_BUFFER)
    && (forall i :: 0 <= i < |chunks| ==> rs[i + 1] == Feed(rs[i], chunks[i]))
  }

  /** After `n` bytes of the stream: the first `k` frames are out, in order, and the buffer holds
      a strict prefix of the next one. */
  predicate UpTo(fs: seq<Bytes>, n: nat, k: nat, r: Receiver) {
    && AllWhole(fs) && k <= |fs| && r.status == Running
    && r.items == Items(fs[..k])
    && n <= |Join(fs)| && Join(fs[..k]) + r.buffer == Join(fs)[..n]
    && (k < |fs| ==> |r.buffer| < |fs[k]| && r.buffer == fs[k][..|r.buffer|])
    && (k == |fs| ==> r.buffer == [])
  }

  /** The unread part of the stream, seen from the start of the frame in the buffer. */
  lemma StreamFrom(fs: seq<Bytes>, k: nat, n: nat, buffer: Bytes, chunk: Bytes)
    requires k <= |fs| && n + |chunk| <= |Join(fs)| && chunk == Join(fs)[n..n + |chunk|]
    requires Join(fs[..k]) + buffer == Join(fs)[..n]
    ensures var m := |buffer| + |chunk|;
            m <= |Join(fs[k..])| && buffer + chunk == Join(fs[k..])[..m]
  {
    var head, gs := Join(fs[..k]), fs[k..];
    assert fs == fs[..k] + gs;
    JoinConcat(fs[..k], gs);
    hide Join;
    NextPart(head, Join(gs), n, buffer, chunk);
  }

  lemma NextPart(head: Bytes, tail: Bytes, n: nat, buffer: Bytes, chunk: Bytes)
    requires n + |chunk| <= |head + tail| && chunk == (head + tail)[n..n + |chunk|]
    requires head + buffer == (head + tail)[..n]
    ensures |buffer| + |chunk| <= |tail| && buffer + chunk == tail[..|buffer| + |chunk|]
  {
    var k := n - |head|;
    assert |head + buffer| == n;
    assert buffer == (head + buffer)[|head|..];
    assert (head + tail)[..n][|head|..] == tail[..k];
    assert (head + tail)[n..n + |chunk|] == tail[k..k + |chunk|];
    assert tail[..k] + tail[k..k + |chunk|] == tail[..k + |chunk|];
  }

  lemma ItemsConcat(fs: seq<Bytes>, k: nat, j: nat)
    requires AllWhole(fs) && k + j <= |fs|
    ensures AllWhole(fs[..k]) && AllWhole(fs[k..][..j])
    ensures Items(fs[..k + j]) == Items(fs[..k]) + Items(fs[k..][..j])
  {
    hide Whole, ItemOf;
  }

  lemma MoveOver(a: Bytes, b: Bytes, left: Bytes, buffer: Bytes, chunk: Bytes, stream: Bytes, n: nat)
    requires n + |chunk| <= |stream| && chunk == stream[n..n + |chunk|]
    requires a + buffer == stream[..n] && b + left == buffer + chunk
    ensures (a + b) + left == stream[..n + |chunk|]
  {
    Regroup(a, b, left);
    Regroup(a, buffer, chunk);
    assert stream[..n + |chunk|] == stream[..n] + chunk;
  }

  lemma JoinTakes(fs: seq<Bytes>, k: nat, j: nat)
    requires k + j <= |fs|
    ensures Join(fs[..k + j]) == Join(fs[..k]) + Join(fs[k..][..j])
  {
    assert fs[..k + j] == fs[..k] + fs[k..][..j];
    JoinConcat(fs[..k], fs[k..][..j]);
  }

  lemma FeedPosition(head: Bytes, gs: seq<Bytes>, stream: Bytes, n: nat, buffer: Bytes, chunk: Bytes, m: nat)
    requires n + |chunk| <= |stream| && chunk == stream[n..n + |chunk|] && head + buffer == stream[..n]
    requires m <= |Join(gs)| && buffer + chunk == Join(gs)[..m]
    ensures (head + Join(gs[..Complete(gs, m)])) + Leftover(gs, m) == stream[..n + |chunk|]
  {
    LeftoverParts(gs, m);
    hide Join, Leftover, Complete;
    MoveOver(head, Join(gs[..Complete(gs, m)]), Leftover(gs, m), buffer, chunk, stream, n);
  }

  lemma FeedUpTo(fs: seq<Bytes>, n: nat, k: nat, r: Receiver, chunk: Bytes) returns (k': nat)
    requires UpTo(fs, n, k, r) && n + |chunk| <= |Join(fs)| && chunk == Join(fs)[n..n + |chunk|]
    ensures UpTo(fs, n + |chunk|, k', Feed(r, chunk))
  {
    hide Drain, Whole, ItemOf, Items, Join, Leftover, Complete;
    var gs, m := fs[k..], |r.buffer| + |chunk|;
    var j := Complete(gs, m);
    StreamFrom(fs, k, n, r.buffer, chunk);
    DrainStream(gs, m);
    LeftoverParts(gs, m);
    ItemsConcat(fs, k, j);
    JoinTakes(fs, k, j);
    FeedPosition(Join(fs[..k]), gs, Join(fs), n, r.buffer, chunk, m);
    k' := k + j;
    assert k' < |fs| ==> fs[k'] == gs[j];
    assert k' == |fs| <==> j == |gs|;
  }

  lemma JoinSplit(chunks: seq<Bytes>, i: nat)
    requires i < |chunks|
    ensures |Join(chunks[..i])| + |chunks[i]| == |Join(chunks[..i + 1])| <= |Join(chunks)|
    ensures chunks[i] == Join(chunks)[|Join(chunks[..i])|..|Join(chunks[..i])| + |chunks[i]|]
  {
    var before, chunk, after := chunks[..i], chunks[i], chunks[i + 1..];
    assert chunks[..i + 1] == before + [chunk];
    JoinConcat(before, [chunk]);
    JoinOne(chunk);
    assert chunks == chunks[..i + 1] + after;
    JoinConcat(chunks[..i + 1], after);
  }

  /** Chunking invariance: for every stream of whole frames and every split of a part of it into
      reads, what has been queued and reported is exactly the items of the complete frames, in
      order, the leftover is a strict prefix of the next frame, and there is space to read more. */
  lemma {:induction false} ChunkingInvariance(fs: seq<Bytes>, rs: seq<Receiver>, chunks: seq<Bytes>, i: nat)
    returns (k: nat)
    requires AllWhole(fs) && Reads(rs, chunks) && i <= |chunks|
    requires Join(chunks) <= Join(fs)
    ensures UpTo(fs, |Join(chunks[..i])|, k, rs[i])
    ensures |rs[i].buffer| < RECV_BUFFER
  {
    hide Feed, UpTo, Join, Whole;
    if i == 0 {
      k := 0;
      NothingRead(fs);
      assert chunks[..0] == [];
    } else {
      var j := ChunkingInvariance(fs, rs, chunks, i - 1);
      ReadsStep(rs, chunks, i - 1);
      hide Feed, Reads, UpTo, Join;
      k := ReadMore(fs, rs[i - 1], chunks, i - 1, j);
    }
    hide UpTo, Join;
    BufferSpace(fs, |Join(chunks[..i])|, k, rs[i]);
  }

  lemma ReadsStep(rs: seq<Receiver>, chunks: seq<Bytes>, i: nat)
    requires Reads(rs, chunks) && i < |chunks|
    ensures rs[i + 1] == Feed(rs[i], chunks[i])
  {
    hide Feed;
  }

  lemma NothingRead(fs: seq<Bytes>)
    requires AllWhole(fs)
    ensures UpTo(fs, |Join([])|, 0, Receiver([], [], Running))
  {
    assert fs[..0] == [];
    assert 0 < |fs| ==> Whole(fs[0]);
    hide Whole;
  }

  lemma ReadMore(fs: seq<Bytes>, r: Receiver, chunks: seq<Bytes>, i: nat, j: nat) returns (k: nat)
    requires i < |chunks| && Join(chunks) <= Join(fs) && UpTo(fs, |Join(chunks[..i])|, j, r)
    ensures UpTo(fs, |Join(chunks[..i + 1])|, k, Feed(r, chunks[i]))
  {
    hide Feed, UpTo, Join;
    var n, chunk := |Join(chunks[..i])|, chunks[i];
    JoinSplit(chunks, i);
    NextChunk(Join(chunks), Join(fs), n, chunk);
    k := FeedUpTo(fs, n, j, r, chunk);
  }

  lemma NextChunk(read: Bytes, stream: Bytes, n: nat, chunk: Bytes)
    requires read <= stream && n + |chunk| <= |read| && chunk == read[n..n + |chunk|]
    ensures chunk == stream[n..n + |chunk|]
  {
  }

  lemma BufferSpace(fs: seq<Bytes>, n: nat, k: nat, r: Receiver)
    requires UpTo(fs, n, k, r)
    ensures |r.buffer| < RECV_BUFFER
  {
    if k < |fs| {
      assert Whole(fs[k]);
    }
  }

  /** Once the whole stream has been read, every frame has been dealt with and nothing is left. */
  lemma WholeStream(fs: seq<Bytes>, rs: seq<Receiver>, chunks: seq<Bytes>)
    requires AllWhole(fs) && Reads(rs, chunks) && Join(chunks) == Join(fs)
    ensures rs[|chunks|] == Receiver(Items(fs), [], Running)
  {
    var k := ChunkingInvariance(fs, rs, chunks, |chunks|);
    assert chunks[..|chunks|] == chunks;
    assert Join(fs)[..|Join(fs)|] == Join(fs);
    if k < |fs| {
      JoinSplit(fs, k);
    }
    assert k == |fs| && fs[..k] == fs;
  }

  // What that means for messages

  function Encoded(ms: seq<Message>): (fs: seq<Bytes>)
    requires forall i :: 0 <= i < |ms| ==> Printable(ms[i])
  {
    seq(|ms|, i requires 0 <= i < |ms| && Printable(ms[i]) => Encode(ms[i]))
  }

  function Queue(ms: seq<Message>): seq<Item> {
    seq(|ms|, i requires 0 <= i < |ms| => Queued(ms[i]))
  }

  /** Messages printed one after the other, however the bytes arrive, are queued unchanged and in
      order. */
  lemma MessagesArrive(ms: seq<Message>, rs: seq<Receiver>, chunks: seq<Bytes>)
    requires forall i :: 0 <= i < |ms| ==> Printable(ms[i])
    requires Reads(rs, chunks) && Join(chunks) == Join(Encoded(ms))
    ensures rs[|chunks|] == Receiver(Queue(ms), [], Running)
  {
    var fs := Encoded(ms);
    forall i | 0 <= i < |fs|
      ensures Whole(fs[i]) && ItemOf(fs[i]) == Queued(ms[i])
    {
      PrintedIsWhole(ms[i]);
    }
    WholeStream(fs, rs, chunks);
    assert Items(fs) == Queue(ms);
  }

  /** Resynchronisation: frames with envelope errors anywhere in the stream cost exactly one
      diagnostic each, and every other message is delivered unchanged and in order. */
  lemma ErrorsStayLocal(fs: seq<Bytes>, rs: seq<Receiver>, chunks: seq<Bytes>, ms: seq<Message>)
    requires |fs| == |ms| && Reads(rs, chunks) && Join(chunks) == Join(fs)
    requires forall i :: 0 <= i < |fs| ==> EnvelopeError(fs[i]) || (Printable(ms[i]) && fs[i] == Encode(ms[i]))
    ensures var r := rs[|chunks|];
            && r.status == Running && r.buffer == [] && |r.items| == |fs|
            && forall i :: 0 <= i < |fs| ==>
                 if EnvelopeError(fs[i]) then r.items[i].Reported? else r.items[i] == Queued(ms[i])
  {
    forall i | 0 <= i < |fs|
      ensures Whole(fs[i]) && if EnvelopeError(fs[i]) then ItemOf(fs[i]).Reported? else ItemOf(fs[i]) == Queued(ms[i])
    {
      if EnvelopeError(fs[i]) {
        EnvelopeErrorIsWhole(fs[i]);
      } else {
        PrintedIsWhole(ms[i]);
      }
    }
    WholeStream(fs, rs, chunks);
    hide Whole, ItemOf, EnvelopeError;
  }

  /** `f` is the frame of `m` with payload `q` in place of its own, and `q` differs from it only
      within four consecutive bytes. */
  predicate BurstIn(m: Message, f: Bytes, q: Bytes, i: nat)
    requires Printable(m)
  {
    var p := Payload(m);
    && |q| == |p| && q != p && (forall j :: 0 <= j < |p| && q[j] != p[j] ==> i <= j < i + 4)
    && f == Frame(q, Sum(p))
  }

  /** A burst of up to four damaged payload bytes is always diagnosed, never delivered. */
  lemma BurstIsDiagnosed(m: Message, f: Bytes, q: Bytes, i: nat)
    requires Printable(m) && BurstIn(m, f, q, i)
    ensures EnvelopeError(f) && Whole(f) && ItemOf(f) == Reported(Report(InvalidEnvelope, 0, 0, 0))
  {
    var p := Payload(m);
    hide Sum, Unpack, Frame, Number4, Number2, Signed, Payload, Padding;
    FrameParts(q, Sum(p));
    SumsDiffer(q, p, i);
    BurstSize(q, Sum(p));
  }

  lemma BurstSize(q: Bytes, sum: u32)
    requires |q| <= 1012
    ensures |Frame(q, sum)| <= RECV_BUFFER
  {
  }

  lemma SumsDiffer(q: Bytes, p: Bytes, i: nat)
    requires |q| == |p| && q != p && forall j :: 0 <= j < |p| && q[j] != p[j] ==> i <= j < i + 4
    ensures Sum(q) != Sum(p)
  {
    var x, y := Words(q), Words(p);
    var j :| 0 <= j < |p| && q[j] != p[j];
    CrcWord.WordsDiffer(q[j], p[j]);
    assert x[j] != y[j];
    assert Crc.DifferInBurst(x, y, i);
    Crc.BurstIsDetected(x, y, i);
    WordToNumber(Crc.Checksum(x), Crc.Checksum(y));
  }


  lemma WordToNumber(a: bv32, b: bv32)
    requires a != b
    ensures a as int != b as int
  {
    assert (a as int) as bv32 == a;
  }
}
