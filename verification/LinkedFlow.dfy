/** Flow control between two linked channels in the data phase (application10/channel.c).

    Each direction is described by two unbounded counts: packets sent, and packets of them
    acknowledged by the receiving client. Sequence numbers run modulo eight here. A channel
    remembers the last P(S) it was sent, not the next one, so the newest packet can never be
    acknowledged. */
module LinkedFlow {
  import opened Sequence
  import opened LinkedCell

  datatype Counts = Counts(sentX: nat, ackedX: nat, sentY: nat, ackedY: nat)
  {
    function Swap(): Counts {
      Counts(sentY, ackedY, sentX, ackedX)
    }
  }

  const ZERO_COUNTS := Counts(0, 0, 0, 0)

  /** The packet whose number the receiving channel remembers. */
  function Last(sent: nat): nat {
    if sent == 0 then 0 else sent - 1
  }

  /** `v` is a wire number of count `n`. The source does not bound acknowledgements. */
  predicate Names(v: nat, n: nat) {
    v % SEQ_MAX == n % SEQ_MAX
  }

  /** The numbers that the cyclic tests read right: see `ExactIffReadable`. */
  predicate Readable(v: nat) {
    v <= SEQ_MAX || v % SEQ_MAX == 0
  }

  // What the tests say about counts

  lemma ReadableNames(v: nat, n: nat)
    requires Readable(v) && Names(v, n)
    ensures v == n % SEQ_MAX || (n % SEQ_MAX == 0 && v >= SEQ_MAX)
  {
  }

  /** The end of a window, as an offset from its start. */
  lemma WindowEndAhead(v: nat, n: nat, window: nat)
    requires Names(v, n) && WindowOk(window)
    ensures WindowEnd(v, window)
         == if n % SEQ_MAX + window <= SEQ_MAX then n % SEQ_MAX + window - 1 else n % SEQ_MAX + window - 1 - SEQ_MAX
  {
    NameAhead(v, window - 1, 8);
  }

  /** A window test accepts a number iff the next count it names is in the window. */
  lemma InWindowIsExact(acked: nat, v: nat, ps: nat, window: nat)
    requires Readable(v) && Names(v, acked) && WindowOk(window) && ps < SEQ_MAX
    ensures InRange(ps, v, WindowEnd(v, window)) <==> NextNamed(acked, ps, SEQ_MAX) < acked + window
  {
    ReadableNames(v, acked);
    WindowEndAhead(v, acked, window);
    NextNamedAhead(acked, ps, 8);
    hide WindowEnd, NextNamed;
  }

  /** The window test accepts a packet iff fewer than `window` are unacknowledged. */
  lemma WindowTest(sent: nat, acked: nat, v: nat, window: nat)
    requires WindowOk(window) && Readable(v) && Names(v, acked) && acked <= sent <= acked + window
    ensures InRange(sent % SEQ_MAX, v, WindowEnd(v, window)) <==> sent < acked + window
  {
    hide InRange, WindowEnd, NextNamed;
    InWindowIsExact(acked, v, sent % SEQ_MAX, window);
    NextNamedSelf(acked, sent, 8);
  }

  /** A zero written as a positive multiple of SEQ_MAX is accepted over another zero only if that
      one is such a multiple too, and not a larger one. */
  predicate ZeroFits(pr: nat, v: nat) {
    pr > 0 && pr % SEQ_MAX == 0 && v % SEQ_MAX == 0 ==> 0 < v <= pr
  }

  /** The acknowledgement test accepts a readable number iff it names a packet from the last
      acknowledged one to the last one sent, spelled so that zero fits. */
  lemma AckTest(acked: nat, last: nat, v: nat, pr: nat)
    requires Readable(v) && Names(v, acked) && acked <= last < acked + WINDOW_MAX && Readable(pr)
    ensures InRange(pr, v, last % SEQ_MAX) <==> NextNamed(acked, pr % SEQ_MAX, SEQ_MAX) <= last && ZeroFits(pr, v)
  {
    ReadableNames(v, acked);
    ReadableNames(pr, pr);
    NameAhead(acked, last - acked, 8);
    NextNamedAhead(acked, pr % SEQ_MAX, 8);
    hide NextNamed;
  }

  /** What the receiving client may acknowledge, the sending channel's assertion accepts: its
      range ends one packet later. */
  lemma AckPassesOn(acked: nat, sent: nat, v: nat, pr: nat)
    requires Readable(v) && Names(v, acked) && acked <= Last(sent) && sent <= acked + WINDOW_MAX
    requires InRange(pr, v, Last(sent) % SEQ_MAX)
    ensures InRange(pr, v, sent % SEQ_MAX)
  {
    if sent > 0 {
      ReadableNames(v, acked);
      NameAhead(acked, sent - acked, 8);
      NameAhead(acked, sent - 1 - acked, 8);
    }
  }

  // Which numbers are read right

  predicate WindowExact(v: nat, acked: nat, window: nat, sent: nat) {
    InRange(sent % SEQ_MAX, v, WindowEnd(v, window)) <==> sent < acked + window
  }

  predicate AckExact(v: nat, acked: nat, last: nat, pr: nat)
    requires pr < SEQ_MAX
  {
    InRange(pr, v, last % SEQ_MAX) <==> NextNamed(acked, pr, SEQ_MAX) <= last
  }

  /** While `v` is the last acknowledgement of `acked` packets, the window test and the
      acknowledgement test decide what they should, however many packets follow. */
  predicate ReadsExactly(v: nat, acked: nat, window: nat) {
    && (forall sent :: acked <= sent <= acked + window ==> WindowExact(v, acked, window, sent))
    && (forall last, pr :: acked <= last < acked + window && 0 <= pr < SEQ_MAX ==> AckExact(v, acked, last, pr))
  }

  /** The tests stay exact after an acknowledgement iff its number is at most SEQ_MAX or a
      multiple of it. Any other number lets an acknowledgement of 0 through at once. */
  lemma ExactIffReadable(v: nat, acked: nat, window: nat)
    requires Names(v, acked) && WindowOk(window)
    ensures ReadsExactly(v, acked, window) <==> Readable(v)
  {
    hide InRange, WindowEnd, NextNamed;
    if Readable(v) {
      forall sent | acked <= sent <= acked + window
        ensures WindowExact(v, acked, window, sent)
      {
        WindowTest(sent, acked, v, window);
      }
      forall last, pr | acked <= last < acked + window && 0 <= pr < SEQ_MAX
        ensures AckExact(v, acked, last, pr)
      {
        AckTest(acked, last, v, pr);
      }
    } else {
      UnreadableAcceptsZero(v, acked);
    }
  }

  lemma UnreadableAcceptsZero(v: nat, acked: nat)
    requires Names(v, acked) && !Readable(v)
    ensures InRange(0, v, acked % SEQ_MAX) && NextNamed(acked, 0, SEQ_MAX) > acked && !AckExact(v, acked, acked, 0)
  {
    NextNamedAhead(acked, 0, 8);
  }

  // Two channels in step

  /** One direction, from `x` to `y`. */
  predicate HalfInStep<N>(x: Cell<N>, y: Cell<N>, sent: nat, acked: nat) {
    && x.flow.clientPs == sent % SEQ_MAX
    && y.flow.peerPs == Last(sent) % SEQ_MAX
    && x.flow.peerPr == y.flow.clientPr
    && Names(x.flow.peerPr, acked)
    && acked <= Last(sent)
    && sent <= acked + x.facilities.window
  }

  /** Two linked channels in the data phase whose fields agree with the counts. */
  predicate Agree<N>(x: Cell<N>, y: Cell<N>, c: Counts) {
    && x.state == D1 && y.state == D1
    && x.facilities == y.facilities && PacketOk(x.facilities.packet) && WindowOk(x.facilities.window)
    && HalfInStep(x, y, c.sentX, c.ackedX)
    && HalfInStep(y, x, c.sentY, c.ackedY)
  }

  /** ... and whose tests are exact. */
  predicate InStep<N>(x: Cell<N>, y: Cell<N>, c: Counts) {
    Agree(x, y, c) && Readable(x.flow.peerPr) && Readable(y.flow.peerPr)
  }

  predicate FlowMessage(m: Message) {
    m.Data? || m.RR? || m.RNR?
  }

  /** The counts after X's client has sent `m`. */
  function After(c: Counts, m: Message): Counts
    requires FlowMessage(m)
  {
    c.(sentX := if m.Data? then c.sentX + 1 else c.sentX,
       ackedY := NextNamed(c.ackedY, m.pr % SEQ_MAX, SEQ_MAX))
  }

  /** Both channels are still in the data phase: the message was not punished. */
  predicate Accepted<N>(r: Outcome<Pair<N>>) {
    r.Done? && r.value.y.Some? && r.value.x.state == D1 && r.value.y.value.state == D1
  }

  /** A data packet is accepted exactly when it is well sized, is the next in sequence, fits the
      window and acknowledges a packet that may be acknowledged. */
  lemma DataAcceptableIsExact<N>(x: Cell<N>, y: Cell<N>, c: Counts, pr: nat, ps: nat, size: nat)
    requires InStep(x, y, c) && Readable(pr)
    ensures DataAcceptable(x, pr, ps, size) <==>
              && 0 < size < PacketBytes(x.facilities.packet) && ps == c.sentX % SEQ_MAX
              && c.sentX < c.ackedX + x.facilities.window
              && NextNamed(c.ackedY, pr % SEQ_MAX, SEQ_MAX) <= Last(c.sentY) && ZeroFits(pr, x.flow.clientPr)
  {
    hide InRange, WindowEnd, NextNamed, PacketBytes;
    WindowTest(c.sentX, c.ackedX, x.flow.peerPr, x.facilities.window);
    AckTest(c.ackedY, Last(c.sentY), x.flow.clientPr, pr);
  }

  /** The receiving channel's test at application10/channel.c:978, which looks at the wrong
      direction: it compares X's P(S) with what X has acknowledged. */
  predicate PassesPeerWindow<N>(x: Cell<N>, m: Message) {
    m.Data? ==> InRange(m.ps, x.flow.clientPr, WindowEnd(x.flow.clientPr, x.facilities.window))
  }

  lemma InStepLinks<N>(x: Cell<N>, y: Cell<N>, c: Counts)
    requires InStep(x, y, c)
    ensures y.flow.peerPr == x.flow.clientPr && x.flow.peerPr == y.flow.clientPr
  {
  }

  /** The three ways a data packet can go. */
  lemma DataOutcome<N>(x: Cell<N>, y: Cell<N>, m: Message, now: int)
    requires x.state == D1 && y.state == D1 && m.Data? && PacketOk(x.facilities.packet) && y.facilities == x.facilities
    requires y.flow.peerPr == x.flow.clientPr
    ensures var r := Handle(Pair(x, Some(y)), m, now);
            if !DataAcceptable(x, m.pr, m.ps, m.size) then r.Done? && !Accepted(r)
            else if !PassesPeerWindow(x, m) then r == Abort(PeerWindow)
            else r == Done(Pair(
              x.(flow := x.flow.(clientPs := (x.flow.clientPs + 1) % SEQ_MAX, clientPr := m.pr)),
              Some(y.(flow := y.flow.(peerPr := m.pr, peerPs := m.ps)))))
  {
    hide InRange;
    hide WindowEnd;
  }

  /** The three ways an acknowledgement can go. */
  lemma AckOutcome<N>(x: Cell<N>, y: Cell<N>, m: Message, now: int)
    requires x.state == D1 && y.state == D1 && (m.RR? || m.RNR?)
    ensures var r := Handle(Pair(x, Some(y)), m, now);
            if !InRange(m.pr, x.flow.clientPr, x.flow.peerPs) then r.Done? && !Accepted(r)
            else if !InRange(m.pr, y.flow.peerPr, y.flow.clientPs) then r == Abort(AckRange)
            else r == Done(Pair(x.(flow := x.flow.(clientPr := m.pr)), Some(y.(flow := y.flow.(peerPr := m.pr)))))
  {
    hide InRange;
  }

  /** A packet stops the server exactly when it is acceptable and its number is not in the window
      that starts at what its own sender has acknowledged. */
  lemma DataAbortsIff<N>(x: Cell<N>, y: Cell<N>, c: Counts, m: Message, now: int)
    requires InStep(x, y, c) && m.Data?
    ensures Handle(Pair(x, Some(y)), m, now).Abort? <==>
              && DataAcceptable(x, m.pr, m.ps, m.size)
              && NextNamed(c.ackedY, c.sentX % SEQ_MAX, SEQ_MAX) >= c.ackedY + x.facilities.window
  {
    hide Handle, InRange, WindowEnd, NextNamed;
    DataOutcome(x, y, m, now);
    InWindowIsExact(c.ackedY, x.flow.clientPr, c.sentX % SEQ_MAX, x.facilities.window);
  }

  /** A packet sent: the sending direction moves on by one. */
  lemma SentInStep<N>(x: Cell<N>, y: Cell<N>, sent: nat, acked: nat, x': Cell<N>, y': Cell<N>)
    requires HalfInStep(x, y, sent, acked) && sent < acked + x.facilities.window
    requires x'.facilities == x.facilities && x'.flow.clientPs == (x.flow.clientPs + 1) % SEQ_MAX
    requires x'.flow.peerPr == x.flow.peerPr == y'.flow.clientPr && y'.flow.peerPs == sent % SEQ_MAX
    ensures HalfInStep(x', y', sent + 1, acked)
  {
    NameAhead(sent, 1, 8);
  }

  /** An acknowledgement passed on: the direction it is for. */
  lemma AckedInStep<N>(y: Cell<N>, x: Cell<N>, sent: nat, acked: nat, pr: nat, y': Cell<N>, x': Cell<N>)
    requires HalfInStep(y, x, sent, acked) && NextNamed(acked, pr % SEQ_MAX, SEQ_MAX) <= Last(sent)
    requires y'.facilities == y.facilities && y'.flow.clientPs == y.flow.clientPs && x'.flow.peerPs == x.flow.peerPs
    requires y'.flow.peerPr == x'.flow.clientPr == pr
    ensures HalfInStep(y', x', sent, NextNamed(acked, pr % SEQ_MAX, SEQ_MAX))
  {
    NextNamedIsLeast(acked, pr % SEQ_MAX, SEQ_MAX, 0);
    hide NextNamed;
  }

  /** One accepted message: the fields follow the counts, and of all assertions only the
      misdirected window test can fail. */
  lemma StepInStep<N>(x: Cell<N>, y: Cell<N>, c: Counts, m: Message, now: int)
    requires InStep(x, y, c) && FlowMessage(m) && Readable(m.pr)
    ensures var r := Handle(Pair(x, Some(y)), m, now);
            && (r.Abort? ==> m.Data? && r.check == PeerWindow && !PassesPeerWindow(x, m))
            && (Accepted(r) ==> InStep(r.value.x, r.value.y.value, After(c, m)) && PassesPeerWindow(x, m))
  {
    hide Handle, InRange, WindowEnd, NextNamed;
    if m.Data? {
      DataInStep(x, y, c, m, now);
    } else {
      AckInStep(x, y, c, m, now);
    }
  }

  lemma AckInStep<N>(x: Cell<N>, y: Cell<N>, c: Counts, m: Message, now: int)
    requires InStep(x, y, c) && (m.RR? || m.RNR?) && Readable(m.pr)
    ensures var r := Handle(Pair(x, Some(y)), m, now);
            r.Done? && (Accepted(r) ==> InStep(r.value.x, r.value.y.value, After(c, m)))
  {
    hide Handle, InRange, NextNamed, HalfInStep;
    InStepLinks(x, y, c);
    AckOutcome(x, y, m, now);
    if InRange(m.pr, x.flow.clientPr, x.flow.peerPs) {
      AckNamesSent(x, y, c, m.pr);
    }
    var r := Handle(Pair(x, Some(y)), m, now);
    if Accepted(r) {
      AckedInStep(y, x, c.sentY, c.ackedY, m.pr, r.value.y.value, r.value.x);
      SameHalf(x, y, c.sentX, c.ackedX, r.value.x, r.value.y.value);
    }
  }

  /** An acknowledgement that one end accepts names a packet sent, and the other end accepts it. */
  lemma AckNamesSent<N>(x: Cell<N>, y: Cell<N>, c: Counts, pr: nat)
    requires InStep(x, y, c) && Readable(pr) && InRange(pr, x.flow.clientPr, x.flow.peerPs)
    ensures InRange(pr, y.flow.peerPr, y.flow.clientPs)
    ensures NextNamed(c.ackedY, pr % SEQ_MAX, SEQ_MAX) <= Last(c.sentY)
  {
    hide InRange, NextNamed;
    AckTest(c.ackedY, Last(c.sentY), x.flow.clientPr, pr);
    AckPassesOn(c.ackedY, c.sentY, x.flow.clientPr, pr);
  }

  lemma SameHalf<N>(x: Cell<N>, y: Cell<N>, sent: nat, acked: nat, x': Cell<N>, y': Cell<N>)
    requires HalfInStep(x, y, sent, acked) && x'.facilities == x.facilities
    requires x'.flow.clientPs == x.flow.clientPs && x'.flow.peerPr == x.flow.peerPr
    requires y'.flow.peerPs == y.flow.peerPs && y'.flow.clientPr == y.flow.clientPr
    ensures HalfInStep(x', y', sent, acked)
  {
  }

  lemma DataInStep<N>(x: Cell<N>, y: Cell<N>, c: Counts, m: Message, now: int)
    requires InStep(x, y, c) && m.Data? && Readable(m.pr)
    ensures var r := Handle(Pair(x, Some(y)), m, now);
            && (r.Abort? ==> r.check == PeerWindow && !PassesPeerWindow(x, m))
            && (Accepted(r) ==> InStep(r.value.x, r.value.y.value, After(c, m)) && PassesPeerWindow(x, m))
  {
    hide Handle, NextNamed, PassesPeerWindow, DataAcceptable, HalfInStep;
    assert y.flow.peerPr == x.flow.clientPr by { InStepLinks(x, y, c); }
    DataOutcome(x, y, m, now);
    DataAcceptableIsExact(x, y, c, m.pr, m.ps, m.size);
    var r := Handle(Pair(x, Some(y)), m, now);
    if Accepted(r) {
      InStepLinks(x, y, c);
      SentInStep(x, y, c.sentX, c.ackedX, r.value.x, r.value.y.value);
      AckedInStep(y, x, c.sentY, c.ackedY, m.pr, r.value.y.value, r.value.x);
    }
  }

  /** An accepted acknowledgement leaves the fields in agreement with some counts and all tests
      exact iff its number is at most SEQ_MAX or a multiple of it. The source does not check. */
  lemma InStepNeedsLegalAck<N>(x: Cell<N>, y: Cell<N>, c: Counts, m: Message, now: int)
    requires InStep(x, y, c) && FlowMessage(m) && Accepted(Handle(Pair(x, Some(y)), m, now))
    ensures var q := Handle(Pair(x, Some(y)), m, now).value;
            Readable(m.pr) <==> exists c' :: Agree(q.x, q.y.value, c') && TestsExact(q.x, q.y.value, c')
  {
    hide Handle, InRange, WindowEnd, NextNamed, ReadsExactly;
    var q := Handle(Pair(x, Some(y)), m, now).value;
    if Readable(m.pr) {
      StepInStep(x, y, c, m, now);
      InStepIsExact(q.x, q.y.value, After(c, m));
    } else {
      AcceptedHolds(x, y, m, now);
      forall c' | Agree(q.x, q.y.value, c')
        ensures !TestsExact(q.x, q.y.value, c')
      {
        ExactIffReadable(m.pr, c'.ackedY, q.y.value.facilities.window);
      }
    }
  }

  predicate TestsExact<N>(x: Cell<N>, y: Cell<N>, c: Counts) {
    && ReadsExactly(x.flow.peerPr, c.ackedX, x.facilities.window)
    && ReadsExactly(y.flow.peerPr, c.ackedY, y.facilities.window)
  }

  lemma InStepIsExact<N>(x: Cell<N>, y: Cell<N>, c: Counts)
    requires Agree(x, y, c)
    ensures InStep(x, y, c) <==> TestsExact(x, y, c)
  {
    hide ReadsExactly;
    ExactIffReadable(x.flow.peerPr, c.ackedX, x.facilities.window);
    ExactIffReadable(y.flow.peerPr, c.ackedY, y.facilities.window);
  }

  /** After an accepted message the peer holds its acknowledgement number. */
  lemma AcceptedHolds<N>(x: Cell<N>, y: Cell<N>, m: Message, now: int)
    requires x.state == D1 && y.state == D1 && FlowMessage(m) && PacketOk(x.facilities.packet)
    requires y.facilities == x.facilities && y.flow.peerPr == x.flow.clientPr
    requires Accepted(Handle(Pair(x, Some(y)), m, now))
    ensures Handle(Pair(x, Some(y)), m, now).value.y.value.flow.peerPr == m.pr
  {
    hide Handle, InRange, WindowEnd;
    if m.Data? {
      DataOutcome(x, y, m, now);
    } else {
      AckOutcome(x, y, m, now);
    }
  }

  // Runs of the data phase

  datatype Move = Move(fromX: bool, message: Message, now: int)

  datatype Ends<N> = Ends(x: Cell<N>, y: Cell<N>)
  {
    predicate InData() {
      x.state == D1 && y.state == D1
    }
  }

  /** A message from either client. */
  function Play<N>(e: Ends<N>, mv: Move): Outcome<Pair<N>>
    requires e.x.state != P1 && e.y.state != P1
  {
    if mv.fromX then Handle(Pair(e.x, Some(e.y)), mv.message, mv.now)
    else Handle(Pair(e.y, Some(e.x)), mv.message, mv.now)
  }

  function Result<N>(mv: Move, p: Pair<N>): Ends<N>
    requires p.y.Some?
  {
    if mv.fromX then Ends(p.x, p.y.value) else Ends(p.y.value, p.x)
  }

  function CountsStep(c: Counts, mv: Move): Counts
    requires FlowMessage(mv.message)
  {
    if mv.fromX then After(c, mv.message) else After(c.Swap(), mv.message).Swap()
  }

  predicate AllFlow(moves: seq<Move>) {
    forall i :: 0 <= i < |moves| ==> FlowMessage(moves[i].message)
  }

  function CountsFrom(c: Counts, moves: seq<Move>): Counts
    requires AllFlow(moves)
  {
    if moves == [] then c
    else CountsStep(CountsFrom(c, moves[..|moves| - 1]), moves[|moves| - 1])
  }

  lemma CountsNext(c: Counts, moves: seq<Move>, i: nat)
    requires i < |moves| && AllFlow(moves)
    ensures CountsFrom(c, moves[..i + 1]) == CountsStep(CountsFrom(c, moves[..i]), moves[i])
  {
    assert moves[..i + 1][..i] == moves[..i];
  }

  lemma CountsAppend(c: Counts, moves: seq<Move>, mv: Move)
    requires AllFlow(moves) && FlowMessage(mv.message)
    ensures AllFlow(moves + [mv]) && CountsFrom(c, moves + [mv]) == CountsStep(CountsFrom(c, moves), mv)
  {
    assert (moves + [mv])[..|moves|] == moves;
  }

  lemma CountsNone(c: Counts, moves: seq<Move>)
    ensures CountsFrom(c, moves[..0]) == c
  {
  }

  /** Acknowledgements are readable; those in the documented range are. */
  predicate LegalMove(mv: Move) {
    FlowMessage(mv.message) && Readable(mv.message.pr)
  }

  predicate Accepts<N(==)>(e: Ends<N>, mv: Move, e': Ends<N>) {
    e.InData() && Accepted(Play(e, mv)) && e' == Result(mv, Play(e, mv).value)
  }

  /** Messages all accepted, with whatever acknowledgements. */
  predicate AcceptedRun<N(==)>(ends: seq<Ends<N>>, moves: seq<Move>) {
    && |ends| == |moves| + 1 && AllFlow(moves)
    && (forall i :: 0 <= i < |moves| ==> Accepts(ends[i], moves[i], ends[i + 1]))
  }

  /** Two channels at the start of a data phase, and legal messages all accepted since. */
  predicate DataRun<N(==)>(ends: seq<Ends<N>>, moves: seq<Move>) {
    && AcceptedRun(ends, moves)
    && InStep(ends[0].x, ends[0].y, ZERO_COUNTS)
    && (forall i :: 0 <= i < |moves| ==> LegalMove(moves[i]))
  }

  function CountsAfter(moves: seq<Move>): Counts
    requires AllFlow(moves)
  {
    CountsFrom(ZERO_COUNTS, moves)
  }

  /** Every interleaving of accepted messages: each side's peer_pr is the other's client_pr, no
      more than a window of packets is unacknowledged, acknowledgements name packets already
      sent, and whatever comes next fails no assertion but the misdirected one. */
  lemma {:induction false} DataRunsStayInStep<N>(ends: seq<Ends<N>>, moves: seq<Move>, i: nat)
    requires DataRun(ends, moves) && i <= |moves|
    ensures InStep(ends[i].x, ends[i].y, CountsAfter(moves[..i]))
    ensures ends[i].x.facilities == ends[0].x.facilities
    ensures forall mv :: LegalMove(mv) && Play(ends[i], mv).Abort? ==>
              mv.message.Data? && Play(ends[i], mv).check == PeerWindow
  {
    hide CountsFrom, Play, CountsStep, HalfInStep;
    if i > 0 {
      DataRunsStayInStep(ends, moves, i - 1);
      var c, mv := CountsAfter(moves[..i - 1]), moves[i - 1];
      CountsNext(ZERO_COUNTS, moves, i - 1);
      assert LegalMove(mv) && Accepts(ends[i - 1], mv, ends[i]);
      MoveInStep(ends[i - 1], c, mv);
    } else {
      CountsNone(ZERO_COUNTS, moves);
    }
    forall mv | LegalMove(mv) && Play(ends[i], mv).Abort?
      ensures mv.message.Data? && Play(ends[i], mv).check == PeerWindow
    {
      MoveInStep(ends[i], CountsAfter(moves[..i]), mv);
    }
  }

  lemma MoveInStep<N>(e: Ends<N>, c: Counts, mv: Move)
    requires InStep(e.x, e.y, c) && LegalMove(mv)
    ensures var r := Play(e, mv);
            && (r.Abort? ==> mv.message.Data? && r.check == PeerWindow)
            && (Accepted(r) ==>
                  var e' := Result(mv, r.value);
                  InStep(e'.x, e'.y, CountsStep(c, mv)) && e'.x.facilities == e.x.facilities)
  {
    hide Handle, After, HalfInStep;
    if mv.fromX {
      StepInStep(e.x, e.y, c, mv.message, mv.now);
      KeepsFacilities(e.x, e.y, mv.message, mv.now);
    } else {
      SwapInStep(e.x, e.y, c);
      StepInStep(e.y, e.x, c.Swap(), mv.message, mv.now);
      KeepsFacilities(e.y, e.x, mv.message, mv.now);
    }
  }

  lemma SwapInStep<N>(x: Cell<N>, y: Cell<N>, c: Counts)
    requires InStep(x, y, c)
    ensures InStep(y, x, c.Swap())
  {
  }

  lemma KeepsFacilities<N>(x: Cell<N>, y: Cell<N>, m: Message, now: int)
    requires x.state == D1 && y.state == D1 && FlowMessage(m)
    ensures var r := Handle(Pair(x, Some(y)), m, now);
            r.Done? && r.value.y.Some? ==>
              r.value.x.facilities == x.facilities && r.value.y.value.facilities == y.facilities
  {
    hide InRange, WindowEnd;
  }

  // Where data phases start

  /** Two channels in the data phase with the same facilities, of any window that can be negotiated. */
  predicate Playable<N>(e: Ends<N>) {
    && e.InData() && e.x.facilities == e.y.facilities
    && PacketOk(e.x.facilities.packet) && SeqOk(e.x.facilities.window)
  }

  /** ... at its start. */
  predicate AtZero<N>(e: Ends<N>) {
    Playable(e) && e.x.flow == ZERO_FLOW && e.y.flow == ZERO_FLOW
  }

  /** With a window from one to seven that is a start in step. */
  lemma ZeroIsInStep<N>(e: Ends<N>)
    requires AtZero(e)
    ensures InStep(e.x, e.y, ZERO_COUNTS) <==> WindowOk(e.x.facilities.window)
  {
  }

  /** Call acceptance leaves both channels at the start of a data phase. */
  lemma AcceptanceStartsDataPhase<N>(p: Pair<N>, f: Facilities, now: int)
    requires p.x.state == P3 && p.y.Some? && p.y.value.state == P2
    ensures var r := Handle(p, CallAccepted(f), now);
            Accepted(r) ==> AtZero(Ends(r.value.x, r.value.y.value)) && r.value.x.facilities == f
  {
  }

  /** Whatever facilities a call was placed with, zero and eight as window among them, the called
      client can accept it with just those. */
  lemma AnyWindowCanBeAccepted<N>(p: Pair<N>, now: int)
    requires p.x.state == P3 && p.y.Some? && p.y.value.state == P2 && FacilitiesOk(p.x.facilities)
    ensures Accepted(Handle(p, CallAccepted(p.x.facilities), now))
  {
  }

  /** So does the confirmation of a reset that the other client requested. */
  lemma ConfirmationStartsDataPhase<N>(x: Cell<N>, y: Cell<N>, now: int)
    requires x.state == D3 && y.state == D2
    requires x.facilities == y.facilities && PacketOk(x.facilities.packet) && SeqOk(x.facilities.window)
    ensures var r := Handle(Pair(x, Some(y)), ResetConfirmation, now);
            Accepted(r) && AtZero(Ends(r.value.x, r.value.y.value)) && r.value.x.facilities == x.facilities
  {
  }
}
