/** What follows from the misdirected window test (application10/channel.c:978) and from
    remembering the last P(S) instead of the next (982). */
module LinkedWindows {
  import opened Sequence
  import opened LinkedCell
  import opened LinkedFlow
  import opened LinkedScripts

  /** An accepted data packet was within both windows. */
  lemma MoveFits<N>(e: Ends<N>, c: Counts, mv: Move)
    requires InStep(e.x, e.y, c) && LegalMove(mv) && Accepted(Play(e, mv)) && mv.message.Data?
    ensures var d, w := if mv.fromX then c else c.Swap(), e.x.facilities.window;
            && d.sentX < d.ackedX + w
            && NextNamed(d.ackedY, d.sentX % SEQ_MAX, SEQ_MAX) < d.ackedY + w
  {
    hide Handle, InRange, WindowEnd, NextNamed, DataAcceptable;
    var self, other := if mv.fromX then e.x else e.y, if mv.fromX then e.y else e.x;
    var d, m := if mv.fromX then c else c.Swap(), mv.message;
    if !mv.fromX {
      SwapInStep(e.x, e.y, c);
    }
    DataAcceptableIsExact(self, other, d, m.pr, m.ps, m.size);
    DataOutcome(self, other, m, mv.now);
    InWindowIsExact(d.ackedY, self.flow.clientPr, d.sentX % SEQ_MAX, self.facilities.window);
  }

  /** A side that is not a whole window ahead of its own acknowledgements stays so. */
  lemma StaysBehind(sent: nat, acked: nat, window: nat)
    requires WindowOk(window) && sent <= acked + window
    requires NextNamed(acked, sent % SEQ_MAX, SEQ_MAX) < acked + window
    ensures sent + 1 <= acked + window
  {
    if sent == acked + window {
      NextNamedSelf(acked, sent, 8);
    }
  }

  /** In every run neither side has sent more than a window of packets beyond what it has itself
      acknowledged. */
  lemma {:induction false} NeverAheadOfOwnAcks<N>(ends: seq<Ends<N>>, moves: seq<Move>, i: nat)
    requires DataRun(ends, moves) && i <= |moves|
    ensures var c, w := CountsAfter(moves[..i]), ends[0].x.facilities.window;
            c.sentX <= c.ackedY + w && c.sentY <= c.ackedX + w
  {
    hide CountsFrom, Play, NextNamed, HalfInStep;
    if i == 0 {
      CountsNone(ZERO_COUNTS, moves);
    } else {
      var c, mv, w := CountsAfter(moves[..i - 1]), moves[i - 1], ends[0].x.facilities.window;
      CountsNext(ZERO_COUNTS, moves, i - 1);
      NeverAheadOfOwnAcks(ends, moves, i - 1);
      DataRunsStayInStep(ends, moves, i - 1);
      assert LegalMove(mv) && Accepts(ends[i - 1], mv, ends[i]);
      if mv.message.Data? {
        MoveFits(ends[i - 1], c, mv);
        if mv.fromX {
          StaysBehind(c.sentX, c.ackedY, w);
        } else {
          StaysBehind(c.sentY, c.ackedX, w);
        }
      }
    }
  }

  /** While Y's client sends no data, X's client gets at most a window of packets through,
      whatever Y acknowledges. */
  lemma OneWayTransferIsBounded<N>(ends: seq<Ends<N>>, moves: seq<Move>, i: nat)
    requires DataRun(ends, moves) && i <= |moves| && CountsAfter(moves[..i]).sentY == 0
    ensures CountsAfter(moves[..i]).sentX <= ends[0].x.facilities.window
  {
    NeverAheadOfOwnAcks(ends, moves, i);
    DataRunsStayInStep(ends, moves, i);
  }

  /** With a window of one, each side sends one packet and never another: the packet cannot be
      acknowledged, so the window never reopens. */
  lemma {:induction false} WindowOneStalls<N>(ends: seq<Ends<N>>, moves: seq<Move>, i: nat)
    requires DataRun(ends, moves) && i <= |moves| && ends[0].x.facilities.window == 1
    ensures CountsAfter(moves[..i]).sentX <= 1 && CountsAfter(moves[..i]).sentY <= 1
  {
    hide CountsFrom, Play, NextNamed;
    if i == 0 {
      CountsNone(ZERO_COUNTS, moves);
    } else {
      WindowOneStalls(ends, moves, i - 1);
      DataRunsStayInStep(ends, moves, i - 1);
      CountsNext(ZERO_COUNTS, moves, i - 1);
      assert LegalMove(moves[i - 1]) && Accepts(ends[i - 1], moves[i - 1], ends[i]);
      if moves[i - 1].message.Data? {
        MoveFits(ends[i - 1], CountsAfter(moves[..i - 1]), moves[i - 1]);
      }
    }
  }

  /** Nor does anything legal ever stop the server there. */
  lemma WindowOneNeverAborts<N>(ends: seq<Ends<N>>, moves: seq<Move>, i: nat, mv: Move)
    requires DataRun(ends, moves) && i <= |moves| && ends[0].x.facilities.window == 1 && LegalMove(mv)
    ensures ends[i].InData() && Play(ends[i], mv).Done?
  {
    hide CountsFrom, Handle, NextNamed, InRange, WindowEnd, DataAcceptable;
    WindowOneStalls(ends, moves, i);
    DataRunsStayInStep(ends, moves, i);
    var e, c, m := ends[i], CountsAfter(moves[..i]), mv.message;
    if Play(e, mv).Abort? {
      var self, other := if mv.fromX then e.x else e.y, if mv.fromX then e.y else e.x;
      var d := if mv.fromX then c else c.Swap();
      SwapInStep(e.x, e.y, c);
      DataAbortsIff(self, other, d, m, mv.now);
      DataAcceptableIsExact(self, other, d, m.pr, m.ps, m.size);
      NextNamedSelf(0, 0, 8);
    }
  }

  // Windows of zero and eight

  /** The windows that never close. */
  predicate Open(window: nat) {
    window == 0 || window == SEQ_MAX
  }

  lemma OpenAccepts(v: nat, window: nat, ps: nat)
    requires Readable(v) && Open(window) && ps < SEQ_MAX
    ensures InRange(ps, v, WindowEnd(v, window))
  {
    if v > 0 {
      NameAhead(v - 1, 8, 8);
    }
  }

  /** What legal messages keep there: all numbers stay readable. */
  predicate OpenOk<N>(e: Ends<N>) {
    && Playable(e) && Open(e.x.facilities.window)
    && e.x.flow.clientPs < SEQ_MAX && e.y.flow.clientPs < SEQ_MAX
    && Readable(e.x.flow.clientPr) && Readable(e.y.flow.clientPr)
    && e.y.flow.peerPr == e.x.flow.clientPr && e.x.flow.peerPr == e.y.flow.clientPr
  }

  lemma StepOpen<N>(e: Ends<N>, m: Message, now: int)
    requires OpenOk(e) && FlowMessage(m) && Readable(m.pr)
    ensures var r := Handle(Pair(e.x, Some(e.y)), m, now);
            && (r.Abort? ==> r.check == AckRange)
            && (Accepted(r) ==> OpenOk(Ends(r.value.x, r.value.y.value)))
  {
    hide Handle, InRange, WindowEnd, PacketBytes;
    if m.Data? {
      DataOutcome(e.x, e.y, m, now);
      OpenAccepts(e.x.flow.clientPr, e.x.facilities.window, e.x.flow.clientPs);
    } else {
      AckOutcome(e.x, e.y, m, now);
    }
  }

  lemma MoveOpen<N>(e: Ends<N>, mv: Move)
    requires OpenOk(e) && LegalMove(mv)
    ensures var r := Play(e, mv);
            (r.Abort? ==> r.check == AckRange) && (Accepted(r) ==> OpenOk(Result(mv, r.value)))
  {
    hide Handle;
    StepOpen(if mv.fromX then e else Ends(e.y, e.x), mv.message, mv.now);
  }

  /** Legal messages, all accepted, from the start of a data phase with any window. */
  predicate LegalRun<N(==)>(ends: seq<Ends<N>>, moves: seq<Move>) {
    && AcceptedRun(ends, moves) && AtZero(ends[0])
    && (forall i :: 0 <= i < |moves| ==> LegalMove(moves[i]))
  }

  lemma {:induction false} OpenRuns<N>(ends: seq<Ends<N>>, moves: seq<Move>, i: nat)
    requires LegalRun(ends, moves) && i <= |moves| && Open(ends[0].x.facilities.window)
    ensures OpenOk(ends[i])
  {
    hide Play;
    if i > 0 {
      OpenRuns(ends, moves, i - 1);
      assert LegalMove(moves[i - 1]) && Accepts(ends[i - 1], moves[i - 1], ends[i]);
      MoveOpen(ends[i - 1], moves[i - 1]);
    }
  }

  // A one-way transfer

  /** X sends `k` packets. */
  function Packets(k: nat, now: int): seq<Move> {
    if k == 0 then [] else Packets(k - 1, now) + [Packet(true, 0, k - 1, now)]
  }

  lemma {:induction false} PacketsLegal(k: nat, now: int)
    ensures |Packets(k, now)| == k
    ensures forall i :: 0 <= i < k ==> LegalMove(Packets(k, now)[i])
  {
    if k > 0 {
      PacketsLegal(k - 1, now);
      var before, next := Packets(k - 1, now), Packet(true, 0, k - 1, now);
      assert Packets(k, now) == before + [next];
      hide Packets;
    }
  }

  lemma {:induction false} PacketsCount(k: nat, now: int)
    ensures AllFlow(Packets(k, now)) && CountsAfter(Packets(k, now)) == Counts(k, 0, 0, 0)
  {
    hide CountsFrom;
    PacketsLegal(k, now);
    if k == 0 {
      CountsNone(ZERO_COUNTS, []);
      assert [][..0] == Packets(0, now);
    } else {
      PacketsCount(k - 1, now);
      CountsAppend(ZERO_COUNTS, Packets(k - 1, now), Packet(true, 0, k - 1, now));
    }
  }

  /** The sequence numbers after `k` unacknowledged packets. */
  function SenderAfter(k: nat): Flow {
    Flow(k % SEQ_MAX, 0, 0, 0)
  }

  function ReceiverAfter(k: nat): Flow {
    Flow(0, 0, Last(k), 0)
  }

  lemma {:induction false} PacketsPlay<N>(e: Ends<N>, k: nat, now: int)
    requires Playable(e) && (k <= e.x.facilities.window || (Open(e.x.facilities.window) && k <= SEQ_MAX))
    ensures PlayAll(With(e, ZERO_FLOW, ZERO_FLOW), Packets(k, now)) == Some(With(e, SenderAfter(k), ReceiverAfter(k)))
  {
    hide PlayAll;
    if k == 0 {
      NothingPlayed(With(e, ZERO_FLOW, ZERO_FLOW));
    } else {
      var e0, mid := With(e, ZERO_FLOW, ZERO_FLOW), With(e, SenderAfter(k - 1), ReceiverAfter(k - 1));
      PacketsPlay(e, k - 1, now);
      PacketPlays(e, true, SenderAfter(k - 1), ReceiverAfter(k - 1), 0, now);
      Joined(e0, Packets(k - 1, now), mid, [Packet(true, 0, k - 1, now)], With(e, SenderAfter(k), ReceiverAfter(k)));
    }
  }

  lemma NothingPlayed<N>(e: Ends<N>)
    requires e.InData()
    ensures PlayAll(e, []) == Some(e)
  {
  }

  /** For every window but one there is a run in which X's client sends a window of packets, Y's
      client acknowledges one and sends none, and X's next packet, inside its own window, stops the
      server. */
  lemma OneWayTransferAborts<N>(e: Ends<N>, now: int) returns (ends: seq<Ends<N>>, moves: seq<Move>)
    requires Usable(e) && e.x.facilities.window >= 2
    ensures DataRun(ends, moves) && ends[0] == With(e, ZERO_FLOW, ZERO_FLOW) && Usable(ends[|moves|])
    ensures CountsAfter(moves) == Counts(e.x.facilities.window, 1, 0, 0)
    ensures var x, next := ends[|moves|].x, Packet(true, 0, e.x.facilities.window, now);
            && PacketOk(x.facilities.packet) && DataAcceptable(x, next.message.pr, next.message.ps, 1)
            && LegalMove(next)
            && Play(ends[|moves|], next) == Abort(PeerWindow)
  {
    hide PlayAll, Play, CountsFrom;
    var w := e.x.facilities.window;
    var e0 := With(e, ZERO_FLOW, ZERO_FLOW);
    var ack := Ready(false, 1, now);
    var last := With(e, SenderAfter(w).(peerPr := 1), ReceiverAfter(w).(clientPr := 1));
    PacketsPlay(e, w, now);
    ReadyPlays(e, false, SenderAfter(w), ReceiverAfter(w), 1, now);
    moves := Packets(w, now) + [ack];
    Joined(e0, Packets(w, now), With(e, SenderAfter(w), ReceiverAfter(w)), [ack], last);
    PacketsLegal(w, now);
    PacketsCount(w, now);
    ends := RunOf(e0, moves);
    ZeroInStep(e);
    OneAckCounts(w, now);
    StopsAt(last, w, now);
  }

  lemma ZeroInStep<N>(e: Ends<N>)
    requires Usable(e)
    ensures var e0 := With(e, ZERO_FLOW, ZERO_FLOW); InStep(e0.x, e0.y, ZERO_COUNTS)
  {
  }

  lemma OneAckCounts(w: nat, now: int)
    ensures var moves := Packets(w, now) + [Ready(false, 1, now)];
            AllFlow(moves) && CountsAfter(moves) == Counts(w, 1, 0, 0)
  {
    hide CountsFrom;
    PacketsCount(w, now);
    CountsAppend(ZERO_COUNTS, Packets(w, now), Ready(false, 1, now));
  }

  lemma StopsAt<N>(last: Ends<N>, w: nat, now: int)
    requires Usable(last) && w == last.x.facilities.window >= 2
    requires last.x.flow == SenderAfter(w).(peerPr := 1) && last.y.flow == ReceiverAfter(w).(clientPr := 1)
    ensures DataAcceptable(last.x, 0, w, 1) && Play(last, Packet(true, 0, w, now)) == Abort(PeerWindow)
  {
    hide Handle;
    OneByteFits(last.x.facilities.packet);
    hide PacketBytes;
    DataOutcome(last.x, last.y, Data(0, w, 1), now);
  }

  /** A run of legal messages, and a legal one that fails the check at application10/channel.c:978. */
  predicate StopsOnWindow<N(==)>(e: Ends<N>, ends: seq<Ends<N>>, moves: seq<Move>, mv: Move) {
    && LegalRun(ends, moves) && ends[0] == e && ends[|moves|].InData()
    && LegalMove(mv) && Play(ends[|moves|], mv) == Abort(PeerWindow)
  }

  /** The exact condition: legal messages can make the check fail iff the window is from two to
      seven. */
  lemma PeerWindowCanFailIff<N>(e: Ends<N>)
    requires AtZero(e)
    ensures (exists ends, moves, mv :: StopsOnWindow(e, ends, moves, mv)) <==> 2 <= e.x.facilities.window <= WINDOW_MAX
  {
    hide Play, CountsFrom;
    var w := e.x.facilities.window;
    if 2 <= w <= WINDOW_MAX {
      assert With(e, ZERO_FLOW, ZERO_FLOW) == e;
      var ends, moves := OneWayTransferAborts(e, 0);
      assert StopsOnWindow(e, ends, moves, Packet(true, 0, w, 0));
    } else {
      forall ends, moves, mv
        ensures !StopsOnWindow(e, ends, moves, mv)
      {
        if LegalRun(ends, moves) && ends[0] == e && LegalMove(mv) {
          if w == 1 {
            ZeroIsInStep(e);
            WindowOneNeverAborts(ends, moves, |moves|, mv);
          } else {
            OpenRuns(ends, moves, |moves|);
            MoveOpen(ends[|moves|], mv);
          }
        }
      }
    }
  }
}
