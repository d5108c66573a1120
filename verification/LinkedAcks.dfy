/** When the assertions on acknowledgements (application10/channel.c:951 and 962) can fail. Clients
    may send any number as P(R): nothing bounds it before the cyclic tests see it. */
module LinkedAcks {
  import opened Sequence
  import opened LinkedCell
  import opened LinkedFlow
  import opened LinkedScripts
  import opened LinkedWindows

  /** A number too large that makes the window end at exactly SEQ_MAX - 1, whatever was sent. */
  predicate Risky(v: nat, window: nat) {
    v > SEQ_MAX && v % SEQ_MAX + window == SEQ_MAX
  }

  // Every run without such numbers

  /** One direction: the number `ps` to be sent next, the one before it, and the last
      acknowledgement. The next number has not come round to the acknowledged one. */
  predicate Clear(ps: nat, last: nat, v: nat) {
    && ps < SEQ_MAX
    && (last == (ps + SEQ_MAX - 1) % SEQ_MAX || (ps == 0 && last == 0))
    && !(last != ps && (ps == v || (ps == 0 && v >= SEQ_MAX)))
  }

  predicate HalfClear<N>(x: Cell<N>, y: Cell<N>) {
    x.flow.peerPr == y.flow.clientPr && Clear(x.flow.clientPs, y.flow.peerPs, x.flow.peerPr)
  }

  /** What one end accepts, the other end's assertion accepts. */
  lemma ClearAckPasses(ps: nat, last: nat, v: nat, pr: nat)
    requires Clear(ps, last, v) && InRange(pr, v, last)
    ensures InRange(pr, v, ps)
  {
  }

  lemma ClearAfterAck(ps: nat, last: nat, v: nat, pr: nat)
    requires Clear(ps, last, v) && InRange(pr, v, last)
    ensures Clear(ps, last, pr)
  {
  }

  lemma ClearAfterPacket(ps: nat, last: nat, v: nat, window: nat)
    requires Clear(ps, last, v) && WindowOk(window) && InRange(ps, v, WindowEnd(v, window)) && !Risky(v, window)
    ensures Clear((ps + 1) % SEQ_MAX, ps, v)
  {
    WindowEndAhead(v, v, window);
    hide WindowEnd;
  }

  predicate BothClear<N>(e: Ends<N>) {
    && Usable(e) && HalfClear(e.x, e.y) && HalfClear(e.y, e.x)
    && !Risky(e.x.flow.peerPr, e.x.facilities.window) && !Risky(e.y.flow.peerPr, e.x.facilities.window)
  }

  lemma StepClear<N>(e: Ends<N>, m: Message, now: int)
    requires BothClear(e) && FlowMessage(m)
    ensures var r := Handle(Pair(e.x, Some(e.y)), m, now);
            && (r.Abort? ==> r.check == PeerWindow)
            && (Accepted(r) && !Risky(m.pr, e.x.facilities.window) ==>
                  BothClear(Ends(r.value.x, r.value.y.value)) && r.value.x.facilities == e.x.facilities)
  {
    hide Handle, InRange, WindowEnd, Clear, PacketBytes;
    var x, y := e.x, e.y;
    if m.Data? {
      DataOutcome(x, y, m, now);
      if DataAcceptable(x, m.pr, m.ps, m.size) {
        ClearAfterPacket(x.flow.clientPs, y.flow.peerPs, x.flow.peerPr, x.facilities.window);
        ClearAfterAck(y.flow.clientPs, x.flow.peerPs, y.flow.peerPr, m.pr);
      }
    } else {
      AckOutcome(x, y, m, now);
      if InRange(m.pr, x.flow.clientPr, x.flow.peerPs) {
        ClearAckPasses(y.flow.clientPs, x.flow.peerPs, y.flow.peerPr, m.pr);
        ClearAfterAck(y.flow.clientPs, x.flow.peerPs, y.flow.peerPr, m.pr);
      }
    }
  }

  lemma MoveClear<N>(e: Ends<N>, mv: Move)
    requires BothClear(e) && FlowMessage(mv.message)
    ensures var r := Play(e, mv);
            && (r.Abort? ==> r.check == PeerWindow)
            && (Accepted(r) && !Risky(mv.message.pr, e.x.facilities.window) ==>
                  BothClear(Result(mv, r.value)) && Result(mv, r.value).x.facilities == e.x.facilities)
  {
    hide Handle, HalfClear;
    StepClear(if mv.fromX then e else Ends(e.y, e.x), mv.message, mv.now);
  }

  /** A run from the start of a data phase; acknowledgements may be anything. */
  predicate RunFromZero<N(==)>(ends: seq<Ends<N>>, moves: seq<Move>) {
    AcceptedRun(ends, moves) && AtZero(ends[0])
  }

  predicate NoneRisky(moves: seq<Move>, window: nat) {
    forall i :: 0 <= i < |moves| && FlowMessage(moves[i].message) ==> !Risky(moves[i].message.pr, window)
  }

  /** With windows from one to seven, in every run without risky acknowledgements, whatever comes
      next passes the assertions on acknowledgements. */
  lemma {:induction false} AckChecksPass<N>(ends: seq<Ends<N>>, moves: seq<Move>, i: nat)
    requires RunFromZero(ends, moves) && i <= |moves| && NoneRisky(moves, ends[0].x.facilities.window)
    requires WindowOk(ends[0].x.facilities.window)
    ensures BothClear(ends[i]) && ends[i].x.facilities == ends[0].x.facilities
    ensures forall mv: Move :: FlowMessage(mv.message) && Play(ends[i], mv).Abort? ==>
              Play(ends[i], mv).check == PeerWindow
  {
    hide Play, HalfClear;
    if i == 0 {
      ZeroClear(ends[0]);
    } else {
      AckChecksPass(ends, moves, i - 1);
      assert Accepts(ends[i - 1], moves[i - 1], ends[i]);
      MoveClear(ends[i - 1], moves[i - 1]);
    }
    forall mv: Move | FlowMessage(mv.message) && Play(ends[i], mv).Abort?
      ensures Play(ends[i], mv).check == PeerWindow
    {
      MoveClear(ends[i], mv);
    }
  }

  lemma ZeroClear<N>(e: Ends<N>)
    requires Usable(e) && e.x.flow == ZERO_FLOW && e.y.flow == ZERO_FLOW
    ensures BothClear(e)
  {
  }

  // A window of one

  /** One packet at most has been sent, and nothing but 0 acknowledged. */
  predicate Stuck(x: Flow, y: Flow) {
    x.clientPs <= 1 && x.peerPr == 0 && y.clientPr == 0 && y.peerPs == 0
  }

  predicate BothStuck<N>(e: Ends<N>) {
    Usable(e) && e.x.facilities.window == 1 && Stuck(e.x.flow, e.y.flow) && Stuck(e.y.flow, e.x.flow)
  }

  lemma StepStuck<N>(e: Ends<N>, m: Message, now: int)
    requires BothStuck(e) && FlowMessage(m)
    ensures var r := Handle(Pair(e.x, Some(e.y)), m, now);
            r.Done? && (Accepted(r) ==> BothStuck(Ends(r.value.x, r.value.y.value)))
  {
    hide Handle, PacketBytes;
    if m.Data? {
      DataOutcome(e.x, e.y, m, now);
    } else {
      AckOutcome(e.x, e.y, m, now);
    }
  }

  lemma MoveStuck<N>(e: Ends<N>, mv: Move)
    requires BothStuck(e) && FlowMessage(mv.message)
    ensures var r := Play(e, mv); r.Done? && (Accepted(r) ==> BothStuck(Result(mv, r.value)))
  {
    hide Handle;
    StepStuck(if mv.fromX then e else Ends(e.y, e.x), mv.message, mv.now);
  }

  /** With a window of one no number does harm: nothing can be acknowledged. */
  lemma {:induction false} WindowOneIsStuck<N>(ends: seq<Ends<N>>, moves: seq<Move>, i: nat)
    requires RunFromZero(ends, moves) && i <= |moves| && ends[0].x.facilities.window == 1
    ensures BothStuck(ends[i])
    ensures forall mv: Move :: FlowMessage(mv.message) ==> Play(ends[i], mv).Done?
  {
    hide Play;
    if i > 0 {
      WindowOneIsStuck(ends, moves, i - 1);
      assert Accepts(ends[i - 1], moves[i - 1], ends[i]);
      MoveStuck(ends[i - 1], moves[i - 1]);
    }
    forall mv: Move | FlowMessage(mv.message)
      ensures Play(ends[i], mv).Done?
    {
      MoveStuck(ends[i], mv);
    }
  }

  // A failing run for every other window and every risky number

  function Mod8(n: nat): nat {
    n % SEQ_MAX
  }

  /** After round `j`: two packets of each side are out, X has acknowledged `j` and Y `j + 1`. */
  function RoundX(j: nat): Flow {
    Flow(Mod8(j + 2), j, Mod8(j + 1), j + 1)
  }

  function RoundY(j: nat): Flow {
    Flow(Mod8(j + 2), j + 1, Mod8(j + 1), j)
  }

  function Opening(now: int): seq<Move> {
    [Packet(true, 0, 0, now)] + [Packet(true, 0, 1, now)] + [Packet(false, 0, 0, now)] + [Packet(false, 1, 1, now)]
  }

  lemma OpeningPlays<N>(e: Ends<N>, now: int)
    requires Usable(e) && e.x.facilities.window >= 2
    ensures PlayAll(With(e, ZERO_FLOW, ZERO_FLOW), Opening(now)) == Some(With(e, RoundX(0), RoundY(0)))
  {
    hide PlayAll, With;
    WithInData(e, ZERO_FLOW, ZERO_FLOW);
    var e0 := With(e, ZERO_FLOW, ZERO_FLOW);
    var x1, y1 := Flow(1, 0, 0, 0), Flow(0, 0, 0, 0);
    var x2, y2 := Flow(2, 0, 0, 0), Flow(0, 0, 1, 0);
    var x3, y3 := Flow(2, 0, 0, 0), Flow(1, 0, 1, 0);
    var a, b := Packet(true, 0, 0, now), Packet(true, 0, 1, now);
    var c, d := Packet(false, 0, 0, now), Packet(false, 1, 1, now);
    PacketPlays(e, true, ZERO_FLOW, ZERO_FLOW, 0, now);
    PacketPlays(e, true, x1, y1, 0, now);
    PacketPlays(e, false, x2, y2, 0, now);
    PacketPlays(e, false, x3, y3, 1, now);
    WithInData(e, x1, y1);
    WithInData(e, x2, y2);
    WithInData(e, x3, y3);
    Joined(e0, [a], With(e, x1, y1), [b], With(e, x2, y2));
    Joined(e0, [a] + [b], With(e, x2, y2), [c], With(e, x3, y3));
    Joined(e0, [a] + [b] + [c], With(e, x3, y3), [d], With(e, RoundX(0), RoundY(0)));
  }

  lemma WithInData<N>(e: Ends<N>, x: Flow, y: Flow)
    requires e.InData()
    ensures With(e, x, y).InData()
  {
  }

  function Round(j: nat, now: int): seq<Move> {
    [Ready(true, j, now)] + [Packet(true, j, Mod8(j + 1), now)] + [Packet(false, j + 1, Mod8(j + 1), now)]
  }

  lemma RoundPlays<N>(e: Ends<N>, j: nat, now: int)
    requires Usable(e) && e.x.facilities.window >= 2 && 1 <= j <= 7
    ensures PlayAll(With(e, RoundX(j - 1), RoundY(j - 1)), Round(j, now)) == Some(With(e, RoundX(j), RoundY(j)))
  {
    hide PlayAll, With;
    var x0, y0 := RoundX(j - 1), RoundY(j - 1);
    var x1, y1 := x0.(clientPr := j), y0.(peerPr := j);
    var x2, y2 := x1.(clientPs := Mod8(j + 2)), y1.(peerPs := Mod8(j + 1));
    var a, b, c := Ready(true, j, now), Packet(true, j, Mod8(j + 1), now), Packet(false, j + 1, Mod8(j + 1), now);
    ReadyPlays(e, true, x0, y0, j, now);
    PacketPlays(e, true, x1, y1, j, now);
    PacketPlays(e, false, x2, y2, j + 1, now);
    WithInData(e, x0, y0);
    WithInData(e, x1, y1);
    WithInData(e, x2, y2);
    Joined(With(e, x0, y0), [a], With(e, x1, y1), [b], With(e, x2, y2));
    Joined(With(e, x0, y0), [a] + [b], With(e, x2, y2), [c], With(e, RoundX(j), RoundY(j)));
  }

  /** The opening and `j` rounds. */
  function Rounds(j: nat, now: int): seq<Move> {
    if j == 0 then Opening(now) else Rounds(j - 1, now) + Round(j, now)
  }

  lemma {:induction false} RoundsPlay<N>(e: Ends<N>, j: nat, now: int)
    requires Usable(e) && e.x.facilities.window >= 2 && j <= 7
    ensures PlayAll(With(e, ZERO_FLOW, ZERO_FLOW), Rounds(j, now)) == Some(With(e, RoundX(j), RoundY(j)))
  {
    hide PlayAll, With, Round;
    if j == 0 {
      OpeningPlays(e, now);
    } else {
      RoundsPlay(e, j - 1, now);
      RoundPlays(e, j, now);
      WithInData(e, ZERO_FLOW, ZERO_FLOW);
      WithInData(e, RoundX(j - 1), RoundY(j - 1));
      Joined(With(e, ZERO_FLOW, ZERO_FLOW), Rounds(j - 1, now), With(e, RoundX(j - 1), RoundY(j - 1)), Round(j, now),
             With(e, RoundX(j), RoundY(j)));
    }
  }

  /** X's risky acknowledgement, and then Y's packets up to number `k`, each with one of its own. */
  function Tail(v: nat, k: nat, now: int): seq<Move> {
    if k == 0 then [Ready(true, v, now)] else Tail(v, k - 1, now) + [Packet(false, v, k, now)]
  }

  function TailX(v: nat, k: nat): Flow {
    Flow(1, v, k, if k == 0 then 8 else v)
  }

  function TailY(v: nat, k: nat): Flow {
    Flow(Mod8(k + 1), if k == 0 then 8 else v, 0, v)
  }

  lemma {:induction false} TailPlays<N>(e: Ends<N>, v: nat, k: nat, now: int)
    requires Usable(e) && e.x.facilities.window >= 2 && Risky(v, e.x.facilities.window) && k <= 7
    ensures PlayAll(With(e, RoundX(7), RoundY(7)), Tail(v, k, now)) == Some(With(e, TailX(v, k), TailY(v, k)))
  {
    hide PlayAll, With;
    WithInData(e, RoundX(7), RoundY(7));
    if k == 0 {
      ReadyPlays(e, true, RoundX(7), RoundY(7), v, now);
    } else {
      TailPlays(e, v, k - 1, now);
      TailPacket(v, k, e.x.facilities.window);
      PacketPlays(e, false, TailX(v, k - 1), TailY(v, k - 1), v, now);
      WithInData(e, TailX(v, k - 1), TailY(v, k - 1));
      Joined(With(e, RoundX(7), RoundY(7)), Tail(v, k - 1, now), With(e, TailX(v, k - 1), TailY(v, k - 1)),
             [Packet(false, v, k, now)], With(e, TailX(v, k), TailY(v, k)));
    }
  }

  lemma TailPacket(v: nat, k: nat, window: nat)
    requires WindowOk(window) && window >= 2 && Risky(v, window) && 1 <= k <= 7
    ensures CanSend(TailY(v, k - 1), window, v) && PeerTakes(TailY(v, k - 1), window)
    ensures TailY(v, k - 1).clientPs == k
  {
    WindowEndAhead(v, v, window);
  }

  lemma TailStops<N>(e: Ends<N>, v: nat, now: int)
    requires e.InData() && v > SEQ_MAX
    ensures Play(With(e, TailX(v, 7), TailY(v, 7)), Ready(true, 1, now)) == Abort(AckRange)
  {
    var e0 := With(e, TailX(v, 7), TailY(v, 7));
    hide Handle;
    AckOutcome(e0.x, e0.y, RR(1), now);
  }

  /** Acknowledgements above SEQ_MAX are all `v`. */
  predicate OnlyAbove(moves: seq<Move>, v: nat) {
    forall i :: 0 <= i < |moves| ==>
      FlowMessage(moves[i].message) && (moves[i].message.pr <= SEQ_MAX || moves[i].message.pr == v)
  }

  lemma OnlyAboveConcat(a: seq<Move>, b: seq<Move>, v: nat)
    requires OnlyAbove(a, v) && OnlyAbove(b, v)
    ensures OnlyAbove(a + b, v)
  {
  }

  lemma {:induction false} RoundsOnly(j: nat, v: nat, now: int)
    requires j <= 7
    ensures OnlyAbove(Rounds(j, now), v)
  {
    hide OnlyAbove;
    if j == 0 {
      OpeningOnly(v, now);
    } else {
      RoundsOnly(j - 1, v, now);
      RoundOnly(j, v, now);
      OnlyAboveConcat(Rounds(j - 1, now), Round(j, now), v);
    }
  }

  lemma OpeningOnly(v: nat, now: int)
    ensures OnlyAbove(Opening(now), v)
  {
  }

  lemma RoundOnly(j: nat, v: nat, now: int)
    requires 1 <= j <= 7
    ensures OnlyAbove(Round(j, now), v)
  {
  }

  lemma {:induction false} TailOnly(v: nat, k: nat, now: int)
    ensures OnlyAbove(Tail(v, k, now), v)
  {
    if k > 0 {
      TailOnly(v, k - 1, now);
      OnlyAboveConcat(Tail(v, k - 1, now), [Packet(false, v, k, now)], v);
    }
  }

  /** A run whose only acknowledgement above SEQ_MAX is `v`, and a message with a legal one that
      fails an assertion on acknowledgements. */
  predicate Fails<N(==)>(e: Ends<N>, v: nat, ends: seq<Ends<N>>, moves: seq<Move>, mv: Move) {
    && RunFromZero(ends, moves) && ends[0] == e && OnlyAbove(moves, v)
    && ends[|moves|].InData()
    && FlowMessage(mv.message) && mv.message.pr <= SEQ_MAX
    && Play(ends[|moves|], mv) == Abort(AckRange)
  }

  lemma RiskyAckFails<N>(e: Ends<N>, v: nat) returns (ends: seq<Ends<N>>, moves: seq<Move>, mv: Move)
    requires AtZero(e) && WindowOk(e.x.facilities.window)
    requires e.x.facilities.window >= 2 && Risky(v, e.x.facilities.window)
    ensures Fails(e, v, ends, moves, mv)
  {
    hide PlayAll, Rounds, Tail, Play;
    var now := 0;
    assert With(e, ZERO_FLOW, ZERO_FLOW) == e;
    RoundsPlay(e, 7, now);
    TailPlays(e, v, 7, now);
    Joined(e, Rounds(7, now), With(e, RoundX(7), RoundY(7)), Tail(v, 7, now), With(e, TailX(v, 7), TailY(v, 7)));
    moves, mv := Rounds(7, now) + Tail(v, 7, now), Ready(true, 1, now);
    RoundsOnly(7, v, now);
    TailOnly(v, 7, now);
    OnlyAboveConcat(Rounds(7, now), Tail(v, 7, now), v);
    ends := RunOf(e, moves);
    TailStops(e, v, now);
  }

  /** At a window of zero or eight legal numbers are enough: X sends eight packets, and its next
      number is again the one Y has acknowledged. */
  lemma OpenWindowFails<N>(e: Ends<N>, v: nat) returns (ends: seq<Ends<N>>, moves: seq<Move>, mv: Move)
    requires AtZero(e) && Open(e.x.facilities.window)
    ensures Fails(e, v, ends, moves, mv)
  {
    hide PlayAll, Packets, Play;
    var now := 0;
    assert With(e, ZERO_FLOW, ZERO_FLOW) == e;
    PacketsPlay(e, SEQ_MAX, now);
    PacketsOnly(SEQ_MAX, v, now);
    moves, mv := Packets(SEQ_MAX, now), Ready(false, 1, now);
    ends := RunOf(e, moves);
    EightStop(e, now);
  }

  lemma {:induction false} PacketsOnly(k: nat, v: nat, now: int)
    ensures OnlyAbove(Packets(k, now), v)
  {
    if k > 0 {
      PacketsOnly(k - 1, v, now);
      OnlyAboveConcat(Packets(k - 1, now), [Packet(true, 0, k - 1, now)], v);
    }
  }

  lemma EightStop<N>(e: Ends<N>, now: int)
    requires e.InData()
    ensures Play(With(e, SenderAfter(SEQ_MAX), ReceiverAfter(SEQ_MAX)), Ready(false, 1, now)) == Abort(AckRange)
  {
    var e0 := With(e, SenderAfter(SEQ_MAX), ReceiverAfter(SEQ_MAX));
    hide Handle;
    AckOutcome(e0.y, e0.x, RR(1), now);
  }

  /** The exact condition, for every window that can be negotiated: with one number above SEQ_MAX
      allowed, a data phase can be led to a failed assertion on acknowledgements iff the window is
      zero or eight, or it is at least two and the number's remainder and the window make SEQ_MAX. */
  lemma AckCheckCanFailIff<N>(e: Ends<N>, v: nat)
    requires AtZero(e)
    ensures (exists ends, moves, mv :: Fails(e, v, ends, moves, mv))
       <==> Open(e.x.facilities.window) || (e.x.facilities.window >= 2 && Risky(v, e.x.facilities.window))
  {
    hide Play;
    var w := e.x.facilities.window;
    if Open(w) {
      var ends, moves, mv := OpenWindowFails(e, v);
    } else if w >= 2 && Risky(v, w) {
      var ends, moves, mv := RiskyAckFails(e, v);
    } else {
      forall ends, moves, mv
        ensures !Fails(e, v, ends, moves, mv)
      {
        if Fails(e, v, ends, moves, mv) {
          if w == 1 {
            WindowOneIsStuck(ends, moves, |moves|);
          } else {
            AckChecksPass(ends, moves, |moves|);
          }
        }
      }
    }
  }

  /** Legal numbers alone can do so iff the window is zero or eight. */
  lemma LegalAcksCanFailIff<N>(e: Ends<N>)
    requires AtZero(e)
    ensures (exists ends, moves, mv :: Fails(e, 0, ends, moves, mv)) <==> Open(e.x.facilities.window)
  {
    hide Fails;
    AckCheckCanFailIff(e, 0);
  }
}
