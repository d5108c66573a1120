/** A reset of both ends by the server. Each client confirms for itself, and a channel that has not
    confirmed ignores what its peer sends, so packets sent between the two confirmations are lost
    without either end noticing (application10/channel.c:208-224, 460-470, 801-809, 940-947). */
module LinkedReset {
  import opened Sequence
  import opened LinkedCell
  import opened LinkedFlow
  import opened LinkedWindows
  import opened LinkedScripts

  predicate Steps<N(==)>(e: Ends<N>, mv: Move, e': Ends<N>) {
    && e.x.state != P1 && e.y.state != P1
    && Play(e, mv).Done? && Play(e, mv).value.y.Some? && e' == Result(mv, Play(e, mv).value)
  }

  predicate SameFacilities<N>(e: Ends<N>) {
    e.x.facilities == e.y.facilities && PacketOk(e.x.facilities.packet) && WindowOk(e.x.facilities.window)
  }

  /** Both ends wait for their clients. */
  predicate BothReset<N>(e: Ends<N>) {
    e.x.state == D3 && e.y.state == D3 && SameFacilities(e)
  }

  /** Y's client has confirmed, X's has not. */
  predicate HalfReset<N>(e: Ends<N>) {
    e.x.state == D3 && e.y.state == D1 && SameFacilities(e)
  }

  predicate Confirms(m: Message) {
    m.ResetConfirmation? || m.ResetRequest?
  }

  /** A server reset, Y's confirmation, and messages from either client that change no state. */
  predicate ResetRun<N(==)>(ends: seq<Ends<N>>, moves: seq<Move>) {
    && |ends| == |moves| + 1 && |moves| >= 1
    && BothReset(ends[0]) && !moves[0].fromX && Confirms(moves[0].message)
    && (forall i :: 0 <= i < |moves| ==> Steps(ends[i], moves[i], ends[i + 1]))
    && (forall i :: 1 <= i < |ends| ==> HalfReset(ends[i]))
  }

  function YData(moves: seq<Move>): nat {
    if moves == [] then 0
    else
      var mv := moves[|moves| - 1];
      YData(moves[..|moves| - 1]) + if !mv.fromX && mv.message.Data? then 1 else 0
  }

  lemma YDataNext(moves: seq<Move>, i: nat)
    requires i < |moves|
    ensures YData(moves[..i + 1]) == YData(moves[..i]) + if !moves[i].fromX && moves[i].message.Data? then 1 else 0
  {
    assert moves[..i + 1][..i] == moves[..i];
  }

  lemma FirstConfirmation<N>(e: Ends<N>, mv: Move, e': Ends<N>)
    requires BothReset(e) && !mv.fromX && Confirms(mv.message) && Steps(e, mv, e')
    ensures HalfReset(e') && e'.y.flow == ZERO_FLOW && e'.y.facilities == e.y.facilities
  {
  }

  lemma HalfResetStep<N>(e: Ends<N>, mv: Move, e': Ends<N>, k: nat)
    requires HalfReset(e) && HalfReset(e') && Steps(e, mv, e')
    requires k <= e.y.facilities.window && e.y.flow == Flow(k, 0, 0, 0)
    ensures e'.y.facilities == e.y.facilities
    ensures var k' := k + if !mv.fromX && mv.message.Data? then 1 else 0;
            k' <= e.y.facilities.window && e'.y.flow == Flow(k', 0, 0, 0)
  {
    if !mv.fromX && mv.message.Data? {
      WindowEndAhead(0, 0, e.y.facilities.window);
    }
  }

  /** In every such run Y's numbers are those of the packets it has sent since it confirmed, none
      acknowledged and at most a window. */
  lemma {:induction false} PacketsBetweenConfirmations<N>(ends: seq<Ends<N>>, moves: seq<Move>, i: nat)
    requires ResetRun(ends, moves) && 1 <= i <= |moves|
    ensures ends[i].y.flow == Flow(YData(moves[..i]), 0, 0, 0) && YData(moves[..i]) <= ends[0].y.facilities.window
    ensures ends[i].y.facilities == ends[0].y.facilities
  {
    hide Play, YData;
    YDataNext(moves, i - 1);
    assert Steps(ends[i - 1], moves[i - 1], ends[i]);
    if i == 1 {
      NoYData(moves);
      FirstConfirmation(ends[0], moves[0], ends[1]);
    } else {
      PacketsBetweenConfirmations(ends, moves, i - 1);
      HalfResetStep(ends[i - 1], moves[i - 1], ends[i], YData(moves[..i - 1]));
    }
  }

  lemma NoYData(moves: seq<Move>)
    ensures YData(moves[..0]) == 0
  {
  }

  /** X confirms too. Both ends are in the data phase, but in step only if Y has sent at most one
      packet meanwhile: X expects the first packet of all, Y sends the next. */
  lemma SecondConfirmationStartsDataPhase<N>(e: Ends<N>, mv: Move, k: nat)
    requires HalfReset(e) && e.y.flow == Flow(k, 0, 0, 0) && k <= e.y.facilities.window
    requires mv.fromX && Confirms(mv.message)
    ensures var r := Play(e, mv);
            && Accepted(r)
            && var e' := Result(mv, r.value);
               && Resumed(e', k) && e'.x.facilities == e.x.facilities
               && ((exists c :: InStep(e'.x, e'.y, c)) <==> k <= 1)
  {
    var e' := Result(mv, Play(e, mv).value);
    if k <= 1 {
      assert InStep(e'.x, e'.y, Counts(0, 0, k, 0));
    } else {
      forall c
        ensures !InStep(e'.x, e'.y, c)
      {
      }
    }
  }

  // After both confirmations

  /** X starts anew; Y has sent `k` packets that X never saw. */
  predicate Resumed<N>(e: Ends<N>, k: nat) {
    && Usable(e) && k <= e.x.facilities.window
    && e.x.flow == ZERO_FLOW && e.y.flow == Flow(k, 0, 0, 0)
  }

  /** `e` as if X had seen the `k` packets. */
  function CaughtUp<N>(e: Ends<N>, k: nat): Ends<N> {
    e.(x := e.x.(flow := e.x.flow.(peerPs := Last(k) % SEQ_MAX)))
  }

  /** In step but for the packets X has not seen, and can therefore not acknowledge. */
  predicate Lagging<N>(e: Ends<N>, c: Counts) {
    && InStep(CaughtUp(e, c.sentY).x, e.y, c)
    && c.ackedY == 0 && e.x.flow.peerPs == 0 && e.x.flow.clientPr == 0
  }

  lemma ResumedLags<N>(e: Ends<N>, k: nat)
    requires Resumed(e, k)
    ensures Lagging(e, Counts(0, 0, k, 0))
  {
  }

  /** What is accepted now would be accepted if X had seen them, with the same effect. */
  lemma PlaysCaughtUp<N>(e: Ends<N>, c: Counts, mv: Move)
    requires Lagging(e, c) && FlowMessage(mv.message)
    ensures e.InData()
    ensures var r := Play(e, mv);
            && (r.Abort? ==> r.check == PeerWindow || Play(CaughtUp(e, c.sentY), mv) == r)
            && (Accepted(r) ==>
                  var e', r0 := Result(mv, r.value), Play(CaughtUp(e, c.sentY), mv);
                  && Accepted(r0)
                  && (if !mv.fromX && mv.message.Data? then Result(mv, r0.value) == e'
                      else Result(mv, r0.value) == CaughtUp(e', c.sentY) && e'.x.flow.peerPs == 0)
                  && e'.x.facilities == e.x.facilities
                  && (mv.fromX ==> mv.message.pr == 0 && e'.x.flow.clientPr == 0)
                  && (!mv.fromX ==> e'.x.flow.clientPr == 0))
  {
    hide Handle, WindowEnd, PacketBytes;
    var z := CaughtUp(e, c.sentY);
    var m := mv.message;
    var a, b := if mv.fromX then e.x else e.y, if mv.fromX then e.y else e.x;
    var a0, b0 := if mv.fromX then z.x else z.y, if mv.fromX then z.y else z.x;
    if m.Data? {
      DataOutcome(a, b, m, mv.now);
      DataOutcome(a0, b0, m, mv.now);
    } else {
      AckOutcome(a, b, m, mv.now);
      AckOutcome(a0, b0, m, mv.now);
    }
  }

  /** Y's next accepted packet puts the ends in step; every other accepted message leaves X behind. */
  lemma LagStep<N>(e: Ends<N>, c: Counts, mv: Move)
    requires Lagging(e, c) && LegalMove(mv) && e.InData() && Accepted(Play(e, mv))
    ensures var e', c' := Result(mv, Play(e, mv).value), CountsStep(c, mv);
            && (if !mv.fromX && mv.message.Data? then InStep(e'.x, e'.y, c')
                else Lagging(e', c') && c'.sentY == c.sentY)
            && e'.x.facilities == e.x.facilities
  {
    hide Play, HalfInStep, NextNamed;
    PlaysCaughtUp(e, c, mv);
    MoveInStep(CaughtUp(e, c.sentY), c, mv);
    NextNamedSelf(0, 0, 8);
  }

  lemma LagAborts<N>(e: Ends<N>, c: Counts, mv: Move)
    requires Lagging(e, c) && LegalMove(mv) && e.InData() && Play(e, mv).Abort?
    ensures Play(e, mv).check == PeerWindow
  {
    hide Play, HalfInStep, NextNamed;
    PlaysCaughtUp(e, c, mv);
    MoveInStep(CaughtUp(e, c.sentY), c, mv);
  }

  /** A run of accepted legal messages after both confirmations. */
  predicate ResumedRun<N(==)>(ends: seq<Ends<N>>, moves: seq<Move>, k: nat) {
    && AcceptedRun(ends, moves) && Resumed(ends[0], k)
    && (forall i :: 0 <= i < |moves| ==> LegalMove(moves[i]))
  }

  /** In every such run the ends are out of step by the lost packets until Y's next packet, and in
      step from then on; no assertion but the misdirected one fails. */
  lemma {:induction false} NextPacketRestores<N>(ends: seq<Ends<N>>, moves: seq<Move>, k: nat, i: nat)
    requires ResumedRun(ends, moves, k) && i <= |moves|
    ensures var c := CountsFrom(Counts(0, 0, k, 0), moves[..i]);
            && (if YData(moves[..i]) > 0 then InStep(ends[i].x, ends[i].y, c) else Lagging(ends[i], c) && c.sentY == k)
            && ends[i].x.facilities == ends[0].x.facilities && ends[i].InData()
    ensures forall mv :: LegalMove(mv) && Play(ends[i], mv).Abort? ==> Play(ends[i], mv).check == PeerWindow
  {
    hide Play, CountsFrom, CountsStep, YData, Lagging, InStep;
    var c0 := Counts(0, 0, k, 0);
    if i == 0 {
      CountsNone(c0, moves);
      NoYData(moves);
      ResumedLags(ends[0], k);
    } else {
      NextPacketRestores(ends, moves, k, i - 1);
      CountsNext(c0, moves, i - 1);
      YDataNext(moves, i - 1);
      var e, c, mv := ends[i - 1], CountsFrom(c0, moves[..i - 1]), moves[i - 1];
      assert LegalMove(mv) && Accepts(e, mv, ends[i]);
      if YData(moves[..i - 1]) > 0 {
        MoveInStep(e, c, mv);
      } else {
        LagStep(e, c, mv);
      }
    }
    forall mv | LegalMove(mv) && Play(ends[i], mv).Abort?
      ensures Play(ends[i], mv).check == PeerWindow
    {
      var c := CountsFrom(c0, moves[..i]);
      if YData(moves[..i]) > 0 {
        MoveInStep(ends[i], c, mv);
      } else {
        LagAborts(ends[i], c, mv);
      }
    }
  }

  /** If Y had used up its window, it never gets another packet accepted before the next reset. */
  lemma {:induction false} FullWindowStalls<N>(ends: seq<Ends<N>>, moves: seq<Move>, k: nat, i: nat)
    requires ResumedRun(ends, moves, k) && i <= |moves| && k == ends[0].x.facilities.window
    ensures YData(moves[..i]) == 0
  {
    hide Play, CountsFrom, YData, Lagging;
    if i == 0 {
      NoYData(moves);
    } else {
      FullWindowStalls(ends, moves, k, i - 1);
      NextPacketRestores(ends, moves, k, i - 1);
      YDataNext(moves, i - 1);
      var e, c, mv := ends[i - 1], CountsFrom(Counts(0, 0, k, 0), moves[..i - 1]), moves[i - 1];
      assert LegalMove(mv) && Accepts(e, mv, ends[i]);
      if !mv.fromX && mv.message.Data? {
        LagFits(e, c, mv);
      }
    }
  }

  lemma LagFits<N>(e: Ends<N>, c: Counts, mv: Move)
    requires Lagging(e, c) && LegalMove(mv) && e.InData() && Accepted(Play(e, mv)) && !mv.fromX && mv.message.Data?
    ensures c.sentY < e.x.facilities.window
  {
    hide Play, HalfInStep, NextNamed;
    PlaysCaughtUp(e, c, mv);
    MoveFits(CaughtUp(e, c.sentY), c, mv);
  }

  // A run for every number of lost packets

  /** A message out of place in the data phase makes the server reset both ends. */
  lemma MisplacedResets<N>(e: Ends<N>, now: int)
    requires Usable(e)
    ensures var mv := Move(true, ResetConfirmation, now);
            Play(e, mv).Done? && Play(e, mv).value.y.Some? && BothReset(Result(mv, Play(e, mv).value))
  {
  }

  /** From a server reset, Y confirms and sends `k` packets. */
  lemma {:induction false} LossyRun<N>(e: Ends<N>, k: nat, now: int) returns (ends: seq<Ends<N>>, moves: seq<Move>)
    requires BothReset(e) && k <= e.x.facilities.window
    ensures ResetRun(ends, moves) && ends[0] == e && YData(moves) == k
  {
    hide Play;
    var mv, e';
    if k == 0 {
      mv := Move(false, ResetConfirmation, now);
      e' := ConfirmationStep(e, now);
      ends, moves := [e, e'], [mv];
      assert moves[..0] == [];
    } else {
      var ends0, moves0 := LossyRun(e, k - 1, now);
      var n := |moves0|;
      assert moves0[..n] == moves0;
      PacketsBetweenConfirmations(ends0, moves0, n);
      mv := Packet(false, 0, k - 1, now);
      e' := LostPacketStep(ends0[n], k - 1, now);
      ends, moves := ends0 + [e'], moves0 + [mv];
      assert moves[..n] == moves0;
      forall i | 0 <= i < |moves|
        ensures Steps(ends[i], moves[i], ends[i + 1])
      {
        if i < n {
          assert Steps(ends0[i], moves0[i], ends0[i + 1]);
        }
      }
    }
  }

  lemma ConfirmationStep<N>(e: Ends<N>, now: int) returns (e': Ends<N>)
    requires BothReset(e)
    ensures Steps(e, Move(false, ResetConfirmation, now), e') && HalfReset(e')
  {
    e' := Result(Move(false, ResetConfirmation, now), Play(e, Move(false, ResetConfirmation, now)).value);
  }

  lemma LostPacketStep<N>(e: Ends<N>, k: nat, now: int) returns (e': Ends<N>)
    requires HalfReset(e) && e.y.flow == Flow(k, 0, 0, 0) && k < e.y.facilities.window
    ensures Steps(e, Packet(false, 0, k, now), e') && HalfReset(e')
  {
    WindowEndAhead(0, 0, e.y.facilities.window);
    OneByteFits(e.y.facilities.packet);
    hide WindowEnd, PacketBytes;
    e' := Result(Packet(false, 0, k, now), Play(e, Packet(false, 0, k, now)).value);
  }

  /** For every window but one: from two channels in the data phase, a reset after which the ends
      are in step with no counts at all, and Y can send nothing more. */
  lemma ResetOutOfStep<N>(e: Ends<N>, now: int) returns (ends: seq<Ends<N>>, moves: seq<Move>)
    requires Usable(e) && e.x.facilities.window >= 2
    ensures ResetRun(ends, moves) && Steps(e, Move(true, ResetConfirmation, now), ends[0])
    ensures var end, mv := ends[|moves|], Move(true, ResetConfirmation, now);
            && HalfReset(end) && Accepted(Play(end, mv))
            && var e' := Result(mv, Play(end, mv).value);
               Resumed(e', e'.x.facilities.window) && forall c :: !InStep(e'.x, e'.y, c)
  {
    hide Play, YData, InStep;
    MisplacedResets(e, now);
    var mv := Move(true, ResetConfirmation, now);
    var e0 := Result(mv, Play(e, mv).value);
    var w := e0.x.facilities.window;
    ResetKeepsFacilities(e, now);
    ends, moves := LossyRun(e0, w, now);
    assert moves[..|moves|] == moves;
    PacketsBetweenConfirmations(ends, moves, |moves|);
    SecondConfirmationStartsDataPhase(ends[|moves|], mv, w);
  }

  lemma ResetKeepsFacilities<N>(e: Ends<N>, now: int)
    requires Usable(e)
    ensures var mv := Move(true, ResetConfirmation, now);
            && Play(e, mv).Done? && Play(e, mv).value.y.Some?
            && Result(mv, Play(e, mv).value).x.facilities == e.x.facilities
  {
  }
}
