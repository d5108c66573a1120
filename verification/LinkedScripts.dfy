/** Runs of the data phase built message by message, on the sequence numbers of the two ends. */
module LinkedScripts {
  import opened Sequence
  import opened LinkedCell
  import opened LinkedFlow

  /** Two linked channels in the data phase with a window from one to seven. */
  predicate Usable<N>(e: Ends<N>) {
    Playable(e) && WindowOk(e.x.facilities.window)
  }

  /** `e` with other sequence numbers. */
  function With<N>(e: Ends<N>, x: Flow, y: Flow): Ends<N> {
    Ends(e.x.(flow := x), e.y.(flow := y))
  }

  /** Where a sequence of messages leads, if all of them are accepted. */
  function PlayAll<N>(e: Ends<N>, moves: seq<Move>): Option<Ends<N>>
    requires e.InData()
    decreases |moves|
  {
    if moves == [] then Some(e)
    else
      var r := Play(e, moves[0]);
      if Accepted(r) then PlayAll(Result(moves[0], r.value), moves[1..]) else None
  }

  lemma {:induction false} PlayConcat<N>(e: Ends<N>, a: seq<Move>, b: seq<Move>)
    requires e.InData() && PlayAll(e, a).Some?
    ensures PlayAll(e, a).value.InData()
    ensures PlayAll(e, a + b) == PlayAll(PlayAll(e, a).value, b)
    decreases |a|
  {
    hide Play;
    if a == [] {
      assert a + b == b;
    } else {
      assert (a + b)[1..] == a[1..] + b && (a + b)[0] == a[0];
      PlayConcat(Result(a[0], Play(e, a[0]).value), a[1..], b);
    }
  }

  lemma PlayOne<N>(e: Ends<N>, mv: Move)
    requires e.InData() && Accepted(Play(e, mv))
    ensures PlayAll(e, [mv]) == Some(Result(mv, Play(e, mv).value))
  {
    hide Play;
    var e' := Result(mv, Play(e, mv).value);
    assert PlayAll(e', [mv][1..]) == Some(e');
  }

  /** Such a sequence is a run. */
  lemma {:induction false} RunOf<N>(e: Ends<N>, moves: seq<Move>) returns (ends: seq<Ends<N>>)
    requires e.InData() && AllFlow(moves) && PlayAll(e, moves).Some?
    ensures AcceptedRun(ends, moves) && ends[0] == e && ends[|moves|] == PlayAll(e, moves).value
    decreases |moves|
  {
    hide Play;
    if moves == [] {
      ends := [e];
    } else {
      var e' := Result(moves[0], Play(e, moves[0]).value);
      var rest := RunOf(e', moves[1..]);
      ends := [e] + rest;
      forall i | 0 <= i < |moves|
        ensures Accepts(ends[i], moves[i], ends[i + 1])
      {
        if i > 0 {
          assert ends[i] == rest[i - 1] && moves[i] == moves[1..][i - 1] && ends[i + 1] == rest[i];
          assert Accepts(rest[i - 1], moves[1..][i - 1], rest[i]);
        }
      }
    }
  }

  // Single messages

  function Packet(fromX: bool, pr: nat, ps: nat, now: int): Move {
    Move(fromX, Data(pr, ps, 1), now)
  }

  function Ready(fromX: bool, pr: nat, now: int): Move {
    Move(fromX, RR(pr), now)
  }

  predicate CanSend(self: Flow, window: nat, pr: nat) {
    && InRange(self.clientPs, self.peerPr, WindowEnd(self.peerPr, window))
    && InRange(pr, self.clientPr, self.peerPs)
  }

  predicate PeerTakes(self: Flow, window: nat) {
    InRange(self.clientPs, self.clientPr, WindowEnd(self.clientPr, window))
  }

  function Sent(self: Flow, pr: nat): Flow {
    self.(clientPs := (self.clientPs + 1) % SEQ_MAX, clientPr := pr)
  }

  function Taken(other: Flow, pr: nat, ps: nat): Flow {
    other.(peerPr := pr, peerPs := ps)
  }

  lemma PacketPlays<N>(e: Ends<N>, fromX: bool, x: Flow, y: Flow, pr: nat, now: int)
    requires Playable(e) && x.peerPr == y.clientPr && y.peerPr == x.clientPr
    requires var self, w := if fromX then x else y, e.x.facilities.window; CanSend(self, w, pr) && PeerTakes(self, w)
    ensures var mv := Packet(fromX, pr, if fromX then x.clientPs else y.clientPs, now);
            PlayAll(With(e, x, y), [mv])
            == Some(if fromX then With(e, Sent(x, pr), Taken(y, pr, x.clientPs))
                    else With(e, Taken(x, pr, y.clientPs), Sent(y, pr)))
  {
    hide InRange, WindowEnd, Handle;
    var e0 := With(e, x, y);
    var mv := Packet(fromX, pr, if fromX then x.clientPs else y.clientPs, now);
    OneByteFits(e.x.facilities.packet);
    hide PacketBytes;
    if fromX {
      DataOutcome(e0.x, e0.y, mv.message, now);
    } else {
      DataOutcome(e0.y, e0.x, mv.message, now);
    }
    PlayOne(e0, mv);
  }

  lemma OneByteFits(packet: nat)
    requires PacketOk(packet)
    ensures 1 < PacketBytes(packet)
  {
  }

  lemma ReadyPlays<N>(e: Ends<N>, fromX: bool, x: Flow, y: Flow, pr: nat, now: int)
    requires e.InData()
    requires fromX ==> InRange(pr, x.clientPr, x.peerPs) && InRange(pr, y.peerPr, y.clientPs)
    requires !fromX ==> InRange(pr, y.clientPr, y.peerPs) && InRange(pr, x.peerPr, x.clientPs)
    ensures PlayAll(With(e, x, y), [Ready(fromX, pr, now)])
         == Some(if fromX then With(e, x.(clientPr := pr), y.(peerPr := pr))
                 else With(e, x.(peerPr := pr), y.(clientPr := pr)))
  {
    hide InRange, Handle;
    var e0, mv := With(e, x, y), Ready(fromX, pr, now);
    if fromX {
      AckOutcome(e0.x, e0.y, mv.message, now);
    } else {
      AckOutcome(e0.y, e0.x, mv.message, now);
    }
    PlayOne(e0, mv);
  }

  /** Two known stretches, one after the other. */
  lemma Joined<N>(e: Ends<N>, a: seq<Move>, mid: Ends<N>, b: seq<Move>, end: Ends<N>)
    requires e.InData() && PlayAll(e, a) == Some(mid) && mid.InData() && PlayAll(mid, b) == Some(end)
    ensures PlayAll(e, a + b) == Some(end)
  {
    hide PlayAll;
    PlayConcat(e, a, b);
  }
}
