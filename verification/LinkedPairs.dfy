/** Runs in which clients do not clear calls on their own: a CLEAR_REQUEST from a client only
    answers a clear indication. In these runs `peer` links channels in pairs. */
module LinkedPairs {
  import opened Sequence
  import opened LinkedCell
  import opened LinkedNet

  /** The states two linked channels can be in. */
  predicate PairStates(a: State, b: State) {
    || (a == P2 && b == P3) || (a == P3 && b == P2)
    || (a == P5 && b == P5)
    || (a == D1 && b == D1)
    || (a == D3 && b in {D1, D2, D3}) || (b == D3 && a in {D1, D2, D3})
  }

  /** Negotiated facilities lie between what the caller requested and the protocol's value. */
  predicate Negotiated(f: Facilities, asked: Facilities) {
    && Between(f.window, asked.window, WINDOW_NEGOTIATE)
    && Between(f.throughput, asked.throughput, TPUT_NEGOTIATE)
    && Between(f.packet, asked.packet, PACKET_NEGOTIATE)
  }

  predicate Mates<N(==)>(x: Cell<N>, y: Cell<N>, nameX: N, nameY: N, asked: Facilities) {
    && x.peer == Some(nameY) && y.peer == Some(nameX)
    && PairStates(x.state, y.state)
    && FacilitiesOk(asked)
    && (x.state in {P2, P3} ==> x.facilities == y.facilities == asked)
    && (x.state in {D1, D2, D3} ==> x.facilities == y.facilities && Negotiated(x.facilities, asked))
  }

  predicate Idle<N>(c: Cell<N>) {
    c.state in {P1, P7} && c.peer.None?
  }

  predicate StillPaired<N(==)>(q: Pair<N>, nameX: N, nameY: N, asked: Facilities) {
    q.y.Some? && (Mates(q.x, q.y.value, nameX, nameY, asked) || (Idle(q.x) && Idle(q.y.value)))
  }

  lemma PunishPaired<N>(p: Pair<N>, now: int, nameX: N, nameY: N, asked: Facilities)
    requires p.y.Some? && Mates(p.x, p.y.value, nameX, nameY, asked)
    ensures StillPaired(PunishClear(p, now), nameX, nameY, asked)
    ensures StillPaired(PunishReset(p, now), nameX, nameY, asked)
  {
  }

  /** A message on a linked channel leaves the pair linked in one of the allowed ways, or unlinks
      both ends. The only assertions it can fail are those on the range of a facility or of an
      acknowledgement, and on the other direction's window: the size checks always pass. */
  lemma HandlePaired<N>(p: Pair<N>, m: Message, now: int, nameX: N, nameY: N, asked: Facilities)
    requires p.y.Some? && Mates(p.x, p.y.value, nameX, nameY, asked) && !m.ClearRequest?
    ensures var r := Handle(p, m, now);
            && (r.Done? ==> StillPaired(r.value, nameX, nameY, asked))
            && (r.Abort? ==> r.check in {FacilityRange, AckRange, PeerWindow})
  {
    PunishPaired(p, now, nameX, nameY, asked);
    hide InRange;
    hide WindowEnd;
    if p.x.state == D1 {
      HandleD1Paired(p, m, now, nameX, nameY, asked);
    }
  }

  lemma HandleD1Paired<N>(p: Pair<N>, m: Message, now: int, nameX: N, nameY: N, asked: Facilities)
    requires p.y.Some? && Mates(p.x, p.y.value, nameX, nameY, asked) && !m.ClearRequest? && p.x.state == D1
    ensures var r := Handle(p, m, now);
            && (r.Done? ==> StillPaired(r.value, nameX, nameY, asked))
            && (r.Abort? ==> r.check in {FacilityRange, AckRange, PeerWindow})
  {
    PunishPaired(p, now, nameX, nameY, asked);
    hide InRange;
    hide WindowEnd;
    hide PunishReset;
  }

  lemma ExpirePaired<N>(p: Pair<N>, now: int, nameX: N, nameY: N, asked: Facilities)
    requires p.y.Some? && Mates(p.x, p.y.value, nameX, nameY, asked) && p.x.timer != NoTimer && TimedOk(p.x)
    ensures var r := Expire(p, now); r.Done? && StillPaired(r.value, nameX, nameY, asked)
  {
    PunishPaired(p, now, nameX, nameY, asked);
  }

  // The whole switch

  predicate Mated<N(==), C>(n: Net<N, C>, x: N)
    requires x in n.cells
  {
    && n.cells[x].peer.Some?
    && var y := n.cells[x].peer.value;
       && y in n.cells && y != x
       && x in n.asked && y in n.asked && n.asked[x] == n.asked[y]
       && Mates(n.cells[x], n.cells[y], x, y, n.asked[x])
       && Live(n, x)
  }

  /** `peer` is an involution without fixed points on linked channels, linked channels are in
      matching states, and every linked channel is still in its client's table. */
  predicate Paired<N(==), C>(n: Net<N, C>) {
    NetOk(n) && forall x :: x in n.cells ==> Idle(n.cells[x]) || Mated(n, x)
  }

  /** The client's message is not a clear request, or it answers a clear indication. */
  predicate NotAClear<N, C>(n: Net<N, C>, e: Event<N, C>) {
    e.FromClient? && e.message.ClearRequest? ==> e.x in n.cells && n.cells[e.x].state == P7
  }

  lemma MatesSymmetric<N>(x: Cell<N>, y: Cell<N>, nameX: N, nameY: N, asked: Facilities)
    requires Mates(x, y, nameX, nameY, asked)
    ensures Mates(y, x, nameY, nameX, asked)
  {
  }

  /** A pair that a step does not touch stays a pair. */
  lemma UntouchedMated<N, C>(n: Net<N, C>, n': Net<N, C>, z: N)
    requires z in n.cells && Mated(n, z) && z in n'.cells
    requires n'.cells[z] == n.cells[z]
    requires var w := n.cells[z].peer.value;
             w in n'.cells && n'.cells[w] == n.cells[w] && w in n'.asked && n'.asked[w] == n.asked[w]
    requires z in n'.asked && n'.asked[z] == n.asked[z] && Live(n', z)
    ensures Mated(n', z)
  {
  }

  lemma PutPaired<N, C>(n: Net<N, C>, x: N, q: Pair<N>)
    requires Paired(n) && x in n.cells
    requires Idle(n.cells[x]) ==> Idle(q.x) && q.y.None?
    requires !Idle(n.cells[x]) ==> StillPaired(q, x, n.cells[x].peer.value, n.asked[x])
    requires NetOk(n.(cells := Put(n.cells, x, q)))
    ensures Paired(n.(cells := Put(n.cells, x, q)))
  {
    var n' := n.(cells := Put(n.cells, x, q));
    var linked := !Idle(n.cells[x]);
    assert linked ==> Mated(n, x);
    assert forall z :: Live(n', z) == Live(n, z);
    hide Mates;
    forall z | z in n'.cells
      ensures Idle(n'.cells[z]) || Mated(n', z)
    {
      PutPairedAt(n, x, q, z);
    }
  }

  lemma PutPairedAt<N, C>(n: Net<N, C>, x: N, q: Pair<N>, z: N)
    requires Closed(n.cells) && x in n.cells && z in n.cells
    requires Idle(n.cells[x]) || Mated(n, x)
    requires Idle(n.cells[z]) || Mated(n, z)
    requires Idle(n.cells[x]) ==> Idle(q.x) && q.y.None?
    requires !Idle(n.cells[x]) ==> StillPaired(q, x, n.cells[x].peer.value, n.asked[x])
    ensures var n' := n.(cells := Put(n.cells, x, q)); Idle(n'.cells[z]) || Mated(n', z)
  {
    var n' := n.(cells := Put(n.cells, x, q));
    assert Live(n', z) == Live(n, z);
    if Idle(n.cells[x]) {
      if z != x && !Idle(n.cells[z]) {
        assert n.cells[z].peer.value != x;
        UntouchedMated(n, n', z);
      }
    } else {
      var y := n.cells[x].peer.value;
      if z == x || z == y {
        if Mates(q.x, q.y.value, x, y, n.asked[x]) {
          MatesSymmetric(q.x, q.y.value, x, y, n.asked[x]);
        }
      } else if !Idle(n.cells[z]) {
        UntouchedMated(n, n', z);
      }
    }
  }

  lemma AddPaired<N, C>(n: Net<N, C>, c: C, lcn: nat, y: N)
    requires Paired(n) && c in n.tables && lcn !in n.tables[c] && y !in n.cells && 1 <= lcn <= MAX_LCN
    ensures Paired(Add(n, c, lcn, y))
  {
    AddKeeps(n, c, lcn, y);
    var n' := Add(n, c, lcn, y);
    forall z | z in n'.cells
      ensures Idle(n'.cells[z]) || Mated(n', z)
    {
      if z != y && !Idle(n.cells[z]) {
        assert Mated(n, z);
        assert Live(n', z);
      }
    }
  }

  lemma ConnectMates<N>(x: Cell<N>, nameX: N, nameY: N, f: Facilities, now: int)
    requires FacilitiesOk(f)
    ensures var r := Connect(x, nameX, Fresh(), nameY, f, now);
            r.Done? && r.value.y.Some? && Mates(r.value.x, r.value.y.value, nameX, nameY, f)
  {
  }

  /** Linking two idle channels leaves all other pairs as they were. */
  lemma LinkPaired<N, C>(n: Net<N, C>, x: N, y: N, q: Pair<N>, f: Facilities, z: N)
    requires x in n.cells && y in n.cells && x != y && Idle(n.cells[x]) && Idle(n.cells[y])
    requires Live(n, x) && Live(n, y)
    requires q.y.Some? && Mates(q.x, q.y.value, x, y, f)
    requires z in n.cells && (Idle(n.cells[z]) || Mated(n, z))
    ensures var n' := n.(cells := n.cells[x := q.x][y := q.y.value], asked := n.asked[x := f][y := f]);
            Idle(n'.cells[z]) || Mated(n', z)
  {
    var n' := n.(cells := n.cells[x := q.x][y := q.y.value], asked := n.asked[x := f][y := f]);
    assert Live(n', z) == Live(n, z);
    MatesSymmetric(q.x, q.y.value, x, y, f);
    if z != x && z != y && !Idle(n.cells[z]) {
      PeerOfMate(n, z);
      UntouchedMated(n, n', z);
    }
  }

  lemma PlaceCallPaired<N, C>(n: Net<N, C>, e: Event<N, C>)
    requires Paired(n) && Enabled(n, e) && e.PlaceCall?
    ensures Step(n, e).Done? && Paired(Step(n, e).value)
  {
    var x, y := e.x, e.added;
    StepKeepsNetOk(n, e);
    AddPaired(n, e.callee, e.lcn, y);
    ConnectMates(n.cells[x], x, y, e.facilities, e.now);
    hide Connect;
    hide Mates;
    hide NetOk;
    var n1 := Add(n, e.callee, e.lcn, y);
    var q := Connect(n1.cells[x], x, n1.cells[y], y, e.facilities, e.now).value;
    LiveAdded(n, e.callee, e.lcn, y, x);
    forall z | z in n1.cells
      ensures Idle(Step(n, e).value.cells[z]) || Mated(Step(n, e).value, z)
    {
      assert Idle(n1.cells[z]) || Mated(n1, z);
      hide Mated;
      LinkPaired(n1, x, y, q, e.facilities, z);
    }
  }

  lemma LiveAdded<N, C>(n: Net<N, C>, c: C, lcn: nat, y: N, x: N)
    requires c in n.tables && lcn !in n.tables[c] && y !in n.cells && Live(n, x)
    ensures Live(Add(n, c, lcn, y), x) && Live(Add(n, c, lcn, y), y)
  {
  }

  lemma PeerOfMate<N, C>(n: Net<N, C>, z: N)
    requires z in n.cells && Mated(n, z)
    ensures n.cells[n.cells[z].peer.value].peer == Some(z)
  {
  }

  lemma RestartIdles<N>(p: Pair<N>, now: int)
    requires p.y.Some? ==> p.y.value.state != P6
    ensures var q := Restart(p, now);
            && Shrinks(p, q) && Idle(q.x)
            && (q.y.Some? ==> q.y.value.state == P7 && q.y.value.peer.None?)
  {
  }

  lemma RestartOneIdles<N>(cells: Cells<N>, x: N, q: Pair<N>)
    requires x in cells && Idle(q.x) && (q.y.Some? ==> Idle(q.y.value))
    ensures Idle(Put(cells, x, q)[x])
    ensures forall z :: z in cells && Idle(cells[z]) ==> Idle(Put(cells, x, q)[z])
  {
  }

  lemma RestartOnePaired<N, C>(n: Net<N, C>, x: N, now: int)
    requires Paired(n) && x in n.cells
    ensures var n' := n.(cells := Put(n.cells, x, Restart(At(n.cells, x), now)));
            && Paired(n') && Idle(n'.cells[x])
            && forall z :: z in n.cells && Idle(n.cells[z]) ==> Idle(n'.cells[z])
  {
    var p := At(n.cells, x);
    var q := Restart(p, now);
    assert Idle(n.cells[x]) || Mated(n, x);
    RestartKeeps(p, now);
    RestartIdles(p, now);
    hide Restart;
    hide TablesOk;
    PutShrunk(n.cells, x, q);
    RestartOneIdles(n.cells, x, q);
    assert Idle(n.cells[x]) ==> q.y.None?;
    assert !Idle(n.cells[x]) ==> StillPaired(q, x, n.cells[x].peer.value, n.asked[x]);
    var cells := Put(n.cells, x, q);
    hide Put;
    hide TimedOk;
    hide Mated;
    NewCellsOk(n, cells);
    hide NetOk;
    PutPaired(n, x, q);
  }

  /** After the channels of `order` are restarted, each of them is idle, and every other channel
      is idle or linked to a channel outside `order`. */
  lemma {:induction false} RestartAllPaired<N, C>(n: Net<N, C>, order: seq<N>, now: int)
    requires Paired(n) && forall x :: x in order ==> x in n.cells
    ensures var n' := n.(cells := RestartAll(n.cells, order, now));
            && Paired(n')
            && forall x :: x in order ==> Idle(n'.cells[x])
  {
    if order != [] {
      var k := |order| - 1;
      var before := n.(cells := RestartAll(n.cells, order[..k], now));
      RestartAllPaired(n, order[..k], now);
      RestartOnePaired(before, order[k], now);
      assert forall z :: z in order ==> z == order[k] || z in order[..k];
      hide Paired;
    }
  }

  lemma RestartPaired<N, C>(n: Net<N, C>, e: Event<N, C>)
    requires Paired(n) && Enabled(n, e) && e.RestartClient?
    ensures Step(n, e).Done? && Paired(Step(n, e).value)
  {
    hide RestartAll, NetOk, Mated, Idle;
    RestartAllPaired(n, e.order, e.now);
    StepKeepsNetOk(n, e);
    var n1, n' := n.(cells := RestartAll(n.cells, e.order, e.now)), Step(n, e).value;
    forall z | z in n'.cells
      ensures Idle(n'.cells[z]) || Mated(n', z)
    {
      if !Idle(n1.cells[z]) {
        assert z !in e.order;
        assert z !in n.tables[e.client].Values;
        SurvivesRestart(n1, e.client, z);
      }
    }
  }

  lemma SurvivesRestart<N, C>(n: Net<N, C>, c: C, z: N)
    requires z in n.cells && Mated(n, z) && c in n.tables && z !in n.tables[c].Values
    ensures Mated(n.(tables := n.tables[c := map[]]), z)
  {
    hide Mates;
    assert n.homes[z].client != c;
  }

  /** Every step without a client-originated clear keeps channels paired. */
  lemma StepKeepsPaired<N, C>(n: Net<N, C>, e: Event<N, C>)
    requires Paired(n) && Enabled(n, e) && NotAClear(n, e)
    ensures Step(n, e).Done? ==> Paired(Step(n, e).value)
    ensures Step(n, e).Abort? ==> Step(n, e).check in {FacilityRange, AckRange, PeerWindow}
  {
    hide Handle;
    hide Expire;
    StepKeepsNetOk(n, e);
    match e
    case FromClient(x, m, now) =>
      var p := At(n.cells, x);
      if Idle(n.cells[x]) {
        IdleHandled(p, m, now);
      } else {
        assert Mated(n, x);
        HandlePaired(p, m, now, x, n.cells[x].peer.value, n.asked[x]);
      }
      if Handle(p, m, now).Done? {
        PutPaired(n, x, Handle(p, m, now).value);
      }
    case OpenChannel(c, lcn, y) => AddPaired(n, c, lcn, y);
    case PlaceCall(_, _, _, _, _, _) => PlaceCallPaired(n, e);
    case RefuseCall(x, now) => PutPaired(n, x, PunishClear(At(n.cells, x), now));
    case RestartClient(_, _, _) => RestartPaired(n, e);
    case TimerExpiry(x, now) =>
      var p := At(n.cells, x);
      if Idle(n.cells[x]) {
        IdleExpired(p, now);
      } else {
        assert Mated(n, x);
        ExpirePaired(p, now, x, n.cells[x].peer.value, n.asked[x]);
      }
      PutPaired(n, x, Expire(p, now).value);
  }

  lemma IdleHandled<N>(p: Pair<N>, m: Message, now: int)
    requires Idle(p.x) && p.y.None? && (m.ClearRequest? ==> p.x.state == P7) && !(p.x.state == P1 && m.CallRequest?)
    ensures var r := Handle(p, m, now); r.Done? && Idle(r.value.x) && r.value.y.None?
  {
  }

  lemma IdleExpired<N>(p: Pair<N>, now: int)
    requires Idle(p.x) && p.y.None? && TimedOk(p.x) && p.x.timer != NoTimer
    ensures var r := Expire(p, now); r.Done? && Idle(r.value.x) && r.value.y.None?
  {
  }

  predicate RunWithoutClears<N, C>(ns: seq<Net<N, C>>, es: seq<Event<N, C>>) {
    IsRun(ns, es) && forall i :: 0 <= i < |es| ==> NotAClear(ns[i], es[i])
  }

  /** In every such run: `peer` is a fixed-point-free involution on linked channels; linked
      states are (P2,P3), (P5,P5), (D1,D1), (D1,D3), (D2,D3) and (D3,D3) up to order; linked
      channels are in their clients' tables, so no channel points at a removed one; both ends
      of a data-phase pair agree on facilities between the caller's request and the protocol's
      values. */
  lemma {:induction false} RunsStayPaired<N, C>(ns: seq<Net<N, C>>, es: seq<Event<N, C>>, i: nat)
    requires RunWithoutClears(ns, es) && i < |ns|
    ensures Paired(ns[i])
  {
    if i > 0 {
      RunsStayPaired(ns, es, i - 1);
      assert NotAClear(ns[i - 1], es[i - 1]);
      assert StepsTo(ns[i - 1], es[i - 1], ns[i]);
      StepKeepsPaired(ns[i - 1], es[i - 1]);
    }
  }
}
