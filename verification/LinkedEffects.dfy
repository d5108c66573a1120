/** What every message and every expiry does to the fields of a channel and of its peer, state by
    state (application10/channel.c). The statements here speak of fields and plain numbers only;
    the handlers of `LinkedCell` meet them. */
module LinkedEffects {
  import opened Sequence
  import opened LinkedCell

  // What can happen to one channel

  /** Only the state and the timer change, and the timer is off. */
  predicate MovesTo<N(==)>(c: Cell<N>, c': Cell<N>, state: State) {
    && c'.state == state && c'.peer == c.peer && c'.flow == c.flow && c'.facilities == c.facilities
    && c'.timer == NoTimer && c'.count == 0
  }

  /** The channel is cleared: no link, and six seconds for its client to confirm. */
  predicate IsCleared<N>(c: Cell<N>, c': Cell<N>, now: int) {
    && c'.state == P7 && c'.peer == None && c'.flow == c.flow && c'.facilities == c.facilities
    && c'.timer == ClearIndication && c'.expires == now + 6 && c'.count == 0
  }

  /** A clear reaches a channel whose link is, or has just become, `link`. */
  predicate TakesClear<N(==)>(c: Cell<N>, c': Cell<N>, link: Option<N>, now: int) {
    match c.state
    case P7 => c' == c.(peer := link)
    case P6 => MovesTo(c.(peer := link), c', D1)
    case _ => IsCleared(c, c', now)
  }

  /** A reset reaches a channel. */
  predicate TakesReset<N(==)>(c: Cell<N>, c': Cell<N>, now: int) {
    match c.state
    case D1 =>
      && c'.state == D3 && c'.peer == c.peer && c'.flow == c.flow && c'.facilities == c.facilities
      && c'.timer == ResetIndication && c'.expires == now + 6 && c'.count == 0
    case D2 => StartsOver(c, c', c.facilities)
    case _ => c' == c
  }

  /** The channel is in the data phase with zero numbers. */
  predicate StartsOver<N(==)>(c: Cell<N>, c': Cell<N>, f: Facilities) {
    && c'.state == D1 && c'.peer == c.peer && c'.facilities == f
    && c'.flow.clientPs == 0 && c'.flow.clientPr == 0 && c'.flow.peerPs == 0 && c'.flow.peerPr == 0
    && c'.timer == NoTimer && c'.count == 0
  }

  /** A call request reaches a channel. */
  predicate TakesCall<N(==)>(c: Cell<N>, c': Cell<N>, f: Facilities, now: int) {
    match c.state
    case P1 =>
      && c'.state == P3 && c'.peer == c.peer && c'.flow == c.flow && c'.facilities == f
      && c'.timer == IncomingCall && c'.expires == now + 18 && c'.count == 0
    case P2 => MovesTo(c, c', P5)
    case _ => c' == c
  }

  predicate TakesAcceptance<N(==)>(c: Cell<N>, c': Cell<N>, f: Facilities) {
    if c.state == P2 || c.state == P5 then StartsOver(c, c', f) else c' == c
  }

  predicate TakesResetConfirmation<N(==)>(c: Cell<N>, c': Cell<N>) {
    if c.state == D2 then StartsOver(c, c', c.facilities) else c' == c
  }

  // Messages from the server

  /** Data reaches a channel: its assertions, in order, and then two numbers change. */
  predicate TakesData<N(==)>(c: Cell<N>, r: Outcome<Cell<N>>, pr: nat, ps: nat, size: nat) {
    if c.state != D1 then r == Done(c)
    else if c.facilities.packet < 4 || c.facilities.packet > 12 then r == Abort(PacketRange)
    else if size == 0 || size > Bytes(c.facilities.packet) then r == Abort(DataSize)
    else if !InRange(ps, c.flow.peerPr, WindowEnd(c.flow.peerPr, c.facilities.window)) then r == Abort(PeerWindow)
    else r == Done(c.(flow := Flow(c.flow.clientPs, c.flow.clientPr, ps, pr)))
  }

  predicate TakesAck<N(==)>(c: Cell<N>, r: Outcome<Cell<N>>, pr: nat) {
    if c.state != D1 then r == Done(c)
    else if !InRange(pr, c.flow.peerPr, c.flow.clientPs) then r == Abort(AckRange)
    else r == Done(c.(flow := Flow(c.flow.clientPs, c.flow.clientPr, c.flow.peerPs, pr)))
  }

  /** What a server message does. */
  predicate Takes<N(==)>(c: Cell<N>, r: Outcome<Cell<N>>, m: Message, now: int) {
    match m
    case ClearRequest => r.Done? && TakesClear(c, r.value, c.peer, now)
    case ResetRequest(_) => r.Done? && TakesReset(c, r.value, now)
    case CallRequest(f) => r.Done? && TakesCall(c, r.value, f, now)
    case CallAccepted(f) => r.Done? && TakesAcceptance(c, r.value, f)
    case ClearConfirmation => r.Done? && if c.state == P6 then MovesTo(c, r.value, D1) else r.value == c
    case ResetConfirmation => r.Done? && TakesResetConfirmation(c, r.value)
    case Data(pr, ps, size) => TakesData(c, r, pr, ps, size)
    case RR(pr) => TakesAck(c, r, pr)
    case RNR(pr) => TakesAck(c, r, pr)
  }

  lemma ReceiveEffect<N>(c: Cell<N>, m: Message, now: int)
    requires TimedOk(c)
    ensures Takes(c, Receive(c, m, now), m, now)
  {
    hide InRange, WindowEnd, PacketBytes, Bytes;
    if PacketOk(c.facilities.packet) {
      PacketBytesTable(c.facilities.packet);
    }
  }

  /** A clear reaches a peer whose link has just been cut. */
  lemma CutEffect<N>(c: Cell<N>, now: int)
    requires TimedOk(c)
    ensures TakesClear(c, Clear(c.(peer := None), now), None, now)
    ensures TakesClear(c, Clear(c, now), c.peer, now) && TakesReset(c, Reset(c, now), now)
  {
  }

  // Messages from the client

  /** The message reaches the peer, if there is one, and decides the outcome; this end becomes `x'`. */
  predicate Forwards<N(==)>(p: Pair<N>, r: Outcome<Pair<N>>, m: Message, now: int) {
    match p.y
    case None => r.Done? && r.value.y == None
    case Some(y) =>
      match r
      case Done(q) => q.y.Some? && Takes(y, Done(q.y.value), m, now)
      case Abort(k) => Takes(y, Abort(k), m, now)
  }

  /** Both ends are cleared, and the peer loses its link. */
  predicate BothCleared<N(==)>(p: Pair<N>, r: Outcome<Pair<N>>, now: int) {
    && r.Done? && TakesClear(p.x, r.value.x, p.x.peer, now)
    && (p.y.None? ==> r.value.y.None?)
    && (p.y.Some? ==> r.value.y.Some? && TakesClear(p.y.value, r.value.y.value, None, now))
  }

  predicate BothReset<N(==)>(p: Pair<N>, r: Outcome<Pair<N>>, now: int) {
    && r.Done? && TakesReset(p.x, r.value.x, now)
    && (p.y.None? ==> r.value.y.None?)
    && (p.y.Some? ==> r.value.y.Some? && TakesReset(p.y.value, r.value.y.value, now))
  }

  /** The client clears: this end waits with its link, and the peer is cleared. */
  predicate ClientClears<N(==)>(p: Pair<N>, r: Outcome<Pair<N>>, now: int) {
    r.Done? && MovesTo(p.x, r.value.x, P6) && Forwards(p, r, ClearRequest, now)
  }

  predicate ClientResets<N(==)>(p: Pair<N>, r: Outcome<Pair<N>>, cause: nat, now: int) {
    if cause == 0 || 128 <= cause <= 255 then
      r.Done? && MovesTo(p.x, r.value.x, D2) && Forwards(p, r, ResetRequest(cause), now)
    else BothReset(p, r, now)
  }

  predicate ClientCollides<N(==)>(p: Pair<N>, r: Outcome<Pair<N>>, f: Facilities, now: int) {
    if p.y.None? then r == Abort(PeerPresent)
    else r.Done? && MovesTo(p.x.(facilities := f), r.value.x, P5) && Forwards(p, r, CallRequest(f), now)
  }

  /** The window, the throughput and the packet size are looked at in this order, first the range
      of both values and then whether the new one lies between the old one and the protocol's. */
  predicate ClientAccepts<N(==)>(p: Pair<N>, r: Outcome<Pair<N>>, f: Facilities, now: int) {
    var g := p.x.facilities;
    if f.window > 8 || g.window > 8 then r == Abort(FacilityRange)
    else if !Between(f.window, g.window, 2) then BothCleared(p, r, now)
    else if !(3 <= f.throughput <= 44) || !(3 <= g.throughput <= 44) then r == Abort(FacilityRange)
    else if !Between(f.throughput, g.throughput, 10) then BothCleared(p, r, now)
    else if !(4 <= f.packet <= 12) || !(4 <= g.packet <= 12) then r == Abort(FacilityRange)
    else if !Between(f.packet, g.packet, 7) then BothCleared(p, r, now)
    else if p.y.None? then r == Abort(PeerPresent)
    else r.Done? && StartsOver(p.x, r.value.x, f) && Forwards(p, r, CallAccepted(f), now)
  }

  predicate ClientConfirmsReset<N(==)>(p: Pair<N>, r: Outcome<Pair<N>>, now: int) {
    r.Done? && StartsOver(p.x, r.value.x, p.x.facilities) && Forwards(p, r, ResetConfirmation, now)
  }

  predicate ClientSends<N(==)>(p: Pair<N>, r: Outcome<Pair<N>>, m: Message, now: int)
    requires m.Data?
  {
    var x, f := p.x, p.x.flow;
    if x.facilities.packet < 4 || x.facilities.packet > 12 then r == Abort(PacketRange)
    else if || m.size == 0 || m.size >= Bytes(x.facilities.packet) || m.ps != f.clientPs
            || !InRange(m.ps, f.peerPr, WindowEnd(f.peerPr, x.facilities.window))
            || !InRange(m.pr, f.clientPr, f.peerPs)
    then BothReset(p, r, now)
    else
      && (r.Done? ==> r.value.x == x.(flow := Flow((f.clientPs + 1) % 8, m.pr, f.peerPs, f.peerPr)))
      && Forwards(p, r, m, now)
  }

  predicate ClientAcknowledges<N(==)>(p: Pair<N>, r: Outcome<Pair<N>>, m: Message, now: int)
    requires m.RR? || m.RNR?
  {
    var x, f := p.x, p.x.flow;
    if !InRange(m.pr, f.clientPr, f.peerPs) then BothReset(p, r, now)
    else
      && (r.Done? ==> r.value.x == x.(flow := Flow(f.clientPs, m.pr, f.peerPs, f.peerPr)))
      && Forwards(p, r, m, now)
  }

  /** What a client message does, state by state. */
  predicate Effect<N(==)>(p: Pair<N>, r: Outcome<Pair<N>>, m: Message, now: int) {
    match p.x.state
    case P1 => if m.ClearRequest? then ClientClears(p, r, now) else BothCleared(p, r, now)
    case P2 => if m.ClearRequest? then ClientClears(p, r, now) else BothCleared(p, r, now)
    case P5 => if m.ClearRequest? then ClientClears(p, r, now) else BothCleared(p, r, now)
    case P3 =>
      if m.ClearRequest? then ClientClears(p, r, now)
      else if m.CallRequest? then ClientCollides(p, r, m.facilities, now)
      else if m.CallAccepted? then ClientAccepts(p, r, m.facilities, now)
      else BothCleared(p, r, now)
    case D1 =>
      if m.ClearRequest? then ClientClears(p, r, now)
      else if m.ResetRequest? then ClientResets(p, r, m.cause, now)
      else if m.Data? then ClientSends(p, r, m, now)
      else if m.RR? || m.RNR? then ClientAcknowledges(p, r, m, now)
      else BothReset(p, r, now)
    case D2 =>
      if m.ClearRequest? then ClientClears(p, r, now)
      else if m.ResetRequest? then r == Done(p)
      else BothReset(p, r, now)
    case D3 =>
      if m.ClearRequest? then ClientClears(p, r, now)
      else if m.ResetRequest? || m.ResetConfirmation? then ClientConfirmsReset(p, r, now)
      else r == Done(p)
    case P6 => if m.ClearRequest? then r == Done(p) else BothCleared(p, r, now)
    case P7 =>
      if m.ClearRequest? || m.ClearConfirmation? then
        r.Done? && MovesTo(p.x, r.value.x, P1) && r.value.y == p.y
      else r == Done(p)
  }

  lemma ForwardEffect<N>(p: Pair<N>, x: Cell<N>, m: Message, now: int)
    requires BothOk(p, TimedOk)
    ensures var r := Forward(x, p.y, m, now);
            Forwards(p, r, m, now) && (r.Done? ==> r.value.x == x)
  {
    hide Receive, Takes;
    if p.y.Some? {
      ReceiveEffect(p.y.value, m, now);
    }
  }

  lemma PunishEffect<N>(p: Pair<N>, now: int)
    requires BothOk(p, TimedOk)
    ensures BothCleared(p, Done(PunishClear(p, now)), now) && BothReset(p, Done(PunishReset(p, now)), now)
  {
    hide Clear, Reset, TakesClear, TakesReset, TimedOk;
    CutEffect(p.x, now);
    if p.y.Some? {
      CutEffect(p.y.value, now);
    }
  }

  /** A message whose forwarding cannot fail. */
  lemma TamelyForwarded<N>(p: Pair<N>, r: Outcome<Pair<N>>, m: Message, now: int)
    requires Forwards(p, r, m, now) && !m.Data? && !m.RR? && !m.RNR?
    ensures r.Done?
  {
  }

  lemma ClearEffect<N>(p: Pair<N>, now: int)
    requires BothOk(p, TimedOk)
    ensures var r := HandleClear(p, now); r.Done? && r.value.x == p.x.(state := P6) && Forwards(p, r, ClearRequest, now)
  {
    hide Forward, Forwards;
    ForwardEffect(p, p.x.(state := P6), ClearRequest, now);
    TamelyForwarded(p, HandleClear(p, now), ClearRequest, now);
  }

  /** Stopping a timer of this end changes nothing for the other. */
  lemma LeaveKeepsForwarding<N>(p: Pair<N>, q: Pair<N>, from: State, timer: Timer, m: Message, now: int)
    requires Forwards(p, Done(q), m, now)
    ensures Forwards(p, Done(LeaveTimed(q, from, timer)), m, now)
  {
  }

  lemma AcceptedEffect<N>(p: Pair<N>, f: Facilities, now: int)
    requires BothOk(p, TimedOk) && p.x.state == P3
    ensures Effect(p, Handle(p, CallAccepted(f), now), CallAccepted(f), now)
  {
    hide Forward, Forwards, PunishClear, Clear;
    PunishEffect(p, now);
    var x := ResetFlow(p.x).(facilities := f);
    ForwardEffect(p, x, CallAccepted(f), now);
    TamelyForwarded(p, Forward(x, p.y, CallAccepted(f), now), CallAccepted(f), now);
    LeaveKeepsForwarding(p, Forward(x, p.y, CallAccepted(f), now).value, P3, IncomingCall, CallAccepted(f), now);
  }

  lemma InP3Effect<N>(p: Pair<N>, m: Message, now: int)
    requires BothOk(p, TimedOk) && p.x.state == P3
    ensures Effect(p, Handle(p, m, now), m, now)
  {
    hide Forward, Forwards, PunishClear;
    if m.CallAccepted? {
      AcceptedEffect(p, m.facilities, now);
    } else if m.ClearRequest? {
      ClearEffect(p, now);
      LeaveKeepsForwarding(p, HandleClear(p, now).value, P3, IncomingCall, m, now);
    } else if m.CallRequest? {
      var x := p.x.(state := P5, facilities := m.facilities);
      ForwardEffect(p, x, m, now);
      TamelyForwarded(p, Forward(x, p.y, m, now), m, now);
      LeaveKeepsForwarding(p, Forward(x, p.y, m, now).value, P3, IncomingCall, m, now);
    } else {
      PunishEffect(p, now);
    }
  }

  lemma InD1Effect<N>(p: Pair<N>, m: Message, now: int)
    requires BothOk(p, TimedOk) && p.x.state == D1
    ensures Effect(p, Handle(p, m, now), m, now)
  {
    hide Forward, Forwards, PunishReset, InRange, WindowEnd, PacketBytes, Bytes;
    PunishEffect(p, now);
    if m.ClearRequest? {
      ClearEffect(p, now);
    } else if m.ResetRequest? {
      ForwardEffect(p, p.x.(state := D2), m, now);
      TamelyForwarded(p, Forward(p.x.(state := D2), p.y, m, now), m, now);
    } else if m.Data? {
      if PacketOk(p.x.facilities.packet) {
        PacketBytesTable(p.x.facilities.packet);
      }
      var flow := p.x.flow.(clientPs := (p.x.flow.clientPs + 1) % SEQ_MAX, clientPr := m.pr);
      ForwardEffect(p, p.x.(flow := flow), m, now);
    } else if m.RR? || m.RNR? {
      ForwardEffect(p, p.x.(flow := p.x.flow.(clientPr := m.pr)), m, now);
    }
  }

  lemma InD3Effect<N>(p: Pair<N>, m: Message, now: int)
    requires BothOk(p, TimedOk) && p.x.state == D3
    ensures Effect(p, Handle(p, m, now), m, now)
  {
    hide Forward, Forwards;
    if m.ClearRequest? {
      ClearEffect(p, now);
      LeaveKeepsForwarding(p, HandleClear(p, now).value, D3, ResetIndication, m, now);
    } else if m.ResetRequest? || m.ResetConfirmation? {
      ForwardEffect(p, ResetFlow(p.x), ResetConfirmation, now);
      TamelyForwarded(p, Forward(ResetFlow(p.x), p.y, ResetConfirmation, now), ResetConfirmation, now);
      LeaveKeepsForwarding(p, Forward(ResetFlow(p.x), p.y, ResetConfirmation, now).value, D3, ResetIndication,
                           ResetConfirmation, now);
    }
  }

  /** Every message of a client, in every state, does to both ends what the table says. */
  lemma ClientMessageEffect<N>(p: Pair<N>, m: Message, now: int)
    requires BothOk(p, TimedOk) && !(p.x.state == P1 && m.CallRequest?)
    ensures Effect(p, Handle(p, m, now), m, now)
  {
    hide Forward, Forwards, PunishClear, PunishReset;
    if p.x.state == P3 {
      InP3Effect(p, m, now);
    } else if p.x.state == D1 {
      InD1Effect(p, m, now);
    } else if p.x.state == D3 {
      InD3Effect(p, m, now);
    } else if m.ClearRequest? {
      ClearEffect(p, now);
    } else {
      PunishEffect(p, now);
    }
  }

  /** In particular a client that clears, in whatever state but P6 and P7, waits in P6 with its link,
      and a peer not in P6 or P7 is cleared, loses its link and has six seconds to confirm. */
  lemma ClientClearReachesPeer<N>(p: Pair<N>, now: int)
    requires BothOk(p, TimedOk) && p.x.state !in {P6, P7}
    ensures var r := Handle(p, ClearRequest, now);
            && r.Done? && r.value.x.state == P6 && r.value.x.peer == p.x.peer && r.value.x.timer == NoTimer
            && (p.y.Some? && p.y.value.state !in {P6, P7} ==>
                  && r.value.y.Some?
                  && var y := r.value.y.value;
                     && y.state == P7 && y.peer == None && y.timer == ClearIndication
                     && y.expires == now + 6 && y.count == 0)
  {
    hide Handle;
    ClientMessageEffect(p, ClearRequest, now);
  }

  // Timers, restarts and new calls

  /** What an expiry does, by timer and by how many there were before. */
  predicate ExpiryEffect<N(==)>(p: Pair<N>, r: Outcome<Pair<N>>, now: int) {
    match p.x.timer
    case NoTimer => true
    case IncomingCall => BothCleared(p, r, now)
    case ResetIndication =>
      if p.x.count == 0 then
        && r.Done? && r.value.x == p.x.(count := 1)
        && (p.y.None? ==> r.value.y.None?)
        && (p.y.Some? ==> r.value.y.Some? && TakesReset(p.y.value, r.value.y.value, now))
      else BothCleared(p, r, now)
    case ClearIndication =>
      if p.x.count == 0 then r == Done(Pair(p.x.(count := 1), None))
      else r.Done? && MovesTo(p.x, r.value.x, P1) && r.value.y.None?
  }

  /** The first reset expiry keeps the call and tells the other end; only the second clears. */
  lemma ExpireEffect<N>(p: Pair<N>, now: int)
    requires BothOk(p, TimedOk) && p.x.timer != NoTimer && (p.x.peer.None? ==> p.y.None?)
    ensures ExpiryEffect(p, Expire(p, now), now)
  {
    if p.y.Some? {
      CutEffect(p.y.value, now);
    }
    hide TakesClear, TakesReset;
    CutEffect(p.x, now);
    ExpiredSelf(p.x, now);
    hide Clear, Reset;
  }

  lemma ExpiredSelf<N>(c: Cell<N>, now: int)
    requires TimedOk(c) && c.timer != NoTimer
    ensures c.timer == IncomingCall ==> TakesClear(c, Clear(StopTimer(c.(count := 1)), now), c.peer, now)
    ensures c.timer == ResetIndication ==> TakesClear(c, Clear(c.(count := 2), now), c.peer, now)
    ensures c.timer == ResetIndication ==> Reset(c.(count := 1), now) == c.(count := 1)
    ensures c.timer == ClearIndication ==> Clear(c.(count := 1), now) == c.(count := 1)
  {
  }

  /** Nothing happens before the expiry time. */
  lemma CheckEffect<N>(p: Pair<N>, now: int)
    requires BothOk(p, TimedOk) && (p.x.peer.None? ==> p.y.None?)
    ensures var r := CheckTimer(p, now);
            if p.x.timer == NoTimer || now < p.x.expires then r == Done(p) else ExpiryEffect(p, r, now)
  {
    hide Expire;
    if p.x.timer != NoTimer {
      ExpireEffect(p, now);
    }
  }

  /** A restart idles and unlinks this end, and clears and unlinks the other. */
  lemma RestartEffect<N>(p: Pair<N>, now: int)
    requires BothOk(p, TimedOk)
    ensures var q := Restart(p, now);
            && MovesTo(p.x.(peer := None), q.x, P1)
            && (p.y.None? ==> q.y.None?)
            && (p.y.Some? ==> q.y.Some? && TakesClear(p.y.value, q.y.value, None, now))
  {
    if p.y.Some? {
      CutEffect(p.y.value, now);
    }
    hide Clear, TakesClear;
  }

  /** A call that is placed links two channels, and gives the called client eighteen seconds. */
  lemma ConnectEffect<N>(x: Cell<N>, nameX: N, nameY: N, f: Facilities, now: int)
    requires TimedOk(x) && x.state == P1
    ensures var r := Connect(x, nameX, Fresh(), nameY, f, now);
            && r.Done? && r.value.y.Some?
            && MovesTo(x.(peer := Some(nameY), facilities := f), r.value.x, P2)
            && r.value.y.value == Cell(P3, Some(nameX), Flow(0, 0, 0, 0), f, IncomingCall, now + 18, 0)
  {
  }
}
