/** The linked-pair channel (application10/channel.c) as functions on channel values.

    Every handler touches one channel and at most its peer, so a handler is a function on a
    `Pair`. A `g_assert` that fails ends the server: such a step is an `Abort`. */
module LinkedCell {
  import opened Sequence

  datatype State = P1 | P2 | P3 | P5 | P6 | P7 | D1 | D2 | D3

  datatype Timer = NoTimer | IncomingCall | ResetIndication | ClearIndication

  const INCOMING_CALL_SECONDS: int := 18
  const RESET_INDICATION_SECONDS: int := 6
  const CLEAR_INDICATION_SECONDS: int := 6

  datatype Facilities = Facilities(window: nat, throughput: nat, packet: nat)

  datatype Flow = Flow(clientPs: nat, clientPr: nat, peerPs: nat, peerPr: nat)

  const ZERO_FLOW := Flow(0, 0, 0, 0)

  /** A message for a channel, from its client or from the server. Only the parts that decide
      what happens are kept. */
  datatype Message =
    | CallRequest(facilities: Facilities)
    | CallAccepted(facilities: Facilities)
    | ClearRequest
    | ClearConfirmation
    | ResetRequest(cause: nat)
    | ResetConfirmation
    | Data(pr: nat, ps: nat, size: nat)
    | RR(pr: nat)
    | RNR(pr: nat)

  /** The value of a channel. `peer` names another channel; what a name is does not matter here. */
  datatype Cell<N> = Cell(state: State, peer: Option<N>, flow: Flow, facilities: Facilities,
                          timer: Timer, expires: int, count: nat)

  datatype Option<T> = None | Some(value: T)

  /** The assertions of the source, by what they check. */
  datatype Check = FacilityRange | PeerPresent | PacketRange | AckRange | DataSize | PeerWindow | TimerCount

  datatype Outcome<T> = Done(value: T) | Abort(check: Check)
  {
    predicate IsFailure() {
      Abort?
    }

    function PropagateFailure<U>(): Outcome<U>
      requires Abort?
    {
      Abort(check)
    }

    function Extract(): T
      requires Done?
    {
      value
    }
  }

  /** A channel and, if it has one, its peer. */
  datatype Pair<N> = Pair(x: Cell<N>, y: Option<Cell<N>>)

  function Fresh<N>(): Cell<N> {
    Cell(P1, None, ZERO_FLOW, Facilities(0, 0, 0), NoTimer, 0, 0)
  }

  function StopTimer<N>(c: Cell<N>): Cell<N> {
    c.(timer := NoTimer, expires := 0, count := 0)
  }

  function StartTimer<N>(c: Cell<N>, timer: Timer, expires: int): Cell<N> {
    c.(timer := timer, expires := expires, count := if c.timer == timer then c.count else 0)
  }

  function ResetFlow<N>(c: Cell<N>): Cell<N> {
    c.(flow := ZERO_FLOW, state := D1)
  }

  predicate FacilitiesOk(f: Facilities) {
    SeqOk(f.window) && TputOk(f.throughput) && PacketOk(f.packet)
  }

  // Messages from the server, or from the peer through the server

  function Clear<N>(c: Cell<N>, now: int): Cell<N> {
    match c.state
    case P7 => c
    case P6 => c.(state := D1)
    case _ => StartTimer(c.(state := P7, peer := None), ClearIndication, now + CLEAR_INDICATION_SECONDS)
  }

  function Reset<N>(c: Cell<N>, now: int): Cell<N> {
    match c.state
    case D1 => StartTimer(c.(state := D3), ResetIndication, now + RESET_INDICATION_SECONDS)
    case D2 => ResetFlow(c)
    case _ => c
  }

  function ReceiveData<N>(c: Cell<N>, pr: nat, ps: nat, size: nat): Outcome<Cell<N>> {
    if !PacketOk(c.facilities.packet) then Abort(PacketRange)
    else if size > PacketBytes(c.facilities.packet) || size == 0 then Abort(DataSize)
    else if !InRange(ps, c.flow.peerPr, WindowEnd(c.flow.peerPr, c.facilities.window)) then Abort(PeerWindow)
    else Done(c.(flow := c.flow.(peerPr := pr, peerPs := ps)))
  }

  function ReceiveAck<N>(c: Cell<N>, pr: nat): Outcome<Cell<N>> {
    if !InRange(pr, c.flow.peerPr, c.flow.clientPs) then Abort(AckRange)
    else Done(c.(flow := c.flow.(peerPr := pr)))
  }

  /** jz_channel_process_server_message, by message. */
  function Receive<N>(c: Cell<N>, m: Message, now: int): Outcome<Cell<N>> {
    match m
    case ClearRequest => Done(Clear(c, now))
    case ResetRequest(_) => Done(Reset(c, now))
    case CallRequest(f) =>
      if c.state == P1 then
        Done(StartTimer(c.(state := P3, facilities := f), IncomingCall, now + INCOMING_CALL_SECONDS))
      else if c.state == P2 then Done(c.(state := P5))
      else Done(c)
    case CallAccepted(f) =>
      if c.state in {P2, P5} then Done(ResetFlow(c).(facilities := f)) else Done(c)
    case ClearConfirmation =>
      if c.state == P6 then Done(c.(state := D1)) else Done(c)
    case ResetConfirmation =>
      if c.state == D2 then Done(ResetFlow(c)) else Done(c)
    case Data(pr, ps, size) =>
      if c.state == D1 then ReceiveData(c, pr, ps, size) else Done(c)
    case RR(pr) =>
      if c.state == D1 then ReceiveAck(c, pr) else Done(c)
    case RNR(pr) =>
      if c.state == D1 then ReceiveAck(c, pr) else Done(c)
  }

  // Messages from the client

  /** Deliver a message to the peer, if there is one. */
  function Forward<N>(x: Cell<N>, y: Option<Cell<N>>, m: Message, now: int): Outcome<Pair<N>> {
    match y
    case None => Done(Pair(x, None))
    case Some(c) =>
      var c' :- Receive(c, m, now);
      Done(Pair(x, Some(c')))
  }

  function PunishClear<N>(p: Pair<N>, now: int): Pair<N> {
    Pair(Clear(p.x, now), if p.y.Some? then Some(Clear(p.y.value.(peer := None), now)) else None)
  }

  function PunishReset<N>(p: Pair<N>, now: int): Pair<N> {
    Pair(Reset(p.x, now), if p.y.Some? then Some(Reset(p.y.value, now)) else None)
  }

  function HandleAccepted<N>(p: Pair<N>, f: Facilities, now: int): Outcome<Pair<N>> {
    var g := p.x.facilities;
    if !SeqOk(f.window) || !SeqOk(g.window) then Abort(FacilityRange)
    else if !Negotiable(f.window, g.window, WINDOW_NEGOTIATE) then Done(PunishClear(p, now))
    else if !TputOk(f.throughput) || !TputOk(g.throughput) then Abort(FacilityRange)
    else if !Negotiable(f.throughput, g.throughput, TPUT_NEGOTIATE) then Done(PunishClear(p, now))
    else if !PacketOk(f.packet) || !PacketOk(g.packet) then Abort(FacilityRange)
    else if !Negotiable(f.packet, g.packet, PACKET_NEGOTIATE) then Done(PunishClear(p, now))
    else if p.y.None? then Abort(PeerPresent)
    else Forward(ResetFlow(p.x).(facilities := f), p.y, CallAccepted(f), now)
  }

  function HandleCollision<N>(p: Pair<N>, f: Facilities, now: int): Outcome<Pair<N>> {
    if p.y.None? then Abort(PeerPresent)
    else Forward(p.x.(state := P5, facilities := f), p.y, CallRequest(f), now)
  }

  function HandleClear<N>(p: Pair<N>, now: int): Outcome<Pair<N>> {
    Forward(p.x.(state := P6), p.y, ClearRequest, now)
  }

  predicate ClientOriginated(cause: nat) {
    cause == 0 || 128 <= cause <= 255
  }

  function HandleReset<N>(p: Pair<N>, cause: nat, now: int): Outcome<Pair<N>> {
    if !ClientOriginated(cause) then Done(PunishReset(p, now))
    else Forward(p.x.(state := D2), p.y, ResetRequest(cause), now)
  }

  predicate DataAcceptable<N>(x: Cell<N>, pr: nat, ps: nat, size: nat)
    requires PacketOk(x.facilities.packet)
  {
    && 0 < size < PacketBytes(x.facilities.packet)
    && ps == x.flow.clientPs
    && InRange(ps, x.flow.peerPr, WindowEnd(x.flow.peerPr, x.facilities.window))
    && InRange(pr, x.flow.clientPr, x.flow.peerPs)
  }

  function HandleData<N>(p: Pair<N>, pr: nat, ps: nat, size: nat, now: int): Outcome<Pair<N>> {
    if !PacketOk(p.x.facilities.packet) then Abort(PacketRange)
    else if !DataAcceptable(p.x, pr, ps, size) then Done(PunishReset(p, now))
    else
      var flow := p.x.flow.(clientPs := (p.x.flow.clientPs + 1) % SEQ_MAX, clientPr := pr);
      Forward(p.x.(flow := flow), p.y, Data(pr, ps, size), now)
  }

  function HandleAck<N>(p: Pair<N>, m: Message, now: int): Outcome<Pair<N>>
    requires m.RR? || m.RNR?
  {
    if !InRange(m.pr, p.x.flow.clientPr, p.x.flow.peerPs) then Done(PunishReset(p, now))
    else Forward(p.x.(flow := p.x.flow.(clientPr := m.pr)), p.y, m, now)
  }

  /** A handler that leaves the state a timer guards stops that timer. */
  function LeaveTimed<N>(p: Pair<N>, from: State, timer: Timer): Pair<N> {
    if p.x.state != from && p.x.timer == timer then p.(x := StopTimer(p.x)) else p
  }

  /** jz_channel_process_message, except a CALL_REQUEST in P1, which needs the client list. */
  function Handle<N>(p: Pair<N>, m: Message, now: int): Outcome<Pair<N>>
    requires !(p.x.state == P1 && m.CallRequest?)
  {
    match p.x.state
    case P1 =>
      if m.ClearRequest? then HandleClear(p, now) else Done(PunishClear(p, now))
    case P2 =>
      if m.ClearRequest? then HandleClear(p, now) else Done(PunishClear(p, now))
    case P3 =>
      var q :-
        if m.ClearRequest? then HandleClear(p, now)
        else if m.CallRequest? then HandleCollision(p, m.facilities, now)
        else if m.CallAccepted? then HandleAccepted(p, m.facilities, now)
        else Done(PunishClear(p, now));
      Done(LeaveTimed(q, P3, IncomingCall))
    case D1 =>
      if m.ClearRequest? then HandleClear(p, now)
      else if m.ResetRequest? then HandleReset(p, m.cause, now)
      else if m.Data? then HandleData(p, m.pr, m.ps, m.size, now)
      else if m.RR? || m.RNR? then HandleAck(p, m, now)
      else Done(PunishReset(p, now))
    case D2 =>
      if m.ClearRequest? then HandleClear(p, now)
      else if m.ResetRequest? then Done(p)
      else Done(PunishReset(p, now))
    case D3 =>
      var q :-
        if m.ClearRequest? then HandleClear(p, now)
        else if m.ResetRequest? || m.ResetConfirmation? then Forward(ResetFlow(p.x), p.y, ResetConfirmation, now)
        else Done(p);
      Done(LeaveTimed(q, D3, ResetIndication))
    case P5 =>
      if m.ClearRequest? then HandleClear(p, now) else Done(PunishClear(p, now))
    case P6 =>
      if m.ClearRequest? then Done(p) else Done(PunishClear(p, now))
    case P7 =>
      if m.ClearRequest? || m.ClearConfirmation? then Done(LeaveTimed(p.(x := p.x.(state := P1)), P7, ClearIndication))
      else Done(p)
  }

  /** A successful CALL_REQUEST: the caller and the callee's reserved channel, given their names. */
  function Connect<N>(x: Cell<N>, nameX: N, y: Cell<N>, nameY: N, f: Facilities, now: int): Outcome<Pair<N>> {
    var y' :- Receive(y.(peer := Some(nameX)), CallRequest(f), now);
    Done(Pair(x.(peer := Some(nameY), facilities := f, state := P2), Some(y')))
  }

  /** A restart or hang-up of the client of `p.x`. */
  function Restart<N>(p: Pair<N>, now: int): Pair<N> {
    Pair(StopTimer(p.x.(state := P1, peer := None)),
         if p.y.Some? then Some(Clear(p.y.value.(peer := None), now)) else None)
  }

  /** The expiry of the timer of `p.x` (jz_channel_check_timers). */
  function Expire<N>(p: Pair<N>, now: int): Outcome<Pair<N>>
    requires p.x.timer != NoTimer
  {
    var q := p.(x := p.x.(count := p.x.count + 1));
    match p.x.timer
    case IncomingCall =>
      if q.x.count != 1 then Abort(TimerCount)
      else Done(PunishClear(q.(x := StopTimer(q.x)), now))
    case ResetIndication =>
      if q.x.count == 1 then Done(PunishReset(q, now))
      else if q.x.count == 2 then Done(PunishClear(q, now))
      else Abort(TimerCount)
    case ClearIndication =>
      if q.x.count == 1 then Done(PunishClear(q, now))
      else if q.x.count == 2 then
        Done(Pair(StopTimer(q.x.(state := P1, peer := None)),
                  if q.y.Some? then Some(q.y.value.(state := P1, peer := None)) else None))
      else Abort(TimerCount)
  }

  /** jz_channel_check_timers: nothing happens unless the timer is running and due. */
  function CheckTimer<N>(p: Pair<N>, now: int): Outcome<Pair<N>> {
    if p.x.timer == NoTimer || p.x.expires > now then Done(p) else Expire(p, now)
  }

  // What every channel satisfies, whatever its client does

  function TimerOf(s: State): Timer {
    match s
    case P3 => IncomingCall
    case D3 => ResetIndication
    case P7 => ClearIndication
    case _ => NoTimer
  }

  /** What holds of a channel in every run: the timer is a function of the state, its count stays
      below its last expiry, and an idle or cleared channel has no peer while a caller has one. */
  predicate TimedOk<N>(c: Cell<N>) {
    && c.timer == TimerOf(c.state)
    && (c.timer in {NoTimer, IncomingCall} ==> c.count == 0)
    && c.count <= 1
    && (c.state in {P1, P7} ==> c.peer.None?)
    && (c.state in {P2, P5} ==> c.peer.Some?)
    && (c.state == P2 ==> FacilitiesOk(c.facilities))
  }

  /** ... and a called channel also has one, with facilities in range. */
  predicate CellOk<N>(c: Cell<N>) {
    TimedOk(c) && (c.state == P3 ==> c.peer.Some? && FacilitiesOk(c.facilities))
  }

  predicate BothOk<N>(p: Pair<N>, ok: Cell<N> -> bool) {
    ok(p.x) && (p.y.Some? ==> ok(p.y.value))
  }

  /** The one message that can leave a channel waiting for an answer to a call nobody placed: a
      call collision whose peer is idle. */
  predicate StaleCollision<N>(p: Pair<N>, m: Message) {
    p.x.state == P3 && m.CallRequest? && p.y.Some? && p.y.value.state == P1
  }

  lemma ReceiveKeeps<N>(c: Cell<N>, m: Message, now: int)
    requires TimedOk(c)
    ensures var r := Receive(c, m, now);
            && (r.Done? ==> TimedOk(r.value))
            && (r.Done? && CellOk(c) && !(m.CallRequest? && c.state == P1) ==> CellOk(r.value))
            && (r.Abort? ==> r.check in {PacketRange, AckRange, DataSize, PeerWindow})
  {
  }

  /** Clearing a channel whose link has just been cut restores the invariants. */
  lemma ClearKeeps<N>(c: Cell<N>, now: int)
    requires TimedOk(c)
    ensures TimedOk(Clear(c, now)) && TimedOk(Clear(c.(peer := None), now))
    ensures CellOk(c) ==> CellOk(Clear(c, now)) && CellOk(Clear(c.(peer := None), now))
  {
  }

  lemma PunishKeeps<N>(p: Pair<N>, now: int)
    requires BothOk(p, TimedOk)
    ensures BothOk(PunishClear(p, now), TimedOk) && BothOk(PunishReset(p, now), TimedOk)
    ensures BothOk(p, CellOk) ==> BothOk(PunishClear(p, now), CellOk) && BothOk(PunishReset(p, now), CellOk)
  {
  }

  lemma ForwardKeeps<N>(x: Cell<N>, y: Option<Cell<N>>, m: Message, now: int)
    requires y.Some? ==> TimedOk(y.value)
    ensures var r := Forward(x, y, m, now);
            && (r.Done? ==> r.value.x == x && (r.value.y.Some? <==> y.Some?))
            && (r.Done? && y.Some? ==> TimedOk(r.value.y.value))
            && (r.Done? && y.Some? && CellOk(y.value) && !(m.CallRequest? && y.value.state == P1)
                ==> CellOk(r.value.y.value))
            && (r.Abort? ==> r.check in {PacketRange, AckRange, DataSize, PeerWindow})
  {
    if y.Some? {
      ReceiveKeeps(y.value, m, now);
    }
  }

  /** The handlers of a called channel. */
  lemma HandleInP3Keeps<N>(p: Pair<N>, m: Message, now: int)
    requires BothOk(p, TimedOk) && p.x.state == P3 && p.y.Some? == p.x.peer.Some?
    ensures var r := Handle(p, m, now);
            && (r.Done? ==> BothOk(r.value, TimedOk) && r.value.y.Some? == p.y.Some?)
            && (r.Done? && BothOk(p, CellOk) && !StaleCollision(p, m) ==> BothOk(r.value, CellOk))
            && (r.Abort? ==> r.check != TimerCount)
            && (r.Abort? && CellOk(p.x) ==> r.check != PeerPresent)
  {
    PunishKeeps(p, now);
    ForwardKeeps(p.x.(state := P6), p.y, ClearRequest, now);
    if m.CallRequest? {
      ForwardKeeps(p.x.(state := P5, facilities := m.facilities), p.y, m, now);
    } else if m.CallAccepted? {
      ForwardKeeps(ResetFlow(p.x).(facilities := m.facilities), p.y, m, now);
    }
    hide Receive;
    hide Clear;
  }

  /** The handlers of the flow control ready state. */
  lemma HandleInD1Keeps<N>(p: Pair<N>, m: Message, now: int)
    requires BothOk(p, TimedOk) && p.x.state == D1 && p.y.Some? == p.x.peer.Some?
    ensures var r := Handle(p, m, now);
            && (r.Done? ==> BothOk(r.value, TimedOk) && r.value.y.Some? == p.y.Some?)
            && (r.Done? && BothOk(p, CellOk) ==> BothOk(r.value, CellOk))
            && (r.Abort? ==> r.check !in {TimerCount, PeerPresent})
  {
    PunishKeeps(p, now);
    hide Receive;
    hide Clear;
    hide Reset;
    hide DataAcceptable;
    if m.ClearRequest? {
      ForwardKeeps(p.x.(state := P6), p.y, ClearRequest, now);
    } else if m.ResetRequest? {
      ForwardKeeps(p.x.(state := D2), p.y, m, now);
    } else if m.Data? {
      var flow := p.x.flow.(clientPs := (p.x.flow.clientPs + 1) % SEQ_MAX, clientPr := m.pr);
      ForwardKeeps(p.x.(flow := flow), p.y, m, now);
    } else if m.RR? || m.RNR? {
      ForwardKeeps(p.x.(flow := p.x.flow.(clientPr := m.pr)), p.y, m, now);
    }
  }

  /** The handlers of the two reset states. */
  lemma HandleInResetKeeps<N>(p: Pair<N>, m: Message, now: int)
    requires BothOk(p, TimedOk) && p.x.state in {D2, D3} && p.y.Some? == p.x.peer.Some?
    ensures var r := Handle(p, m, now);
            && (r.Done? ==> BothOk(r.value, TimedOk) && r.value.y.Some? == p.y.Some?)
            && (r.Done? && BothOk(p, CellOk) ==> BothOk(r.value, CellOk))
            && (r.Abort? ==> r.check !in {TimerCount, PeerPresent})
  {
    PunishKeeps(p, now);
    ForwardKeeps(p.x.(state := P6), p.y, ClearRequest, now);
    ForwardKeeps(ResetFlow(p.x), p.y, ResetConfirmation, now);
    hide Receive;
    hide Clear;
  }

  /** Every client message keeps the timer invariant. It keeps the peer invariant too, unless it
      is a stale collision, and then the peer assertions never fail. */
  lemma HandleKeeps<N>(p: Pair<N>, m: Message, now: int)
    requires BothOk(p, TimedOk) && p.y.Some? == p.x.peer.Some?
    requires !(p.x.state == P1 && m.CallRequest?)
    ensures var r := Handle(p, m, now);
            && (r.Done? ==> BothOk(r.value, TimedOk) && r.value.y.Some? == p.y.Some?)
            && (r.Done? && BothOk(p, CellOk) && !StaleCollision(p, m) ==> BothOk(r.value, CellOk))
            && (r.Abort? ==> r.check != TimerCount)
            && (r.Abort? && CellOk(p.x) ==> r.check != PeerPresent)
  {
    if p.x.state == P3 {
      HandleInP3Keeps(p, m, now);
    } else if p.x.state == D1 {
      HandleInD1Keeps(p, m, now);
    } else if p.x.state in {D2, D3} {
      HandleInResetKeeps(p, m, now);
    } else {
      PunishKeeps(p, now);
      ForwardKeeps(p.x.(state := P6), p.y, ClearRequest, now);
    }
    hide Receive;
    hide Clear;
  }

  /** A stale collision always breaks the peer invariant, so the exclusion above is exact. */
  lemma StaleCollisionBreaks<N>(p: Pair<N>, m: Message, now: int)
    requires BothOk(p, CellOk) && StaleCollision(p, m)
    ensures var r := Handle(p, m, now);
            r.Done? && r.value.y.value.state == P3 && r.value.y.value.peer.None? && !CellOk(r.value.y.value)
  {
  }

  /** No timer assertion and no unreachable branch is ever hit by an expiry, and an expiry keeps
      both invariants. The peer branch of a second clear expiry is dead: in P7 there is no peer. */
  lemma ExpireKeeps<N>(p: Pair<N>, now: int)
    requires BothOk(p, TimedOk) && p.y.Some? == p.x.peer.Some? && p.x.timer != NoTimer
    ensures var r := Expire(p, now);
            && r.Done?
            && BothOk(r.value, TimedOk)
            && (BothOk(p, CellOk) ==> BothOk(r.value, CellOk))
            && r.value.y.Some? == p.y.Some?
            && (p.x.timer == ClearIndication ==> p.y.None?)
  {
    if p.y.Some? {
      ClearKeeps(p.y.value, now);
    }
  }

  lemma RestartKeeps<N>(p: Pair<N>, now: int)
    requires BothOk(p, TimedOk)
    ensures var q := Restart(p, now);
            && BothOk(q, TimedOk) && q.x.state == P1 && q.x.peer.None? && q.x.timer == NoTimer
            && (BothOk(p, CellOk) ==> BothOk(q, CellOk))
  {
  }

  lemma ConnectKeeps<N>(x: Cell<N>, nameX: N, nameY: N, f: Facilities, now: int)
    requires TimedOk(x) && x.state == P1 && FacilitiesOk(f)
    ensures var r := Connect(x, nameX, Fresh(), nameY, f, now);
            r.Done? && BothOk(r.value, CellOk) && r.value.y.Some?
  {
  }
}
