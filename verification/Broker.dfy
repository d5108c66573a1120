/** One broker channel (src/channel.c): a call between a caller X and a callee Y, with both
    directions' sequence numbers in one object.

    `Step` is the channel as a caller would describe it: each side has sent some number of
    packets and has acknowledged some number of the other side's, both unbounded counts.
    `Channel.Dispatch` is the channel as it is written, on numbers modulo nine; `CyclicStep` is
    what it does to them, for every window it can be given. `CyclicRefines` is that for windows
    from one to seven the two agree. */
module Broker {
  import opened Sequence
  import opened BrokerTables

  /** Sequence numbers run from 0 to SEQ_MAX and wrap. */
  const CYCLE: nat := SEQ_MAX + 1

  datatype Message = Message(kind: Kind, q: nat, pr: nat, ps: nat, data: seq<nat>, calling: string, called: string,
                             packet: nat, window: nat, throughput: nat, cause: Cause, diagnostic: Diag)

  datatype Cause =
    | WorkerOriginated | LocalProcedureError | RemoteProcedureError | MalformedMessage
    | InvalidFacilityRequest | InvalidForwardingRequest | CallCollisionCause | OtherCause

  datatype Diag =
    | ByWorker | InvalidMessageFor(state: State) | InvalidCause | InvalidDiagnostic
    | InvalidPacketNegotiation | InvalidWindowNegotiation | InvalidThroughputNegotiation
    | CallerForwarding | CalleeForwarding | Collision
    | TooLongForPacket | PsOutOfOrder | PsNotInWindow | PrInvalidUpdate | OtherDiag

  /** A message from the broker to a worker. */
  datatype Reply =
    | SendReset(cause: Cause, diagnostic: Diag)
    | SendClear(cause: Cause, diagnostic: Diag)
    | SendClearConfirmation
    | SendResetConfirmation
    | SendAccepted(calling: string, called: string, packet: nat, window: nat, throughput: nat, data: seq<nat>)
    | SendData(q: nat, pr: nat, ps: nat, data: seq<nat>)
    | SendRR(pr: nat)
    | SendRNR(pr: nat)
    | SendDiagnostic(cause: Cause, diagnostic: Diag)

  datatype Sent = Sent(toY: bool, reply: Reply)

  /** One worker's progress: how many packets it has sent, and how many of the other's it has
      acknowledged, since the numbers were last zeroed. */
  datatype Side = Side(sent: nat, acked: nat)

  datatype Call = Call(state: State, x: Side, y: Side, window: nat, packet: nat, tput: nat,
                       xname: string, yname: string)
  {
    function Of(isY: bool): Side {
      if isY then y else x
    }

    function With(isY: bool, s: Side): Call {
      if isY then this.(y := s) else this.(x := s)
    }

    function Zeroed(): Call {
      this.(x := Side(0, 0), y := Side(0, 0))
    }
  }

  datatype Result = Abort | Next(call: Call, out: seq<Sent>)

  /** What the poll loop checks before it dispatches a message (src/msg.c, src/poll.c). */
  predicate Validated(m: Message) {
    && (m.kind in {Data, RR, RNR} ==> m.pr <= SEQ_MAX)
    && (m.kind == Data ==> m.ps <= SEQ_MAX)
    && (m.kind in {CallRequest, CallAccepted} ==> SeqOk(m.window) && PacketOk(m.packet) && TputOk(m.throughput))
  }

  /** How many packets may be unacknowledged when `acked` have been acknowledged. The window end
      is reduced modulo eight while the numbers run modulo nine, so a window that wraps admits
      one packet more than was negotiated. */
  function Capacity(acked: nat, window: nat): nat {
    if acked % CYCLE + window <= SEQ_MAX then window else window + 1
  }

  predicate InFlightOk(sender: Side, receiver: Side, window: nat) {
    receiver.acked <= sender.sent <= receiver.acked + window + 1
  }

  predicate Sound(c: Call) {
    && WindowOk(c.window) && PacketOk(c.packet) && TputOk(c.tput)
    && InFlightOk(c.x, c.y, c.window)
    && InFlightOk(c.y, c.x, c.window)
    && (c.state in {XCallRequest, CallCollision} ==> c.x == c.y == Side(0, 0))
  }

  function Tell(toY: bool, cause: Cause, diagnostic: Diag): seq<Sent> {
    [Sent(toY, SendDiagnostic(cause, diagnostic))]
  }

  function StepData(c: Call, m: Message, isY: bool): Result
    requires PacketOk(c.packet) && m.pr < CYCLE
  {
    var self, other := c.Of(isY), c.Of(!isY);
    if |m.data| > PacketBytes(c.packet) then
      Next(c, Tell(isY, LocalProcedureError, TooLongForPacket))
    else if m.ps != self.sent % CYCLE then
      Next(c, Tell(isY, LocalProcedureError, PsOutOfOrder))
    else if self.sent >= other.acked + Capacity(other.acked, c.window) then
      Next(c, Tell(isY, LocalProcedureError, PsNotInWindow))
    else if NextNamed(self.acked, m.pr, CYCLE) > other.sent then
      Next(c, Tell(isY, LocalProcedureError, PrInvalidUpdate))
    else
      Next(c.With(isY, Side(self.sent + 1, NextNamed(self.acked, m.pr, CYCLE))),
           [Sent(!isY, SendData(m.q, m.pr, m.ps, m.data))])
  }

  function StepAck(c: Call, m: Message, isY: bool, reply: Reply): Result
    requires m.pr < CYCLE
  {
    var self, other := c.Of(isY), c.Of(!isY);
    var acked := NextNamed(self.acked, m.pr, CYCLE);
    if acked > other.sent then
      Next(c, Tell(isY, LocalProcedureError, PrInvalidUpdate))
    else
      Next(c.With(isY, self.(acked := acked)), [Sent(!isY, reply)])
  }

  function StepAccepted(c: Call, m: Message, isY: bool): Result {
    if !Negotiable(m.packet, c.packet, PACKET_NEGOTIATE) then
      Next(c, Tell(isY, InvalidFacilityRequest, InvalidPacketNegotiation))
    else if !Negotiable(m.window, c.window, WINDOW_NEGOTIATE) then
      Next(c, Tell(isY, InvalidFacilityRequest, InvalidWindowNegotiation))
    else if !Negotiable(m.throughput, c.tput, TPUT_NEGOTIATE) then
      Next(c, Tell(isY, InvalidFacilityRequest, InvalidThroughputNegotiation))
    else if m.calling != c.xname then
      Next(c, Tell(isY, InvalidForwardingRequest, CallerForwarding))
    else if m.called != c.yname then
      Next(c, Tell(isY, InvalidForwardingRequest, CalleeForwarding))
    else
      Next(c.(packet := m.packet, window := m.window, tput := m.throughput, state := DataTransfer),
           [Sent(!isY, SendAccepted(m.calling, m.called, m.packet, m.window, m.throughput, m.data))])
  }

  /** Why a worker's own clear or reset request is refused, if it is. */
  function Refusal(m: Message, isY: bool): seq<Sent> {
    if m.cause != WorkerOriginated then Tell(isY, MalformedMessage, InvalidCause)
    else if m.diagnostic != ByWorker then Tell(isY, MalformedMessage, InvalidDiagnostic)
    else []
  }

  /** One dispatched message, on unbounded counts. */
  function Step(c: Call, m: Message, isY: bool): Result
    requires PacketOk(c.packet) && Validated(m)
  {
    Perform(ActionOf(c.state, m.kind, isY), c, m, isY)
  }

  predicate Flows(a: Action) {
    a in {DoData, DoRR, DoRNR}
  }

  function Perform(a: Action, c: Call, m: Message, isY: bool): Result
    requires PacketOk(c.packet)
    requires Flows(a) ==> m.pr <= SEQ_MAX
  {
    match a
    case DoData => StepData(c, m, isY)
    case DoRR => StepAck(c, m, isY, SendRR(m.pr))
    case DoRNR => StepAck(c, m, isY, SendRNR(m.pr))
    case _ => Control(a, c, m, isY)
  }

  /** The actions that neither send nor acknowledge packets. */
  function Control(a: Action, c: Call, m: Message, isY: bool): Result
    requires !Flows(a)
  {
    match a
    case Unspecified => Abort
    case DoCallRequest => Abort
    case Discard => Next(c, [])
    case Reset =>
      Next(c.(state := YResetRequest),
           [Sent(isY, SendReset(LocalProcedureError, InvalidMessageFor(c.state))),
            Sent(!isY, SendReset(RemoteProcedureError, InvalidMessageFor(c.state)))])
    case Clear =>
      Next(c.(state := Ready),
           [Sent(isY, SendClear(LocalProcedureError, InvalidMessageFor(c.state))),
            Sent(!isY, SendClear(RemoteProcedureError, InvalidMessageFor(c.state)))])
    case DoDisconnect =>
      Next(c.(state := Ready), [Sent(!isY, SendClear(WorkerOriginated, ByWorker))])
    case DoClearRequest =>
      if Refusal(m, isY) != [] then Next(c, Refusal(m, isY))
      else Next(c.(state := if isY then YClearRequest else XClearRequest),
                [Sent(!isY, SendClear(WorkerOriginated, ByWorker))])
    case DoClearConfirmation =>
      Next(c.Zeroed().(state := Ready), [Sent(!isY, SendClearConfirmation)])
    case DoReset =>
      if Refusal(m, isY) != [] then Next(c, Refusal(m, isY))
      else Next(c, [Sent(!isY, SendReset(WorkerOriginated, ByWorker))])
    case DoResetConfirmation =>
      Next(c.Zeroed().(state := DataTransfer), [Sent(!isY, SendResetConfirmation)])
    case DoCallAccepted => StepAccepted(c, m, isY)
    case DoCallCollision =>
      Next(c.(state := CallCollision), Tell(isY, CallCollisionCause, Collision))
  }

  // The same on the numbers of the source

  /** A call whose counts are the numbers of the channel, and its facilities any the poll loop lets
      through. */
  predicate Numbered(c: Call) {
    && SeqOk(c.window) && PacketOk(c.packet) && TputOk(c.tput)
    && c.x.sent <= SEQ_MAX && c.x.acked <= SEQ_MAX && c.y.sent <= SEQ_MAX && c.y.acked <= SEQ_MAX
  }

  function CyclicData(c: Call, m: Message, isY: bool): Result
    requires PacketOk(c.packet)
  {
    var self, other := c.Of(isY), c.Of(!isY);
    if |m.data| > PacketBytes(c.packet) then
      Next(c, Tell(isY, LocalProcedureError, TooLongForPacket))
    else if m.ps != self.sent then
      Next(c, Tell(isY, LocalProcedureError, PsOutOfOrder))
    else if !InRange(m.ps, other.acked, WindowEnd(other.acked, c.window)) then
      Next(c, Tell(isY, LocalProcedureError, PsNotInWindow))
    else if !InRange(m.pr, self.acked, other.sent) then
      Next(c, Tell(isY, LocalProcedureError, PrInvalidUpdate))
    else
      Next(c.With(isY, Side((self.sent + 1) % (SEQ_MAX + 1), m.pr)), [Sent(!isY, SendData(m.q, m.pr, m.ps, m.data))])
  }

  function CyclicAck(c: Call, m: Message, isY: bool, reply: Reply): Result {
    var self, other := c.Of(isY), c.Of(!isY);
    if !InRange(m.pr, self.acked, other.sent) then
      Next(c, Tell(isY, LocalProcedureError, PrInvalidUpdate))
    else
      Next(c.With(isY, self.(acked := m.pr)), [Sent(!isY, reply)])
  }

  function CyclicPerform(a: Action, c: Call, m: Message, isY: bool): Result
    requires PacketOk(c.packet)
  {
    match a
    case DoData => CyclicData(c, m, isY)
    case DoRR => CyclicAck(c, m, isY, SendRR(m.pr))
    case DoRNR => CyclicAck(c, m, isY, SendRNR(m.pr))
    case _ => Control(a, c, m, isY)
  }

  function CyclicStep(c: Call, m: Message, isY: bool): Result
    requires PacketOk(c.packet)
  {
    CyclicPerform(ActionOf(c.state, m.kind, isY), c, m, isY)
  }

  function Reduced(c: Call): Call {
    c.(x := Side(c.x.sent % CYCLE, c.x.acked % CYCLE), y := Side(c.y.sent % CYCLE, c.y.acked % CYCLE))
  }

  function ReducedResult(r: Result): Result {
    match r
    case Abort => Abort
    case Next(c, out) => Next(Reduced(c), out)
  }

  /** The facts about the two tables that the counts depend on: packets move only in the data
      phase, calls are accepted only before it, and no message there starts a reset. */
  lemma TableFacts(s: State, k: Kind, isY: bool)
    ensures var a := ActionOf(s, k, isY);
            && (a in {DoData, DoRR, DoRNR} ==> s == DataTransfer && k in {Data, RR, RNR})
            && (a == DoCallAccepted ==> s in {XCallRequest, CallCollision} && k == CallAccepted)
            && (a == DoCallCollision ==> s == XCallRequest)
            && (a == DoClearRequest ==> k == ClearRequest)
            && (a == DoDisconnect ==> k == Disconnect)
            && (s !in {Ready, YCallRequest, XResetRequest} ==>
                  (a in {Unspecified, DoCallRequest} <==> isY && k == Directory))
            && (s == XClearRequest ==> a !in {Reset, DoResetConfirmation, DoReset, DoClearRequest})
            && (s == YClearRequest ==> a !in {Reset, DoResetConfirmation, DoReset, DoClearRequest})
  {
  }

  /** The window test as written accepts a packet exactly when fewer than `Capacity` are
      unacknowledged. */
  lemma WindowTestIsExact(sent: nat, acked: nat, window: nat)
    requires WindowOk(window)
    requires acked <= sent <= acked + window + 1
    ensures InRange(sent % CYCLE, acked % CYCLE, WindowEnd(acked % CYCLE, window))
            <==> sent < acked + Capacity(acked, window)
    ensures Capacity(acked, window) <= window + 1 <= SEQ_MAX
  {
    var lo := acked % CYCLE;
    assert WindowEnd(lo, window) == if lo + window <= SEQ_MAX then lo + window - 1 else lo + window - 9;
    var d := sent - acked;
    NameAhead(acked, d, 9);
  }

  lemma SuccessorName(n: nat)
    ensures (n + 1) % CYCLE == (n % CYCLE + 1) % (SEQ_MAX + 1)
  {
    NameAhead(n, 1, 9);
  }

  /** The tests of do_i_data and do_i_rr, in terms of counts. */
  lemma TestsAreExact(c: Call, m: Message, isY: bool)
    requires Sound(c) && m.pr <= SEQ_MAX
    ensures var self, other := c.Of(isY), c.Of(!isY);
            && (InRange(self.sent % CYCLE, other.acked % CYCLE, WindowEnd(other.acked % CYCLE, c.window))
                <==> self.sent < other.acked + Capacity(other.acked, c.window))
            && Capacity(other.acked, c.window) <= c.window + 1
            && (InRange(m.pr, self.acked % CYCLE, other.sent % CYCLE)
                <==> NextNamed(self.acked, m.pr, CYCLE) <= other.sent)
            && NextNamed(self.acked, m.pr, CYCLE) % CYCLE == m.pr
            && (self.sent + 1) % CYCLE == (self.sent % CYCLE + 1) % (SEQ_MAX + 1)
  {
    var self, other := c.Of(isY), c.Of(!isY);
    WindowTestIsExact(self.sent, other.acked, c.window);
    InRangeIsExact(self.acked, other.sent, m.pr, CYCLE);
    NextNamedIsLeast(self.acked, m.pr, CYCLE, 0);
    SuccessorName(self.sent);
  }

  lemma DataRefines(c: Call, m: Message, isY: bool)
    requires Sound(c) && m.pr <= SEQ_MAX
    ensures CyclicData(Reduced(c), m, isY) == ReducedResult(StepData(c, m, isY))
  {
    hide NextNamed, InRange, WindowEnd, Capacity, PacketBytes, Tell, InFlightOk;
    TestsAreExact(c, m, isY);
    ReducedSides(c, isY);
    if StepData(c, m, isY).call != c {
      ReducedWith(c, isY, StepData(c, m, isY).call.Of(isY));
    }
  }

  lemma ReducedSides(c: Call, isY: bool)
    ensures Reduced(c).Of(isY) == Side(c.Of(isY).sent % CYCLE, c.Of(isY).acked % CYCLE)
    ensures Reduced(c).Of(!isY) == Side(c.Of(!isY).sent % CYCLE, c.Of(!isY).acked % CYCLE)
    ensures Reduced(c).window == c.window && Reduced(c).packet == c.packet
  {
  }

  lemma ReducedWith(c: Call, isY: bool, s: Side)
    ensures Reduced(c.With(isY, s)) == Reduced(c).With(isY, Side(s.sent % CYCLE, s.acked % CYCLE))
  {
  }

  lemma AckRefines(c: Call, m: Message, isY: bool, reply: Reply)
    requires Sound(c) && m.pr <= SEQ_MAX
    ensures CyclicAck(Reduced(c), m, isY, reply) == ReducedResult(StepAck(c, m, isY, reply))
  {
    TestsAreExact(c, m, isY);
    hide NextNamed, InRange, WindowEnd, Capacity, Tell;
  }

  lemma ControlRefines(a: Action, c: Call, m: Message, isY: bool)
    requires !Flows(a)
    ensures Control(a, Reduced(c), m, isY) == ReducedResult(Control(a, c, m, isY))
  {
    hide Refusal, Tell;
  }

  /** From every sound call, and those have windows from one to seven, a message does to the numbers
      what it does to the counts, with the same replies. */
  lemma CyclicRefines(c: Call, m: Message, isY: bool)
    requires Sound(c) && Validated(m)
    ensures CyclicStep(Reduced(c), m, isY) == ReducedResult(Step(c, m, isY))
  {
    var a := ActionOf(c.state, m.kind, isY);
    TableFacts(c.state, m.kind, isY);
    assert Reduced(c).state == c.state && Reduced(c).packet == c.packet;
    hide ActionOf, CyclicData, CyclicAck, StepData, StepAck, Control, Sound, Reduced;
    if a == DoData {
      DataRefines(c, m, isY);
    } else if a == DoRR {
      AckRefines(c, m, isY, SendRR(m.pr));
    } else if a == DoRNR {
      AckRefines(c, m, isY, SendRNR(m.pr));
    } else {
      ControlRefines(a, c, m, isY);
    }
  }

  class Channel {
    const xname: string
    const yname: string
    var state: State
    var xps: nat
    var xpr: nat
    var yps: nat
    var ypr: nat
    var window: nat
    var pkt: nat
    var tput: nat

    ghost function View(): Call
      reads this
    {
      Call(state, Side(xps, xpr), Side(yps, ypr), window, pkt, tput, xname, yname)
    }

    ghost predicate Valid()
      reads this
    {
      Numbered(View())
    }

    /** channel_create, followed by the state the channel table sets on the new entry. */
    constructor (xname: string, yname: string, pkt: nat, window: nat, tput: nat)
      requires SeqOk(window) && PacketOk(pkt) && TputOk(tput)
      ensures Valid()
      ensures View() == Call(XCallRequest, Side(0, 0), Side(0, 0), window, pkt, tput, xname, yname)
    {
      this.xname, this.yname := xname, yname;
      state := XCallRequest;
      xps, xpr, yps, ypr := 0, 0, 0, 0;
      this.pkt, this.window, this.tput := pkt, window, tput;
    }

    /** channel_dispatch. A sound call of which these are the numbers, if there is one, has made its
        step. */
    method Dispatch(m: Message, isY: bool, ghost call: Call) returns (ok: bool, out: seq<Sent>)
      requires Valid() && Validated(m)
      modifies this
      ensures ok <==> CyclicStep(old(View()), m, isY).Next?
      ensures !ok ==> View() == old(View())
      ensures ok ==> Next(View(), out) == CyclicStep(old(View()), m, isY)
      ensures Valid()
      ensures Sound(call) && old(View()) == Reduced(call) && ok ==>
                Step(call, m, isY).Next? && View() == Reduced(Step(call, m, isY).call) && out == Step(call, m, isY).out
    {
      TableFacts(state, m.kind, isY);
      if Sound(call) {
        CyclicRefines(call, m, isY);
      }
      hide CyclicPerform, Sound, Reduced, Perform, Numbered;
      ok, out := Act(ActionOf(state, m.kind, isY), m, isY);
    }

    /** The switch of channel_dispatch. */
    method Act(a: Action, m: Message, isY: bool) returns (ok: bool, out: seq<Sent>)
      requires Valid() && Validated(m)
      requires Flows(a) ==> m.kind in {Data, RR, RNR}
      requires a == DoCallAccepted ==> m.kind == CallAccepted
      modifies this
      ensures ok <==> CyclicPerform(a, old(View()), m, isY).Next?
      ensures !ok ==> View() == old(View())
      ensures ok ==> Next(View(), out) == CyclicPerform(a, old(View()), m, isY)
      ensures Valid()
    {
      hide CyclicData, CyclicAck, StepAccepted, Refusal, Tell;
      ok, out := true, [];
      match a {
        case Unspecified => ok := false;
        case DoCallRequest => ok := false;
        case Discard =>
        case Reset => out := ResetBoth(m, isY);
        case Clear => out := ClearBoth(m, isY);
        case DoDisconnect => out := DisconnectFrom(m, isY);
        case DoClearRequest => out := ClearRequestFrom(m, isY);
        case DoClearConfirmation => out := ClearConfirmationFrom(m, isY);
        case DoData => out := DataFrom(m, isY);
        case DoRR => out := AckFrom(m, isY, SendRR(m.pr));
        case DoRNR => out := AckFrom(m, isY, SendRNR(m.pr));
        case DoReset => out := ResetRequestFrom(m, isY);
        case DoResetConfirmation => out := ResetConfirmationFrom(m, isY);
        case DoCallAccepted => out := CallAcceptedBy(m, isY);
        case DoCallCollision => out := CollisionFrom(m, isY);
      }
    }

    /** do_reset. */
    method ResetBoth(m: Message, isY: bool) returns (out: seq<Sent>)
      requires Valid()
      modifies this
      ensures Next(View(), out) == Control(Reset, old(View()), m, isY)
      ensures Valid()
    {
      out := [Sent(isY, SendReset(LocalProcedureError, InvalidMessageFor(state))),
              Sent(!isY, SendReset(RemoteProcedureError, InvalidMessageFor(state)))];
      state := YResetRequest;
    }

    /** do_clear. */
    method ClearBoth(m: Message, isY: bool) returns (out: seq<Sent>)
      requires Valid()
      modifies this
      ensures Next(View(), out) == Control(Clear, old(View()), m, isY)
      ensures Valid()
    {
      out := [Sent(isY, SendClear(LocalProcedureError, InvalidMessageFor(state))),
              Sent(!isY, SendClear(RemoteProcedureError, InvalidMessageFor(state)))];
      state := Ready;
    }

    /** do_i_disconnect. */
    method DisconnectFrom(m: Message, isY: bool) returns (out: seq<Sent>)
      requires Valid()
      modifies this
      ensures Next(View(), out) == Control(DoDisconnect, old(View()), m, isY)
      ensures Valid()
    {
      out := [Sent(!isY, SendClear(WorkerOriginated, ByWorker))];
      state := Ready;
    }

    /** do_i_clear_request. */
    method ClearRequestFrom(m: Message, isY: bool) returns (out: seq<Sent>)
      requires Valid()
      modifies this
      ensures Next(View(), out) == Control(DoClearRequest, old(View()), m, isY)
      ensures Valid()
    {
      out := Refusal(m, isY);
      if out == [] {
        out := [Sent(!isY, SendClear(WorkerOriginated, ByWorker))];
        state := if isY then YClearRequest else XClearRequest;
      }
    }

    /** do_i_clear_confirmation. */
    method ClearConfirmationFrom(m: Message, isY: bool) returns (out: seq<Sent>)
      requires Valid()
      modifies this
      ensures Next(View(), out) == Control(DoClearConfirmation, old(View()), m, isY)
      ensures Valid()
    {
      out := [Sent(!isY, SendClearConfirmation)];
      xps, xpr, yps, ypr := 0, 0, 0, 0;
      state := Ready;
    }

    /** do_i_reset: the state does not change. */
    method ResetRequestFrom(m: Message, isY: bool) returns (out: seq<Sent>)
      requires Valid()
      modifies this
      ensures Next(View(), out) == Control(DoReset, old(View()), m, isY)
      ensures Valid()
    {
      out := Refusal(m, isY);
      if out == [] {
        out := [Sent(!isY, SendReset(WorkerOriginated, ByWorker))];
      }
    }

    /** do_i_reset_confirmation. */
    method ResetConfirmationFrom(m: Message, isY: bool) returns (out: seq<Sent>)
      requires Valid()
      modifies this
      ensures Next(View(), out) == Control(DoResetConfirmation, old(View()), m, isY)
      ensures Valid()
    {
      out := [Sent(!isY, SendResetConfirmation)];
      xps, xpr, yps, ypr := 0, 0, 0, 0;
      state := DataTransfer;
    }

    /** do_y_call_collision. */
    method CollisionFrom(m: Message, isY: bool) returns (out: seq<Sent>)
      requires Valid()
      modifies this
      ensures Next(View(), out) == Control(DoCallCollision, old(View()), m, isY)
      ensures Valid()
    {
      out := Tell(isY, CallCollisionCause, Collision);
      state := CallCollision;
    }

    /** do_i_data. */
    method DataFrom(m: Message, isY: bool) returns (out: seq<Sent>)
      requires Valid() && m.pr <= SEQ_MAX
      modifies this
      ensures Next(View(), out) == CyclicData(old(View()), m, isY)
      ensures Valid()
    {
      hide InRange, WindowEnd, PacketBytes, Tell;
      var selfPs, selfPr := if isY then yps else xps, if isY then ypr else xpr;
      var otherPs, otherPr := if isY then xps else yps, if isY then xpr else ypr;
      if |m.data| > PacketBytes(pkt) {
        out := Tell(isY, LocalProcedureError, TooLongForPacket);
      } else if m.ps != selfPs {
        out := Tell(isY, LocalProcedureError, PsOutOfOrder);
      } else if !InRange(m.ps, otherPr, WindowEnd(otherPr, window)) {
        out := Tell(isY, LocalProcedureError, PsNotInWindow);
      } else if !InRange(m.pr, selfPr, otherPs) {
        out := Tell(isY, LocalProcedureError, PrInvalidUpdate);
      } else {
        out := [Sent(!isY, SendData(m.q, m.pr, m.ps, m.data))];
        if isY {
          yps, ypr := (yps + 1) % (SEQ_MAX + 1), m.pr;
        } else {
          xps, xpr := (xps + 1) % (SEQ_MAX + 1), m.pr;
        }
      }
    }

    /** do_i_rr and do_i_rnr, which differ in the message they forward. */
    method AckFrom(m: Message, isY: bool, reply: Reply) returns (out: seq<Sent>)
      requires Valid() && m.pr <= SEQ_MAX
      modifies this
      ensures Next(View(), out) == CyclicAck(old(View()), m, isY, reply)
      ensures Valid()
    {
      hide InRange, Tell;
      var selfPr, otherPs := if isY then ypr else xpr, if isY then xps else yps;
      if !InRange(m.pr, selfPr, otherPs) {
        out := Tell(isY, LocalProcedureError, PrInvalidUpdate);
      } else {
        out := [Sent(!isY, reply)];
        if isY {
          ypr := m.pr;
        } else {
          xpr := m.pr;
        }
      }
    }

    /** do_y_call_accepted. */
    method CallAcceptedBy(m: Message, isY: bool) returns (out: seq<Sent>)
      requires Valid() && Validated(m) && m.kind == CallAccepted
      modifies this
      ensures Next(View(), out) == StepAccepted(old(View()), m, isY)
      ensures Valid()
    {
      hide Tell;
      if !Negotiable(m.packet, pkt, PACKET_NEGOTIATE) {
        out := Tell(isY, InvalidFacilityRequest, InvalidPacketNegotiation);
      } else if !Negotiable(m.window, window, WINDOW_NEGOTIATE) {
        out := Tell(isY, InvalidFacilityRequest, InvalidWindowNegotiation);
      } else if !Negotiable(m.throughput, tput, TPUT_NEGOTIATE) {
        out := Tell(isY, InvalidFacilityRequest, InvalidThroughputNegotiation);
      } else if m.calling != xname {
        out := Tell(isY, InvalidForwardingRequest, CallerForwarding);
      } else if m.called != yname {
        out := Tell(isY, InvalidForwardingRequest, CalleeForwarding);
      } else {
        pkt, window, tput := m.packet, m.window, m.throughput;
        state := DataTransfer;
        out := [Sent(!isY, SendAccepted(m.calling, m.called, m.packet, m.window, m.throughput, m.data))];
      }
    }
  }
}
