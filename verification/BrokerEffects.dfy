/** What every message does to a broker channel, and what it makes the broker send to whom
    (src/action.c, src/channel.c), kind by kind and in plain terms; and that over whole runs a
    worker is sent exactly what the broker took from the other. */
module BrokerEffects {
  import opened Sequence
  import opened BrokerTables
  import opened Broker
  import opened BrokerRuns
  import opened BrokerWindows

  // The tables, by kind of message

  predicate Packets(k: Kind) {
    k == Data || k == RR || k == RNR
  }

  /** A side's own reset request is pending: the state is named after the side that asked. */
  predicate OwnReset(s: State, isY: bool) {
    s == if isY then YResetRequest else XResetRequest
  }

  predicate OtherReset(s: State, isY: bool) {
    OwnReset(s, !isY)
  }

  /** What a kind that belongs to the data phase does outside it. */
  function Strayed(s: State, isY: bool): Action {
    if s == YClearRequest || OtherReset(s, isY) then Discard
    else if OwnReset(s, isY) then Action.Reset
    else Action.Clear
  }

  /** What a kind that belongs to no established call does. */
  function Misplaced(s: State): Action {
    if s == YClearRequest then Discard else Action.Clear
  }

  function Rule(s: State, k: Kind, isY: bool): Action {
    match k
    case Data => if s == DataTransfer then DoData else Strayed(s, isY)
    case RR => if s == DataTransfer then DoRR else Strayed(s, isY)
    case RNR => if s == DataTransfer then DoRNR else Strayed(s, isY)
    case CallRequest =>
      if s == Ready then DoCallRequest else if isY && s == XCallRequest then DoCallCollision else Misplaced(s)
    case CallAccepted => if isY && (s == XCallRequest || s == CallCollision) then DoCallAccepted else Misplaced(s)
    case ClearRequest =>
      if s == (if isY then XClearRequest else YClearRequest) then DoClearConfirmation
      else if s == (if isY then YClearRequest else XClearRequest) then Discard
      else if s == YCallRequest && !isY then Action.Clear
      else DoClearRequest
    case ClearConfirmation =>
      if s == (if isY then XClearRequest else YClearRequest) then DoClearConfirmation else Misplaced(s)
    case ResetRequest =>
      if s == DataTransfer then DoReset
      else if OtherReset(s, isY) then DoResetConfirmation
      else if OwnReset(s, isY) then Discard
      else Misplaced(s)
    case ResetConfirmation =>
      if s == DataTransfer || OwnReset(s, isY) then Action.Reset
      else if OtherReset(s, isY) then DoResetConfirmation
      else Misplaced(s)
    case Disconnect => DoDisconnect
    case Diagnostic => if isY then Misplaced(s) else Discard
    case DirectoryRequest => if !isY && s == Ready then Discard else Misplaced(s)
    case Directory => if isY then Unspecified else if s == Ready then Discard else Misplaced(s)
    case _ =>
      if s == DataTransfer || OwnReset(s, isY) then Action.Reset
      else if OtherReset(s, isY) then if isY then Action.Reset else Discard
      else Misplaced(s)
  }

  /** The two tables say this and nothing else. */
  lemma TablesFollowRule(s: State, k: Kind, isY: bool)
    ensures ActionOf(s, k, isY) == Rule(s, k, isY)
  {
    hide XAction, YAction, Rule;
    if isY {
      CalleeTable(s, k);
    } else {
      CallerTable(s, k);
    }
  }

  lemma CallerTable(s: State, k: Kind)
    ensures XAction(s, k) == Rule(s, k, false)
  {
    match s
    case Ready =>
    case XCallRequest =>
    case YCallRequest =>
    case DataTransfer =>
    case CallCollision =>
    case XClearRequest =>
    case YClearRequest =>
    case XResetRequest =>
    case YResetRequest =>
  }

  lemma CalleeTable(s: State, k: Kind)
    ensures YAction(s, k) == Rule(s, k, true)
  {
    match s
    case Ready =>
    case XCallRequest =>
    case YCallRequest =>
    case DataTransfer =>
    case CallCollision =>
    case XClearRequest =>
    case YClearRequest =>
    case XResetRequest =>
    case YResetRequest =>
  }

  // What an action does

  predicate Says(r: Result, c: Call, out: seq<Sent>) {
    r == Next(c, out)
  }

  /** One diagnostic to the sender, and nothing else. */
  predicate Complains(r: Result, c: Call, isY: bool, cause: Cause, diagnostic: Diag) {
    Says(r, c, [Sent(isY, SendDiagnostic(cause, diagnostic))])
  }

  /** A packet is refused for its size, its number, the window or its acknowledgement, in this order;
      otherwise the other worker is sent it as it came, and two numbers of the sender change. */
  predicate TakesPacket(c: Call, r: Result, m: Message, isY: bool) {
    var ps, pr := if isY then c.y.sent else c.x.sent, if isY then c.y.acked else c.x.acked;
    var otherPs, otherPr := if isY then c.x.sent else c.y.sent, if isY then c.x.acked else c.y.acked;
    if |m.data| > Bytes(c.packet) then Complains(r, c, isY, LocalProcedureError, TooLongForPacket)
    else if m.ps != ps then Complains(r, c, isY, LocalProcedureError, PsOutOfOrder)
    else if !InRange(m.ps, otherPr, WindowEnd(otherPr, c.window)) then
      Complains(r, c, isY, LocalProcedureError, PsNotInWindow)
    else if !InRange(m.pr, pr, otherPs) then Complains(r, c, isY, LocalProcedureError, PrInvalidUpdate)
    else
      var self := Side((ps + 1) % 9, m.pr);
      Says(r, if isY then c.(y := self) else c.(x := self), [Sent(!isY, SendData(m.q, m.pr, m.ps, m.data))])
  }

  predicate TakesAck(c: Call, r: Result, pr: nat, isY: bool, reply: Reply) {
    if isY then
      if !InRange(pr, c.y.acked, c.x.sent) then Complains(r, c, isY, LocalProcedureError, PrInvalidUpdate)
      else Says(r, c.(y := Side(c.y.sent, pr)), [Sent(false, reply)])
    else
      if !InRange(pr, c.x.acked, c.y.sent) then Complains(r, c, isY, LocalProcedureError, PrInvalidUpdate)
      else Says(r, c.(x := Side(c.x.sent, pr)), [Sent(true, reply)])
  }

  /** A worker's own clear or reset must give its own cause and diagnostic. */
  predicate OwnRequest(c: Call, r: Result, m: Message, isY: bool, c': Call, reply: Reply) {
    if m.cause != WorkerOriginated then Complains(r, c, isY, MalformedMessage, InvalidCause)
    else if m.diagnostic != ByWorker then Complains(r, c, isY, MalformedMessage, InvalidDiagnostic)
    else Says(r, c', [Sent(!isY, reply)])
  }

  /** The packet size, the window and the throughput must lie between the present value and the
      protocol's, and the addresses be those of the call; then the facilities are the new ones. */
  predicate TakesAcceptance(c: Call, r: Result, m: Message, isY: bool) {
    if !Between(m.packet, c.packet, 7) then Complains(r, c, isY, InvalidFacilityRequest, InvalidPacketNegotiation)
    else if !Between(m.window, c.window, 2) then
      Complains(r, c, isY, InvalidFacilityRequest, InvalidWindowNegotiation)
    else if !Between(m.throughput, c.tput, 10) then
      Complains(r, c, isY, InvalidFacilityRequest, InvalidThroughputNegotiation)
    else if m.calling != c.xname then Complains(r, c, isY, InvalidForwardingRequest, CallerForwarding)
    else if m.called != c.yname then Complains(r, c, isY, InvalidForwardingRequest, CalleeForwarding)
    else
      Says(r, Call(DataTransfer, c.x, c.y, m.window, m.packet, m.throughput, c.xname, c.yname),
           [Sent(!isY, SendAccepted(c.xname, c.yname, m.packet, m.window, m.throughput, m.data))])
  }

  predicate Does(a: Action, c: Call, r: Result, m: Message, isY: bool) {
    var zeroed := c.(x := Side(0, 0), y := Side(0, 0));
    match a
    case Unspecified => r.Abort?
    case DoCallRequest => r.Abort?
    case Discard => Says(r, c, [])
    case Reset =>
      Says(r, c.(state := YResetRequest),
           [Sent(isY, SendReset(LocalProcedureError, InvalidMessageFor(c.state))),
            Sent(!isY, SendReset(RemoteProcedureError, InvalidMessageFor(c.state)))])
    case Clear =>
      Says(r, c.(state := Ready),
           [Sent(isY, SendClear(LocalProcedureError, InvalidMessageFor(c.state))),
            Sent(!isY, SendClear(RemoteProcedureError, InvalidMessageFor(c.state)))])
    case DoDisconnect => Says(r, c.(state := Ready), [Sent(!isY, SendClear(WorkerOriginated, ByWorker))])
    case DoClearRequest =>
      OwnRequest(c, r, m, isY, c.(state := if isY then YClearRequest else XClearRequest),
                 SendClear(WorkerOriginated, ByWorker))
    case DoClearConfirmation => Says(r, zeroed.(state := Ready), [Sent(!isY, SendClearConfirmation)])
    case DoData => TakesPacket(c, r, m, isY)
    case DoRR => TakesAck(c, r, m.pr, isY, SendRR(m.pr))
    case DoRNR => TakesAck(c, r, m.pr, isY, SendRNR(m.pr))
    case DoReset => OwnRequest(c, r, m, isY, c, SendReset(WorkerOriginated, ByWorker))
    case DoResetConfirmation => Says(r, zeroed.(state := DataTransfer), [Sent(!isY, SendResetConfirmation)])
    case DoCallAccepted => TakesAcceptance(c, r, m, isY)
    case DoCallCollision =>
      Says(r, c.(state := CallCollision), [Sent(isY, SendDiagnostic(CallCollisionCause, Collision))])
  }

  /** Every message, in every state and from either side, changes the numbers and makes the broker
      send what the rules say. */
  lemma DispatchEffect(c: Call, m: Message, isY: bool)
    requires Numbered(c) && Validated(m)
    ensures Does(Rule(c.state, m.kind, isY), c, CyclicStep(c, m, isY), m, isY)
  {
    hide ActionOf, Rule, InRange, WindowEnd, PacketBytes, Bytes;
    TablesFollowRule(c.state, m.kind, isY);
    PacketBytesTable(c.packet);
    ActionEffect(Rule(c.state, m.kind, isY), c, m, isY);
  }

  lemma ActionEffect(a: Action, c: Call, m: Message, isY: bool)
    requires Numbered(c)
    ensures Does(a, c, CyclicPerform(a, c, m, isY), m, isY)
  {
    hide InRange, WindowEnd, PacketBytes, Bytes;
    PacketBytesTable(c.packet);
  }

  // Over whole runs

  /** What packets and acknowledgements carry. */
  datatype Carried =
    | CarriedData(q: nat, pr: nat, ps: nat, data: seq<nat>)
    | CarriedRR(pr: nat)
    | CarriedRNR(pr: nat)

  function InReply(r: Reply): seq<Carried> {
    match r
    case SendData(q, pr, ps, data) => [CarriedData(q, pr, ps, data)]
    case SendRR(pr) => [CarriedRR(pr)]
    case SendRNR(pr) => [CarriedRNR(pr)]
    case _ => []
  }

  function InMessage(m: Message): seq<Carried> {
    match m.kind
    case Data => [CarriedData(m.q, m.pr, m.ps, m.data)]
    case RR => [CarriedRR(m.pr)]
    case RNR => [CarriedRNR(m.pr)]
    case _ => []
  }

  /** The packets and acknowledgements sent to a worker, in order. */
  function Delivered(log: seq<Entry>, toY: bool): seq<Carried> {
    if log == [] then []
    else
      var e := log[|log| - 1];
      Delivered(log[..|log| - 1], toY) + if e.Replied? && e.sent.toY == toY then InReply(e.sent.reply) else []
  }

  /** The packets and acknowledgements received from a worker that the broker took, in order: its
      answer went to the other worker, with no word to the sender. */
  function Taken(log: seq<Entry>, fromY: bool): seq<Carried> {
    if |log| < 2 then []
    else
      var e, answer := log[|log| - 2], log[|log| - 1];
      Taken(log[..|log| - 1], fromY)
      + if e.Received? && e.event.isY == fromY && answer.Replied? && answer.sent.toY != fromY
        then InMessage(e.event.message) else []
  }

  /** The replies to one message: the message itself to the other worker, or nothing of the kind and
      the first word to the sender. */
  predicate Echo(e: Event, out: seq<Sent>) {
    || (Packets(e.message.kind) && |out| == 1 && out[0].toY != e.isY && InReply(out[0].reply) == InMessage(e.message))
    || (&& |out| <= 2 && (forall i :: 0 <= i < |out| ==> InReply(out[i].reply) == [])
        && (out == [] || out[0].toY == e.isY || InMessage(e.message) == []))
  }

  lemma ReplyEchoes(c: Call, e: Event)
    requires Numbered(c) && Validated(e.message)
    ensures var r := CyclicStep(c, e.message, e.isY); r.Next? ==> Echo(e, r.out)
  {
    hide CyclicStep, InRange, WindowEnd, Bytes, PacketBytes, Rule, Echo, Does;
    DispatchEffect(c, e.message, e.isY);
    RuleCarries(c.state, e.message.kind, e.isY);
    if CyclicStep(c, e.message, e.isY).Next? {
      EffectEchoes(Rule(c.state, e.message.kind, e.isY), c, CyclicStep(c, e.message, e.isY), e);
    }
  }

  /** Packets and acknowledgements have actions of their own, or are punished or discarded. */
  predicate Suits(a: Action, k: Kind) {
    && (a == DoData ==> k == Data) && (a == DoRR ==> k == RR) && (a == DoRNR ==> k == RNR)
    && (Packets(k) ==> a in {DoData, DoRR, DoRNR, Discard, Action.Reset, Action.Clear})
  }

  lemma RuleCarries(s: State, k: Kind, isY: bool)
    ensures Suits(Rule(s, k, isY), k)
  {
  }

  lemma EffectEchoes(a: Action, c: Call, r: Result, e: Event)
    requires Does(a, c, r, e.message, e.isY) && Suits(a, e.message.kind) && r.Next?
    ensures Echo(e, r.out)
  {
    hide InRange, WindowEnd, Bytes;
  }

  lemma DeliveredOne(log: seq<Entry>, x: Entry, toY: bool)
    ensures Delivered(log + [x], toY)
         == Delivered(log, toY) + if x.Replied? && x.sent.toY == toY then InReply(x.sent.reply) else []
  {
    assert (log + [x])[..|log|] == log;
  }

  lemma TakenOne(log: seq<Entry>, x: Entry, fromY: bool)
    ensures Taken(log + [x], fromY)
         == Taken(log, fromY)
            + if log != [] && log[|log| - 1].Received? && log[|log| - 1].event.isY == fromY
                 && x.Replied? && x.sent.toY != fromY
              then InMessage(log[|log| - 1].event.message) else []
  {
    assert (log + [x])[..|log|] == log;
  }

  lemma EchoKeepsStreams(log: seq<Entry>, e: Event, out: seq<Sent>, toY: bool)
    requires Echo(e, out) && Delivered(log, toY) == Taken(log, !toY)
    ensures var log' := log + [Received(e)] + Replies(out); Delivered(log', toY) == Taken(log', !toY)
  {
    hide Delivered, Taken, InReply, InMessage;
    var log1 := log + [Received(e)];
    DeliveredOne(log, Received(e), toY);
    TakenOne(log, Received(e), !toY);
    if out == [] {
      assert log1 + Replies(out) == log1;
    } else {
      var log2 := log1 + [Replied(out[0])];
      DeliveredOne(log1, Replied(out[0]), toY);
      TakenOne(log1, Replied(out[0]), !toY);
      if |out| == 1 {
        assert log1 + Replies(out) == log2;
      } else {
        DeliveredOne(log2, Replied(out[1]), toY);
        TakenOne(log2, Replied(out[1]), !toY);
        assert log1 + Replies(out) == log2 + [Replied(out[1])];
      }
    }
  }

  /** In every run, with every window: the packets and acknowledgements a worker is sent are, in order
      and unchanged, those the broker took from the other. */
  lemma {:induction false} TakenIsDelivered(c: Call, es: seq<Event>, toY: bool)
    requires New(c) && AllValidated(es)
    ensures var log := CyclicRun(c, es).log; Delivered(log, toY) == Taken(log, !toY)
  {
    hide CyclicStep, Echo, Delivered, Taken;
    if es == [] {
      EmptyStreams(toY);
    } else {
      var t, e := CyclicRun(c, es[..|es| - 1]), es[|es| - 1];
      TakenIsDelivered(c, es[..|es| - 1], toY);
      if !t.Over() {
        match CyclicStep(t.call, e.message, e.isY)
        case Abort =>
          DeliveredOne(t.log, Received(e), toY);
          TakenOne(t.log, Received(e), !toY);
        case Next(_, out) =>
          ReplyEchoes(t.call, e);
          EchoKeepsStreams(t.log, e, out, toY);
      }
    }
  }

  lemma EmptyStreams(toY: bool)
    ensures Delivered([], toY) == Taken([], !toY)
  {
  }
}
