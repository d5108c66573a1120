/** Which windows the broker's flow control works for. The poll loop lets 0 and 8 through as well,
    and there the numbers modulo nine stop telling counts apart. */
module BrokerWindows {
  import opened Sequence
  import opened BrokerTables
  import opened Broker
  import opened BrokerRuns

  // The window test

  /** The window test refuses some number, whatever was last acknowledged. */
  predicate Closes(window: nat) {
    forall pr :: 0 <= pr <= SEQ_MAX ==> RefusesSome(pr, window)
  }

  predicate RefusesSome(pr: nat, window: nat) {
    exists ps :: 0 <= ps <= SEQ_MAX && !InRange(ps, pr, WindowEnd(pr, window))
  }

  /** The window test can refuse after every acknowledgement exactly for windows from one to seven.
      At eight it refuses nothing once a packet has been acknowledged, at zero nothing at all. */
  lemma WindowClosesIff(window: nat)
    requires SeqOk(window)
    ensures Closes(window) <==> WindowOk(window)
    ensures window == SEQ_MAX ==> forall pr :: 1 <= pr <= SEQ_MAX ==> !RefusesSome(pr, window)
    ensures window == 0 ==> forall pr :: 0 <= pr <= SEQ_MAX ==> !RefusesSome(pr, window)
  {
    if WindowOk(window) {
      forall pr: nat | pr <= SEQ_MAX
        ensures RefusesSome(pr, window)
      {
        var end := WindowEnd(pr, window);
        var ps: nat := if pr + window <= SEQ_MAX then end + 1 else pr - 1;
        assert ps <= SEQ_MAX && !InRange(ps, pr, end);
      }
    } else {
      assert !RefusesSome(1, window);
    }
  }

  // Runs on the numbers of the source

  /** A new channel, with any facilities the poll loop lets through. */
  predicate New(c: Call) {
    c.state == XCallRequest && c.x == c.y == Side(0, 0) && Numbered(c)
  }

  function CyclicExtend(t: Trace, e: Event): Trace
    requires PacketOk(t.call.packet)
  {
    if t.Over() then t else
      match CyclicStep(t.call, e.message, e.isY)
      case Abort => t.(log := t.log + [Received(e)], aborted := true)
      case Next(call, out) => Trace(call, t.log + [Received(e)] + Replies(out), false)
  }

  function CyclicRun(c: Call, es: seq<Event>): (t: Trace)
    requires New(c) && AllValidated(es)
    ensures Numbered(t.call)
  {
    if es == [] then Trace(c, [], false)
    else
      var t, e := CyclicRun(c, es[..|es| - 1]), es[|es| - 1];
      StaysNumbered(t.call, e.message, e.isY);
      CyclicExtend(t, e)
  }

  lemma StaysNumbered(c: Call, m: Message, isY: bool)
    requires Numbered(c) && Validated(m)
    ensures var r := CyclicStep(c, m, isY); r.Next? ==> Numbered(r.call)
  {
    TableFacts(c.state, m.kind, isY);
    hide ActionOf, InRange, WindowEnd, PacketBytes, Refusal, Tell;
  }

  /** For windows from one to seven a run on the numbers is the run on the counts, reduced. */
  lemma {:induction false} CyclicRunsRefine(c: Call, es: seq<Event>)
    requires Initial(c) && New(c) && AllValidated(es)
    ensures var t := Run(c, es); CyclicRun(c, es) == t.(call := Reduced(t.call))
  {
    hide Step, CyclicStep, Reduced;
    if es == [] {
      ReducedZero(c);
    } else {
      var e := es[|es| - 1];
      CyclicRunsRefine(c, es[..|es| - 1]);
      RunsStaySound(c, es[..|es| - 1]);
      var t := Run(c, es[..|es| - 1]);
      ReducedKeeps(t.call);
      if !t.Over() {
        CyclicRefines(t.call, e.message, e.isY);
      }
    }
  }

  lemma ReducedZero(c: Call)
    requires c.x == c.y == Side(0, 0)
    ensures Reduced(c) == c
  {
  }

  lemma ReducedKeeps(c: Call)
    ensures Reduced(c).state == c.state && Reduced(c).packet == c.packet
  {
  }

  lemma CyclicStates(c: Call, m: Message, isY: bool)
    requires Numbered(c) && Validated(m) && c.state !in {YCallRequest, XResetRequest}
    ensures var r := CyclicStep(c, m, isY);
            && (r.Next? ==> r.call.state !in {YCallRequest, XResetRequest})
            && (c.state != Ready ==> (r.Abort? <==> isY && m.kind == Directory))
  {
    TableFacts(c.state, m.kind, isY);
    hide ActionOf, InRange, WindowEnd, PacketBytes, Refusal, Tell;
  }

  /** Event `i` is a DIRECTORY message from the callee that the channel was still open for. */
  predicate DirectoryAt(c: Call, es: seq<Event>, i: nat)
    requires New(c) && AllValidated(es) && i < |es|
  {
    es[i].isY && es[i].message.kind == Directory && !CyclicRun(c, es[..i]).Over()
  }

  /** With every window the two states that no call needs are never entered, and a run is aborted
      exactly when the callee sent a DIRECTORY message while the channel was open. */
  lemma {:induction false} CyclicRunsAbortIff(c: Call, es: seq<Event>)
    requires New(c) && AllValidated(es)
    ensures CyclicRun(c, es).call.state !in {YCallRequest, XResetRequest}
    ensures CyclicRun(c, es).aborted <==> exists i :: 0 <= i < |es| && DirectoryAt(c, es, i)
  {
    hide CyclicStep, Numbered;
    if es != [] {
      var n := |es| - 1;
      var before, last := es[..n], es[n];
      CyclicRunsAbortIff(c, before);
      forall i | 0 <= i < n
        ensures DirectoryAt(c, before, i) == DirectoryAt(c, es, i)
      {
        assert before[..i] == es[..i];
      }
      var t := CyclicRun(c, before);
      if !t.Over() {
        CyclicStates(t.call, last.message, last.isY);
        assert DirectoryAt(c, es, n) == CyclicRun(c, es).aborted;
      }
    }
  }

  /** Packets forwarded to a worker that it has not acknowledged. */
  function Outstanding(log: seq<Entry>, toY: bool): int {
    Forwarded(log, toY) - Acked(log, !toY)
  }

  /** More packets are outstanding than there are other numbers, so a number names two of them. */
  predicate Overruns(c: Call, es: seq<Event>, toY: bool)
    requires New(c)
  {
    AllValidated(es) && Outstanding(CyclicRun(c, es).log, toY) > SEQ_MAX
  }

  // Windows of zero and eight

  predicate Open(window: nat) {
    window == 0 || window == SEQ_MAX
  }

  function Plain(kind: Kind, pr: nat, ps: nat): Message {
    Message(kind, 0, pr, ps, [], "", "", 0, 0, 0, OtherCause, OtherDiag)
  }

  /** The callee accepts with the caller's own facilities. */
  function Acceptance(c: Call): Event {
    Event(Message(CallAccepted, 0, 0, 0, [], c.xname, c.yname, c.packet, c.window, c.tput, OtherCause, OtherDiag), true)
  }

  function Packet(ps: nat): Event {
    Event(Plain(Data, 0, ps), false)
  }

  /** The call is accepted, X sends a packet, Y acknowledges it, and X sends `k` more. */
  function Flood(c: Call, k: nat): seq<Event> {
    if k == 0 then [Acceptance(c), Packet(0), Event(Plain(RR, 1, 0), true)]
    else Flood(c, k - 1) + [Packet(k % CYCLE)]
  }

  lemma {:induction false} FloodValidated(c: Call, k: nat)
    requires Numbered(c)
    ensures AllValidated(Flood(c, k))
  {
    if k > 0 {
      FloodValidated(c, k - 1);
    }
  }

  lemma RunAppend(c: Call, es: seq<Event>, e: Event)
    requires New(c) && AllValidated(es) && Validated(e.message)
    ensures AllValidated(es + [e]) && CyclicRun(c, es + [e]) == CyclicExtend(CyclicRun(c, es), e)
  {
    assert (es + [e])[..|es|] == es;
  }

  /** The configuration after `k` more packets. */
  predicate Flooded(c: Call, t: Trace, k: nat) {
    && !t.aborted
    && t.call == c.(state := DataTransfer, x := Side((k + 1) % CYCLE, 0), y := Side(0, 1))
    && Forwarded(t.log, true) == k + 1 && Acked(t.log, false) == 1
  }

  lemma OpeningFloods(c: Call)
    requires New(c) && Open(c.window)
    ensures AllValidated(Flood(c, 0)) && Flooded(c, CyclicRun(c, Flood(c, 0)), 0)
  {
    hide CyclicRun, Forwarded, Acked;
    FloodValidated(c, 0);
    var a, b, d := Acceptance(c), Packet(0), Event(Plain(RR, 1, 0), true);
    EmptyRun(c);
    RunAppend(c, [], a);
    RunAppend(c, [] + [a], b);
    RunAppend(c, [] + [a] + [b], d);
    assert [] + [a] + [b] + [d] == Flood(c, 0);
    var t0, t1 := CyclicRun(c, []), CyclicRun(c, [] + [a]);
    var t2, t3 := CyclicRun(c, [] + [a] + [b]), CyclicRun(c, [] + [a] + [b] + [d]);
    Accepts(c, t0, t1);
    Takes(c, t1, t2, b, 0, 0);
    Acknowledges(c, t2, t3, d);
  }

  lemma EmptyRun(c: Call)
    requires New(c)
    ensures CyclicRun(c, []) == Trace(c, [], false)
  {
  }

  lemma Accepts(c: Call, t: Trace, t': Trace)
    requires New(c) && t == Trace(c, [], false) && t' == CyclicExtend(t, Acceptance(c))
    ensures t'.call == c.(state := DataTransfer) && !t'.aborted
    ensures Forwarded(t'.log, true) == 0 && Acked(t'.log, false) == 0
  {
    hide Forwarded, Acked;
    var e, r := Acceptance(c), CyclicStep(c, Acceptance(c).message, true);
    var reply := Sent(false, SendAccepted(c.xname, c.yname, c.packet, c.window, c.tput, []));
    assert r == Next(c.(state := DataTransfer), [reply]);
    LogOfEvent([], e, reply, true);
    LogOfEvent([], e, reply, false);
    EmptyLog();
  }

  lemma EmptyLog()
    ensures forall toY :: Forwarded([], toY) == 0 && Acked([], toY) == 0
  {
  }

  lemma LogOfEvent(log: seq<Entry>, e: Event, sent: Sent, toY: bool)
    requires !sent.reply.SendResetConfirmation? && !sent.reply.SendClearConfirmation?
    ensures var log' := log + [Received(e)] + Replies([sent]);
            && Forwarded(log', toY)
               == Forwarded(log, toY) + (if sent.toY == toY && sent.reply.SendData? then 1 else 0)
            && Acked(log', toY)
               == if sent.toY == toY && (sent.reply.SendData? || sent.reply.SendRR? || sent.reply.SendRNR?)
                  then NextNamed(Acked(log, toY), sent.reply.pr % CYCLE, CYCLE) else Acked(log, toY)
  {
    hide Forwarded, Acked, NextNamed;
    NeutralEntries(log, [Received(e)], toY);
    LogOfOne(log + [Received(e)], sent, toY);
  }

  /** A packet of X is taken and forwarded. */
  lemma Takes(c: Call, t: Trace, t': Trace, e: Event, ps: nat, acked: nat)
    requires New(c) && ps <= SEQ_MAX && acked <= 1 && (Open(c.window) && (acked == 1 || ps == 0))
    requires !t.aborted && t.call == c.(state := DataTransfer, x := Side(ps, 0), y := Side(0, acked))
    requires e == Packet(ps) && t' == CyclicExtend(t, e)
    ensures !t'.aborted && t'.call == t.call.(x := Side((ps + 1) % CYCLE, 0))
    ensures Forwarded(t'.log, true) == Forwarded(t.log, true) + 1 && Acked(t'.log, false) == Acked(t.log, false)
  {
    hide Forwarded, Acked, PacketBytes;
    var reply := Sent(true, SendData(0, 0, ps, []));
    assert InRange(ps, acked, WindowEnd(acked, c.window));
    assert CyclicStep(t.call, e.message, false) == Next(t.call.(x := Side((ps + 1) % CYCLE, 0)), [reply]);
    LogOfEvent(t.log, e, reply, true);
    LogOfEvent(t.log, e, reply, false);
  }

  /** Y acknowledges the first packet. */
  lemma Acknowledges(c: Call, t: Trace, t': Trace, e: Event)
    requires New(c) && !t.aborted && t.call == c.(state := DataTransfer, x := Side(1, 0), y := Side(0, 0))
    requires Acked(t.log, false) == 0 && e == Event(Plain(RR, 1, 0), true) && t' == CyclicExtend(t, e)
    ensures !t'.aborted && t'.call == t.call.(y := Side(0, 1))
    ensures Forwarded(t'.log, true) == Forwarded(t.log, true) && Acked(t'.log, false) == 1
  {
    hide Forwarded, Acked;
    var reply := Sent(false, SendRR(1));
    assert CyclicStep(t.call, e.message, true) == Next(t.call.(y := Side(0, 1)), [reply]);
    LogOfEvent(t.log, e, reply, true);
    LogOfEvent(t.log, e, reply, false);
  }

  lemma {:induction false} FloodRuns(c: Call, k: nat)
    requires New(c) && Open(c.window)
    ensures AllValidated(Flood(c, k)) && Flooded(c, CyclicRun(c, Flood(c, k)), k)
  {
    hide CyclicRun, CyclicExtend, Forwarded, Acked;
    FloodValidated(c, k);
    if k == 0 {
      OpeningFloods(c);
    } else {
      FloodRuns(c, k - 1);
      RunAppend(c, Flood(c, k - 1), Packet(k % CYCLE));
      Takes(c, CyclicRun(c, Flood(c, k - 1)), CyclicRun(c, Flood(c, k)), Packet(k % CYCLE), k % CYCLE, 1);
      SuccessorName(k);
    }
  }

  /** At a window of zero or eight any number of packets can be outstanding. From nine on a number
      names two of them: the one X sends next can be the one Y has acknowledged. */
  lemma AnyNumberOutstanding(c: Call, k: nat)
    requires New(c) && Open(c.window)
    ensures var es := Flood(c, k);
            && AllValidated(es)
            && var t := CyclicRun(c, es);
               && Outstanding(t.log, true) == k && (k > SEQ_MAX <==> Overruns(c, es, true))
               && (k % CYCLE == 0 ==> t.call.x.sent == t.call.y.acked)
  {
    hide CyclicRun, Forwarded, Acked;
    FloodRuns(c, k);
    SuccessorName(k);
  }

  /** The exact condition: on a new channel no run has more than eight packets outstanding iff its
      window is from one to seven. */
  lemma NumbersSufficeIff(c: Call)
    requires New(c)
    ensures (forall es, toY :: !Overruns(c, es, toY)) <==> WindowOk(c.window)
  {
    hide CyclicRun, Run, Forwarded, Acked;
    if WindowOk(c.window) {
      forall es, toY
        ensures !Overruns(c, es, toY)
      {
        if AllValidated(es) {
          CyclicRunsRefine(c, es);
          RunsStaySound(c, es);
          CountsAreForwards(c, es, toY);
          CountsAreForwards(c, es, !toY);
        }
      }
    } else {
      AnyNumberOutstanding(c, 9);
    }
  }
}
