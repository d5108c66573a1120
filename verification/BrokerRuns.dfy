/** Whole runs of a broker channel, from its creation in state_x_call_request until it closes. */
module BrokerRuns {
  import opened Sequence
  import opened BrokerTables
  import opened Broker

  datatype Event = Event(message: Message, isY: bool)

  /** What happened on the channel, in order. */
  datatype Entry = Received(event: Event) | Replied(sent: Sent)

  datatype Trace = Trace(call: Call, log: seq<Entry>, aborted: bool)
  {
    /** The poll loop removes a channel that is in state_ready. */
    predicate Over() {
      aborted || call.state == Ready
    }
  }

  predicate Initial(c: Call) {
    && c.state == XCallRequest && c.x == c.y == Side(0, 0)
    && WindowOk(c.window) && PacketOk(c.packet) && TputOk(c.tput)
  }

  predicate AllValidated(es: seq<Event>) {
    forall i :: 0 <= i < |es| ==> Validated(es[i].message)
  }

  function Replies(out: seq<Sent>): seq<Entry> {
    seq(|out|, i requires 0 <= i < |out| => Replied(out[i]))
  }

  function Extend(t: Trace, e: Event): Trace
    requires PacketOk(t.call.packet) && Validated(e.message)
  {
    if t.Over() then t else
      match Step(t.call, e.message, e.isY)
      case Abort => t.(log := t.log + [Received(e)], aborted := true)
      case Next(call, out) => Trace(call, t.log + [Received(e)] + Replies(out), false)
  }

  function Run(c: Call, es: seq<Event>): (t: Trace)
    requires Initial(c) && AllValidated(es)
    ensures PacketOk(t.call.packet)
  {
    if es == [] then Trace(c, [], false)
    else
      var t := Run(c, es[..|es| - 1]);
      StepKeepsRunning(t.call, es[|es| - 1].message, es[|es| - 1].isY);
      Extend(t, es[|es| - 1])
  }

  /** What a running channel satisfies between messages. */
  predicate Running(c: Call) {
    Sound(c) && c.state !in {YCallRequest, XResetRequest}
  }

  /** Every step keeps the counts consistent with the window. */
  lemma StepKeepsRunning(c: Call, m: Message, isY: bool)
    requires PacketOk(c.packet) && Validated(m)
    ensures var r := Step(c, m, isY);
            && (r.Next? ==> PacketOk(r.call.packet))
            && (Running(c) && r.Next? ==> Running(r.call))
  {
    TableFacts(c.state, m.kind, isY);
    var a := ActionOf(c.state, m.kind, isY);
    PerformKeepsRunning(a, c, m, isY);
  }

  lemma PerformKeepsRunning(a: Action, c: Call, m: Message, isY: bool)
    requires PacketOk(c.packet)
    requires a in {DoData, DoRR, DoRNR} ==> c.state == DataTransfer && m.pr <= SEQ_MAX
    requires a == DoCallAccepted ==> c.state in {XCallRequest, CallCollision}
    requires a == DoCallAccepted ==> PacketOk(m.packet) && TputOk(m.throughput)
    requires a == DoCallCollision ==> c.state == XCallRequest
    ensures var r := Perform(a, c, m, isY);
            && (r.Next? ==> PacketOk(r.call.packet))
            && (Running(c) && r.Next? ==> Running(r.call))
  {
    if Running(c) && a in {DoData, DoRR, DoRNR} {
      TestsAreExact(c, m, isY);
    }
  }

  /** From every state of a running channel, dispatch aborts exactly on a DIRECTORY message from
      the callee: the one message kind that its table has no column for. */
  lemma AbortsOnlyOnCalleeDirectory(c: Call, m: Message, isY: bool)
    requires Running(c) && c.state != Ready && Validated(m)
    ensures Step(c, m, isY).Abort? <==> isY && m.kind == Directory
  {
    TableFacts(c.state, m.kind, isY);
  }

  /** Safety over every run: counts and window stay consistent, two of the nine states are never
      entered, and the counters are zero while the call is being set up. */
  lemma {:induction false} RunsStaySound(c: Call, es: seq<Event>)
    requires Initial(c) && AllValidated(es)
    ensures var d := Run(c, es).call;
            && Sound(d)
            && d.state != YCallRequest && d.state != XResetRequest
            && (d.state in {XCallRequest, CallCollision} ==> d.x == d.y == Side(0, 0))
            && d.x.sent - d.y.acked <= d.window + 1 <= SEQ_MAX
            && d.y.sent - d.x.acked <= d.window + 1 <= SEQ_MAX
  {
    hide Step;
    if es != [] {
      var last := es[|es| - 1];
      RunsStaySound(c, es[..|es| - 1]);
      StepKeepsRunning(Run(c, es[..|es| - 1]).call, last.message, last.isY);
    }
  }

  /** Event `i` is a DIRECTORY message from the callee that the channel was still open for. */
  predicate CalleeDirectoryAt(c: Call, es: seq<Event>, i: nat)
    requires Initial(c) && AllValidated(es) && i < |es|
  {
    es[i].isY && es[i].message.kind == Directory && !Run(c, es[..i]).Over()
  }

  /** A run is aborted exactly when the callee sent a DIRECTORY message while the channel was open. */
  lemma {:induction false} RunsAbortOnlyOnDirectory(c: Call, es: seq<Event>)
    requires Initial(c) && AllValidated(es)
    ensures Run(c, es).aborted <==> exists i :: 0 <= i < |es| && CalleeDirectoryAt(c, es, i)
  {
    hide Step;
    if es != [] {
      var n := |es| - 1;
      var before, last := es[..n], es[n];
      RunsAbortOnlyOnDirectory(c, before);
      RunsStaySound(c, before);
      forall i | 0 <= i < n
        ensures CalleeDirectoryAt(c, before, i) == CalleeDirectoryAt(c, es, i)
      {
        assert before[..i] == es[..i];
      }
      var t := Run(c, before);
      if !t.Over() {
        AbortsOnlyOnCalleeDirectory(t.call, last.message, last.isY);
        assert CalleeDirectoryAt(c, es, n) == Run(c, es).aborted;
      }
    }
  }

  // Closing

  predicate AskedToClose(log: seq<Entry>, isY: bool) {
    exists i :: 0 <= i < |log| && log[i].Received? && log[i].event.isY == isY
                && log[i].event.message.kind in {ClearRequest, Disconnect}
  }

  predicate ToldToClose(log: seq<Entry>, isY: bool) {
    exists i :: 0 <= i < |log| && log[i].Replied? && log[i].sent.toY == isY && log[i].sent.reply.SendClear?
  }

  predicate Knows(log: seq<Entry>, isY: bool) {
    AskedToClose(log, isY) || ToldToClose(log, isY)
  }

  lemma KnowsGrows(log: seq<Entry>, more: seq<Entry>, isY: bool)
    ensures Knows(log, isY) || Knows(more, isY) ==> Knows(log + more, isY)
  {
    var all := log + more;
    assert forall i :: 0 <= i < |log| ==> all[i] == log[i];
    assert forall i :: 0 <= i < |more| ==> all[|log| + i] == more[i];
  }

  predicate Closing(s: State) {
    s in {Ready, XClearRequest, YClearRequest}
  }

  /** What one step adds to the log is enough for both workers to know of a close it starts. */
  lemma StepTellsOfClose(c: Call, e: Event)
    requires PacketOk(c.packet) && Validated(e.message) && !Closing(c.state)
    ensures var r := Step(c, e.message, e.isY);
            r.Next? && Closing(r.call.state) ==>
              Knows([Received(e)] + Replies(r.out), false) && Knows([Received(e)] + Replies(r.out), true)
  {
    var r := Step(c, e.message, e.isY);
    if r.Next? && Closing(r.call.state) {
      var added := [Received(e)] + Replies(r.out);
      assert added[0] == Received(e);
      assert |r.out| >= 1 && added[1] == Replied(r.out[0]);
      if |r.out| == 2 {
        assert added[2] == Replied(r.out[1]);
      }
    }
  }

  /** No silent close: when a channel has closed, or one side has begun to close it, each worker
      has itself asked for a clear or a disconnect, or has been sent a CLEAR_REQUEST. */
  lemma {:induction false} NoSilentClose(c: Call, es: seq<Event>, isY: bool)
    requires Initial(c) && AllValidated(es)
    ensures var t := Run(c, es);
            Closing(t.call.state) ==> AskedToClose(t.log, isY) || ToldToClose(t.log, isY)
  {
    hide Step, AskedToClose, ToldToClose, Closing;
    if es == [] {
      NotClosing();
    } else {
      var e := es[|es| - 1];
      var t := Run(c, es[..|es| - 1]);
      NoSilentClose(c, es[..|es| - 1], isY);
      if !t.Over() {
        ExtendKnows(t, e, isY);
      }
    }
  }

  lemma NotClosing()
    ensures !Closing(XCallRequest)
  {
  }

  lemma ExtendKnows(t: Trace, e: Event, isY: bool)
    requires PacketOk(t.call.packet) && Validated(e.message) && !t.Over()
    requires Closing(t.call.state) ==> Knows(t.log, isY)
    ensures var t' := Extend(t, e); Closing(t'.call.state) ==> Knows(t'.log, isY)
  {
    hide Step, Knows, Closing, Replies;
    match Step(t.call, e.message, e.isY)
    case Abort => KnowsGrows(t.log, [Received(e)], isY);
    case Next(_, out) =>
      if !Closing(t.call.state) {
        StepTellsOfClose(t.call, e);
      }
      KnowsGrows(t.log, [Received(e)] + Replies(out), isY);
      assert t.log + [Received(e)] + Replies(out) == t.log + ([Received(e)] + Replies(out));
  }

  // What the counters count

  predicate Zeroes(e: Entry) {
    e.Replied? && (e.sent.reply.SendResetConfirmation? || e.sent.reply.SendClearConfirmation?)
  }

  /** Data packets forwarded to a worker since the numbers were last zeroed. */
  function Forwarded(log: seq<Entry>, toY: bool): nat {
    if log == [] then 0
    else
      var e, before := log[|log| - 1], log[..|log| - 1];
      if Zeroes(e) then 0
      else Forwarded(before, toY) + if e.Replied? && e.sent.toY == toY && e.sent.reply.SendData? then 1 else 0
  }

  /** The last acknowledgement forwarded to a worker since the numbers were last zeroed. */
  function LastAck(log: seq<Entry>, toY: bool): nat {
    if log == [] then 0
    else
      var e, before := log[|log| - 1], log[..|log| - 1];
      if Zeroes(e) then 0
      else if e.Replied? && e.sent.toY == toY
              && (e.sent.reply.SendData? || e.sent.reply.SendRR? || e.sent.reply.SendRNR?)
      then e.sent.reply.pr
      else LastAck(before, toY)
  }

  /** The count that the acknowledgements forwarded to a worker since the last zeroing have reached,
      each taken as the least count of its number from the one before on. */
  function Acked(log: seq<Entry>, toY: bool): nat {
    if log == [] then 0
    else
      var e, before := log[|log| - 1], log[..|log| - 1];
      if Zeroes(e) then 0
      else if e.Replied? && e.sent.toY == toY
              && (e.sent.reply.SendData? || e.sent.reply.SendRR? || e.sent.reply.SendRNR?)
      then NextNamed(Acked(before, toY), e.sent.reply.pr % CYCLE, CYCLE)
      else Acked(before, toY)
  }

  /** Log entries that are neither data, acknowledgements nor confirmations change no count. */
  lemma {:induction false} NeutralEntries(log: seq<Entry>, more: seq<Entry>, toY: bool)
    requires forall i :: 0 <= i < |more| && more[i].Replied? ==>
               more[i].sent.reply.SendReset? || more[i].sent.reply.SendClear? || more[i].sent.reply.SendAccepted?
               || more[i].sent.reply.SendDiagnostic?
    ensures Forwarded(log + more, toY) == Forwarded(log, toY)
    ensures LastAck(log + more, toY) == LastAck(log, toY)
    ensures Acked(log + more, toY) == Acked(log, toY)
  {
    if more == [] {
      assert log + more == log;
    } else {
      var all := log + more;
      assert all[..|all| - 1] == log + more[..|more| - 1];
      NeutralEntries(log, more[..|more| - 1], toY);
    }
  }

  predicate Matches(c: Call, log: seq<Entry>, toY: bool) {
    && c.Of(!toY).sent == Forwarded(log, toY)
    && c.Of(!toY).acked == Acked(log, toY)
    && c.Of(!toY).acked % CYCLE == LastAck(log, toY)
  }

  /** A step changes the counts of a call just as its log entries say. */
  lemma StepMatchesLog(c: Call, log: seq<Entry>, e: Event, toY: bool)
    requires Sound(c) && Validated(e.message) && Step(c, e.message, e.isY).Next?
    requires Matches(c, log, toY)
    ensures var r := Step(c, e.message, e.isY);
            Matches(r.call, log + [Received(e)] + Replies(r.out), toY)
  {
    var a := ActionOf(c.state, e.message.kind, e.isY);
    TableFacts(c.state, e.message.kind, e.isY);
    NeutralEntries(log, [Received(e)], toY);
    hide ActionOf;
    PerformMatchesLog(a, c, log + [Received(e)], e.message, e.isY, toY);
  }

  lemma PerformMatchesLog(a: Action, c: Call, log: seq<Entry>, m: Message, isY: bool, toY: bool)
    requires Sound(c) && Matches(c, log, toY)
    requires a in {DoData, DoRR, DoRNR} ==> m.pr <= SEQ_MAX
    requires Perform(a, c, m, isY).Next?
    ensures var r := Perform(a, c, m, isY); Matches(r.call, log + Replies(r.out), toY)
  {
    hide StepData, StepAck, StepAccepted, Forwarded, LastAck, Acked;
    var r := Perform(a, c, m, isY);
    if a in {DoData, DoRR, DoRNR} {
      FlowMatchesLog(a, c, log, m, isY, toY);
    } else if a in {DoClearConfirmation, DoResetConfirmation} {
      LogZeroed(log, r.out[0], toY);
    } else if a == DoCallAccepted {
      AcceptedMatchesLog(c, log, m, isY, toY);
    } else {
      NeutralEntries(log, Replies(r.out), toY);
    }
  }

  lemma AcceptedMatchesLog(c: Call, log: seq<Entry>, m: Message, isY: bool, toY: bool)
    requires Matches(c, log, toY)
    ensures var r := StepAccepted(c, m, isY); r.Next? && Matches(r.call, log + Replies(r.out), toY)
  {
    NeutralEntries(log, Replies(StepAccepted(c, m, isY).out), toY);
  }

  lemma LogZeroed(log: seq<Entry>, sent: Sent, toY: bool)
    requires sent.reply.SendResetConfirmation? || sent.reply.SendClearConfirmation?
    ensures var log' := log + Replies([sent]); Forwarded(log', toY) == Acked(log', toY) == LastAck(log', toY) == 0
  {
    LastEntry(log, sent);
  }

  lemma LastEntry(log: seq<Entry>, sent: Sent)
    ensures var log' := log + Replies([sent]);
            log' != [] && log'[..|log'| - 1] == log && log'[|log'| - 1] == Replied(sent)
  {
  }

  lemma FlowMatchesLog(a: Action, c: Call, log: seq<Entry>, m: Message, isY: bool, toY: bool)
    requires Sound(c) && Matches(c, log, toY) && a in {DoData, DoRR, DoRNR} && m.pr <= SEQ_MAX
    ensures var r := Perform(a, c, m, isY); r.Next? && Matches(r.call, log + Replies(r.out), toY)
  {
    hide NextNamed, Capacity, Forwarded, LastAck, Acked, InRange, WindowEnd, Sound, PacketBytes, Replies;
    SoundPacket(c);
    NextNamedIsLeast(c.Of(isY).acked, m.pr, CYCLE, 0);
    var r := Perform(a, c, m, isY);
    var sent := r.out[0];
    assert r.out == [sent];
    LogOfOne(log, sent, toY);
  }

  lemma SoundPacket(c: Call)
    requires Sound(c)
    ensures PacketOk(c.packet)
  {
  }

  /** What one reply adds to what the log says. */
  lemma LogOfOne(log: seq<Entry>, sent: Sent, toY: bool)
    requires !sent.reply.SendResetConfirmation? && !sent.reply.SendClearConfirmation?
    ensures var log' := log + Replies([sent]);
            && Forwarded(log', toY)
               == Forwarded(log, toY) + (if sent.toY == toY && sent.reply.SendData? then 1 else 0)
            && LastAck(log', toY)
               == (if sent.toY == toY && (sent.reply.SendData? || sent.reply.SendRR? || sent.reply.SendRNR?)
                   then sent.reply.pr else LastAck(log, toY))
            && Acked(log', toY)
               == if sent.toY == toY && (sent.reply.SendData? || sent.reply.SendRR? || sent.reply.SendRNR?)
                  then NextNamed(Acked(log, toY), sent.reply.pr % CYCLE, CYCLE) else Acked(log, toY)
  {
    hide NextNamed;
    LastEntry(log, sent);
  }

  /** In every run the counts are the packets forwarded and the acknowledgements reached since the
      last zeroing, and the cyclic acknowledgement number is the last one forwarded. */
  lemma {:induction false} CountsAreForwards(c: Call, es: seq<Event>, toY: bool)
    requires Initial(c) && AllValidated(es)
    ensures var t := Run(c, es);
            && t.call.Of(!toY).sent == Forwarded(t.log, toY)
            && t.call.Of(!toY).acked == Acked(t.log, toY)
            && t.call.Of(!toY).acked % CYCLE == LastAck(t.log, toY)
  {
    if es != [] {
      hide Step;
      var e := es[|es| - 1];
      var t := Run(c, es[..|es| - 1]);
      CountsAreForwards(c, es[..|es| - 1], toY);
      RunsStaySound(c, es[..|es| - 1]);
      if !t.Over() {
        match Step(t.call, e.message, e.isY)
        case Abort => NeutralEntries(t.log, [Received(e)], toY);
        case Next(_, _) => StepMatchesLog(t.call, t.log, e, toY);
      }
    }
  }

  /** Between zeroings counts only grow, a step sends at most one packet, and an acknowledgement
      never passes what was sent. */
  lemma CountsAdvance(c: Call, m: Message, isY: bool, side: bool)
    requires Sound(c) && Validated(m) && Step(c, m, isY).Next?
    ensures var d := Step(c, m, isY).call;
            || (d.x == d.y == Side(0, 0))
            || (&& c.Of(side).sent <= d.Of(side).sent <= c.Of(side).sent + 1
                && c.Of(side).acked <= d.Of(side).acked <= d.Of(!side).sent)
  {
    hide ActionOf, Capacity, InRange, WindowEnd, Refusal, Tell;
    TableFacts(c.state, m.kind, isY);
    if m.pr <= SEQ_MAX {
      TestsAreExact(c, m, isY);
    }
    hide NextNamed;
  }
}
