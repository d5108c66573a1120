/** The linked-pair channel as it is written: objects that point at each other, with handlers that
    update their fields in place (application10/channel.c, application10/client.c).

    Each handler is proved to do to the channel and its peer what the functions of `LinkedCell`
    say. A failed assertion is returned as `Some(check)`; the server would stop there. */
module LinkedChannel {
  import opened Sequence
  import opened LinkedCell
  import opened LinkedNet
  import opened LinkedTimers

  /** The values of a set of channels. */
  ghost function Snapshot(all: set<Channel>): Cells<Channel>
    reads all
  {
    map c | c in all :: c.View()
  }

  /** In a closed set, a channel and its peer are what the snapshot says. */
  lemma SnapshotAt(all: set<Channel>, x: Channel)
    requires x in all && Closed(Snapshot(all))
    ensures At(Snapshot(all), x) == x.Both()
    ensures x.peer != x && (x.peer != null ==> x.peer in all)
  {
    var cells := Snapshot(all);
    assert x in cells && cells[x] == x.View();
    if x.peer != null {
      assert cells[x].peer.value in cells;
    }
  }

  /** A restart or a timer check of one channel, seen in a closed set of channels. */
  method RestartIn(ch: Channel, ghost all: set<Channel>, now: int)
    requires ch in all && CellsOk(Snapshot(all))
    modifies all
    ensures Snapshot(all) == Put(old(Snapshot(all)), ch, Restart(At(old(Snapshot(all)), ch), now))
  {
    hide Restart, TimedOk;
    ghost var before, other := Snapshot(all), ch.peer;
    SnapshotAt(all, ch);
    ch.Restarted(now);
    SnapshotPut(all, before, ch, other, Restart(At(before, ch), now));
  }

  /** A client's message, seen in a closed set of channels: a step of the net they form. */
  method ProcessMessageIn(ch: Channel, ghost all: set<Channel>, m: Message, now: int) returns (failed: Option<Check>)
    requires ch in all && CellsOk(Snapshot(all)) && !(ch.state == P1 && m.CallRequest?)
    modifies all
    ensures match Handle(At(old(Snapshot(all)), ch), m, now)
            case Done(q) => failed.None? && Snapshot(all) == Put(old(Snapshot(all)), ch, q)
            case Abort(k) => failed == Some(k)
  {
    hide Handle, TimedOk;
    ghost var before, other := Snapshot(all), ch.peer;
    SnapshotAt(all, ch);
    failed := ch.ProcessMessage(m, now);
    if failed.None? {
      SnapshotPut(all, before, ch, other, Handle(At(before, ch), m, now).value);
    }
  }

  /** A call request, seen in a closed set of channels: the caller is cleared, or the set grows by
      the called channel and the two are linked. */
  method CallRequestedIn(ch: Channel, ghost all: set<Channel>, f: Facilities, called: string, list: seq<Client>,
                         now: int)
    returns (y: Channel?)
    requires ch in all && CellsOk(Snapshot(all)) && ch.state == P1
    requires forall c :: c in list ==> c.Valid()
    modifies all, list
    ensures y != null <==> old(ch.Placeable(f, called, list))
    ensures y == null ==>
              Snapshot(all) == Put(old(Snapshot(all)), ch, LinkedCell.PunishClear(At(old(Snapshot(all)), ch), now))
    ensures y != null ==>
              && y !in all
              && var q := Connect(old(Snapshot(all))[ch], ch, Fresh(), y, f, now).value;
                 q.y.Some? && Snapshot(all + {y}) == old(Snapshot(all))[ch := q.x][y := q.y.value]
  {
    hide TimedOk, Clear;
    ghost var before := Snapshot(all);
    SnapshotAt(all, ch);
    IdleAlone(all, ch);
    y := ch.CallRequested(f, called, list, now);
    if y == null {
      SnapshotPut(all, before, ch, null, LinkedCell.PunishClear(At(before, ch), now));
    } else {
      ghost var q := Connect(before[ch], ch, Fresh(), y, f, now).value;
      SnapshotLinked(all, before, ch, y, q);
    }
  }

  lemma IdleAlone(all: set<Channel>, ch: Channel)
    requires ch in all && CellsOk(Snapshot(all)) && ch.state == P1
    ensures ch.peer == null
  {
    assert Snapshot(all)[ch] == ch.View();
    assert TimedOk(Snapshot(all)[ch]);
  }

  lemma SnapshotLinked(all: set<Channel>, before: Cells<Channel>, ch: Channel, y: Channel, q: Pair<Channel>)
    requires ch in all && y !in all && before.Keys == all
    requires ch.View() == q.x && q.y == Some(y.View())
    requires forall c :: c in all && c != ch ==> c.View() == before[c]
    ensures Snapshot(all + {y}) == before[ch := q.x][y := q.y.value]
  {
    var after := before[ch := q.x][y := q.y.value];
    forall c | c in all + {y}
      ensures c.View() == after[c]
    {
    }
  }

  method CheckTimersIn(ch: Channel, ghost all: set<Channel>, now: int)
    requires ch in all && CellsOk(Snapshot(all))
    modifies all
    ensures Snapshot(all) == CheckAt(old(Snapshot(all)), ch, now)
  {
    hide Expire, TimedOk, CellsOk;
    ghost var before, other := Snapshot(all), ch.peer;
    CheckedIn(all, ch, now);
    var failed := ch.CheckTimers(now);
    assert ch.Became(CheckTimer(At(before, ch), now).value, other);
    SnapshotPut(all, before, ch, other, CheckTimer(At(before, ch), now).value);
  }

  /** A timer check of a channel of a sound set fails no assertion. */
  lemma CheckedIn(all: set<Channel>, ch: Channel, now: int)
    requires ch in all && CellsOk(Snapshot(all))
    ensures At(Snapshot(all), ch) == ch.Both() && Closed(Snapshot(all))
    ensures ch.peer != ch && (ch.peer != null ==> ch.peer in all)
    ensures CheckTimer(ch.Both(), now).Done?
    ensures CheckAt(Snapshot(all), ch, now) == Put(Snapshot(all), ch, CheckTimer(ch.Both(), now).value)
  {
    hide Expire, TimedOk;
    SnapshotAt(all, ch);
    if ch.timerType != NoTimer {
      ExpiredCellsOk(Snapshot(all), ch, now);
    }
    if !Due(ch.View(), now) {
      assert Put(Snapshot(all), ch, ch.Both()) == Snapshot(all);
    }
  }

  /** The snapshot after a channel and its peer have become `q` and no other channel has changed. */
  lemma SnapshotPut(all: set<Channel>, before: Cells<Channel>, ch: Channel, other: Channel?, q: Pair<Channel>)
    requires ch in all && before.Keys == all && (other != null ==> other in all) && other != ch
    requires before[ch].peer == if other == null then None else (var o: Channel := other; Some(o))
    requires ch.Became(q, other)
    requires forall c :: c in all && c != ch && c != other ==> c.View() == before[c]
    ensures Snapshot(all) == Put(before, ch, q)
  {
    var after := Put(before, ch, q);
    forall c | c in all
      ensures c.View() == after[c]
    {
    }
  }

  lemma RestartNone(cells: Cells<Channel>, now: int)
    ensures RestartAll(cells, [], now) == cells
  {
  }

  lemma RestartNext(cells: Cells<Channel>, order: seq<Channel>, i: nat, now: int)
    requires CellsOk(cells) && i < |order| && forall x :: x in order ==> x in cells
    ensures order[i] in cells && CellsOk(RestartAll(cells, order[..i], now))
    ensures var c := RestartAll(cells, order[..i], now);
            RestartAll(cells, order[..i + 1], now) == Put(c, order[i], Restart(At(c, order[i]), now))
  {
    hide Put, Restart, At;
    assert order[..i + 1][..i] == order[..i];
    RestartAllKeeps(cells, order[..i], now);
  }

  lemma SweepNext(cells: Cells<Channel>, order: seq<Channel>, i: nat, now: int)
    requires CellsOk(cells) && i < |order| && forall x :: x in order ==> x in cells
    ensures order[i] in cells
    ensures Sweep(cells, order[..i + 1], now) == CheckAt(Sweep(cells, order[..i], now), order[i], now)
    ensures CellsOk(Sweep(cells, order[..i + 1], now))
  {
    hide Sweep, CheckAt, CellsOk;
    assert order[..i + 1] == order[..i] + [order[i]];
    SweepAppend(cells, order[..i], order[i], now);
  }

  lemma SweepNone(cells: Cells<Channel>, now: int)
    requires CellsOk(cells)
    ensures Sweep(cells, [], now) == cells
  {
  }

  datatype CallDirection = Bidirectional | IncomingBarred | OutgoingBarred | AllBarred

  class Client {
    const address: string
    var iodir: CallDirection
    var channels: map<nat, Channel>

    constructor (address: string, iodir: CallDirection)
      ensures this.address == address && this.iodir == iodir && channels == map[]
    {
      this.address, this.iodir := address, iodir;
      channels := map[];
    }

    /** Every key of the table is its channel's own LCN. */
    ghost predicate Valid()
      reads this
    {
      forall k :: k in channels ==> 1 <= k <= MAX_LCN && channels[k].lcn == k && channels[k].parent == this
    }

    /** jz_client_reserve_low_channel: the least LCN in 1..1023 that is not in use, if there is
        one, gets a new idle channel, and nothing else changes. */
    method ReserveLowChannel() returns (ch: Channel?)
      requires Valid()
      modifies this`channels
      ensures Valid()
      ensures ch == null <==> forall k :: 1 <= k < MAX_LCN ==> k in old(channels)
      ensures ch == null ==> channels == old(channels)
      ensures ch != null ==>
                && fresh(ch) && ch.View() == Fresh() && ch.parent == this
                && LeastFree(old(channels), ch.lcn)
                && channels == old(channels)[ch.lcn := ch]
    {
      var lcn: nat := 1;
      while lcn in channels && lcn < MAX_LCN
        invariant 1 <= lcn <= MAX_LCN
        invariant forall k :: 1 <= k < lcn ==> k in channels
        decreases MAX_LCN - lcn
      {
        lcn := lcn + 1;
      }
      ch := null;
      if lcn < MAX_LCN {
        var made := new Channel(this, lcn);
        channels := channels[lcn := made];
        ch := made;
      }
    }

    /** The channel a client message is for, created if the LCN is new. */
    method ChannelFor(lcn: nat) returns (ch: Channel)
      requires Valid() && 1 <= lcn <= MAX_LCN
      modifies this`channels
      ensures Valid()
      ensures lcn in channels && ch == channels[lcn]
      ensures lcn in old(channels) ==> channels == old(channels)
      ensures lcn !in old(channels) ==> fresh(ch) && ch.View() == Fresh() && channels == old(channels)[lcn := ch]
    {
      if lcn !in channels {
        var made := new Channel(this, lcn);
        channels := channels[lcn := made];
      }
      ch := channels[lcn];
    }

    /** `walk` visits every key of the table once: an order in which a hash table may be walked. */
    predicate Walks(walk: seq<nat>)
      reads this
    {
      Distinct(walk) && OnlyKeys(channels, walk) && (forall k :: k in channels ==> k in walk)
    }

    /** The walk of a restart over the client's channels. */
    method RestartEach(walk: seq<nat>, ghost all: set<Channel>, now: int)
      requires Walks(walk)
      requires CellsOk(Snapshot(all)) && forall k :: k in channels ==> channels[k] in all
      modifies all
      ensures var order := Along(channels, walk);
              && (forall c :: c in order ==> c in all)
              && Snapshot(all) == RestartAll(old(Snapshot(all)), order, now)
    {
      ghost var before, order := Snapshot(all), Along(channels, walk);
      AlongWithin(channels, walk, all);
      hide Snapshot, Put, CellsOk, Restart, At, RestartAll, Along;
      RestartNone(before, now);
      assert order[..0] == [];
      for i := 0 to |walk|
        invariant before.Keys == all && CellsOk(before)
        invariant Snapshot(all) == RestartAll(before, order[..i], now)
      {
        var ch := channels[walk[i]];
        RestartNext(before, order, i, now);
        RestartIn(ch, all, now);
      }
      assert order[..|walk|] == order;
    }

    /** The channel part of a restart, a punishment restart and a hang-up: every channel of the
        client is restarted, in the order of the walk, and leaves the table. */
    method RestartChannels(walk: seq<nat>, ghost all: set<Channel>, now: int)
      requires Valid() && Walks(walk)
      requires CellsOk(Snapshot(all)) && forall k :: k in channels ==> channels[k] in all
      modifies this`channels, all
      ensures Valid() && channels == map[]
      ensures var order := Along(old(channels), walk);
              && (forall c :: c in order ==> c in all)
              && Snapshot(all) == RestartAll(old(Snapshot(all)), order, now)
    {
      hide CellsOk, RestartAll;
      RestartEach(walk, all, now);
      channels := map[];
    }

    /** The channel part of jz_client_check_timers. No assertion fails. */
    method CheckChannelTimers(walk: seq<nat>, ghost all: set<Channel>, now: int)
      requires Valid() && Walks(walk)
      requires CellsOk(Snapshot(all)) && forall k :: k in channels ==> channels[k] in all
      modifies all
      ensures var order := Along(channels, walk);
              && (forall c :: c in order ==> c in all)
              && Snapshot(all) == Sweep(old(Snapshot(all)), order, now)
    {
      ghost var before, order := Snapshot(all), Along(channels, walk);
      AlongWithin(channels, walk, all);
      hide Snapshot, Sweep, CellsOk, CheckAt, Along;
      SweepNone(before, now);
      assert order[..0] == [];
      for i := 0 to |walk|
        invariant before.Keys == all && CellsOk(before)
        invariant CellsOk(Snapshot(all)) && Snapshot(all) == Sweep(before, order[..i], now)
      {
        var ch := channels[walk[i]];
        SweepNext(before, order, i, now);
        CheckTimersIn(ch, all, now);
      }
      assert order[..|walk|] == order;
    }
  }

  predicate OnlyKeys(channels: map<nat, Channel>, walk: seq<nat>) {
    forall i :: 0 <= i < |walk| ==> walk[i] in channels
  }

  /** The channels of a table in the order of a walk. */
  function Along(channels: map<nat, Channel>, walk: seq<nat>): (order: seq<Channel>)
    requires OnlyKeys(channels, walk)
    ensures |order| == |walk| && forall i :: 0 <= i < |walk| ==> order[i] == channels[walk[i]]
  {
    seq(|walk|, i requires 0 <= i < |walk| => channels[walk[i]])
  }

  lemma AlongWithin(channels: map<nat, Channel>, walk: seq<nat>, all: set<Channel>)
    requires OnlyKeys(channels, walk) && forall k :: k in channels ==> channels[k] in all
    ensures forall c :: c in Along(channels, walk) ==> c in all
  {
    var order := Along(channels, walk);
    forall c | c in order
      ensures c in all
    {
      var i :| 0 <= i < |order| && order[i] == c;
      assert walk[i] in channels;
    }
  }

  /** The first client of the list with that address. */
  function FirstNamed(list: seq<Client>, address: string): (c: Client?)
    ensures c != null ==> c in list && c.address == address
    ensures c == null ==> forall d :: d in list ==> d.address != address
  {
    if list == [] then null
    else if list[0].address == address then list[0]
    else FirstNamed(list[1..], address)
  }

  /** jz_client_list_find_client. */
  method FindClient(list: seq<Client>, address: string) returns (c: Client?)
    ensures c == FirstNamed(list, address)
  {
    for i := 0 to |list|
      invariant FirstNamed(list, address) == FirstNamed(list[i..], address)
    {
      if list[i].address == address {
        return list[i];
      }
    }
    return null;
  }

  class Channel {
    const lcn: nat
    const parent: Client
    var peer: Channel?
    var state: State
    var clientPs: nat
    var clientPr: nat
    var peerPs: nat
    var peerPr: nat
    var window: nat
    var throughput: nat
    var packet: nat
    var timerType: Timer
    var timerExpires: int
    var timerCount: nat

    constructor (client: Client, lcn: nat)
      ensures parent == client && this.lcn == lcn && View() == Fresh()
    {
      parent, this.lcn := client, lcn;
      peer, state := null, P1;
      clientPs, clientPr, peerPs, peerPr := 0, 0, 0, 0;
      window, throughput, packet := 0, 0, 0;
      timerType, timerExpires, timerCount := NoTimer, 0, 0;
    }

    ghost function View(): Cell<Channel>
      reads this
    {
      var link: Option<Channel> := if peer == null then None else (var p: Channel := peer; Some(p));
      Cell(state, link, Flow(clientPs, clientPr, peerPs, peerPr),
           Facilities(window, throughput, packet), timerType, timerExpires, timerCount)
    }

    ghost function Both(): Pair<Channel>
      reads this, peer
    {
      Pair(View(), if peer == null then None else Some(peer.View()))
    }

    /** This channel and `other`, which was its peer, have become `p`. */
    ghost predicate Became(p: Pair<Channel>, other: Channel?)
      reads this, other
    {
      && View() == p.x
      && (p.y.Some? <==> other != null)
      && (other != null ==> other.View() == p.y.value)
    }

    // Messages from the server

    method StopTimer()
      modifies this
      ensures View() == LinkedCell.StopTimer(old(View()))
    {
      timerType, timerExpires, timerCount := NoTimer, 0, 0;
    }

    method StartTimer(timer: Timer, expires: int)
      modifies this
      ensures View() == LinkedCell.StartTimer(old(View()), timer, expires)
    {
      if timerType != timer {
        timerCount := 0;
      }
      timerType, timerExpires := timer, expires;
    }

    method ResetFlowControl()
      modifies this
      ensures View() == ResetFlow(old(View()))
    {
      peerPs, peerPr, clientPs, clientPr := 0, 0, 0, 0;
      state := D1;
    }

    method SetFacilities(f: Facilities)
      modifies this
      ensures View() == old(View()).(facilities := f)
    {
      window, throughput, packet := f.window, f.throughput, f.packet;
    }

    method ServerClearIndication(now: int)
      modifies this
      ensures View() == LinkedCell.StartTimer(old(View()).(state := P7, peer := None),
                                              ClearIndication, now + CLEAR_INDICATION_SECONDS)
    {
      state, peer := P7, null;
      StartTimer(ClearIndication, now + CLEAR_INDICATION_SECONDS);
    }

    method ServerCallConnected(f: Facilities)
      modifies this
      ensures View() == ResetFlow(old(View())).(facilities := f)
    {
      ResetFlowControl();
      SetFacilities(f);
    }

    method ServerAck(pr: nat) returns (failed: Option<Check>)
      modifies this
      ensures match ReceiveAck(old(View()), pr)
              case Done(c) => failed.None? && View() == c
              case Abort(k) => failed == Some(k)
    {
      if !InRange(pr, peerPr, clientPs) {
        return Some(AckRange);
      }
      peerPr := pr;
      return None;
    }

    method ServerData(pr: nat, ps: nat, size: nat) returns (failed: Option<Check>)
      modifies this
      ensures match ReceiveData(old(View()), pr, ps, size)
              case Done(c) => failed.None? && View() == c
              case Abort(k) => failed == Some(k)
    {
      if !PacketOk(packet) {
        return Some(PacketRange);
      }
      if size > PacketBytes(packet) {
        return Some(DataSize);
      }
      if size == 0 {
        return Some(DataSize);
      }
      if !InRange(ps, peerPr, WindowEnd(peerPr, window)) {
        return Some(PeerWindow);
      }
      peerPr := pr;
      peerPs := ps;
      return None;
    }

    /** jz_channel_process_server_message, by state as in the source. */
    method ReceiveMessage(m: Message, now: int) returns (failed: Option<Check>)
      modifies this
      ensures match Receive(old(View()), m, now)
              case Done(c) => failed.None? && View() == c
              case Abort(k) => failed == Some(k)
    {
      failed := None;
      match state {
        case P1 =>
          if m.ClearRequest? {
            ServerClearIndication(now);
          } else if m.CallRequest? {
            state := P3;
            SetFacilities(m.facilities);
            StartTimer(IncomingCall, now + INCOMING_CALL_SECONDS);
          }
        case P2 =>
          if m.ClearRequest? {
            ServerClearIndication(now);
          } else if m.CallRequest? {
            state := P5;
          } else if m.CallAccepted? {
            ServerCallConnected(m.facilities);
          }
        case P3 =>
          if m.ClearRequest? {
            ServerClearIndication(now);
          }
        case D1 =>
          if m.ClearRequest? {
            ServerClearIndication(now);
          } else if m.ResetRequest? {
            state := D3;
            StartTimer(ResetIndication, now + RESET_INDICATION_SECONDS);
          } else if m.Data? {
            failed := ServerData(m.pr, m.ps, m.size);
          } else if m.RR? || m.RNR? {
            failed := ServerAck(m.pr);
          }
        case D2 =>
          if m.ClearRequest? {
            ServerClearIndication(now);
          } else if m.ResetRequest? || m.ResetConfirmation? {
            ResetFlowControl();
          }
        case D3 =>
          if m.ClearRequest? {
            ServerClearIndication(now);
          }
        case P5 =>
          if m.ClearRequest? {
            ServerClearIndication(now);
          } else if m.CallAccepted? {
            ServerCallConnected(m.facilities);
          }
        case P6 =>
          if m.ClearRequest? || m.ClearConfirmation? {
            state := D1;
          }
        case P7 =>
      }
    }

    // Messages from the client

    method PunishClear(now: int)
      requires peer != this
      modifies this, peer
      ensures Became(LinkedCell.PunishClear(old(Both()), now), old(peer))
    {
      var other := peer;
      var failed := ReceiveMessage(ClearRequest, now);
      if other != null {
        other.peer := null;
        failed := other.ReceiveMessage(ClearRequest, now);
      }
    }

    method PunishReset(now: int)
      requires peer != this
      modifies this, peer
      ensures Became(LinkedCell.PunishReset(old(Both()), now), old(peer))
    {
      var other := peer;
      var failed := ReceiveMessage(ResetRequest(5), now);
      if other != null {
        failed := other.ReceiveMessage(ResetRequest(3), now);
      }
    }

    method ClientCallAccepted(f: Facilities, now: int) returns (failed: Option<Check>)
      requires peer != this
      modifies this, peer
      ensures match HandleAccepted(old(Both()), f, now)
              case Done(q) => failed.None? && Became(q, old(peer))
              case Abort(k) => failed == Some(k)
    {
      failed := None;
      if !SeqOk(f.window) || !SeqOk(window) {
        return Some(FacilityRange);
      }
      if !Negotiable(f.window, window, WINDOW_NEGOTIATE) {
        PunishClear(now);
        return;
      }
      if !TputOk(f.throughput) || !TputOk(throughput) {
        return Some(FacilityRange);
      }
      if !Negotiable(f.throughput, throughput, TPUT_NEGOTIATE) {
        PunishClear(now);
        return;
      }
      if !PacketOk(f.packet) || !PacketOk(packet) {
        return Some(FacilityRange);
      }
      if !Negotiable(f.packet, packet, PACKET_NEGOTIATE) {
        PunishClear(now);
        return;
      }
      SetFacilities(f);
      if peer == null {
        return Some(PeerPresent);
      }
      failed := peer.ReceiveMessage(CallAccepted(f), now);
      ResetFlowControl();
    }

    method ClientCallCollision(f: Facilities, now: int) returns (failed: Option<Check>)
      requires peer != this
      modifies this, peer
      ensures match HandleCollision(old(Both()), f, now)
              case Done(q) => failed.None? && Became(q, old(peer))
              case Abort(k) => failed == Some(k)
    {
      SetFacilities(f);
      if peer == null {
        return Some(PeerPresent);
      }
      failed := peer.ReceiveMessage(CallRequest(f), now);
      state := P5;
    }

    method ClientClearRequest(now: int)
      requires peer != this
      modifies this, peer
      ensures HandleClear(old(Both()), now).Done? && Became(HandleClear(old(Both()), now).value, old(peer))
    {
      if peer != null {
        var failed := peer.ReceiveMessage(ClearRequest, now);
      }
      state := P6;
    }

    method ClientResetRequest(cause: nat, now: int)
      requires peer != this
      modifies this, peer
      ensures HandleReset(old(Both()), cause, now).Done?
      ensures Became(HandleReset(old(Both()), cause, now).value, old(peer))
    {
      if !ClientOriginated(cause) {
        PunishReset(now);
      } else {
        state := D2;
        if peer != null {
          var failed := peer.ReceiveMessage(ResetRequest(cause), now);
        }
      }
    }

    method ClientResetConfirmation(now: int)
      requires peer != this
      modifies this, peer
      ensures var r := Forward(ResetFlow(old(View())), old(Both()).y, ResetConfirmation, now);
              r.Done? && Became(r.value, old(peer))
    {
      ResetFlowControl();
      if peer != null {
        var failed := peer.ReceiveMessage(ResetConfirmation, now);
      }
    }

    method ClientData(pr: nat, ps: nat, size: nat, now: int) returns (failed: Option<Check>)
      requires peer != this
      modifies this, peer
      ensures match HandleData(old(Both()), pr, ps, size, now)
              case Done(q) => failed.None? && Became(q, old(peer))
              case Abort(k) => failed == Some(k)
    {
      failed := None;
      if !PacketOk(packet) {
        return Some(PacketRange);
      }
      if || size >= PacketBytes(packet)
         || size == 0
         || ps != clientPs || !InRange(ps, peerPr, WindowEnd(peerPr, window))
         || !InRange(pr, clientPr, peerPs)
      {
        PunishReset(now);
      } else {
        clientPs := (clientPs + 1) % SEQ_MAX;
        clientPr := pr;
        if peer != null {
          failed := peer.ReceiveMessage(Data(pr, ps, size), now);
        }
      }
    }

    method ClientAck(m: Message, now: int) returns (failed: Option<Check>)
      requires peer != this && (m.RR? || m.RNR?)
      modifies this, peer
      ensures match HandleAck(old(Both()), m, now)
              case Done(q) => failed.None? && Became(q, old(peer))
              case Abort(k) => failed == Some(k)
    {
      failed := None;
      if !InRange(m.pr, clientPr, peerPs) {
        PunishReset(now);
      } else {
        clientPr := m.pr;
        if peer != null {
          failed := peer.ReceiveMessage(m, now);
        }
      }
    }

    /** jz_channel_process_message_in_P3_server_waiting_state. */
    method ProcessInP3(m: Message, now: int) returns (failed: Option<Check>)
      requires peer != this && state == P3
      modifies this, peer
      ensures match Handle(old(Both()), m, now)
              case Done(q) => failed.None? && Became(q, old(peer))
              case Abort(k) => failed == Some(k)
    {
      failed := None;
      if m.ClearRequest? {
        ClientClearRequest(now);
      } else if m.CallRequest? {
        failed := ClientCallCollision(m.facilities, now);
      } else if m.CallAccepted? {
        failed := ClientCallAccepted(m.facilities, now);
      } else {
        PunishClear(now);
      }
      if state != P3 && timerType == IncomingCall {
        StopTimer();
      }
    }

    /** jz_channel_process_message_in_D1_flow_control_ready_state. */
    method ProcessInD1(m: Message, now: int) returns (failed: Option<Check>)
      requires peer != this && state == D1
      modifies this, peer
      ensures match Handle(old(Both()), m, now)
              case Done(q) => failed.None? && Became(q, old(peer))
              case Abort(k) => failed == Some(k)
    {
      failed := None;
      if m.ClearRequest? {
        ClientClearRequest(now);
      } else if m.ResetRequest? {
        ClientResetRequest(m.cause, now);
      } else if m.Data? {
        failed := ClientData(m.pr, m.ps, m.size, now);
      } else if m.RR? || m.RNR? {
        failed := ClientAck(m, now);
      } else {
        PunishReset(now);
      }
    }

    /** jz_channel_process_message_in_D3_server_reset_indication_state. */
    method ProcessInD3(m: Message, now: int) returns (failed: Option<Check>)
      requires peer != this && state == D3
      modifies this, peer
      ensures match Handle(old(Both()), m, now)
              case Done(q) => failed.None? && Became(q, old(peer))
              case Abort(k) => failed == Some(k)
    {
      failed := None;
      if m.ClearRequest? {
        ClientClearRequest(now);
      } else if m.ResetRequest? || m.ResetConfirmation? {
        ClientResetConfirmation(now);
      }
      if state != D3 && timerType == ResetIndication {
        StopTimer();
      }
    }

    /** jz_channel_process_message, except a CALL_REQUEST in P1. */
    method ProcessMessage(m: Message, now: int) returns (failed: Option<Check>)
      requires peer != this && !(state == P1 && m.CallRequest?)
      modifies this, peer
      ensures match Handle(old(Both()), m, now)
              case Done(q) => failed.None? && Became(q, old(peer))
              case Abort(k) => failed == Some(k)
    {
      failed := None;
      match state {
        case P3 => failed := ProcessInP3(m, now);
        case D1 => failed := ProcessInD1(m, now);
        case D3 => failed := ProcessInD3(m, now);
        case D2 =>
          if m.ClearRequest? {
            ClientClearRequest(now);
          } else if !m.ResetRequest? {
            PunishReset(now);
          }
        case P6 =>
          if !m.ClearRequest? {
            PunishClear(now);
          }
        case P7 =>
          if m.ClearRequest? || m.ClearConfirmation? {
            state := P1;
            if timerType == ClearIndication {
              StopTimer();
            }
          }
        case _ =>
          if m.ClearRequest? {
            ClientClearRequest(now);
          } else {
            PunishClear(now);
          }
      }
    }

    /** The caller may call, the facilities are in range, and the called client exists, accepts
        calls and has a free channel. */
    ghost predicate Placeable(f: Facilities, called: string, list: seq<Client>)
      reads parent, list
    {
      && parent.iodir !in {OutgoingBarred, AllBarred}
      && FacilitiesOk(f)
      && var callee := FirstNamed(list, called);
         && callee != null
         && callee.iodir !in {IncomingBarred, AllBarred}
         && exists k :: 1 <= k < MAX_LCN && k !in callee.channels
    }

    /** jz_channel_do_client_call_request: the call is placed exactly when it can be; otherwise
        the caller is cleared and no table changes. */
    method CallRequested(f: Facilities, called: string, list: seq<Client>, now: int) returns (y: Channel?)
      requires state == P1 && peer == null
      requires forall c :: c in list ==> c.Valid()
      modifies this, list
      ensures forall c :: c in list ==> c.Valid() && c.iodir == old(c.iodir)
      ensures y != null <==> old(Placeable(f, called, list))
      ensures y == null ==> View() == Clear(old(View()), now)
      ensures y != null ==>
                var callee := FirstNamed(list, called);
                && callee != null && fresh(y) && y.parent == callee
                && LeastFree(old(callee.channels), y.lcn)
                && callee.channels == old(callee.channels)[y.lcn := y]
                && var q := Connect(old(View()), this, Fresh(), y, f, now).value;
                   View() == q.x && q.y == Some(y.View())
      ensures forall c :: c in list && (y == null || c != y.parent) ==> c.channels == old(c.channels)
    {
      y := null;
      var callee: Client? := null;
      if parent.iodir !in {OutgoingBarred, AllBarred} && FacilitiesOk(f) {
        callee := FindClient(list, called);
      }
      if callee != null && callee.iodir !in {IncomingBarred, AllBarred} {
        y := callee.ReserveLowChannel();
      }
      if y == null {
        PunishClear(now);
      } else {
        peer := y;
        y.peer := this;
        SetFacilities(f);
        var failed := y.ReceiveMessage(CallRequest(f), now);
        state := P2;
      }
    }

    /** jz_channel_do_client_restart_request and jz_channel_do_server_restart_indication, which
        differ in the cause they report to the peer. */
    method Restarted(now: int)
      requires peer != this
      modifies this, peer
      ensures Became(Restart(old(Both()), now), old(peer))
    {
      var other := peer;
      peer := null;
      if other != null {
        other.peer := null;
        var failed := other.ReceiveMessage(ClearRequest, now);
      }
      state := P1;
      StopTimer();
    }

    // Timers

    /** jz_channel_check_timers. */
    method CheckTimers(now: int) returns (failed: Option<Check>)
      requires peer != this
      modifies this, peer
      ensures match CheckTimer(old(Both()), now)
              case Done(q) => failed.None? && Became(q, old(peer))
              case Abort(k) => failed == Some(k)
    {
      failed := None;
      if timerType == NoTimer || timerExpires > now {
        return;
      }
      timerCount := timerCount + 1;
      match timerType {
        case NoTimer => assert false;
        case IncomingCall =>
          if timerCount != 1 {
            return Some(TimerCount);
          }
          StopTimer();
          PunishClear(now);
        case ResetIndication =>
          if timerCount == 1 {
            PunishReset(now);
          } else if timerCount == 2 {
            PunishClear(now);
          } else {
            return Some(TimerCount);
          }
        case ClearIndication =>
          if timerCount == 1 {
            PunishClear(now);
          } else if timerCount == 2 {
            if peer != null {
              peer.state := P1;
              peer.peer := null;
            }
            state := P1;
            peer := null;
            StopTimer();
          } else {
            return Some(TimerCount);
          }
      }
    }
  }

  /** When a call can be placed, said by what is allowed: the caller may place calls, the facilities
      are in range, and the first client of the called address takes calls and has an LCN to spare. */
  lemma PlaceableIff(ch: Channel, f: Facilities, called: string, list: seq<Client>)
    ensures ch.Placeable(f, called, list) <==>
              && ch.parent.iodir in {Bidirectional, IncomingBarred}
              && f.window <= 8 && 3 <= f.throughput <= 44 && 4 <= f.packet <= 12
              && exists i :: 0 <= i < |list| && IsCallee(list, i, called)
  {
    Directions(ch.parent.iodir);
    if ch.Placeable(f, called, list) {
      var i := FirstNamedAt(list, called);
      Directions(list[i].iodir);
      var k :| 1 <= k < MAX_LCN && k !in list[i].channels;
      assert IsCallee(list, i, called);
    }
    if i :| 0 <= i < |list| && IsCallee(list, i, called) {
      FirstNamedIs(list, called, i);
      Directions(list[i].iodir);
      var k :| 1 <= k <= 1023 && k !in list[i].channels;
      assert k < MAX_LCN;
    }
  }

  lemma Directions(d: CallDirection)
    ensures d !in {IncomingBarred, AllBarred} <==> d in {Bidirectional, OutgoingBarred}
    ensures d !in {OutgoingBarred, AllBarred} <==> d in {Bidirectional, IncomingBarred}
  {
    match d
    case Bidirectional =>
    case IncomingBarred =>
    case OutgoingBarred =>
    case AllBarred =>
  }

  /** The client at `i` is the first of that address, takes calls, and one of 1..1023 is free. */
  ghost predicate IsCallee(list: seq<Client>, i: nat, called: string)
    requires i < |list|
    reads list
  {
    && list[i].address == called && (forall j :: 0 <= j < i ==> list[j].address != called)
    && list[i].iodir in {Bidirectional, OutgoingBarred}
    && exists k :: 1 <= k <= 1023 && k !in list[i].channels
  }

  lemma {:induction false} FirstNamedIs(list: seq<Client>, called: string, i: nat)
    requires i < |list| && list[i].address == called && forall j :: 0 <= j < i ==> list[j].address != called
    ensures FirstNamed(list, called) == list[i]
  {
    if i > 0 {
      FirstNamedIs(list[1..], called, i - 1);
    }
  }

  lemma {:induction false} FirstNamedAt(list: seq<Client>, called: string) returns (i: nat)
    requires FirstNamed(list, called) != null
    ensures i < |list| && list[i].address == called && FirstNamed(list, called) == list[i]
    ensures forall j :: 0 <= j < i ==> list[j].address != called
  {
    i := 0;
    if list[0].address != called {
      var k := FirstNamedAt(list[1..], called);
      i := k + 1;
      forall j | 0 <= j < i
        ensures list[j].address != called
      {
        assert j > 0 ==> list[j] == list[1..][j - 1];
      }
    }
  }
}
