/** All channels of all clients, and runs of the whole switch (application10/channel.c and the
    channel tables of application10/client.c).

    Channels and clients are named; a step applies one handler to one channel and its peer. A
    channel that a restart removes from its client's table stays in `cells`, unreachable from
    any table. */
module LinkedNet {
  import opened LinkedCell

  const MAX_LCN: nat := 1024

  type Cells<N> = map<N, Cell<N>>

  datatype Home<C> = Home(client: C, lcn: nat)

  datatype Net<N, C> = Net(
    cells: Cells<N>,
    homes: map<N, Home<C>>,          // each channel's parent and LCN
    tables: map<C, map<nat, N>>,     // each client's channels, by LCN
    asked: map<N, Facilities>)       // history: the facilities the caller of the last call requested

  datatype Event<N, C> =
    | FromClient(x: N, message: Message, now: int)
    | OpenChannel(client: C, lcn: nat, added: N)
    | PlaceCall(x: N, facilities: Facilities, callee: C, lcn: nat, added: N, now: int)
    | RefuseCall(x: N, now: int)
    | RestartClient(client: C, order: seq<N>, now: int)
    | TimerExpiry(x: N, now: int)

  /** Peers exist and no channel is its own peer. */
  predicate Closed<N>(cells: Cells<N>) {
    forall x :: x in cells && cells[x].peer.Some? ==> cells[x].peer.value in cells && cells[x].peer.value != x
  }

  function At<N>(cells: Cells<N>, x: N): Pair<N>
    requires x in cells
  {
    var c := cells[x];
    Pair(c, if c.peer.Some? && c.peer.value in cells then Some(cells[c.peer.value]) else None)
  }

  function Put<N>(cells: Cells<N>, x: N, q: Pair<N>): (cells': Cells<N>)
    requires x in cells
    ensures cells'.Keys == cells.Keys
  {
    var c := cells[x];
    if c.peer.Some? && c.peer.value in cells && q.y.Some? then cells[x := q.x][c.peer.value := q.y.value]
    else cells[x := q.x]
  }

  predicate Live<N, C>(n: Net<N, C>, x: N) {
    && x in n.cells && x in n.homes
    && n.homes[x].client in n.tables
    && n.homes[x].lcn in n.tables[n.homes[x].client]
    && n.tables[n.homes[x].client][n.homes[x].lcn] == x
  }

  /** The LCN that jz_client_reserve_low_channel takes. */
  predicate LeastFree<N>(table: map<nat, N>, lcn: nat) {
    1 <= lcn < MAX_LCN && lcn !in table && forall k :: 1 <= k < lcn ==> k in table
  }

  /** Each key of a client's table is its channel's own LCN, and is in 1..1024. */
  predicate TablesOk<N, C>(n: Net<N, C>) {
    forall c, k :: c in n.tables && k in n.tables[c] ==>
      && 1 <= k <= MAX_LCN
      && n.tables[c][k] in n.cells
      && n.tables[c][k] in n.homes
      && n.homes[n.tables[c][k]] == Home(c, k)
  }

  /** What holds in every run, whatever clients send. */
  predicate NetOk<N, C>(n: Net<N, C>) {
    && Closed(n.cells)
    && n.homes.Keys == n.cells.Keys == n.asked.Keys
    && (forall x :: x in n.cells ==> TimedOk(n.cells[x]))
    && TablesOk(n)
  }

  predicate Distinct<N(==)>(s: seq<N>) {
    forall i, j :: 0 <= i < j < |s| ==> s[i] != s[j]
  }

  predicate Enabled<N, C>(n: Net<N, C>, e: Event<N, C>) {
    match e
    case FromClient(x, m, _) => Live(n, x) && !(n.cells[x].state == P1 && m.CallRequest?)
    case OpenChannel(c, lcn, y) =>
      1 <= lcn <= MAX_LCN && c in n.tables && lcn !in n.tables[c] && y !in n.cells
    case PlaceCall(x, f, c, lcn, y, _) =>
      && Live(n, x) && n.cells[x].state == P1 && FacilitiesOk(f)
      && c in n.tables && LeastFree(n.tables[c], lcn) && y !in n.cells
    case RefuseCall(x, _) => Live(n, x) && n.cells[x].state == P1
    case RestartClient(c, order, _) =>
      && c in n.tables && Distinct(order)
      && (forall x :: x in order ==> x in n.tables[c].Values && x in n.cells)
      && (forall x :: x in n.tables[c].Values ==> x in order)
    case TimerExpiry(x, _) => Live(n, x) && n.cells[x].timer != NoTimer
  }

  function Add<N, C>(n: Net<N, C>, c: C, lcn: nat, y: N): Net<N, C>
    requires c in n.tables
  {
    var table: map<nat, N> := n.tables[c][lcn := y];
    Net(n.cells[y := Fresh()], n.homes[y := Home(c, lcn)], n.tables[c := table],
        n.asked[y := Facilities(0, 0, 0)])
  }

  /** A restart, a punishment restart and a hang-up do the same to a client's channels. */
  function RestartAll<N>(cells: Cells<N>, order: seq<N>, now: int): (cells': Cells<N>)
    requires forall x :: x in order ==> x in cells
    ensures cells'.Keys == cells.Keys
  {
    if order == [] then cells
    else
      var before := RestartAll(cells, order[..|order| - 1], now);
      var x := order[|order| - 1];
      Put(before, x, Restart(At(before, x), now))
  }

  function Step<N, C>(n: Net<N, C>, e: Event<N, C>): Outcome<Net<N, C>>
    requires Enabled(n, e)
  {
    match e
    case FromClient(x, m, now) =>
      var q :- Handle(At(n.cells, x), m, now);
      Done(n.(cells := Put(n.cells, x, q)))
    case OpenChannel(c, lcn, y) => Done(Add(n, c, lcn, y))
    case PlaceCall(x, f, c, lcn, y, now) =>
      var n1 := Add(n, c, lcn, y);
      var q :- Connect(n1.cells[x], x, n1.cells[y], y, f, now);
      Done(n1.(cells := n1.cells[x := q.x][y := q.y.value], asked := n1.asked[x := f][y := f]))
    case RefuseCall(x, now) => Done(n.(cells := Put(n.cells, x, PunishClear(At(n.cells, x), now))))
    case RestartClient(c, order, now) =>
      Done(n.(cells := RestartAll(n.cells, order, now), tables := n.tables[c := map[]]))
    case TimerExpiry(x, now) =>
      var q :- Expire(At(n.cells, x), now);
      Done(n.(cells := Put(n.cells, x, q)))
  }

  // Steps keep the invariant

  /** Handlers never make a link: each end keeps its peer or loses it. */
  predicate Shrinks<N(==)>(p: Pair<N>, q: Pair<N>) {
    && q.y.Some? == p.y.Some?
    && q.x.peer in {None, p.x.peer}
    && (p.y.Some? ==> q.y.value.peer in {None, p.y.value.peer})
  }

  lemma ReceiveShrinks<N>(c: Cell<N>, m: Message, now: int)
    ensures var r := Receive(c, m, now); r.Done? ==> r.value.peer in {None, c.peer}
  {
  }

  lemma HandleShrinks<N>(p: Pair<N>, m: Message, now: int)
    requires !(p.x.state == P1 && m.CallRequest?)
    ensures var r := Handle(p, m, now); r.Done? ==> Shrinks(p, r.value)
  {
    if p.y.Some? {
      var y := p.y.value;
      ReceiveShrinks(y, m, now);
      ReceiveShrinks(y, ClearRequest, now);
      ReceiveShrinks(y, ResetConfirmation, now);
    }
    hide Receive;
    hide DataAcceptable;
  }

  lemma PutShrunk<N>(cells: Cells<N>, x: N, q: Pair<N>)
    requires Closed(cells) && x in cells && Shrinks(At(cells, x), q)
    ensures Closed(Put(cells, x, q))
    ensures (forall z :: z in cells ==> TimedOk(cells[z])) && BothOk(q, TimedOk) ==>
              forall z :: z in cells ==> TimedOk(Put(cells, x, q)[z])
  {
  }

  lemma {:induction false} RestartAllKeeps<N>(cells: Cells<N>, order: seq<N>, now: int)
    requires Closed(cells) && forall x :: x in order ==> x in cells
    requires forall z :: z in cells ==> TimedOk(cells[z])
    ensures Closed(RestartAll(cells, order, now))
    ensures forall z :: z in cells ==> TimedOk(RestartAll(cells, order, now)[z])
  {
    if order != [] {
      var before := RestartAll(cells, order[..|order| - 1], now);
      var x := order[|order| - 1];
      RestartAllKeeps(cells, order[..|order| - 1], now);
      RestartKeeps(At(before, x), now);
      PutShrunk(before, x, Restart(At(before, x), now));
    }
  }

  lemma AddKeeps<N, C>(n: Net<N, C>, c: C, lcn: nat, y: N)
    requires NetOk(n) && c in n.tables && lcn !in n.tables[c] && y !in n.cells && 1 <= lcn <= MAX_LCN
    ensures NetOk(Add(n, c, lcn, y))
  {
    hide TablesOk;
    AddTables(n, c, lcn, y);
  }

  lemma AddTables<N, C>(n: Net<N, C>, c: C, lcn: nat, y: N)
    requires TablesOk(n) && c in n.tables && lcn !in n.tables[c] && y !in n.cells && 1 <= lcn <= MAX_LCN
    ensures TablesOk(Add(n, c, lcn, y))
  {
  }

  predicate CellsOk<N>(cells: Cells<N>) {
    Closed(cells) && forall x :: x in cells ==> TimedOk(cells[x])
  }

  lemma NewCellsOk<N, C>(n: Net<N, C>, cells: Cells<N>)
    requires NetOk(n) && CellsOk(cells) && cells.Keys == n.cells.Keys
    ensures NetOk(n.(cells := cells))
  {
  }

  lemma NewAskedOk<N, C>(n: Net<N, C>, asked: map<N, Facilities>)
    requires NetOk(n) && asked.Keys == n.asked.Keys
    ensures NetOk(n.(asked := asked))
  {
  }

  lemma ConnectedCellsOk<N>(cells: Cells<N>, x: N, y: N, f: Facilities, now: int)
    requires CellsOk(cells) && x in cells && y in cells && x != y
    requires cells[x].state == P1 && cells[y] == Fresh() && FacilitiesOk(f)
    ensures var r := Connect(cells[x], x, cells[y], y, f, now);
            r.Done? && r.value.y.Some? && CellsOk(cells[x := r.value.x][y := r.value.y.value])
  {
    ConnectKeeps(cells[x], x, y, f, now);
  }

  /** A client's message, or the refusal of its call. */
  lemma HandledCellsOk<N>(cells: Cells<N>, x: N, m: Message, now: int)
    requires CellsOk(cells) && x in cells
    ensures CellsOk(Put(cells, x, PunishClear(At(cells, x), now)))
    ensures !(cells[x].state == P1 && m.CallRequest?) ==>
              var r := Handle(At(cells, x), m, now);
              && (r.Done? ==> CellsOk(Put(cells, x, r.value)))
              && (r.Abort? ==> r.check != TimerCount)
  {
    var p := At(cells, x);
    PunishKeeps(p, now);
    PutShrunk(cells, x, PunishClear(p, now));
    if !(cells[x].state == P1 && m.CallRequest?) {
      HandleKeeps(p, m, now);
      HandleShrinks(p, m, now);
      hide Handle;
      if Handle(p, m, now).Done? {
        PutShrunk(cells, x, Handle(p, m, now).value);
      }
    }
  }

  lemma ExpiredCellsOk<N>(cells: Cells<N>, x: N, now: int)
    requires CellsOk(cells) && x in cells && cells[x].timer != NoTimer
    ensures Expire(At(cells, x), now).Done?
    ensures CellsOk(Put(cells, x, Expire(At(cells, x), now).value))
  {
    var p := At(cells, x);
    ExpireKeeps(p, now);
    PutShrunk(cells, x, Expire(p, now).value);
  }

  lemma PlaceCallKeepsNetOk<N, C>(n: Net<N, C>, e: Event<N, C>)
    requires NetOk(n) && Enabled(n, e) && e.PlaceCall?
    ensures Step(n, e).Done? && NetOk(Step(n, e).value)
  {
    hide Connect, TablesOk, TimedOk;
    AddKeeps(n, e.callee, e.lcn, e.added);
    var n1 := Add(n, e.callee, e.lcn, e.added);
    ConnectedCellsOk(n1.cells, e.x, e.added, e.facilities, e.now);
    var q := Connect(n1.cells[e.x], e.x, n1.cells[e.added], e.added, e.facilities, e.now).value;
    var cells := n1.cells[e.x := q.x][e.added := q.y.value];
    NewCellsOk(n1, cells);
    NewAskedOk(n1.(cells := cells), n1.asked[e.x := e.facilities][e.added := e.facilities]);
    hide NetOk;
  }

  lemma RestartKeepsNetOk<N, C>(n: Net<N, C>, e: Event<N, C>)
    requires NetOk(n) && Enabled(n, e) && e.RestartClient?
    ensures Step(n, e).Done? && NetOk(Step(n, e).value)
  {
    hide RestartAll, TimedOk, Closed;
    RestartAllKeeps(n.cells, e.order, e.now);
    NewCellsOk(n, RestartAll(n.cells, e.order, e.now));
  }

  /** Every step of every client, timer or restart keeps the invariant. An expiry never fails an
      assertion, and nothing ever fails a timer assertion. */
  lemma StepKeepsNetOk<N, C>(n: Net<N, C>, e: Event<N, C>)
    requires NetOk(n) && Enabled(n, e)
    ensures Step(n, e).Done? ==> NetOk(Step(n, e).value)
    ensures Step(n, e).Abort? ==> e.FromClient? && Step(n, e).check != TimerCount
  {
    hide Handle;
    hide Expire;
    hide Connect;
    match e
    case FromClient(x, m, now) =>
      HandledCellsOk(n.cells, x, m, now);
      var r := Handle(At(n.cells, x), m, now);
      if r.Done? {
        NewCellsOk(n, Put(n.cells, x, r.value));
      }
    case OpenChannel(c, lcn, y) => AddKeeps(n, c, lcn, y);
    case PlaceCall(x, f, c, lcn, y, now) => PlaceCallKeepsNetOk(n, e);
    case RefuseCall(x, now) =>
      HandledCellsOk(n.cells, x, ClearRequest, now);
      NewCellsOk(n, Put(n.cells, x, PunishClear(At(n.cells, x), now)));
    case RestartClient(c, order, now) => RestartKeepsNetOk(n, e);
    case TimerExpiry(x, now) =>
      ExpiredCellsOk(n.cells, x, now);
      NewCellsOk(n, Put(n.cells, x, Expire(At(n.cells, x), now).value));
  }

  // Runs

  predicate Initial<N, C>(n: Net<N, C>) {
    n.cells == map[] && n.homes == map[] && n.asked == map[] && forall c :: c in n.tables ==> n.tables[c] == map[]
  }

  predicate StepsTo<N, C>(n: Net<N, C>, e: Event<N, C>, n': Net<N, C>) {
    Enabled(n, e) && Step(n, e) == Done(n')
  }

  /** `ns` are the configurations of a run, `es` the events between them. */
  predicate IsRun<N, C>(ns: seq<Net<N, C>>, es: seq<Event<N, C>>) {
    && |ns| == |es| + 1
    && Initial(ns[0])
    && forall i :: 0 <= i < |es| ==> StepsTo(ns[i], es[i], ns[i + 1])
  }

  /** In every run, every configuration satisfies the invariant: each timer is a function of its
      channel's state, idle and cleared channels have no peer, table keys are LCNs in range. */
  lemma {:induction false} RunsKeepNetOk<N, C>(ns: seq<Net<N, C>>, es: seq<Event<N, C>>, i: nat)
    requires IsRun(ns, es) && i < |ns|
    ensures NetOk(ns[i])
  {
    if i > 0 {
      RunsKeepNetOk(ns, es, i - 1);
      assert StepsTo(ns[i - 1], es[i - 1], ns[i]);
      StepKeepsNetOk(ns[i - 1], es[i - 1]);
    }
  }
}
