/** What a client-originated clear does to the links: the channel keeps its peer (P6), the peer
    forgets it, and a later punishment cuts a call that the peer has meanwhile placed elsewhere.
    After a run of eight events the ninth fails an assertion, so the peer assertions of the source hold
    in runs without stale collisions and not in all runs. */
module LinkedStale {
  import opened LinkedCell
  import opened LinkedNet

  /** Every channel, called ones included, has the peer that its state needs. */
  predicate Strict<N, C>(n: Net<N, C>) {
    NetOk(n) && StrictCells(n.cells)
  }

  predicate StrictCells<N>(cells: Cells<N>) {
    forall x :: x in cells ==> CellOk(cells[x])
  }

  predicate Stale<N, C>(n: Net<N, C>, e: Event<N, C>) {
    e.FromClient? && e.x in n.cells && StaleCollision(At(n.cells, e.x), e.message)
  }

  lemma PutStrict<N>(cells: Cells<N>, x: N, q: Pair<N>)
    requires Closed(cells) && x in cells && StrictCells(cells) && q.y.Some? == At(cells, x).y.Some?
    ensures BothOk(q, CellOk) <==> StrictCells(Put(cells, x, q))
  {
    var cells' := Put(cells, x, q);
    assert cells'[x] == q.x;
    if q.y.Some? {
      assert cells'[cells[x].peer.value] == q.y.value;
    }
  }

  lemma {:induction false} RestartAllStrict<N>(cells: Cells<N>, order: seq<N>, now: int)
    requires CellsOk(cells) && StrictCells(cells) && forall x :: x in order ==> x in cells
    ensures StrictCells(RestartAll(cells, order, now))
  {
    if order != [] {
      var before := RestartAll(cells, order[..|order| - 1], now);
      var x := order[|order| - 1];
      RestartAllStrict(cells, order[..|order| - 1], now);
      RestartAllKeeps(cells, order[..|order| - 1], now);
      RestartKeeps(At(before, x), now);
      PutStrict(before, x, Restart(At(before, x), now));
    }
  }

  lemma FromClientStrict<N, C>(n: Net<N, C>, e: Event<N, C>)
    requires Strict(n) && Enabled(n, e) && e.FromClient?
    ensures Step(n, e).Done? ==> (StrictCells(Step(n, e).value.cells) <==> !Stale(n, e))
    ensures Step(n, e).Abort? ==> Step(n, e).check != PeerPresent
  {
    var p := At(n.cells, e.x);
    HandleKeeps(p, e.message, e.now);
    if Stale(n, e) {
      StaleCollisionBreaks(p, e.message, e.now);
    }
    hide Handle;
    hide NetOk;
    if Handle(p, e.message, e.now).Done? {
      PutStrict(n.cells, e.x, Handle(p, e.message, e.now).value);
    }
  }

  /** A step keeps every channel's peer exactly when it is not a stale collision, and as long as
      it does, no peer assertion fails. */
  lemma StepKeepsStrict<N, C>(n: Net<N, C>, e: Event<N, C>)
    requires Strict(n) && Enabled(n, e)
    ensures Step(n, e).Done? ==> (Strict(Step(n, e).value) <==> !Stale(n, e))
    ensures Step(n, e).Abort? ==> Step(n, e).check != PeerPresent
  {
    hide Handle, Expire, Connect, Restart, RestartAll, NetOk, Put, CellOk;
    StepKeepsNetOk(n, e);
    match e
    case FromClient(_, _, _) => FromClientStrict(n, e);
    case OpenChannel(_, _, _) => FreshStrict<N>();
    case PlaceCall(_, _, _, _, _, _) => PlaceCallStrict(n, e);
    case RefuseCall(_, _) => PunishedStrict(n, e);
    case RestartClient(_, order, now) =>
      CellsOfNet(n);
      RestartAllStrict(n.cells, order, now);
    case TimerExpiry(_, _) => PunishedStrict(n, e);
  }

  lemma FreshStrict<N>()
    ensures CellOk(Fresh<N>())
  {
  }

  lemma CellsOfNet<N, C>(n: Net<N, C>)
    requires NetOk(n)
    ensures CellsOk(n.cells)
  {
  }

  lemma PlaceCallStrict<N, C>(n: Net<N, C>, e: Event<N, C>)
    requires Strict(n) && Enabled(n, e) && e.PlaceCall?
    ensures Step(n, e).Done? && StrictCells(Step(n, e).value.cells)
  {
    hide Connect, TablesOk;
    ConnectKeeps(n.cells[e.x], e.x, e.added, e.facilities, e.now);
  }

  lemma PunishedStrict<N, C>(n: Net<N, C>, e: Event<N, C>)
    requires Strict(n) && Enabled(n, e) && (e.RefuseCall? || e.TimerExpiry?)
    ensures Step(n, e).Done? && StrictCells(Step(n, e).value.cells)
  {
    hide Expire, TablesOk, Put;
    var p := At(n.cells, e.x);
    if e.RefuseCall? {
      PunishKeeps(p, e.now);
      PutStrict(n.cells, e.x, PunishClear(p, e.now));
    } else {
      ExpireKeeps(p, e.now);
      PutStrict(n.cells, e.x, Expire(p, e.now).value);
    }
  }

  /** In every run without stale collisions, callers, called channels and colliding channels all
      have a peer, so the assertions in call acceptance and call collision never fail. */
  lemma {:induction false} RunsStayStrict<N, C>(ns: seq<Net<N, C>>, es: seq<Event<N, C>>, i: nat)
    requires IsRun(ns, es) && i < |ns|
    requires forall j :: 0 <= j < |es| ==> !Stale(ns[j], es[j])
    ensures Strict(ns[i])
    ensures forall e :: Enabled(ns[i], e) && Step(ns[i], e).Abort? ==> Step(ns[i], e).check != PeerPresent
  {
    if i > 0 {
      RunsStayStrict(ns, es, i - 1);
      assert StepsTo(ns[i - 1], es[i - 1], ns[i]);
      StepKeepsStrict(ns[i - 1], es[i - 1]);
    }
    forall e | Enabled(ns[i], e) && Step(ns[i], e).Abort?
      ensures Step(ns[i], e).check != PeerPresent
    {
      StepKeepsStrict(ns[i], e);
    }
  }

  // Channel W of client 0, channel Y of client 1, channel X of client 2, all on LCN 1.
  const W: int := 10
  const Y: int := 11
  const X: int := 12
  const F := Facilities(2, 10, 7)

  function Start(): Net<int, int> {
    Net(map[], map[], map[0 := map[], 1 := map[], 2 := map[]], map[])
  }

  function One(): Net<int, int> {
    Net(map[W := Fresh()], map[W := Home(0, 1)], map[0 := map[1 := W], 1 := map[], 2 := map[]],
        map[W := Facilities(0, 0, 0)])
  }

  function Two(w: Cell<int>, y: Cell<int>): Net<int, int> {
    Net(map[W := w, Y := y], map[W := Home(0, 1), Y := Home(1, 1)],
        map[0 := map[1 := W], 1 := map[1 := Y], 2 := map[]], map[W := F, Y := F])
  }

  function Three(w: Cell<int>, y: Cell<int>, x: Cell<int>): Net<int, int> {
    Net(map[W := w, Y := y, X := x], map[W := Home(0, 1), Y := Home(1, 1), X := Home(2, 1)],
        map[0 := map[1 := W], 1 := map[1 := Y], 2 := map[1 := X]], map[W := F, Y := F, X := F])
  }

  function Calling(peer: int): Cell<int> {
    Fresh().(state := P2, peer := Some(peer), facilities := F)
  }

  function Called(peer: Option<int>): Cell<int> {
    Cell(P3, peer, ZERO_FLOW, F, IncomingCall, 18, 0)
  }

  function Clearing(): Cell<int> {
    Cell(P7, None, ZERO_FLOW, F, ClearIndication, 6, 0)
  }

  function Cleared(): Cell<int> {
    Fresh().(facilities := F)
  }

  /** The eight events. */
  function Script(): seq<Event<int, int>> {
    [OpenChannel(0, 1, W),
     PlaceCall(W, F, 1, 1, Y, 0),                    // W calls Y
     FromClient(W, ClearRequest, 0),                 // W clears: W in P6, still pointing at Y
     FromClient(Y, ClearConfirmation, 0),            // Y is idle again
     PlaceCall(Y, F, 2, 1, X, 0),                    // Y calls X
     FromClient(W, RR(0), 0),                        // W errs: Y is punished, X is not told
     FromClient(Y, ClearConfirmation, 0),            // Y is idle again; X still points at it
     FromClient(X, CallRequest(F), 0)]               // stale collision
  }

  function Configurations(): seq<Net<int, int>> {
    var w := Calling(Y).(state := P6);
    [Start(), One(), Two(Calling(Y), Called(Some(W))), Two(w, Clearing()), Two(w, Cleared()),
     Three(w, Calling(X), Called(Some(Y))),
     Three(w.(state := D1), Clearing(), Called(Some(Y))),
     Three(w.(state := D1), Cleared(), Called(Some(Y))),
     Three(w.(state := D1), Called(None), Calling(Y).(state := P5))]
  }

  lemma OpeningReaches()
    ensures StepsTo(Start(), OpenChannel(0, 1, W), One())
  {
    assert Add(Start(), 0, 1, W) == One();
  }

  lemma CallReaches()
    ensures StepsTo(One(), PlaceCall(W, F, 1, 1, Y, 0), Two(Calling(Y), Called(Some(W))))
  {
    var n1 := Add(One(), 1, 1, Y);
    var n2 := Two(Calling(Y), Called(Some(W)));
    assert n1.tables == n2.tables && n1.homes == n2.homes;
    assert n1.asked[W := F][Y := F] == n2.asked;
    assert n1.cells[W := Calling(Y)][Y := Called(Some(W))] == n2.cells;
  }

  lemma ClearReaches(w: Cell<int>)
    requires w == Calling(Y).(state := P6)
    ensures StepsTo(Two(Calling(Y), Called(Some(W))), FromClient(W, ClearRequest, 0), Two(w, Clearing()))
    ensures StepsTo(Two(w, Clearing()), FromClient(Y, ClearConfirmation, 0), Two(w, Cleared()))
  {
    assert Put(Two(Calling(Y), Called(Some(W))).cells, W, Pair(w, Some(Clearing()))) == Two(w, Clearing()).cells;
    assert Put(Two(w, Clearing()).cells, Y, Pair(Cleared(), None)) == Two(w, Cleared()).cells;
  }

  lemma SecondCallReaches(w: Cell<int>)
    requires w == Calling(Y).(state := P6)
    ensures StepsTo(Two(w, Cleared()), PlaceCall(Y, F, 2, 1, X, 0), Three(w, Calling(X), Called(Some(Y))))
  {
    var n0 := Two(w, Cleared());
    var n1 := Add(n0, 2, 1, X);
    var n2 := Three(w, Calling(X), Called(Some(Y)));
    assert n1.tables == n2.tables && n1.homes == n2.homes;
    assert n1.asked[Y := F][X := F] == n2.asked;
    assert n1.cells[Y := Calling(X)][X := Called(Some(Y))] == n2.cells;
  }

  lemma PunishmentReaches(w: Cell<int>)
    requires w == Calling(Y).(state := P6)
    ensures StepsTo(Three(w, Calling(X), Called(Some(Y))), FromClient(W, RR(0), 0),
                    Three(w.(state := D1), Clearing(), Called(Some(Y))))
  {
    var n1 := Three(w.(state := D1), Clearing(), Called(Some(Y)));
    assert Put(Three(w, Calling(X), Called(Some(Y))).cells, W, Pair(w.(state := D1), Some(Clearing()))) == n1.cells;
  }

  lemma ConfirmationReaches(w: Cell<int>)
    ensures StepsTo(Three(w, Clearing(), Called(Some(Y))), FromClient(Y, ClearConfirmation, 0),
                    Three(w, Cleared(), Called(Some(Y))))
  {
    var n1, n2 := Three(w, Clearing(), Called(Some(Y))), Three(w, Cleared(), Called(Some(Y)));
    assert Put(n1.cells, Y, Pair(Cleared(), None)) == n2.cells;
  }

  lemma CollisionReaches(w: Cell<int>)
    ensures StepsTo(Three(w, Cleared(), Called(Some(Y))), FromClient(X, CallRequest(F), 0),
                    Three(w, Called(None), Calling(Y).(state := P5)))
    ensures StaleCollision(At(Three(w, Cleared(), Called(Some(Y))).cells, X), CallRequest(F))
  {
    var n0, n1 := Three(w, Cleared(), Called(Some(Y))), Three(w, Called(None), Calling(Y).(state := P5));
    assert Put(n0.cells, X, Pair(Calling(Y).(state := P5), Some(Called(None)))) == n1.cells;
  }

  lemma ScriptSteps(i: nat)
    requires i < 8
    ensures |Script()| == 8 && |Configurations()| == 9
    ensures StepsTo(Configurations()[i], Script()[i], Configurations()[i + 1])
  {
    hide StepsTo, Two, Three, One, Start, Called, Clearing, Cleared;
    var w := Calling(Y).(state := P6);
    if i == 0 {
      OpeningReaches();
    } else if i == 1 {
      CallReaches();
    } else if i < 4 {
      ClearReaches(w);
    } else if i == 4 {
      SecondCallReaches(w);
    } else if i == 5 {
      PunishmentReaches(w);
    } else if i == 6 {
      ConfirmationReaches(w.(state := D1));
    } else {
      CollisionReaches(w.(state := D1));
    }
  }

  lemma AcceptanceAborts(w: Cell<int>, x: Cell<int>)
    ensures var n, e := Three(w, Called(None), x), FromClient(Y, CallAccepted(F), 0);
            Enabled(n, e) && Step(n, e) == Abort(PeerPresent)
  {
  }

  /** A run whose last configuration has a called channel without a peer; when its client accepts
      the call, the assertion at application10/channel.c:388 fails. */
  lemma StaleCollisionAborts()
    ensures IsRun(Configurations(), Script())
    ensures var n, e := Configurations()[8], FromClient(Y, CallAccepted(F), 0);
            Enabled(n, e) && Step(n, e) == Abort(PeerPresent)
  {
    AcceptanceAborts(Calling(Y).(state := D1), Calling(Y).(state := P5));
    var ns, es := Configurations(), Script();
    forall i | 0 <= i < |es|
      ensures StepsTo(ns[i], es[i], ns[i + 1])
    {
      ScriptSteps(i);
    }
    hide StepsTo;
    hide Enabled;
    hide Step;
  }
}
