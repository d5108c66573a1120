/** Timer processing with silent clients: every expiry lowers a potential, so it comes to rest. */
module LinkedTimers {
  import opened LinkedCell
  import opened LinkedNet

  /** How many expiries a channel can still cause, counting those it inflicts on its peer. */
  function Potential<N>(c: Cell<N>): (r: int)
    ensures TimedOk(c) ==> 0 <= r <= 6
  {
    match c.state
    case P1 => 0
    case P7 => 2 - c.count
    case P2 => 2
    case P5 => 2
    case P3 => 5
    case D3 => 6 - c.count
    case _ => 6
  }

  function PairPotential<N>(p: Pair<N>): int {
    Potential(p.x) + if p.y.Some? then Potential(p.y.value) else 0
  }

  /** An expiry costs its pair at least one unit, and its own channel too. */
  lemma ExpireCosts<N>(p: Pair<N>, now: int)
    requires BothOk(p, TimedOk) && p.y.Some? == p.x.peer.Some? && p.x.timer != NoTimer
    ensures var r := Expire(p, now);
            && r.Done?
            && PairPotential(r.value) < PairPotential(p)
            && Potential(r.value.x) < Potential(p.x)
  {
    ExpireKeeps(p, now);
  }

  /** The potential of the channels listed in `order`. */
  function Total<N>(cells: Cells<N>, order: seq<N>): int
    requires forall x :: x in order ==> x in cells
  {
    if order == [] then 0 else Potential(cells[order[0]]) + Total(cells, order[1..])
  }

  /** `order` lists channels, none of them twice. */
  predicate Lists<N(==)>(order: seq<N>, cells: Cells<N>) {
    Distinct(order) && forall x :: x in order ==> x in cells
  }

  lemma {:induction false} TotalUpdate<N>(cells: Cells<N>, order: seq<N>, x: N, c: Cell<N>)
    requires Distinct(order) && x in cells && forall z :: z in order ==> z in cells
    ensures Total(cells[x := c], order)
            == Total(cells, order) + if x in order then Potential(c) - Potential(cells[x]) else 0
  {
    if order != [] {
      assert forall z :: z in order[1..] ==> z in order;
      TotalUpdate(cells, order[1..], x, c);
      assert x in order <==> x == order[0] || x in order[1..];
    }
  }

  lemma {:induction false} TotalBounds<N>(cells: Cells<N>, order: seq<N>)
    requires forall z :: z in order ==> z in cells && TimedOk(cells[z])
    ensures 0 <= Total(cells, order) <= 6 * |order|
  {
    if order != [] {
      assert forall z :: z in order[1..] ==> z in order;
      TotalBounds(cells, order[1..]);
      assert TimedOk(cells[order[0]]);
    }
  }

  function ExpireAt<N>(cells: Cells<N>, x: N, now: int): (cells': Cells<N>)
    requires CellsOk(cells) && x in cells && cells[x].timer != NoTimer
    ensures CellsOk(cells') && cells'.Keys == cells.Keys
  {
    ExpiredCellsOk(cells, x, now);
    Put(cells, x, Expire(At(cells, x), now).value)
  }

  /** Every expiry of a listed channel lowers the total, whether its peer is listed or not. */
  lemma ExpireLowersTotal<N>(cells: Cells<N>, order: seq<N>, x: N, now: int)
    requires CellsOk(cells) && Lists(order, cells) && x in order && cells[x].timer != NoTimer
    ensures Total(ExpireAt(cells, x, now), order) < Total(cells, order)
  {
    var p := At(cells, x);
    ExpireCosts(p, now);
    var q := Expire(p, now).value;
    TotalUpdate(cells, order, x, q.x);
    ExpireKeeps(p, now);
    if p.y.Some? {
      TotalUpdate(cells[x := q.x], order, cells[x].peer.value, q.y.value);
    }
  }

  datatype Expiry<N> = Expiry(x: N, now: int)

  /** A run of expiries of listed channels and nothing else. */
  predicate Expiries<N(==)>(cs: seq<Cells<N>>, es: seq<Expiry<N>>, order: seq<N>) {
    && |cs| == |es| + 1
    && forall i :: 0 <= i < |es| ==> Expires(cs[i], es[i], cs[i + 1], order)
  }

  predicate Expires<N(==)>(cells: Cells<N>, e: Expiry<N>, cells': Cells<N>, order: seq<N>) {
    && CellsOk(cells) && e.x in order && e.x in cells && cells[e.x].timer != NoTimer
    && cells' == ExpireAt(cells, e.x, e.now)
  }

  /** However the checks are ordered, N channels expire at most 6N times, also if they have peers
      among channels that are never checked. */
  lemma {:induction false} AtMostSixExpiriesEach<N>(cs: seq<Cells<N>>, es: seq<Expiry<N>>, order: seq<N>)
    requires Expiries(cs, es, order) && CellsOk(cs[0]) && Lists(order, cs[0])
    ensures |es| <= Total(cs[0], order) <= 6 * |order|
    decreases |es|
  {
    hide Total, Expires;
    TotalBounds(cs[0], order);
    if es != [] {
      assert Expires(cs[0], es[0], cs[1], order);
      FirstExpiry(cs[0], es[0], cs[1], order);
      forall i | 0 <= i < |es[1..]|
        ensures Expires(cs[1..][i], es[1..][i], cs[1..][i + 1], order)
      {
        assert Expires(cs[i + 1], es[i + 1], cs[i + 2], order);
      }
      AtMostSixExpiriesEach(cs[1..], es[1..], order);
    }
  }

  lemma FirstExpiry<N>(cells: Cells<N>, e: Expiry<N>, cells': Cells<N>, order: seq<N>)
    requires Expires(cells, e, cells', order) && Lists(order, cells)
    ensures CellsOk(cells') && Lists(order, cells') && Total(cells', order) < Total(cells, order)
  {
    hide Total;
    ExpireLowersTotal(cells, order, e.x, e.now);
  }

  // Sweeps

  /** One check of every channel of `order` at time `now` (jz_client_check_timers). */
  function Sweep<N>(cells: Cells<N>, order: seq<N>, now: int): (cells': Cells<N>)
    requires CellsOk(cells) && forall x :: x in order ==> x in cells
    ensures CellsOk(cells') && cells'.Keys == cells.Keys
  {
    if order == [] then cells
    else
      assert forall x :: x in order[1..] ==> x in order;
      Sweep(CheckAt(cells, order[0], now), order[1..], now)
  }

  function CheckAt<N>(cells: Cells<N>, x: N, now: int): (cells': Cells<N>)
    requires CellsOk(cells) && x in cells
    ensures CellsOk(cells') && cells'.Keys == cells.Keys
  {
    if Due(cells[x], now) then ExpireAt(cells, x, now) else cells
  }

  predicate Due<N>(c: Cell<N>, now: int) {
    c.timer != NoTimer && c.expires <= now
  }

  lemma {:induction false} SweepAppend<N>(cells: Cells<N>, order: seq<N>, x: N, now: int)
    requires CellsOk(cells) && x in cells && forall z :: z in order ==> z in cells
    ensures Sweep(cells, order + [x], now) == CheckAt(Sweep(cells, order, now), x, now)
  {
    if order == [] {
      assert order + [x] == [x];
    } else {
      assert forall z :: z in order[1..] ==> z in order;
      assert (order + [x])[1..] == order[1..] + [x];
      SweepAppend(CheckAt(cells, order[0], now), order[1..], x, now);
    }
  }

  /** No timer of a listed channel is running. */
  predicate AtRest<N(==)>(cells: Cells<N>, all: seq<N>)
    requires forall x :: x in all ==> x in cells
  {
    forall x :: x in all ==> cells[x].timer == NoTimer
  }

  predicate ExpiresBy<N>(c: Cell<N>, t: int) {
    c.timer != NoTimer ==> c.expires <= t
  }

  /** Every running timer of a listed channel is due at `t`. */
  predicate Late<N(==)>(cells: Cells<N>, all: seq<N>, t: int)
    requires forall x :: x in all ==> x in cells
  {
    forall x :: x in all ==> ExpiresBy(cells[x], t)
  }

  /** The two sequences list the same channels, perhaps in another order. */
  predicate Walk<N(==)>(order: seq<N>, all: seq<N>) {
    (forall x :: x in order ==> x in all) && (forall x :: x in all ==> x in order)
  }

  /** A sweep never raises the total, and lowers it if some channel of it was due at the start. */
  lemma {:induction false} SweepLowersTotal<N>(cells: Cells<N>, order: seq<N>, now: int, all: seq<N>)
    requires CellsOk(cells) && Lists(all, cells) && forall x :: x in order ==> x in all
    ensures Total(Sweep(cells, order, now), all) <= Total(cells, all)
    ensures (exists x :: x in order && Due(cells[x], now)) ==> Total(Sweep(cells, order, now), all) < Total(cells, all)
  {
    if order != [] {
      var x := order[0];
      assert forall z :: z in order[1..] ==> z in order;
      if Due(cells[x], now) {
        ExpireLowersTotal(cells, all, x, now);
        SweepLowersTotal(ExpireAt(cells, x, now), order[1..], now, all);
      } else {
        SweepLowersTotal(cells, order[1..], now, all);
        if y :| y in order && Due(cells[y], now) {
          assert y in order[1..];
        }
      }
    }
  }

  lemma {:induction false} SweepAtRest<N>(cells: Cells<N>, order: seq<N>, now: int, all: seq<N>)
    requires CellsOk(cells) && (forall x :: x in all ==> x in cells) && AtRest(cells, all)
    requires forall x :: x in order ==> x in all
    ensures Sweep(cells, order, now) == cells
  {
    if order != [] {
      assert forall x :: x in order[1..] ==> x in order;
      SweepAtRest(cells, order[1..], now, all);
    }
  }

  // How late a timer can run out

  lemma ReceiveExpires<N>(c: Cell<N>, m: Message, now: int, t: int)
    requires ExpiresBy(c, t) && now + INCOMING_CALL_SECONDS <= t
    ensures Receive(c, m, now).Done? ==> ExpiresBy(Receive(c, m, now).value, t)
    ensures ExpiresBy(Clear(c, now), t) && ExpiresBy(Reset(c, now), t)
  {
  }

  predicate PairExpiresBy<N>(p: Pair<N>, t: int) {
    ExpiresBy(p.x, t) && (p.y.Some? ==> ExpiresBy(p.y.value, t))
  }

  lemma PunishExpires<N>(p: Pair<N>, now: int, t: int)
    requires PairExpiresBy(p, t) && now + INCOMING_CALL_SECONDS <= t
    ensures PairExpiresBy(PunishClear(p, now), t) && PairExpiresBy(PunishReset(p, now), t)
    ensures PairExpiresBy(Restart(p, now), t)
  {
  }

  lemma ExpireExpires<N>(p: Pair<N>, now: int, t: int)
    requires PairExpiresBy(p, t) && now + INCOMING_CALL_SECONDS <= t && p.x.timer != NoTimer
    ensures Expire(p, now).Done? ==> PairExpiresBy(Expire(p, now).value, t)
  {
  }

  lemma HandleExpires<N>(p: Pair<N>, m: Message, now: int, t: int)
    requires PairExpiresBy(p, t) && now + INCOMING_CALL_SECONDS <= t && !(p.x.state == P1 && m.CallRequest?)
    ensures Handle(p, m, now).Done? ==> PairExpiresBy(Handle(p, m, now).value, t)
  {
    hide Receive, PunishClear, PunishReset, DataAcceptable;
    PunishExpires(p, now, t);
    if p.y.Some? {
      ReceiveExpires(p.y.value, m, now, t);
      ReceiveExpires(p.y.value, ResetConfirmation, now, t);
    }
  }

  /** A change of one channel and its peer, seen over the listed channels. */
  lemma PutLate<N>(cells: Cells<N>, x: N, q: Pair<N>, all: seq<N>, t: int)
    requires x in cells && (forall z :: z in all ==> z in cells) && Late(cells, all, t)
    requires x in all ==> ExpiresBy(q.x, t)
    requires cells[x].peer.Some? && cells[x].peer.value in all && q.y.Some? ==> ExpiresBy(q.y.value, t)
    ensures Late(Put(cells, x, q), all, t)
  {
    hide ExpiresBy;
  }

  lemma {:induction false} SweepLate<N>(cells: Cells<N>, order: seq<N>, now: int, all: seq<N>, t: int)
    requires CellsOk(cells) && (forall x :: x in all ==> x in cells) && (forall x :: x in order ==> x in all)
    requires Late(cells, all, t) && now + INCOMING_CALL_SECONDS <= t
    ensures Late(Sweep(cells, order, now), all, t)
  {
    hide Expire, ExpiresBy, Put;
    if order != [] {
      var x := order[0];
      assert forall z :: z in order[1..] ==> z in order;
      if Due(cells[x], now) {
        ExpiryLate(cells, x, now, all, t);
      }
      SweepLate(CheckAt(cells, x, now), order[1..], now, all, t);
    }
  }

  lemma ExpiryLate<N>(cells: Cells<N>, x: N, now: int, all: seq<N>, t: int)
    requires CellsOk(cells) && (forall z :: z in all ==> z in cells) && x in all && cells[x].timer != NoTimer
    requires Late(cells, all, t) && now + INCOMING_CALL_SECONDS <= t
    ensures Late(ExpireAt(cells, x, now), all, t)
  {
    hide Put;
    var p := At(cells, x);
    ExpireKeeps(p, now);
    var q := Expire(p, now).value;
    assert ExpiresBy(cells[x], t);
    ExpiredBy(p, now, t);
    assert p.y.Some? && cells[x].peer.value in all ==> ExpiresBy(p.y.value, t);
    hide Expire;
    PutLate(cells, x, q, all, t);
  }

  /** Each end of an expired pair for itself. */
  lemma ExpiredBy<N>(p: Pair<N>, now: int, t: int)
    requires p.x.timer != NoTimer && Expire(p, now).Done? && now + INCOMING_CALL_SECONDS <= t && ExpiresBy(p.x, t)
    ensures ExpiresBy(Expire(p, now).value.x, t)
    ensures p.y.Some? && ExpiresBy(p.y.value, t) ==> ExpiresBy(Expire(p, now).value.y.value, t)
  {
  }

  // Sweep after sweep

  lemma LateLater<N>(cells: Cells<N>, all: seq<N>, t: int, u: int)
    requires (forall x :: x in all ==> x in cells) && Late(cells, all, t) && t <= u
    ensures Late(cells, all, u)
  {
    forall x | x in all
      ensures ExpiresBy(cells[x], u)
    {
      assert ExpiresBy(cells[x], t);
    }
  }

  /** Each sweep walks the listed channels in an order of its own, and none is earlier than the one
      before. They may follow each other as closely as one likes. */
  predicate Schedule<N(==)>(cells: Cells<N>, all: seq<N>, orders: seq<seq<N>>, nows: seq<int>) {
    && Lists(all, cells) && |orders| == |nows|
    && (forall i :: 0 <= i < |orders| ==> Walk(orders[i], all))
    && (forall i, j :: 0 <= i < j < |nows| ==> nows[i] <= nows[j])
  }

  /** The channels after the first `k` sweeps. */
  function SweptTo<N>(cells: Cells<N>, all: seq<N>, orders: seq<seq<N>>, nows: seq<int>, k: nat): (cells': Cells<N>)
    requires CellsOk(cells) && Schedule(cells, all, orders, nows) && k <= |nows|
    ensures CellsOk(cells') && cells'.Keys == cells.Keys && Lists(all, cells')
  {
    if k == 0 then cells
    else
      assert Walk(orders[k - 1], all);
      Sweep(SweptTo(cells, all, orders, nows, k - 1), orders[k - 1], nows[k - 1])
  }

  lemma {:induction false} SweepIdle<N>(cells: Cells<N>, order: seq<N>, now: int)
    requires CellsOk(cells) && (forall x :: x in order ==> x in cells)
    requires forall x :: x in order ==> !Due(cells[x], now)
    ensures Sweep(cells, order, now) == cells
  {
    if order != [] {
      assert forall x :: x in order[1..] ==> x in order;
      assert order[0] in order;
      SweepIdle(cells, order[1..], now);
    }
  }

  /** A sweep changes nothing or lowers the total; it lowers it if some listed timer is due. */
  lemma SweepAlternative<N>(cells: Cells<N>, all: seq<N>, order: seq<N>, now: int)
    requires CellsOk(cells) && Lists(all, cells) && Walk(order, all)
    ensures var cells' := Sweep(cells, order, now); cells' == cells || Total(cells', all) < Total(cells, all)
    ensures Late(cells, all, now) && !AtRest(cells, all) ==> Total(Sweep(cells, order, now), all) < Total(cells, all)
  {
    hide Total, Sweep, CellsOk, Distinct;
    SweepLowersTotal(cells, order, now, all);
    if forall x :: x in order ==> !Due(cells[x], now) {
      SweepIdle(cells, order, now);
    }
    if Late(cells, all, now) && !AtRest(cells, all) {
      var x :| x in all && cells[x].timer != NoTimer;
      assert ExpiresBy(cells[x], now);
      assert Due(cells[x], now);
    }
  }

  /** Between two sweeps either nothing has changed or the total is lower. */
  lemma {:induction false} StretchAlternative<N>(cells: Cells<N>, all: seq<N>, orders: seq<seq<N>>, nows: seq<int>,
      p: nat, k: nat)
    requires CellsOk(cells) && Schedule(cells, all, orders, nows) && p <= k <= |nows|
    ensures var a, b := SweptTo(cells, all, orders, nows, p), SweptTo(cells, all, orders, nows, k);
            b == a || Total(b, all) < Total(a, all)
  {
    hide Total, Sweep, CellsOk, Walk;
    if p < k {
      StretchAlternative(cells, all, orders, nows, p, k - 1);
      assert Walk(orders[k - 1], all);
      SweepAlternative(SweptTo(cells, all, orders, nows, k - 1), all, orders[k - 1], nows[k - 1]);
    }
  }

  /** If all timers that run at `p` are due at sweep `k`, then by the end of it the total is lower, or
      there were none. */
  lemma StretchLowers<N>(cells: Cells<N>, all: seq<N>, orders: seq<seq<N>>, nows: seq<int>, p: nat, k: nat)
    requires CellsOk(cells) && Schedule(cells, all, orders, nows) && p <= k < |nows|
    requires Late(SweptTo(cells, all, orders, nows, p), all, nows[k])
    ensures var a, b := SweptTo(cells, all, orders, nows, p), SweptTo(cells, all, orders, nows, k + 1);
            AtRest(a, all) || Total(b, all) < Total(a, all)
  {
    hide Total, Sweep, CellsOk, Walk, Late, AtRest;
    StretchAlternative(cells, all, orders, nows, p, k);
    assert Walk(orders[k], all);
    SweepAlternative(SweptTo(cells, all, orders, nows, k), all, orders[k], nows[k]);
  }

  /** Once at rest, at rest. */
  lemma {:induction false} RestStays<N>(cells: Cells<N>, all: seq<N>, orders: seq<seq<N>>, nows: seq<int>,
      p: nat, k: nat)
    requires CellsOk(cells) && Schedule(cells, all, orders, nows) && p <= k <= |nows|
    requires AtRest(SweptTo(cells, all, orders, nows, p), all)
    ensures AtRest(SweptTo(cells, all, orders, nows, k), all)
  {
    hide Total, CellsOk;
    if p < k {
      RestStays(cells, all, orders, nows, p, k - 1);
      assert Walk(orders[k - 1], all);
      SweepAtRest(SweptTo(cells, all, orders, nows, k - 1), orders[k - 1], nows[k - 1], all);
    }
  }

  /** How late timers can run out after `k` sweeps. */
  lemma {:induction false} SweptLate<N>(cells: Cells<N>, all: seq<N>, orders: seq<seq<N>>, nows: seq<int>,
      k: nat, t: int)
    requires CellsOk(cells) && Schedule(cells, all, orders, nows) && k <= |nows| && Late(cells, all, t)
    requires k > 0 ==> nows[k - 1] + INCOMING_CALL_SECONDS <= t
    ensures Late(SweptTo(cells, all, orders, nows, k), all, t)
  {
    hide Total, CellsOk, Sweep, Late;
    if k > 0 {
      SweptLate(cells, all, orders, nows, k - 1, t);
      assert Walk(orders[k - 1], all);
      SweepLate(SweptTo(cells, all, orders, nows, k - 1), orders[k - 1], nows[k - 1], all, t);
    }
  }

  /** Some of the sweeps, each at least the longest timer after the one before. */
  predicate Apart(marks: seq<nat>, nows: seq<int>) {
    && (forall j :: 0 <= j < |marks| ==> marks[j] < |nows|)
    && (forall j :: 0 <= j < |marks| - 1 ==> Spaced(marks[j], marks[j + 1], nows))
  }

  predicate Spaced(i: nat, j: nat, nows: seq<int>) {
    i < j < |nows| && nows[i] + INCOMING_CALL_SECONDS <= nows[j]
  }

  /** Each marked sweep costs the total at least one, until all listed timers are at rest. */
  lemma {:induction false} MarksLowerTotal<N>(cells: Cells<N>, all: seq<N>, orders: seq<seq<N>>, nows: seq<int>,
      marks: seq<nat>)
    requires CellsOk(cells) && Schedule(cells, all, orders, nows) && Apart(marks, nows) && marks != []
    requires Late(cells, all, nows[marks[0]])
    ensures nows[marks[0]] <= nows[marks[|marks| - 1]]
    ensures var cells' := SweptTo(cells, all, orders, nows, marks[|marks| - 1] + 1);
            AtRest(cells', all) || Total(cells', all) <= Total(cells, all) - |marks|
  {
    hide Total, CellsOk, Sweep, Late, Walk, AtRest;
    var n := |marks| - 1;
    var k := marks[n];
    if n == 0 {
      StretchLowers(cells, all, orders, nows, 0, k);
      if AtRest(cells, all) {
        RestStays(cells, all, orders, nows, 0, k + 1);
      }
    } else {
      var init, p := marks[..n], marks[n - 1] + 1;
      assert Spaced(marks[n - 1], marks[n], nows);
      forall j | 0 <= j < |init| - 1
        ensures Spaced(init[j], init[j + 1], nows)
      {
        assert Spaced(marks[j], marks[j + 1], nows);
      }
      MarksLowerTotal(cells, all, orders, nows, init);
      LateLater(cells, all, nows[marks[0]], nows[k]);
      SweptLate(cells, all, orders, nows, p, nows[k]);
      StretchLowers(cells, all, orders, nows, p, k);
      if AtRest(SweptTo(cells, all, orders, nows, p), all) {
        RestStays(cells, all, orders, nows, p, k + 1);
      }
    }
  }

  /** A running timer is worth at least one expiry. */
  lemma {:induction false} RunningTimerCounts<N>(cells: Cells<N>, order: seq<N>, x: N)
    requires (forall z :: z in order ==> z in cells && TimedOk(cells[z])) && x in order && cells[x].timer != NoTimer
    ensures Total(cells, order) >= 1
  {
    assert forall z :: z in order[1..] ==> z in order;
    assert TimedOk(cells[order[0]]) && TimedOk(cells[x]);
    TotalBounds(cells, order[1..]);
    if x != order[0] {
      RunningTimerCounts(cells, order[1..], x);
    }
  }

  /** With silent clients: however many sweeps there are and however close together, if 6N of them,
      the first once all timers running at the start are due, are 18 seconds apart, no timer of the N
      swept channels is running at the end. */
  lemma SweepsComeToRest<N>(cells: Cells<N>, all: seq<N>, orders: seq<seq<N>>, nows: seq<int>, marks: seq<nat>)
    requires CellsOk(cells) && Schedule(cells, all, orders, nows) && Apart(marks, nows) && |marks| >= 6 * |all|
    requires marks != [] ==> Late(cells, all, nows[marks[0]])
    ensures AtRest(SweptTo(cells, all, orders, nows, |nows|), all)
  {
    hide SweptTo, Total;
    if all != [] {
      var k := marks[|marks| - 1] + 1;
      MarksLowerTotal(cells, all, orders, nows, marks);
      var cells' := SweptTo(cells, all, orders, nows, k);
      TotalBounds(cells, all);
      if !AtRest(cells', all) {
        var x :| x in all && cells'[x].timer != NoTimer;
        RunningTimerCounts(cells', all, x);
      }
      RestStays(cells, all, orders, nows, k, |nows|);
    }
  }

  /** In particular if there are 6N sweeps in all, each 18 seconds after the one before. */
  lemma SparseSweepsComeToRest<N>(cells: Cells<N>, all: seq<N>, orders: seq<seq<N>>, nows: seq<int>)
    requires CellsOk(cells) && Schedule(cells, all, orders, nows) && |nows| >= 6 * |all|
    requires nows != [] ==> Late(cells, all, nows[0])
    requires forall i :: 0 <= i < |nows| - 1 ==> nows[i] + INCOMING_CALL_SECONDS <= nows[i + 1]
    ensures AtRest(SweptTo(cells, all, orders, nows, |nows|), all)
  {
    var marks := seq(|nows|, i requires 0 <= i < |nows| => i as nat);
    forall j | 0 <= j < |marks| - 1
      ensures Spaced(marks[j], marks[j + 1], nows)
    {
      assert nows[j] + INCOMING_CALL_SECONDS <= nows[j + 1];
    }
    SweepsComeToRest(cells, all, orders, nows, marks);
  }

  // Runs

  /** The event happens at `t` or before. */
  predicate By<N, C>(e: Event<N, C>, t: int) {
    match e
    case FromClient(_, _, now) => now <= t
    case OpenChannel(_, _, _) => true
    case PlaceCall(_, _, _, _, _, now) => now <= t
    case RefuseCall(_, now) => now <= t
    case RestartClient(_, _, now) => now <= t
    case TimerExpiry(_, now) => now <= t
  }

  predicate AllBy<N>(cells: Cells<N>, t: int) {
    forall x :: x in cells ==> ExpiresBy(cells[x], t)
  }

  lemma PutBy<N>(cells: Cells<N>, x: N, q: Pair<N>, t: int)
    requires AllBy(cells, t) && x in cells && PairExpiresBy(q, t)
    ensures AllBy(Put(cells, x, q), t)
  {
    hide ExpiresBy;
  }

  lemma AtBy<N>(cells: Cells<N>, x: N, t: int)
    requires AllBy(cells, t) && x in cells
    ensures PairExpiresBy(At(cells, x), t)
  {
    hide ExpiresBy;
  }

  lemma {:induction false} RestartAllBy<N>(cells: Cells<N>, order: seq<N>, now: int, t: int)
    requires AllBy(cells, t) && now + INCOMING_CALL_SECONDS <= t && forall x :: x in order ==> x in cells
    ensures AllBy(RestartAll(cells, order, now), t)
  {
    hide ExpiresBy, Restart, Put, At;
    if order != [] {
      var before, x := RestartAll(cells, order[..|order| - 1], now), order[|order| - 1];
      RestartAllBy(cells, order[..|order| - 1], now, t);
      AtBy(before, x, t);
      PunishExpires(At(before, x), now, t);
      PutBy(before, x, Restart(At(before, x), now), t);
    }
  }

  lemma StepBy<N, C>(n: Net<N, C>, e: Event<N, C>, t: int)
    requires Enabled(n, e) && By(e, t) && AllBy(n.cells, t + INCOMING_CALL_SECONDS)
    ensures Step(n, e).Done? ==> AllBy(Step(n, e).value.cells, t + INCOMING_CALL_SECONDS)
  {
    hide ExpiresBy, Handle, Expire, PunishClear, RestartAll, Put, At, Connect;
    var u := t + INCOMING_CALL_SECONDS;
    match e
    case FromClient(x, m, now) =>
      AtBy(n.cells, x, u);
      AtSelf(n.cells, x);
      HandleExpires(At(n.cells, x), m, now, u);
      if Handle(At(n.cells, x), m, now).Done? {
        PutBy(n.cells, x, Handle(At(n.cells, x), m, now).value, u);
      }
    case OpenChannel(c, lcn, y) => AddBy(n, c, lcn, y, u);
    case PlaceCall(x, f, c, lcn, y, now) =>
      AddBy(n, c, lcn, y, u);
      ConnectBy(n.cells[x], x, y, f, now, u);
    case RefuseCall(x, now) =>
      AtBy(n.cells, x, u);
      PunishExpires(At(n.cells, x), now, u);
      PutBy(n.cells, x, PunishClear(At(n.cells, x), now), u);
    case RestartClient(_, order, now) => RestartAllBy(n.cells, order, now, u);
    case TimerExpiry(x, now) =>
      AtBy(n.cells, x, u);
      AtSelf(n.cells, x);
      ExpireExpires(At(n.cells, x), now, u);
      if Expire(At(n.cells, x), now).Done? {
        PutBy(n.cells, x, Expire(At(n.cells, x), now).value, u);
      }
  }

  lemma AtSelf<N>(cells: Cells<N>, x: N)
    requires x in cells
    ensures At(cells, x).x == cells[x]
  {
  }

  lemma AddBy<N, C>(n: Net<N, C>, c: C, lcn: nat, y: N, t: int)
    requires AllBy(n.cells, t) && c in n.tables
    ensures AllBy(Add(n, c, lcn, y).cells, t)
  {
  }

  lemma ConnectBy<N>(x: Cell<N>, nameX: N, nameY: N, f: Facilities, now: int, t: int)
    requires ExpiresBy(x, t) && now + INCOMING_CALL_SECONDS <= t
    ensures var r := Connect(x, nameX, Fresh(), nameY, f, now); r.Done? && r.value.y.Some? && PairExpiresBy(r.value, t)
  {
  }

  /** In a run that is at time `t`, every running timer runs out within the longest duration. */
  lemma {:induction false} RunTimersBy<N, C>(ns: seq<Net<N, C>>, es: seq<Event<N, C>>, i: nat, t: int)
    requires IsRun(ns, es) && i < |ns| && forall j :: 0 <= j < i ==> By(es[j], t)
    ensures AllBy(ns[i].cells, t + INCOMING_CALL_SECONDS)
  {
    if i > 0 {
      RunTimersBy(ns, es, i - 1, t);
      assert StepsTo(ns[i - 1], es[i - 1], ns[i]);
      StepBy(ns[i - 1], es[i - 1], t);
    }
  }

  /** From every configuration of every run, if clients fall silent at `t`: any N channels, such as
      those in the tables, have no timer running after sweeps of which 6N, the first at least eighteen
      seconds after `t`, are eighteen seconds apart. */
  lemma RunsComeToRest<N, C>(ns: seq<Net<N, C>>, es: seq<Event<N, C>>, i: nat, t: int,
                             all: seq<N>, orders: seq<seq<N>>, nows: seq<int>, marks: seq<nat>)
    requires IsRun(ns, es) && i < |ns| && (forall j :: 0 <= j < i ==> By(es[j], t))
    requires Schedule(ns[i].cells, all, orders, nows) && Apart(marks, nows) && |marks| >= 6 * |all|
    requires marks != [] ==> t + INCOMING_CALL_SECONDS <= nows[marks[0]]
    ensures CellsOk(ns[i].cells)
    ensures AtRest(SweptTo(ns[i].cells, all, orders, nows, |nows|), all)
  {
    hide SweptTo, ExpiresBy;
    RunsKeepNetOk(ns, es, i);
    RunTimersBy(ns, es, i, t);
    assert Late(ns[i].cells, all, t + INCOMING_CALL_SECONDS);
    if marks != [] {
      LateLater(ns[i].cells, all, t + INCOMING_CALL_SECONDS, nows[marks[0]]);
    }
    SweepsComeToRest(ns[i].cells, all, orders, nows, marks);
  }
}
