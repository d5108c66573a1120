/** Sequence numbers, windows and facility negotiation (src/seq.c, application10/seq.c,
    application10/packet.c, application10/tput.c).

    A sequence number on the wire names a packet count only up to a modulus. The lemmas here
    say when a cyclic comparison of such numbers decides a comparison of the counts. */
module Sequence {

  const SEQ_MAX: nat := 8
  const WINDOW_MIN: nat := 1
  const WINDOW_MAX: nat := SEQ_MAX - 1
  const WINDOW_NEGOTIATE: nat := 2

  const PACKET_FIRST: nat := 4
  const PACKET_LAST: nat := 12
  const PACKET_NEGOTIATE: nat := 7

  const TPUT_FIRST: nat := 3
  const TPUT_LAST: nat := 44
  const TPUT_NEGOTIATE: nat := 10

  /** `x` lies on the cyclic walk from `lo` up to `hi`. */
  predicate InRange(x: nat, lo: nat, hi: nat) {
    || (hi < lo && (x <= hi || x >= lo))
    || (hi > lo && lo <= x <= hi)
    || (hi == lo && lo == x)
  }

  predicate SeqOk(x: nat) {
    x <= SEQ_MAX
  }

  predicate WindowOk(x: nat) {
    WINDOW_MIN <= x <= WINDOW_MAX
  }

  predicate PacketOk(x: nat) {
    PACKET_FIRST <= x <= PACKET_LAST
  }

  predicate TputOk(x: nat) {
    TPUT_FIRST <= x <= TPUT_LAST
  }

  function Pow2(n: nat): (r: nat)
    ensures r >= 1
  {
    if n == 0 then 1 else 2 * Pow2(n - 1)
  }

  /** The largest payload of a packet facility: entry `x` of the rate table. */
  function PacketBytes(x: nat): (r: nat)
    requires PacketOk(x)
    ensures r >= 1
  {
    Pow2(x)
  }

  /** The rate table, entry by entry. */
  function Bytes(packet: nat): nat {
    match packet
    case 4 => 16
    case 5 => 32
    case 6 => 64
    case 7 => 128
    case 8 => 256
    case 9 => 512
    case 10 => 1024
    case 11 => 2048
    case 12 => 4096
    case _ => 0
  }

  lemma PacketBytesTable(packet: nat)
    requires PacketOk(packet)
    ensures PacketBytes(packet) == Bytes(packet)
  {
    assert Pow2(4) == 16;
    if packet > 6 {
      assert Pow2(6) == 64;
      if packet > 8 {
        assert Pow2(8) == 256;
        if packet > 10 {
          assert Pow2(10) == 1024;
        }
      }
    }
  }

  predicate Between(x: nat, a: nat, b: nat) {
    (a <= x <= b) || (b <= x <= a)
  }

  /** The shared shape of window_negotiate, packet_negotiate and tput_negotiate: a request is
      fair exactly when it lies between the current value and the facility's pivot. */
  predicate Negotiable(request: nat, current: nat, pivot: nat): (ok: bool)
    ensures ok <==> Between(request, current, pivot)
  {
    if request > pivot then request <= current
    else if request < pivot then request >= current
    else true
  }

  /** The least count that is at least `from` and is named by `x` modulo `n`. */
  function NextNamed(from: nat, x: nat, n: nat): (c: nat)
    requires x < n
    ensures from <= c
  {
    from + (x + n - from % n) % n
  }

  /** A count at most one cycle ahead is named by adding, and subtracting the modulus once. */
  lemma NameAhead(a: nat, d: nat, n: nat)
    requires n == 8 || n == 9
    requires d <= n
    ensures (a + d) % n == if a % n + d < n then a % n + d else a % n + d - n
  {
    var q, r := a / n, a % n;
    if n == 8 {
      assert a + d == 8 * q + (r + d);
    } else {
      assert a + d == 9 * q + (r + d);
    }
  }

  /** `NextNamed` in terms of the distance to it. */
  lemma NextNamedAhead(from: nat, x: nat, n: nat)
    requires n == 8 || n == 9
    requires x < n
    ensures NextNamed(from, x, n) == from + if x >= from % n then x - from % n else x + n - from % n
  {
  }

  /** `NextNamed` is a count with that name, and no count between it and `from` has the name. */
  lemma NextNamedIsLeast(from: nat, x: nat, n: nat, k: nat)
    requires n == 8 || n == 9
    requires x < n
    ensures NextNamed(from, x, n) % n == x
    ensures from <= k && k % n == x ==> NextNamed(from, x, n) <= k
  {
    var c := NextNamed(from, x, n);
    NextNamedAhead(from, x, n);
    NameAhead(from, c - from, n);
    if from <= k < c && k % n == x {
      SameNameApart(k, c, n);
    }
  }

  /** A count less than a cycle ahead is the next one of its name. */
  lemma NextNamedSelf(from: nat, k: nat, n: nat)
    requires n == 8 || n == 9
    requires from <= k < from + n
    ensures NextNamed(from, k % n, n) == k
  {
    NextNamedAhead(from, k % n, n);
    NameAhead(from, k - from, n);
  }

  lemma SameNameApart(a: nat, b: nat, n: nat)
    requires n == 8 || n == 9
    requires a < b && a % n == b % n
    ensures b - a >= n
  {
    if n == 8 {
      assert b / 8 > a / 8;
    } else {
      assert b / 9 > a / 9;
    }
  }

  /** On a span shorter than the modulus the cyclic test is exact: it accepts a name iff the
      name belongs to a count of the span. */
  lemma InRangeIsExact(lo: nat, hi: nat, x: nat, n: nat)
    requires n == 8 || n == 9
    requires lo <= hi < lo + n
    requires x < n
    ensures InRange(x, lo % n, hi % n) <==> NextNamed(lo, x, n) <= hi
  {
    NextNamedAhead(lo, x, n);
    NameAhead(lo, hi - lo, n);
    hide NextNamed;
  }

  /** The end of the window as the handlers compute it: C's `%` on a signed operand, stored in
      sixteen unsigned bits. It differs from the mathematical remainder only when both
      arguments are 0. */
  function WindowEnd(pr: nat, window: nat): (e: nat)
    ensures pr + window > 0 ==> e < SEQ_MAX
  {
    if pr + window == 0 then 65535 else (pr + window - 1) % SEQ_MAX
  }
}
