/** The quick index sort of src/lib.c: an explicit stack of segments, a median-of-three pivot, scans
    that rely on sentinels, and insertion sort for short segments. */
module QuickSort {
  import opened StringOrder
  import opened IndexSort
  import opened Sequence

  const NSTACK: nat := 50
  const M: nat := 7

  predicate Injective(s: seq<nat>) {
    forall p, q :: 0 <= p < q < |s| ==> s[p] != s[q]
  }

  /** `t` is `s` with the entries from `l` to `r` in some other order. */
  predicate Rearranged(s: seq<nat>, t: seq<nat>, l: nat, r: nat) {
    && |s| == |t|
    && (forall p :: 0 <= p < |s| && !(l <= p <= r) ==> t[p] == s[p])
    && (forall p :: 0 <= p < |s| && l <= p <= r ==> From(s, t[p], l, r))
    && (Injective(s) ==> Injective(t))
  }

  predicate From(s: seq<nat>, x: nat, l: nat, r: nat) {
    exists q :: 0 <= q < |s| && l <= q <= r && s[q] == x
  }

  lemma RearrangedSame(s: seq<nat>, l: nat, r: nat)
    ensures Rearranged(s, s, l, r)
  {
    forall p | 0 <= p < |s| && l <= p <= r
      ensures From(s, s[p], l, r)
    {
    }
  }

  lemma RearrangedTrans(s: seq<nat>, t: seq<nat>, u: seq<nat>, l: nat, r: nat)
    requires Rearranged(s, t, l, r) && Rearranged(t, u, l, r)
    ensures Rearranged(s, u, l, r)
  {
    forall p | 0 <= p < |s| && l <= p <= r
      ensures From(s, u[p], l, r)
    {
      var q :| 0 <= q < |t| && l <= q <= r && t[q] == u[p];
      assert From(s, t[q], l, r);
    }
  }

  lemma RearrangedSwap(s: seq<nat>, l: nat, r: nat, i: nat, j: nat)
    requires l <= i <= r < |s| && l <= j <= r
    ensures Rearranged(s, s[i := s[j]][j := s[i]], l, r)
  {
    var t := s[i := s[j]][j := s[i]];
    forall p | 0 <= p < |s| && l <= p <= r
      ensures From(s, t[p], l, r)
    {
      if p == i {
        assert s[j] == t[p];
      } else if p == j {
        assert s[i] == t[p];
      } else {
        assert s[p] == t[p];
      }
    }
  }

  /** Sorting a segment rearranges it. */
  lemma RearrangedSorted(s: seq<nat>, t: seq<nat>, l: nat, r: nat)
    requires |s| == |t| && l <= r < |s|
    requires forall p :: 0 <= p < |s| && !(l <= p < r) ==> t[p] == s[p]
    requires multiset(t[l..r]) == multiset(s[l..r])
    ensures Rearranged(s, t, l, r)
  {
    forall p | 0 <= p < |s| && l <= p <= r
      ensures From(s, t[p], l, r)
    {
      if p < r {
        assert t[p] == t[l..r][p - l];
        assert t[p] in multiset(t[l..r]);
        assert t[p] in s[l..r];
        var k :| 0 <= k < r - l && s[l..r][k] == t[p];
        assert s[l + k] == t[p];
      } else {
        assert s[p] == t[p];
      }
    }
    if Injective(s) {
      WholeMultiset(s, t, l, r);
      InjectiveByCount(s, t);
    }
  }

  lemma WholeMultiset(s: seq<nat>, t: seq<nat>, l: nat, r: nat)
    requires |s| == |t| && l <= r < |s|
    requires forall p :: 0 <= p < |s| && !(l <= p < r) ==> t[p] == s[p]
    requires multiset(t[l..r]) == multiset(s[l..r])
    ensures multiset(t) == multiset(s)
  {
    assert s == s[..l] + s[l..r] + s[r..] && t == t[..l] + t[l..r] + t[r..];
    assert s[..l] == t[..l] && s[r..] == t[r..];
  }

  lemma {:induction false} CountOnce(s: seq<nat>, x: nat)
    requires Injective(s)
    ensures multiset(s)[x] <= 1
  {
    if s != [] {
      var init, l := s[..|s| - 1], s[|s| - 1];
      assert s == init + [l];
      assert forall p, q :: 0 <= p < q < |init| ==> init[p] != init[q];
      CountOnce(init, x);
      if x == l {
        assert forall p :: 0 <= p < |init| ==> init[p] == s[p] && s[p] != l;
        assert l !in init;
      }
    }
  }

  lemma InjectiveByCount(s: seq<nat>, t: seq<nat>)
    requires Injective(s) && multiset(t) == multiset(s)
    ensures Injective(t)
  {
    forall p, q | 0 <= p < q < |t|
      ensures t[p] != t[q]
    {
      if t[p] == t[q] {
        assert t == t[..q] + t[q..];
        assert t[..q][p] == t[p] && t[q..][0] == t[q];
        assert multiset(t)[t[p]] == multiset(t[..q])[t[p]] + multiset(t[q..])[t[p]] >= 2;
        CountOnce(s, t[p]);
      }
    }
  }

  /** The order of the strings, as numbers. */
  function Rank(rank: seq<nat>, s: seq<nat>, p: nat): nat
    requires p < |s| && s[p] < |rank|
  {
    rank[s[p]]
  }

  predicate InBounds(rank: seq<nat>, s: seq<nat>) {
    forall p :: 0 <= p < |s| ==> s[p] < |rank|
  }

  lemma RearrangedInRange(rank: seq<nat>, s: seq<nat>, t: seq<nat>, l: nat, r: nat)
    requires Rearranged(s, t, l, r) && InBounds(rank, s)
    ensures InBounds(rank, t)
  {
    forall p | 0 <= p < |t|
      ensures t[p] < |rank|
    {
      if l <= p <= r {
        assert From(s, t[p], l, r);
      }
    }
  }

  // What the steps of a partition compute

  function RankAt(rank: seq<nat>, s: seq<nat>, p: nat): nat {
    if p < |s| && s[p] < |rank| then rank[s[p]] else 0
  }

  function Swapped(s: seq<nat>, i: nat, j: nat): seq<nat>
    requires i < |s| && j < |s|
  {
    s[i := s[j]][j := s[i]]
  }

  function Sort3Of(rank: seq<nat>, s: seq<nat>, a: nat, b: nat, c: nat): (t: seq<nat>)
    requires a < |s| && b < |s| && c < |s|
    ensures |t| == |s|
  {
    var s1 := if RankAt(rank, s, a) > RankAt(rank, s, c) then Swapped(s, a, c) else s;
    var s2 := if RankAt(rank, s1, b) > RankAt(rank, s1, c) then Swapped(s1, b, c) else s1;
    if RankAt(rank, s2, a) > RankAt(rank, s2, b) then Swapped(s2, a, b) else s2
  }

  /** The first position after `i` that is not below `v`. */
  function Up(rank: seq<nat>, s: seq<nat>, i: nat, v: nat): nat
    decreases |s| - i
  {
    if i + 1 >= |s| || RankAt(rank, s, i + 1) >= v then i + 1 else Up(rank, s, i + 1, v)
  }

  /** The last position before `j` that is not above `v`. */
  function Down(rank: seq<nat>, s: seq<nat>, j: nat, v: nat): nat {
    if j == 0 then 0 else if RankAt(rank, s, j - 1) <= v then j - 1 else Down(rank, s, j - 1, v)
  }

  /** The entries and the two positions when the scans have crossed. */
  function Exchanged(rank: seq<nat>, s: seq<nat>, i: nat, j: nat, v: nat): (seq<nat>, nat, nat)
    decreases j
  {
    var i', j' := Up(rank, s, i, v), Down(rank, s, j, v);
    if j' < i' || i' >= |s| || j' >= |s| || j' >= j then (s, i', j')
    else Exchanged(rank, Swapped(s, i', j'), i', j', v)
  }

  function Partitioned(rank: seq<nat>, s: seq<nat>, left: nat, right: nat): (seq<nat>, nat, nat)
    requires left + 2 < right < |s|
  {
    var s1 := Swapped(s, (left + right) / 2, left + 1);
    var s2 := Sort3Of(rank, s1, left, left + 1, right);
    var (s3, i, j) := Exchanged(rank, s2, left + 1, right, RankAt(rank, s2, left + 1));
    (if left + 1 < |s3| && j < |s3| then Swapped(s3, left + 1, j) else s3, i, j)
  }

  lemma {:induction false} UpIs(rank: seq<nat>, s: seq<nat>, i: nat, v: nat, k: nat)
    requires i < k < |s| && RankAt(rank, s, k) >= v && forall p :: i < p < k ==> RankAt(rank, s, p) < v
    ensures Up(rank, s, i, v) == k
    decreases k - i
  {
    if i + 1 < k {
      UpIs(rank, s, i + 1, v, k);
    }
  }

  lemma {:induction false} DownIs(rank: seq<nat>, s: seq<nat>, j: nat, v: nat, k: nat)
    requires k < j <= |s| && RankAt(rank, s, k) <= v && forall p :: k < p < j ==> RankAt(rank, s, p) > v
    ensures Down(rank, s, j, v) == k
  {
    if k + 1 < j {
      DownIs(rank, s, j - 1, v, k);
    }
  }

  lemma ExchangeStops(rank: seq<nat>, s: seq<nat>, i: nat, j: nat, v: nat, i': nat, j': nat)
    requires i' == Up(rank, s, i, v) && j' == Down(rank, s, j, v) && j' < i'
    ensures Exchanged(rank, s, i, j, v) == (s, i', j')
  {
  }

  lemma ExchangeGoesOn(rank: seq<nat>, s: seq<nat>, i: nat, j: nat, v: nat, i': nat, j': nat)
    requires i' == Up(rank, s, i, v) && j' == Down(rank, s, j, v) && i' <= j' < j && j' < |s|
    ensures Exchanged(rank, s, i, j, v) == Exchanged(rank, Swapped(s, i', j'), i', j', v)
  {
  }

  method Swap(indx: array<nat>, i: nat, j: nat, ghost l: nat, ghost r: nat)
    requires l <= i <= r < indx.Length && l <= j <= r
    modifies indx
    ensures indx[..] == Swapped(old(indx[..]), i, j)
    ensures Rearranged(old(indx[..]), indx[..], l, r)
  {
    RearrangedSwap(indx[..], l, r, i, j);
    var tmp := indx[i];
    indx[i] := indx[j];
    indx[j] := tmp;
  }

  /** sort3: the three entries end up in order. */
  method Sort3(arr: seq<Str>, indx: array<nat>, a: nat, b: nat, c: nat, ghost rank: seq<nat>)
    requires a < b < c < indx.Length && Ranks(arr, rank) && InBounds(rank, indx[..])
    modifies indx
    ensures Rearranged(old(indx[..]), indx[..], a, c) && InBounds(rank, indx[..])
    ensures Rank(rank, indx[..], a) <= Rank(rank, indx[..], b) <= Rank(rank, indx[..], c)
    ensures indx[..] == Sort3Of(rank, old(indx[..]), a, b, c)
    ensures old(Rank(rank, indx[..], a) <= Rank(rank, indx[..], b) <= Rank(rank, indx[..], c)) ==>
              indx[..] == old(indx[..])
  {
    hide Rearranged;
    ghost var s0 := indx[..];
    RearrangedSame(s0, a, c);
    if Compare(arr[indx[a]], arr[indx[c]]) > 0 {
      Swap(indx, a, c, a, c);
    }
    ghost var s1 := indx[..];
    if Compare(arr[indx[b]], arr[indx[c]]) > 0 {
      Swap(indx, b, c, a, c);
    } else {
      RearrangedSame(s1, a, c);
    }
    ghost var s2 := indx[..];
    RearrangedTrans(s0, s1, s2, a, c);
    if Compare(arr[indx[a]], arr[indx[b]]) > 0 {
      Swap(indx, a, b, a, c);
    } else {
      RearrangedSame(s2, a, c);
    }
    RearrangedTrans(s0, s2, indx[..], a, c);
    RearrangedInRange(rank, s0, indx[..], a, c);
  }

  // Partitioning

  /** Entries up to `i` (but for the pivot at `left + 1`) are at most the pivot `v`, entries from
      `j` on are at least it. */
  predicate Scanned(rank: seq<nat>, s: seq<nat>, left: nat, right: nat, i: nat, j: nat, v: nat)
    requires InBounds(rank, s) && right < |s|
  {
    && (forall p :: left <= p <= i && p < |s| ==> Rank(rank, s, p) <= v)
    && (forall p :: j <= p <= right ==> Rank(rank, s, p) >= v)
  }

  /** The segment is split around position `j`: not larger before it, equal strings from it up to
      `i`, not smaller from `i` on. */
  predicate Split(rank: seq<nat>, s: seq<nat>, left: nat, right: nat, i: nat, j: nat)
    requires InBounds(rank, s) && right < |s|
  {
    && left < j < i <= right
    && (forall p :: left <= p < i ==> Rank(rank, s, p) <= Rank(rank, s, j))
    && (forall p :: j <= p <= right ==> Rank(rank, s, p) >= Rank(rank, s, j))
  }

  /** Scan up to an entry that is not smaller than the pivot. `bound` is a sentinel. */
  method ScanUp(arr: seq<Str>, indx: array<nat>, i0: nat, value: nat, ghost rank: seq<nat>, ghost bound: nat)
    returns (i: nat)
    requires Ranks(arr, rank) && InBounds(rank, indx[..]) && value < |arr|
    requires i0 < bound < indx.Length && Rank(rank, indx[..], bound) >= rank[value]
    ensures i == Up(rank, indx[..], i0, rank[value])
    ensures i0 < i <= bound && Rank(rank, indx[..], i) >= rank[value]
    ensures forall p :: i0 < p < i ==> Rank(rank, indx[..], p) < rank[value]
  {
    i := i0 + 1;
    while Compare(arr[indx[i]], arr[value]) < 0
      invariant i0 < i <= bound && Up(rank, indx[..], i0, rank[value]) == Up(rank, indx[..], i - 1, rank[value])
      invariant forall p :: i0 < p < i ==> Rank(rank, indx[..], p) < rank[value]
      decreases bound - i
    {
      CompareFlips(arr[indx[i]], arr[value]);
      assert i != bound;
      i := i + 1;
    }
    CompareFlips(arr[indx[i]], arr[value]);
  }

  /** Scan down to an entry that is not larger than the pivot. */
  method ScanDown(arr: seq<Str>, indx: array<nat>, j0: nat, value: nat, ghost rank: seq<nat>, ghost bound: nat)
    returns (j: nat)
    requires Ranks(arr, rank) && InBounds(rank, indx[..]) && value < |arr|
    requires bound < j0 <= indx.Length && Rank(rank, indx[..], bound) <= rank[value]
    ensures j == Down(rank, indx[..], j0, rank[value])
    ensures bound <= j < j0 && Rank(rank, indx[..], j) <= rank[value]
    ensures forall p :: j < p < j0 ==> Rank(rank, indx[..], p) > rank[value]
  {
    j := j0 - 1;
    while Compare(arr[indx[j]], arr[value]) > 0
      invariant bound <= j < j0 && Down(rank, indx[..], j0, rank[value]) == Down(rank, indx[..], j + 1, rank[value])
      invariant forall p :: j < p < j0 ==> Rank(rank, indx[..], p) > rank[value]
      decreases j
    {
      assert j != bound;
      j := j - 1;
    }
  }

  /** Apart from the pivot at `left + 1`, the segment is split after `c` already. */
  predicate Steady(rank: seq<nat>, s: seq<nat>, left: nat, right: nat, c: nat)
    requires InBounds(rank, s) && left + 1 < right < |s|
  {
    && left + 1 <= c < right
    && (forall p :: left + 1 < p <= c ==> Rank(rank, s, p) < Rank(rank, s, left + 1))
    && (forall p :: c < p <= right ==> Rank(rank, s, p) > Rank(rank, s, left + 1))
  }

  /** The inner loop of qisort: entries on the wrong side of the pivot are exchanged until the two
      scans cross. Sentinels at both ends keep them inside the segment. */
  method Exchange(arr: seq<Str>, indx: array<nat>, left: nat, right: nat, ghost rank: seq<nat>)
    returns (i: nat, j: nat)
    requires left + 2 < right < indx.Length && Ranks(arr, rank) && InBounds(rank, indx[..])
    requires Rank(rank, indx[..], left) <= Rank(rank, indx[..], left + 1) <= Rank(rank, indx[..], right)
    modifies indx
    ensures Rearranged(old(indx[..]), indx[..], left, right) && InBounds(rank, indx[..])
    ensures indx[left + 1] == old(indx[left + 1])
    ensures left < j < i <= right
    ensures Scanned(rank, indx[..], left, right, i - 1, j + 1, Rank(rank, indx[..], left + 1))
    ensures Rank(rank, indx[..], j) <= Rank(rank, indx[..], left + 1)
    ensures Rank(rank, indx[..], i) >= Rank(rank, indx[..], left + 1)
    ensures (indx[..], i, j) == Exchanged(rank, old(indx[..]), left + 1, right, rank[old(indx[left + 1])])
  {
    hide Rearranged, Compare, Exchanged, Up, Down, RankAt, Scanned, Ranks, Swapped;
    ghost var s0 := indx[..];
    var value := indx[left + 1];
    ghost var v := rank[value];
    RearrangedSame(s0, left, right);
    i, j := left + 1, right;
    RanksCover(arr, rank);
    ScannedStart(rank, s0, left, right);
    while true
      invariant left + 1 <= i <= j <= right && (i == left + 1 ==> j == right) && (i > left + 1 ==> j < right)
      invariant Rearranged(s0, indx[..], left, right) && InBounds(rank, indx[..])
      invariant indx[left + 1] == value && v == rank[value]
      invariant Scanned(rank, indx[..], left, right, i, j, v)
      invariant Exchanged(rank, s0, left + 1, right, v) == Exchanged(rank, indx[..], i, j, v)
      decreases j - i, right - j
    {
      ghost var up := if i < j then j else j + 1;
      ghost var down := if i < j then i else i - 1;
      ghost var i0, j0 := i, j;
      Sentinels(rank, indx[..], left, right, i, j, v);
      i := ScanUp(arr, indx, i, value, rank, up);
      j := ScanDown(arr, indx, j, value, rank, down);
      ghost var s1 := indx[..];
      if j < i {
        ExchangeStops(rank, s1, i0, j0, v, i, j);
        ScansCrossed(rank, s1, left, right, i0, j0, i, j, v);
        break;
      }
      ExchangeGoesOn(rank, s1, i0, j0, v, i, j);
      Swap(indx, i, j, left, right);
      RearrangedTrans(s0, s1, indx[..], left, right);
      RearrangedInRange(rank, s1, indx[..], left, right);
      SwappedAside(s1, i, j, left + 1);
      ScannedSwap(rank, s1, indx[..], left, right, i0, j0, i, j, v);
    }
  }

  /** A segment that is split already stays as it is. */
  lemma SteadyStays(rank: seq<nat>, s: seq<nat>, left: nat, right: nat, c: nat)
    requires InBounds(rank, s) && left + 1 < right < |s| && Steady(rank, s, left, right, c)
    ensures Exchanged(rank, s, left + 1, right, Rank(rank, s, left + 1)) == (s, c + 1, c)
  {
    var v := Rank(rank, s, left + 1);
    assert forall p :: left < p <= right ==> RankAt(rank, s, p) == Rank(rank, s, p);
    UpIs(rank, s, left + 1, v, c + 1);
    DownIs(rank, s, right, v, c);
    ExchangeStops(rank, s, left + 1, right, v, c + 1, c);
  }

  lemma RanksCover(arr: seq<Str>, rank: seq<nat>)
    requires Ranks(arr, rank)
    ensures |rank| == |arr|
  {
  }

  lemma SwappedAside(s: seq<nat>, i: nat, j: nat, p: nat)
    requires i < |s| && j < |s| && p < |s| && p != i && p != j
    ensures Swapped(s, i, j)[p] == s[p]
  {
  }

  lemma ScannedStart(rank: seq<nat>, s: seq<nat>, left: nat, right: nat)
    requires InBounds(rank, s) && left + 1 < right < |s|
    requires Rank(rank, s, left) <= Rank(rank, s, left + 1) <= Rank(rank, s, right)
    ensures Scanned(rank, s, left, right, left + 1, right, Rank(rank, s, left + 1))
  {
  }

  /** What the scans have passed keeps them inside the segment. */
  lemma Sentinels(rank: seq<nat>, s: seq<nat>, left: nat, right: nat, i: nat, j: nat, v: nat)
    requires InBounds(rank, s) && right < |s| && left + 1 <= i <= j <= right && (i == j ==> j < right)
    requires Scanned(rank, s, left, right, i, j, v)
    ensures Rank(rank, s, if i < j then j else j + 1) >= v
    ensures Rank(rank, s, if i < j then i else i - 1) <= v
  {
  }

  lemma ScansCrossed(rank: seq<nat>, s: seq<nat>, left: nat, right: nat, i0: nat, j0: nat, i: nat, j: nat, v: nat)
    requires InBounds(rank, s) && right < |s| && left <= i0 < i <= right && left <= j < j0 <= right
    requires Scanned(rank, s, left, right, i0, j0, v)
    requires forall p :: i0 < p < i ==> Rank(rank, s, p) < v
    requires forall p :: j < p < j0 ==> Rank(rank, s, p) > v
    ensures Scanned(rank, s, left, right, i - 1, j + 1, v)
  {
  }

  lemma ScannedSwap(rank: seq<nat>, s: seq<nat>, t: seq<nat>, left: nat, right: nat,
                    i0: nat, j0: nat, i: nat, j: nat, v: nat)
    requires InBounds(rank, s) && InBounds(rank, t) && right < |s|
    requires left <= i0 < i <= j < j0 <= right && Scanned(rank, s, left, right, i0, j0, v)
    requires t == Swapped(s, i, j)
    requires forall p :: i0 < p < i ==> Rank(rank, s, p) < v
    requires forall p :: j < p < j0 ==> Rank(rank, s, p) > v
    requires Rank(rank, s, i) >= v && Rank(rank, s, j) <= v
    ensures Scanned(rank, t, left, right, i, j, v)
  {
    forall p | left <= p <= i
      ensures Rank(rank, t, p) <= v
    {
      if p < i {
        assert t[p] == s[p];
        assert Rank(rank, s, p) <= v;
      }
    }
    forall p | j <= p <= right
      ensures Rank(rank, t, p) >= v
    {
      if p > j {
        assert t[p] == s[p];
        assert Rank(rank, s, p) >= v;
      }
    }
  }

  predicate Increasing(rank: seq<nat>, s: seq<nat>, left: nat, right: nat)
    requires InBounds(rank, s) && right < |s|
  {
    forall p, q :: left <= p < q <= right ==> Rank(rank, s, p) < Rank(rank, s, q)
  }

  /** With the center moved to the pivot's place, an increasing segment is split already. */
  lemma IncreasingIsSteady(rank: seq<nat>, s: seq<nat>, t: seq<nat>, left: nat, right: nat, c: nat)
    requires InBounds(rank, s) && InBounds(rank, t) && left + 1 <= c < right < |s| && Increasing(rank, s, left, right)
    requires t == s[c := s[left + 1]][left + 1 := s[c]]
    ensures Rank(rank, t, left) <= Rank(rank, t, left + 1) <= Rank(rank, t, right)
    ensures Steady(rank, t, left, right, c)
  {
    assert Rank(rank, s, left) < Rank(rank, s, c) < Rank(rank, s, right);
    forall p | left + 1 < p <= right
      ensures if p <= c then Rank(rank, t, p) < Rank(rank, t, left + 1) else Rank(rank, t, p) > Rank(rank, t, left + 1)
    {
      assert p == c ==> Rank(rank, s, left + 1) < Rank(rank, s, c);
      assert p < c ==> Rank(rank, s, p) < Rank(rank, s, c);
      assert p > c ==> Rank(rank, s, c) < Rank(rank, s, p);
    }
  }

  /** Partitioning leaves an increasing segment as it is. */
  lemma IncreasingStays(rank: seq<nat>, s: seq<nat>, left: nat, right: nat)
    requires InBounds(rank, s) && left + 2 < right < |s| && Increasing(rank, s, left, right)
    ensures Partitioned(rank, s, left, right).0 == s
  {
    hide Exchanged;
    var c := (left + right) / 2;
    var t := Swapped(s, c, left + 1);
    assert InBounds(rank, t);
    IncreasingIsSteady(rank, s, t, left, right, c);
    assert Sort3Of(rank, t, left, left + 1, right) == t;
    hide Increasing, Sort3Of;
    SteadyStays(rank, t, left, right, c);
    assert Swapped(t, left + 1, c) == s;
  }

  /** One round of partitioning: pivot selection, exchange, and the pivot put in its place. */
  method Partition(arr: seq<Str>, indx: array<nat>, left: nat, right: nat, ghost rank: seq<nat>)
    returns (i: nat, j: nat)
    requires left + 2 < right < indx.Length && Ranks(arr, rank) && InBounds(rank, indx[..])
    modifies indx
    ensures Rearranged(old(indx[..]), indx[..], left, right) && InBounds(rank, indx[..])
    ensures Split(rank, indx[..], left, right, i, j)
    ensures old(Increasing(rank, indx[..], left, right)) ==> indx[..] == old(indx[..])
    ensures (indx[..], i, j) == Partitioned(rank, old(indx[..]), left, right)
  {
    hide Rearranged, Compare, Exchanged, Sort3Of, Increasing;
    if Increasing(rank, indx[..], left, right) {
      IncreasingStays(rank, indx[..], left, right);
    }
    ghost var s0 := indx[..];
    var center := (left + right) / 2;
    Swap(indx, center, left + 1, left, right);
    ghost var s1 := indx[..];
    RearrangedInRange(rank, s0, s1, left, right);
    Sort3(arr, indx, left, left + 1, right, rank);
    ghost var s2 := indx[..];
    RearrangedTrans(s0, s1, s2, left, right);
    i, j := Exchange(arr, indx, left, right, rank);
    ghost var s3 := indx[..];
    RearrangedTrans(s0, s2, s3, left, right);
    Swap(indx, left + 1, j, left, right);
    RearrangedTrans(s0, s3, indx[..], left, right);
    RearrangedInRange(rank, s0, indx[..], left, right);
    PivotPlaced(rank, s3, indx[..], left, right, i, j);
  }

  lemma PivotPlaced(rank: seq<nat>, s: seq<nat>, t: seq<nat>, left: nat, right: nat, i: nat, j: nat)
    requires InBounds(rank, s) && InBounds(rank, t) && left < j < i <= right < |s|
    requires t == s[left + 1 := s[j]][j := s[left + 1]]
    requires Scanned(rank, s, left, right, i - 1, j + 1, Rank(rank, s, left + 1))
    requires Rank(rank, s, j) <= Rank(rank, s, left + 1) <= Rank(rank, s, i)
    ensures Split(rank, t, left, right, i, j)
  {
    assert t[j] == s[left + 1];
    forall p | left <= p < i
      ensures Rank(rank, t, p) <= Rank(rank, t, j)
    {
      assert Rank(rank, s, p) <= Rank(rank, s, left + 1);
      assert t[p] == s[p] || t[p] == s[j] || t[p] == s[left + 1];
    }
    forall p | j <= p <= right
      ensures Rank(rank, t, p) >= Rank(rank, t, j)
    {
      if p > j {
        assert t[p] == s[p];
        assert Rank(rank, s, p) >= Rank(rank, s, left + 1);
      }
    }
  }

  // The segments still to be sorted

  datatype Seg = Seg(l: nat, r: nat)
  {
    function Size(): nat {
      if l <= r then r - l + 1 else 0
    }

    predicate Has(p: nat) {
      l <= p <= r
    }
  }

  /** No entry before position `c` is larger than an entry from `c` on. */
  predicate CutAt(rank: seq<nat>, s: seq<nat>, c: nat)
    requires InBounds(rank, s)
  {
    forall p, q :: 0 <= p < c <= q < |s| ==> Rank(rank, s, p) <= Rank(rank, s, q)
  }

  /** `ends[p]` is where the block of position `p` ends; the array is cut there. */
  predicate CutsOk(rank: seq<nat>, s: seq<nat>, ends: seq<nat>)
    requires InBounds(rank, s)
  {
    |ends| == |s| && forall p :: 0 <= p < |s| ==> p < ends[p] <= |s| && CutAt(rank, s, ends[p])
  }

  /** A segment is a block: its positions end together, and no earlier block reaches into it. */
  predicate SegOk(ends: seq<nat>, g: Seg) {
    && g.l <= g.r < |ends|
    && (forall p :: g.l <= p <= g.r ==> ends[p] == g.r + 1)
    && (forall p :: 0 <= p < g.l ==> ends[p] <= g.l)
  }

  predicate SegsOk(ends: seq<nat>, segs: seq<Seg>) {
    && (forall k :: 0 <= k < |segs| ==> SegOk(ends, segs[k]))
    && (forall a, b :: 0 <= a < b < |segs| ==> segs[a].r < segs[b].l || segs[b].r < segs[a].l)
  }

  /** Position `p` is in a block of at most seven that is in order except perhaps for its last entry. */
  predicate Settled(rank: seq<nat>, s: seq<nat>, ends: seq<nat>, p: nat)
    requires InBounds(rank, s) && p < |s| == |ends|
  {
    && ends[p] <= p + M
    && forall q :: p < q < ends[p] - 1 && q < |s| ==> Rank(rank, s, p) <= Rank(rank, s, q)
  }

  predicate InSome(segs: seq<Seg>, p: nat) {
    exists k :: 0 <= k < |segs| && segs[k].Has(p)
  }

  predicate Covered(rank: seq<nat>, s: seq<nat>, ends: seq<nat>, segs: seq<Seg>)
    requires InBounds(rank, s) && |s| == |ends|
  {
    forall p :: 0 <= p < |s| ==> InSome(segs, p) || Settled(rank, s, ends, p)
  }

  predicate Progress(rank: seq<nat>, s: seq<nat>, ends: seq<nat>, segs: seq<Seg>) {
    && InBounds(rank, s)
    && CutsOk(rank, s, ends)
    && SegsOk(ends, segs)
    && Covered(rank, s, ends, segs)
  }

  /** Rearranging a segment keeps every cut outside its inside. */
  lemma CutKept(rank: seq<nat>, s: seq<nat>, t: seq<nat>, l: nat, r: nat, c: nat)
    requires Rearranged(s, t, l, r) && InBounds(rank, s) && InBounds(rank, t)
    requires CutAt(rank, s, c) && (c <= l || c > r)
    ensures CutAt(rank, t, c)
  {
    forall p, q | 0 <= p < c <= q < |t|
      ensures Rank(rank, t, p) <= Rank(rank, t, q)
    {
      var p' := Origin(s, t, l, r, p);
      var q' := Origin(s, t, l, r, q);
      assert Rank(rank, s, p') <= Rank(rank, s, q');
    }
  }

  /** Where an entry came from. */
  lemma Origin(s: seq<nat>, t: seq<nat>, l: nat, r: nat, p: nat) returns (q: nat)
    requires Rearranged(s, t, l, r) && p < |t|
    ensures q < |s| && s[q] == t[p] && (l <= p <= r <==> l <= q <= r) && (!(l <= p <= r) ==> q == p)
  {
    if l <= p <= r {
      assert From(s, t[p], l, r);
      q :| 0 <= q < |s| && l <= q <= r && s[q] == t[p];
    } else {
      q := p;
    }
  }

  lemma CutsKept(rank: seq<nat>, s: seq<nat>, t: seq<nat>, ends: seq<nat>, g: Seg)
    requires InBounds(rank, s) && InBounds(rank, t) && CutsOk(rank, s, ends)
    requires SegOk(ends, g) && Rearranged(s, t, g.l, g.r)
    ensures CutsOk(rank, t, ends)
  {
    forall p | 0 <= p < |t|
      ensures p < ends[p] <= |t| && CutAt(rank, t, ends[p])
    {
      CutKept(rank, s, t, g.l, g.r, ends[p]);
    }
  }

  lemma SettledKept(rank: seq<nat>, s: seq<nat>, t: seq<nat>, ends: seq<nat>, g: Seg, p: nat)
    requires InBounds(rank, s) && InBounds(rank, t) && |ends| == |s| && SegOk(ends, g) && Rearranged(s, t, g.l, g.r)
    requires p < |s| && !g.Has(p) && Settled(rank, s, ends, p)
    ensures Settled(rank, t, ends, p)
  {
    forall q | p < q < ends[p] - 1 && q < |t|
      ensures Rank(rank, t, p) <= Rank(rank, t, q)
    {
      assert !g.Has(q);
      assert t[p] == s[p] && t[q] == s[q];
      assert Rank(rank, s, p) <= Rank(rank, s, q);
    }
  }

  /** The last segment of the list is short, and all but its last entry is sorted. */
  lemma LeafDone(rank: seq<nat>, s: seq<nat>, t: seq<nat>, ends: seq<nat>, pending: seq<Seg>, g: Seg)
    requires Progress(rank, s, ends, pending + [g]) && Rearranged(s, t, g.l, g.r) && InBounds(rank, t)
    requires g.r < |t| && g.r - g.l < M
    requires forall p, q :: g.l <= p < q < g.r ==> Rank(rank, t, p) <= Rank(rank, t, q)
    ensures Progress(rank, t, ends, pending)
  {
    var segs := pending + [g];
    assert segs[|pending|] == g;
    assert forall k :: 0 <= k < |pending| ==> segs[k] == pending[k];
    CutsKept(rank, s, t, ends, g);
    forall p | 0 <= p < |t|
      ensures InSome(pending, p) || Settled(rank, t, ends, p)
    {
      if g.Has(p) {
      } else if InSome(segs, p) {
        var k :| 0 <= k < |segs| && segs[k].Has(p);
        assert pending[k].Has(p);
      } else {
        SettledKept(rank, s, t, ends, g, p);
      }
    }
  }

  /** The blocks after a split of the segment at `j` and `i`. */
  function SplitEnds(ends: seq<nat>, g: Seg, i: nat, j: nat): (e: seq<nat>)
    ensures |e| == |ends|
  {
    seq(|ends|, p requires 0 <= p < |ends| =>
      if !g.Has(p) then ends[p] else if p < j then j else if p < i then p + 1 else ends[p])
  }

  lemma SplitCuts(rank: seq<nat>, t: seq<nat>, ends: seq<nat>, g: Seg, i: nat, j: nat, c: nat)
    requires InBounds(rank, t) && CutsOk(rank, t, ends) && SegOk(ends, g) && Split(rank, t, g.l, g.r, i, j)
    requires j <= c <= i
    ensures CutAt(rank, t, c)
  {
    forall p, q | 0 <= p < c <= q < |t|
      ensures Rank(rank, t, p) <= Rank(rank, t, q)
    {
      if p < g.l {
        assert CutAt(rank, t, ends[p]) && ends[p] <= g.l;
      } else if q > g.r {
        assert CutAt(rank, t, ends[p]) && ends[p] == g.r + 1;
      } else {
        assert Rank(rank, t, p) <= Rank(rank, t, j) <= Rank(rank, t, q);
      }
    }
  }

  /** The last segment of the list has been split in two; the larger part is put below the other. */
  lemma SplitDone(rank: seq<nat>, s: seq<nat>, t: seq<nat>, ends: seq<nat>, pending: seq<Seg>, g: Seg, i: nat, j: nat,
                  a: Seg, b: Seg)
    requires Progress(rank, s, ends, pending + [g]) && Rearranged(s, t, g.l, g.r) && InBounds(rank, t)
    requires g.r < |t| && Split(rank, t, g.l, g.r, i, j)
    requires (a == Seg(i, g.r) && b == Seg(g.l, j - 1)) || (a == Seg(g.l, j - 1) && b == Seg(i, g.r))
    ensures Progress(rank, t, SplitEnds(ends, g, i, j), pending + [a] + [b])
  {
    var segs := pending + [g];
    assert segs[|pending|] == g;
    assert forall k :: 0 <= k < |pending| ==> segs[k] == pending[k];
    var e := SplitEnds(ends, g, i, j);
    CutsKept(rank, s, t, ends, g);
    assert CutsOk(rank, t, e) by {
      forall p | 0 <= p < |t|
        ensures p < e[p] <= |t| && CutAt(rank, t, e[p])
      {
        if g.Has(p) && p < i {
          SplitCuts(rank, t, ends, g, i, j, e[p]);
        }
      }
    }
    SplitSegs(ends, pending, g, i, j, a, b);
    SplitCovers(rank, s, t, ends, pending, g, i, j, a, b);
  }

  lemma SplitSegs(ends: seq<nat>, pending: seq<Seg>, g: Seg, i: nat, j: nat, a: Seg, b: Seg)
    requires SegsOk(ends, pending + [g]) && g.l < j < i <= g.r
    requires (a == Seg(i, g.r) && b == Seg(g.l, j - 1)) || (a == Seg(g.l, j - 1) && b == Seg(i, g.r))
    ensures SegsOk(SplitEnds(ends, g, i, j), pending + [a] + [b])
  {
    var segs, all := pending + [g], pending + [a] + [b];
    var e := SplitEnds(ends, g, i, j);
    assert segs[|pending|] == g;
    assert SegOk(ends, g);
    forall k | 0 <= k < |all|
      ensures SegOk(e, all[k])
    {
      if k < |pending| {
        assert segs[k] == pending[k] == all[k];
        assert SegOk(ends, all[k]) && (all[k].r < g.l || g.r < all[k].l);
      }
    }
    forall x, y | 0 <= x < y < |all|
      ensures all[x].r < all[y].l || all[y].r < all[x].l
    {
      assert x < |pending| ==> segs[x] == all[x] && (all[x].r < g.l || g.r < all[x].l);
      assert y < |pending| ==> segs[y] == all[y];
    }
  }

  lemma SplitCovers(rank: seq<nat>, s: seq<nat>, t: seq<nat>, ends: seq<nat>, pending: seq<Seg>, g: Seg, i: nat, j: nat,
                    a: Seg, b: Seg)
    requires InBounds(rank, s) && |s| == |ends| && Covered(rank, s, ends, pending + [g])
    requires SegOk(ends, g) && Rearranged(s, t, g.l, g.r) && InBounds(rank, t) && g.l < j < i <= g.r
    requires (a == Seg(i, g.r) && b == Seg(g.l, j - 1)) || (a == Seg(g.l, j - 1) && b == Seg(i, g.r))
    ensures Covered(rank, t, SplitEnds(ends, g, i, j), pending + [a] + [b])
  {
    var segs, all := pending + [g], pending + [a] + [b];
    var e := SplitEnds(ends, g, i, j);
    forall p | 0 <= p < |t|
      ensures InSome(all, p) || Settled(rank, t, e, p)
    {
      if g.Has(p) {
        if p < j || p >= i {
          assert all[|pending|] == a && all[|pending| + 1] == b;
          assert a.Has(p) || b.Has(p);
        }
      } else if InSome(segs, p) {
        var k :| 0 <= k < |segs| && segs[k].Has(p);
        assert k < |pending| && all[k] == segs[k];
      } else {
        SettledKept(rank, s, t, ends, g, p);
      }
    }
  }

  /** What insertion sort leaves of a short segment. */
  lemma LeafSorted(arr: seq<Str>, rank: seq<nat>, s: seq<nat>, t: seq<nat>, l: nat, r: nat)
    requires Ranks(arr, rank) && InBounds(rank, s) && l <= r < |s| == |t|
    requires forall p :: 0 <= p < |s| && !(l <= p < r) ==> t[p] == s[p]
    requires t[l..r] == Sorted(arr, s[l..r])
    ensures Rearranged(s, t, l, r) && InBounds(rank, t)
    ensures forall p, q :: l <= p < q < r ==> Rank(rank, t, p) <= Rank(rank, t, q)
  {
    hide Rearranged, Sorted, Compare;
    SortedElements(arr, s[l..r]);
    RearrangedSorted(s, t, l, r);
    RearrangedInRange(rank, s, t, l, r);
    SortedIsOrdered(arr, s[l..r]);
    forall p, q | l <= p < q < r
      ensures Rank(rank, t, p) <= Rank(rank, t, q)
    {
      assert t[l..r][p - l] == t[p] && t[l..r][q - l] == t[q];
      assert !After(arr, t[p], t[q]);
    }
  }

  // The stack

  function Total(segs: seq<Seg>): nat {
    if segs == [] then 0 else Total(segs[..|segs| - 1]) + segs[|segs| - 1].Size()
  }

  lemma TotalAppend(segs: seq<Seg>, g: Seg)
    ensures Total(segs + [g]) == Total(segs) + g.Size()
  {
    assert (segs + [g])[..|segs|] == segs;
  }

  /** The brackets on the stack, lowest first: left end, then right end. */
  predicate OnStack(stack: seq<nat>, pending: seq<Seg>) {
    && |stack| == NSTACK && 2 * |pending| <= NSTACK
    && forall k :: 0 <= k < |pending| ==> stack[2 * k] == pending[k].l && stack[2 * k + 1] == pending[k].r
  }

  /** Each bracket is at most half as large as the work that was in hand one level below. */
  predicate Halving(n: nat, segs: seq<Seg>) {
    forall k :: 0 <= k < |segs| ==> segs[k].Size() * Pow2(k) <= n
  }

  lemma {:induction false} Pow2Grows(a: nat, b: nat)
    requires a <= b
    ensures Pow2(a) <= Pow2(b)
  {
    if a < b {
      Pow2Grows(a, b - 1);
    }
  }

  /** A bracket long enough to be split leaves room for one more on the stack. */
  lemma RoomToPush(n: nat, d: nat, size: nat)
    requires n < 0x1000_0000 && size >= 8 && size * Pow2(d) <= n
    ensures 2 * (d + 1) <= NSTACK
  {
    hide Pow2;
    if d >= 25 {
      Pow2Grows(25, d);
      Pow2At25();
      ScaleLess(8, size, Pow2(d));
    }
  }

  lemma Pow2At25()
    ensures Pow2(25) == 0x200_0000
  {
    assert Pow2(5) == 0x20;
    assert Pow2(10) == 0x400;
    assert Pow2(15) == 0x8000;
    assert Pow2(20) == 0x10_0000;
  }

  lemma HalvingPush(n: nat, pending: seq<Seg>, g: Seg, a: Seg, b: Seg)
    requires Halving(n, pending + [g]) && a.Size() <= g.Size() && 2 * b.Size() <= g.Size()
    ensures Halving(n, pending + [a] + [b])
  {
    var segs, all, d := pending + [g], pending + [a] + [b], |pending|;
    assert segs[d] == g;
    forall k | 0 <= k < |all|
      ensures all[k].Size() * Pow2(k) <= n
    {
      if k < d {
        assert all[k] == segs[k];
      } else if k == d {
        ScaleLess(a.Size(), g.Size(), Pow2(d));
      } else {
        ScaleLess(2 * b.Size(), g.Size(), Pow2(d));
        assert b.Size() * (2 * Pow2(d)) == 2 * b.Size() * Pow2(d);
      }
    }
  }

  lemma ScaleLess(a: nat, b: nat, c: nat)
    requires a <= b
    ensures a * c <= b * c
  {
    assert b * c == a * c + (b - a) * c;
  }

  lemma HalvingPop(n: nat, pending: seq<Seg>, g: Seg)
    requires Halving(n, pending + [g])
    ensures Halving(n, pending)
  {
    assert forall k :: 0 <= k < |pending| ==> (pending + [g])[k] == pending[k];
  }

  /** The segment popped from the stack lies in the array. */
  lemma TopOfStack(rank: seq<nat>, s: seq<nat>, ends: seq<nat>, pending: seq<Seg>, top: Seg)
    requires Progress(rank, s, ends, pending) && pending != [] && top == pending[|pending| - 1]
    ensures top.l <= top.r < |s| && pending == pending[..|pending| - 1] + [top]
    ensures top.Size() >= 1
  {
    assert SegOk(ends, pending[|pending| - 1]);
  }

  // The whole sort

  function Identity(n: nat): (s: seq<nat>)
    ensures |s| == n && forall p :: 0 <= p < n ==> s[p] == p
  {
    seq(n, p => p)
  }

  lemma Start(arr: seq<Str>, rank: seq<nat>)
    requires Ranks(arr, rank) && |arr| >= 1
    ensures Working(arr, rank, Identity(|arr|), seq(|arr|, p => |arr|), [], Seg(0, |arr| - 1))
  {
    var n := |arr|;
    var segs := [] + [Seg(0, n - 1)];
    forall p | 0 <= p < n
      ensures InSome(segs, p)
    {
      assert segs[0].Has(p);
    }
  }

  /** The strings `s` points at are in blocks of at most seven, each block not smaller than the one
      before, and in order except that the last entry of a block may be out of place in it. */
  predicate Blocks(arr: seq<Str>, s: seq<nat>, ends: seq<nat>) {
    && |ends| == |s|
    && (forall p :: 0 <= p < |s| ==> p < ends[p] <= |s| && ends[p] <= p + M)
    && (forall p, q :: 0 <= p < q < |s| && ends[p] != q + 1 ==> !After(arr, s[p], s[q]))
  }

  lemma AllSettled(arr: seq<Str>, rank: seq<nat>, s: seq<nat>, ends: seq<nat>)
    requires Ranks(arr, rank) && Progress(rank, s, ends, [])
    ensures Blocks(arr, s, ends)
  {
    hide Compare;
    forall p | 0 <= p < |s|
      ensures p < ends[p] <= |s| && ends[p] <= p + M && Settled(rank, s, ends, p)
    {
      assert !InSome([], p);
      assert Settled(rank, s, ends, p);
    }
    forall p, q | 0 <= p < q < |s| && ends[p] != q + 1
      ensures !After(arr, s[p], s[q])
    {
      assert Settled(rank, s, ends, p);
      if q >= ends[p] {
        assert CutAt(rank, s, ends[p]);
      }
      assert Rank(rank, s, p) <= Rank(rank, s, q);
      assert Compare(arr[s[p]], arr[s[q]]) <= 0;
    }
  }

  // The sort as a recursion

  /** Sort the segment but for its last entry. */
  function LeafOf(arr: seq<Str>, s: seq<nat>, g: Seg): (t: seq<nat>)
    requires g.l <= g.r <= |s|
    ensures |t| == |s|
  {
    s[..g.l] + Sorted(arr, s[g.l..g.r]) + s[g.r..]
  }

  lemma PartitionedSize(rank: seq<nat>, s: seq<nat>, left: nat, right: nat)
    requires left + 2 < right < |s|
    ensures |Partitioned(rank, s, left, right).0| == |s|
  {
    var s2 := Sort3Of(rank, Swapped(s, (left + right) / 2, left + 1), left, left + 1, right);
    ExchangedSize(rank, s2, left + 1, right, RankAt(rank, s2, left + 1));
    hide Exchanged, Sort3Of, RankAt;
  }

  lemma {:induction false} ExchangedSize(rank: seq<nat>, s: seq<nat>, i: nat, j: nat, v: nat)
    ensures |Exchanged(rank, s, i, j, v).0| == |s|
    decreases j
  {
    hide Up, Down;
    var i', j' := Up(rank, s, i, v), Down(rank, s, j, v);
    if !(j' < i' || i' >= |s| || j' >= |s| || j' >= j) {
      ExchangedSize(rank, Swapped(s, i', j'), i', j', v);
    }
  }

  /** A segment is partitioned, then the smaller part is sorted, and then the larger. */
  function Quick(arr: seq<Str>, rank: seq<nat>, s: seq<nat>, g: Seg): (t: seq<nat>)
    ensures |t| == |s|
    decreases g.r - g.l
  {
    if !(g.l <= g.r < |s|) then s
    else if g.r - g.l < M then LeafOf(arr, s, g)
    else
      PartitionedSize(rank, s, g.l, g.r);
      var (t, i, j) := Partitioned(rank, s, g.l, g.r);
      if !(g.l < j < i <= g.r) then t
      else if g.r - i + 1 >= j - g.l then
        Quick(arr, rank, Quick(arr, rank, t, Seg(g.l, j - 1)), Seg(i, g.r))
      else
        Quick(arr, rank, Quick(arr, rank, t, Seg(i, g.r)), Seg(g.l, j - 1))
  }

  /** The segments of a list, the last one first. */
  function QuickAll(arr: seq<Str>, rank: seq<nat>, s: seq<nat>, segs: seq<Seg>): seq<nat>
    decreases |segs|
  {
    if segs == [] then s else QuickAll(arr, rank, Quick(arr, rank, s, segs[|segs| - 1]), segs[..|segs| - 1])
  }

  lemma QuickAllLast(arr: seq<Str>, rank: seq<nat>, s: seq<nat>, segs: seq<Seg>, g: Seg)
    ensures QuickAll(arr, rank, s, segs + [g]) == QuickAll(arr, rank, Quick(arr, rank, s, g), segs)
  {
    assert (segs + [g])[..|segs|] == segs;
    hide Quick;
  }

  lemma QuickAllOne(arr: seq<Str>, rank: seq<nat>, s: seq<nat>, g: Seg)
    ensures QuickAll(arr, rank, s, [] + [g]) == Quick(arr, rank, s, g)
  {
    hide Quick;
    QuickAllLast(arr, rank, s, [], g);
  }

  lemma QuickAllNone(arr: seq<Str>, rank: seq<nat>, s: seq<nat>, segs: seq<Seg>)
    requires segs == []
    ensures QuickAll(arr, rank, s, segs) == s
  {
  }

  lemma QuickLeaf(arr: seq<Str>, rank: seq<nat>, s: seq<nat>, t: seq<nat>, pending: seq<Seg>, g: Seg)
    requires g.l <= g.r < |s| == |t| && g.r - g.l < M
    requires forall p :: 0 <= p < |s| && !(g.l <= p < g.r) ==> t[p] == s[p]
    requires t[g.l..g.r] == Sorted(arr, s[g.l..g.r])
    ensures QuickAll(arr, rank, s, pending + [g]) == QuickAll(arr, rank, t, pending)
  {
    hide QuickAll, Sorted;
    QuickAllLast(arr, rank, s, pending, g);
    assert t[..g.l] == s[..g.l] && t[g.r..] == s[g.r..];
    assert t == t[..g.l] + t[g.l..g.r] + t[g.r..];
  }

  lemma QuickSplit(arr: seq<Str>, rank: seq<nat>, s: seq<nat>, t: seq<nat>, pending: seq<Seg>, g: Seg,
                   i: nat, j: nat, a: Seg, b: Seg)
    requires g.l <= g.r < |s| && g.r - g.l >= M && (t, i, j) == Partitioned(rank, s, g.l, g.r) && g.l < j < i <= g.r
    requires if g.r - i + 1 >= j - g.l then a == Seg(i, g.r) && b == Seg(g.l, j - 1)
             else a == Seg(g.l, j - 1) && b == Seg(i, g.r)
    ensures QuickAll(arr, rank, s, pending + [g]) == QuickAll(arr, rank, t, pending + [a] + [b])
  {
    hide QuickAll, Partitioned, Quick;
    QuickParts(arr, rank, s, t, g, i, j, a, b);
    QuickAllLast(arr, rank, s, pending, g);
    QuickAllLast(arr, rank, t, pending + [a], b);
    QuickAllLast(arr, rank, Quick(arr, rank, t, b), pending, a);
  }

  lemma QuickParts(arr: seq<Str>, rank: seq<nat>, s: seq<nat>, t: seq<nat>, g: Seg, i: nat, j: nat, a: Seg, b: Seg)
    requires g.l <= g.r < |s| && g.r - g.l >= M && (t, i, j) == Partitioned(rank, s, g.l, g.r) && g.l < j < i <= g.r
    requires if g.r - i + 1 >= j - g.l then a == Seg(i, g.r) && b == Seg(g.l, j - 1)
             else a == Seg(g.l, j - 1) && b == Seg(i, g.r)
    ensures Quick(arr, rank, s, g) == Quick(arr, rank, Quick(arr, rank, t, b), a)
  {
    hide Partitioned, LeafOf;
  }

  method Initialise(indx: array<nat>)
    modifies indx
    ensures indx[..] == Identity(indx.Length)
  {
    var k := 0;
    while k < indx.Length
      invariant 0 <= k <= indx.Length && forall p :: 0 <= p < k ==> indx[p] == p
    {
      indx[k] := k;
      k := k + 1;
    }
  }

  lemma ShortIsSmall(arr: seq<Str>)
    ensures |arr| <= M ==> |arr| < 0x1000_0000
  {
  }

  lemma StackEmpty(stack: seq<nat>)
    requires |stack| == NSTACK
    ensures OnStack(stack, [])
  {
  }

  lemma SplitBounds(rank: seq<nat>, s: seq<nat>, left: nat, right: nat, i: nat, j: nat)
    requires InBounds(rank, s) && right < |s| && Split(rank, s, left, right, i, j)
    ensures left < j < i <= right
  {
  }

  lemma TotalDrops(pending: seq<Seg>, g: Seg)
    requires pending != [] && g.l <= g.r
    ensures Total(pending[..|pending| - 1] + [pending[|pending| - 1]]) < Total(pending + [g])
  {
    hide Total;
    TotalAppend(pending, g);
    assert pending == pending[..|pending| - 1] + [pending[|pending| - 1]];
  }

  lemma OnStackPush(was: seq<nat>, stack: seq<nat>, pending: seq<Seg>, a: Seg)
    requires OnStack(was, pending) && 2 * (|pending| + 1) <= NSTACK
    requires stack == was[2 * |pending| + 1 := a.r][2 * |pending| := a.l]
    ensures OnStack(stack, pending + [a])
  {
  }

  lemma OnStackTop(stack: seq<nat>, pending: seq<Seg>)
    requires OnStack(stack, pending) && pending != []
    ensures |stack| == NSTACK && 2 <= 2 * |pending| <= NSTACK
    ensures stack[2 * |pending| - 1] == pending[|pending| - 1].r && stack[2 * |pending| - 2] == pending[|pending| - 1].l
    ensures OnStack(stack, pending[..|pending| - 1])
  {
    var k := |pending| - 1;
    assert stack[2 * k] == pending[k].l && stack[2 * k + 1] == pending[k].r;
  }

  /** What holds at the head of the main loop of qisort. */
  ghost predicate Working(arr: seq<Str>, rank: seq<nat>, s: seq<nat>, ends: seq<nat>, pending: seq<Seg>, g: Seg) {
    && Ranks(arr, rank) && |s| == |arr| && InBounds(rank, s) && Injective(s)
    && g.l <= g.r < |s|
    && Progress(rank, s, ends, pending + [g])
    && Halving(|s|, pending + [g])
    && (|s| <= M ==> pending == [] && g == Seg(0, |s| - 1) && s == Identity(|s|))
    && (StrictlyOrdered(arr) ==> s == Identity(|s|))
  }

  /** The array is in order and no string occurs twice. */
  predicate StrictlyOrdered(arr: seq<Str>) {
    forall i, j :: 0 <= i < j < |arr| ==> Compare(arr[i], arr[j]) < 0
  }

  lemma IdentityIncreasing(arr: seq<Str>, rank: seq<nat>, s: seq<nat>, left: nat, right: nat)
    requires Ranks(arr, rank) && StrictlyOrdered(arr) && s == Identity(|arr|) && left <= right < |s|
    ensures InBounds(rank, s) && Increasing(rank, s, left, right)
    ensures Ordered(arr, s) && Sorted(arr, s[left..right]) == s[left..right]
  {
    hide Compare, Sorted;
    forall p, q | 0 <= p < q < |s|
      ensures Rank(rank, s, p) < Rank(rank, s, q) && !After(arr, s[p], s[q])
    {
      CompareFlips(arr[p], arr[q]);
      assert Compare(arr[q], arr[p]) <= 0 <==> rank[q] <= rank[p];
    }
    var t := s[left..right];
    assert forall p :: 0 <= p < |t| ==> t[p] == s[left + p];
    hide After;
    SortedOfOrdered(arr, t);
  }

  lemma StillInjective(s: seq<nat>, t: seq<nat>, l: nat, r: nat)
    requires Rearranged(s, t, l, r) && Injective(s)
    ensures Injective(t)
  {
  }

  lemma LeafIdentity(arr: seq<Str>, rank: seq<nat>, s: seq<nat>, t: seq<nat>, l: nat, r: nat)
    requires Ranks(arr, rank) && StrictlyOrdered(arr) && s == Identity(|arr|) && l <= r < |s| == |t|
    requires forall p :: 0 <= p < |s| && !(l <= p < r) ==> t[p] == s[p]
    requires t[l..r] == Sorted(arr, s[l..r])
    ensures t == s
  {
    hide Ranks, StrictlyOrdered, Sorted, Identity;
    IdentityIncreasing(arr, rank, s, l, r);
    assert t[..l] == s[..l] && t[r..] == s[r..];
    assert t == t[..l] + t[l..r] + t[r..] && s == s[..l] + s[l..r] + s[r..];
  }

  lemma LeafStep(arr: seq<Str>, rank: seq<nat>, s: seq<nat>, t: seq<nat>, ends: seq<nat>, pending: seq<Seg>, g: Seg)
    requires Working(arr, rank, s, ends, pending, g) && g.r - g.l < M && |t| == |s|
    requires forall p :: 0 <= p < |s| && !(g.l <= p < g.r) ==> t[p] == s[p]
    requires t[g.l..g.r] == Sorted(arr, s[g.l..g.r])
    ensures Injective(t) && Indices(arr, t)
    ensures pending == [] ==> Blocks(arr, t, ends)
    ensures |s| <= M ==> pending == [] && t == ShortResult(arr)
    ensures pending != [] ==> Working(arr, rank, t, ends, pending[..|pending| - 1], pending[|pending| - 1])
    ensures StrictlyOrdered(arr) ==> t == Identity(|s|)
  {
    hide Progress, Halving, Compare, Sorted, Settled, Injective, StrictlyOrdered, Rearranged;
    hide Identity, ShortResult, Ranks, Blocks;
    RanksCover(arr, rank);
    if StrictlyOrdered(arr) {
      LeafIdentity(arr, rank, s, t, g.l, g.r);
    }
    LeafSorted(arr, rank, s, t, g.l, g.r);
    StillInjective(s, t, g.l, g.r);
    LeafDone(rank, s, t, ends, pending, g);
    if pending != [] {
      TopOfStack(rank, t, ends, pending, pending[|pending| - 1]);
      HalvingPop(|s|, pending, g);
    } else {
      AllSettled(arr, rank, t, ends);
    }
    if |s| <= M {
      LeafShort(arr, s, t);
    }
  }

  lemma LeafShort(arr: seq<Str>, s: seq<nat>, t: seq<nat>)
    requires |arr| == |s| == |t| >= 1 && s == Identity(|s|)
    requires t[0..|s| - 1] == Sorted(arr, s[0..|s| - 1]) && t[|s| - 1] == s[|s| - 1]
    ensures t == ShortResult(arr)
  {
    hide Sorted;
    var n := |s| - 1;
    assert s[0..n] == Identity(n);
    assert t == t[0..n] + [t[n]];
  }

  lemma SplitStep(arr: seq<Str>, rank: seq<nat>, s: seq<nat>, t: seq<nat>, ends: seq<nat>, pending: seq<Seg>, g: Seg,
                  i: nat, j: nat, a: Seg, b: Seg)
    requires Working(arr, rank, s, ends, pending, g) && g.r - g.l >= M
    requires Rearranged(s, t, g.l, g.r) && InBounds(rank, t) && Split(rank, t, g.l, g.r, i, j)
    requires if g.r - i + 1 >= j - g.l then a == Seg(i, g.r) && b == Seg(g.l, j - 1)
             else a == Seg(g.l, j - 1) && b == Seg(i, g.r)
    requires Increasing(rank, s, g.l, g.r) ==> t == s
    ensures Working(arr, rank, t, SplitEnds(ends, g, i, j), pending + [a], b)
    ensures Total(pending + [a] + [b]) < Total(pending + [g])
  {
    hide Progress, Halving, Compare, Total, SplitEnds, Increasing;
    if StrictlyOrdered(arr) {
      IdentityIncreasing(arr, rank, s, g.l, g.r);
    }
    SplitDone(rank, s, t, ends, pending, g, i, j, a, b);
    HalvingPush(|s|, pending, g, a, b);
    TotalAppend(pending, g);
    TotalAppend(pending, a);
    TotalAppend(pending + [a], b);
  }

  lemma WorkingFacts(arr: seq<Str>, rank: seq<nat>, s: seq<nat>, ends: seq<nat>, pending: seq<Seg>, g: Seg)
    requires Working(arr, rank, s, ends, pending, g)
    ensures g.l <= g.r < |s| == |arr| && Ranks(arr, rank) && InBounds(rank, s) && Indices(arr, s[g.l..g.r])
    ensures g.r - g.l >= M ==> g.l + 2 < g.r
    ensures g.r - g.l >= M && |s| < 0x1000_0000 ==> 2 * (|pending| + 1) <= NSTACK
  {
    if g.r - g.l >= M && |s| < 0x1000_0000 {
      assert (pending + [g])[|pending|] == g;
      RoomToPush(|s|, |pending|, g.Size());
    }
  }

  /** qisort, for as many strings as the stack of C integers can count. It aborts (`!ok`) at most on
      2^28 strings or more. Otherwise the index array ends as a permutation of 0..n-1 in nearly
      sorted blocks. The scans stay inside their segment and the stack is never written past its
      end. */
  method QuickSort(arr: seq<Str>, indx: array<nat>) returns (ok: bool, ghost ends: seq<nat>, ghost rank: seq<nat>)
    requires indx.Length == |arr| && 1 <= |arr| < 0x8000_0000
    modifies indx
    ensures !ok ==> |arr| >= 0x1000_0000
    ensures ok ==> Injective(indx[..]) && Indices(arr, indx[..])
    ensures ok ==> Blocks(arr, indx[..], ends)
    ensures |arr| <= M ==> indx[..] == ShortResult(arr)
    ensures ok && StrictlyOrdered(arr) ==> indx[..] == Identity(|arr|)
    ensures Ranks(arr, rank)
    ensures ok ==> indx[..] == Quick(arr, rank, Identity(|arr|), Seg(0, |arr| - 1))
  {
    hide *;
    ok := true;
    rank := RanksExist(arr);
    var left: nat, right: nat, stackSize: nat := 0, |arr| - 1, 0;
    var stack := new nat[NSTACK](_ => 0);
    Initialise(indx);
    ends := seq(|arr|, p => |arr|);
    ghost var pending: seq<Seg> := [];
    Start(arr, rank);
    StackEmpty(stack[..]);
    QuickAllOne(arr, rank, indx[..], Seg(left, right));
    while true
      invariant OnStack(stack[..], pending) && stackSize == 2 * |pending| && indx.Length == |arr|
      invariant Working(arr, rank, indx[..], ends, pending, Seg(left, right))
      invariant QuickAll(arr, rank, indx[..], pending + [Seg(left, right)])
             == Quick(arr, rank, Identity(|arr|), Seg(0, |arr| - 1))
      decreases Total(pending + [Seg(left, right)])
    {
      ghost var s, g := indx[..], Seg(left, right);
      WorkingFacts(arr, rank, s, ends, pending, g);
      assert s[left..right] == indx[left..right];
      if right - left < M {
        InsertionSort(arr, indx, left, right);
        assert indx[..][left..right] == indx[left..right];
        LeafStep(arr, rank, s, indx[..], ends, pending, g);
        QuickLeaf(arr, rank, s, indx[..], pending, g);
        if stackSize == 0 {
          QuickAllNone(arr, rank, indx[..], pending);
          break;
        }
        OnStackTop(stack[..], pending);
        TotalDrops(pending, g);
        right := stack[stackSize - 1];
        stackSize := stackSize - 1;
        left := stack[stackSize - 1];
        stackSize := stackSize - 1;
        assert Seg(left, right) == pending[|pending| - 1];
        assert pending == pending[..|pending| - 1] + [Seg(left, right)];
        pending := pending[..|pending| - 1];
      } else {
        ghost var was := stack[..];
        var i, j := Partition(arr, indx, left, right, rank);
        SplitBounds(rank, indx[..], left, right, i, j);
        stackSize := stackSize + 2;
        if stackSize > NSTACK {
          ShortIsSmall(arr);
          return false, ends, rank;
        }
        if right - i + 1 >= j - left {
          stack[stackSize - 1] := right;
          stack[stackSize - 2] := i;
          right := j - 1;
        } else {
          stack[stackSize - 1] := j - 1;
          stack[stackSize - 2] := left;
          left := i;
        }
        ghost var a := Seg(stack[stackSize - 2], stack[stackSize - 1]);
        SplitStep(arr, rank, s, indx[..], ends, pending, g, i, j, a, Seg(left, right));
        QuickSplit(arr, rank, s, indx[..], pending, g, i, j, a, Seg(left, right));
        OnStackPush(was, stack[..], pending, a);
        ends := SplitEnds(ends, g, i, j);
        pending := pending + [a];
      }
    }
  }

  /** No string is larger than the last one. */
  predicate LastIsLargest(arr: seq<Str>)
    requires |arr| >= 1
  {
    forall k :: 0 <= k < |arr| - 1 ==> Compare(arr[k], arr[|arr| - 1]) <= 0
  }

  /** What a short array ends as. */
  function ShortResult(arr: seq<Str>): seq<nat>
    requires |arr| >= 1
  {
    Sorted(arr, Identity(|arr| - 1)) + [|arr| - 1]
  }

  lemma ShortHas(arr: seq<Str>, k: nat) returns (p: nat)
    requires k < |arr| - 1
    ensures p < |arr| - 1 && Sorted(arr, Identity(|arr| - 1))[p] == k
  {
    hide Sorted;
    var s, t := Identity(|arr| - 1), Sorted(arr, Identity(|arr| - 1));
    SortedElements(arr, s);
    assert s[k] == k;
    assert k in multiset(s);
    assert k in t;
    p :| p < |t| && t[p] == k;
  }

  lemma ShortWithin(arr: seq<Str>, p: nat)
    requires p < |arr| - 1
    ensures Sorted(arr, Identity(|arr| - 1))[p] < |arr| - 1
  {
    hide Sorted;
    var s, t := Identity(|arr| - 1), Sorted(arr, Identity(|arr| - 1));
    SortedElements(arr, s);
    assert t[p] in multiset(t);
    assert t[p] in s;
  }

  lemma ShortSortedOnlyIf(arr: seq<Str>)
    requires |arr| >= 1 && Ordered(arr, ShortResult(arr))
    ensures LastIsLargest(arr)
  {
    hide Sorted, Compare, Identity;
    var u := ShortResult(arr);
    forall k: nat | k < |arr| - 1
      ensures Compare(arr[k], arr[|arr| - 1]) <= 0
    {
      var p := ShortHas(arr, k);
      assert u[p] == k && u[|arr| - 1] == |arr| - 1;
      assert !After(arr, u[p], u[|arr| - 1]);
    }
  }

  lemma ShortSortedIf(arr: seq<Str>)
    requires |arr| >= 1 && LastIsLargest(arr)
    ensures Ordered(arr, ShortResult(arr))
  {
    hide Sorted, Compare, Identity;
    var t, u := Sorted(arr, Identity(|arr| - 1)), ShortResult(arr);
    SortedIsOrdered(arr, Identity(|arr| - 1));
    forall p: nat, q: nat | p < q < |u|
      ensures !After(arr, u[p], u[q])
    {
      ShortWithin(arr, p);
      if q < |t| {
        assert !After(arr, t[p], t[q]);
      } else {
        assert Compare(arr[t[p]], arr[|arr| - 1]) <= 0;
      }
    }
  }

  /** A short array ends sorted exactly when its last string is not smaller than any other. */
  lemma ShortSortedIff(arr: seq<Str>)
    requires |arr| >= 1
    ensures Ordered(arr, ShortResult(arr)) <==> LastIsLargest(arr)
  {
    hide Ordered, LastIsLargest, ShortResult;
    if Ordered(arr, ShortResult(arr)) {
      ShortSortedOnlyIf(arr);
    }
    if LastIsLargest(arr) {
      ShortSortedIf(arr);
    }
  }

  /** The final order is sorted exactly when no block ends with a string smaller than another in it. */
  lemma SortedIff(arr: seq<Str>, s: seq<nat>, ends: seq<nat>)
    requires Blocks(arr, s, ends)
    ensures Ordered(arr, s) <==> forall p :: 0 <= p < |s| ==> p < ends[p] <= |s| && !After(arr, s[p], s[ends[p] - 1])
  {
    hide Compare;
    forall p | 0 <= p < |s|
      ensures !After(arr, s[p], s[p])
    {
      CompareFlips(Key(arr, s[p]), Key(arr, s[p]));
    }
  }

  /** Two strings in the wrong order stay in the wrong order. */
  lemma TwoStringsStay()
    ensures var arr := [[98], [97]];
      && ShortResult(arr) == [0, 1]
      && !Ordered(arr, [0, 1])
  {
    var arr: seq<Str> := [[98], [97]];
    assert Sorted(arr, Identity(1)) == Identity(1);
    assert After(arr, [0, 1][0], [0, 1][1]);
  }

  // Repeated strings

  const TIED: seq<nat> := [0, 1, 2, 2, 2, 2, 2, 2]

  function TiedStrings(): seq<Str> {
    [[0], [1], [2], [2], [2], [2], [2], [2]]
  }

  lemma CompareOne(a: nat, b: nat)
    ensures Compare([a], [b]) == if a < b then -1 else if a > b then 1 else 0
  {
    assert [a][1..] == [] && [b][1..] == [];
  }

  lemma TiedRanks()
    ensures Ranks(TiedStrings(), TIED)
  {
    forall i, j | 0 <= i < 8 && 0 <= j < 8
      ensures Compare(TiedStrings()[i], TiedStrings()[j]) <= 0 <==> TIED[i] <= TIED[j]
    {
      assert TiedStrings()[i] == [TIED[i]] && TiedStrings()[j] == [TIED[j]];
      CompareOne(TIED[i], TIED[j]);
    }
  }

  /** Eight strings in order, six of them equal: partitioning exchanges equal strings past the
      neighbour of the pivot, leaves a larger string before a smaller one, and nothing mends it. */
  lemma TiesLoseOrder()
    ensures var s, t := Identity(8), [0, 5, 6, 1, 3, 4, 2, 7];
            && Ranks(TiedStrings(), TIED) && Ordered(TiedStrings(), s)
            && Partitioned(TIED, s, 0, 7) == (t, 5, 4)
            && Quick(TiedStrings(), TIED, s, Seg(0, 7)) == t
            && After(TiedStrings(), t[1], t[3]) && !Ordered(TiedStrings(), t)
  {
    hide Ranks, Ordered, After, TiedStrings, Partitioned;
    var s, t := Identity(8), [0, 5, 6, 1, 3, 4, 2, 7];
    TiedRanks();
    TiedOrder(s, t);
    TiedPartition(s, t);
    TiedLeaves(t);
    hide Quick, LeafOf;
    TiedQuick(s, t);
  }

  lemma TiedQuick(s: seq<nat>, t: seq<nat>)
    requires |s| == |t| == 8 && Partitioned(TIED, s, 0, 7) == (t, 5, 4)
    requires LeafOf(TiedStrings(), t, Seg(5, 7)) == t && LeafOf(TiedStrings(), t, Seg(0, 3)) == t
    ensures Quick(TiedStrings(), TIED, s, Seg(0, 7)) == t
  {
    hide LeafOf, TiedStrings, Partitioned;
    assert Quick(TiedStrings(), TIED, t, Seg(5, 7)) == t;
    assert Quick(TiedStrings(), TIED, t, Seg(0, 3)) == t;
  }

  /** The parts are in order already, but for the last entry of the first. */
  lemma TiedLeaves(t: seq<nat>)
    requires t == [0, 5, 6, 1, 3, 4, 2, 7]
    ensures LeafOf(TiedStrings(), t, Seg(5, 7)) == t && LeafOf(TiedStrings(), t, Seg(0, 3)) == t
  {
    hide After, Sorted;
    TiedAfter();
    var u, v := t[0..3], t[5..7];
    assert u == [0, 5, 6] && v == [4, 2];
    SortedOfOrdered(TiedStrings(), u);
    SortedOfOrdered(TiedStrings(), v);
  }

  lemma TiedAfter()
    ensures forall p, q :: 0 <= p < 8 && 0 <= q < 8 ==> (After(TiedStrings(), p, q) <==> TIED[p] > TIED[q])
  {
    forall p, q | 0 <= p < 8 && 0 <= q < 8
      ensures After(TiedStrings(), p, q) <==> TIED[p] > TIED[q]
    {
      assert TiedStrings()[p] == [TIED[p]] && TiedStrings()[q] == [TIED[q]];
      CompareOne(TIED[p], TIED[q]);
    }
  }

  lemma TiedPartition(s: seq<nat>, t: seq<nat>)
    requires s == Identity(8) && t == [0, 5, 6, 1, 3, 4, 2, 7]
    ensures Partitioned(TIED, s, 0, 7) == (t, 5, 4)
  {
    hide Exchanged;
    var a, b, c := [0, 3, 2, 1, 4, 5, 6, 7], [0, 3, 6, 1, 4, 5, 2, 7], [0, 3, 6, 1, 5, 4, 2, 7];
    TiedPivot(s, a);
    hide Sort3Of, RankAt;
    TiedExchange(a, b, c);
    assert Swapped(c, 1, 4) == t;
  }

  lemma TiedPivot(s: seq<nat>, a: seq<nat>)
    requires s == Identity(8) && a == [0, 3, 2, 1, 4, 5, 6, 7]
    ensures Swapped(s, 3, 1) == a && Sort3Of(TIED, a, 0, 1, 7) == a && RankAt(TIED, a, 1) == 2
  {
    assert s == [0, 1, 2, 3, 4, 5, 6, 7];
  }

  lemma TiedOrder(s: seq<nat>, t: seq<nat>)
    requires s == Identity(8) && t == [0, 5, 6, 1, 3, 4, 2, 7]
    ensures Ordered(TiedStrings(), s)
    ensures After(TiedStrings(), t[1], t[3]) && !Ordered(TiedStrings(), t)
  {
    hide After;
    TiedAfter();
    assert After(TiedStrings(), 5, 1);
  }

  lemma TiedExchange(a: seq<nat>, b: seq<nat>, c: seq<nat>)
    requires a == [0, 3, 2, 1, 4, 5, 6, 7] && b == [0, 3, 6, 1, 4, 5, 2, 7] && c == [0, 3, 6, 1, 5, 4, 2, 7]
    ensures Exchanged(TIED, a, 1, 7, 2) == (c, 5, 4)
  {
    UpIs(TIED, a, 1, 2, 2);
    UpIs(TIED, b, 2, 2, 4);
    UpIs(TIED, c, 4, 2, 5);
    DownIs(TIED, a, 7, 2, 6);
    DownIs(TIED, b, 6, 2, 5);
    DownIs(TIED, c, 5, 2, 4);
    assert Swapped(a, 2, 6) == b && Swapped(b, 4, 5) == c;
    hide Exchanged, Up, Down;
    ExchangeGoesOn(TIED, a, 1, 7, 2, 2, 6);
    ExchangeGoesOn(TIED, b, 2, 6, 2, 4, 5);
    ExchangeStops(TIED, c, 4, 5, 2, 5, 4);
  }
}
