/** The insertion index sort of src/lib.c. An index array is permuted so that the strings it points
    at come in order; the strings themselves do not move. */
module IndexSort {
  import opened StringOrder

  /** The string an index points at. */
  function Key(arr: seq<Str>, i: nat): Str {
    if i < |arr| then arr[i] else []
  }

  predicate After(arr: seq<Str>, i: nat, j: nat) {
    Compare(Key(arr, i), Key(arr, j)) > 0
  }

  /** Place `x` after the last element that does not come after it. */
  function Insert(arr: seq<Str>, s: seq<nat>, x: nat): (r: seq<nat>)
    ensures |r| == |s| + 1
  {
    if s != [] && After(arr, s[|s| - 1], x) then Insert(arr, s[..|s| - 1], x) + [s[|s| - 1]] else s + [x]
  }

  function Sorted(arr: seq<Str>, s: seq<nat>): (r: seq<nat>)
    ensures |r| == |s|
  {
    if |s| <= 1 then s else Insert(arr, Sorted(arr, s[..|s| - 1]), s[|s| - 1])
  }

  predicate Ordered(arr: seq<Str>, s: seq<nat>) {
    forall p, q :: 0 <= p < q < |s| ==> !After(arr, s[p], s[q])
  }

  /** The indices of one string, in the order they appear. */
  function Class(arr: seq<Str>, s: seq<nat>, v: Str): seq<nat> {
    if s == [] then []
    else Class(arr, s[..|s| - 1], v) + if Key(arr, s[|s| - 1]) == v then [s[|s| - 1]] else []
  }

  lemma ClassAppend(arr: seq<Str>, s: seq<nat>, x: nat, v: Str)
    ensures Class(arr, s + [x], v) == Class(arr, s, v) + if Key(arr, x) == v then [x] else []
  {
    assert (s + [x])[..|s|] == s;
  }

  lemma AfterDiffers(arr: seq<Str>, i: nat, j: nat)
    requires After(arr, i, j)
    ensures Key(arr, i) != Key(arr, j)
  {
    CompareFlips(Key(arr, i), Key(arr, i));
  }

  lemma {:induction false} InsertKeepsClass(arr: seq<Str>, s: seq<nat>, x: nat, v: Str)
    ensures Class(arr, Insert(arr, s, x), v) == Class(arr, s + [x], v)
  {
    hide After;
    if s != [] && After(arr, s[|s| - 1], x) {
      var init, l := s[..|s| - 1], s[|s| - 1];
      assert s == init + [l];
      AfterDiffers(arr, l, x);
      InsertKeepsClass(arr, init, x, v);
      ClassAppend(arr, Insert(arr, init, x), l, v);
      ClassAppend(arr, init, x, v);
      ClassAppend(arr, init, l, v);
      ClassAppend(arr, s, x, v);
    }
  }

  /** The sort is stable: indices of equal strings keep their order. */
  lemma {:induction false} SortedIsStable(arr: seq<Str>, s: seq<nat>, v: Str)
    ensures Class(arr, Sorted(arr, s), v) == Class(arr, s, v)
  {
    if |s| > 1 {
      var init, x := s[..|s| - 1], s[|s| - 1];
      assert s == init + [x];
      SortedIsStable(arr, init, v);
      InsertKeepsClass(arr, Sorted(arr, init), x, v);
      ClassAppend(arr, Sorted(arr, init), x, v);
      ClassAppend(arr, init, x, v);
    }
  }

  lemma {:induction false} InsertElements(arr: seq<Str>, s: seq<nat>, x: nat)
    ensures multiset(Insert(arr, s, x)) == multiset(s) + multiset{x}
  {
    hide After;
    if s != [] && After(arr, s[|s| - 1], x) {
      assert s == s[..|s| - 1] + [s[|s| - 1]];
      InsertElements(arr, s[..|s| - 1], x);
    }
  }

  /** The sort permutes. */
  lemma {:induction false} SortedElements(arr: seq<Str>, s: seq<nat>)
    ensures multiset(Sorted(arr, s)) == multiset(s)
  {
    if |s| > 1 {
      assert s == s[..|s| - 1] + [s[|s| - 1]];
      SortedElements(arr, s[..|s| - 1]);
      InsertElements(arr, Sorted(arr, s[..|s| - 1]), s[|s| - 1]);
    }
  }

  lemma AfterTransitive(arr: seq<Str>, i: nat, j: nat, k: nat)
    requires !After(arr, i, j) && !After(arr, j, k)
    ensures !After(arr, i, k)
  {
    LessTransitive(Key(arr, i), Key(arr, j), Key(arr, k));
  }

  lemma AfterAsymmetric(arr: seq<Str>, i: nat, j: nat)
    requires After(arr, i, j)
    ensures !After(arr, j, i)
  {
    CompareFlips(Key(arr, i), Key(arr, j));
  }

  lemma {:induction false} InsertOrders(arr: seq<Str>, s: seq<nat>, x: nat)
    requires Ordered(arr, s)
    ensures Ordered(arr, Insert(arr, s, x))
  {
    hide After;
    if s == [] {
    } else {
      var init, l := s[..|s| - 1], s[|s| - 1];
      if After(arr, l, x) {
        InsertOrders(arr, init, x);
        AfterAsymmetric(arr, l, x);
        var t := Insert(arr, init, x);
        forall p | 0 <= p < |t|
          ensures !After(arr, t[p], l)
        {
          InsertElements(arr, init, x);
          assert t[p] in multiset(t);
          assert t[p] in init || t[p] == x;
        }
      } else {
        forall p | 0 <= p < |s|
          ensures !After(arr, s[p], x)
        {
          if p < |s| - 1 {
            AfterTransitive(arr, s[p], l, x);
          }
        }
      }
    }
  }

  /** The result is in order. */
  lemma {:induction false} SortedIsOrdered(arr: seq<Str>, s: seq<nat>)
    ensures Ordered(arr, Sorted(arr, s))
  {
    if |s| > 1 {
      SortedIsOrdered(arr, s[..|s| - 1]);
      InsertOrders(arr, Sorted(arr, s[..|s| - 1]), s[|s| - 1]);
    }
  }

  /** What is in order already is left alone. */
  lemma {:induction false} SortedOfOrdered(arr: seq<Str>, s: seq<nat>)
    requires Ordered(arr, s)
    ensures Sorted(arr, s) == s
  {
    hide After, Insert;
    if |s| > 1 {
      var init, x := s[..|s| - 1], s[|s| - 1];
      assert Ordered(arr, init);
      SortedOfOrdered(arr, init);
      InsertLast(arr, init, x);
      assert s == init + [x];
    }
  }

  lemma InsertLast(arr: seq<Str>, s: seq<nat>, x: nat)
    requires s != [] && !After(arr, s[|s| - 1], x)
    ensures Insert(arr, s, x) == s + [x]
  {
    hide After;
  }

  predicate Indices(arr: seq<Str>, s: seq<nat>) {
    forall p :: 0 <= p < |s| ==> s[p] < |arr|
  }

  lemma {:induction false} InsertPosition(arr: seq<Str>, t: seq<nat>, x: nat, k: nat)
    requires k <= |t| && (k > 0 ==> !After(arr, t[k - 1], x))
    requires forall p :: k <= p < |t| ==> After(arr, t[p], x)
    ensures Insert(arr, t, x) == t[..k] + [x] + t[k..]
  {
    hide After;
    if k == |t| {
      assert t[..k] == t;
    } else {
      var init := t[..|t| - 1];
      InsertPosition(arr, init, x, k);
      assert init[..k] == t[..k] && t[k..] == init[k..] + [t[|t| - 1]];
    }
  }

  /** An array in which `x` has been put at `i`, and the entries from there up to `j` moved up. */
  lemma Spliced(arr: seq<Str>, was: seq<nat>, now: seq<nat>, left: nat, i: nat, j: nat, x: nat)
    requires left <= i <= j < |was| == |now| && now[i] == x
    requires forall p :: left <= p < i ==> now[p] == was[p]
    requires forall p :: i <= p < j ==> now[p + 1] == was[p]
    requires i > left ==> !After(arr, was[i - 1], x)
    requires forall p :: i <= p < j ==> After(arr, was[p], x)
    ensures now[left..j + 1] == Insert(arr, was[left..j], x)
  {
    hide After, Insert;
    var t := was[left..j];
    assert forall p :: i - left <= p < |t| ==> t[p] == was[left + p];
    InsertPosition(arr, t, x, i - left);
    Pieces(was, now, left, i, j);
  }

  lemma Pieces(was: seq<nat>, now: seq<nat>, left: nat, i: nat, j: nat)
    requires left <= i <= j < |was| == |now|
    requires forall p :: left <= p < i ==> now[p] == was[p]
    requires forall p :: i <= p < j ==> now[p + 1] == was[p]
    ensures now[left..j + 1] == was[left..j][..i - left] + [now[i]] + was[left..j][i - left..]
  {
    SliceSplits(was, left, i, j);
    SliceSplits(now, left, i, j + 1);
    OneOff(now, i, j + 1);
    SamePiece(now, was, left, left, i - left);
    SamePiece(now, was, i + 1, i, j - i);
    Regrouped(was[left..i], [now[i]], was[i..j]);
  }

  lemma OneOff(s: seq<nat>, a: nat, b: nat)
    requires a < b <= |s|
    ensures s[a..b] == [s[a]] + s[a + 1..b]
  {
  }

  lemma Regrouped(a: seq<nat>, b: seq<nat>, c: seq<nat>)
    ensures (a + b) + c == a + (b + c)
  {
  }

  lemma SliceSplits(s: seq<nat>, a: nat, b: nat, c: nat)
    requires a <= b <= c <= |s|
    ensures s[a..c] == s[a..b] + s[b..c] && s[a..c][..b - a] == s[a..b] && s[a..c][b - a..] == s[b..c]
  {
  }

  lemma SamePiece(s: seq<nat>, t: seq<nat>, a: nat, b: nat, n: nat)
    requires a + n <= |s| && b + n <= |t| && forall k :: b <= k < b + n ==> s[k - b + a] == t[k]
    ensures s[a..a + n] == t[b..b + n]
  {
    var u, v := s[a..a + n], t[b..b + n];
    forall k | 0 <= k < n
      ensures u[k] == v[k]
    {
      assert t[b + k] == s[b + k - b + a];
    }
  }

  /** The inner loop of iisort: shift larger entries up, and put the entry where they stop. */
  method InsertAt(arr: seq<Str>, indx: array<nat>, left: nat, j: nat)
    requires left < j < indx.Length
    modifies indx
    ensures indx[left..j + 1] == Insert(arr, old(indx[left..j]), old(indx[j]))
    ensures forall p :: 0 <= p < indx.Length && !(left <= p <= j) ==> indx[p] == old(indx[p])
  {
    hide After, Insert;
    ghost var was := indx[..];
    var index := indx[j];
    var i := j;
    while i > left && After(arr, indx[i - 1], index)
      invariant left <= i <= j
      invariant forall p :: 0 <= p < i ==> indx[p] == was[p]
      invariant forall p :: i <= p < j ==> indx[p + 1] == was[p]
      invariant forall p :: i <= p < j ==> After(arr, was[p], index)
      invariant forall p :: j < p < indx.Length ==> indx[p] == was[p]
    {
      indx[i] := indx[i - 1];
      i := i - 1;
    }
    indx[i] := index;
    Spliced(arr, was, indx[..], left, i, j, index);
    assert indx[..][left..j + 1] == indx[left..j + 1] && was[left..j] == old(indx[left..j]);
  }

  /** iisort: entries from `left` up to but not including `right` are sorted, and no other changes. */
  method InsertionSort(arr: seq<Str>, indx: array<nat>, left: nat, right: nat)
    requires left <= right <= indx.Length && Indices(arr, indx[left..right])
    modifies indx
    ensures indx[left..right] == Sorted(arr, old(indx[left..right]))
    ensures forall p :: 0 <= p < indx.Length && !(left <= p < right) ==> indx[p] == old(indx[p])
  {
    hide After, Insert;
    ghost var s := indx[left..right];
    if left == right {
      return;
    }
    var j := left + 1;
    assert indx[left..j] == s[..1];
    while j < right
      invariant left < j <= right
      invariant indx[left..j] == Sorted(arr, s[..j - left])
      invariant forall p :: j <= p < right ==> indx[p] == s[p - left]
      invariant forall p :: 0 <= p < indx.Length && !(left <= p < right) ==> indx[p] == old(indx[p])
    {
      InsertAt(arr, indx, left, j);
      assert s[..j - left + 1][..j - left] == s[..j - left];
      j := j + 1;
    }
    assert s[..right - left] == s;
  }
}
