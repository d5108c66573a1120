/** strcmp on strings without NUL, and ranks of the strings of an array. */
module StringOrder {

  type Str = seq<nat>

  /** The sign of strcmp. */
  function Compare(a: Str, b: Str): int {
    if a == [] && b == [] then 0
    else if a == [] then -1
    else if b == [] then 1
    else if a[0] < b[0] then -1
    else if a[0] > b[0] then 1
    else Compare(a[1..], b[1..])
  }

  predicate Less(a: Str, b: Str) {
    Compare(a, b) < 0
  }

  lemma {:induction false} CompareFlips(a: Str, b: Str)
    ensures Compare(b, a) == -Compare(a, b)
  {
    if a != [] && b != [] {
      CompareFlips(a[1..], b[1..]);
    }
  }

  lemma {:induction false} LessTransitive(a: Str, b: Str, c: Str)
    requires Compare(a, b) <= 0 && Compare(b, c) <= 0
    ensures Compare(a, c) <= 0
    ensures Compare(a, b) < 0 || Compare(b, c) < 0 ==> Compare(a, c) < 0
  {
    if a != [] && b != [] && c != [] {
      if a[0] == b[0] == c[0] {
        LessTransitive(a[1..], b[1..], c[1..]);
      }
    }
  }

  ghost function Below(arr: seq<Str>, i: nat): set<nat>
    requires i < |arr|
  {
    set k: nat | k < |arr| && Less(arr[k], arr[i])
  }

  lemma {:induction false} SubsetSize(a: set<nat>, b: set<nat>)
    requires a <= b
    ensures |a| <= |b|
    ensures a != b ==> |a| < |b|
  {
    assert b == a + (b - a);
    if a != b {
      assert b - a != {};
    }
  }

  lemma RankOrder(arr: seq<Str>, i: nat, j: nat)
    requires i < |arr| && j < |arr|
    ensures Compare(arr[i], arr[j]) <= 0 <==> |Below(arr, i)| <= |Below(arr, j)|
  {
    CompareFlips(arr[i], arr[j]);
    CompareFlips(arr[i], arr[i]);
    if Compare(arr[i], arr[j]) <= 0 {
      BelowGrows(arr, i, j);
    } else {
      BelowGrows(arr, j, i);
      assert j in Below(arr, i) && j !in Below(arr, j) by {
        CompareFlips(arr[j], arr[j]);
      }
      SubsetSize(Below(arr, j), Below(arr, i));
    }
  }

  lemma BelowGrows(arr: seq<Str>, i: nat, j: nat)
    requires i < |arr| && j < |arr| && Compare(arr[i], arr[j]) <= 0
    ensures Below(arr, i) <= Below(arr, j)
    ensures |Below(arr, i)| <= |Below(arr, j)|
  {
    forall k | k in Below(arr, i)
      ensures k in Below(arr, j)
    {
      LessTransitive(arr[k], arr[i], arr[j]);
    }
    SubsetSize(Below(arr, i), Below(arr, j));
  }

  /** Numbers in the order of the strings. */
  ghost predicate Ranks(arr: seq<Str>, rank: seq<nat>) {
    && |rank| == |arr|
    && forall i, j :: 0 <= i < |arr| && 0 <= j < |arr| ==> (Compare(arr[i], arr[j]) <= 0 <==> rank[i] <= rank[j])
  }

  /** strcmp orders any array of strings as some numbers are ordered. */
  lemma RanksExist(arr: seq<Str>) returns (rank: seq<nat>)
    ensures Ranks(arr, rank)
  {
    rank := seq(|arr|, i requires 0 <= i < |arr| => |Below(arr, i)|);
    forall i, j | 0 <= i < |arr| && 0 <= j < |arr|
      ensures Compare(arr[i], arr[j]) <= 0 <==> rank[i] <= rank[j]
    {
      RankOrder(arr, i, j);
    }
  }
}
