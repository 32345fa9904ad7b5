/** The governor's table of available frequencies: read, filtered to the
    hardware bounds, and sorted in place. */
module FreqTable {

  const TABLE_SIZE := 64

  /** The listed frequencies within the hardware bounds, in file order. */
  function InRange(values: seq<nat>, lo: nat, hi: nat): (r: seq<nat>)
    ensures |r| <= |values|
    ensures forall f :: f in r <==> f in values && lo <= f <= hi
  {
    if values == [] then []
    else
      var f := values[|values| - 1];
      var rest := InRange(values[..|values| - 1], lo, hi);
      assert values == values[..|values| - 1] + [f];
      if f < lo || f > hi then rest else rest + [f]
  }

  /** What the table holds before it is sorted: as many in-range frequencies as
      fit, or the bounds themselves when there are none. */
  function Unsorted(values: seq<nat>, lo: nat, hi: nat): (r: seq<nat>)
    ensures 1 <= |r| <= TABLE_SIZE
  {
    var kept := InRange(values, lo, hi);
    if kept == [] then [lo, hi] else if |kept| > TABLE_SIZE then kept[..TABLE_SIZE] else kept
  }

  ghost predicate Sorted(s: seq<nat>) {
    forall i, j :: 0 <= i < j < |s| ==> s[i] <= s[j]
  }

  lemma {:induction false} InRangePrefix(values: seq<nat>, lo: nat, hi: nat, i: nat)
    requires i <= |values|
    ensures InRange(values[..i], lo, hi) <= InRange(values, lo, hi)
    decreases |values| - i
  {
    if i < |values| {
      InRangePrefix(values, lo, hi, i + 1);
      assert values[..i + 1][..i] == values[..i];
    } else {
      assert values[..i] == values;
    }
  }

  lemma UnsortedInRange(values: seq<nat>, lo: nat, hi: nat, f: nat)
    requires lo <= hi && f in Unsorted(values, lo, hi)
    ensures lo <= f <= hi
  {
    assert f in InRange(values, lo, hi) || f == lo || f == hi;
  }

  method FillTable(table: array<nat>, values: seq<nat>, lo: nat, hi: nat) returns (n: nat)
    requires table.Length == TABLE_SIZE
    modifies table
    ensures 1 <= n <= TABLE_SIZE && table[..n] == Unsorted(values, lo, hi)
  {
    n := 0;
    var i := 0;
    while n < TABLE_SIZE && i < |values|
      invariant i <= |values| && n <= TABLE_SIZE
      invariant table[..n] == InRange(values[..i], lo, hi)
    {
      var f := values[i];
      assert values[..i + 1][..i] == values[..i];
      if lo <= f <= hi {
        table[n] := f;
        n := n + 1;
      }
      i := i + 1;
    }
    InRangePrefix(values, lo, hi, i);
    assert i == |values| ==> values[..i] == values;
    if n == 0 {
      table[0], table[1] := lo, hi;
      n := 2;
    }
  }

  // ----------------------------------- the table, by the file alone

  /** The places of the file that list a usable frequency. */
  function Usable(values: seq<nat>, lo: nat, hi: nat): set<nat> {
    set i: nat | i < |values| && lo <= values[i] <= hi
  }

  /** `s` holds each usable frequency as often as `values` lists it, and no other. */
  ghost predicate Lists(s: seq<nat>, values: seq<nat>, lo: nat, hi: nat) {
    forall f: nat :: multiset(s)[f] == if lo <= f <= hi then multiset(values)[f] else 0
  }

  lemma {:induction false} InRangeCounts(values: seq<nat>, lo: nat, hi: nat, f: nat)
    ensures multiset(InRange(values, lo, hi))[f] == if lo <= f <= hi then multiset(values)[f] else 0
  {
    if values != [] {
      var n := |values| - 1;
      InRangeCounts(values[..n], lo, hi, f);
      assert values == values[..n] + [values[n]];
    }
  }

  lemma {:induction false} InRangeSize(values: seq<nat>, lo: nat, hi: nat)
    ensures |InRange(values, lo, hi)| == |Usable(values, lo, hi)|
  {
    if values == [] {
      assert Usable(values, lo, hi) == {};
    } else {
      var n := |values| - 1;
      InRangeSize(values[..n], lo, hi);
      UsableNext(values, lo, hi);
    }
  }

  lemma UsableNext(values: seq<nat>, lo: nat, hi: nat)
    requires values != []
    ensures var n := |values| - 1;
            && Usable(values, lo, hi) == Usable(values[..n], lo, hi) + (if lo <= values[n] <= hi then {n} else {})
            && n !in Usable(values[..n], lo, hi)
  {
    var n := |values| - 1;
    assert forall i: nat | i < n :: values[..n][i] == values[i];
  }

  lemma InRangeLists(values: seq<nat>, lo: nat, hi: nat)
    ensures Lists(InRange(values, lo, hi), values, lo, hi)
    ensures |InRange(values, lo, hi)| == |Usable(values, lo, hi)|
  {
    hide InRange, Usable;
    forall f: nat ensures multiset(InRange(values, lo, hi))[f] == if lo <= f <= hi then multiset(values)[f] else 0 {
      InRangeCounts(values, lo, hi, f);
    }
    InRangeSize(values, lo, hi);
  }

  /** Where the table is full: the shortest part of the file that lists as many
      usable frequencies as it has room for. */
  lemma {:induction false} FullAt(values: seq<nat>, lo: nat, hi: nat, room: nat) returns (p: nat)
    requires room <= |InRange(values, lo, hi)|
    ensures p <= |values| && InRange(values[..p], lo, hi) == InRange(values, lo, hi)[..room]
    decreases |values|
  {
    if |InRange(values, lo, hi)| == room {
      p := |values|;
      assert values[..p] == values && InRange(values, lo, hi)[..room] == InRange(values, lo, hi);
    } else {
      var n := |values| - 1;
      p := FullAt(values[..n], lo, hi, room);
      assert values[..n][..p] == values[..p];
      InRangePrefix(values, lo, hi, n);
    }
  }

  /** `s`, found by sorting: what the file's usable frequencies make of it. */
  ghost predicate TableOf(s: seq<nat>, values: seq<nat>, lo: nat, hi: nat) {
    var usable := |Usable(values, lo, hi)|;
    && Sorted(s)
    && (usable == 0 && lo <= hi ==> s == [lo, hi])
    && (0 < usable <= 64 ==> Lists(s, values, lo, hi))
    && (usable > 64 ==>
          |s| == 64 && exists p: nat :: p <= |values| && Lists(s, values[..p], lo, hi))
  }

  lemma TwoSorted(s: seq<nat>, lo: nat, hi: nat)
    requires Sorted(s) && multiset(s) == multiset([lo, hi]) && lo <= hi
    ensures s == [lo, hi]
  {
    assert |s| == |multiset(s)| == 2;
    assert s == [s[0], s[1]] && s[0] <= s[1];
    assert s[0] in multiset([lo, hi]) && s[1] in multiset([lo, hi]);
    if s[0] == s[1] {
      assert multiset(s)[s[0]] == 2;
    }
  }

  lemma SortedIsTable(s: seq<nat>, values: seq<nat>, lo: nat, hi: nat)
    requires Sorted(s) && multiset(s) == multiset(Unsorted(values, lo, hi))
    ensures TableOf(s, values, lo, hi)
  {
    InRangeLists(values, lo, hi);
    var kept := InRange(values, lo, hi);
    if kept == [] {
      if lo <= hi { TwoSorted(s, lo, hi); }
    } else if |kept| > TABLE_SIZE {
      var p := FullAt(values, lo, hi, TABLE_SIZE);
      InRangeLists(values[..p], lo, hi);
      assert |s| == |multiset(s)| == TABLE_SIZE;
      assert Lists(s, values[..p], lo, hi);
    }
  }

  /** The frequencies the governor may use, by the file and the bounds alone: both
      bounds if the file lists none within them, else those it lists, as often as
      it lists them, 64 at most. */
  method ReadTable(values: seq<nat>, lo: nat, hi: nat) returns (table: array<nat>, n: nat)
    ensures fresh(table) && table.Length == TABLE_SIZE && 1 <= n <= TABLE_SIZE
    ensures Sorted(table[..n])
    ensures multiset(table[..n]) == multiset(Unsorted(values, lo, hi))
    ensures TableOf(table[..n], values, lo, hi)
    ensures lo <= hi ==> forall f :: f in table[..n] ==> lo <= f <= hi
  {
    hide Unsorted, Sorted, TableOf;
    table := new nat[TABLE_SIZE](i => 0);
    n := FillTable(table, values, lo, hi);
    SortTable(table, n);
    SortedIsTable(table[..n], values, lo, hi);
    forall f | lo <= hi && f in table[..n] ensures lo <= f <= hi {
      assert f in multiset(table[..n]);
      UnsortedInRange(values, lo, hi, f);
    }
  }

  /** The in-place insertion sort. */
  method SortTable(a: array<nat>, n: nat)
    requires 1 <= n <= a.Length
    modifies a
    ensures Sorted(a[..n]) && multiset(a[..n]) == multiset(old(a[..n]))
    ensures a[n..] == old(a[n..])
  {
    hide Sorted;
    ghost var was := a[..];
    OneIsSorted(a[..1]);
    for i := 1 to n
      invariant Sorted(a[..i]) && Permuted(a[..i], was[..i]) && a[i..] == was[i..]
    {
      ghost var before := a[..];
      InsertAt(a, i);
      PermutedOn(before, was, a[..i + 1], i);
    }
    assert was[..n] == old(a[..n]);
  }

  lemma OneIsSorted(s: seq<nat>)
    requires |s| == 1
    ensures Sorted(s)
  {
  }

  /** A rearranged prefix stays one when its next element is taken in. */
  lemma PermutedOn(before: seq<nat>, was: seq<nat>, now: seq<nat>, i: nat)
    requires i < |before| == |was| && Permuted(before[..i], was[..i]) && before[i..] == was[i..]
    requires multiset(now) == multiset(before[..i + 1])
    ensures Permuted(now, was[..i + 1]) && before[i + 1..] == was[i + 1..]
  {
    assert before[..i + 1] == before[..i] + [before[i]] && was[..i + 1] == was[..i] + [was[i]];
    assert before[i] == before[i..][0] == was[i..][0] == was[i];
    assert before[i + 1..] == before[i..][1..] && was[i + 1..] == was[i..][1..];
  }

  lemma InsertionSorts(s: seq<nat>, p: nat, key: nat)
    requires p <= |s| && Sorted(s)
    requires p > 0 ==> s[p - 1] <= key
    requires p < |s| ==> key < s[p]
    ensures Sorted(s[..p] + [key] + s[p..])
  {
    var r := s[..p] + [key] + s[p..];
    assert forall i :: 0 <= i < |r| ==> r[i] == if i < p then s[i] else if i == p then key else s[i - 1];
    forall i, j | 0 <= i < j < |r| ensures r[i] <= r[j] {
      assert i < p - 1 ==> s[i] <= s[p - 1];
      assert j > p + 1 ==> s[p] <= s[j - 1];
    }
  }

  predicate Permuted(a: seq<nat>, b: seq<nat>) { multiset(a) == multiset(b) }

  lemma InsertionPermutes(s: seq<nat>, p: nat, key: nat)
    requires p <= |s|
    ensures Permuted(s[..p] + [key] + s[p..], s + [key])
  {
    assert s == s[..p] + s[p..];
  }

  /** Pointwise, `s` with the key put in. */
  lemma Shifted(r: seq<nat>, s: seq<nat>, p: nat, key: nat)
    requires p <= |s| && |r| == |s| + 1 && r[p] == key
    requires forall k :: 0 <= k < p ==> r[k] == s[k]
    requires forall k :: p < k <= |s| ==> r[k] == s[k - 1]
    ensures r == s[..p] + [key] + s[p..]
  {
  }

  /** Elements `p` to `i - 1` shifted up and element `i` put at `p`. */
  lemma Inserted(now: seq<nat>, was: seq<nat>, i: nat, p: nat)
    requires p <= i < |was| == |now| && Sorted(was[..i])
    requires p > 0 ==> was[p - 1] <= was[i]
    requires p < i ==> was[i] < was[p]
    requires now[p] == was[i]
    requires forall k :: 0 <= k < p || i < k < |was| ==> now[k] == was[k]
    requires forall k :: p < k <= i ==> now[k] == was[k - 1]
    ensures Sorted(now[..i + 1]) && Permuted(now[..i + 1], was[..i + 1])
    ensures now[i + 1..] == was[i + 1..]
  {
    hide Sorted, Permuted;
    var s, key := was[..i], was[i];
    assert was[..i + 1] == s + [key];
    var r := now[..i + 1];
    Shifted(r, s, p, key);
    InsertionSorts(s, p, key);
    InsertionPermutes(s, p, key);
  }

  /** Move element `i` into place among the sorted ones before it. */
  method InsertAt(a: array<nat>, i: nat)
    requires 1 <= i < a.Length && Sorted(a[..i])
    modifies a
    ensures Sorted(a[..i + 1]) && multiset(a[..i + 1]) == multiset(old(a[..i + 1]))
    ensures a[i + 1..] == old(a[i + 1..])
  {
    hide Sorted;
    ghost var was := a[..];
    assert was[..i] == a[..i] && was[..i + 1] == a[..i + 1] && was[i + 1..] == a[i + 1..];
    var key := a[i];
    var j := i;
    while j > 0 && a[j - 1] > key
      invariant j <= i
      invariant forall k :: 0 <= k < j || i < k < a.Length ==> a[k] == was[k]
      invariant forall k :: j < k <= i ==> a[k] == was[k - 1]
      invariant j < i ==> was[j] > key
    {
      a[j] := a[j - 1];
      j := j - 1;
    }
    a[j] := key;
    ghost var now := a[..];
    Inserted(now, was, i, j);
    assert a[..i + 1] == now[..i + 1] && a[i + 1..] == now[i + 1..];
  }
}
