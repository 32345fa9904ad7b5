/** Coverage maps and the operations AFL performs on them: hit-count classes,
    virgin maps and their bits. A map is a sequence of bytes; a virgin map has
    a bit set while that hit-count class has not been seen at that position. */
module Coverage {

  type Map = seq<bv8>

  const VIRGIN: bv8 := 0xff

  function Filled(size: nat, b: bv8): (m: Map)
    ensures |m| == size && forall i :: 0 <= i < size ==> m[i] == b
  {
    seq(size, i => b)
  }

  /** AFL's hit-count classes (`count_class`). */
  function ClassOf(b: bv8): bv8 {
    if b == 0 then 0
    else if b == 1 then 1
    else if b == 2 then 2
    else if b == 3 then 4
    else if b <= 7 then 8
    else if b <= 15 then 16
    else if b <= 31 then 32
    else if b <= 127 then 64
    else 128
  }

  /** A class is one bit, present exactly when the count is nonzero; classes rise
      with counts and change at 1, 2, 3, 4, 8, 16, 32 and 128; classifying a class
      again can give another. */
  lemma ClassesAreOrderedBits(a: bv8, b: bv8)
    ensures ClassOf(a) & (ClassOf(a) - 1) == 0
    ensures ClassOf(a) == 0 <==> a == 0
    ensures a <= b ==> ClassOf(a) <= ClassOf(b)
    ensures a > 0 ==> (ClassOf(a) != ClassOf(a - 1) <==> a in {1, 2, 3, 4, 8, 16, 32, 128})
    ensures ClassOf(ClassOf(a)) == ClassOf(a) <==> a <= 2 || a >= 32
  {
  }

  function Classified(m: Map): (c: Map)
    ensures |c| == |m| && forall i :: 0 <= i < |m| ==> c[i] == ClassOf(m[i])
  {
    seq(|m|, i requires 0 <= i < |m| => ClassOf(m[i]))
  }

  /** The bits of `v` that are not in `c`. */
  function Without(v: bv8, c: bv8): bv8 { v & !c }

  /** The two bytes share a bit. */
  predicate Meets(c: bv8, v: bv8) { c & v != 0 }

  /** The virgin map after the classes in `c` have been seen. */
  function Cleared(v: Map, c: Map): (r: Map)
    requires |v| == |c|
    ensures |r| == |v| && forall i :: 0 <= i < |v| ==> r[i] == Without(v[i], c[i])
  {
    seq(|v|, i requires 0 <= i < |v| => Without(v[i], c[i]))
  }

  /** Position `i` of `c` has a class that `v` still holds virgin. */
  predicate NewAt(v: Map, c: Map, i: nat)
    requires |v| == |c| && i < |v|
  {
    Meets(c[i], v[i])
  }

  /** 2 when some position is reached for the first time, 1 when only a
      hit-count class is new, 0 when nothing is. */
  function NewBits(v: Map, c: Map): (n: nat)
    requires |v| == |c|
    ensures n <= 2
  {
    if exists i: nat :: i < |v| && NewAt(v, c, i) && v[i] == VIRGIN then 2
    else if exists i: nat :: i < |v| && NewAt(v, c, i) then 1
    else 0
  }

  /** Every class in `c` has been seen according to `v`. */
  ghost predicate Covers(v: Map, c: Map) {
    |v| == |c| && forall i: nat :: i < |v| ==> !Meets(c[i], v[i])
  }

  /** Every bit of `a` is a bit of `b`. */
  ghost predicate Within(a: Map, b: Map) {
    |a| == |b| && forall i: nat :: i < |a| ==> Without(a[i], b[i]) == 0
  }

  /** Sum of a weight over all bytes. */
  function Sum(v: Map, w: bv8 -> nat): (n: nat) {
    if v == [] then 0 else Sum(v[..|v| - 1], w) + w(v[|v| - 1])
  }

  function NotVirgin(b: bv8): (n: nat) { if b != VIRGIN then 1 else 0 }

  /** Number of positions reached, i.e. no longer entirely virgin. */
  function Reached(v: Map): (n: nat) { Sum(v, NotVirgin) }

  function Mask(k: nat): bv8
    requires k < 8
  {
    if k == 0 then 1 else if k == 1 then 2 else if k == 2 then 4 else if k == 3 then 8
    else if k == 4 then 16 else if k == 5 then 32 else if k == 6 then 64 else 128
  }

  predicate Has(b: bv8, k: nat)
    requires k < 8
  {
    b & Mask(k) != 0
  }

  function BitSet(b: bv8): set<nat> {
    set k: nat | k < 8 && Has(b, k)
  }

  function BitsOf(b: bv8): (n: nat) {
    |BitSet(b)|
  }

  /** Number of set bits of a map. */
  function SetBits(v: Map): (n: nat) { Sum(v, BitsOf) }

  // ---------------------------------------------------------------- bytes

  lemma ClearByte(v: bv8, c: bv8)
    ensures !Meets(c, v) ==> Without(v, c) == v
    ensures !Meets(c, Without(v, c))
    ensures Without(v, c) == VIRGIN ==> v == VIRGIN
    ensures v == VIRGIN && Meets(c, v) ==> Without(v, c) != VIRGIN
  {
  }

  lemma ClearedHas(v: bv8, c: bv8, k: nat)
    requires k < 8
    ensures Has(Without(v, c), k) <==> Has(v, k) && !Has(c, k)
    ensures Has(c & v, k) <==> Has(v, k) && Has(c, k)
  {
  }

  lemma NonzeroHas(b: bv8) returns (k: nat)
    requires b != 0
    ensures k < 8 && Has(b, k)
  {
    k := if b & 1 != 0 then 0 else if b & 2 != 0 then 1 else if b & 4 != 0 then 2
         else if b & 8 != 0 then 3 else if b & 16 != 0 then 4 else if b & 32 != 0 then 5
         else if b & 64 != 0 then 6 else 7;
  }

  lemma SmallerSet<T>(a: set<T>, b: set<T>)
    requires a <= b
    ensures |a| <= |b|
    ensures a != b ==> |a| < |b|
  {
    if a != b {
      assert a + (b - a) == b;
    }
  }

  lemma ClearLowersBits(v: bv8, c: bv8)
    ensures BitsOf(Without(v, c)) <= BitsOf(v)
    ensures Meets(c, v) ==> BitsOf(Without(v, c)) < BitsOf(v)
  {
    var before, after := BitSet(v), BitSet(Without(v, c));
    forall k: nat | k in after ensures k in before { ClearedHas(v, c, k); }
    SmallerSet(after, before);
    if Meets(c, v) {
      var k := NonzeroHas(c & v);
      ClearedHas(v, c, k);
      assert k in before && k !in after;
    }
  }

  lemma AtMostEightBits(b: bv8)
    ensures BitsOf(b) <= 8
  {
    SmallerSet(BitSet(b), {0, 1, 2, 3, 4, 5, 6, 7});
  }

  // ----------------------------------------------------------------- maps

  lemma NoNewBits(v: Map, c: Map)
    requires |v| == |c|
    ensures NewBits(v, c) == 0 <==> Covers(v, c)
    ensures NewBits(v, c) == 0 ==> Cleared(v, c) == v
  {
    if NewBits(v, c) == 0 {
      forall i: nat | i < |v| ensures !Meets(c[i], v[i]) && Cleared(v, c)[i] == v[i] {
        assert !NewAt(v, c, i);
        ClearByte(v[i], c[i]);
      }
    }
  }

  lemma ClearingCovers(v: Map, c: Map)
    requires |v| == |c|
    ensures Covers(Cleared(v, c), c)
  {
    forall i: nat | i < |v| ensures !Meets(c[i], Cleared(v, c)[i]) {
      ClearByte(v[i], c[i]);
    }
  }

  lemma CoverageStays(v: Map, c: Map, d: Map)
    requires |v| == |c| && Covers(v, d)
    ensures Covers(Cleared(v, c), d)
  {
    forall i: nat | i < |v| ensures !Meets(d[i], Cleared(v, c)[i]) {
      assert !Meets(d[i], v[i]);
      assert d[i] & (v[i] & !c[i]) == (d[i] & v[i]) & !c[i];
    }
  }

  lemma NothingSeenIsCovered(v: Map, m: Map)
    requires |v| == |m| && m == Filled(|v|, 0)
    ensures Covers(v, Classified(m))
  {
  }

  lemma {:induction false} SumMonotone(a: Map, b: Map, w: bv8 -> nat)
    requires |a| == |b|
    requires forall i :: 0 <= i < |a| ==> w(a[i]) <= w(b[i])
    ensures Sum(a, w) <= Sum(b, w)
    ensures (exists i :: 0 <= i < |a| && w(a[i]) < w(b[i])) ==> Sum(a, w) < Sum(b, w)
  {
    if a != [] {
      SumMonotone(a[..|a| - 1], b[..|b| - 1], w);
    }
  }

  lemma {:induction false} SumBounded(a: Map, w: bv8 -> nat, most: nat)
    requires forall i :: 0 <= i < |a| ==> w(a[i]) <= most
    ensures Sum(a, w) <= most * |a|
  {
    if a != [] {
      SumBounded(a[..|a| - 1], w, most);
    }
  }

  lemma SetBitsBounded(v: Map)
    ensures SetBits(v) <= 8 * |v|
  {
    forall i | 0 <= i < |v| ensures BitsOf(v[i]) <= 8 { AtMostEightBits(v[i]); }
    SumBounded(v, BitsOf, 8);
  }

  lemma ClearingLowersSetBits(v: Map, c: Map)
    requires |v| == |c|
    ensures SetBits(Cleared(v, c)) <= SetBits(v)
    ensures NewBits(v, c) != 0 ==> SetBits(Cleared(v, c)) < SetBits(v)
  {
    var r := Cleared(v, c);
    forall i: nat | i < |v|
      ensures BitsOf(r[i]) <= BitsOf(v[i]) && (NewAt(v, c, i) ==> BitsOf(r[i]) < BitsOf(v[i]))
    {
      ClearLowersBits(v[i], c[i]);
    }
    SumMonotone(r, v, BitsOf);
  }

  lemma ClearingKeepsReached(v: Map, c: Map)
    requires |v| == |c|
    ensures Reached(v) <= Reached(Cleared(v, c))
    ensures NewBits(v, c) == 2 ==> Reached(v) < Reached(Cleared(v, c))
  {
    var r := Cleared(v, c);
    forall i | 0 <= i < |v| ensures NotVirgin(v[i]) <= NotVirgin(r[i]) { ClearByte(v[i], c[i]); }
    SumMonotone(v, r, NotVirgin);
    if NewBits(v, c) == 2 {
      var i: nat :| i < |v| && NewAt(v, c, i) && v[i] == VIRGIN;
      ClearByte(v[i], c[i]);
    }
  }

  lemma NothingReached(size: nat)
    ensures Reached(Filled(size, VIRGIN)) == 0
  {
    SumBounded(Filled(size, VIRGIN), NotVirgin, 0);
  }

  // ---------------------------------------- maps that differ in one byte

  /** `b`, then `rest` everywhere else. */
  function Lead(size: nat, b: bv8, rest: bv8): (m: Map)
    requires size > 0
    ensures |m| == size && m[0] == b && forall i :: 0 < i < size ==> m[i] == rest
  {
    [b] + Filled(size - 1, rest)
  }

  lemma LeadFilled(size: nat, b: bv8)
    requires size > 0
    ensures Lead(size, b, b) == Filled(size, b)
  {
  }

  lemma LeadClassified(size: nat, b: bv8)
    requires size > 0
    ensures Classified(Lead(size, b, 0)) == Lead(size, ClassOf(b), 0)
  {
  }

  lemma LeadCleared(size: nat, v: bv8, c: bv8)
    requires size > 0
    ensures Cleared(Lead(size, v, VIRGIN), Lead(size, c, 0)) == Lead(size, Without(v, c), VIRGIN)
  {
    assert Without(VIRGIN, 0) == VIRGIN;
  }

  lemma LeadNewBits(size: nat, v: bv8, c: bv8)
    requires size > 0
    ensures NewBits(Lead(size, v, VIRGIN), Lead(size, c, 0)) ==
            if !Meets(c, v) then 0 else if v == VIRGIN then 2 else 1
  {
    var vs, cs := Lead(size, v, VIRGIN), Lead(size, c, 0);
    assert NewAt(vs, cs, 0) <==> Meets(c, v);
    assert forall i: nat :: 0 < i < size ==> !NewAt(vs, cs, i);
  }

  /** What two one-byte paths do to the virgin maps they meet. */
  lemma LeadFacts(size: nat)
    requires size > 0
    ensures Classified(Lead(size, 1, 0)) == Lead(size, 1, 0) && Classified(Lead(size, 2, 0)) == Lead(size, 2, 0)
    ensures Classified(Filled(size, 0)) == Filled(size, 0)
    ensures NewBits(Lead(size, VIRGIN, VIRGIN), Lead(size, 1, 0)) == 2
    ensures NewBits(Lead(size, VIRGIN, VIRGIN), Filled(size, 0)) == 0
    ensures NewBits(Lead(size, 0xfe, VIRGIN), Lead(size, 1, 0)) == 0
    ensures NewBits(Lead(size, 0xfe, VIRGIN), Lead(size, 2, 0)) == 1
    ensures NewBits(Lead(size, 0xfc, VIRGIN), Lead(size, 1, 0)) == 0
    ensures Cleared(Lead(size, VIRGIN, VIRGIN), Lead(size, 1, 0)) == Lead(size, 0xfe, VIRGIN)
    ensures Cleared(Lead(size, VIRGIN, VIRGIN), Lead(size, 2, 0)) == Lead(size, 0xfd, VIRGIN)
    ensures Cleared(Lead(size, 0xfe, VIRGIN), Lead(size, 1, 0)) == Lead(size, 0xfe, VIRGIN)
    ensures Cleared(Lead(size, 0xfe, VIRGIN), Lead(size, 2, 0)) == Lead(size, 0xfc, VIRGIN)
  {
    hide Lead, Filled, NewBits, Classified, Cleared;
    LeadFilled(size, 0);
    LeadClassified(size, 0);
    LeadClassified(size, 1);
    LeadClassified(size, 2);
    LeadNewBits(size, VIRGIN, 1);
    LeadNewBits(size, VIRGIN, 0);
    LeadNewBits(size, 0xfe, 1);
    LeadNewBits(size, 0xfe, 2);
    LeadNewBits(size, 0xfc, 1);
    LeadCleared(size, VIRGIN, 1);
    LeadCleared(size, VIRGIN, 2);
    LeadCleared(size, 0xfe, 1);
    LeadCleared(size, 0xfe, 2);
  }
}
