/** The loops over coverage maps, each proved against its specification in
    `Coverage`. */
module CoverageLoops {
  import opened Coverage

  method Classify(dst: array<bv8>, src: array<bv8>)
    requires dst.Length == src.Length && dst != src
    modifies dst
    ensures dst[..] == Classified(src[..])
  {
    for i := 0 to src.Length
      invariant forall j :: 0 <= j < i ==> dst[j] == ClassOf(src[j])
    {
      dst[i] := ClassOf(src[i]);
    }
  }

  /** What one more position adds to the verdict of the ones before it. */
  lemma NewBitsGrow(v: Map, c: Map, i: nat)
    requires |v| == |c| && i < |v|
    ensures NewBits(v[..i + 1], c[..i + 1]) ==
            if !NewAt(v, c, i) then NewBits(v[..i], c[..i])
            else if v[i] == VIRGIN then 2
            else if NewBits(v[..i], c[..i]) > 1 then 2 else 1
  {
    var v0, c0, v1, c1 := v[..i], c[..i], v[..i + 1], c[..i + 1];
    assert forall j: nat :: j < i ==> (NewAt(v1, c1, j) <==> NewAt(v0, c0, j));
    assert NewAt(v1, c1, i) <==> NewAt(v, c, i);
    assert forall j: nat :: j < i ==> v1[j] == v0[j];
  }

  method HasNewBits(virgin: array<bv8>, cls: array<bv8>) returns (ret: nat)
    requires virgin.Length == cls.Length && virgin != cls
    modifies virgin
    ensures virgin[..] == Cleared(old(virgin[..]), cls[..])
    ensures ret == NewBits(old(virgin[..]), cls[..])
  {
    ret := 0;
    ghost var v, c := virgin[..], cls[..];
    assert NewBits(v[..0], c[..0]) == 0;
    hide NewBits, Without, Meets;
    ghost var r := Cleared(v, c);
    for i := 0 to virgin.Length
      invariant forall j :: 0 <= j < i ==> virgin[j] == r[j]
      invariant forall j :: i <= j < virgin.Length ==> virgin[j] == v[j]
      invariant ret == NewBits(v[..i], c[..i])
    {
      NewBitsGrow(v, c, i);
      var b, k := virgin[i], cls[i];
      ClearByte(b, k);
      assert b == v[i] && k == c[i] && r[i] == Without(b, k);
      if Meets(k, b) {
        ret := if b == VIRGIN then 2 else if ret > 1 then ret else 1;
        virgin[i] := Without(b, k);
      }
    }
    assert v[..virgin.Length] == v && c[..virgin.Length] == c;
    assert virgin[..] == r;
  }

  /** `HasNewBits` without the update, leaving at the first new tuple. */
  method PeekNewBits(virgin: array<bv8>, cls: array<bv8>) returns (ret: nat)
    requires virgin.Length == cls.Length
    ensures ret == NewBits(virgin[..], cls[..])
  {
    ret := 0;
    ghost var v, c := virgin[..], cls[..];
    for i := 0 to virgin.Length
      invariant ret <= 1 && ret == NewBits(v[..i], c[..i])
    {
      NewBitsGrow(v, c, i);
      if Meets(cls[i], virgin[i]) {
        if virgin[i] == VIRGIN {
          assert NewAt(v, c, i);
          return 2;
        }
        ret := 1;
      }
    }
    assert v[..virgin.Length] == v && c[..virgin.Length] == c;
  }

  method CountReached(m: array<bv8>) returns (n: nat)
    ensures n == Reached(m[..])
  {
    n := 0;
    for i := 0 to m.Length
      invariant n == Reached(m[..i])
    {
      assert m[..i + 1][..i] == m[..i];
      n := n + (if m[i] != VIRGIN then 1 else 0);
    }
    assert m[..m.Length] == m[..];
  }

  /** `memcpy` between two maps of one size. */
  method CopyMap(dst: array<bv8>, src: array<bv8>)
    requires dst.Length == src.Length
    modifies dst
    ensures dst[..] == old(src[..])
  {
    forall i | 0 <= i < src.Length {
      dst[i] := src[i];
    }
    assert dst[..] == old(src[..]);
  }
}
