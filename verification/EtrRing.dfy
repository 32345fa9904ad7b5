/** Reading the trace straight out of the ETR's ring buffer. */
module EtrRing {
  import opened Common

  /** The ring and its pointers as bus addresses. */
  datatype Etr = Etr(base: nat, ram: seq<Byte>, rrp: nat, rwp: nat, wrapped: bool)

  /** The bytes pending and their offset, or an error when a pointer lies outside
      the ring. */
  datatype Pending = Bytes(len: nat, start: nat) | Outside

  predicate Inside(e: Etr, ptr: nat) { e.base <= ptr < e.base + |e.ram| }

  /** `etr_pending`. */
  function PendingOf(e: Etr): (p: Pending)
    ensures p.Bytes? ==> p.len <= |e.ram| && p.start < |e.ram|
  {
    if !Inside(e, e.rwp) then Outside
    else if e.wrapped then Bytes(|e.ram|, e.rwp - e.base)
    else if !Inside(e, e.rrp) then Outside
    else Bytes(if e.rwp >= e.rrp then e.rwp - e.rrp else |e.ram| - (e.rrp - e.rwp), e.rrp - e.base)
  }

  /** Position in a ring of `n` bytes. */
  function Wrap(a: nat, n: nat): (r: nat)
    requires n > 0
    ensures r < n
  {
    a % n
  }

  /** `etr_direct_read`: two copies, around the end of the ring. */
  function ReadFrom(ram: seq<Byte>, len: nat, start: nat): (r: seq<Byte>)
    requires len <= |ram| && start < |ram|
    ensures |r| == len
  {
    var first := if len < |ram| - start then len else |ram| - start;
    ram[start..start + first] + ram[..len - first]
  }

  lemma ReadAt(ram: seq<Byte>, len: nat, start: nat, i: nat)
    requires i < len <= |ram| && start < |ram|
    ensures ReadFrom(ram, len, start)[i] == ram[Wrap(start + i, |ram|)]
  {
    if start + i < |ram| { WrapOf(start + i, |ram|, 0, start + i); }
    else { WrapOf(start + i, |ram|, 1, start + i - |ram|); }
  }

  method DirectRead(buf: array<Byte>, at: nat, ram: array<Byte>, len: nat, start: nat)
    requires len <= ram.Length && start < ram.Length && at + len <= buf.Length && buf != ram
    modifies buf
    ensures buf[..] == old(buf[..at]) + ReadFrom(ram[..], len, start) + old(buf[at + len..])
  {
    ghost var was := buf[..];
    ghost var r := ReadFrom(ram[..], len, start);
    var first := if len < ram.Length - start then len else ram.Length - start;
    forall i | 0 <= i < first { buf[at + i] := ram[start + i]; }
    forall i | 0 <= i < len - first { buf[at + first + i] := ram[i]; }
    assert buf[..] == was[..at] + r + was[at + len..];
  }

  // ------------------------------------------------------- what was written

  /** The ring after one more byte is captured. The hardware flags a wrap when its
      write pointer comes round to the base. */
  function Captured(e: Etr, b: Byte): (r: Etr)
    requires Inside(e, e.rwp)
    ensures Inside(r, r.rwp) && |r.ram| == |e.ram|
  {
    var next := if e.rwp + 1 == e.base + |e.ram| then e.base else e.rwp + 1;
    e.(ram := e.ram[e.rwp - e.base := b], rwp := next, wrapped := e.wrapped || next == e.base)
  }

  /** The ring after a stream of bytes. */
  function CapturedAll(e: Etr, stream: seq<Byte>): (r: Etr)
    requires Inside(e, e.rwp)
    ensures Inside(r, r.rwp) && |r.ram| == |e.ram|
  {
    if stream == [] then e
    else Captured(CapturedAll(e, stream[..|stream| - 1]), stream[|stream| - 1])
  }

  /** An emptied ring: the pointers meet, anywhere in the buffer, and the flag is
      clear. */
  predicate Emptied(e: Etr) { Inside(e, e.rwp) && e.rrp == e.rwp && !e.wrapped }

  /** The last bytes of the stream that the ring can hold. */
  function Newest(stream: seq<Byte>, size: nat): seq<Byte> {
    if |stream| <= size then stream else stream[|stream| - size..]
  }

  lemma WrapOf(a: nat, n: nat, q: nat, r: nat)
    requires n > 0 && a == q * n + r && r < n
    ensures Wrap(a, n) == r
  {
    var q', r' := a / n, a % n;
    assert a == q' * n + r';
    if q' < q { TimesGap(q', q, n); }
    if q < q' { TimesGap(q, q', n); }
  }

  lemma Unwrap(a: nat, n: nat) returns (q: nat)
    requires n > 0
    ensures a == q * n + Wrap(a, n)
  {
    q := a / n;
  }

  lemma TimesGap(x: nat, y: nat, n: nat)
    requires x < y
    ensures x * n + n <= y * n
  {
    assert y * n == x * n + n + (y - x - 1) * n;
  }

  lemma WrapStep(a: nat, n: nat)
    requires n > 0
    ensures Wrap(a + 1, n) == if Wrap(a, n) + 1 == n then 0 else Wrap(a, n) + 1
  {
    hide Wrap;
    var q := Unwrap(a, n);
    if Wrap(a, n) + 1 == n {
      assert (q + 1) * n == q * n + n;
      WrapOf(a + 1, n, q + 1, 0);
    } else {
      WrapOf(a + 1, n, q, Wrap(a, n) + 1);
    }
  }

  lemma WrapDistinct(i: nat, j: nat, n: nat)
    requires n > 0 && i < j < i + n
    ensures Wrap(i, n) != Wrap(j, n)
  {
    hide Wrap;
    if Wrap(i, n) == Wrap(j, n) {
      var a := Unwrap(i, n);
      var b := Unwrap(j, n);
      if b < a { TimesGap(b, a, n); } else if a < b { TimesGap(a, b, n); }
      assert false;
    }
  }

  lemma WrapTurn(a: nat, n: nat)
    requires n > 0
    ensures Wrap(a + n, n) == Wrap(a, n)
  {
    hide Wrap;
    var q := Unwrap(a, n);
    assert (q + 1) * n == q * n + n;
    WrapOf(a + n, n, q + 1, Wrap(a, n));
  }

  lemma WrapShift(a: nat, i: nat, n: nat)
    requires n > 0
    ensures Wrap(Wrap(a, n) + i, n) == Wrap(a + i, n)
  {
    hide Wrap;
    var q := Unwrap(a, n);
    var q' := Unwrap(Wrap(a, n) + i, n);
    assert (q + q') * n == q * n + q' * n;
    WrapOf(a + i, n, q + q', Wrap(Wrap(a, n) + i, n));
  }

  /** Where the write pointer is after a stream was captured into an emptied
      ring, whether it came round, and where each byte the ring still holds is. */
  ghost predicate Laid(e: Etr, r: Etr, stream: seq<Byte>)
    requires Emptied(e)
  {
    var s, n := e.rwp - e.base, |e.ram|;
    && |r.ram| == n
    && r.base == e.base && r.rrp == e.rrp
    && (r.wrapped <==> s + |stream| >= n)
    && r.rwp == r.base + Wrap(s + |stream|, n)
    && forall i: nat :: |stream| - n <= i < |stream| ==> r.ram[Wrap(s + i, n)] == stream[i]
  }

  lemma CaptureLays(e: Etr, r: Etr, stream: seq<Byte>, b: Byte)
    requires Emptied(e) && Inside(r, r.rwp) && Laid(e, r, stream)
    ensures Laid(e, Captured(r, b), stream + [b])
  {
    hide Wrap;
    var s, n, k := e.rwp - e.base, |e.ram|, |stream|;
    WrapStep(s + k, n);
    if s + k < n { WrapOf(s + k, n, 0, s + k); }
    var r' := Captured(r, b);
    forall i: nat | k + 1 - n <= i < k + 1 ensures r'.ram[Wrap(s + i, n)] == (stream + [b])[i] {
      if i < k {
        WrapDistinct(s + i, s + k, n);
      }
    }
  }

  lemma {:induction false} RingContents(e: Etr, stream: seq<Byte>)
    requires Emptied(e)
    ensures Laid(e, CapturedAll(e, stream), stream)
    decreases |stream|
  {
    var s, n := e.rwp - e.base, |e.ram|;
    if stream == [] {
      WrapOf(s, n, 0, s);
    } else {
      hide Laid;
      var k := |stream| - 1;
      RingContents(e, stream[..k]);
      CaptureLays(e, CapturedAll(e, stream[..k]), stream[..k], stream[k]);
      assert stream[..k] + [stream[k]] == stream;
    }
  }

  /** The bytes a read returns once `stream` was captured into an emptied ring
      and the hardware reports `wrapped`. */
  function ReadBack(e: Etr, stream: seq<Byte>, wrapped: bool): seq<Byte>
    requires Emptied(e)
  {
    var r := CapturedAll(e, stream).(wrapped := wrapped);
    var p := PendingOf(r);
    if p.Bytes? then ReadFrom(r.ram, p.len, p.start) else []
  }

  lemma WrappedRead(e: Etr, stream: seq<Byte>)
    requires Emptied(e)
    ensures |ReadBack(e, stream, true)| == |e.ram|
    ensures |stream| >= |e.ram| ==> ReadBack(e, stream, true) == Newest(stream, |e.ram|)
  {
    hide Wrap, CapturedAll, ReadFrom;
    RingContents(e, stream);
    var r, s, n := CapturedAll(e, stream), e.rwp - e.base, |e.ram|;
    var got := ReadBack(e, stream, true);
    if |stream| >= n {
      var d := |stream| - n;
      forall i | 0 <= i < n ensures got[i] == Newest(stream, n)[i] {
        ReadAt(r.ram, n, r.rwp - r.base, i);
        WrapShift(s + |stream|, i, n);
        WrapTurn(s + d + i, n);
        assert s + |stream| + i == s + d + i + n && s + d + i == s + (d + i);
      }
    }
  }

  lemma UnwrappedRead(e: Etr, stream: seq<Byte>)
    requires Emptied(e)
    ensures |ReadBack(e, stream, false)| < |e.ram|
    ensures |stream| < |e.ram| ==> ReadBack(e, stream, false) == stream
  {
    hide Wrap, CapturedAll, ReadFrom;
    RingContents(e, stream);
    var r, s, n := CapturedAll(e, stream), e.rwp - e.base, |e.ram|;
    var got := ReadBack(e, stream, false);
    if |stream| < n {
      if s + |stream| < n { WrapOf(s + |stream|, n, 0, s + |stream|); }
      else { WrapOf(s + |stream|, n, 1, s + |stream| - n); }
      forall i | 0 <= i < |stream| ensures got[i] == stream[i] {
        ReadAt(r.ram, |stream|, s, i);
        assert r.ram[Wrap(s + i, n)] == stream[i];
      }
    }
  }

  /** Reading returns exactly the newest bytes the ring can hold, in the order
      they were captured, from any start position, if and only if the wrap flag
      says whether the ring was filled. */
  lemma ReadIsExactIff(e: Etr, stream: seq<Byte>, wrapped: bool)
    requires Emptied(e)
    ensures ReadBack(e, stream, wrapped) == Newest(stream, |e.ram|) <==> (wrapped <==> |stream| >= |e.ram|)
  {
    hide ReadBack;
    WrappedRead(e, stream);
    UnwrappedRead(e, stream);
  }

  /** The bytes a read returns with the flag the hardware has then. */
  function ReadAfter(e: Etr, stream: seq<Byte>): seq<Byte>
    requires Emptied(e)
  {
    ReadBack(e, stream, CapturedAll(e, stream).wrapped)
  }

  /** With the hardware's own flag the read is exact unless the write pointer came
      round before the ring was full, which takes a start above the base and a
      stream that passes the end but does not come back to the start. */
  lemma ReadAfterIsExactIff(e: Etr, stream: seq<Byte>)
    requires Emptied(e)
    ensures var room := e.base + |e.ram| - e.rwp;
            ReadAfter(e, stream) == Newest(stream, |e.ram|) <==> !(room <= |stream| < |e.ram|)
  {
    hide ReadBack, CapturedAll;
    RingContents(e, stream);
    ReadIsExactIff(e, stream, CapturedAll(e, stream).wrapped);
  }

  /** A ring emptied to its base is always read exactly. */
  lemma ReadFromBaseIsExact(e: Etr, stream: seq<Byte>)
    requires Emptied(e) && e.rwp == e.base
    ensures ReadAfter(e, stream) == Newest(stream, |e.ram|)
  {
    hide ReadAfter;
    ReadAfterIsExactIff(e, stream);
  }
}
