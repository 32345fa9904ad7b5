/** From the ring to the decoder: what the hardware wrote between two fetches is
    read out of the ring, appended to the buffer and handed over. */
module TracePath {
  import opened Common
  import EtrRing
  import opened TraceBuffer

  /** A ring of `size` bytes, emptied to its base. */
  predicate Fresh(e: EtrRing.Etr, size: nat) {
    EtrRing.Emptied(e) && e.rwp == e.base && |e.ram| == size
  }

  /** What is left to read of each stream that one ring's filling held. */
  function Survivors(streams: seq<seq<Byte>>, size: nat): (r: seq<seq<Byte>>)
    ensures |r| == |streams|
    ensures forall i :: 0 <= i < |streams| ==> r[i] == EtrRing.Newest(streams[i], size)
  {
    seq(|streams|, i requires 0 <= i < |streams| => EtrRing.Newest(streams[i], size))
  }

  /** Bytes that did not fit their ring. */
  function Overrun(streams: seq<seq<Byte>>, size: nat): nat {
    if streams == [] then 0
    else
      var n := |streams| - 1;
      Overrun(streams[..n], size) + (if |streams[n]| > size then |streams[n]| - size else 0)
  }

  lemma {:induction false} SurvivorsLength(streams: seq<seq<Byte>>, size: nat)
    ensures |Concat(Survivors(streams, size))| + Overrun(streams, size) == |Concat(streams)|
    decreases |streams|
  {
    if streams != [] {
      var n := |streams| - 1;
      SurvivorsLength(streams[..n], size);
      assert Survivors(streams, size)[..n] == Survivors(streams[..n], size);
    }
  }

  lemma {:induction false} OverrunIff(streams: seq<seq<Byte>>, size: nat)
    ensures Overrun(streams, size) == 0 <==> forall i :: 0 <= i < |streams| ==> |streams[i]| <= size
    decreases |streams|
  {
    if streams != [] {
      var n := |streams| - 1;
      OverrunIff(streams[..n], size);
      assert forall i :: 0 <= i < n ==> streams[..n][i] == streams[i];
    }
  }

  /** The whole trace survives exactly if every stream fits the ring. */
  lemma NothingLostIff(streams: seq<seq<Byte>>, size: nat)
    ensures Concat(Survivors(streams, size)) == Concat(streams) <==>
              forall i :: 0 <= i < |streams| ==> |streams[i]| <= size
  {
    SurvivorsLength(streams, size);
    OverrunIff(streams, size);
    if forall i :: 0 <= i < |streams| ==> |streams[i]| <= size {
      assert Survivors(streams, size) == streams;
    }
  }

  /** One execution: stream `i` is captured into a fresh ring and fetched, and the
      decoder takes what has come in so far whenever `decodes(i)` says so and once
      at the end. Without its alignment gaps, what the decoder took is the newest
      bytes of every stream, in order; that is the whole trace if and only if
      every stream fits the ring. */
  method CollectTrace(b: Buffer, rings: seq<EtrRing.Etr>, streams: seq<seq<Byte>>, size: nat, decodes: nat -> bool)
    requires b.Valid() && b.chunks == [] && b.decoded == 0 && b.buf.Length % 8 == 0
    requires |rings| == |streams| && size <= INT_MAX && forall i :: 0 <= i < |rings| ==> Fresh(rings[i], size)
    modifies b, b.buf
    ensures b.Valid() && b.chunks == Survivors(streams, size)
    ensures Span(Lengths(b.chunks)) <= |b.handed|
    ensures Unpacked(b.handed, Lengths(b.chunks)) == Concat(Survivors(streams, size))
    ensures Unpacked(b.handed, Lengths(b.chunks)) == Concat(streams) <==>
              forall i :: 0 <= i < |streams| ==> |streams[i]| <= size
  {
    hide Unpacked, Span, Packed, End;
    for i := 0 to |streams|
      invariant b.Valid() && b.chunks == Survivors(streams, size)[..i] && b.buf.Length % 8 == 0
      invariant b.buf == old(b.buf) || fresh(b.buf)
    {
      EtrRing.ReadFromBaseIsExact(rings[i], streams[i]);
      var data := EtrRing.ReadAfter(rings[i], streams[i]);
      hide EtrRing.ReadAfter;
      var inside := b.Fetch(|data|, data);
      if decodes(i) {
        var _ := b.Decode(true);
      }
    }
    var _ := b.Decode(true);
    NothingLostIff(streams, size);
  }
}
