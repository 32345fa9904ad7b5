/** The growing buffer between the ETR and the decoder: each fetch lands on an
    8-byte boundary, each decode takes everything not yet decoded. */
module TraceBuffer {
  import opened Common

  const DEFAULT_SIZE := 0x80_0000

  function AlignUp(x: nat): (r: nat)
    ensures x <= r < x + 8
  {
    (x + 7) / 8 * 8
  }

  /** The next whole word: no word boundary lies in between. */
  lemma AlignUpIsNextWord(x: nat, size: nat)
    ensures AlignUp(x) % 8 == 0
    ensures size % 8 == 0 && x <= size ==> AlignUp(x) <= size
  {
  }

  /** A mapping is at least as large as the ETR. */
  function MappedSize(etrSize: nat): nat { if etrSize > DEFAULT_SIZE then etrSize else DEFAULT_SIZE }

  /** One fetch of a whole ETR always fits a fresh mapping, which is no larger than
      that or the default of 8 MiB asks for. */
  lemma WholeRingFits(etrSize: nat)
    ensures MappedSize(etrSize) >= etrSize && MappedSize(etrSize) >= 8 * 1024 * 1024
    ensures MappedSize(etrSize) == etrSize || MappedSize(etrSize) == 8 * 1024 * 1024
  {
  }

  // -------------------------------------------------- layout of the chunks

  /** Where the chunks fetched so far end. */
  function End(chunks: seq<seq<Byte>>): nat
    decreases |chunks|, 1
  {
    if chunks == [] then 0 else Start(chunks) + |chunks[|chunks| - 1]|
  }

  /** Where the last chunk starts. */
  function Start(chunks: seq<seq<Byte>>): nat
    requires chunks != []
    decreases |chunks|, 0
  {
    AlignUp(End(chunks[..|chunks| - 1]))
  }

  /** Every chunk is at its place in `content`. */
  ghost predicate Packed(content: seq<Byte>, chunks: seq<seq<Byte>>)
    decreases |chunks|
  {
    chunks == [] ||
    (&& End(chunks) <= |content|
     && content[Start(chunks)..End(chunks)] == chunks[|chunks| - 1]
     && Packed(content, chunks[..|chunks| - 1]))
  }

  /** `content` without the alignment gaps, which depend on the chunk lengths
      alone. */
  function Unpacked(content: seq<Byte>, lengths: seq<nat>): seq<Byte>
    requires Span(lengths) <= |content|
    decreases |lengths|
  {
    if lengths == [] then []
    else
      var n := |lengths| - 1;
      Unpacked(content, lengths[..n]) + content[AlignUp(Span(lengths[..n]))..Span(lengths)]
  }

  /** Bytes that chunks of these lengths span, gaps included. */
  function Span(lengths: seq<nat>): nat {
    if lengths == [] then 0
    else AlignUp(Span(lengths[..|lengths| - 1])) + lengths[|lengths| - 1]
  }

  function Lengths(chunks: seq<seq<Byte>>): (r: seq<nat>)
    ensures |r| == |chunks|
  {
    seq(|chunks|, i requires 0 <= i < |chunks| => |chunks[i]|)
  }

  function Concat(chunks: seq<seq<Byte>>): seq<Byte> {
    if chunks == [] then [] else Concat(chunks[..|chunks| - 1]) + chunks[|chunks| - 1]
  }

  lemma {:induction false} SpanIsEnd(chunks: seq<seq<Byte>>)
    ensures Span(Lengths(chunks)) == End(chunks)
    decreases |chunks|
  {
    if chunks != [] {
      var n := |chunks| - 1;
      SpanIsEnd(chunks[..n]);
      assert Lengths(chunks)[..n] == Lengths(chunks[..n]);
    }
  }

  /** Dropping the gaps from what the decoder was handed leaves exactly the
      fetched bytes, each once and in order. */
  lemma {:induction false} HandedOnceInOrder(content: seq<Byte>, chunks: seq<seq<Byte>>)
    requires Packed(content, chunks) && End(chunks) <= |content|
    ensures Span(Lengths(chunks)) <= |content|
    ensures Unpacked(content, Lengths(chunks)) == Concat(chunks)
    decreases |chunks|
  {
    SpanIsEnd(chunks);
    if chunks != [] {
      var n := |chunks| - 1;
      assert Lengths(chunks)[..n] == Lengths(chunks[..n]);
      SpanIsEnd(chunks[..n]);
      HandedOnceInOrder(content, chunks[..n]);
    }
  }

  /** Whole frames leave no gap: what was fetched is then what is handed over. */
  lemma {:induction false} WholeFramesHaveNoGap(content: seq<Byte>, chunks: seq<seq<Byte>>)
    requires Packed(content, chunks) && End(chunks) <= |content|
    requires forall i :: 0 <= i < |chunks| ==> |chunks[i]| % 8 == 0
    ensures content[..End(chunks)] == Concat(chunks) && End(chunks) % 8 == 0
    decreases |chunks|
  {
    if chunks != [] {
      var n := |chunks| - 1;
      WholeFramesHaveNoGap(content, chunks[..n]);
      assert |chunks[n]| % 8 == 0;
      var s := Start(chunks);
      assert s == End(chunks[..n]);
      assert content[..End(chunks)] == content[..s] + content[s..End(chunks)];
    }
  }

  lemma {:induction false} PackedPrefix(content: seq<Byte>, content': seq<Byte>, chunks: seq<seq<Byte>>, n: nat)
    requires Packed(content, chunks) && End(chunks) <= n <= |content| && n <= |content'|
    requires content[..n] == content'[..n]
    ensures Packed(content', chunks)
    decreases |chunks|
  {
    if chunks != [] {
      PackedPrefix(content, content', chunks[..|chunks| - 1], n);
      var s, e := Start(chunks), End(chunks);
      assert content'[s..e] == content'[..n][s..e] == content[..n][s..e] == content[s..e];
    }
  }

  lemma PackedNext(was: seq<Byte>, now: seq<Byte>, chunks: seq<seq<Byte>>, data: seq<Byte>)
    requires Packed(was, chunks) && End(chunks) <= |was|
    requires AlignUp(End(chunks)) + |data| <= |now| && now[..End(chunks)] == was[..End(chunks)]
    requires now[AlignUp(End(chunks))..AlignUp(End(chunks)) + |data|] == data
    ensures Packed(now, chunks + [data]) && End(chunks + [data]) == AlignUp(End(chunks)) + |data|
  {
    PackedPrefix(was, now, chunks, End(chunks));
    assert (chunks + [data])[..|chunks|] == chunks;
  }

  /** Copying `data` behind what is packed packs it too. */
  lemma PackedAppend(was: seq<Byte>, now: seq<Byte>, chunks: seq<seq<Byte>>, data: seq<Byte>,
                     decoded: nat, end: nat, at: nat)
    requires Packed(was, chunks) && decoded <= end == End(chunks) <= |was| && at == AlignUp(end)
    requires at + |data| <= |now|
    requires forall i :: 0 <= i < end ==> now[i] == was[i]
    requires forall i :: 0 <= i < |data| ==> now[at + i] == data[i]
    ensures Packed(now, chunks + [data]) && End(chunks + [data]) == at + |data|
    ensures now[..decoded] == was[..decoded] && now[..end] == was[..end]
  {
    hide Packed, End, AlignUp;
    assert now[..end] == was[..end];
    assert now[at..at + |data|] == data;
    PackedNext(was, now, chunks, data);
  }

  // --------------------------------------------------------------- growth

  function Doubled(size: nat, times: nat): nat {
    if times == 0 then size else 2 * Doubled(size, times - 1)
  }

  /** `size` doubled until `need` bytes fit. */
  function GrowTo(size: nat, need: nat): (grown: nat)
    requires size > 0
    ensures grown >= need && grown >= size
    decreases need - size
  {
    if size >= need then size else GrowTo(2 * size, need)
  }

  lemma {:induction false} GrowsInWords(size: nat, need: nat)
    requires size > 0 && size % 8 == 0
    ensures GrowTo(size, need) % 8 == 0
    decreases need - size
  {
    if size < need { GrowsInWords(2 * size, need); }
  }

  /** The smallest number of doublings, at least one, that fits `need` bytes. */
  method GrownSize(size: nat, need: nat) returns (grown: nat, ghost times: nat)
    requires 0 < size < need
    ensures grown == GrowTo(size, need)
    ensures times > 0 && grown == Doubled(size, times) && grown >= need
    ensures Doubled(size, times - 1) < need
  {
    grown, times := size * 2, 1;
    while grown < need
      invariant times > 0 && grown == Doubled(size, times) && grown > 0
      invariant Doubled(size, times - 1) < need
      invariant GrowTo(grown, need) == GrowTo(size, need)
      decreases need - grown
    {
      grown, times := grown * 2, times + 1;
    }
  }

  // -------------------------------------------------------------- cursors

  const SIZE_MAX_PLUS_ONE := 0x1_0000_0000_0000_0000
  const INT_MAX := 0x7fff_ffff

  /** `size - at` as a `size_t`: huge when the cursor is past the end. */
  function Remain(size: nat, at: nat): int {
    if at <= size then size - at else SIZE_MAX_PLUS_ONE - (at - size)
  }

  /** The size after making room for `len` bytes at `at`. */
  function Enlarged(size: nat, at: nat, len: nat): (r: nat)
    requires size > 0
    ensures r >= size && (at <= size ==> r >= at + len)
  {
    if len > Remain(size, at) then GrowTo(size, at + len) else size
  }

  /** The buffer's size and its write cursor. */
  datatype Cursors = Cursors(size: nat, ptr: nat)

  predicate InOrder(c: Cursors) { c.ptr <= c.size }

  /** One fetch: `len` bytes are pending and `n` are read. */
  datatype Got = Got(len: nat, n: nat)

  predicate Possible(g: Got) { g.n <= g.len <= INT_MAX }

  function Fetched(c: Cursors, g: Got): (r: Cursors)
    requires c.size > 0
    ensures r.size > 0
  {
    var at := AlignUp(c.ptr);
    Cursors(Enlarged(c.size, at, g.len), at + g.n)
  }

  /** A fetch stays inside exactly when the aligned cursor is. */
  lemma FetchedInside(c: Cursors, g: Got)
    requires c.size > 0 && InOrder(c) && Possible(g)
    ensures InOrder(Fetched(c, g)) <==> AlignUp(c.ptr) <= c.size
    ensures c.size % 8 == 0 ==> InOrder(Fetched(c, g)) && Fetched(c, g).size % 8 == 0
  {
    AlignUpIsNextWord(c.ptr, c.size);
    if c.size % 8 == 0 { GrowsInWords(c.size, AlignUp(c.ptr) + g.len); }
    hide AlignUp, GrowTo;
  }

  function FetchedAll(c: Cursors, gots: seq<Got>): (r: Cursors)
    requires c.size > 0
    ensures r.size > 0
  {
    if gots == [] then c else Fetched(FetchedAll(c, gots[..|gots| - 1]), gots[|gots| - 1])
  }

  lemma {:induction false} WholeWordsStayInOrder(size: nat, gots: seq<Got>)
    requires size > 0 && size % 8 == 0 && forall i :: 0 <= i < |gots| ==> Possible(gots[i])
    ensures var c := FetchedAll(Cursors(size, 0), gots); InOrder(c) && c.size % 8 == 0
  {
    if gots != [] {
      hide Fetched, InOrder, Possible;
      WholeWordsStayInOrder(size, gots[..|gots| - 1]);
      FetchedInside(FetchedAll(Cursors(size, 0), gots[..|gots| - 1]), gots[|gots| - 1]);
    }
  }

  /** Filling a buffer of another size and fetching one byte more. */
  lemma FillThenFetch(size: nat)
    requires 0 < size <= INT_MAX && size % 8 != 0
    ensures !InOrder(FetchedAll(Cursors(size, 0), [Got(size, size), Got(1, 1)]))
  {
    var gots := [Got(size, size), Got(1, 1)];
    assert gots[..1] == [Got(size, size)] && [Got(size, size)][..0] == [];
    assert FetchedAll(Cursors(size, 0), gots[..1]) == Cursors(size, size);
  }

  /** The write cursor stays within the buffer over every sequence of fetches if
      and only if the buffer was sized to whole 8-byte words. */
  lemma CursorsInOrderIff(size: nat)
    requires 0 < size <= INT_MAX
    ensures (forall gots: seq<Got> :: (forall i :: 0 <= i < |gots| ==> Possible(gots[i]))
                ==> InOrder(FetchedAll(Cursors(size, 0), gots)))
        <==> size % 8 == 0
  {
    hide FetchedAll;
    if size % 8 == 0 {
      forall gots: seq<Got> | forall i :: 0 <= i < |gots| ==> Possible(gots[i])
        ensures InOrder(FetchedAll(Cursors(size, 0), gots))
      {
        WholeWordsStayInOrder(size, gots);
      }
    } else {
      FillThenFetch(size);
      var gots := [Got(size, size), Got(1, 1)];
      assert forall i :: 0 <= i < |gots| ==> Possible(gots[i]);
    }
  }

  // --------------------------------------------------------------- buffer

  class Buffer {
    var buf: array<Byte>
    var ptr: nat      // end of what was fetched
    var decoded: nat  // end of what was decoded

    ghost var chunks: seq<seq<Byte>>  // what each fetch of this execution got
    ghost var handed: seq<Byte>       // what the decoder took, concatenated

    function Where(): Cursors
      reads this
    {
      Cursors(buf.Length, ptr)
    }

    ghost predicate Valid()
      reads this, buf
    {
      && buf.Length > 0
      && decoded <= ptr <= buf.Length
      && ptr == End(chunks) && Packed(buf[..], chunks)
      && handed == buf[..decoded]
    }

    /** A first mapping, at least as large as the ETR. */
    constructor (etrSize: nat)
      ensures Valid() && fresh(buf) && Where() == Cursors(MappedSize(etrSize), 0)
      ensures chunks == [] && handed == [] && decoded == 0
    {
      buf := new Byte[MappedSize(etrSize)](i => 0);
      ptr, decoded := 0, 0;
      chunks, handed := [], [];
    }

    /** A new execution: the pages are reused as they are when the ETR is read
        directly, and mapped afresh otherwise. */
    method Reset(direct: bool, etrSize: nat)
      requires Valid()
      modifies this
      ensures Valid() && (direct ==> buf == old(buf)) && (!direct ==> fresh(buf) && buf.Length == MappedSize(etrSize))
      ensures chunks == [] && handed == [] && ptr == decoded == 0
    {
      if !direct {
        buf := new Byte[MappedSize(etrSize)](i => 0);
      }
      ptr, decoded := 0, 0;
      chunks, handed := [], [];
    }

    /** Make room for `len` bytes at `at`; earlier bytes and cursors stay. */
    method MakeRoom(at: nat, len: nat)
      requires 0 < buf.Length && at <= buf.Length
      modifies this`buf
      ensures buf == old(buf) || fresh(buf)
      ensures buf.Length == Enlarged(old(buf.Length), at, len)
      ensures forall i :: 0 <= i < old(buf.Length) ==> buf[i] == old(buf[i])
    {
      if len > buf.Length - at {
        var size, _ := GrownSize(buf.Length, at + len);
        var grown := new Byte[size](i => 0);
        forall i | 0 <= i < buf.Length { grown[i] := buf[i]; }
        buf := grown;
      }
    }

    /** `fetch_trace`: `len` bytes are pending and `data` is what could be read.
        A buffer that is not whole words can have its cursor aligned past its end;
        the code then copies there, and the model stops (`inside` is false). */
    method Fetch(len: nat, data: seq<Byte>) returns (inside: bool)
      requires Valid() && Possible(Got(len, |data|))
      modifies this, buf
      ensures Valid() && (buf == old(buf) || fresh(buf))
      ensures inside <==> InOrder(Fetched(old(Where()), Got(len, |data|)))
      ensures old(buf.Length) % 8 == 0 ==> inside && buf.Length % 8 == 0
      ensures !inside ==> Where() == old(Where()) && chunks == old(chunks) && buf[..] == old(buf[..])
      ensures inside ==> Where() == Fetched(old(Where()), Got(len, |data|)) && chunks == old(chunks) + [data]
      ensures decoded == old(decoded) && handed == old(handed)
      ensures old(buf.Length) <= buf.Length && buf[..old(ptr)] == old(buf[..ptr])
    {
      FetchedInside(Where(), Got(len, |data|));
      inside := AlignUp(ptr) <= buf.Length;
      hide AlignUp, End, Packed, Enlarged, InOrder;
      if inside { Append(len, data); }
    }

    /** Align, make room, copy. */
    method Append(len: nat, data: seq<Byte>)
      requires Valid() && |data| <= len && AlignUp(ptr) <= buf.Length
      modifies this, buf
      ensures Valid() && (buf == old(buf) || fresh(buf))
      ensures ptr == AlignUp(old(ptr)) + |data|
      ensures buf.Length == Enlarged(old(buf.Length), AlignUp(old(ptr)), len)
      ensures chunks == old(chunks) + [data]
      ensures decoded == old(decoded) && handed == old(handed)
      ensures old(buf.Length) <= buf.Length && buf[..old(ptr)] == old(buf[..ptr])
    {
      var at := AlignUp(ptr);
      ghost var was, end := buf[..], ptr;
      hide AlignUp, End, Packed, Enlarged;
      MakeRoom(at, len);
      Place(at, data);
      ptr := at + |data|;
      ghost var now := buf[..];
      PackedAppend(was, now, chunks, data, decoded, end, at);
      chunks := chunks + [data];
    }

    method Place(at: nat, data: seq<Byte>)
      requires at + |data| <= buf.Length
      modifies buf
      ensures forall i :: 0 <= i < at ==> buf[i] == old(buf[i])
      ensures forall i :: 0 <= i < |data| ==> buf[at + i] == data[i]
    {
      forall i | 0 <= i < |data| { buf[at + i] := data[i]; }
    }

    /** `decode_trace`: hand over everything not decoded yet; a decoder that
        rejects it leaves the cursor where it was. */
    method Decode(accepted: bool) returns (taken: seq<Byte>)
      requires Valid()
      modifies this`decoded, this`handed
      ensures Valid()
      ensures taken == buf[old(decoded)..ptr]
      ensures decoded == (if accepted then ptr else old(decoded))
      ensures handed == old(handed) + (if accepted then taken else [])
      ensures accepted ==> Span(Lengths(chunks)) <= |handed| && Unpacked(handed, Lengths(chunks)) == Concat(chunks)
    {
      taken := buf[decoded..ptr];
      if accepted {
        assert buf[..ptr] == buf[..decoded] + taken;
        decoded := ptr;
        handed := handed + taken;
        PackedPrefix(buf[..], handed, chunks, ptr);
        HandedOnceInOrder(handed, chunks);
      } else {
        assert handed + [] == handed;
      }
    }
  }
}
