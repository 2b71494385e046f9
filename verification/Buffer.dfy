/**
  The deployment buffer of `resume_devnet_buffer.py`: which chunks are missing, and why writing them
  in any order, twice or not at all, only ever brings the buffer closer to the binary.
 */
module Buffer {
  import opened Bytes

  const CHUNK := 700

  datatype Write = Write(offset: nat, data: seq<Byte>)

  function End(offset: nat, length: nat): nat { if offset + CHUNK < length then offset + CHUNK else length }

  /** The chunk at an offset, cut short at the end. */
  function Chunk(s: seq<Byte>, offset: nat): (c: seq<Byte>)
    ensures offset < |s| ==> |c| == End(offset, |s|) - offset > 0
  {
    if offset < |s| then s[offset..End(offset, |s|)] else []
  }

  predicate Differs(previous: seq<Byte>, binary: seq<Byte>, offset: nat) { Chunk(previous, offset) != Chunk(binary, offset) }

  function IfDiffers(previous: seq<Byte>, binary: seq<Byte>, offset: nat): seq<Write> {
    if Differs(previous, binary, offset) then [Write(offset, Chunk(binary, offset))] else []
  }

  /** Of the first `n` chunks, those not yet in place. */
  function MissingOf(previous: seq<Byte>, binary: seq<Byte>, n: nat): seq<Write>
    requires n == 0 || (n - 1) * CHUNK < |binary|
  {
    if n == 0 then []
    else
      var offset := (n - 1) * CHUNK;
      MissingOf(previous, binary, n - 1) + IfDiffers(previous, binary, offset)
  }

  function Chunks(length: nat): (n: nat)
    ensures n * CHUNK >= length && (n == 0 || (n - 1) * CHUNK < length)
  {
    (length + CHUNK - 1) / CHUNK
  }

  function Missing(previous: seq<Byte>, binary: seq<Byte>): seq<Write> { MissingOf(previous, binary, Chunks(|binary|)) }

  method PendingChunks(previous: seq<Byte>, binary: seq<Byte>) returns (missing: seq<Write>)
    ensures missing == Missing(previous, binary)
  {
    missing := [];
    var offset := 0;
    ghost var n := 0;
    while offset < |binary|
      invariant offset == n * CHUNK && (n == 0 || (n - 1) * CHUNK < |binary|)
      invariant missing == MissingOf(previous, binary, n)
    {
      if Differs(previous, binary, offset) {
        missing := missing + [Write(offset, Chunk(binary, offset))];
      }
      offset := offset + CHUNK;
      n := n + 1;
    }
    LastChunk(|binary|, n);
  }

  lemma LastChunk(length: nat, n: nat)
    requires n * CHUNK >= length && (n == 0 || (n - 1) * CHUNK < length)
    ensures n == Chunks(length)
  {}

  ghost predicate Covers(w: Write, i: int) { w.offset <= i < w.offset + |w.data| }

  /** What the loader's write instruction does to the account. */
  function Written(buffer: seq<Byte>, w: Write): (after: seq<Byte>)
    requires w.offset + |w.data| <= |buffer|
    ensures |after| == |buffer|
    ensures forall i :: 0 <= i < |after| ==> after[i] == if Covers(w, i) then w.data[i - w.offset] else buffer[i]
  {
    buffer[..w.offset] + w.data + buffer[w.offset + |w.data|..]
  }

  /** A write of some chunk of the binary. */
  ghost predicate FromBinary(binary: seq<Byte>, w: Write) {
    && w.offset < |binary| && w.offset + |w.data| == End(w.offset, |binary|)
    && forall j :: w.offset <= j < w.offset + |w.data| ==> w.data[j - w.offset] == binary[j]
  }

  lemma ChunkIsFromBinary(binary: seq<Byte>, offset: nat)
    requires offset < |binary|
    ensures FromBinary(binary, Write(offset, Chunk(binary, offset)))
  {}

  lemma FromBinaryIsChunk(binary: seq<Byte>, w: Write)
    requires FromBinary(binary, w)
    ensures w == Write(w.offset, Chunk(binary, w.offset))
  {
    assert w.data == Chunk(binary, w.offset);
  }

  /** The buffer after the writes that arrived, in the order they did. */
  function Delivered(buffer: seq<Byte>, binary: seq<Byte>, ws: seq<Write>): (after: seq<Byte>)
    requires |buffer| == |binary| && forall k :: 0 <= k < |ws| ==> FromBinary(binary, ws[k])
    ensures |after| == |binary|
  {
    if ws == [] then buffer
    else
      assert FromBinary(binary, ws[|ws| - 1]);
      Written(Delivered(buffer, binary, ws[..|ws| - 1]), ws[|ws| - 1])
  }

  /** The loader copies the data over the account, byte by byte. */
  method Apply(account: array<Byte>, w: Write)
    requires w.offset + |w.data| <= account.Length
    modifies account
    ensures account[..] == Written(old(account[..]), w)
  {
    for i := 0 to |w.data|
      invariant forall j :: 0 <= j < account.Length ==>
                              account[j] == if w.offset <= j < w.offset + i then w.data[j - w.offset] else old(account[j])
    {
      account[w.offset + i] := w.data[i];
    }
  }

  method DeliverAll(account: array<Byte>, binary: seq<Byte>, ws: seq<Write>)
    requires account.Length == |binary| && forall k :: 0 <= k < |ws| ==> FromBinary(binary, ws[k])
    modifies account
    ensures account[..] == Delivered(old(account[..]), binary, ws)
  {
    for k := 0 to |ws|
      invariant account[..] == Delivered(old(account[..]), binary, ws[..k])
    {
      assert FromBinary(binary, ws[k]);
      Apply(account, ws[k]);
      assert ws[..k + 1][..k] == ws[..k];
    }
    assert ws[..|ws|] == ws;
  }

  ghost predicate AnyCovers(ws: seq<Write>, i: int) { exists k :: 0 <= k < |ws| && Covers(ws[k], i) }

  lemma AnyCoversNext(ws: seq<Write>, i: int)
    requires ws != []
    ensures AnyCovers(ws, i) <==> AnyCovers(ws[..|ws| - 1], i) || Covers(ws[|ws| - 1], i)
  {
    var n := |ws| - 1;
    if AnyCovers(ws[..n], i) {
      var k :| 0 <= k < n && Covers(ws[..n][k], i);
      assert Covers(ws[k], i);
    }
    if k :| 0 <= k < |ws| && Covers(ws[k], i) {
      if k < n { assert Covers(ws[..n][k], i); }
    }
  }

  /** A byte is right after the writes exactly when it was before, or one of them covers it with the right value. */
  lemma {:induction false} EachByte(buffer: seq<Byte>, binary: seq<Byte>, ws: seq<Write>, i: nat)
    requires |buffer| == |binary| && i < |binary| && forall k :: 0 <= k < |ws| ==> FromBinary(binary, ws[k])
    ensures Delivered(buffer, binary, ws)[i] == if AnyCovers(ws, i) then binary[i] else buffer[i]
  {
    if ws != [] {
      var n := |ws| - 1;
      EachByte(buffer, binary, ws[..n], i);
      AnyCoversNext(ws, i);
      assert FromBinary(binary, ws[n]);
    }
  }

  /** Whatever arrives, in any order and any number of times, no byte already right is spoiled. */
  lemma NothingIsSpoiled(buffer: seq<Byte>, binary: seq<Byte>, ws: seq<Write>, i: nat)
    requires |buffer| == |binary| && i < |binary| && forall k :: 0 <= k < |ws| ==> FromBinary(binary, ws[k])
    requires buffer[i] == binary[i]
    ensures Delivered(buffer, binary, ws)[i] == binary[i]
  {
    EachByte(buffer, binary, ws, i);
  }

  ghost predicate Aligned(offset: nat) { offset % CHUNK == 0 }

  lemma Gap(a: nat, b: nat)
    requires Aligned(a) && Aligned(b)
    ensures a < b ==> a + CHUNK <= b
  {}

  /** The chunk of the binary at an offset is wanted there. */
  ghost predicate Wanted(previous: seq<Byte>, binary: seq<Byte>, w: Write) {
    w.offset < |binary| && w == Write(w.offset, Chunk(binary, w.offset)) && Differs(previous, binary, w.offset)
  }

  lemma MultipleIsAligned(k: nat)
    ensures Aligned(k * CHUNK)
  {}

  lemma IfDiffersMembers(previous: seq<Byte>, binary: seq<Byte>, offset: nat, w: Write)
    requires offset < |binary|
    ensures w in IfDiffers(previous, binary, offset) <==> w.offset == offset && Wanted(previous, binary, w)
  {}

  /** The multiples below the next multiple are those below this one, and this one. */
  lemma NextMultiple(m: nat, offset: nat)
    requires Aligned(offset)
    ensures offset < (m + 1) * CHUNK <==> offset < m * CHUNK || offset == m * CHUNK
  {
    MultipleIsAligned(m);
    Gap(m * CHUNK, offset);
  }

  lemma InEither(w: Write, a: seq<Write>, b: seq<Write>)
    ensures w in a + b <==> w in a || w in b
  {}

  lemma {:induction false} MissingOfMembers(previous: seq<Byte>, binary: seq<Byte>, n: nat, w: Write)
    requires n == 0 || (n - 1) * CHUNK < |binary|
    ensures w in MissingOf(previous, binary, n) <==>
            Aligned(w.offset) && w.offset < n * CHUNK && Wanted(previous, binary, w)
  {
    if n > 0 {
      var m := n - 1;
      MissingOfMembers(previous, binary, m, w);
      IfDiffersMembers(previous, binary, m * CHUNK, w);
      InEither(w, MissingOf(previous, binary, m), IfDiffers(previous, binary, m * CHUNK));
      MultipleIsAligned(m);
      if Aligned(w.offset) { NextMultiple(m, w.offset); }
    }
  }

  /** The list holds exactly the wanted chunks at multiples of the chunk size. */
  lemma MissingMembers(previous: seq<Byte>, binary: seq<Byte>, w: Write)
    ensures w in Missing(previous, binary) <==> Aligned(w.offset) && Wanted(previous, binary, w)
  {
    MissingOfMembers(previous, binary, Chunks(|binary|), w);
  }

  /** `s[offset:offset + 700]` */
  function Slice(s: seq<Byte>, offset: nat): seq<Byte> {
    if offset >= |s| then [] else if offset + 700 >= |s| then s[offset..] else s[offset..offset + 700]
  }

  /** In numbers: a write is listed exactly for an offset in the binary at a multiple of 700 where the two slices differ. */
  lemma ListedExactlyWhen(previous: seq<Byte>, binary: seq<Byte>, w: Write)
    ensures w in Missing(previous, binary) <==>
            && w.offset % 700 == 0 && w.offset < |binary|
            && w.data == Slice(binary, w.offset) && w.data != Slice(previous, w.offset)
  {
    MissingMembers(previous, binary, w);
    assert Slice(binary, w.offset) == Chunk(binary, w.offset) && Slice(previous, w.offset) == Chunk(previous, w.offset);
  }

  lemma {:induction false} OffsetsBelow(previous: seq<Byte>, binary: seq<Byte>, n: nat)
    requires n == 0 || (n - 1) * CHUNK < |binary|
    ensures forall i :: 0 <= i < |MissingOf(previous, binary, n)| ==> MissingOf(previous, binary, n)[i].offset < n * CHUNK
    ensures forall i, j :: 0 <= i < j < |MissingOf(previous, binary, n)| ==>
                             MissingOf(previous, binary, n)[i].offset < MissingOf(previous, binary, n)[j].offset
  {
    if n > 0 { OffsetsBelow(previous, binary, n - 1); }
  }

  /** Nothing is listed twice, and the offsets rise. */
  lemma OffsetsRise(previous: seq<Byte>, binary: seq<Byte>)
    ensures var missing := Missing(previous, binary);
            forall i, j :: 0 <= i < j < |missing| ==> missing[i].offset < missing[j].offset
  {
    OffsetsBelow(previous, binary, Chunks(|binary|));
  }

  /** Every byte lies in the chunk at the multiple below it. */
  lemma ChunkOf(length: nat, i: nat) returns (offset: nat)
    requires i < length
    ensures Aligned(offset) && offset <= i < End(offset, length) && offset < length
  {
    offset := i - i % CHUNK;
  }

  lemma DiffersAt(previous: seq<Byte>, binary: seq<Byte>, offset: nat, i: nat)
    requires |previous| == |binary| && offset <= i < End(offset, |binary|) && i < |binary| && previous[i] != binary[i]
    ensures Differs(previous, binary, offset)
  {
    assert Chunk(previous, offset)[i - offset] != Chunk(binary, offset)[i - offset];
  }

  /** When everything listed as missing has arrived, whatever else has too, the buffer is the binary. */
  lemma AllDelivered(buffer: seq<Byte>, binary: seq<Byte>, ws: seq<Write>)
    requires |buffer| == |binary| && forall k :: 0 <= k < |ws| ==> FromBinary(binary, ws[k])
    requires forall w :: w in Missing(buffer, binary) ==> w in ws
    ensures Delivered(buffer, binary, ws) == binary
  {
    forall i | 0 <= i < |binary| ensures Delivered(buffer, binary, ws)[i] == binary[i] {
      EachByte(buffer, binary, ws, i);
      if buffer[i] != binary[i] { WrongByteIsCovered(buffer, binary, ws, i); }
    }
  }

  lemma WrongByteIsCovered(buffer: seq<Byte>, binary: seq<Byte>, ws: seq<Write>, i: nat)
    requires |buffer| == |binary| && i < |binary| && buffer[i] != binary[i]
    requires forall w :: w in Missing(buffer, binary) ==> w in ws
    ensures AnyCovers(ws, i)
  {
    var offset := ChunkOf(|binary|, i);
    var w := Write(offset, Chunk(binary, offset));
    DiffersAt(buffer, binary, offset, i);
    MissingMembers(buffer, binary, w);
    var k :| 0 <= k < |ws| && ws[k] == w;
    assert Covers(ws[k], i);
  }

  lemma ListedIsFromBinary(buffer: seq<Byte>, binary: seq<Byte>, w: Write)
    requires w in Missing(buffer, binary)
    ensures FromBinary(binary, w) && Aligned(w.offset)
  {
    MissingMembers(buffer, binary, w);
    ChunkIsFromBinary(binary, w.offset);
  }

  /** A later run lists exactly the chunks of the first list that did not arrive. */
  lemma RerunListsTheRest(buffer: seq<Byte>, binary: seq<Byte>, ws: seq<Write>, w: Write)
    requires |buffer| == |binary| && forall k :: 0 <= k < |ws| ==> ws[k] in Missing(buffer, binary)
    ensures forall k :: 0 <= k < |ws| ==> FromBinary(binary, ws[k])
    ensures w in Missing(Delivered(buffer, binary, ws), binary) <==> w in Missing(buffer, binary) && w !in ws
  {
    forall k | 0 <= k < |ws| ensures FromBinary(binary, ws[k]) && Aligned(ws[k].offset) {
      ListedIsFromBinary(buffer, binary, ws[k]);
    }
    MissingMembers(buffer, binary, w);
    MissingMembers(Delivered(buffer, binary, ws), binary, w);
    if Aligned(w.offset) && w.offset < |binary| && w == Write(w.offset, Chunk(binary, w.offset)) {
      ChunkAfter(buffer, binary, ws, w);
    }
  }

  /** A chunk is in place after aligned writes exactly when it was, or one of them wrote it. */
  lemma ChunkAfter(buffer: seq<Byte>, binary: seq<Byte>, ws: seq<Write>, w: Write)
    requires |buffer| == |binary| && forall k :: 0 <= k < |ws| ==> FromBinary(binary, ws[k]) && Aligned(ws[k].offset)
    requires w.offset < |binary| && Aligned(w.offset) && w == Write(w.offset, Chunk(binary, w.offset))
    ensures Differs(Delivered(buffer, binary, ws), binary, w.offset) <==> Differs(buffer, binary, w.offset) && w !in ws
  {
    var after := Delivered(buffer, binary, ws);
    if w in ws {
      forall i | w.offset <= i < End(w.offset, |binary|) ensures after[i] == binary[i] {
        EachByte(buffer, binary, ws, i);
        var k :| 0 <= k < |ws| && ws[k] == w;
        assert Covers(ws[k], i);
      }
      SameChunk(after, binary, w.offset);
    } else {
      forall i | w.offset <= i < End(w.offset, |binary|) ensures after[i] == buffer[i] {
        EachByte(buffer, binary, ws, i);
        forall k | 0 <= k < |ws| ensures !Covers(ws[k], i) { OnlyOneCovers(binary, w, ws[k], i); }
      }
      SameChunk(after, buffer, w.offset);
    }
  }

  lemma SameChunk(a: seq<Byte>, b: seq<Byte>, offset: nat)
    requires |a| == |b| && offset < |a| && forall i :: offset <= i < End(offset, |a|) ==> a[i] == b[i]
    ensures Chunk(a, offset) == Chunk(b, offset)
  {}

  lemma OnlyOneCovers(binary: seq<Byte>, w: Write, v: Write, i: nat)
    requires FromBinary(binary, v) && Aligned(w.offset) && Aligned(v.offset) && w.offset < |binary|
    requires w == Write(w.offset, Chunk(binary, w.offset)) && w != v && Covers(w, i)
    ensures !Covers(v, i)
  {
    FromBinaryIsChunk(binary, v);
    Gap(v.offset, w.offset);
    Gap(w.offset, v.offset);
  }
}
