/** Writing and reading put together. */
module ObjectTheorems {
  import opened Basics
  import opened KeyOrder
  import opened Objects
  import opened ObjectRead
  import Writes = ObjectWrite

  /** What a write made reads back: looked up by their names in whatever store the requests were carried out,
      its chunks fit their references, and every window of them is that window of the body. */
  lemma WrittenReadsBack(store: Writes.Store, prefix: string, sum: Writes.Sum, data: seq<byte>, size: nat, off: nat,
                         length: nat)
    requires size > 0 && off + length <= |data|
    ensures var pieces := Writes.Cut(data, size);
            var chunks := Writes.RefsOf(prefix, sum, pieces);
            var after := Writes.CarriedOut(store, Writes.Requests(prefix, sum, pieces, size, |pieces|));
            && (forall i :: 0 <= i < |chunks| ==> chunks[i].id in after)
            && var found := Writes.LookedUp(after, chunks);
            && Fits(chunks, found) && SizeBefore(chunks, |chunks|) == |data|
            && Part(Joined(found), off, off + length) == data[off..off + length]
  {
    var pieces := Writes.Cut(data, size);
    var chunks := Writes.RefsOf(prefix, sum, pieces);
    var after := Writes.CarriedOut(store, Writes.Requests(prefix, sum, pieces, size, |pieces|));
    Writes.WrittenIsFound(store, prefix, sum, data, size);
    FoundWindow(after, chunks, sum, data, off, length);
  }

  lemma FoundWindow(store: Writes.Store, chunks: seq<ChunkRef>, sum: Writes.Sum, data: seq<byte>, off: nat, length: nat)
    requires Writes.Finds(store, chunks, sum, data) && off + length <= |data|
    ensures var found := Writes.LookedUp(store, chunks);
            && Fits(chunks, found) && SizeBefore(chunks, |chunks|) == |data|
            && Part(Joined(found), off, off + length) == data[off..off + length]
  {
    var found := Writes.LookedUp(store, chunks);
    FoundFits(store, chunks, sum, data, found);
    WindowOf(data, off, length);
  }

  lemma FoundFits(store: Writes.Store, chunks: seq<ChunkRef>, sum: Writes.Sum, data: seq<byte>, found: seq<seq<byte>>)
    requires Writes.Finds(store, chunks, sum, data) && found == Writes.LookedUp(store, chunks)
    ensures Fits(chunks, found) && SizeBefore(chunks, |chunks|) == |data| && Joined(found) == data
  {
    assert Fits(chunks, found);
    FitsWhole(chunks, found);
  }

  lemma FitsWhole(chunks: seq<ChunkRef>, found: seq<seq<byte>>)
    requires Fits(chunks, found)
    ensures SizeBefore(chunks, |chunks|) == |Joined(found)|
  {
    SizeIsLength(chunks, found, |found|);
    assert found[..|found|] == found;
  }

  lemma WindowOf(s: seq<byte>, off: nat, length: nat)
    requires off + length <= |s|
    ensures Part(s, off, off + length) == s[off..off + length]
  {
  }

  /** Of a window only the chunks that it touches have to verify. */
  lemma AllGoodIff(chunks: seq<ChunkRef>, fetched: seq<Option<Reader>>, off: nat, length: nat)
    requires |chunks| == |fetched|
    ensures AllGood(chunks, fetched, off, off + length, |chunks|) <==>
            forall i: nat :: i < |chunks| && off < SizeBefore(chunks, i) + chunks[i].size
                             && SizeBefore(chunks, i) < off + length ==>
                               fetched[i].Some? && fetched[i].value.verified
  {
    assert forall i: nat :: i < |chunks| ==> SizeBefore(chunks, i + 1) == SizeBefore(chunks, i) + chunks[i].size;
  }
}
