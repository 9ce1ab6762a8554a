/** A file of an object's version: bytes are appended to it, and its layout tells where they are. */
module ObjFile {
  import opened Wrappers
  import opened ObjLayout
  import opened FileWriting

  /** Byte x of this version's place k is in the file, at a place that layout tells. */
  ghost predicate IsHeld(chunks: seq<Chunk>, content: Bytes, k: nat, x: bv8) {
    exists f: nat :: At(chunks, k, f) && f < |content| && content[f] == x
  }

  /** Bytes found with layout are those that were saved. */
  ghost predicate HoldsSaved(chunks: seq<Chunk>, content: Bytes, segs: seq<SegsWrite>) {
    forall k: nat, x {:trigger IsHeld(chunks, content, k, x)} ::
      IsHeld(chunks, content, k, x) <==> AllPut(segs, k, x) > 0
  }

  ghost predicate AllBelow(chunks: seq<Chunk>, end: nat) {
    forall k: nat, f: nat :: At(chunks, k, f) ==> f < end
  }

  /** The only header is in the file, at a place that layout tells. */
  predicate HasHeaders(header: Option<HeaderChunk>, content: Bytes, end: nat, headers: seq<Bytes>)
    requires end <= |content|
  {
    match header
    case None => headers == []
    case Some(h) => h.fileOfs + h.len <= end && headers == [content[h.fileOfs..h.fileOfs + h.len]]
  }

  lemma SameHeaders(
    header: Option<HeaderChunk>, content: Bytes, content': Bytes, end: nat, end': nat, headers: seq<Bytes>
  )
    requires end <= |content| && end <= end' <= |content'| && content[..end] == content'[..end]
    requires HasHeaders(header, content, end, headers)
    ensures HasHeaders(header, content', end', headers)
  {
    if header.Some? {
      var h := header.value;
      assert content[h.fileOfs..h.fileOfs + h.len] == content[..end][h.fileOfs..h.fileOfs + h.len];
      assert content'[h.fileOfs..h.fileOfs + h.len] == content'[..end][h.fileOfs..h.fileOfs + h.len];
    }
  }

  function Written(content: Bytes, ofs: nat, bytes: Bytes): Bytes
    requires ofs <= |content|
  {
    content[..ofs] + bytes + if ofs + |bytes| < |content| then content[ofs + |bytes|..] else []
  }

  lemma SameBelow(chunks: seq<Chunk>, content: Bytes, content': Bytes, end: nat, segs: seq<SegsWrite>)
    requires AllBelow(chunks, end) && end <= |content| && end <= |content'| && content[..end] == content'[..end]
    requires HoldsSaved(chunks, content, segs)
    ensures HoldsSaved(chunks, content', segs)
  {
    forall k: nat, x ensures IsHeld(chunks, content', k, x) <==> IsHeld(chunks, content, k, x) {
      assert forall f: nat :: f < end ==> content[f] == content[..end][f] == content'[..end][f] == content'[f];
    }
  }

  function OnDiskOf(w: SegsWrite, fileOfs: nat): Chunk {
    OnDisk(w.ofs, |w.bytes|, fileOfs)
  }

  lemma HeldByAny(chunks: seq<Chunk>, c: Chunk, content: Bytes, k: nat, x: bv8)
    requires Added(chunks, c).Some?
    ensures IsHeld(Added(chunks, c).value, content, k, x) <==>
            || IsHeld(chunks, content, k, x)
            || exists f: nat :: IsAt(c, k, f) && f < |content| && content[f] == x
  {
    var added := Added(chunks, c).value;
    forall f: nat ensures At(added, k, f) <==> At(chunks, k, f) || IsAt(c, k, f) {
      AddedAreAt(chunks, c, k, f);
    }
  }

  lemma PutIsThere(content: Bytes, end: nat, w: SegsWrite, k: nat, x: bv8)
    requires end + |w.bytes| <= |content| && content[end..end + |w.bytes|] == w.bytes
    ensures Puts(w, k, x) > 0 <==> exists f: nat :: IsAt(OnDiskOf(w, end), k, f) && f < |content| && content[f] == x
  {
    if w.ofs <= k < w.ofs + |w.bytes| {
      assert content[end..end + |w.bytes|][k - w.ofs] == content[end + (k - w.ofs)];
      assert IsAt(OnDiskOf(w, end), k, end + (k - w.ofs));
    }
  }

  lemma WrittenIsHeld(chunks: seq<Chunk>, content: Bytes, end: nat, segs: seq<SegsWrite>, w: SegsWrite, k: nat, x: bv8)
    requires end + |w.bytes| <= |content| && content[end..end + |w.bytes|] == w.bytes
    requires HoldsSaved(chunks, content, segs) && Added(chunks, OnDiskOf(w, end)).Some?
    ensures IsHeld(Added(chunks, OnDiskOf(w, end)).value, content, k, x) <==> AllPut(segs + [w], k, x) > 0
  {
    AllPutByNext(segs, w, k, x);
    HeldByAny(chunks, OnDiskOf(w, end), content, k, x);
    PutIsThere(content, end, w, k, x);
  }

  lemma WrittenAreBelow(chunks: seq<Chunk>, end: nat, w: SegsWrite)
    requires AllBelow(chunks, end) && Added(chunks, OnDiskOf(w, end)).Some?
    ensures AllBelow(Added(chunks, OnDiskOf(w, end)).value, end + |w.bytes|)
  {
    forall k: nat, f: nat | At(Added(chunks, OnDiskOf(w, end)).value, k, f) ensures f < end + |w.bytes| {
      AddedAreAt(chunks, OnDiskOf(w, end), k, f);
    }
  }

  class ObjVersionFile {
    const layout: BytesLayout
    var content: Bytes
    ghost var headers: seq<Bytes>
    ghost var segs: seq<SegsWrite>
    ghost var sections: seq<Section>

    /** What is saved, is in the file, and layout tells where. */
    ghost predicate Valid()
      reads this, layout
    {
      && layout.bytesEnd <= |content|
      && AllBelow(layout.chunks, layout.bytesEnd)
      && HoldsSaved(layout.chunks, content, segs)
      && HasHeaders(layout.header, content, layout.bytesEnd, headers)
      && (!layout.isFrozen ==> sections == [])
    }

    ghost predicate IsNew()
      reads this, layout
    {
      Valid() && headers == [] && segs == [] && layout.chunks == [] && !layout.isFrozen
    }

    constructor CreateNew()
      ensures IsNew() && fresh(layout)
    {
      layout := new BytesLayout.ForNewFile();
      content := seq(NEW_FILE_LEN, _ => 0);
      headers, segs, sections := [], [], [];
    }

    method SetSegsLayout(newSections: seq<Section>) returns (ok: bool)
      requires Valid()
      modifies this`sections, layout
      ensures Valid()
      ensures ok <==> !old(layout.isFrozen) && CanBeSet(newSections, old(layout.chunks))
      ensures layout.isFrozen <==> ok || old(layout.isFrozen)
      ensures layout.header == old(layout.header)
      ensures ok ==>
                sections == newSections && layout.chunks == Combined(ChunksOf(newSections), old(layout.chunks)).value
    {
      ghost var before := layout.chunks;
      ok := layout.SetAndFreezeWith(newSections);
      if ok {
        sections := newSections;
      }
      forall k: nat, x ensures IsHeld(layout.chunks, content, k, x) <==> IsHeld(before, content, k, x) {
      }
    }

    /** Header is written first, and then layout may refuse it. */
    method SaveHeader(header: Bytes) returns (ok: bool)
      requires Valid()
      modifies this`content, this`headers, layout
      ensures Valid()
      ensures ok <==> old(headers) == []
      ensures headers == if ok then [header] else old(headers)
      ensures layout.chunks == old(layout.chunks) && layout.isFrozen == old(layout.isFrozen)
    {
      var ofs := layout.bytesEnd;
      content := Written(content, ofs, header);
      SameBelow(layout.chunks, old(content), content, ofs, segs);
      SameHeaders(layout.header, old(content), content, ofs, ofs, headers);
      ok := layout.AddHeader(|header|, ofs);
      if ok {
        headers := headers + [header];
      }
    }

    method SaveSegs(w: SegsWrite) returns (ok: bool)
      requires Valid()
      modifies this`content, this`segs, layout
      ensures Valid()
      ensures var added := Added(old(layout.chunks), OnDiskOf(w, old(layout.bytesEnd)));
              && (ok <==> added.Some?)
              && layout.chunks == (if ok then added.value else old(layout.chunks))
              && layout.bytesEnd == old(layout.bytesEnd) + (if ok then |w.bytes| else 0)
      ensures segs == old(segs) + if ok then [w] else []
      ensures layout.isFrozen == old(layout.isFrozen) && layout.header == old(layout.header)
    {
      var ofs := layout.bytesEnd;
      ghost var before := layout.chunks;
      content := Written(content, ofs, w.bytes);
      SameBelow(before, old(content), content, ofs, segs);
      SameHeaders(layout.header, old(content), content, ofs, ofs, headers);
      ok := layout.AddSegsOnFile(w.ofs, |w.bytes|, ofs);
      if ok {
        WrittenAreBelow(before, ofs, w);
        forall k: nat, x ensures IsHeld(layout.chunks, content, k, x) <==> AllPut(segs + [w], k, x) > 0 {
          WrittenIsHeld(before, content, ofs, segs, w, k, x);
        }
        segs := segs + [w];
      }
    }
  }
}
