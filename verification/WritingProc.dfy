/** Writing of encryption events to a file of an object: a buffer collects segments, and is saved when it is big. */
module WritingProc {
  import opened Wrappers
  import opened ObjLayout
  import opened FileWriting
  import opened ObjFile

  const SAVING_BUF_SIZE := 512 * 1024
  const BACKPRESSURE_BUF_SIZE := 5 * 1024 * 1024

  /** A header comes with layout of the whole object. */
  datatype EncrEvent = HeaderEvent(header: Bytes, sections: seq<Section>) | SegmentEvent(seg: SegEvent)

  function SizeOf(segs: seq<SegEvent>): nat {
    if |segs| == 0 then 0 else SizeOf(segs[..|segs| - 1]) + |segs[|segs| - 1].seg|
  }

  lemma SizeOfNext(segs: seq<SegEvent>, s: SegEvent)
    ensures SizeOf(segs + [s]) == SizeOf(segs) + |s.seg|
  {
    assert (segs + [s])[..|segs|] == segs;
  }

  /** What has come, is either in the file, or waits for it. */
  ghost predicate Accounted(saved: seq<SegsWrite>, waiting: seq<SegEvent>, seen: seq<SegEvent>) {
    WellSized(seen) ==> WellSized(waiting) && SamePut(saved + Owns(waiting), Owns(seen))
  }

  lemma OneMore(saved: seq<SegsWrite>, waiting: seq<SegEvent>, seen: seq<SegEvent>, s: SegEvent)
    requires Accounted(saved, waiting, seen)
    ensures Accounted(saved, waiting + [s], seen + [s])
  {
    if WellSized(seen + [s]) {
      assert s in seen + [s] && forall t :: t in seen ==> t in seen + [s];
      assert Owns(waiting + [s]) == Owns(waiting) + [Own(s)] && Owns(seen + [s]) == Owns(seen) + [Own(s)];
      forall k, x ensures ArePutSame(saved + Owns(waiting + [s]), Owns(seen + [s]), k, x) {
        assert ArePutSame(saved + Owns(waiting), Owns(seen), k, x);
        assert saved + Owns(waiting + [s]) == saved + Owns(waiting) + [Own(s)];
        AllPutByNext(saved + Owns(waiting), Own(s), k, x);
        AllPutByNext(Owns(seen), Own(s), k, x);
      }
    }
  }

  lemma BufferMoved(saved: seq<SegsWrite>, chunks: seq<SegsWrite>, waiting: seq<SegEvent>, seen: seq<SegEvent>)
    requires Accounted(saved, waiting, seen)
    requires WellSized(waiting) ==> SamePut(chunks, Owns(waiting))
    ensures Accounted(saved + chunks, [], seen)
  {
    if WellSized(seen) {
      assert saved + chunks + Owns([]) == saved + chunks;
      forall k, x ensures ArePutSame(saved + chunks, Owns(seen), k, x) {
        assert ArePutSame(saved + Owns(waiting), Owns(seen), k, x) && ArePutSame(chunks, Owns(waiting), k, x);
        AllPutByBoth(saved, chunks, k, x);
        AllPutByBoth(saved, Owns(waiting), k, x);
      }
    }
  }

  // ---------- saving of chunks

  ghost predicate AllClear(chunks: seq<Chunk>, writes: seq<SegsWrite>) {
    forall j :: 0 <= j < |writes| ==> ClearOf(chunks, WriteSpan(writes[j]))
  }

  /** Chunks of layout before and after writes are added to a file: only places of writes are taken. */
  ghost predicate Grows(before: seq<Chunk>, after: seq<Chunk>, writes: seq<SegsWrite>) {
    && (forall x :: ClearOf(before, x) && WritesApart(writes, x) ==> ClearOf(after, x))
    && (AllOnDisk(before) && AllApart(before) && AllClear(before, writes) && Gapped(writes) ==>
          AllOnDisk(after) && AllApart(after))
    && (writes == [] ==> after == before)
  }

  lemma SomeOfWrites(writes: seq<SegsWrite>, i: nat, x: Span)
    requires i < |writes| && WritesApart(writes[..i + 1], x)
    ensures WritesApart(writes[..i], x) && Apart(WriteSpan(writes[i]), x)
  {
    assert writes[..i + 1][i] == writes[i];
    assert forall j :: 0 <= j < i ==> writes[..i][j] == writes[..i + 1][j];
  }

  lemma NextIsClear(before: seq<Chunk>, now: seq<Chunk>, writes: seq<SegsWrite>, i: nat)
    requires i < |writes| && Grows(before, now, writes[..i])
    requires AllClear(before, writes[..i + 1]) && Gapped(writes[..i + 1])
    ensures ClearOf(now, WriteSpan(writes[i]))
  {
    assert writes[..i + 1][i] == writes[i];
    assert forall j :: 0 <= j < i ==> writes[..i][j] == writes[..i + 1][j];
    assert WritesApart(writes[..i], WriteSpan(writes[i]));
  }

  lemma PrefixIsClear(before: seq<Chunk>, writes: seq<SegsWrite>, i: nat, j: nat)
    requires i <= j <= |writes| && AllClear(before, writes[..j]) && Gapped(writes[..j])
    ensures AllClear(before, writes[..i]) && Gapped(writes[..i])
  {
    assert forall k :: 0 <= k < i ==> writes[..i][k] == writes[..j][k];
  }

  lemma GrowsNext(before: seq<Chunk>, now: seq<Chunk>, after: seq<Chunk>, writes: seq<SegsWrite>, i: nat, fileOfs: nat)
    requires i < |writes| && Grows(before, now, writes[..i])
    requires Added(now, OnDiskOf(writes[i], fileOfs)) == Some(after)
    ensures Grows(before, after, writes[..i + 1])
  {
    var c := OnDiskOf(writes[i], fileOfs);
    assert SpanOf(c) == WriteSpan(writes[i]);
    forall x | ClearOf(before, x) && WritesApart(writes[..i + 1], x) ensures ClearOf(after, x) {
      SomeOfWrites(writes, i, x);
      AddedKeepsClear(now, c, x);
    }
    if AllOnDisk(before) && AllApart(before) && AllClear(before, writes[..i + 1]) && Gapped(writes[..i + 1]) {
      PrefixIsClear(before, writes, i, i + 1);
      NextIsClear(before, now, writes, i);
      AddedKeepsApart(now, c);
      AddedKeepsOnDisk(now, c);
    }
  }

  method SaveChunk(objFile: ObjVersionFile, chunks: seq<SegsWrite>, i: nat, ghost before: seq<Chunk>) returns (ok: bool)
    requires objFile.Valid() && i < |chunks| && Grows(before, objFile.layout.chunks, chunks[..i])
    modifies objFile`content, objFile`segs, objFile.layout
    ensures objFile.Valid() && objFile.layout.isFrozen == old(objFile.layout.isFrozen)
    ensures objFile.segs == old(objFile.segs) + if ok then [chunks[i]] else []
    ensures ok ==> Grows(before, objFile.layout.chunks, chunks[..i + 1])
    ensures AllClear(before, chunks) && Gapped(chunks) ==> ok
  {
    ghost var now, fileOfs := objFile.layout.chunks, objFile.layout.bytesEnd;
    if AllClear(before, chunks) && Gapped(chunks) {
      assert chunks[..|chunks|] == chunks;
      PrefixIsClear(before, chunks, i + 1, |chunks|);
      NextIsClear(before, now, chunks, i);
      ClearIsAdded(now, OnDiskOf(chunks[i], fileOfs));
    }
    ok := objFile.SaveSegs(chunks[i]);
    if ok {
      GrowsNext(before, now, objFile.layout.chunks, chunks, i, fileOfs);
    }
  }

  /** Writes, that are apart from all in the file, are not refused. */
  method SaveChunks(objFile: ObjVersionFile, chunks: seq<SegsWrite>) returns (writes: seq<FileWrite>, ok: bool)
    requires objFile.Valid()
    modifies objFile`content, objFile`segs, objFile.layout
    ensures objFile.Valid() && objFile.layout.isFrozen == old(objFile.layout.isFrozen)
    ensures AllClear(old(objFile.layout.chunks), chunks) && Gapped(chunks) ==> ok
    ensures ok ==> Grows(old(objFile.layout.chunks), objFile.layout.chunks, chunks)
    ensures ok ==> objFile.segs == old(objFile.segs) + chunks
    ensures old(objFile.segs) <= objFile.segs
    ensures ok ==> |writes| == |chunks| && forall j :: 0 <= j < |writes| ==> writes[j] == SegmentsWrite(chunks[j])
  {
    ghost var before := objFile.layout.chunks;
    writes := [];
    var i := 0;
    while i < |chunks|
      invariant i <= |chunks|
      invariant objFile.Valid() && objFile.layout.isFrozen == old(objFile.layout.isFrozen)
      invariant Grows(before, objFile.layout.chunks, chunks[..i])
      invariant objFile.segs == old(objFile.segs) + chunks[..i]
      invariant |writes| == i && forall j :: 0 <= j < i ==> writes[j] == SegmentsWrite(chunks[j])
    {
      ok := SaveChunk(objFile, chunks, i, before);
      if !ok {
        return;
      }
      writes := writes + [SegmentsWrite(chunks[i])];
      i := i + 1;
    }
    assert chunks[..i] == chunks;
    ok := true;
  }

  ghost predicate SegsClear(chunks: seq<Chunk>, segs: seq<SegEvent>) {
    forall s :: s in segs ==> ClearOf(chunks, SegSpan(s))
  }

  lemma BatchIsClear(chunks: seq<Chunk>, segs: seq<SegEvent>, writes: seq<SegsWrite>)
    requires SegsClear(chunks, segs) && KeepApart(segs, writes)
    ensures AllClear(chunks, writes)
  {
    forall i | 0 <= i < |chunks| && !chunks[i].New? ensures WritesApart(writes, SpanOf(chunks[i])) {
      assert SegsApart(segs, SpanOf(chunks[i]));
    }
  }

  /** Header goes first, and it is followed by what is added to the file. */
  ghost predicate Announced(writes: seq<FileWrite>, header: Option<Bytes>, added: seq<SegsWrite>) {
    var h := if header.Some? then 1 else 0;
    && |writes| == h + |added|
    && (header.Some? ==> writes[0] == HeaderWrite(header.value))
    && forall j :: 0 <= j < |added| ==> writes[h + j] == SegmentsWrite(added[j])
  }

  lemma AllAnnounced(headerWrite: seq<FileWrite>, writes: seq<FileWrite>, header: Option<Bytes>, added: seq<SegsWrite>)
    requires headerWrite == if header.Some? then [HeaderWrite(header.value)] else []
    requires |writes| == |added| && forall j :: 0 <= j < |writes| ==> writes[j] == SegmentsWrite(added[j])
    ensures Announced(headerWrite + writes, header, added)
  {}

  ghost predicate SavedWell(before: seq<Chunk>, after: seq<Chunk>, segs: seq<SegEvent>, added: seq<SegsWrite>) {
    && Grows(before, after, added)
    && (WellSized(segs) ==> Gapped(added) && KeepApart(segs, added))
    && (segs == [] ==> added == [])
  }

  /** Segments with same offsets, or with overlaps, are not saved; others may be refused by the file. */
  ghost predicate EndsRight(
    r: Result<seq<FileWrite>, Problem>, segs: seq<SegEvent>, before: seq<SegsWrite>, after: seq<SegsWrite>
  ) {
    if !DistinctOffsets(segs) then r == Failure(SameOffset) && after == before
    else if !NoOverlap(segs) then r == Failure(Missorted) && after == before
    else r.Failure? ==> r.error == SegmentsRefused && before <= after
  }

  lemma AllAccounted(saved: seq<SegsWrite>, seen: seq<SegEvent>)
    requires Accounted(saved, [], seen)
    ensures WellSized(seen) ==> SamePut(saved, Owns(seen))
  {
    assert saved + Owns([]) == saved;
  }

  /** Segments are put together, and are saved. */
  method SaveCombined(objFile: ObjVersionFile, segs: seq<SegEvent>, ghost seen: seq<SegEvent>)
    returns (r: Result<seq<FileWrite>, Problem>)
    requires objFile.Valid() && Accounted(objFile.segs, segs, seen)
    modifies objFile`content, objFile`segs, objFile.layout
    ensures objFile.Valid() && objFile.layout.isFrozen == old(objFile.layout.isFrozen)
    ensures EndsRight(r, segs, old(objFile.segs), objFile.segs)
    ensures Proper(segs) && SegsClear(old(objFile.layout.chunks), segs) ==> r.Success?
    ensures old(objFile.segs) <= objFile.segs
    ensures var added := objFile.segs[|old(objFile.segs)|..];
            r.Success? ==>
              && Accounted(objFile.segs, [], seen)
              && |r.value| == |added| && (forall j :: 0 <= j < |added| ==> r.value[j] == SegmentsWrite(added[j]))
              && SavedWell(old(objFile.layout.chunks), objFile.layout.chunks, segs, added)
  {
    ghost var saved, before := objFile.segs, objFile.layout.chunks;
    var combined := CombineSegsFrom(segs);
    if combined.Failure? {
      return Failure(combined.error);
    }
    var chunks := combined.value;
    BufferMoved(saved, chunks, segs, seen);
    if Proper(segs) && SegsClear(before, segs) {
      BatchIsClear(before, segs, chunks);
    }
    var writes, ok := SaveChunks(objFile, chunks);
    if !ok {
      return Failure(SegmentsRefused);
    }
    assert objFile.segs[|saved|..] == chunks;
    r := Success(writes);
  }

  function Listed(header: Option<Bytes>): seq<Bytes> {
    if header.Some? then [header.value] else []
  }

  /** Header that waits is not refused, as there is no other one. */
  method SaveAll(objFile: ObjVersionFile, header: Option<Bytes>, segs: seq<SegEvent>, ghost seen: seq<SegEvent>)
    returns (r: Result<seq<FileWrite>, Problem>)
    requires objFile.Valid() && Accounted(objFile.segs, segs, seen) && (header.Some? ==> objFile.headers == [])
    modifies objFile`content, objFile`headers, objFile`segs, objFile.layout
    ensures objFile.Valid() && objFile.layout.isFrozen == old(objFile.layout.isFrozen)
    ensures objFile.headers == old(objFile.headers) + Listed(header)
    ensures EndsRight(r, segs, old(objFile.segs), objFile.segs)
    ensures Proper(segs) && SegsClear(old(objFile.layout.chunks), segs) ==> r.Success?
    ensures old(objFile.segs) <= objFile.segs
    ensures var added := objFile.segs[|old(objFile.segs)|..];
            r.Success? ==>
              && Accounted(objFile.segs, [], seen)
              && Announced(r.value, header, added)
              && SavedWell(old(objFile.layout.chunks), objFile.layout.chunks, segs, added)
  {
    ghost var saved := objFile.segs;
    var headerWrite: seq<FileWrite> := [];
    if header.Some? {
      var ok := objFile.SaveHeader(header.value);
      headerWrite := [HeaderWrite(header.value)];
    }
    var written := SaveCombined(objFile, segs, seen);
    if written.Success? {
      AllAnnounced(headerWrite, written.value, header, objFile.segs[|saved|..]);
    }
    r := if written.Failure? then written else Success(headerWrite + written.value);
  }

  // ---------- process of writing

  class FileWritingProc {
    const objFile: ObjVersionFile
    var header: Option<Bytes>
    var segs: seq<SegEvent>
    var size: nat
    var isPressed: bool
    ghost var seen: seq<SegEvent>

    /** Source is pressed to slow down exactly by a big buffer. Layout is set with a header that waits, or is saved. */
    ghost predicate Valid()
      reads this, objFile, objFile.layout
    {
      && objFile.Valid()
      && size == SizeOf(segs)
      && (isPressed <==> size >= BACKPRESSURE_BUF_SIZE)
      && Accounted(objFile.segs, segs, seen)
      && |objFile.headers + Listed(header)| == (if objFile.layout.isFrozen then 1 else 0)
    }

    constructor (objFile: ObjVersionFile)
      requires objFile.IsNew()
      ensures Valid() && this.objFile == objFile
      ensures header == None && segs == [] && seen == []
    {
      this.objFile := objFile;
      header, segs, size, isPressed := None, [], 0, false;
      seen := [];
    }

    /** Only the first header is taken, and only when its layout can be set. */
    method AddToBuffer(ee: EncrEvent) returns (failure: Option<Problem>)
      requires Valid()
      modifies this, objFile`sections, objFile.layout
      ensures Valid()
      ensures ee.SegmentEvent? ==>
                && failure.None? && header == old(header)
                && segs == old(segs) + [ee.seg] && seen == old(seen) + [ee.seg]
                && unchanged(objFile) && unchanged(objFile.layout)
      ensures ee.HeaderEvent? ==>
                && segs == old(segs) && seen == old(seen)
                && failure == (if !old(objFile.layout.isFrozen) && CanBeSet(ee.sections, old(objFile.layout.chunks))
                               then None else Some(LayoutRefused))
      ensures ee.HeaderEvent? && failure.None? ==>
                && header == Some(ee.header) && objFile.sections == ee.sections && objFile.layout.isFrozen
                && Combined(ChunksOf(ee.sections), old(objFile.layout.chunks)) == Some(objFile.layout.chunks)
    {
      failure := None;
      match ee
      case HeaderEvent(h, sections) =>
        var ok := objFile.SetSegsLayout(sections);
        if !ok {
          return Some(LayoutRefused);
        }
        header := Some(h);
      case SegmentEvent(s) =>
        PushSegment(s);
    }

    method PushSegment(s: SegEvent)
      requires Valid()
      modifies this`segs, this`seen, this`size, this`isPressed
      ensures Valid()
      ensures segs == old(segs) + [s] && seen == old(seen) + [s]
    {
      OneMore(objFile.segs, segs, seen, s);
      SizeOfNext(segs, s);
      segs, seen := segs + [s], seen + [s];
      size := size + |s.seg|;
      if size >= BACKPRESSURE_BUF_SIZE {
        isPressed := true;
      }
    }

    predicate CanSaveBuffered()
      reads this
    {
      size >= SAVING_BUF_SIZE
    }

    /** Either the whole buffer goes to the file, or its segments are at fault, or their places are taken. */
    method SaveBuffered() returns (r: Result<seq<FileWrite>, Problem>)
      requires Valid()
      modifies this, objFile, objFile.layout
      ensures header == None && segs == [] && size == 0 && !isPressed && seen == old(seen)
      ensures objFile.headers == old(objFile.headers + Listed(header)) && objFile.sections == old(objFile.sections)
      ensures objFile.layout.isFrozen == old(objFile.layout.isFrozen)
      ensures EndsRight(r, old(segs), old(objFile.segs), objFile.segs)
      ensures Proper(old(segs)) && SegsClear(old(objFile.layout.chunks), old(segs)) ==> r.Success?
      ensures old(objFile.segs) <= objFile.segs
      ensures var added := objFile.segs[|old(objFile.segs)|..];
              r.Success? ==>
                && Valid()
                && Announced(r.value, old(header), added)
                && SavedWell(old(objFile.layout.chunks), objFile.layout.chunks, old(segs), added)
      ensures r.Success? && WellSized(seen) ==> SamePut(objFile.segs, Owns(seen))
    {
      var headerToSave, segsToSave := header, segs;
      header, segs, size, isPressed := None, [], 0, false;
      r := SaveAll(objFile, headerToSave, segsToSave, seen);
      if r.Success? {
        AllAccounted(objFile.segs, seen);
      }
    }
  }

  // ---------- events

  function SegsOf(events: seq<EncrEvent>): seq<SegEvent> {
    if |events| == 0 then [] else
    var before, last := SegsOf(events[..|events| - 1]), events[|events| - 1];
    if last.SegmentEvent? then before + [last.seg] else before
  }

  function HeadersOf(events: seq<EncrEvent>): seq<Bytes> {
    if |events| == 0 then [] else
    var before, last := HeadersOf(events[..|events| - 1]), events[|events| - 1];
    if last.HeaderEvent? then before + [last.header] else before
  }

  function SegsIn(writes: seq<FileWrite>): seq<SegsWrite> {
    if |writes| == 0 then []
    else (if writes[0].SegmentsWrite? then [writes[0].segs] else []) + SegsIn(writes[1..])
  }

  function HeadersIn(writes: seq<FileWrite>): seq<Bytes> {
    if |writes| == 0 then []
    else (if writes[0].HeaderWrite? then [writes[0].header] else []) + HeadersIn(writes[1..])
  }

  lemma {:induction false} SegsInBoth(a: seq<FileWrite>, b: seq<FileWrite>)
    ensures SegsIn(a + b) == SegsIn(a) + SegsIn(b)
    decreases |a|
  {
    if |a| == 0 {
      assert a + b == b;
    } else {
      assert (a + b)[1..] == a[1..] + b && (a + b)[0] == a[0];
      SegsInBoth(a[1..], b);
    }
  }

  lemma {:induction false} HeadersInBoth(a: seq<FileWrite>, b: seq<FileWrite>)
    ensures HeadersIn(a + b) == HeadersIn(a) + HeadersIn(b)
    decreases |a|
  {
    if |a| == 0 {
      assert a + b == b;
    } else {
      assert (a + b)[1..] == a[1..] + b && (a + b)[0] == a[0];
      HeadersInBoth(a[1..], b);
    }
  }

  lemma {:induction false} InAnnounced(writes: seq<FileWrite>, header: Option<Bytes>, added: seq<SegsWrite>)
    requires Announced(writes, header, added)
    ensures SegsIn(writes) == added
    ensures HeadersIn(writes) == if header.Some? then [header.value] else []
    decreases |writes|
  {
    if header.Some? {
      InAnnounced(writes[1..], None, added);
    } else if |added| > 0 {
      assert writes[0] == SegmentsWrite(added[0]);
      forall j | 0 <= j < |added[1..]| ensures writes[1..][j] == SegmentsWrite(added[1..][j]) {
        assert writes[0 + (j + 1)] == SegmentsWrite(added[j + 1]);
      }
      InAnnounced(writes[1..], None, added[1..]);
    }
  }

  /** Segments that have places of their own, and are as long as they say. */
  ghost predicate Proper(segs: seq<SegEvent>) {
    WellSized(segs) && DistinctOffsets(segs) && NoOverlap(segs)
  }

  lemma ProperSlice(segs: seq<SegEvent>, i: nat, j: nat)
    requires Proper(segs) && i <= j <= |segs|
    ensures Proper(segs[i..j])
  {
    var slice := segs[i..j];
    assert forall s :: s in slice ==> s in segs;
    assert forall k :: 0 <= k < |slice| ==> slice[k] == segs[i + k];
  }

  lemma {:induction false} SegsOfSome(events: seq<EncrEvent>, i: nat)
    requires i <= |events|
    ensures SegsOf(events[..i]) <= SegsOf(events)
    decreases |events|
  {
    if i == |events| {
      assert events[..i] == events;
    } else {
      var before := events[..|events| - 1];
      assert before[..i] == events[..i];
      SegsOfSome(before, i);
    }
  }

  lemma {:induction false} HeadersOfSome(events: seq<EncrEvent>, i: nat)
    requires i <= |events|
    ensures HeadersOf(events[..i]) <= HeadersOf(events)
    decreases |events|
  {
    if i == |events| {
      assert events[..i] == events;
    } else {
      var before := events[..|events| - 1];
      assert before[..i] == events[..i];
      HeadersOfSome(before, i);
    }
  }

  /** Sections follow each other, in each layout that comes. */
  ghost predicate AllInRow(events: seq<EncrEvent>) {
    forall i :: 0 <= i < |events| && events[i].HeaderEvent? ==> AreInRow(events[i].sections, 0)
  }

  /** Segments are inside of what layout has, and layout's neighbouring new sections are one section. */
  ghost predicate IsRoomFor(sections: seq<Section>, segs: seq<SegEvent>) {
    var layout := ChunksOf(sections);
    && NewAreSeparated(layout)
    && forall s :: s in segs ==> s.packedOfs < Total(layout) && s.packedOfs + |s.seg| <= Total(layout)
  }

  /** Layout has no base bytes where segments are, and it either comes before segments, or has room for them. */
  ghost predicate Suits(sections: seq<Section>, before: seq<SegEvent>, all: seq<SegEvent>) {
    && AreInRow(sections, 0)
    && SegsClear(ChunksOf(sections), all)
    && (before == [] || IsRoomFor(sections, before))
  }

  ghost predicate LayoutsSuit(events: seq<EncrEvent>) {
    forall i :: 0 <= i < |events| && events[i].HeaderEvent? ==>
      Suits(events[i].sections, SegsOf(events[..i]), SegsOf(events))
  }

  // ---------- what layout has while a process goes well

  /** Only places of saved segments and of layout's base sections are taken. */
  ghost predicate IsKept(
    chunks: seq<Chunk>, sections: seq<Section>, isFrozen: bool, saved: seq<SegEvent>, all: seq<SegEvent>
  ) {
    && (forall x :: SegsApart(saved, x) && ClearOf(ChunksOf(sections), x) ==> ClearOf(chunks, x))
    && SegsClear(ChunksOf(sections), all)
    && (!isFrozen ==> AllOnDisk(chunks) && AllApart(chunks) && (saved == [] ==> chunks == []))
  }

  lemma ProperAreApart(all: seq<SegEvent>, i: nat)
    requires Proper(all) && i < |all|
    ensures SegsApart(all[..i], SegSpan(all[i])) && SegsApart(all[i + 1..], SegSpan(all[i]))
  {
    assert forall s, t :: s in all && t in all && s.packedOfs < t.packedOfs ==> Before(SegSpan(s), SegSpan(t));
    assert all[i] in all && all[i].packedLen == |all[i].seg|;
    forall s | s in all[..i] ensures Apart(SegSpan(s), SegSpan(all[i])) {
      var j :| 0 <= j < i && all[..i][j] == s;
      assert all[j] == s && all[j].packedOfs != all[i].packedOfs;
    }
    forall s | s in all[i + 1..] ensures Apart(SegSpan(s), SegSpan(all[i])) {
      var j :| 0 <= j < |all| - i - 1 && all[i + 1..][j] == s;
      assert all[i + 1 + j] == s && all[i].packedOfs != all[i + 1 + j].packedOfs;
    }
  }

  /** Segments that are not yet saved have their places free. */
  lemma WaitingAreClear(
    chunks: seq<Chunk>, sections: seq<Section>, isFrozen: bool, all: seq<SegEvent>, i: nat, j: nat
  )
    requires Proper(all) && i <= j <= |all| && IsKept(chunks, sections, isFrozen, all[..i], all)
    ensures SegsClear(chunks, all[i..j])
  {
    forall s | s in all[i..j] ensures ClearOf(chunks, SegSpan(s)) {
      var k :| 0 <= k < j - i && all[i..j][k] == s;
      assert all[i + k] == s;
      ProperAreApart(all, i + k);
      assert forall t :: t in all[..i] ==> t in all[..i + k];
      assert s in all;
    }
  }

  lemma SavingKeeps(
    before: seq<Chunk>, after: seq<Chunk>, sections: seq<Section>, isFrozen: bool, all: seq<SegEvent>,
    i: nat, j: nat, added: seq<SegsWrite>
  )
    requires Proper(all) && i <= j <= |all| && IsKept(before, sections, isFrozen, all[..i], all)
    requires SavedWell(before, after, all[i..j], added)
    ensures IsKept(after, sections, isFrozen, all[..j], all)
  {
    ProperSlice(all, i, j);
    WaitingAreClear(before, sections, isFrozen, all, i, j);
    BatchIsClear(before, all[i..j], added);
    forall x | SegsApart(all[..j], x) && ClearOf(ChunksOf(sections), x) ensures ClearOf(after, x) {
      PartsAreApart(all, i, j, x);
      assert WritesApart(added, x);
    }
    if |all[..j]| == 0 {
      assert all[i..j] == [] && all[..i] == [];
    }
  }

  lemma PartsAreApart(all: seq<SegEvent>, i: nat, j: nat, x: Span)
    requires i <= j <= |all| && SegsApart(all[..j], x)
    ensures SegsApart(all[..i], x) && SegsApart(all[i..j], x)
  {
    assert all[..j] == all[..i] + all[i..j];
  }

  /** Chunks of saved segments are apart from layout's base sections, and inside of its places. */
  lemma HasRoomFor(chunks: seq<Chunk>, sections: seq<Section>, saved: seq<SegEvent>, all: seq<SegEvent>, i: nat)
    requires IsKept(chunks, [], false, saved, all) && (forall s :: s in saved ==> s in all) && i < |chunks|
    requires SegsClear(ChunksOf(sections), all) && IsRoomFor(sections, saved)
    ensures ClearOf(ChunksOf(sections), SpanOf(chunks[i])) && End(chunks[i]) <= Total(ChunksOf(sections))
  {
    var layout := ChunksOf(sections);
    forall j | 0 <= j < |layout| && !layout[j].New? ensures Apart(SpanOf(layout[j]), SpanOf(chunks[i])) {
      assert SegsApart(saved, SpanOf(layout[j]));
      assert ClearOf(chunks, SpanOf(layout[j]));
    }
    var beyond := Span(Total(layout), Total(layout) + chunks[i].ofs + 1);
    assert SegsApart(saved, beyond);
    assert ClearOf(chunks, beyond);
  }

  /** Layout that suits segments can be set, whatever of them is saved before it. */
  lemma SuitedIsSet(chunks: seq<Chunk>, sections: seq<Section>, before: seq<SegEvent>, all: seq<SegEvent>, i: nat)
    requires i <= |before| <= |all| && before <= all && Suits(sections, before, all)
    requires IsKept(chunks, [], false, all[..i], all)
    ensures CanBeSet(sections, chunks)
    ensures IsKept(Combined(ChunksOf(sections), chunks).value, sections, true, all[..i], all)
  {
    var layout := ChunksOf(sections);
    if before == [] {
      NoChunksAreLaidOut(sections);
    } else {
      RowIsChain(sections, 0);
      assert forall s :: s in all[..i] ==> s in before;
      assert IsRoomFor(sections, all[..i]);
      forall j | 0 <= j < |chunks| ensures ClearOf(layout, SpanOf(chunks[j])) && End(chunks[j]) <= Total(layout) {
        HasRoomFor(chunks, sections, all[..i], all, j);
      }
      CombinedIsLaidOut(layout, chunks);
    }
    forall x | SegsApart(all[..i], x) && ClearOf(layout, x) ensures ClearOf(Combined(layout, chunks).value, x) {
      CombinedKeepsClear(layout, chunks, x);
    }
  }

  // ---------- a whole run of the process

  /** State of a process after some events, when all went well. */
  ghost predicate Going(p: FileWritingProc, events: seq<EncrEvent>, out: seq<FileWrite>)
    reads p, p.objFile, p.objFile.layout
  {
    && p.Valid() && p.seen == SegsOf(events)
    && |p.segs| <= |p.seen| && p.seen[|p.seen| - |p.segs|..] == p.segs
    && SegsIn(out) == p.objFile.segs && HeadersIn(out) == p.objFile.headers
    && HeadersOf(events) == p.objFile.headers + Listed(p.header)
    && AllInRow(events)
  }

  ghost predicate KeptBy(p: FileWritingProc, all: seq<SegEvent>)
    reads p, p.objFile, p.objFile.layout
  {
    && |p.segs| <= |p.seen| && p.seen <= all
    && IsKept(p.objFile.layout.chunks, p.objFile.sections, p.objFile.layout.isFrozen,
              all[..|p.seen| - |p.segs|], all)
  }

  /** Segments have places of their own, and there is at most one header, with layout that suits segments. */
  ghost predicate AreGood(events: seq<EncrEvent>) {
    Proper(SegsOf(events)) && LayoutsSuit(events) && |HeadersOf(events)| <= 1
  }

  lemma EventsNext(events: seq<EncrEvent>, i: nat)
    requires i < |events|
    ensures SegsOf(events[..i + 1]) == SegsOf(events[..i]) + if events[i].SegmentEvent? then [events[i].seg] else []
    ensures HeadersOf(events[..i + 1])
         == HeadersOf(events[..i]) + if events[i].HeaderEvent? then [events[i].header] else []
    ensures AllInRow(events[..i + 1]) <==>
            AllInRow(events[..i]) && (events[i].HeaderEvent? ==> AreInRow(events[i].sections, 0))
  {
    assert events[..i + 1][..i] == events[..i] && events[..i + 1][i] == events[i];
    assert forall j :: 0 <= j < i ==> events[..i + 1][j] == events[..i][j];
  }

  lemma FirstHeader(events: seq<EncrEvent>, i: nat)
    requires i < |events| && AreGood(events) && events[i].HeaderEvent?
    ensures HeadersOf(events[..i]) == [] && Suits(events[i].sections, SegsOf(events[..i]), SegsOf(events))
  {
    EventsNext(events, i);
    HeadersOfSome(events, i + 1);
  }

  method TakeSegment(p: FileWritingProc, ee: EncrEvent)
    requires p.Valid() && ee.SegmentEvent?
    modifies p, p.objFile`sections, p.objFile.layout
    ensures p.Valid() && unchanged(p.objFile) && unchanged(p.objFile.layout)
    ensures p.header == old(p.header) && p.segs == old(p.segs) + [ee.seg] && p.seen == old(p.seen) + [ee.seg]
  {
    var failure := p.AddToBuffer(ee);
  }

  lemma OneSegment(events: seq<EncrEvent>, i: nat, seen: seq<SegEvent>, segs: seq<SegEvent>)
    requires i < |events| && events[i].SegmentEvent? && AllInRow(events[..i]) && seen == SegsOf(events[..i])
    requires |segs| <= |seen| && seen[|seen| - |segs|..] == segs
    ensures var s := events[i].seg;
            && SegsOf(events[..i + 1]) == seen + [s] && HeadersOf(events[..i + 1]) == HeadersOf(events[..i])
            && (seen + [s])[|seen| - |segs|..] == segs + [s]
    ensures AllInRow(events[..i + 1])
  {
    EventsNext(events, i);
  }

  method AddSegmentEvent(
    p: FileWritingProc, ghost events: seq<EncrEvent>, ghost out: seq<FileWrite>, ghost i: nat, ee: EncrEvent,
    ghost all: seq<SegEvent>
  )
    requires i < |events| && events[i] == ee && ee.SegmentEvent? && Going(p, events[..i], out)
    requires SegsOf(events[..i + 1]) <= all
    modifies p, p.objFile`sections, p.objFile.layout
    ensures Going(p, events[..i + 1], out)
    ensures old(KeptBy(p, all)) ==> KeptBy(p, all)
  {
    OneSegment(events, i, p.seen, p.segs);
    TakeSegment(p, ee);
  }

  /** A header is taken, when its layout suits all segments, of which the first n are saved. */
  method TakeHeader(
    p: FileWritingProc, ee: EncrEvent, ghost before: seq<SegEvent>, ghost all: seq<SegEvent>, ghost n: nat,
    ghost suits: bool
  )
    returns (failure: Option<Problem>)
    requires p.Valid() && ee.HeaderEvent?
    requires suits ==>
               && n <= |before| <= |all| && before <= all && Suits(ee.sections, before, all)
               && !p.objFile.layout.isFrozen
               && IsKept(p.objFile.layout.chunks, [], false, all[..n], all)
    modifies p, p.objFile`sections, p.objFile.layout
    ensures p.segs == old(p.segs) && p.seen == old(p.seen)
    ensures failure.None? ==>
              && p.Valid() && p.header == Some(ee.header) && !old(p.objFile.layout.isFrozen)
              && p.objFile.layout.isFrozen && p.objFile.sections == ee.sections && AreInRow(ee.sections, 0)
    ensures suits ==> failure.None? && IsKept(p.objFile.layout.chunks, ee.sections, true, all[..n], all)
  {
    if suits {
      SuitedIsSet(p.objFile.layout.chunks, ee.sections, before, all, n);
    }
    failure := p.AddToBuffer(ee);
  }

  lemma OneHeader(events: seq<EncrEvent>, i: nat, headers: seq<Bytes>, header: Option<Bytes>)
    requires i < |events| && events[i].HeaderEvent? && AllInRow(events[..i]) && AreInRow(events[i].sections, 0)
    requires HeadersOf(events[..i]) == headers + Listed(header) && |headers + Listed(header)| == 0
    ensures SegsOf(events[..i + 1]) == SegsOf(events[..i]) && AllInRow(events[..i + 1])
    ensures HeadersOf(events[..i + 1]) == headers + Listed(Some(events[i].header))
  {
    EventsNext(events, i);
  }

  method AddHeaderEvent(
    p: FileWritingProc, ghost events: seq<EncrEvent>, ghost out: seq<FileWrite>, ghost i: nat, ee: EncrEvent,
    ghost all: seq<SegEvent>, ghost suits: bool
  )
    returns (failure: Option<Problem>)
    requires i < |events| && events[i] == ee && ee.HeaderEvent? && Going(p, events[..i], out)
    requires suits ==> HeadersOf(events[..i]) == [] && Suits(ee.sections, p.seen, all) && KeptBy(p, all)
    modifies p, p.objFile`sections, p.objFile.layout
    ensures failure.None? ==> Going(p, events[..i + 1], out)
    ensures SegsIn(out) == p.objFile.segs
    ensures suits ==> failure.None? && KeptBy(p, all)
  {
    ghost var headers, header := p.objFile.headers, p.header;
    assert suits ==> |headers + Listed(header)| == 0;
    failure := TakeHeader(p, ee, p.seen, all, |p.seen| - |p.segs|, suits);
    if failure.None? {
      OneHeader(events, i, headers, header);
    }
  }

  lemma BatchIsProper(seen: seq<SegEvent>, segs: seq<SegEvent>, all: seq<SegEvent>)
    requires |segs| <= |seen| && seen <= all && seen[|seen| - |segs|..] == segs && Proper(all)
    ensures all[|seen| - |segs|..|seen|] == segs && Proper(segs)
  {
    ProperSlice(all, |seen| - |segs|, |seen|);
  }

  lemma Reported(
    out: seq<FileWrite>, writes: seq<FileWrite>, header: Option<Bytes>, saved: seq<SegsWrite>, all: seq<SegsWrite>
  )
    requires saved == SegsIn(out) && saved <= all && Announced(writes, header, all[|saved|..])
    ensures SegsIn(out + writes) == all
    ensures HeadersIn(out + writes) == HeadersIn(out) + Listed(header)
  {
    InAnnounced(writes, header, all[|saved|..]);
    SegsInBoth(out, writes);
    HeadersInBoth(out, writes);
  }

  lemma BatchIsFree(p: FileWritingProc, all: seq<SegEvent>)
    requires Proper(all) && KeptBy(p, all) && p.seen[|p.seen| - |p.segs|..] == p.segs
    ensures Proper(p.segs) && SegsClear(p.objFile.layout.chunks, p.segs)
  {
    BatchIsProper(p.seen, p.segs, all);
    WaitingAreClear(p.objFile.layout.chunks, p.objFile.sections, p.objFile.layout.isFrozen, all,
                    |p.seen| - |p.segs|, |p.seen|);
  }

  /** Segments that have places of their own are not refused. */
  method SaveFree(p: FileWritingProc, ghost all: seq<SegEvent>, ghost isKept: bool)
    returns (r: Result<seq<FileWrite>, Problem>)
    requires p.Valid() && |p.segs| <= |p.seen| && p.seen[|p.seen| - |p.segs|..] == p.segs
    requires isKept ==> Proper(all) && KeptBy(p, all)
    modifies p, p.objFile, p.objFile.layout
    ensures p.header == None && p.segs == [] && p.seen == old(p.seen)
    ensures old(p.objFile.segs) <= p.objFile.segs && p.objFile.headers == old(p.objFile.headers + Listed(p.header))
    ensures r.Success? ==>
              && p.Valid() && Announced(r.value, old(p.header), p.objFile.segs[|old(p.objFile.segs)|..])
              && (WellSized(p.seen) ==> SamePut(p.objFile.segs, Owns(p.seen)))
    ensures isKept ==> r.Success? && KeptBy(p, all)
  {
    ghost var j, n := |p.seen|, |p.seen| - |p.segs|;
    ghost var saved, before := p.objFile.segs, p.objFile.layout.chunks;
    if isKept {
      BatchIsFree(p, all);
      BatchIsProper(p.seen, p.segs, all);
    }
    r := p.SaveBuffered();
    if isKept {
      SavingKeeps(before, p.objFile.layout.chunks, p.objFile.sections, p.objFile.layout.isFrozen, all, n, j,
                  p.objFile.segs[|saved|..]);
    }
  }

  /** After a save that went well, nothing waits, and the file has all that has come. */
  method SaveOnce(
    p: FileWritingProc, ghost events: seq<EncrEvent>, out: seq<FileWrite>, ghost all: seq<SegEvent>, ghost isKept: bool
  )
    returns (reported: seq<FileWrite>, failure: Option<Problem>)
    requires Going(p, events, out)
    requires isKept ==> Proper(all) && KeptBy(p, all)
    modifies p, p.objFile, p.objFile.layout
    ensures failure.None? ==> Going(p, events, reported) && p.header.None? && p.segs == []
    ensures failure.None? && WellSized(SegsOf(events)) ==> SamePut(p.objFile.segs, Owns(SegsOf(events)))
    ensures SegsIn(reported) <= p.objFile.segs
    ensures isKept ==> failure.None? && KeptBy(p, all)
  {
    ghost var header, saved := p.header, p.objFile.segs;
    var r := SaveFree(p, all, isKept);
    if r.Failure? {
      return out, Some(r.error);
    }
    Reported(out, r.value, header, saved, p.objFile.segs);
    reported, failure := out + r.value, None;
  }

  method SaveTimes(
    p: FileWritingProc, ghost events: seq<EncrEvent>, out: seq<FileWrite>, n: nat,
    ghost all: seq<SegEvent>, ghost isKept: bool
  )
    returns (reported: seq<FileWrite>, failure: Option<Problem>)
    requires Going(p, events, out)
    requires isKept ==> Proper(all) && KeptBy(p, all)
    modifies p, p.objFile, p.objFile.layout
    ensures failure.None? ==> Going(p, events, reported)
    ensures failure.None? && n > 0 ==> p.segs == []
    ensures n == 0 ==> p.segs == old(p.segs)
    ensures SegsIn(reported) <= p.objFile.segs
    ensures isKept ==> failure.None? && KeptBy(p, all)
  {
    reported, failure := out, None;
    var i := 0;
    while i < n && failure.None?
      invariant i <= n
      invariant failure.None? ==> Going(p, events, reported) && (i > 0 ==> p.segs == [])
      invariant i == 0 ==> failure.None? && p.segs == old(p.segs)
      invariant SegsIn(reported) <= p.objFile.segs
      invariant isKept ==> failure.None? && KeptBy(p, all)
    {
      reported, failure := SaveOnce(p, events, reported, all, isKept);
      i := i + 1;
    }
  }

  method AddEvent(
    p: FileWritingProc, ghost events: seq<EncrEvent>, ghost out: seq<FileWrite>, ghost i: nat, ee: EncrEvent,
    ghost isGood: bool
  )
    returns (failure: Option<Problem>)
    requires i < |events| && events[i] == ee && Going(p, events[..i], out)
    requires isGood ==> AreGood(events) && KeptBy(p, SegsOf(events))
    modifies p, p.objFile`sections, p.objFile.layout
    ensures failure.None? ==> Going(p, events[..i + 1], out)
    ensures SegsIn(out) == p.objFile.segs
    ensures isGood ==> failure.None? && KeptBy(p, SegsOf(events))
  {
    failure := None;
    if ee.SegmentEvent? {
      SegsOfSome(events, i + 1);
      AddSegmentEvent(p, events, out, i, ee, SegsOf(events));
    } else {
      if isGood {
        FirstHeader(events, i);
      }
      failure := AddHeaderEvent(p, events, out, i, ee, SegsOf(events), isGood);
    }
  }

  /** All events are done, when all went well. */
  ghost predicate IsWritten(file: ObjVersionFile, events: seq<EncrEvent>, out: seq<FileWrite>)
    reads file, file.layout
  {
    && file.Valid()
    && SegsIn(out) == file.segs && HeadersIn(out) == file.headers
    && file.headers == HeadersOf(events) && |HeadersOf(events)| <= 1
    && AllInRow(events)
    && (WellSized(SegsOf(events)) ==> SamePut(file.segs, Owns(SegsOf(events))))
  }

  /** What layout tells of the file, are bytes of segments at their places. */
  lemma FoundInFile(file: ObjVersionFile, events: seq<EncrEvent>, out: seq<FileWrite>, k: nat, x: bv8)
    requires IsWritten(file, events, out) && WellSized(SegsOf(events))
    ensures IsHeld(file.layout.chunks, file.content, k, x) <==> AllPut(Owns(SegsOf(events)), k, x) > 0
  {
    assert ArePutSame(file.segs, Owns(SegsOf(events)), k, x);
  }

  /** One event, and saves that are done before the next one. When saves keep up, the buffer stays small. */
  method DoEvent(
    p: FileWritingProc, events: seq<EncrEvent>, i: nat, done: nat, waiting: nat, out: seq<FileWrite>, ghost isGood: bool
  )
    returns (reported: seq<FileWrite>, left: nat, failure: Option<Problem>)
    requires i < |events| && Going(p, events[..i], out)
    requires isGood ==> AreGood(events) && KeptBy(p, SegsOf(events))
    modifies p, p.objFile, p.objFile.layout
    ensures failure.None? ==> Going(p, events[..i + 1], reported)
    ensures failure.None? && done > 0 ==> p.segs == [] || p.size < SAVING_BUF_SIZE
    ensures SegsIn(reported) <= p.objFile.segs
    ensures isGood ==> failure.None? && KeptBy(p, SegsOf(events))
  {
    reported, left := out, waiting;
    failure := AddEvent(p, events, out, i, events[i], isGood);
    if failure.Some? {
      return;
    }
    if p.CanSaveBuffered() {
      left := left + 1;
    }
    var n := if done < left then done else left;
    reported, failure := SaveTimes(p, events[..i + 1], out, n, SegsOf(events), isGood);
    left := left - n;
  }

  /**
    Saves start one at a time, after events that fill the buffer; done[i] says how many of those that
    wait are done between event i and the next one. Those left, and the final one, are done at the end.
    Whatever this timing is, a run that goes well puts each byte of segments to its own place once, and saves the only
    header once; segments with places of their own, and with a layout that suits them, fail only by a second header.
  */
  method AssembleProc(objFile: ObjVersionFile, events: seq<EncrEvent>, done: seq<nat>)
    returns (out: seq<FileWrite>, failure: Option<Problem>)
    requires objFile.IsNew() && |done| == |events|
    modifies objFile, objFile.layout
    ensures failure.None? ==> IsWritten(objFile, events, out)
    ensures SegsIn(out) <= objFile.segs
    ensures Proper(SegsOf(events)) && LayoutsSuit(events) ==> (failure.Some? <==> |HeadersOf(events)| > 1)
  {
    var p := new FileWritingProc(objFile);
    var waiting: nat := 0;
    ghost var all, isGood := SegsOf(events), AreGood(events);
    out, failure := [], None;
    for i := 0 to |events|
      invariant fresh(p) && p.objFile == objFile
      invariant Going(p, events[..i], out)
      invariant isGood ==> KeptBy(p, all)
    {
      out, waiting, failure := DoEvent(p, events, i, done[i], waiting, out, isGood);
      if failure.Some? {
        return;
      }
    }
    assert events[..|events|] == events;
    out, failure := SaveTimes(p, events, out, waiting, all, isGood);
    if failure.Some? {
      return;
    }
    out, failure := SaveOnce(p, events, out, all, isGood);
  }

  /** Layout is frozen by the first header, and the second one fails a run under any timing. */
  method SecondHeaderFails(first: Bytes, second: Bytes, sections: seq<Section>, done: seq<nat>)
    returns (failure: Option<Problem>)
    requires |done| == 2
    ensures failure.Some?
  {
    var events := [HeaderEvent(first, sections), HeaderEvent(second, sections)];
    EventsNext(events, 0);
    EventsNext(events, 1);
    assert events[..2] == events && events[..0] == [];
    var objFile := new ObjVersionFile.CreateNew();
    var out;
    out, failure := AssembleProc(objFile, events, done);
  }
}
