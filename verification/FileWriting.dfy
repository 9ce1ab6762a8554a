/** Saving of encrypted segments: neighbours are put together into bigger writes. */
module FileWriting {
  import opened Wrappers
  import opened ObjLayout

  type Bytes = seq<bv8>

  datatype SegEvent = SegEvent(packedOfs: nat, packedLen: nat, seg: Bytes)

  datatype SegsWrite = SegsWrite(ofs: nat, bytes: Bytes)

  datatype FileWrite = HeaderWrite(header: Bytes) | SegmentsWrite(segs: SegsWrite)

  datatype Problem = SameOffset | Missorted | LayoutRefused | SegmentsRefused

  // ---------- bytes at their places in a file

  /** How many times a write puts byte b at place k. */
  function Puts(w: SegsWrite, k: nat, b: bv8): nat {
    if w.ofs <= k < w.ofs + |w.bytes| && w.bytes[k - w.ofs] == b then 1 else 0
  }

  function AllPut(writes: seq<SegsWrite>, k: nat, b: bv8): nat {
    if |writes| == 0 then 0 else Puts(writes[0], k, b) + AllPut(writes[1..], k, b)
  }

  /** A segment at its own place. */
  function Own(s: SegEvent): SegsWrite {
    SegsWrite(s.packedOfs, s.seg)
  }

  function Owns(segs: seq<SegEvent>): (owns: seq<SegsWrite>)
    ensures |owns| == |segs|
  {
    seq(|segs|, i requires 0 <= i < |segs| => Own(segs[i]))
  }

  predicate ArePutSame(a: seq<SegsWrite>, b: seq<SegsWrite>, k: nat, x: bv8) {
    AllPut(a, k, x) == AllPut(b, k, x)
  }

  /** Every byte is put to every place the same number of times. */
  ghost predicate SamePut(a: seq<SegsWrite>, b: seq<SegsWrite>) {
    forall k, x :: ArePutSame(a, b, k, x)
  }

  lemma {:induction false} AllPutByBoth(a: seq<SegsWrite>, b: seq<SegsWrite>, k: nat, x: bv8)
    ensures AllPut(a + b, k, x) == AllPut(a, k, x) + AllPut(b, k, x)
    decreases |a|
  {
    if |a| == 0 {
      assert a + b == b;
    } else {
      assert (a + b)[1..] == a[1..] + b;
      AllPutByBoth(a[1..], b, k, x);
    }
  }

  lemma AllPutByNext(a: seq<SegsWrite>, w: SegsWrite, k: nat, x: bv8)
    ensures AllPut(a + [w], k, x) == AllPut(a, k, x) + Puts(w, k, x)
  {
    AllPutByBoth(a, [w], k, x);
    assert AllPut([w], k, x) == Puts(w, k, x) + AllPut([w][1..], k, x);
  }

  lemma {:induction false} AnyOrderPutsSame(a: seq<SegEvent>, b: seq<SegEvent>, k: nat, x: bv8)
    requires multiset(a) == multiset(b)
    ensures AllPut(Owns(a), k, x) == AllPut(Owns(b), k, x)
    decreases |a|
  {
    if |a| == 0 {
      assert |multiset(b)| == 0;
    } else {
      assert a[0] in multiset(b);
      var j :| 0 <= j < |b| && b[j] == a[0];
      TakenOut(a, b, j);
      AnyOrderPutsSame(a[1..], b[..j] + b[j + 1..], k, x);
      TakenOutPut(b, j, k, x);
      assert Owns(a)[1..] == Owns(a[1..]);
    }
  }

  lemma TakenOut(a: seq<SegEvent>, b: seq<SegEvent>, j: nat)
    requires multiset(a) == multiset(b)
    requires j < |b| && |a| > 0 && b[j] == a[0]
    ensures multiset(a[1..]) == multiset(b[..j] + b[j + 1..])
  {
    var rest := b[..j] + b[j + 1..];
    assert b == b[..j] + [b[j]] + b[j + 1..];
    assert a == [a[0]] + a[1..];
    assert multiset(b) == multiset(rest) + multiset{b[j]};
    assert multiset(a) == multiset(a[1..]) + multiset{a[0]};
    assert multiset(a[1..]) == multiset(a) - multiset{a[0]};
    assert multiset(rest) == multiset(b) - multiset{b[j]};
  }

  lemma TakenOutPut(b: seq<SegEvent>, j: nat, k: nat, x: bv8)
    requires j < |b|
    ensures AllPut(Owns(b), k, x) == Puts(Own(b[j]), k, x) + AllPut(Owns(b[..j] + b[j + 1..]), k, x)
  {
    assert Owns(b) == Owns(b[..j]) + [Own(b[j])] + Owns(b[j + 1..]);
    assert Owns(b[..j] + b[j + 1..]) == Owns(b[..j]) + Owns(b[j + 1..]);
    AllPutByBoth(Owns(b[..j]) + [Own(b[j])], Owns(b[j + 1..]), k, x);
    AllPutByNext(Owns(b[..j]), Own(b[j]), k, x);
    AllPutByBoth(Owns(b[..j]), Owns(b[j + 1..]), k, x);
  }

  lemma OwnsNext(segs: seq<SegEvent>, i: nat)
    requires i < |segs|
    ensures Owns(segs[..i + 1]) == Owns(segs[..i]) + [Own(segs[i])]
  {}

  // ---------- order of segments

  ghost predicate DistinctOffsets(segs: seq<SegEvent>) {
    forall i, j :: 0 <= i < j < |segs| ==> segs[i].packedOfs != segs[j].packedOfs
  }

  ghost predicate Increasing(segs: seq<SegEvent>) {
    forall i, j :: 0 <= i < j < |segs| ==> segs[i].packedOfs < segs[j].packedOfs
  }

  /** Comparing of equal offsets throws. Any two neighbours in the order have to be compared. */
  method SortByOffset(segs: seq<SegEvent>) returns (sorted: Option<seq<SegEvent>>)
    ensures sorted.Some? <==> DistinctOffsets(segs)
    ensures sorted.Some? ==> multiset(sorted.value) == multiset(segs) && Increasing(sorted.value)
  {
    var done: seq<SegEvent> := [];
    var i := 0;
    while i < |segs|
      invariant i <= |segs|
      invariant IsSorting(segs[..i], done)
    {
      var k := PlaceFor(done, segs[i].packedOfs);
      if k > 0 && done[k - 1].packedOfs == segs[i].packedOfs {
        SameIsAmong(segs, i, done, k - 1);
        return None;
      }
      SortedByOneMore(segs, i, done, k);
      done := done[..k] + [segs[i]] + done[k..];
      i := i + 1;
    }
    assert segs[..i] == segs;
    sorted := Some(done);
  }

  ghost predicate IsSorting(segs: seq<SegEvent>, sorted: seq<SegEvent>) {
    multiset(sorted) == multiset(segs) && Increasing(sorted) && DistinctOffsets(segs)
  }

  lemma SortedByOneMore(segs: seq<SegEvent>, i: nat, done: seq<SegEvent>, k: nat)
    requires i < |segs| && k <= |done| && IsSorting(segs[..i], done)
    requires forall j :: k <= j < |done| ==> segs[i].packedOfs < done[j].packedOfs
    requires forall j :: 0 <= j < k ==> done[j].packedOfs < segs[i].packedOfs
    ensures IsSorting(segs[..i + 1], done[..k] + [segs[i]] + done[k..])
  {
    NewIsDistinct(segs, i, done);
    Inserted(segs, i, done, k);
    InsertedInOrder(done, segs[i], k);
  }

  method PlaceFor(done: seq<SegEvent>, ofs: nat) returns (k: nat)
    requires Increasing(done)
    ensures k <= |done|
    ensures forall j :: k <= j < |done| ==> ofs < done[j].packedOfs
    ensures forall j :: 0 <= j < k - 1 ==> done[j].packedOfs < ofs
    ensures k > 0 ==> done[k - 1].packedOfs <= ofs
  {
    k := |done|;
    while k > 0 && ofs < done[k - 1].packedOfs
      invariant k <= |done|
      invariant forall j :: k <= j < |done| ==> ofs < done[j].packedOfs
    {
      k := k - 1;
    }
  }

  lemma InsertedInOrder(done: seq<SegEvent>, s: SegEvent, k: nat)
    requires Increasing(done) && k <= |done|
    requires forall j :: k <= j < |done| ==> s.packedOfs < done[j].packedOfs
    requires forall j :: 0 <= j < k ==> done[j].packedOfs < s.packedOfs
    ensures Increasing(done[..k] + [s] + done[k..])
  {}

  lemma Inserted(segs: seq<SegEvent>, i: nat, done: seq<SegEvent>, k: nat)
    requires i < |segs| && k <= |done| && multiset(done) == multiset(segs[..i])
    ensures multiset(done[..k] + [segs[i]] + done[k..]) == multiset(segs[..i + 1])
  {
    assert done == done[..k] + done[k..];
    assert segs[..i + 1] == segs[..i] + [segs[i]];
  }

  lemma SameIsAmong(segs: seq<SegEvent>, i: nat, done: seq<SegEvent>, k: nat)
    requires i < |segs| && k < |done| && multiset(done) == multiset(segs[..i])
    requires done[k].packedOfs == segs[i].packedOfs
    ensures !DistinctOffsets(segs)
  {
    assert done[k] in multiset(segs[..i]);
    var j :| 0 <= j < i && segs[j] == done[k];
  }

  lemma NewIsDistinct(segs: seq<SegEvent>, i: nat, done: seq<SegEvent>)
    requires i < |segs| && multiset(done) == multiset(segs[..i]) && DistinctOffsets(segs[..i])
    requires forall j :: 0 <= j < |done| ==> done[j].packedOfs != segs[i].packedOfs
    ensures DistinctOffsets(segs[..i + 1])
  {
    forall j | 0 <= j < i ensures segs[j].packedOfs != segs[i].packedOfs {
      assert segs[..i][j] in multiset(done);
    }
  }

  // ---------- putting segments together

  /** Packed length from segment's info is used only for the first segment. */
  function Extent(s: SegEvent, isFirst: bool): nat {
    if isFirst then s.packedLen else |s.seg|
  }

  ghost predicate IsLowest(s: SegEvent, segs: seq<SegEvent>) {
    forall t :: t in segs ==> s.packedOfs <= t.packedOfs
  }

  ghost predicate NoOverlap(segs: seq<SegEvent>) {
    forall s, t :: s in segs && t in segs && s.packedOfs < t.packedOfs ==>
      s.packedOfs + Extent(s, IsLowest(s, segs)) <= t.packedOfs
  }

  ghost predicate WellSized(segs: seq<SegEvent>) {
    forall s :: s in segs ==> s.packedLen == |s.seg|
  }

  /** Between writes there are places, that are not written. */
  ghost predicate Gapped(writes: seq<SegsWrite>) {
    forall i, j :: 0 <= i < j < |writes| ==> writes[i].ofs + |writes[i].bytes| < writes[j].ofs
  }

  function SegSpan(s: SegEvent): Span {
    Span(s.packedOfs, s.packedOfs + |s.seg|)
  }

  function WriteSpan(w: SegsWrite): Span {
    Span(w.ofs, w.ofs + |w.bytes|)
  }

  ghost predicate SegsApart(segs: seq<SegEvent>, x: Span) {
    forall s :: s in segs ==> Apart(SegSpan(s), x)
  }

  ghost predicate WritesApart(writes: seq<SegsWrite>, x: Span) {
    forall j :: 0 <= j < |writes| ==> Apart(WriteSpan(writes[j]), x)
  }

  /** Writes take no places besides those of segments. */
  ghost predicate KeepApart(segs: seq<SegEvent>, writes: seq<SegsWrite>) {
    forall x :: SegsApart(segs, x) ==> WritesApart(writes, x)
  }

  method CombineSegsFrom(segs: seq<SegEvent>) returns (r: Result<seq<SegsWrite>, Problem>)
    ensures r.Success? <==> DistinctOffsets(segs) && NoOverlap(segs)
    ensures r == Failure(SameOffset) <==> !DistinctOffsets(segs)
    ensures r == Failure(Missorted) <==> DistinctOffsets(segs) && !NoOverlap(segs)
    ensures r.Success? && WellSized(segs) ==> Gapped(r.value)
    ensures r.Success? && WellSized(segs) ==> SamePut(r.value, Owns(segs)) && KeepApart(segs, r.value)
    ensures segs == [] ==> r == Success([])
  {
    if |segs| == 0 {
      return Success([]);
    }
    var ordered := SortByOffset(segs);
    if ordered.None? {
      return Failure(SameOffset);
    }
    var sorted := ordered.value;
    SameElements(segs, sorted);
    var chunkStart: nat := sorted[0].packedOfs;
    var chunkEnd: nat := chunkStart + sorted[0].packedLen;
    var chunkBytes := sorted[0].seg;
    var chunks: seq<SegsWrite> := [];
    assert Owns(sorted[..1]) == [] + [Own(sorted[0])];
    OneKeepsApart(sorted[0]);
    assert sorted[..1] == [sorted[0]] && [] + [Own(sorted[0])] == [Own(sorted[0])];
    var i := 1;
    while i < |sorted|
      invariant 1 <= i <= |sorted|
      invariant chunkEnd == sorted[i - 1].packedOfs + Extent(sorted[i - 1], i == 1)
      invariant forall j :: 0 < j < i ==> Touches(sorted, j)
      invariant WellSized(sorted) ==> Assembled(chunks, SegsWrite(chunkStart, chunkBytes), chunkEnd, sorted[..i])
    {
      var s := sorted[i];
      assert s in sorted;
      if chunkEnd == s.packedOfs {
        if WellSized(sorted) { ChunkGrows(chunks, SegsWrite(chunkStart, chunkBytes), chunkEnd, sorted, i); }
        chunkEnd := chunkEnd + |s.seg|;
        chunkBytes := chunkBytes + s.seg;
      } else if chunkEnd < s.packedOfs {
        if WellSized(sorted) { ChunkEnds(chunks, SegsWrite(chunkStart, chunkBytes), chunkEnd, sorted, i); }
        chunks := chunks + [SegsWrite(chunkStart, chunkBytes)];
        chunkBytes := s.seg;
        chunkStart := s.packedOfs;
        chunkEnd := chunkStart + |s.seg|;
      } else {
        OverlapFound(segs, sorted, i);
        return Failure(Missorted);
      }
      i := i + 1;
    }
    AllTouch(segs, sorted);
    assert sorted[..i] == sorted;
    chunks := chunks + [SegsWrite(chunkStart, chunkBytes)];
    forall k, x | WellSized(segs) ensures ArePutSame(chunks, Owns(segs), k, x) {
      AnyOrderPutsSame(segs, sorted, k, x);
      assert ArePutSame(chunks, Owns(sorted), k, x);
    }
    assert forall x :: SegsApart(segs, x) ==> SegsApart(sorted, x);
    r := Success(chunks);
  }

  /** Chunks, the last one of which may still grow, carry segments. */
  ghost predicate Assembled(chunks: seq<SegsWrite>, last: SegsWrite, end: nat, segs: seq<SegEvent>) {
    && end == last.ofs + |last.bytes|
    && Gapped(chunks + [last])
    && SamePut(chunks + [last], Owns(segs))
    && KeepApart(segs, chunks + [last])
  }

  lemma OneKeepsApart(s: SegEvent)
    ensures KeepApart([s], [Own(s)])
  {
    assert forall x :: SegsApart([s], x) ==> s in [s] && Apart(SegSpan(s), x);
  }

  lemma SomeAreApart(sorted: seq<SegEvent>, i: nat, x: Span)
    requires i < |sorted| && SegsApart(sorted[..i + 1], x)
    ensures SegsApart(sorted[..i], x) && Apart(SegSpan(sorted[i]), x)
  {
    assert sorted[..i + 1] == sorted[..i] + [sorted[i]];
    assert sorted[i] in sorted[..i + 1];
  }

  lemma GrownKeepApart(chunks: seq<SegsWrite>, last: SegsWrite, sorted: seq<SegEvent>, i: nat)
    requires i < |sorted| && KeepApart(sorted[..i], chunks + [last]) && last.ofs + |last.bytes| == sorted[i].packedOfs
    ensures KeepApart(sorted[..i + 1], chunks + [SegsWrite(last.ofs, last.bytes + sorted[i].seg)])
  {
    var grown := SegsWrite(last.ofs, last.bytes + sorted[i].seg);
    forall x | SegsApart(sorted[..i + 1], x) ensures WritesApart(chunks + [grown], x) {
      SomeAreApart(sorted, i, x);
      assert (chunks + [last])[|chunks|] == last;
      assert forall j :: 0 <= j < |chunks| ==> (chunks + [grown])[j] == (chunks + [last])[j];
    }
  }

  lemma NextKeepApart(all: seq<SegsWrite>, sorted: seq<SegEvent>, i: nat)
    requires i < |sorted| && KeepApart(sorted[..i], all)
    ensures KeepApart(sorted[..i + 1], all + [Own(sorted[i])])
  {
    forall x | SegsApart(sorted[..i + 1], x) ensures WritesApart(all + [Own(sorted[i])], x) {
      SomeAreApart(sorted, i, x);
    }
  }

  lemma ChunkGrows(chunks: seq<SegsWrite>, last: SegsWrite, end: nat, sorted: seq<SegEvent>, i: nat)
    requires i < |sorted| && Assembled(chunks, last, end, sorted[..i]) && end == sorted[i].packedOfs
    ensures Assembled(chunks, SegsWrite(last.ofs, last.bytes + sorted[i].seg), end + |sorted[i].seg|, sorted[..i + 1])
  {
    var s := sorted[i];
    var grown := SegsWrite(last.ofs, last.bytes + s.seg);
    OwnsNext(sorted, i);
    var grownOwns := Owns(sorted[..i + 1]);
    forall k, x ensures ArePutSame(chunks + [grown], grownOwns, k, x) {
      assert ArePutSame(chunks + [last], Owns(sorted[..i]), k, x);
      AllPutByNext(chunks, last, k, x);
      AllPutByNext(chunks, grown, k, x);
      AllPutByNext(Owns(sorted[..i]), Own(s), k, x);
      assert Puts(grown, k, x) == Puts(last, k, x) + Puts(Own(s), k, x);
    }
    SameStarts(chunks, last, grown);
    GrownKeepApart(chunks, last, sorted, i);
  }

  lemma SameStarts(chunks: seq<SegsWrite>, last: SegsWrite, grown: SegsWrite)
    requires Gapped(chunks + [last]) && grown.ofs == last.ofs
    ensures Gapped(chunks + [grown])
  {
    assert forall j :: 0 <= j < |chunks| ==> (chunks + [grown])[j] == (chunks + [last])[j] == chunks[j];
    assert (chunks + [last])[|chunks|] == last && (chunks + [grown])[|chunks|] == grown;
  }

  lemma ChunkEnds(chunks: seq<SegsWrite>, last: SegsWrite, end: nat, sorted: seq<SegEvent>, i: nat)
    requires i < |sorted| && Assembled(chunks, last, end, sorted[..i]) && end < sorted[i].packedOfs
    ensures Assembled(chunks + [last], Own(sorted[i]), sorted[i].packedOfs + |sorted[i].seg|, sorted[..i + 1])
  {
    var next := Own(sorted[i]);
    var all := chunks + [last];
    OwnsNext(sorted, i);
    var nextOwns := Owns(sorted[..i + 1]);
    forall k, x ensures ArePutSame(all + [next], nextOwns, k, x) {
      assert ArePutSame(all, Owns(sorted[..i]), k, x);
      AllPutByNext(all, next, k, x);
      AllPutByNext(Owns(sorted[..i]), next, k, x);
    }
    assert forall j :: 0 <= j < |all| ==> (all + [next])[j] == all[j];
    assert all[|chunks|] == last;
    NextKeepApart(all, sorted, i);
  }

  ghost predicate Touches(sorted: seq<SegEvent>, j: nat)
    requires 0 < j < |sorted|
  {
    sorted[j - 1].packedOfs + Extent(sorted[j - 1], j == 1) <= sorted[j].packedOfs
  }

  lemma SameElements(a: seq<SegEvent>, b: seq<SegEvent>)
    requires multiset(a) == multiset(b)
    ensures |a| == |b| && forall s :: s in a <==> s in b
  {
    assert |a| == |multiset(a)| && |b| == |multiset(b)|;
    assert forall s :: s in a <==> s in multiset(a);
    assert forall s :: s in b <==> s in multiset(b);
  }

  lemma LowestIsFirst(segs: seq<SegEvent>, sorted: seq<SegEvent>, j: nat)
    requires multiset(segs) == multiset(sorted) && Increasing(sorted) && j < |sorted|
    ensures IsLowest(sorted[j], segs) <==> j == 0
  {
    SameElements(segs, sorted);
    assert sorted[0] in segs;
  }

  lemma OverlapFound(segs: seq<SegEvent>, sorted: seq<SegEvent>, j: nat)
    requires multiset(segs) == multiset(sorted) && Increasing(sorted)
    requires 0 < j < |sorted| && !Touches(sorted, j)
    ensures !NoOverlap(segs)
  {
    SameElements(segs, sorted);
    LowestIsFirst(segs, sorted, j - 1);
    assert sorted[j - 1] in segs && sorted[j] in segs;
  }

  lemma AllTouch(segs: seq<SegEvent>, sorted: seq<SegEvent>)
    requires multiset(segs) == multiset(sorted) && Increasing(sorted)
    requires forall j :: 0 < j < |sorted| ==> Touches(sorted, j)
    ensures NoOverlap(segs)
  {
    SameElements(segs, sorted);
    forall s, t | s in segs && t in segs && s.packedOfs < t.packedOfs
      ensures s.packedOfs + Extent(s, IsLowest(s, segs)) <= t.packedOfs
    {
      var i :| 0 <= i < |sorted| && sorted[i] == s;
      var j :| 0 <= j < |sorted| && sorted[j] == t;
      LowestIsFirst(segs, sorted, i);
      assert i < j && Touches(sorted, i + 1);
    }
  }
}
