/** Layout of an object's file: which bytes of object's version are in the file, and where. */
module ObjLayout {
  import opened Wrappers

  // ---------- places

  datatype Span = Span(ofs: nat, end: nat)

  predicate Before(a: Span, b: Span) {
    a.end <= b.ofs && a.ofs < b.ofs
  }

  /** No common bytes, and different starts, also when one of spans is empty. */
  predicate Apart(a: Span, b: Span) {
    Before(a, b) || Before(b, a)
  }

  /** Bytes of this version, which are not yet in the file, which are taken from a base version, or which
    * are in the file. */
  datatype Chunk =
    | New(ofs: nat, len: nat)
    | Base(ofs: nat, len: nat, baseOfs: nat)
    | OnDisk(ofs: nat, len: nat, fileOfs: nat)

  function End(c: Chunk): nat {
    c.ofs + c.len
  }

  function SpanOf(c: Chunk): Span {
    Span(c.ofs, End(c))
  }

  /** Byte k of this version is at place f in the file. */
  predicate IsAt(c: Chunk, k: nat, f: nat) {
    c.OnDisk? && c.ofs <= k < End(c) && f == c.fileOfs + (k - c.ofs)
  }

  ghost predicate At(chunks: seq<Chunk>, k: nat, f: nat) {
    exists i :: 0 <= i < |chunks| && IsAt(chunks[i], k, f)
  }

  /** All bytes, that are already somewhere, are apart from a span. */
  ghost predicate ClearOf(chunks: seq<Chunk>, x: Span) {
    forall i :: 0 <= i < |chunks| && !chunks[i].New? ==> Apart(SpanOf(chunks[i]), x)
  }

  ghost predicate AllApart(chunks: seq<Chunk>) {
    forall i, j :: 0 <= i < j < |chunks| ==> Apart(SpanOf(chunks[i]), SpanOf(chunks[j]))
  }

  /** Chunks follow each other. */
  ghost predicate IsChain(chunks: seq<Chunk>) {
    forall i :: 0 <= i < |chunks| - 1 ==> End(chunks[i]) == chunks[i + 1].ofs
  }

  /** Chunks follow each other from the start. */
  ghost predicate NoHoles(chunks: seq<Chunk>) {
    IsChain(chunks) && (|chunks| > 0 ==> chunks[0].ofs == 0)
  }

  function Total(chunks: seq<Chunk>): nat {
    if |chunks| == 0 then 0 else End(chunks[|chunks| - 1])
  }

  ghost predicate NewAreSeparated(chunks: seq<Chunk>) {
    forall i :: 0 <= i < |chunks| - 1 ==> !(chunks[i].New? && chunks[i + 1].New?)
  }

  // ---------- adding of bytes that are put in the file

  predicate CanMerge(a: Chunk, b: Chunk) {
    && End(a) == b.ofs
    && match (a, b)
       case (New(_, _), New(_, _)) => true
       case (Base(_, _, _), Base(_, _, _)) => true
       case (OnDisk(_, len, fileOfs), OnDisk(_, _, fileOfs')) => fileOfs + len == fileOfs'
       case _ => false
  }

  function WithLen(c: Chunk, len: nat): Chunk {
    c.(len := len)
  }

  /** Two neighbours as one chunk. */
  function MergedAt(chunks: seq<Chunk>, i: nat): seq<Chunk>
    requires i + 1 < |chunks|
  {
    chunks[..i] + [WithLen(chunks[i], chunks[i].len + chunks[i + 1].len)] + chunks[i + 2..]
  }

  function InsertedAt(chunks: seq<Chunk>, i: nat, c: Chunk): seq<Chunk>
    requires i <= |chunks|
  {
    chunks[..i] + [c] + chunks[i..]
  }

  function MergedWithNext(chunks: seq<Chunk>, i: nat): seq<Chunk>
    requires i < |chunks|
  {
    if i + 1 < |chunks| && CanMerge(chunks[i], chunks[i + 1]) then MergedAt(chunks, i) else chunks
  }

  /** A new chunk is merged with the one before it, and with the one after it. */
  function InsertedOrMerged(chunks: seq<Chunk>, i: nat, c: Chunk): seq<Chunk>
    requires i <= |chunks|
  {
    var inserted := InsertedAt(chunks, i, c);
    if i > 0 && CanMerge(chunks[i - 1], c) then MergedWithNext(MergedAt(inserted, i - 1), i - 1)
    else MergedWithNext(inserted, i)
  }

  /** How many chunks there are up to the last one that starts before a given place. */
  function CountUpTo(chunks: seq<Chunk>, end: nat): (n: nat)
    ensures n <= |chunks|
    ensures n > 0 ==> chunks[n - 1].ofs < end
    ensures forall j :: n <= j < |chunks| ==> end <= chunks[j].ofs
  {
    if |chunks| == 0 || chunks[|chunks| - 1].ofs < end then |chunks| else CountUpTo(chunks[..|chunks| - 1], end)
  }

  function LeftOf(c: Chunk, ofs: nat): seq<Chunk> {
    if c.ofs < ofs then [New(c.ofs, ofs - c.ofs)] else []
  }

  function RightOf(c: Chunk, end: nat): seq<Chunk> {
    if end < End(c) then [New(end, End(c) - end)] else []
  }

  /** Chunk at i without a part, in place of which another one is put. */
  function WithRoom(chunks: seq<Chunk>, i: nat, c: Chunk): seq<Chunk>
    requires i < |chunks|
  {
    chunks[..i] + LeftOf(chunks[i], c.ofs) + RightOf(chunks[i], End(c)) + chunks[i + 1..]
  }

  /** Chunks, and a place among them for a new one, when it overlaps with no bytes that are already somewhere. */
  function RoomFor(chunks: seq<Chunk>, c: Chunk): (r: Option<(seq<Chunk>, nat)>)
    ensures r.Some? ==> r.value.1 <= |r.value.0|
  {
    var n := CountUpTo(chunks, End(c));
    if n == 0 || End(chunks[n - 1]) <= c.ofs then Some((chunks, n))
    else if !chunks[n - 1].New? then None
    else Some((WithRoom(chunks, n - 1, c), n - 1 + |LeftOf(chunks[n - 1], c.ofs)|))
  }

  function Added(chunks: seq<Chunk>, c: Chunk): Option<seq<Chunk>> {
    var room := RoomFor(chunks, c);
    if room.None? then None else Some(InsertedOrMerged(room.value.0, room.value.1, c))
  }

  lemma MergedWithLast(chunks: seq<Chunk>, i: nat, c: Chunk)
    requires 0 < i <= |chunks|
    ensures MergedAt(InsertedAt(chunks, i, c), i - 1)
         == chunks[i - 1 := WithLen(chunks[i - 1], chunks[i - 1].len + c.len)]
  {
  }

  lemma MergedWithFirst(chunks: seq<Chunk>, i: nat, c: Chunk)
    requires i < |chunks|
    ensures MergedAt(InsertedAt(chunks, i, c), i) == chunks[i := WithLen(c, c.len + chunks[i].len)]
  {
  }

  method InsertOrMergeChunkAt(chunks: seq<Chunk>, insertInd: nat, c: Chunk) returns (r: seq<Chunk>)
    requires insertInd <= |chunks|
    ensures r == InsertedOrMerged(chunks, insertInd, c)
  {
    r := chunks;
    if insertInd > 0 && CanMerge(chunks[insertInd - 1], c) {
      var left := WithLen(chunks[insertInd - 1], chunks[insertInd - 1].len + c.len);
      r := r[insertInd - 1 := left];
      MergedWithLast(chunks, insertInd, c);
      if insertInd < |chunks| && CanMerge(left, chunks[insertInd]) {
        left := WithLen(left, left.len + chunks[insertInd].len);
        r := r[..insertInd - 1] + [left] + r[insertInd + 1..];
      }
    } else if insertInd < |chunks| && CanMerge(c, chunks[insertInd]) {
      r := r[insertInd := WithLen(c, c.len + chunks[insertInd].len)];
      MergedWithFirst(chunks, insertInd, c);
    } else {
      r := r[..insertInd] + [c] + r[insertInd..];
    }
  }

  lemma CountIs(chunks: seq<Chunk>, end: nat, n: nat)
    requires n <= |chunks| && (n > 0 ==> chunks[n - 1].ofs < end)
    requires forall j :: n <= j < |chunks| ==> end <= chunks[j].ofs
    ensures CountUpTo(chunks, end) == n
  {
  }

  method AddNewSegsChunkTo(chunks: seq<Chunk>, c: Chunk) returns (r: Option<seq<Chunk>>)
    requires c.OnDisk?
    ensures r == Added(chunks, c)
  {
    var i := |chunks|;
    while i > 0 && End(c) <= chunks[i - 1].ofs
      invariant 0 <= i <= |chunks|
      invariant forall j :: i <= j < |chunks| ==> End(c) <= chunks[j].ofs
    {
      i := i - 1;
    }
    CountIs(chunks, End(c), i);
    var all := chunks;
    var insertInd := i;
    if i > 0 && c.ofs < End(chunks[i - 1]) {
      if !chunks[i - 1].New? {
        return None;
      }
      all := WithRoom(chunks, i - 1, c);
      insertInd := i - 1 + |LeftOf(chunks[i - 1], c.ofs)|;
    }
    assert RoomFor(chunks, c) == Some((all, insertInd));
    var added := InsertOrMergeChunkAt(all, insertInd, c);
    r := Some(added);
  }

  // ---------- what adding does to places

  lemma AtBoth(a: seq<Chunk>, b: seq<Chunk>, k: nat, f: nat)
    ensures At(a + b, k, f) <==> At(a, k, f) || At(b, k, f)
  {
    if At(a, k, f) {
      var i :| 0 <= i < |a| && IsAt(a[i], k, f);
      assert (a + b)[i] == a[i];
    }
    if At(b, k, f) {
      var i :| 0 <= i < |b| && IsAt(b[i], k, f);
      assert (a + b)[|a| + i] == b[i];
    }
  }

  lemma AtThree(a: seq<Chunk>, m: seq<Chunk>, b: seq<Chunk>, k: nat, f: nat)
    ensures At(a + m + b, k, f) <==> At(a, k, f) || At(m, k, f) || At(b, k, f)
  {
    AtBoth(a + m, b, k, f);
    AtBoth(a, m, k, f);
  }

  lemma AtOne(c: Chunk, k: nat, f: nat)
    ensures At([c], k, f) <==> IsAt(c, k, f)
  {
    assert [c][0] == c;
  }

  lemma AtFirst(chunks: seq<Chunk>, k: nat, f: nat)
    requires |chunks| > 0
    ensures At(chunks, k, f) <==> IsAt(chunks[0], k, f) || At(chunks[1..], k, f)
  {
    assert chunks == [chunks[0]] + chunks[1..];
    AtBoth([chunks[0]], chunks[1..], k, f);
    AtOne(chunks[0], k, f);
  }

  lemma MergedKeepsAt(chunks: seq<Chunk>, i: nat, k: nat, f: nat)
    requires i + 1 < |chunks| && CanMerge(chunks[i], chunks[i + 1])
    ensures At(MergedAt(chunks, i), k, f) <==> At(chunks, k, f)
  {
    var one := WithLen(chunks[i], chunks[i].len + chunks[i + 1].len);
    assert chunks == chunks[..i] + [chunks[i], chunks[i + 1]] + chunks[i + 2..];
    AtThree(chunks[..i], [chunks[i], chunks[i + 1]], chunks[i + 2..], k, f);
    AtBoth([chunks[i]], [chunks[i + 1]], k, f);
    AtOne(chunks[i], k, f);
    AtOne(chunks[i + 1], k, f);
    AtThree(chunks[..i], [one], chunks[i + 2..], k, f);
    AtOne(one, k, f);
  }

  lemma MergedWithNextKeepsAt(chunks: seq<Chunk>, i: nat, k: nat, f: nat)
    requires i < |chunks|
    ensures At(MergedWithNext(chunks, i), k, f) <==> At(chunks, k, f)
  {
    if i + 1 < |chunks| && CanMerge(chunks[i], chunks[i + 1]) {
      MergedKeepsAt(chunks, i, k, f);
    }
  }

  lemma InsertedHasAt(chunks: seq<Chunk>, i: nat, c: Chunk, k: nat, f: nat)
    requires i <= |chunks|
    ensures At(InsertedOrMerged(chunks, i, c), k, f) <==> At(chunks, k, f) || IsAt(c, k, f)
  {
    var inserted := InsertedAt(chunks, i, c);
    assert chunks == chunks[..i] + chunks[i..];
    AtBoth(chunks[..i], chunks[i..], k, f);
    AtThree(chunks[..i], [c], chunks[i..], k, f);
    AtOne(c, k, f);
    if i > 0 && CanMerge(chunks[i - 1], c) {
      MergedKeepsAt(inserted, i - 1, k, f);
      MergedWithNextKeepsAt(MergedAt(inserted, i - 1), i - 1, k, f);
    } else {
      MergedWithNextKeepsAt(inserted, i, k, f);
    }
  }

  lemma RoomKeepsAt(chunks: seq<Chunk>, i: nat, c: Chunk, k: nat, f: nat)
    requires i < |chunks| && chunks[i].New?
    ensures At(WithRoom(chunks, i, c), k, f) <==> At(chunks, k, f)
  {
    var left, right := LeftOf(chunks[i], c.ofs), RightOf(chunks[i], End(c));
    assert chunks == chunks[..i] + [chunks[i]] + chunks[i + 1..];
    AtThree(chunks[..i], [chunks[i]], chunks[i + 1..], k, f);
    assert WithRoom(chunks, i, c) == chunks[..i] + (left + right) + chunks[i + 1..];
    AtThree(chunks[..i], left + right, chunks[i + 1..], k, f);
  }

  lemma RoomForKeepsAt(chunks: seq<Chunk>, c: Chunk, k: nat, f: nat)
    requires RoomFor(chunks, c).Some?
    ensures At(RoomFor(chunks, c).value.0, k, f) <==> At(chunks, k, f)
  {
    var n := CountUpTo(chunks, End(c));
    if n > 0 && c.ofs < End(chunks[n - 1]) {
      RoomKeepsAt(chunks, n - 1, c, k, f);
    }
  }

  /** Places that are told before stay, and those of added bytes are told, too. */
  lemma AddedAreAt(chunks: seq<Chunk>, c: Chunk, k: nat, f: nat)
    requires Added(chunks, c).Some?
    ensures At(Added(chunks, c).value, k, f) <==> At(chunks, k, f) || IsAt(c, k, f)
  {
    RoomForKeepsAt(chunks, c, k, f);
    var (room, i) := RoomFor(chunks, c).value;
    InsertedHasAt(room, i, c, k, f);
  }

  // ---------- when adding is refused

  /** Bytes that are apart from all that is somewhere, are never refused. */
  lemma ClearIsAdded(chunks: seq<Chunk>, c: Chunk)
    requires ClearOf(chunks, SpanOf(c))
    ensures Added(chunks, c).Some?
  {
  }

  lemma MergedKeepsClear(chunks: seq<Chunk>, i: nat, x: Span)
    requires i + 1 < |chunks| && CanMerge(chunks[i], chunks[i + 1]) && ClearOf(chunks, x)
    ensures ClearOf(MergedAt(chunks, i), x)
  {
    var merged := MergedAt(chunks, i);
    forall j | 0 <= j < |merged| && !merged[j].New? ensures Apart(SpanOf(merged[j]), x) {
      assert j > i ==> merged[j] == chunks[j + 1];
      assert !chunks[i].New? ==> Apart(SpanOf(chunks[i]), x) && Apart(SpanOf(chunks[i + 1]), x);
    }
  }

  lemma MergedWithNextKeepsClear(chunks: seq<Chunk>, i: nat, x: Span)
    requires i < |chunks| && ClearOf(chunks, x)
    ensures ClearOf(MergedWithNext(chunks, i), x)
  {
    if i + 1 < |chunks| && CanMerge(chunks[i], chunks[i + 1]) {
      MergedKeepsClear(chunks, i, x);
    }
  }

  lemma InsertedKeepsClear(chunks: seq<Chunk>, i: nat, c: Chunk, x: Span)
    requires i <= |chunks| && ClearOf(chunks, x) && Apart(SpanOf(c), x)
    ensures ClearOf(InsertedOrMerged(chunks, i, c), x)
  {
    var inserted := InsertedAt(chunks, i, c);
    assert forall j :: i < j < |inserted| ==> inserted[j] == chunks[j - 1];
    if i > 0 && CanMerge(chunks[i - 1], c) {
      MergedKeepsClear(inserted, i - 1, x);
      MergedWithNextKeepsClear(MergedAt(inserted, i - 1), i - 1, x);
    } else {
      MergedWithNextKeepsClear(inserted, i, x);
    }
  }

  lemma RoomKeepsClear(chunks: seq<Chunk>, i: nat, c: Chunk, x: Span)
    requires i < |chunks| && ClearOf(chunks, x)
    ensures ClearOf(WithRoom(chunks, i, c), x)
  {
    var room := WithRoom(chunks, i, c);
    var left, right := LeftOf(chunks[i], c.ofs), RightOf(chunks[i], End(c));
    var mid := |left| + |right|;
    assert forall j :: i <= j < i + mid ==> room[j].New?;
    forall j | 0 <= j < |room| && !room[j].New? ensures Apart(SpanOf(room[j]), x) {
      assert i + mid <= j ==> room[j] == chunks[j - mid + 1];
    }
  }

  /** What is apart from chunks, and from an added one, stays so. */
  lemma AddedKeepsClear(chunks: seq<Chunk>, c: Chunk, x: Span)
    requires Added(chunks, c).Some? && ClearOf(chunks, x) && Apart(SpanOf(c), x)
    ensures ClearOf(Added(chunks, c).value, x)
  {
    var n := CountUpTo(chunks, End(c));
    if n > 0 && c.ofs < End(chunks[n - 1]) {
      RoomKeepsClear(chunks, n - 1, c, x);
    }
    var (room, i) := RoomFor(chunks, c).value;
    InsertedKeepsClear(room, i, c, x);
  }

  // ---------- chunks of a file, for which layout is not set

  lemma MergedKeepsApart(chunks: seq<Chunk>, i: nat)
    requires i + 1 < |chunks| && CanMerge(chunks[i], chunks[i + 1]) && AllApart(chunks)
    ensures AllApart(MergedAt(chunks, i))
  {
    var merged := MergedAt(chunks, i);
    assert forall j :: i < j < |merged| ==> merged[j] == chunks[j + 1];
  }

  lemma MergedWithNextKeepsApart(chunks: seq<Chunk>, i: nat)
    requires i < |chunks| && AllApart(chunks)
    ensures AllApart(MergedWithNext(chunks, i))
  {
    if i + 1 < |chunks| && CanMerge(chunks[i], chunks[i + 1]) {
      MergedKeepsApart(chunks, i);
    }
  }

  lemma InsertedIsApart(chunks: seq<Chunk>, i: nat, c: Chunk)
    requires i <= |chunks| && AllApart(chunks)
    requires forall j :: 0 <= j < |chunks| ==> Apart(SpanOf(chunks[j]), SpanOf(c))
    ensures AllApart(InsertedAt(chunks, i, c))
  {
    var inserted := InsertedAt(chunks, i, c);
    assert forall j :: i < j < |inserted| ==> inserted[j] == chunks[j - 1];
  }

  lemma InsertedKeepsApart(chunks: seq<Chunk>, i: nat, c: Chunk)
    requires i <= |chunks| && AllApart(chunks)
    requires forall j :: 0 <= j < |chunks| ==> Apart(SpanOf(chunks[j]), SpanOf(c))
    ensures AllApart(InsertedOrMerged(chunks, i, c))
  {
    var inserted := InsertedAt(chunks, i, c);
    InsertedIsApart(chunks, i, c);
    if i > 0 && CanMerge(chunks[i - 1], c) {
      MergedKeepsApart(inserted, i - 1);
      MergedWithNextKeepsApart(MergedAt(inserted, i - 1), i - 1);
    } else {
      MergedWithNextKeepsApart(inserted, i);
    }
  }

  ghost predicate AllOnDisk(chunks: seq<Chunk>) {
    forall i :: 0 <= i < |chunks| ==> chunks[i].OnDisk?
  }

  lemma MergedKeepsOnDisk(chunks: seq<Chunk>, i: nat)
    requires i < |chunks| && AllOnDisk(chunks)
    ensures AllOnDisk(MergedWithNext(chunks, i))
    ensures i + 1 < |chunks| ==> AllOnDisk(MergedAt(chunks, i))
  {
  }

  lemma AddedKeepsOnDisk(chunks: seq<Chunk>, c: Chunk)
    requires AllOnDisk(chunks) && c.OnDisk? && Added(chunks, c).Some?
    ensures AllOnDisk(Added(chunks, c).value)
  {
    var n := CountUpTo(chunks, End(c));
    assert RoomFor(chunks, c) == Some((chunks, n));
    var inserted := InsertedAt(chunks, n, c);
    assert AllOnDisk(inserted);
    if n > 0 && CanMerge(chunks[n - 1], c) {
      MergedKeepsOnDisk(inserted, n - 1);
      MergedKeepsOnDisk(MergedAt(inserted, n - 1), n - 1);
    } else {
      MergedKeepsOnDisk(inserted, n);
    }
  }

  lemma AddedKeepsApart(chunks: seq<Chunk>, c: Chunk)
    requires AllOnDisk(chunks) && AllApart(chunks) && c.OnDisk? && ClearOf(chunks, SpanOf(c))
    ensures Added(chunks, c).Some? && AllApart(Added(chunks, c).value)
  {
    ClearIsAdded(chunks, c);
    InsertedKeepsApart(chunks, CountUpTo(chunks, End(c)), c);
  }

  // ---------- chunks of a file, for which layout is set

  /** Chunks of a layout: there are no holes, and neighbouring new chunks would be one chunk. */
  ghost predicate IsLaidOut(chunks: seq<Chunk>) {
    NoHoles(chunks) && NewAreSeparated(chunks)
  }

  lemma MergedKeepsLayout(chunks: seq<Chunk>, i: nat)
    requires i + 1 < |chunks| && CanMerge(chunks[i], chunks[i + 1]) && IsLaidOut(chunks)
    ensures IsLaidOut(MergedAt(chunks, i)) && Total(MergedAt(chunks, i)) == Total(chunks)
  {
    var merged := MergedAt(chunks, i);
    assert forall j :: i < j < |merged| ==> merged[j] == chunks[j + 1];
    assert forall j :: 0 <= j < i ==> merged[j] == chunks[j];
  }

  lemma MergedWithNextKeepsLayout(chunks: seq<Chunk>, i: nat)
    requires i < |chunks| && IsLaidOut(chunks)
    ensures IsLaidOut(MergedWithNext(chunks, i)) && Total(MergedWithNext(chunks, i)) == Total(chunks)
  {
    if i + 1 < |chunks| && CanMerge(chunks[i], chunks[i + 1]) {
      MergedKeepsLayout(chunks, i);
    }
  }

  lemma InsertedKeepsLayout(chunks: seq<Chunk>, i: nat, c: Chunk)
    requires i <= |chunks| && IsLaidOut(InsertedAt(chunks, i, c))
    ensures IsLaidOut(InsertedOrMerged(chunks, i, c))
    ensures Total(InsertedOrMerged(chunks, i, c)) == Total(InsertedAt(chunks, i, c))
  {
    var inserted := InsertedAt(chunks, i, c);
    if i > 0 && CanMerge(chunks[i - 1], c) {
      MergedKeepsLayout(inserted, i - 1);
      MergedWithNextKeepsLayout(MergedAt(inserted, i - 1), i - 1);
    } else {
      MergedWithNextKeepsLayout(inserted, i);
    }
  }

  /** One chunk may follow another. */
  predicate Follows(a: Chunk, b: Chunk) {
    End(a) == b.ofs && !(a.New? && b.New?)
  }

  ghost predicate AreFollowing(chunks: seq<Chunk>) {
    forall i :: 0 <= i < |chunks| - 1 ==> Follows(chunks[i], chunks[i + 1])
  }

  lemma BothAreFollowing(a: seq<Chunk>, b: seq<Chunk>)
    requires AreFollowing(a) && AreFollowing(b)
    requires |a| > 0 && |b| > 0 ==> Follows(a[|a| - 1], b[0])
    ensures AreFollowing(a + b)
  {
    assert forall j :: |a| <= j < |a| + |b| ==> (a + b)[j] == b[j - |a|];
  }

  lemma LayoutIsFollowing(chunks: seq<Chunk>)
    ensures IsLaidOut(chunks) <==> AreFollowing(chunks) && (|chunks| > 0 ==> chunks[0].ofs == 0)
  {
    if AreFollowing(chunks) {
      assert forall i :: 0 <= i < |chunks| - 1 ==> Follows(chunks[i], chunks[i + 1]);
    }
  }

  lemma PartsAreFollowing(chunks: seq<Chunk>, i: nat, mid: seq<Chunk>)
    requires i < |chunks| && AreFollowing(chunks) && AreFollowing(mid) && |mid| > 0
    requires mid[0].ofs == chunks[i].ofs && End(mid[|mid| - 1]) == End(chunks[i])
    requires mid[0].New? ==> chunks[i].New?
    requires mid[|mid| - 1].New? ==> chunks[i].New?
    ensures AreFollowing(chunks[..i] + mid + chunks[i + 1..])
  {
    var pre, post := chunks[..i], chunks[i + 1..];
    assert i > 0 ==> Follows(chunks[i - 1], chunks[i]);
    assert i + 1 < |chunks| ==> Follows(chunks[i], chunks[i + 1]);
    assert AreFollowing(pre);
    assert forall j :: 0 <= j < |post| ==> post[j] == chunks[i + 1 + j];
    assert AreFollowing(post);
    BothAreFollowing(pre, mid);
    BothAreFollowing(pre + mid, post);
  }

  /** Bytes inside of layout, that are apart from all that is somewhere, are either inside of one
    * chunk, or there are none of them. */
  lemma PlaceAtEdge(chunks: seq<Chunk>, c: Chunk, n: nat)
    requires NoHoles(chunks) && End(c) <= Total(chunks) && n == CountUpTo(chunks, End(c))
    requires n == 0 || End(chunks[n - 1]) <= c.ofs
    ensures c.len == 0 && c.ofs == if n == 0 then 0 else End(chunks[n - 1])
  {
    if 0 < n < |chunks| {
      assert End(chunks[n - 1]) == chunks[n].ofs;
    }
  }

  lemma PlaceInside(chunks: seq<Chunk>, c: Chunk, n: nat)
    requires IsLaidOut(chunks) && ClearOf(chunks, SpanOf(c)) && End(c) <= Total(chunks)
    requires n == CountUpTo(chunks, End(c)) && n > 0 && c.ofs < End(chunks[n - 1])
    ensures chunks[n - 1].New? && chunks[n - 1].ofs <= c.ofs && End(c) <= End(chunks[n - 1])
  {
    assert chunks[n - 1].New? || Apart(SpanOf(chunks[n - 1]), SpanOf(c));
    if n < |chunks| {
      assert End(chunks[n - 1]) == chunks[n].ofs;
    }
    if n > 1 {
      assert End(chunks[n - 2]) == chunks[n - 1].ofs;
      assert !chunks[n - 2].New? && Apart(SpanOf(chunks[n - 2]), SpanOf(c));
    }
  }

  lemma EmptyKeepsLayout(chunks: seq<Chunk>, n: nat, c: Chunk)
    requires IsLaidOut(chunks) && c.OnDisk? && n <= |chunks|
    requires c.len == 0 && c.ofs == if n == 0 then 0 else End(chunks[n - 1])
    ensures IsLaidOut(InsertedAt(chunks, n, c)) && Total(InsertedAt(chunks, n, c)) == Total(chunks)
  {
    var inserted := InsertedAt(chunks, n, c);
    assert forall j :: n < j < |inserted| ==> inserted[j] == chunks[j - 1];
    assert forall j :: 0 <= j < n ==> inserted[j] == chunks[j];
  }

  lemma RoomKeepsLayout(chunks: seq<Chunk>, i: nat, c: Chunk)
    requires IsLaidOut(chunks) && c.OnDisk? && i < |chunks| && chunks[i].New?
    requires chunks[i].ofs <= c.ofs && End(c) <= End(chunks[i])
    ensures var inserted := InsertedAt(WithRoom(chunks, i, c), i + |LeftOf(chunks[i], c.ofs)|, c);
            IsLaidOut(inserted) && Total(inserted) == Total(chunks)
  {
    var left, right := LeftOf(chunks[i], c.ofs), RightOf(chunks[i], End(c));
    var mid := left + [c] + right;
    var inserted := InsertedAt(WithRoom(chunks, i, c), i + |left|, c);
    assert inserted == chunks[..i] + mid + chunks[i + 1..];
    LayoutIsFollowing(chunks);
    PartsAreFollowing(chunks, i, mid);
    LayoutIsFollowing(inserted);
  }

  lemma RoomAtEdgeKeepsLayout(chunks: seq<Chunk>, c: Chunk, n: nat)
    requires IsLaidOut(chunks) && c.OnDisk? && End(c) <= Total(chunks)
    requires n == CountUpTo(chunks, End(c)) && (n == 0 || End(chunks[n - 1]) <= c.ofs)
    ensures RoomFor(chunks, c) == Some((chunks, n))
    ensures IsLaidOut(InsertedAt(chunks, n, c)) && Total(InsertedAt(chunks, n, c)) == Total(chunks)
  {
    PlaceAtEdge(chunks, c, n);
    EmptyKeepsLayout(chunks, n, c);
  }

  lemma RoomInsideKeepsLayout(chunks: seq<Chunk>, c: Chunk, n: nat) returns (room: seq<Chunk>, i: nat)
    requires IsLaidOut(chunks) && c.OnDisk? && ClearOf(chunks, SpanOf(c)) && End(c) <= Total(chunks)
    requires n == CountUpTo(chunks, End(c)) && n > 0 && c.ofs < End(chunks[n - 1])
    ensures i <= |room| && RoomFor(chunks, c) == Some((room, i))
    ensures IsLaidOut(InsertedAt(room, i, c)) && Total(InsertedAt(room, i, c)) == Total(chunks)
  {
    PlaceInside(chunks, c, n);
    RoomKeepsLayout(chunks, n - 1, c);
    room, i := WithRoom(chunks, n - 1, c), n - 1 + |LeftOf(chunks[n - 1], c.ofs)|;
  }

  /** Inside of layout, what is apart from all that is somewhere, is added without making holes. */
  lemma AddedKeepsLayout(chunks: seq<Chunk>, c: Chunk)
    requires IsLaidOut(chunks) && c.OnDisk? && ClearOf(chunks, SpanOf(c)) && End(c) <= Total(chunks)
    ensures Added(chunks, c).Some?
    ensures IsLaidOut(Added(chunks, c).value) && Total(Added(chunks, c).value) == Total(chunks)
  {
    var n := CountUpTo(chunks, End(c));
    if n == 0 || End(chunks[n - 1]) <= c.ofs {
      RoomAtEdgeKeepsLayout(chunks, c, n);
      InsertedKeepsLayout(chunks, n, c);
    } else {
      var room, i := RoomInsideKeepsLayout(chunks, c, n);
      InsertedKeepsLayout(room, i, c);
    }
  }

  // ---------- setting of layout

  /** New bytes may have no end, when they are last. */
  datatype Section =
    | NewSection(ofs: nat, len: nat)
    | BaseSection(ofs: nat, len: nat, baseOfs: nat)
    | EndlessSection(ofs: nat)

  function ChunkOf(s: Section): Chunk
    requires !s.EndlessSection?
  {
    match s
    case NewSection(ofs, len) => New(ofs, len)
    case BaseSection(ofs, len, baseOfs) => Base(ofs, len, baseOfs)
  }

  /** Sections follow each other from a given place. */
  predicate AreInRow(sections: seq<Section>, from: nat) {
    |sections| > 0 ==>
      && sections[0].ofs == from
      && if sections[0].EndlessSection? then |sections| == 1 else AreInRow(sections[1..], End(ChunkOf(sections[0])))
  }

  /** Endless section has no chunk. */
  function ChunksOf(sections: seq<Section>): seq<Chunk> {
    if |sections| == 0 then []
    else (if sections[0].EndlessSection? then [] else [ChunkOf(sections[0])]) + ChunksOf(sections[1..])
  }

  lemma {:induction false} RowIsChain(sections: seq<Section>, from: nat)
    requires AreInRow(sections, from)
    ensures var chunks := ChunksOf(sections);
            IsChain(chunks) && (|chunks| > 0 ==> chunks[0].ofs == from)
    decreases |sections|
  {
    if |sections| > 0 && !sections[0].EndlessSection? {
      RowIsChain(sections[1..], End(ChunkOf(sections[0])));
    } else if |sections| > 0 {
      assert ChunksOf(sections[1..]) == [];
    }
  }

  lemma {:induction false} ChunksOfBoth(a: seq<Section>, b: seq<Section>)
    ensures ChunksOf(a + b) == ChunksOf(a) + ChunksOf(b)
    decreases |a|
  {
    if |a| == 0 {
      assert a + b == b;
    } else {
      assert (a + b)[1..] == a[1..] + b && (a + b)[0] == a[0];
      ChunksOfBoth(a[1..], b);
    }
  }

  /** Each section with an end has its chunk, of the same source and places. */
  lemma {:induction false} SectionIsChunk(sections: seq<Section>, from: nat, i: nat)
    requires AreInRow(sections, from) && i < |sections| && !sections[i].EndlessSection?
    ensures i < |ChunksOf(sections)|
    ensures var s, c := sections[i], ChunksOf(sections)[i];
            && (s.NewSection? ==> c == New(s.ofs, s.len))
            && (s.BaseSection? ==> c == Base(s.ofs, s.len, s.baseOfs))
    decreases |sections|
  {
    if i > 0 {
      SectionIsChunk(sections[1..], End(ChunkOf(sections[0])), i - 1);
    }
  }

  method LayoutSectionsToSegsChunks(sections: seq<Section>) returns (r: Option<seq<Chunk>>)
    ensures r == if AreInRow(sections, 0) then Some(ChunksOf(sections)) else None
  {
    var expected: nat := 0;
    var chunks: seq<Chunk> := [];
    var i := 0;
    while i < |sections|
      invariant i <= |sections|
      invariant chunks == ChunksOf(sections[..i])
      invariant i > 0 && sections[i - 1].EndlessSection? ==> i == |sections|
      invariant AreInRow(sections, 0) <==> i == |sections| || AreInRow(sections[i..], expected)
    {
      var section := sections[i];
      assert sections[i..][1..] == sections[i + 1..];
      assert sections[..i + 1] == sections[..i] + [section];
      ChunksOfBoth(sections[..i], [section]);
      assert [section][1..] == [];
      if section.ofs != expected {
        return None;
      }
      if section.EndlessSection? {
        if i != |sections| - 1 {
          return None;
        }
      } else {
        chunks := chunks + [ChunkOf(section)];
        expected := End(ChunkOf(section));
      }
      i := i + 1;
    }
    assert sections[..i] == sections;
    r := Some(chunks);
  }

  /** Chunks that are in the file are put over those of layout. */
  function Combined(layout: seq<Chunk>, chunks: seq<Chunk>): Option<seq<Chunk>>
    decreases |chunks|
  {
    if |chunks| == 0 then Some(layout)
    else if !chunks[0].OnDisk? then None
    else
      var added := Added(layout, chunks[0]);
      if added.None? then None else Combined(added.value, chunks[1..])
  }

  method CombineChunksOnDiskWithLayout(layout: seq<Chunk>, chunks: seq<Chunk>) returns (r: Option<seq<Chunk>>)
    ensures r == Combined(layout, chunks)
  {
    var all := layout;
    var i := 0;
    while i < |chunks|
      invariant i <= |chunks|
      invariant Combined(layout, chunks) == Combined(all, chunks[i..])
    {
      assert chunks[i..][1..] == chunks[i + 1..];
      if !chunks[i].OnDisk? {
        return None;
      }
      var added := AddNewSegsChunkTo(all, chunks[i]);
      if added.None? {
        return None;
      }
      all := added.value;
      i := i + 1;
    }
    r := Some(all);
  }

  method EnsureNoHolesIn(chunks: seq<Chunk>) returns (ok: bool)
    ensures ok <==> NoHoles(chunks)
  {
    var ofs: nat := 0;
    var i := 0;
    while i < |chunks|
      invariant i <= |chunks| && ofs == Total(chunks[..i])
      invariant NoHoles(chunks[..i])
    {
      if chunks[i].ofs != ofs {
        assert i > 0 ==> End(chunks[i - 1]) == ofs;
        return false;
      }
      ofs := ofs + chunks[i].len;
      assert forall j :: 0 <= j < i ==> chunks[..i + 1][j] == chunks[..i][j];
      i := i + 1;
    }
    assert chunks[..i] == chunks;
    ok := true;
  }

  lemma {:induction false} CombinedAreAt(layout: seq<Chunk>, chunks: seq<Chunk>, k: nat, f: nat)
    requires Combined(layout, chunks).Some?
    ensures At(Combined(layout, chunks).value, k, f) <==> At(layout, k, f) || At(chunks, k, f)
    decreases |chunks|
  {
    if |chunks| > 0 {
      var added := Added(layout, chunks[0]).value;
      AddedAreAt(layout, chunks[0], k, f);
      CombinedAreAt(added, chunks[1..], k, f);
      AtFirst(chunks, k, f);
    }
  }

  lemma {:induction false} CombinedKeepsClear(layout: seq<Chunk>, chunks: seq<Chunk>, x: Span)
    requires Combined(layout, chunks).Some? && ClearOf(layout, x) && ClearOf(chunks, x)
    ensures ClearOf(Combined(layout, chunks).value, x)
    decreases |chunks|
  {
    if |chunks| > 0 {
      AddedKeepsClear(layout, chunks[0], x);
      assert forall i :: 0 <= i < |chunks[1..]| ==> chunks[1..][i] == chunks[i + 1];
      CombinedKeepsClear(Added(layout, chunks[0]).value, chunks[1..], x);
    }
  }

  lemma {:induction false} NothingIsAt(sections: seq<Section>, k: nat, f: nat)
    ensures !At(ChunksOf(sections), k, f)
    decreases |sections|
  {
    if |sections| > 0 {
      var first := if sections[0].EndlessSection? then [] else [ChunkOf(sections[0])];
      AtBoth(first, ChunksOf(sections[1..]), k, f);
      NothingIsAt(sections[1..], k, f);
    }
  }

  /** Whatever chunks are in the file, layout that has room for them is set. */
  lemma {:induction false} CombinedIsLaidOut(layout: seq<Chunk>, chunks: seq<Chunk>)
    requires IsLaidOut(layout) && AllOnDisk(chunks) && AllApart(chunks)
    requires forall i :: 0 <= i < |chunks| ==> ClearOf(layout, SpanOf(chunks[i])) && End(chunks[i]) <= Total(layout)
    ensures Combined(layout, chunks).Some? && IsLaidOut(Combined(layout, chunks).value)
    ensures Total(Combined(layout, chunks).value) == Total(layout)
    decreases |chunks|
  {
    if |chunks| > 0 {
      var rest := chunks[1..];
      AddedKeepsLayout(layout, chunks[0]);
      var added := Added(layout, chunks[0]).value;
      forall i | 0 <= i < |rest| ensures ClearOf(added, SpanOf(rest[i])) {
        assert rest[i] == chunks[i + 1];
        AddedKeepsClear(layout, chunks[0], SpanOf(rest[i]));
      }
      assert forall i :: 0 <= i < |rest| ==> rest[i] == chunks[i + 1];
      CombinedIsLaidOut(added, rest);
    }
  }

  /** Can sections be set as layout of a file with these chunks? */
  ghost predicate CanBeSet(sections: seq<Section>, chunks: seq<Chunk>) {
    && AreInRow(sections, 0)
    && Combined(ChunksOf(sections), chunks).Some?
    && NoHoles(Combined(ChunksOf(sections), chunks).value)
  }

  /** A file, in which nothing is saved, takes any sections that follow each other. */
  lemma NoChunksAreLaidOut(sections: seq<Section>)
    ensures CanBeSet(sections, []) <==> AreInRow(sections, 0)
  {
    if AreInRow(sections, 0) {
      RowIsChain(sections, 0);
    }
  }

  /** Layout without an end is refused, when bytes after a hole are already saved, and it is taken before them. */
  lemma LateLayoutIsRefused(ofs: nat, len: nat, fileOfs: nat)
    requires ofs > 0
    ensures var sections, c := [EndlessSection(0)], OnDisk(ofs, len, fileOfs);
            && !CanBeSet(sections, [c])
            && CanBeSet(sections, []) && Added(Combined(ChunksOf(sections), []).value, c) == Some([c])
  {
    var sections, c := [EndlessSection(0)], OnDisk(ofs, len, fileOfs);
    assert sections[1..] == [] && ChunksOf(sections) == [];
    var none: seq<Chunk> := [];
    assert RoomFor(none, c) == Some((none, 0)) && InsertedAt(none, 0, c) == [c];
    assert Added(none, c) == Some([c]);
    var one := [c];
    assert one[1..] == none && Combined(none, one) == Combined(one, none) == Some(one);
    assert one[0].ofs > 0 && !NoHoles(one);
    NoChunksAreLaidOut(sections);
  }

  const NEW_FILE_LEN := 12

  datatype HeaderChunk = HeaderChunk(fileOfs: nat, len: nat)

  class BytesLayout {
    var chunks: seq<Chunk>
    var isFrozen: bool
    var header: Option<HeaderChunk>
    var bytesEnd: nat

    constructor ForNewFile()
      ensures chunks == [] && !isFrozen && header == None && bytesEnd == NEW_FILE_LEN
    {
      chunks, isFrozen, header, bytesEnd := [], false, None, NEW_FILE_LEN;
    }

    /** Layout is set once. */
    method SetAndFreezeWith(sections: seq<Section>) returns (ok: bool)
      modifies this
      ensures ok <==> !old(isFrozen) && CanBeSet(sections, old(chunks))
      ensures isFrozen <==> ok || old(isFrozen)
      ensures ok ==> chunks == Combined(ChunksOf(sections), old(chunks)).value
      ensures forall k, f :: At(chunks, k, f) <==> At(old(chunks), k, f)
      ensures header == old(header) && bytesEnd == old(bytesEnd)
    {
      if isFrozen {
        return false;
      }
      var layout := LayoutSectionsToSegsChunks(sections);
      if layout.None? {
        return false;
      }
      var combined := CombineChunksOnDiskWithLayout(layout.value, chunks);
      if combined.None? {
        return false;
      }
      forall k, f ensures At(combined.value, k, f) <==> At(chunks, k, f) {
        NothingIsAt(sections, k, f);
        CombinedAreAt(layout.value, chunks, k, f);
      }
      chunks := combined.value;
      ok := EnsureNoHolesIn(chunks);
      if ok {
        isFrozen := true;
      }
    }

    /** Header is added once. */
    method AddHeader(len: nat, fileOfs: nat) returns (ok: bool)
      modifies this
      ensures ok <==> fileOfs == old(bytesEnd) && old(header).None?
      ensures header == if ok then Some(HeaderChunk(fileOfs, len)) else old(header)
      ensures bytesEnd == old(bytesEnd) + if ok then len else 0
      ensures chunks == old(chunks) && isFrozen == old(isFrozen)
    {
      if fileOfs != bytesEnd || header.Some? {
        return false;
      }
      header := Some(HeaderChunk(fileOfs, len));
      bytesEnd := bytesEnd + len;
      ok := true;
    }

    method AddSegsOnFile(ofs: nat, len: nat, fileOfs: nat) returns (ok: bool)
      modifies this
      ensures var added := Added(old(chunks), OnDisk(ofs, len, fileOfs));
              && (ok <==> fileOfs == old(bytesEnd) && added.Some?)
              && chunks == if ok then added.value else old(chunks)
      ensures bytesEnd == old(bytesEnd) + if ok then len else 0
      ensures header == old(header) && isFrozen == old(isFrozen)
    {
      if fileOfs != bytesEnd {
        return false;
      }
      var added := AddNewSegsChunkTo(chunks, OnDisk(ofs, len, fileOfs));
      if added.None? {
        return false;
      }
      chunks := added.value;
      bytesEnd := bytesEnd + len;
      ok := true;
    }
  }
}
