/** In-place changing of a file of the device through a bounded buffer. */
module DevFileSink {
  import opened Wrappers
  import opened DeviceFile

  const MAX_SHIFT_BUFFER_SIZE: nat := 4 * 1024 * 1024

  datatype Outcome = Done | RangeError | EndOfFile

  /** A file's content, counting bytes up to the tracked size, that are not in the file, as zeros. */
  function Logical(content: Bytes, size: nat): Bytes {
    Resized(content, size)
  }

  /** Bytes from pos on, del of them, are replaced; zeros fill a gap between the end of content and pos. */
  function Spliced(c: Bytes, pos: nat, del: nat, bytes: Bytes): Bytes {
    Resized(c, pos) + bytes + if pos + del < |c| then c[pos + del..] else []
  }

  function BytesOf(bytes: Option<Bytes>): Bytes {
    if bytes.Some? then bytes.value else []
  }

  /** The splice that changes tracked size, without extending the file. */
  predicate LeavesGap(size: nat, pos: nat, del: nat, bytes: Bytes) {
    size < pos && |bytes| == 0 && del > 0
  }

  /** Byte of content, or zero when there is none. */
  function ByteAt(c: Bytes, i: nat): byte {
    if i < |c| then c[i] else 0
  }

  /** Byte at i of content, after del bytes at pos of it are replaced by given ones. */
  function SplicedByte(c: Bytes, pos: nat, del: nat, bytes: Bytes, i: nat): byte {
    if i < pos then ByteAt(c, i)
    else if i < pos + |bytes| then bytes[i - pos]
    else ByteAt(c, i - |bytes| + del)
  }

  /** Content c' of tracked size size' is what a splice should give, byte after byte. */
  ghost predicate HasSplice(c: Bytes, size: nat, pos: nat, del: nat, bytes: Bytes, c': Bytes, size': nat) {
    && size' == (if size <= pos + del then pos + |bytes| else size - del + |bytes|)
    && |c'| <= size'
    && (forall i: nat :: i < size' ==> ByteAt(c', i) == SplicedByte(c, pos, del, bytes, i))
  }

  lemma SplicedBytes(c: Bytes, size: nat, pos: nat, del: nat, bytes: Bytes, c': Bytes, size': nat)
    requires |c| <= size && |c'| <= size'
    requires Logical(c', size') == Spliced(Logical(c, size), pos, del, bytes)
    ensures HasSplice(c, size, pos, del, bytes, c', size')
  {
    var before, after := Logical(c, size), Logical(c', size');
    assert |after| == size' && |before| == size;
    forall i: nat | i < size' ensures ByteAt(c', i) == SplicedByte(c, pos, del, bytes, i) {
      assert after[i] == ByteAt(c', i);
      if i < pos {
        assert Resized(before, pos)[i] == ByteAt(c, i);
      } else if pos + |bytes| <= i {
        assert after[i] == before[pos + del..][i - pos - |bytes|];
      }
    }
  }

  /** Content, in which n bytes at readPos are also at writePos. */
  ghost predicate Moved(before: Bytes, after: Bytes, n: nat, readPos: nat, writePos: nat) {
    && |after| == |before| && readPos + n <= |before| && writePos + n <= |before|
    && (forall i :: 0 <= i < writePos ==> after[i] == before[i])
    && (forall i :: writePos <= i < writePos + n ==> after[i] == before[readPos + i - writePos])
    && (forall i :: writePos + n <= i < |before| ==> after[i] == before[i])
  }

  /** Moves bytes inside of a file through a buffer. */
  method MoveChunk(file: DevFile, buf: array<byte>, chunk: nat, readPos: nat, writePos: nat) returns (ok: bool)
    requires 0 < chunk <= buf.Length
    requires readPos + chunk <= |file.content| ==> writePos + chunk <= |file.content|
    modifies file, buf
    ensures ok <==> readPos + chunk <= |old(file.content)|
    ensures !ok ==> file.content == old(file.content)
    ensures ok ==> Moved(old(file.content), file.content, chunk, readPos, writePos)
  {
    ok := ReadToBuf(file, readPos, buf, chunk);
    if ok {
      ghost var before, data := file.content, buf[..chunk];
      WriteFromBuf(file, writePos, buf, chunk);
      OverwriteMoves(before, data, chunk, readPos, writePos);
    }
  }

  lemma OverwriteMoves(c: Bytes, data: Bytes, n: nat, readPos: nat, writePos: nat)
    requires 0 < n && readPos + n <= |c| && writePos + n <= |c| && data == c[readPos..readPos + n]
    ensures Moved(c, Overwritten(c, writePos, data), n, readPos, writePos)
  {
  }

  method MoveChunkUp(file: DevFile, buf: array<byte>, chunk: nat, readPos: nat, writePos: nat,
                     ghost padded: Bytes, ghost readEnd: nat, ghost ins: nat)
    requires 0 < chunk <= buf.Length && readPos + chunk == readEnd && writePos == readPos + ins
    requires MovedUp(padded, file.content, readEnd, ins)
    modifies file, buf
    ensures MovedUp(padded, file.content, readPos, ins)
  {
    ghost var before := file.content;
    var _ := MoveChunk(file, buf, chunk, readPos, writePos);
    MovesUpMore(padded, before, file.content, readPos, writePos, chunk, ins);
  }

  method MoveChunkDown(file: DevFile, buf: array<byte>, chunk: nat, readPos: nat, writePos: nat,
                       ghost before: Bytes, ghost pos: nat, ghost del: nat, ghost readEnd: nat)
    returns (ok: bool)
    requires 0 < chunk <= buf.Length && readEnd == readPos + chunk && writePos + del == readPos
    requires MovedDown(before, file.content, pos, del, readPos)
    modifies file, buf
    ensures ok <==> readEnd <= |before|
    ensures |file.content| == |before|
    ensures ok ==> MovedDown(before, file.content, pos, del, readEnd)
  {
    ghost var c := file.content;
    ok := MoveChunk(file, buf, chunk, readPos, writePos);
    if ok {
      MovesDownMore(before, c, file.content, pos, del, readPos, writePos, chunk);
    }
  }

  class DevFileByteSink {
    const file: DevFile
    const maxShift: nat
    var size: nat

    ghost predicate Valid()
      reads this, file
    {
      1 <= maxShift && |file.content| <= size
    }

    ghost predicate Synced()
      reads this, file
    {
      |file.content| == size
    }

    constructor (file: DevFile, maxShift: nat)
      requires 1 <= maxShift
      ensures Valid() && Synced() && this.file == file && this.maxShift == maxShift
    {
      this.file := file;
      this.maxShift := maxShift;
      this.size := |file.content|;
    }

    method Truncate(newSize: int) returns (r: Outcome)
      requires Valid()
      modifies this, file
      ensures r == if newSize < 0 then RangeError else Done
      ensures newSize < 0 ==> size == old(size) && file.content == old(file.content)
      ensures newSize >= 0 ==> Synced() && file.content == Resized(old(Logical(file.content, size)), newSize)
      ensures newSize >= 0 ==>
                && |file.content| == newSize
                && forall i :: 0 <= i < newSize ==>
                     file.content[i] == if i < |old(file.content)| then old(file.content)[i] else 0
    {
      if newSize < 0 {
        return RangeError;
      }
      file.Truncate(newSize);
      size := newSize;
      return Done;
    }

    method Splice(pos: int, del: int, bytes: Option<Bytes>) returns (r: Outcome)
      requires Valid()
      modifies this, file
      ensures Valid()
      ensures r == if pos < 0 || del < 0 then RangeError
                   else if !old(Synced()) && pos + del < old(size) && |BytesOf(bytes)| < del then EndOfFile
                   else Done
      ensures r == RangeError ==> size == old(size) && file.content == old(file.content)
      ensures r == EndOfFile ==> size == old(size)
      ensures r == Done && del == 0 && BytesOf(bytes) == [] ==> size == old(size) && file.content == old(file.content)
      ensures r == Done && (del > 0 || BytesOf(bytes) != []) ==>
                Logical(file.content, size) == Spliced(old(Logical(file.content, size)), pos, del, BytesOf(bytes))
      ensures r == Done && (del > 0 || BytesOf(bytes) != []) ==>
                HasSplice(old(file.content), old(size), pos, del, BytesOf(bytes), file.content, size)
      ensures r == Done && LeavesGap(old(size), pos, del, BytesOf(bytes)) ==> file.content == old(file.content)
      ensures r == Done && old(Synced()) ==>
                (Synced() <==> !LeavesGap(old(size), pos, del, BytesOf(bytes)))
    {
      if pos < 0 || del < 0 {
        return RangeError;
      }
      if del == 0 && BytesOf(bytes) == [] {
        return Done;
      }
      ghost var c, oldSize := file.content, size;
      var ins := if bytes.Some? then |bytes.value| else 0;
      var ok := MakeRoom(pos, del, ins);
      if !ok {
        return EndOfFile;
      }
      if bytes.Some? {
        var buf := new byte[|bytes.value|](i requires 0 <= i < |bytes.value| => bytes.value[i]);
        assert buf[..buf.Length] == bytes.value;
        WriteFromBuf(file, pos, buf, buf.Length);
      }
      Replaced(c, oldSize, pos, del, BytesOf(bytes));
      SplicedBytes(c, oldSize, pos, del, BytesOf(bytes), file.content, size);
      return Done;
    }

    /** Brings tracked size and what follows new bytes to what they should be. */
    method MakeRoom(pos: nat, del: nat, ins: nat) returns (ok: bool)
      requires Valid()
      modifies this, file
      ensures ok <==> |old(file.content)| == old(size) || old(size) <= pos + del || del <= ins
      ensures ok ==>
                && size == SizeAfter(old(size), pos, del, ins)
                && file.content == Room(old(file.content), old(size), pos, del, ins)
      ensures !ok ==> size == old(size) && |file.content| == |old(file.content)|
    {
      if size <= pos + del {
        if pos < size {
          file.Truncate(pos);
        }
        size := pos + ins;
      } else {
        var delta := ins - del;
        if delta != 0 {
          ok := ShiftBytes(pos, delta, size);
          if !ok {
            return;
          }
          size := size + delta;
        }
      }
      return true;
    }

    method ShiftBytes(pos: nat, delta: int, initFileLen: nat) returns (ok: bool)
      requires 1 <= maxShift && |file.content| <= initFileLen && pos <= initFileLen
      requires delta < 0 ==> pos - delta <= initFileLen
      modifies file
      ensures delta == 0 ==> ok && file.content == old(file.content)
      ensures delta > 0 ==> ok
      ensures delta < 0 ==> (ok <==> |old(file.content)| == initFileLen || pos - delta == initFileLen)
      ensures ok ==> file.content == Shifted(old(file.content), initFileLen, pos, delta)
      ensures !ok ==> |file.content| == |old(file.content)|
    {
      if delta == 0 {
        return true;
      }
      if delta > 0 {
        InsFileBytesAt(pos, delta, initFileLen);
        return true;
      } else {
        ok := RmFileBytesAt(pos, -delta, initFileLen);
      }
    }

    /** Bytes are moved to the end of the file, chunk after chunk, starting from the last one. */
    method InsFileBytesAt(pos: nat, ins: nat, initFileLen: nat)
      requires 1 <= maxShift && |file.content| <= initFileLen && pos <= initFileLen
      modifies file
      ensures file.content == Inserted(Resized(old(file.content), initFileLen), pos, ins)
    {
      var bytesToMove := initFileLen - pos;
      var buf := new byte[Min(maxShift, bytesToMove)];
      file.Truncate(initFileLen + ins);
      ghost var padded := file.content;
      var bytesLeft := bytesToMove;
      var readPos, writePos := initFileLen, initFileLen + ins;
      while bytesLeft > 0
        invariant 0 <= bytesLeft <= bytesToMove && readPos == pos + bytesLeft && writePos == readPos + ins
        invariant MovedUp(padded, file.content, readPos, ins)
      {
        var chunk := if buf.Length <= bytesLeft then buf.Length else bytesLeft;
        ghost var readEnd := readPos;
        readPos, writePos := readPos - chunk, writePos - chunk;
        MoveChunkUp(file, buf, chunk, readPos, writePos, padded, readEnd, ins);
        bytesLeft := bytesLeft - chunk;
      }
      MovedUpAll(old(file.content), file.content, initFileLen, pos, ins);
    }

    /** Bytes are moved to the beginning of the file, starting from the first chunk. */
    method RmFileBytesAt(pos: nat, del: nat, initFileLen: nat) returns (ok: bool)
      requires 1 <= maxShift && |file.content| <= initFileLen && pos + del <= initFileLen
      modifies file
      ensures ok <==> |old(file.content)| == initFileLen || pos + del == initFileLen
      ensures ok ==> file.content == Removed(Resized(old(file.content), initFileLen), pos, del)
      ensures !ok ==> |file.content| == |old(file.content)|
    {
      var bytesToMove := initFileLen - pos - del;
      var buf := new byte[Min(maxShift, bytesToMove)];
      ghost var before := file.content;
      var bytesLeft := bytesToMove;
      var readPos, writePos := pos + del, pos;
      while bytesLeft > 0
        invariant 0 <= bytesLeft <= bytesToMove && readPos == initFileLen - bytesLeft && writePos == readPos - del
        invariant bytesLeft < bytesToMove ==> readPos <= |before|
        invariant MovedDown(before, file.content, pos, del, readPos)
      {
        var chunk := if buf.Length <= bytesLeft then buf.Length else bytesLeft;
        ghost var readEnd := readPos + chunk;
        ok := MoveChunkDown(file, buf, chunk, readPos, writePos, before, pos, del, readEnd);
        if !ok {
          return;
        }
        bytesLeft := bytesLeft - chunk;
        readPos, writePos := readPos + chunk, writePos + chunk;
      }
      assert readPos == initFileLen;
      MovedDownAll(before, file.content, pos, del, readPos);
      file.Truncate(pos + bytesToMove);
      return true;
    }
  }

  /** A sink of a file has a buffer of the usual size for moving bytes. */
  method Make(file: DevFile) returns (sink: DevFileByteSink)
    ensures fresh(sink) && sink.Valid() && sink.Synced()
    ensures sink.file == file && sink.maxShift == MAX_SHIFT_BUFFER_SIZE
  {
    sink := new DevFileByteSink(file, MAX_SHIFT_BUFFER_SIZE);
  }

  /** An empty file, in which a splice leaves a gap, after which bytes can't be moved. */
  method GapFailsLaterSplice() returns (first: Outcome, size: nat, length: nat, second: Outcome)
    ensures first == Done && size == 5 && length == 0 && second == EndOfFile
  {
    var file := new DevFile([]);
    var sink := Make(file);
    first := sink.Splice(5, 1, None);
    assert |Logical(file.content, sink.size)| == sink.size;
    size, length := sink.size, |file.content|;
    second := sink.Splice(0, 1, None);
  }

  function Min(a: nat, b: nat): nat { if a < b then a else b }

  /** Room for ins bytes is made at pos; bytes in it are leftovers. */
  function Inserted(c: Bytes, pos: nat, ins: nat): Bytes
    requires pos <= |c|
  {
    Resized(c, |c| + ins)[..pos + ins] + c[pos..]
  }

  function Removed(c: Bytes, pos: nat, del: nat): Bytes
    requires pos + del <= |c|
  {
    c[..pos] + c[pos + del..]
  }

  /** Bytes from readPos up to the last ins ones are moved to the end. */
  ghost predicate MovedUp(padded: Bytes, c: Bytes, readPos: nat, ins: nat) {
    && |c| == |padded| && readPos + ins <= |c|
    && (forall i :: 0 <= i < readPos + ins ==> c[i] == padded[i])
    && (forall i :: readPos + ins <= i < |c| ==> c[i] == padded[i - ins])
  }

  lemma MovesUpMore(padded: Bytes, c: Bytes, c': Bytes, readPos: nat, writePos: nat, chunk: nat, ins: nat)
    requires writePos == readPos + ins
    requires MovedUp(padded, c, readPos + chunk, ins) && Moved(c, c', chunk, readPos, writePos)
    ensures MovedUp(padded, c', readPos, ins)
  {
    forall i | 0 <= i < writePos ensures c'[i] == padded[i] {
      assert c'[i] == c[i];
    }
    forall i | writePos <= i < |c'| ensures c'[i] == padded[i - ins] {
      if i < writePos + chunk {
        assert c'[i] == c[i - ins];
      } else {
        assert c'[i] == c[i];
      }
    }
  }

  lemma MovedUpAll(c: Bytes, c': Bytes, size: nat, pos: nat, ins: nat)
    requires |c| <= size && pos <= size && MovedUp(Resized(c, size + ins), c', pos, ins)
    ensures c' == Inserted(Resized(c, size), pos, ins)
  {
    assert Resized(Resized(c, size), size + ins) == Resized(c, size + ins);
  }

  /** Bytes from pos + del up to readPos are moved to pos. */
  ghost predicate MovedDown(before: Bytes, c: Bytes, pos: nat, del: nat, readPos: nat) {
    && |c| == |before| && pos + del <= readPos
    && (forall i :: 0 <= i < |c| && (i < pos || readPos - del <= i) ==> c[i] == before[i])
    && (forall i :: pos <= i < readPos - del && i + del < |c| ==> c[i] == before[i + del])
  }

  lemma MovesDownMore(before: Bytes, c: Bytes, c': Bytes, pos: nat, del: nat, readPos: nat, writePos: nat, chunk: nat)
    requires writePos + del == readPos
    requires MovedDown(before, c, pos, del, readPos) && Moved(c, c', chunk, readPos, writePos)
    ensures MovedDown(before, c', pos, del, readPos + chunk)
  {
    forall i | 0 <= i < |c'| && (i < pos || writePos + chunk <= i) ensures c'[i] == before[i] {
      assert c'[i] == c[i];
    }
    forall i | pos <= i < writePos + chunk && i + del < |c'| ensures c'[i] == before[i + del] {
      if i < writePos {
        assert c'[i] == c[i];
      } else {
        assert c'[i] == c[i + del];
      }
    }
  }

  lemma MovedDownAll(c: Bytes, c': Bytes, pos: nat, del: nat, len: nat)
    requires |c| <= len && pos + del <= len && (pos + del < len ==> |c| == len)
    requires MovedDown(c, c', pos, del, len)
    ensures Resized(c', len - del) == Removed(Resized(c, len), pos, del)
  {
  }

  /** Content before bytes are written, when nothing is left after them. */
  function CutAt(c: Bytes, size: nat, pos: nat): Bytes {
    if pos < size then Resized(c, pos) else c
  }

  lemma TailReplaced(c: Bytes, size: nat, pos: nat, del: nat, bytes: Bytes)
    requires |c| <= size <= pos + del
    ensures var c' := Overwritten(CutAt(c, size, pos), pos, bytes);
            && |c'| <= pos + |bytes|
            && Logical(c', pos + |bytes|) == Spliced(Logical(c, size), pos, del, bytes)
            && (|c| == size ==> (|c'| == pos + |bytes| <==> !(size < pos && |bytes| == 0)))
  {
    var cut := CutAt(c, size, pos);
    assert Resized(cut, pos) == Resized(Resized(c, size), pos);
  }

  /** Content before bytes are written: over del ones and room that is made for others, or over what
    * is left of del ones. */
  function Shifted(c: Bytes, size: nat, pos: nat, delta: int): Bytes
    requires pos <= size && pos - delta <= size
  {
    if delta == 0 then c
    else if delta > 0 then Inserted(Resized(c, size), pos, delta)
    else Removed(Resized(c, size), pos, -delta)
  }

  function SizeAfter(size: nat, pos: nat, del: nat, ins: nat): nat {
    if size <= pos + del then pos + ins else size + ins - del
  }

  function Room(c: Bytes, size: nat, pos: nat, del: nat, ins: nat): Bytes {
    if size <= pos + del then CutAt(c, size, pos) else Shifted(c, size, pos, ins - del)
  }

  /** Writing of new bytes into the room for them completes a splice. */
  lemma Replaced(c: Bytes, size: nat, pos: nat, del: nat, bytes: Bytes)
    requires |c| <= size
    ensures var c' := Overwritten(Room(c, size, pos, del, |bytes|), pos, bytes);
            var size' := SizeAfter(size, pos, del, |bytes|);
            && |c'| <= size'
            && Logical(c', size') == Spliced(Logical(c, size), pos, del, bytes)
            && (|c| == size && (del > 0 || |bytes| > 0) ==> (|c'| == size' <==> !LeavesGap(size, pos, del, bytes)))
  {
    if size <= pos + del {
      TailReplaced(c, size, pos, del, bytes);
    } else {
      MiddleReplaced(c, size, pos, del, bytes);
    }
  }

  lemma MiddleReplaced(c: Bytes, size: nat, pos: nat, del: nat, bytes: Bytes)
    requires |c| <= size && pos + del < size
    ensures var c' := Overwritten(Shifted(c, size, pos, |bytes| - del), pos, bytes);
            && |c'| <= size + |bytes| - del
            && Logical(c', size + |bytes| - del) == Spliced(Logical(c, size), pos, del, bytes)
            && (|c| == size ==> |c'| == size + |bytes| - del)
  {
    if |bytes| == del {
      SameLengthReplaced(c, size, pos, bytes);
    } else if |bytes| > del {
      MoreReplaced(Logical(c, size), pos, del, bytes);
    } else {
      LessReplaced(Logical(c, size), pos, del, bytes);
    }
  }

  lemma SameLengthReplaced(c: Bytes, size: nat, pos: nat, bytes: Bytes)
    requires |c| <= size && pos + |bytes| < size
    ensures var c' := Overwritten(c, pos, bytes);
            && |c'| <= size && (|c| == size ==> |c'| == size)
            && Logical(c', size) == Spliced(Logical(c, size), pos, |bytes|, bytes)
  {
    if |bytes| == 0 {
      assert Resized(Logical(c, size), pos) == Logical(c, size)[..pos];
    } else {
      assert Resized(Logical(c, size), pos) == Resized(c, pos);
    }
  }

  lemma MoreReplaced(l: Bytes, pos: nat, del: nat, bytes: Bytes)
    requires pos + del < |l| && del < |bytes|
    ensures Overwritten(Inserted(l, pos, |bytes| - del), pos, bytes) == Spliced(l, pos, del, bytes)
  {
    var c := Inserted(l, pos, |bytes| - del);
    assert Resized(c, pos) == l[..pos];
    assert c[pos + |bytes|..] == l[pos + del..];
  }

  lemma LessReplaced(l: Bytes, pos: nat, del: nat, bytes: Bytes)
    requires pos + del < |l| && |bytes| < del
    ensures Overwritten(Removed(l, pos, del - |bytes|), pos, bytes) == Spliced(l, pos, del, bytes)
  {
    var c := Removed(l, pos, del - |bytes|);
    assert Resized(c, pos) == l[..pos];
    assert c[pos + |bytes|..] == l[pos + del..];
  }

  // -------------------------------------------------------- sequences of changes

  datatype Change = TruncateTo(size: nat) | SpliceIn(pos: nat, del: nat, bytes: Bytes)

  function Changed(c: Bytes, change: Change): Bytes {
    match change
    case TruncateTo(size) => Resized(c, size)
    case SpliceIn(pos, del, bytes) => if del == 0 && bytes == [] then c else Spliced(c, pos, del, bytes)
  }

  function ChangedBy(c: Bytes, changes: seq<Change>): Bytes {
    if |changes| == 0 then c else Changed(ChangedBy(c, changes[..|changes| - 1]), changes[|changes| - 1])
  }

  /** None of changes is a splice after the end of content with no bytes. */
  predicate NoGaps(c: Bytes, changes: seq<Change>) {
    |changes| > 0 ==>
      NoGaps(c, changes[..|changes| - 1]) && !MakesGap(ChangedBy(c, changes[..|changes| - 1]), changes[|changes| - 1])
  }

  lemma {:induction false} NoGapsBefore(c: Bytes, changes: seq<Change>, n: nat)
    requires n <= |changes| && NoGaps(c, changes)
    ensures NoGaps(c, changes[..n])
  {
    if n == |changes| {
      assert changes[..n] == changes;
    } else {
      var shorter := changes[..|changes| - 1];
      NoGapsBefore(c, shorter, n);
      assert shorter[..n] == changes[..n];
    }
  }

  predicate MakesGap(c: Bytes, change: Change) {
    change.SpliceIn? && LeavesGap(|c|, change.pos, change.del, change.bytes)
  }

  method ApplyChange(sink: DevFileByteSink, change: Change)
    requires sink.Valid() && sink.Synced() && !MakesGap(sink.file.content, change)
    modifies sink, sink.file
    ensures sink.Valid() && sink.Synced()
    ensures sink.file.content == Changed(old(sink.file.content), change)
  {
    match change
    case TruncateTo(size) =>
      var _ := sink.Truncate(size);
    case SpliceIn(pos, del, bytes) =>
      var _ := sink.Splice(pos, del, Some(bytes));
      assert Logical(sink.file.content, sink.size) == sink.file.content;
  }

  /** Any sequence of changes gives content of the same changes to a sequence of bytes, of tracked size. */
  method ApplyChanges(sink: DevFileByteSink, changes: seq<Change>)
    requires sink.Valid() && sink.Synced() && NoGaps(sink.file.content, changes)
    modifies sink, sink.file
    ensures sink.Valid() && sink.Synced()
    ensures sink.file.content == ChangedBy(old(sink.file.content), changes)
  {
    ghost var c := sink.file.content;
    for n := 0 to |changes|
      invariant sink.Valid() && sink.Synced() && sink.file.content == ChangedBy(c, changes[..n])
    {
      NoGapsBefore(c, changes, n + 1);
      assert changes[..n + 1][..n] == changes[..n];
      ApplyChange(sink, changes[n]);
    }
    assert changes[..|changes|] == changes;
  }

  /** Putting back what a splice took out restores content. */
  lemma SpliceUndone(c: Bytes, pos: nat, del: nat, bytes: Bytes)
    requires pos + del <= |c|
    ensures Spliced(Spliced(c, pos, del, bytes), pos, |bytes|, c[pos..pos + del]) == c
  {
    var once := Spliced(c, pos, del, bytes);
    assert Resized(once, pos) == c[..pos];
    assert pos + |bytes| < |once| ==> once[pos + |bytes|..] == c[pos + del..];
    assert pos + |bytes| == |once| ==> pos + del == |c|;
  }

  /** Splices at different places commute, when the one at a later place goes first or is shifted. */
  lemma SplicesCommute(c: Bytes, pos: nat, del: nat, bytes: Bytes, pos': nat, del': nat, bytes': Bytes)
    requires pos + del <= pos' && pos' + del' <= |c|
    ensures Spliced(Spliced(c, pos', del', bytes'), pos, del, bytes) ==
            Spliced(Spliced(c, pos, del, bytes), pos' - del + |bytes|, del', bytes')
  {
    var x, y, mid := c[..pos], c[pos..pos + del], c[pos + del..pos'];
    var z, tail := c[pos'..pos' + del'], c[pos' + del'..];
    assert c == x + y + mid + z + tail;
    LaterFirst(x, y, mid, z, tail, bytes, bytes');
    SoonerFirst(x, y, mid, z, tail, bytes, bytes');
  }

  lemma SplicedParts(a: Bytes, b: Bytes, d: Bytes, bytes: Bytes)
    ensures Spliced(a + b + d, |a|, |b|, bytes) == a + bytes + d
  {
  }

  lemma PutTogether(a: Bytes, b: Bytes, c: Bytes, d: Bytes, e: Bytes)
    ensures a + b + c + d + e == a + b + (c + d + e)
  {
  }

  lemma LaterFirst(x: Bytes, y: Bytes, mid: Bytes, z: Bytes, tail: Bytes, bytes: Bytes, bytes': Bytes)
    ensures Spliced(Spliced(x + y + mid + z + tail, |x + y + mid|, |z|, bytes'), |x|, |y|, bytes)
         == x + bytes + mid + bytes' + tail
  {
    SplicedParts(x + y + mid, z, tail, bytes');
    PutTogether(x, y, mid, bytes', tail);
    SplicedParts(x, y, mid + bytes' + tail, bytes);
    PutTogether(x, bytes, mid, bytes', tail);
  }

  lemma SoonerFirst(x: Bytes, y: Bytes, mid: Bytes, z: Bytes, tail: Bytes, bytes: Bytes, bytes': Bytes)
    ensures Spliced(Spliced(x + y + mid + z + tail, |x|, |y|, bytes), |x + bytes + mid|, |z|, bytes')
         == x + bytes + mid + bytes' + tail
  {
    PutTogether(x, y, mid, z, tail);
    SplicedParts(x, y, mid + z + tail, bytes);
    PutTogether(x, bytes, mid, z, tail);
    SplicedParts(x + bytes + mid, z, tail, bytes');
  }
}
