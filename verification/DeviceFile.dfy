/** A file of the device, as file handles show it, and loops that read and write whole buffers. */
module DeviceFile {

  type byte = bv8

  type Bytes = seq<byte>

  function Zeros(n: nat): (z: Bytes)
    ensures |z| == n
  {
    seq(n, _ => 0)
  }

  /** The first n bytes, with zeros added when there are fewer of them. */
  function Resized(c: Bytes, n: nat): (r: Bytes)
    ensures |r| == n
  {
    if n <= |c| then c[..n] else c + Zeros(n - |c|)
  }

  /** Writing of no bytes does not extend a file. */
  function Overwritten(c: Bytes, pos: nat, bytes: Bytes): Bytes {
    if |bytes| == 0 then c
    else Resized(c, pos) + bytes + if pos + |bytes| < |c| then c[pos + |bytes|..] else []
  }

  class DevFile {
    var content: Bytes

    constructor (content: Bytes)
      ensures this.content == content
    {
      this.content := content;
    }

    method Truncate(size: nat)
      modifies this
      ensures content == Resized(old(content), size)
    {
      content := Resized(content, size);
    }

    /** Any positive number of bytes may be read, and none only at the end of the file. */
    method Read(buf: array<byte>, ofs: nat, len: nat, pos: nat) returns (bytesRead: nat)
      requires ofs + len <= buf.Length
      modifies buf
      ensures bytesRead <= len && pos + bytesRead <= Max(pos, |content|)
      ensures bytesRead == 0 <==> len == 0 || |content| <= pos
      ensures forall i :: 0 <= i < buf.Length ==>
                buf[i] == if ofs <= i < ofs + bytesRead then content[pos + i - ofs] else old(buf[i])
    {
      if len == 0 || |content| <= pos {
        return 0;
      }
      bytesRead :| 1 <= bytesRead <= len && pos + bytesRead <= |content|;
      forall i | ofs <= i < ofs + bytesRead {
        buf[i] := content[pos + i - ofs];
      }
    }

    /** Any positive number of bytes may be written. */
    method Write(buf: array<byte>, ofs: nat, len: nat, pos: nat) returns (bytesWritten: nat)
      requires ofs + len <= buf.Length
      modifies this
      ensures bytesWritten <= len && (bytesWritten == 0 <==> len == 0)
      ensures content == Overwritten(old(content), pos, buf[ofs..ofs + bytesWritten])
    {
      if len == 0 {
        return 0;
      }
      bytesWritten :| 1 <= bytesWritten <= len;
      content := Overwritten(content, pos, buf[ofs..ofs + bytesWritten]);
    }
  }

  function Max(a: nat, b: nat): nat { if a < b then b else a }

  /** Fills the first len bytes of a buffer, and fails when the file ends before that. */
  method ReadToBuf(file: DevFile, from: nat, buf: array<byte>, len: nat) returns (ok: bool)
    requires len <= buf.Length
    modifies buf
    ensures ok <==> len == 0 || from + len <= |file.content|
    ensures ok && len > 0 ==> buf[..len] == file.content[from..from + len]
  {
    var pos := from;
    var bytesRead := 0;
    while bytesRead < len
      invariant 0 <= bytesRead <= len && pos == from + bytesRead
      invariant bytesRead > 0 ==> pos <= |file.content| && buf[..bytesRead] == file.content[from..pos]
    {
      ghost var before := buf[..bytesRead];
      var bNum := file.Read(buf, bytesRead, len - bytesRead, pos);
      if bNum == 0 {
        return false;
      }
      assert buf[..bytesRead] == before;
      bytesRead := bytesRead + bNum;
      pos := pos + bNum;
      assert buf[..bytesRead] == file.content[from..pos];
    }
    return true;
  }

  method WriteFromBuf(file: DevFile, to: nat, buf: array<byte>, len: nat)
    requires len <= buf.Length
    modifies file
    ensures file.content == Overwritten(old(file.content), to, buf[..len])
  {
    var pos := to;
    var bytesWritten := 0;
    ghost var before, data := file.content, buf[..len];
    while bytesWritten < len
      invariant 0 <= bytesWritten <= len && pos == to + bytesWritten
      invariant file.content == Overwritten(before, to, data[..bytesWritten])
    {
      var bNum := WriteSome(file, to, pos, buf, bytesWritten, len, before, data);
      bytesWritten := bytesWritten + bNum;
      pos := pos + bNum;
    }
    assert data[..len] == data;
  }

  /** One write in a loop that writes data to a file that had content before. */
  method WriteSome(file: DevFile, ghost to: nat, pos: nat, buf: array<byte>, done: nat, len: nat,
                   ghost before: Bytes, ghost data: Bytes)
    returns (bNum: nat)
    requires done < len <= buf.Length && pos == to + done && data == buf[..len]
    requires file.content == Overwritten(before, to, data[..done])
    modifies file
    ensures 0 < bNum <= len - done
    ensures file.content == Overwritten(before, to, data[..done + bNum])
  {
    bNum := file.Write(buf, done, len - done, pos);
    WritesNext(before, to, pos, data, done, bNum);
    assert buf[done..done + bNum] == data[done..done + bNum];
  }

  lemma WritesNext(c: Bytes, to: nat, pos: nat, data: Bytes, done: nat, n: nat)
    requires done + n <= |data| && pos == to + done
    ensures Overwritten(Overwritten(c, to, data[..done]), pos, data[done..done + n]) ==
            Overwritten(c, to, data[..done + n])
  {
    OverwritesMore(c, to, data[..done], data[done..done + n]);
    assert data[..done] + data[done..done + n] == data[..done + n];
  }

  /** Two writes in a row are one write. */
  lemma OverwritesMore(c: Bytes, pos: nat, a: Bytes, b: Bytes)
    ensures Overwritten(Overwritten(c, pos, a), pos + |a|, b) == Overwritten(c, pos, a + b)
  {
    if |a| == 0 {
      assert a + b == b;
    } else if |b| == 0 {
      assert a + b == a;
    } else {
      var once := Overwritten(c, pos, a);
      assert Resized(once, pos + |a|) == Resized(c, pos) + a;
    }
  }
}
