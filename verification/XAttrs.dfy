/** Attributes of file system entities, packed in bytes. */
module XAttrs {
  import opened Wrappers
  import opened BigEndian
  import opened Bits

  /** Strings and JSON texts are given by their UTF-8 bytes. */
  datatype Value = Binary(bytes: Bytes) | Text(utf8: Bytes) | Json(text: Bytes)

  datatype Attr = Attr(name: Bytes, value: Value)

  datatype ParsingError = NotEnoughBytes | UnknownType | NotJson

  function TypeOf(v: Value): (t: nat)
    ensures 1 <= t <= 3
  {
    match v
    case Binary(_) => 1
    case Text(_) => 2
    case Json(_) => 3
  }

  function ContentOf(v: Value): Bytes {
    match v
    case Binary(bytes) => bytes
    case Text(utf8) => utf8
    case Json(text) => text
  }

  // ---------- record of one attribute

  /** Length that doesn't fit four bytes is told by number five. */
  function ByteToStoreLen(len: nat): (n: nat)
    ensures 1 <= n <= 5
    ensures n <= 4 ==> len < Power256(n)
    ensures n <= 2 <==> len <= 0xffff
    ensures n <= 4 <==> len <= 0xffff_ffff
    ensures n == 1 <==> len <= 0xff
  {
    PowersOf256();
    if len <= 0xff then 1
    else if len <= 0xffff then 2
    else if len <= 0xff_ffff then 3
    else if len <= 0xffff_ffff then 4
    else 5
  }

  predicate Fits(a: Attr) {
    |a.name| <= 0xffff && |ContentOf(a.value)| <= 0xffff_ffff
  }

  predicate Packable(a: Attr) {
    |a.name| > 0 && Fits(a)
  }

  /** 5 bits of the type, 1 bit and 2 bits for how many bytes lengths take. */
  predicate IsTypeByte(b: byte, t: nat, nameLenLen: nat, contentLenLen: nat) {
    && 1 <= nameLenLen <= 2 && 1 <= contentLenLen <= 4
    && b == 8 * t + 4 * (nameLenLen - 1) + (contentLenLen - 1)
  }

  function TypeByte(t: nat, nameLenLen: nat, contentLenLen: nat): (b: byte)
    requires t < 32 && 1 <= nameLenLen <= 2 && 1 <= contentLenLen <= 4
    ensures IsTypeByte(b, t, nameLenLen, contentLenLen)
  {
    OrOfTypeByte(t, nameLenLen - 1, contentLenLen - 1);
    Or(Or(ShiftedLeft(t, 8), ShiftedLeft(nameLenLen - 1, 4)), contentLenLen - 1)
  }

  lemma OrOfTypeByte(t: nat, n: nat, c: nat)
    requires n < 2 && c < 4
    ensures Or(Or(ShiftedLeft(t, 8), ShiftedLeft(n, 4)), c) == 8 * t + 4 * n + c
  {
    PowersInUse();
    OrIsSum(t, 3, 4 * n);
    OrIsSum(2 * t + n, 2, c);
  }

  /** Type, and numbers of bytes for both lengths. */
  method ParseTypeByte(b: byte) returns (t: nat, nameLenLen: nat, contentLenLen: nat)
    ensures IsTypeByte(b, t, nameLenLen, contentLenLen)
  {
    var high, middle, low := And(b, 0xf8), And(b, 4), And(b, 3);
    AndOfTypeByte(b);
    return high / 8, middle / 4 + 1, low + 1;
  }

  lemma AndOfTypeByte(b: nat)
    requires b < 256
    ensures And(b, 0xf8) == 8 * (b / 8)
    ensures And(b, 4) == 4 * (b / 4 % 2)
    ensures And(b, 3) == b % 4
    ensures b == 8 * (b / 8) + 4 * (b / 4 % 2) + b % 4
  {
    HighBits(b);
    MiddleBit(b);
    LowBits(b);
  }

  lemma LowBits(b: nat)
    ensures And(b, 3) == b % 4
  {
    AndZero(b / 4);
    AndHalves(b, 3);
    AndHalves(b / 2, 1);
  }

  lemma MiddleBit(b: nat)
    ensures And(b, 4) == 4 * (b / 4 % 2)
  {
    PowersInUse();
    AndAbove(b / 4, 2, b % 4, 1);
    AndZero(b / 4 / 2);
    AndHalves(b / 4, 1);
  }

  lemma HighBits(b: nat)
    requires b < 256
    ensures And(b, 0xf8) == 8 * (b / 8)
  {
    PowersInUse();
    AndAbove(b / 8, 3, b % 8, 31);
    AndOnes(b / 8, 5);
  }

  lemma SomeMakeTypeByte(b: byte)
    ensures exists t: nat, n: nat, c: nat :: IsTypeByte(b, t, n, c)
  {
    assert IsTypeByte(b, b / 8, b / 4 % 2 + 1, b % 4 + 1);
  }

  /** The only three numbers, from which a given type byte can be made. */
  ghost function FromTypeByte(b: byte): (p: (nat, nat, nat))
    ensures IsTypeByte(b, p.0, p.1, p.2)
  {
    SomeMakeTypeByte(b);
    var t: nat, n: nat, c: nat :| IsTypeByte(b, t, n, c);
    (t, n, c)
  }

  function Header(a: Attr): (h: Bytes)
    requires Fits(a)
  {
    var n, c := ByteToStoreLen(|a.name|), ByteToStoreLen(|ContentOf(a.value)|);
    [TypeByte(TypeOf(a.value), n, c)] + Digits(|a.name|, n) + Digits(|ContentOf(a.value)|, c)
  }

  function Record(a: Attr): (r: Bytes)
    requires Fits(a)
    ensures |r| > 0
  {
    Header(a) + a.name + ContentOf(a.value)
  }

  /** A single byte is stored without checks: what doesn't fit is cut, or gets nowhere. */
  method PackUint(u: nat, b: array<byte>, i: nat, n: nat) returns (ok: bool)
    requires 1 <= n <= 4
    modifies b
    ensures ok <==> n == 1 || (u < Power256(n) && i + n <= b.Length)
    ensures b[..] == if ok && i + n <= b.Length then Stored(old(b[..]), i, Digits(u, n)) else old(b[..])
  {
    if n == 1 {
      ok := true;
      if i < b.Length {
        b[i] := Low8(u);
        assert Digits(u, 1) == Digits(u / 256, 0) + [u % 256];
        IsStored(b[..], old(b[..]), i, Digits(u, 1));
      }
    } else if n == 2 {
      ok := PackUintTo2Bytes(u, b, i);
    } else if n == 3 {
      ok := PackUintTo3Bytes(u, b, i);
    } else {
      ok := PackUintTo4Bytes(u, b, i);
    }
  }

  method SetBytes(b: array<byte>, s: Bytes, i: nat)
    requires i + |s| <= b.Length
    modifies b
    ensures b[..] == Stored(old(b[..]), i, s)
  {
    forall k | 0 <= k < |s| {
      b[i + k] := s[k];
    }
    IsStored(b[..], old(b[..]), i, s);
  }

  lemma StoredNext(c: Bytes, i: nat, s: Bytes)
    requires i + |s| <= |c|
    ensures Stored(c, i, s)[..i + |s|] == c[..i] + s
  {}

  method PackNamedAttr(a: Attr) returns (packed: Option<array<byte>>)
    ensures packed.Some? <==> Fits(a)
    ensures packed.Some? ==> fresh(packed.value) && packed.value[..] == Record(a)
  {
    var content := ContentOf(a.value);
    var nameLenLen := ByteToStoreLen(|a.name|);
    var contentLenLen := ByteToStoreLen(|content|);
    if nameLenLen > 2 || contentLenLen > 4 {
      return None;
    }
    var b := new byte[1 + nameLenLen + contentLenLen + |a.name| + |content|];
    b[0] := TypeByte(TypeOf(a.value), nameLenLen, contentLenLen);
    assert b[..1] == [b[0]];
    var i := 1;
    StoredNext(b[..], i, Digits(|a.name|, nameLenLen));
    var ok := PackUint(|a.name|, b, i, nameLenLen);
    i := i + nameLenLen;
    StoredNext(b[..], i, Digits(|content|, contentLenLen));
    ok := PackUint(|content|, b, i, contentLenLen);
    i := i + contentLenLen;
    assert b[..i] == Header(a);
    StoredNext(b[..], i, a.name);
    SetBytes(b, a.name, i);
    i := i + |a.name|;
    StoredNext(b[..], i, content);
    SetBytes(b, content, i);
    assert b[..] == b[..i + |content|];
    packed := Some(b);
  }

  // ---------- reading of a record

  /** Number of read bytes is not known, when a one-byte length lies beyond the end: places that
    * are not in an array read as undefined, and arithmetic makes not-a-number from it. */
  datatype Read = Read(attr: Attr, bytesRead: Option<nat>)

  ghost function LenAt(bytes: Bytes, i: nat, len: nat): Result<Option<nat>, ParsingError> {
    if i + len <= |bytes| then Success(Some(Number(bytes, i, len)))
    else if len == 1 then Success(None)
    else Failure(NotEnoughBytes)
  }

  function ReadLenNum(bytes: Bytes, i: nat, len: nat): (r: Result<Option<nat>, ParsingError>)
    requires 1 <= len <= 4
    ensures r == LenAt(bytes, i, len)
  {
    if len == 1 then
      NumberOfOne(bytes, i);
      Success(if i < |bytes| then Some(bytes[i]) else None)
    else
      var u := if len == 2 then UintFrom2Bytes(bytes, i)
               else if len == 3 then UintFrom3Bytes(bytes, i)
               else UintFrom4Bytes(bytes, i);
      if u.None? then Failure(NotEnoughBytes)
      else Success(u)
  }

  lemma NumberOfOne(bytes: Bytes, i: nat)
    ensures i < |bytes| ==> Number(bytes, i, 1) == bytes[i]
  {
    if i < |bytes| {
      assert Number(bytes, i, 0) == 0;
    }
  }

  function ValueOf(t: nat, content: Bytes): Result<Value, ParsingError> {
    if t == 2 then Success(Text(content))
    else if t == 3 then (if |content| == 0 then Failure(NotJson) else Success(Json(content)))
    else if t == 1 then Success(Binary(content))
    else Failure(UnknownType)
  }

  /** What is read at a given place. */
  ghost function RecordAt(bytes: Bytes, i: nat): (r: Result<Read, ParsingError>)
    requires i < |bytes|
    ensures r.Success? && r.value.bytesRead.Some? ==>
              r.value.bytesRead.value >= 3 && i + r.value.bytesRead.value <= |bytes|
  {
    var (t, n, c) := FromTypeByte(bytes[i]);
    RecordFrom(bytes, i, t, n, c)
  }

  ghost function RecordFrom(bytes: Bytes, i: nat, t: nat, n: nat, c: nat): (r: Result<Read, ParsingError>)
    requires i < |bytes| && n > 0 && c > 0
    ensures r.Success? && r.value.bytesRead.Some? ==>
              r.value.bytesRead.value >= 3 && i + r.value.bytesRead.value <= |bytes|
  {
    var nameLen := LenAt(bytes, i + 1, n);
    var contentLen := LenAt(bytes, i + 1 + n, c);
    if nameLen.Failure? || contentLen.Failure? then Failure(NotEnoughBytes)
    else if nameLen.value.None? || contentLen.value.None? then WithValue([], ValueOf(t, []), None)
    else
      var ofs := i + 1 + n + c + nameLen.value.value;
      var end := ofs + contentLen.value.value;
      if |bytes| < end then Failure(NotEnoughBytes)
      else WithValue(bytes[i + 1 + n + c..ofs], ValueOf(t, bytes[ofs..end]), Some(end - i))
  }

  function WithValue(name: Bytes, v: Result<Value, ParsingError>, bytesRead: Option<nat>): Result<Read, ParsingError> {
    if v.Failure? then Failure(v.error) else Success(Read(Attr(name, v.value), bytesRead))
  }

  lemma TypeByteReadBack(b: byte, t: nat, n: nat, c: nat)
    requires IsTypeByte(b, t, n, c)
    ensures FromTypeByte(b) == (t, n, c)
  {
    var (t', n', c') := FromTypeByte(b);
    assert IsTypeByte(b, t', n', c');
  }

  method ReadNamedAttr(bytes: Bytes, i: nat) returns (r: Result<Read, ParsingError>)
    requires i < |bytes|
    ensures r == RecordAt(bytes, i)
  {
    var t, nameLenLen, contentLenLen := ParseTypeByte(bytes[i]);
    TypeByteReadBack(bytes[i], t, nameLenLen, contentLenLen);
    assert RecordAt(bytes, i) == RecordFrom(bytes, i, t, nameLenLen, contentLenLen);
    var ofs := i + 1;
    var nameLen := ReadLenNum(bytes, ofs, nameLenLen);
    if nameLen.Failure? { return Failure(nameLen.error); }
    ofs := ofs + nameLenLen;
    var contentLen := ReadLenNum(bytes, ofs, contentLenLen);
    if contentLen.Failure? { return Failure(contentLen.error); }
    ofs := ofs + contentLenLen;
    if nameLen.value.None? || contentLen.value.None? {
      return WithValue([], ValueOf(t, []), None);
    }
    var nameOfs := ofs;
    ofs := ofs + nameLen.value.value;
    var bytesRead := ofs - i + contentLen.value.value;
    if |bytes| < i + bytesRead { return Failure(NotEnoughBytes); }
    r := WithValue(bytes[nameOfs..ofs], ValueOf(t, bytes[ofs..ofs + contentLen.value.value]), Some(bytesRead));
  }

  /** JSON text is never empty. */
  predicate ProperValue(v: Value) {
    v.Json? ==> |v.text| > 0
  }

  lemma LenReadBack(bytes: Bytes, i: nat, u: nat, n: nat)
    requires u < Power256(n)
    requires i + n <= |bytes| && bytes[i..i + n] == Digits(u, n)
    ensures LenAt(bytes, i, n) == Success(Some(u))
  {
    NumberOfDigits(u, n, bytes, i);
  }

  lemma PartOfSlice(bytes: Bytes, i: nat, r: Bytes, p: nat, q: nat)
    requires i + |r| <= |bytes| && bytes[i..i + |r|] == r && p <= q <= |r|
    ensures bytes[i + p..i + q] == r[p..q]
  {
    forall k | p <= k < q ensures bytes[i + p..i + q][k - p] == r[k] {
      assert bytes[i + k] == bytes[i..i + |r|][k];
    }
  }

  /** Bytes of a header, with numbers that are in it. */
  ghost predicate IsHeader(h: Bytes, t: nat, n: nat, c: nat, nameLen: nat, contentLen: nat) {
    && 1 <= n <= 2 && 1 <= c <= 4 && |h| == 1 + n + c
    && IsTypeByte(h[0], t, n, c)
    && h[1..1 + n] == Digits(nameLen, n) && nameLen < Power256(n)
    && h[1 + n..1 + n + c] == Digits(contentLen, c) && contentLen < Power256(c)
  }

  lemma HeaderIsHeader(a: Attr, n: nat, c: nat)
    requires Fits(a) && n == ByteToStoreLen(|a.name|) && c == ByteToStoreLen(|ContentOf(a.value)|)
    ensures IsHeader(Header(a), TypeOf(a.value), n, c, |a.name|, |ContentOf(a.value)|)
  {}

  /** What is placed in the header of a record, is read from it. */
  lemma HeaderReadBack(h: Bytes, bytes: Bytes, i: nat, t: nat, n: nat, c: nat, nameLen: nat, contentLen: nat)
    requires IsHeader(h, t, n, c, nameLen, contentLen)
    requires i + |h| <= |bytes| && bytes[i..i + |h|] == h
    ensures FromTypeByte(bytes[i]) == (t, n, c)
    ensures LenAt(bytes, i + 1, n) == Success(Some(nameLen))
    ensures LenAt(bytes, i + 1 + n, c) == Success(Some(contentLen))
  {
    PartOfSlice(bytes, i, h, 1, 1 + n);
    PartOfSlice(bytes, i, h, 1 + n, 1 + n + c);
    assert bytes[i] == bytes[i..i + |h|][0];
    TypeByteReadBack(bytes[i], t, n, c);
    LenReadBack(bytes, i + 1, nameLen, n);
    LenReadBack(bytes, i + 1 + n, contentLen, c);
  }

  lemma ReadGivesParts(bytes: Bytes, i: nat, n: nat, c: nat, t: nat, nameLen: nat, contentLen: nat)
    requires i < |bytes| && FromTypeByte(bytes[i]) == (t, n, c)
    requires LenAt(bytes, i + 1, n) == Success(Some(nameLen))
    requires LenAt(bytes, i + 1 + n, c) == Success(Some(contentLen))
    ensures var nameOfs := i + 1 + n + c;
            var ofs := nameOfs + nameLen;
            var end := ofs + contentLen;
            RecordAt(bytes, i) ==
              if |bytes| < end then Failure(NotEnoughBytes)
              else WithValue(bytes[nameOfs..ofs], ValueOf(t, bytes[ofs..end]), Some(end - i))
  {}

  lemma PartsOfThree(h: Bytes, name: Bytes, content: Bytes)
    ensures (h + name + content)[0..|h|] == h
    ensures (h + name + content)[|h|..|h| + |name|] == name
    ensures (h + name + content)[|h| + |name|..|h + name + content|] == content
  {}

  lemma PlacesOfThree(h: Bytes, name: Bytes, content: Bytes, bytes: Bytes, i: nat)
    requires i + |h + name + content| <= |bytes|
    requires bytes[i..i + |h + name + content|] == h + name + content
    ensures bytes[i..i + |h|] == h
    ensures bytes[i + |h|..i + |h| + |name|] == name
    ensures bytes[i + |h| + |name|..i + |h + name + content|] == content
  {
    var r := h + name + content;
    PartsOfThree(h, name, content);
    PartOfSlice(bytes, i, r, 0, |h|);
    PartOfSlice(bytes, i, r, |h|, |h| + |name|);
    PartOfSlice(bytes, i, r, |h| + |name|, |r|);
  }

  /** A record that starts with a header. */
  lemma PartsReadBack(h: Bytes, name: Bytes, content: Bytes, bytes: Bytes, i: nat, t: nat, n: nat, c: nat)
    requires IsHeader(h, t, n, c, |name|, |content|)
    requires i + |h + name + content| <= |bytes|
    requires bytes[i..i + |h + name + content|] == h + name + content
    ensures RecordAt(bytes, i) == WithValue(name, ValueOf(t, content), Some(|h + name + content|))
  {
    PlacesOfThree(h, name, content, bytes, i);
    HeaderReadBack(h, bytes, i, t, n, c, |name|, |content|);
    ReadGivesParts(bytes, i, n, c, t, |name|, |content|);
  }

  /** Other types, and a JSON value without a text, are refused. */
  lemma ValueIsOfType(t: nat, content: Bytes)
    ensures var r := ValueOf(t, content);
            && (r.Success? <==> t in {1, 2, 3} && (t == 3 ==> content != []))
            && (r.Success? ==> TypeOf(r.value) == t && ContentOf(r.value) == content)
  {}

  lemma ValueIsBack(v: Value)
    requires ProperValue(v)
    ensures ValueOf(TypeOf(v), ContentOf(v)) == Success(v)
  {}

  /** Records tell where they end: reading needs nothing from bytes around. */
  lemma RecordReadBack(a: Attr, bytes: Bytes, i: nat)
    requires Fits(a) && ProperValue(a.value)
    requires i + |Record(a)| <= |bytes| && bytes[i..i + |Record(a)|] == Record(a)
    ensures RecordAt(bytes, i) == Success(Read(a, Some(|Record(a)|)))
  {
    var n, c := ByteToStoreLen(|a.name|), ByteToStoreLen(|ContentOf(a.value)|);
    HeaderIsHeader(a, n, c);
    PartsReadBack(Header(a), a.name, ContentOf(a.value), bytes, i, TypeOf(a.value), n, c);
    ValueIsBack(a.value);
  }

  /** Record with its tail cut off is rejected, unless the cut is right before
    * one-byte lengths, and the type is not JSON. */
  lemma CutRecord(a: Attr, k: nat)
    requires Fits(a) && 0 < k < |Record(a)|
    ensures RecordAt(Record(a)[..k], 0).Success? <==>
            && !a.value.Json?
            && |ContentOf(a.value)| <= 0xff
            && (k == 1 + ByteToStoreLen(|a.name|) || (k == 1 && |a.name| <= 0xff))
  {
    var n, c := ByteToStoreLen(|a.name|), ByteToStoreLen(|ContentOf(a.value)|);
    HeaderIsHeader(a, n, c);
    CutParts(Header(a), a.name, ContentOf(a.value), k, TypeOf(a.value), n, c);
  }

  /** A record of an empty binary value, without bytes for its lengths, is taken for a record with no name. */
  lemma CutRecordIsAccepted(name: byte)
    ensures var a := Attr([name], Binary([]));
            && Packable(a) && Record(a)[..1] == [8]
            && RecordAt(Record(a)[..1], 0) == Success(Read(Attr([], Binary([])), None))
            && ParseSections([Record(a)[..1]], []) == Success([Attr([], Binary([]))])
  {
    var a := Attr([name], Binary([]));
    TypeByteReadBack(Record(a)[0], 1, 1, 1);
    assert Record(a)[..1] == [Record(a)[0]];
    ParseLast(Record(a)[..1], Attr([], Binary([])));
  }

  lemma ParseLast(bytes: Bytes, a: Attr)
    requires |bytes| > 0 && RecordAt(bytes, 0) == Success(Read(a, None))
    ensures ParseSections([bytes], []) == Success([a])
  {
    var none: seq<Attr> := [];
    assert Set(none, a) == [a];
    assert ParseSection(bytes, 0, none) == Success([a]);
    assert [bytes][1..] == [];
  }

  lemma CutParts(h: Bytes, name: Bytes, content: Bytes, k: nat, t: nat, n: nat, c: nat)
    requires IsHeader(h, t, n, c, |name|, |content|) && 1 <= t <= 3
    requires 0 < k < |h + name + content|
    ensures RecordAt((h + name + content)[..k], 0).Success? <==>
            t != 3 && c == 1 && (k == 1 + n || (k == 1 && n == 1))
  {
    var r := h + name + content;
    var cut := r[..k];
    assert cut[0] == h[0];
    TypeByteReadBack(h[0], t, n, c);
    PartsOfThree(h, name, content);
    if k >= |h| {
      PartOfCut(r, k, 0, |h|);
      HeaderReadBack(h, cut, 0, t, n, c, |name|, |content|);
      ReadGivesParts(cut, 0, n, c, t, |name|, |content|);
    } else if k >= 1 + n {
      PartOfCut(r, k, 1, 1 + n);
      PartOfSlice(r, 0, h, 1, 1 + n);
      LenReadBack(cut, 1, |name|, n);
    }
  }

  lemma PartOfCut(r: Bytes, k: nat, p: nat, q: nat)
    requires p <= q <= k <= |r|
    ensures r[..k][p..q] == r[p..q]
  {}

  // ---------- attributes in their order

  predicate Distinct(attrs: seq<Attr>) {
    forall i, j :: 0 <= i < j < |attrs| ==> attrs[i].name != attrs[j].name
  }

  function Find(attrs: seq<Attr>, name: Bytes): (i: nat)
    ensures i <= |attrs|
    ensures i < |attrs| ==> attrs[i].name == name
    ensures forall j :: 0 <= j < i ==> attrs[j].name != name
  {
    if |attrs| == 0 || attrs[0].name == name then 0 else 1 + Find(attrs[1..], name)
  }

  /** Map keeps place of an existing name, and adds a new one at the end. */
  function Set(attrs: seq<Attr>, a: Attr): (r: seq<Attr>)
    ensures Distinct(attrs) ==> Distinct(r)
  {
    var i := Find(attrs, a.name);
    if i < |attrs| then attrs[i := a] else attrs + [a]
  }

  function SetAll(attrs: seq<Attr>, more: seq<Attr>): (r: seq<Attr>)
    ensures Distinct(attrs) ==> Distinct(r)
    decreases |more|
  {
    if |more| == 0 then attrs else SetAll(Set(attrs, more[0]), more[1..])
  }

  lemma NotFound(attrs: seq<Attr>, more: seq<Attr>)
    requires Distinct(attrs + more) && |more| > 0
    ensures Find(attrs, more[0].name) == |attrs|
  {
    forall j | 0 <= j < |attrs| ensures attrs[j].name != more[0].name {
      assert (attrs + more)[j] == attrs[j] && (attrs + more)[|attrs|] == more[0];
    }
  }

  lemma {:induction false} SetAllDistinct(attrs: seq<Attr>, more: seq<Attr>)
    requires Distinct(attrs + more)
    ensures SetAll(attrs, more) == attrs + more
    decreases |more|
  {
    if |more| == 0 {
      assert attrs + more == attrs;
    } else {
      var a := more[0];
      assert (attrs + more)[|attrs|] == a;
      NotFound(attrs, more);
      assert attrs + more == attrs + [a] + more[1..];
      SetAllDistinct(attrs + [a], more[1..]);
    }
  }

  lemma SetAllOnNone(attrs: seq<Attr>)
    requires Distinct(attrs)
    ensures SetAll([], attrs) == attrs
  {
    assert [] + attrs == attrs;
    SetAllDistinct([], attrs);
  }

  lemma {:induction false} SetAllOfBoth(attrs: seq<Attr>, more: seq<Attr>, rest: seq<Attr>)
    ensures SetAll(attrs, more + rest) == SetAll(SetAll(attrs, more), rest)
    decreases |more|
  {
    if |more| == 0 {
      assert more + rest == rest;
    } else {
      assert (more + rest)[1..] == more[1..] + rest;
      SetAllOfBoth(Set(attrs, more[0]), more[1..], rest);
    }
  }

  // ---------- parsing of sections

  ghost function ParseSection(bytes: Bytes, i: nat, attrs: seq<Attr>): Result<seq<Attr>, ParsingError>
    decreases |bytes| - i, 1
  {
    if i >= |bytes| then Success(attrs) else ParseAfter(RecordAt(bytes, i), bytes, i, attrs)
  }

  ghost function ParseSections(sections: seq<Bytes>, attrs: seq<Attr>): Result<seq<Attr>, ParsingError>
    decreases |sections|
  {
    if |sections| == 0 then Success(attrs) else
    var r := ParseSection(sections[0], 0, attrs);
    if r.Failure? then r else ParseSections(sections[1..], r.value)
  }

  predicate AllGood(attrs: seq<Attr>) {
    forall i :: 0 <= i < |attrs| ==> Fits(attrs[i]) && ProperValue(attrs[i].value)
  }

  function Joined(attrs: seq<Attr>): Bytes
    requires AllGood(attrs)
  {
    if |attrs| == 0 then [] else Record(attrs[0]) + Joined(attrs[1..])
  }

  function Flattened(groups: seq<seq<Attr>>): seq<Attr> {
    if |groups| == 0 then [] else groups[0] + Flattened(groups[1..])
  }

  predicate AllGroupsGood(groups: seq<seq<Attr>>) {
    forall i :: 0 <= i < |groups| ==> AllGood(groups[i])
  }

  function Sections(groups: seq<seq<Attr>>): (sections: seq<Bytes>)
    requires AllGroupsGood(groups)
    ensures |sections| == |groups|
  {
    seq(|groups|, i requires 0 <= i < |groups| => Joined(groups[i]))
  }

  /** What goes after a record is read. */
  ghost function ParseAfter(
    read: Result<Read, ParsingError>, bytes: Bytes, i: nat, attrs: seq<Attr>
  ): Result<seq<Attr>, ParsingError>
    requires read.Success? && read.value.bytesRead.Some? ==>
               read.value.bytesRead.value > 0 && i + read.value.bytesRead.value <= |bytes|
    decreases |bytes| - i, 0
  {
    if read.Failure? then Failure(read.error)
    else if read.value.bytesRead.None? then Success(Set(attrs, read.value.attr))
    else ParseSection(bytes, i + read.value.bytesRead.value, Set(attrs, read.value.attr))
  }

  lemma ParseOne(
    bytes: Bytes, i: nat, attrs: seq<Attr>, a: Attr, n: nat, r: Result<seq<Attr>, ParsingError>
  )
    requires i < |bytes| && RecordAt(bytes, i) == Success(Read(a, Some(n)))
    requires ParseSection(bytes, i + n, Set(attrs, a)) == r
    ensures ParseSection(bytes, i, attrs) == r
  {}

  lemma RecordIsFirst(bytes: Bytes, i: nat, a: Attr, rest: Bytes) returns (n: nat)
    requires Fits(a) && ProperValue(a.value)
    requires i <= |bytes| && bytes[i..] == Record(a) + rest
    ensures i < |bytes| && i + n <= |bytes| && bytes[i + n..] == rest
    ensures RecordAt(bytes, i) == Success(Read(a, Some(n)))
  {
    n := |Record(a)|;
    assert bytes[i..i + n] == bytes[i..][..n] && bytes[i + n..] == bytes[i..][n..];
    RecordReadBack(a, bytes, i);
  }

  lemma {:induction false} ParseJoined(more: seq<Attr>, bytes: Bytes, i: nat, attrs: seq<Attr>)
    requires AllGood(more) && i <= |bytes| && bytes[i..] == Joined(more)
    ensures ParseSection(bytes, i, attrs) == Success(SetAll(attrs, more))
    decreases |more|
  {
    if |more| == 0 {
      assert i == |bytes|;
    } else {
      var n := RecordIsFirst(bytes, i, more[0], Joined(more[1..]));
      ParseJoined(more[1..], bytes, i + n, Set(attrs, more[0]));
      ParseOne(bytes, i, attrs, more[0], n, Success(SetAll(attrs, more)));
    }
  }

  lemma {:induction false} ParseGroups(groups: seq<seq<Attr>>, attrs: seq<Attr>)
    requires AllGroupsGood(groups)
    ensures ParseSections(Sections(groups), attrs) == Success(SetAll(attrs, Flattened(groups)))
    decreases |groups|
  {
    if |groups| > 0 {
      var rest := groups[1..];
      assert AllGroupsGood(rest) && Sections(groups)[1..] == Sections(rest);
      ParseJoined(groups[0], Sections(groups)[0], 0, attrs);
      ParseGroups(rest, SetAll(attrs, groups[0]));
      SetAllOfBoth(attrs, groups[0], Flattened(rest));
    }
  }

  /** However packed records are grouped into sections, parsing gives the same attributes. */
  lemma RegroupedRoundTrip(attrs: seq<Attr>, groups: seq<seq<Attr>>)
    requires Distinct(attrs) && AllGroupsGood(groups) && Flattened(groups) == attrs
    ensures ParseSections(Sections(groups), []) == Success(attrs)
  {
    SetAllOnNone(attrs);
    ParseGroups(groups, []);
  }

  /** All names of records are there, and the last record of each name wins. */
  ghost predicate LastWins(all: seq<Attr>, attrs: seq<Attr>) {
    && Distinct(attrs)
    && (forall a :: a in attrs ==> exists i :: 0 <= i < |all| && all[i] == a && IsLast(all, i))
    && (forall i :: 0 <= i < |all| && IsLast(all, i) ==> all[i] in attrs)
  }

  ghost predicate IsLast(all: seq<Attr>, i: nat)
    requires i < |all|
  {
    forall j :: i < j < |all| ==> all[j].name != all[i].name
  }

  lemma SetElements(attrs: seq<Attr>, a: Attr)
    requires Distinct(attrs)
    ensures forall x :: x in Set(attrs, a) <==> x == a || (x in attrs && x.name != a.name)
  {
    var i := Find(attrs, a.name);
    var r := Set(attrs, a);
    assert r[i] == a;
    forall x | x in attrs && x.name != a.name ensures x in r {
      var j :| 0 <= j < |attrs| && attrs[j] == x;
      assert r[j] == x;
    }
  }

  lemma LastWinsNext(all: seq<Attr>, attrs: seq<Attr>, a: Attr)
    requires LastWins(all, attrs)
    ensures LastWins(all + [a], Set(attrs, a))
  {
    var more, r := all + [a], Set(attrs, a);
    SetElements(attrs, a);
    assert forall i :: 0 <= i < |all| ==> more[i] == all[i];
    assert more[|all|] == a && IsLast(more, |all|);
    forall x | x in r ensures exists i :: 0 <= i < |more| && more[i] == x && IsLast(more, i) {
      if x != a {
        var i :| 0 <= i < |all| && all[i] == x && IsLast(all, i);
        assert more[i] == x && IsLast(more, i);
      }
    }
    forall i | 0 <= i < |more| && IsLast(more, i) ensures more[i] in r {
      if i < |all| {
        assert more[|all|].name != more[i].name;
        assert IsLast(all, i);
      }
    }
  }

  lemma AppendedNext(all: seq<Attr>, more: seq<Attr>)
    requires |more| > 0
    ensures all + more == all + [more[0]] + more[1..]
  {}

  lemma {:induction false} SetAllLastWins(all: seq<Attr>, attrs: seq<Attr>, more: seq<Attr>)
    requires LastWins(all, attrs)
    ensures LastWins(all + more, SetAll(attrs, more))
    decreases |more|
  {
    if |more| == 0 {
      assert all + more == all;
    } else {
      var a, rest := more[0], more[1..];
      LastWinsNext(all, attrs, a);
      SetAllLastWins(all + [a], Set(attrs, a), rest);
      AppendedNext(all, more);
    }
  }

  /** Records with repeated names, in any sections, are parsed to attributes, in which the last record wins. */
  lemma LastRecordWins(groups: seq<seq<Attr>>)
    requires AllGroupsGood(groups)
    ensures var r := ParseSections(Sections(groups), []); r.Success? && LastWins(Flattened(groups), r.value)
  {
    ParseGroups(groups, []);
    SetAllLastWins([], [], Flattened(groups));
    assert [] + Flattened(groups) == Flattened(groups);
  }

  /** Places of parts in a record with one-byte lengths, and the number of its type. */
  lemma ShortRecord(a: Attr)
    requires |a.name| <= 0xff && |ContentOf(a.value)| <= 0xff
    ensures var t := match a.value case Binary(_) => 1 case Text(_) => 2 case Json(_) => 3;
            Record(a) == [8 * t, |a.name|, |ContentOf(a.value)|] + a.name + ContentOf(a.value)
  {
    var name, content := a.name, ContentOf(a.value);
    OneDigit(|name|);
    OneDigit(|content|);
    assert Header(a) == [TypeByte(TypeOf(a.value), 1, 1)] + [|name|] + [|content|];
  }

  lemma OneDigit(u: nat)
    requires u <= 0xff
    ensures Digits(u, 1) == [u]
  {
    assert Digits(u, 1) == Digits(u / 256, 0) + [u % 256];
  }

  // ---------- objects with attributes

  class XAttrs {
    var attrs: seq<Attr>

    ghost predicate Valid()
      reads this
    {
      Distinct(attrs)
    }

    constructor MakeEmpty()
      ensures Valid() && attrs == []
    {
      attrs := [];
    }

    method SetAttr(a: Attr)
      requires Valid()
      modifies this
      ensures Valid() && attrs == Set(old(attrs), a)
    {
      var i := 0;
      while i < |attrs| && attrs[i].name != a.name
        invariant i <= |attrs|
        invariant forall j :: 0 <= j < i ==> attrs[j].name != a.name
      {
        i := i + 1;
      }
      assert i == Find(attrs, a.name);
      attrs := if i < |attrs| then attrs[i := a] else attrs + [a];
    }

    /** Every name has to be non-empty, and everything has to fit its lengths. */
    method Pack() returns (ok: bool, sections: Option<seq<Bytes>>)
      requires Valid()
      ensures ok <==> forall i :: 0 <= i < |attrs| ==> Packable(attrs[i])
      ensures ok ==> (sections.None? <==> attrs == [])
      ensures ok && sections.Some? ==>
                && |sections.value| == |attrs|
                && forall i :: 0 <= i < |attrs| ==> sections.value[i] == Record(attrs[i])
    {
      if |attrs| == 0 {
        return true, None;
      }
      var bytes: seq<Bytes> := [];
      var i := 0;
      while i < |attrs|
        invariant i <= |attrs| && |bytes| == i
        invariant forall j :: 0 <= j < i ==> Packable(attrs[j]) && bytes[j] == Record(attrs[j])
      {
        if |attrs[i].name| == 0 {
          return false, None;
        }
        var packed := PackNamedAttr(attrs[i]);
        if packed.None? {
          return false, None;
        }
        bytes := bytes + [packed.value[..]];
        i := i + 1;
      }
      return true, Some(bytes);
    }
  }

  method ParseInto(xattrs: XAttrs, bytes: Bytes) returns (error: Option<ParsingError>)
    requires xattrs.Valid()
    modifies xattrs
    ensures xattrs.Valid()
    ensures ParseSection(bytes, 0, old(xattrs.attrs))
         == if error.Some? then Failure(error.value) else Success(xattrs.attrs)
  {
    var i: nat := 0;
    var isNumber := true;
    while isNumber && i < |bytes|
      invariant xattrs.Valid()
      invariant ParseSection(bytes, 0, old(xattrs.attrs))
             == if isNumber then ParseSection(bytes, i, xattrs.attrs) else Success(xattrs.attrs)
      decreases isNumber, |bytes| - i
    {
      var read := ReadNamedAttr(bytes, i);
      if read.Failure? {
        return Some(read.error);
      }
      xattrs.SetAttr(read.value.attr);
      isNumber := read.value.bytesRead.Some?;
      if isNumber {
        i := i + read.value.bytesRead.value;
      }
    }
    error := None;
  }

  method ParseFrom(sections: seq<Bytes>) returns (r: Result<XAttrs, ParsingError>)
    ensures r.Failure? ==> ParseSections(sections, []) == Failure(r.error)
    ensures r.Success? ==> fresh(r.value) && r.value.Valid()
    ensures r.Success? ==> ParseSections(sections, []) == Success(r.value.attrs)
  {
    var xattrs := new XAttrs.MakeEmpty();
    var k := 0;
    while k < |sections|
      invariant k <= |sections|
      invariant xattrs.Valid()
      invariant ParseSections(sections, []) == ParseSections(sections[k..], xattrs.attrs)
    {
      assert sections[k..][1..] == sections[k + 1..];
      var error := ParseInto(xattrs, sections[k]);
      if error.Some? {
        return Failure(error.value);
      }
      k := k + 1;
    }
    r := Success(xattrs);
  }

  /** Packed attributes are parsed back, in the same order. */
  lemma PackedRoundTrip(attrs: seq<Attr>, sections: seq<Bytes>)
    requires Distinct(attrs) && AllGood(attrs) && |sections| == |attrs|
    requires forall i :: 0 <= i < |attrs| ==> sections[i] == Record(attrs[i])
    ensures ParseSections(sections, []) == Success(attrs)
  {
    var groups := seq(|attrs|, i requires 0 <= i < |attrs| => [attrs[i]]);
    FlattenedOnes(attrs, groups);
    SectionsOfOnes(attrs, groups, sections);
    RegroupedRoundTrip(attrs, groups);
  }

  lemma SectionsOfOnes(attrs: seq<Attr>, groups: seq<seq<Attr>>, sections: seq<Bytes>)
    requires AllGood(attrs) && |groups| == |attrs| == |sections|
    requires forall i :: 0 <= i < |attrs| ==> groups[i] == [attrs[i]] && sections[i] == Record(attrs[i])
    ensures AllGroupsGood(groups) && Sections(groups) == sections
  {
    forall i | 0 <= i < |attrs| ensures Sections(groups)[i] == sections[i] {
      assert groups[i][1..] == [];
      assert Joined(groups[i]) == Record(attrs[i]) + [];
    }
  }

  lemma {:induction false} FlattenedOnes(attrs: seq<Attr>, groups: seq<seq<Attr>>)
    requires |groups| == |attrs| && forall i :: 0 <= i < |attrs| ==> groups[i] == [attrs[i]]
    ensures Flattened(groups) == attrs
  {
    if |attrs| > 0 {
      FlattenedOnes(attrs[1..], groups[1..]);
    }
  }

  // ---------- common attributes

  const COMMON_PACK_LEN := 12

  class CommonAttrs {
    var ctime: nat
    var mtime: nat
    var size: nat

    constructor (ctime: nat, mtime: nat, size: nat)
      ensures this.ctime == ctime && this.mtime == mtime && this.size == size
    {
      this.ctime, this.mtime, this.size := ctime, mtime, size;
    }

    method Pack() returns (packed: Option<array<byte>>)
      ensures packed.Some? <==> ctime < Power256(6) && mtime < Power256(6)
      ensures packed.Some? ==> fresh(packed.value) && packed.value[..] == Digits(ctime, 6) + Digits(mtime, 6)
    {
      var bytes := new byte[COMMON_PACK_LEN];
      var ok := PackUintTo6Bytes(ctime, bytes, 0);
      if !ok { return None; }
      StoredNext(bytes[..], 6, Digits(mtime, 6));
      ok := PackUintTo6Bytes(mtime, bytes, 6);
      if !ok { return None; }
      assert bytes[..12] == bytes[..];
      packed := Some(bytes);
    }
  }

  method ParseCommon(bytes: Bytes, entitySize: nat) returns (r: Option<CommonAttrs>)
    ensures r.Some? <==> |bytes| >= COMMON_PACK_LEN
    ensures r.Some? ==> fresh(r.value) && r.value.size == entitySize
    ensures r.Some? ==> r.value.ctime == Number(bytes, 0, 6) && r.value.mtime == Number(bytes, 6, 6)
    ensures forall c: nat, m: nat :: c < Power256(6) && m < Power256(6) && Digits(c, 6) + Digits(m, 6) <= bytes ==>
              r.Some? && r.value.ctime == c && r.value.mtime == m
  {
    if |bytes| < COMMON_PACK_LEN {
      return None;
    }
    var ctime := UintFrom6Bytes(bytes, 0);
    var mtime := UintFrom6Bytes(bytes, 6);
    var attrs := new CommonAttrs(ctime.value, mtime.value, entitySize);
    forall c: nat, m: nat | c < Power256(6) && m < Power256(6) && Digits(c, 6) + Digits(m, 6) <= bytes
      ensures ctime.value == c && mtime.value == m
    {
      assert bytes[0..0 + 6] == Digits(c, 6) && bytes[6..6 + 6] == Digits(m, 6);
      NumberOfDigits(c, 6, bytes, 0);
      NumberOfDigits(m, 6, bytes, 6);
    }
    r := Some(attrs);
  }
}
