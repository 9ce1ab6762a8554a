/** Unsigned integers in bytes, with the most significant byte first. */
module BigEndian {
  import opened Bits
  import opened Wrappers

  type byte = b: int | 0 <= b < 256

  type Bytes = seq<byte>

  const MAX_SAFE_INTEGER := 0x1F_FFFF_FFFF_FFFF

  // ---------- meaning of bytes

  /** The lowest n bytes of a number. */
  function Digits(u: nat, n: nat): (s: Bytes)
    ensures |s| == n
  {
    if n == 0 then [] else Digits(u / 256, n - 1) + [u % 256]
  }

  /** Number in n bytes of an array, from place i on. */
  function Number(c: Bytes, i: nat, n: nat): nat
    requires i + n <= |c|
  {
    if n == 0 then 0 else 256 * Number(c, i, n - 1) + c[i + n - 1]
  }

  function Power256(n: nat): (p: nat)
    ensures p > 0
  {
    if n == 0 then 1 else 256 * Power256(n - 1)
  }

  lemma {:induction false} NumberOfDigits(u: nat, n: nat, c: Bytes, i: nat)
    requires u < Power256(n)
    requires i + n <= |c| && c[i..i + n] == Digits(u, n)
    ensures Number(c, i, n) == u
  {
    if n > 0 {
      assert c[i..i + n - 1] == c[i..i + n][..n - 1] == Digits(u / 256, n - 1);
      assert c[i + n - 1] == c[i..i + n][n - 1];
      NumberOfDigits(u / 256, n - 1, c, i);
    }
  }

  lemma {:induction false} DigitsOfNumber(c: Bytes, i: nat, n: nat)
    requires i + n <= |c|
    ensures Number(c, i, n) < Power256(n)
    ensures Digits(Number(c, i, n), n) == c[i..i + n]
  {
    if n > 0 {
      DigitsOfNumber(c, i, n - 1);
      assert Number(c, i, n) / 256 == Number(c, i, n - 1) && Number(c, i, n) % 256 == c[i + n - 1];
      assert c[i..i + n] == c[i..i + n - 1] + [c[i + n - 1]];
    }
  }

  lemma PowersOf256()
    ensures Power256(1) == 0x100 && Power256(2) == 0x1_0000 && Power256(3) == 0x100_0000
    ensures Power256(4) == 0x1_0000_0000 && Power256(6) == 0x1_0000_0000_0000
    ensures Power256(8) > MAX_SAFE_INTEGER
  {
    assert Power256(0) == 1 && Power256(1) == 256 * Power256(0) && Power256(2) == 256 * Power256(1);
    assert Power256(3) == 256 * Power256(2) && Power256(4) == 256 * Power256(3);
    assert Power256(5) == 256 * Power256(4) && Power256(6) == 256 * Power256(5);
    assert Power256(7) == 256 * Power256(6) && Power256(8) == 256 * Power256(7);
  }

  // ---------- operators of the code

  /** Unsigned shift by a number of bits, given as a power of two, works on the low 32 bits. */
  function ShiftedRight(u: nat, power: nat): (shifted: nat)
    requires power > 0
    ensures u < 0x1_0000_0000 ==> shifted == u / power
  {
    u % 0x1_0000_0000 / power
  }

  /** Storing in a byte array drops all, but the lowest 8 bits. */
  function Low8(u: nat): byte {
    u % 256
  }

  function ShiftedLeft(u: nat, power: nat): nat {
    power * u
  }

  function Stored(c: Bytes, i: nat, s: Bytes): (stored: Bytes)
    requires i + |s| <= |c|
    ensures |stored| == |c|
  {
    c[..i] + s + c[i + |s|..]
  }

  lemma IsStored(d: Bytes, c: Bytes, i: nat, s: Bytes)
    requires |d| == |c| && i + |s| <= |c|
    requires forall k :: 0 <= k < |s| ==> d[i + k] == s[k]
    requires forall k :: 0 <= k < |c| && !(i <= k < i + |s|) ==> d[k] == c[k]
    ensures d == Stored(c, i, s)
  {
    forall k | 0 <= k < |c| ensures d[k] == Stored(c, i, s)[k] {
      assert i <= k < i + |s| ==> d[i + (k - i)] == s[k - i];
    }
  }

  /** Bytes read back are those that were stored, and bytes around are those from before. */
  lemma StoredIsThere(c: Bytes, i: nat, s: Bytes)
    requires i + |s| <= |c|
    ensures Stored(c, i, s)[i..i + |s|] == s
    ensures forall k :: 0 <= k < |c| && !(i <= k < i + |s|) ==> Stored(c, i, s)[k] == c[k]
  {}

  // ---------- digits, one by one

  lemma TwoDigits(u: nat)
    ensures Digits(u, 2) == [u / 0x100 % 256, u % 256]
  {
    assert Digits(u / 256, 1) == Digits(u / 256 / 256, 0) + [u / 256 % 256];
  }

  lemma ThreeDigits(u: nat)
    ensures Digits(u, 3) == [u / 0x1_0000 % 256, u / 0x100 % 256, u % 256]
  {
    TwoDigits(u / 256);
    assert u / 256 / 256 == u / 0x1_0000;
  }

  lemma FourDigits(u: nat)
    ensures Digits(u, 4) == [u / 0x100_0000 % 256, u / 0x1_0000 % 256, u / 0x100 % 256, u % 256]
  {
    ThreeDigits(u / 256);
    assert u / 256 / 256 == u / 0x1_0000 && u / 256 / 0x1_0000 == u / 0x100_0000;
  }

  lemma DigitsOfHalves(u: nat, m: nat)
    ensures Digits(u, m + 4) == Digits(u / 0x1_0000_0000, m) + Digits(u % 0x1_0000_0000, 4)
  {
    PowersOf256();
    DigitsAbove(u / 0x1_0000_0000, u % 0x1_0000_0000, m, 4);
  }

  lemma {:induction false} DigitsAbove(high: nat, low: nat, m: nat, n: nat)
    requires low < Power256(n)
    ensures Digits(high * Power256(n) + low, m + n) == Digits(high, m) + Digits(low, n)
    decreases n
  {
    if n == 0 {
      assert high * Power256(n) + low == high;
      assert Digits(low, 0) == [];
    } else {
      var u := high * Power256(n) + low;
      assert high * Power256(n) == 256 * (high * Power256(n - 1));
      assert u / 256 == high * Power256(n - 1) + low / 256 && u % 256 == low % 256;
      DigitsAbove(high, low / 256, m, n - 1);
      assert Digits(u, m + n) == Digits(u / 256, m + n - 1) + [u % 256];
    }
  }

  lemma MoveFactor(x: nat, power: nat, rest: nat)
    ensures 256 * (x * power + rest) == x * (256 * power) + 256 * rest
  {}

  lemma {:induction false} NumberOfBoth(c: Bytes, i: nat, m: nat, n: nat)
    requires i + m + n <= |c|
    ensures Number(c, i, m + n) == Number(c, i, m) * Power256(n) + Number(c, i + m, n)
    decreases n
  {
    if n > 0 {
      NumberOfBoth(c, i, m, n - 1);
      MoveFactor(Number(c, i, m), Power256(n - 1), Number(c, i + m, n - 1));
      assert Number(c, i, m + n) == 256 * Number(c, i, m + n - 1) + c[i + m + n - 1];
    }
  }

  lemma NumberOfTwo(x: Bytes, i: nat)
    requires i + 2 <= |x|
    ensures Number(x, i, 2) == ShiftedLeft(x[i], 0x100) + x[i + 1]
  {
    assert Number(x, i, 1) == 256 * Number(x, i, 0) + x[i];
  }

  lemma NumberOfThree(x: Bytes, i: nat)
    requires i + 3 <= |x|
    ensures Number(x, i, 3) == ShiftedLeft(x[i], 0x1_0000) + ShiftedLeft(x[i + 1], 0x100) + x[i + 2]
  {
    NumberOfTwo(x, i);
  }

  lemma NumberOfFour(x: Bytes, i: nat)
    requires i + 4 <= |x|
    ensures Number(x, i, 4)
         == ShiftedLeft(x[i], 0x100_0000) + ShiftedLeft(x[i + 1], 0x1_0000) + ShiftedLeft(x[i + 2], 0x100) + x[i + 3]
  {
    NumberOfThree(x, i);
  }

  /** Shifted bytes share no bits. */
  lemma OrOfTwo(a: nat, b: nat)
    requires b < 256
    ensures Or(ShiftedLeft(a, 0x100), b) == ShiftedLeft(a, 0x100) + b
  {
    PowersInUse();
    OrIsSum(a, 8, b);
  }

  lemma OrOfThree(a: nat, b: nat, c: nat)
    requires b < 256 && c < 256
    ensures Or(Or(ShiftedLeft(a, 0x1_0000), ShiftedLeft(b, 0x100)), c)
         == ShiftedLeft(a, 0x1_0000) + ShiftedLeft(b, 0x100) + c
  {
    PowersInUse();
    OrIsSum(a, 16, 256 * b);
    OrIsSum(256 * a + b, 8, c);
    assert 0x100 * (256 * a + b) == 0x1_0000 * a + 256 * b;
  }

  // ---------- packing in place

  method PackUintTo2Bytes(u: nat, b: array<byte>, i: nat) returns (ok: bool)
    modifies b
    ensures ok <==> u < Power256(2) && i + 2 <= b.Length
    ensures b[..] == if ok then Stored(old(b[..]), i, Digits(u, 2)) else old(b[..])
  {
    PowersOf256();
    if u > 0xffff || b.Length < i + 2 {
      return false;
    }
    TwoDigits(u);
    b[i] := Low8(ShiftedRight(u, 0x100));
    b[i + 1] := Low8(u);
    IsStored(b[..], old(b[..]), i, Digits(u, 2));
    ok := true;
  }

  method PackUintTo3Bytes(u: nat, b: array<byte>, i: nat) returns (ok: bool)
    modifies b
    ensures ok <==> u < Power256(3) && i + 3 <= b.Length
    ensures b[..] == if ok then Stored(old(b[..]), i, Digits(u, 3)) else old(b[..])
  {
    PowersOf256();
    if u > 0xff_ffff || b.Length < i + 3 {
      return false;
    }
    ThreeDigits(u);
    b[i] := Low8(ShiftedRight(u, 0x1_0000));
    b[i + 1] := Low8(ShiftedRight(u, 0x100));
    b[i + 2] := Low8(u);
    IsStored(b[..], old(b[..]), i, Digits(u, 3));
    ok := true;
  }

  method PackUintTo4Bytes(u: nat, b: array<byte>, i: nat) returns (ok: bool)
    modifies b
    ensures ok <==> u < Power256(4) && i + 4 <= b.Length
    ensures b[..] == if ok then Stored(old(b[..]), i, Digits(u, 4)) else old(b[..])
  {
    PowersOf256();
    if u > 0xffff_ffff || b.Length < i + 4 {
      return false;
    }
    FourDigits(u);
    b[i] := Low8(ShiftedRight(u, 0x100_0000));
    b[i + 1] := Low8(ShiftedRight(u, 0x1_0000));
    b[i + 2] := Low8(ShiftedRight(u, 0x100));
    b[i + 3] := Low8(u);
    IsStored(b[..], old(b[..]), i, Digits(u, 4));
    ok := true;
  }

  method PackUintTo6Bytes(u: nat, b: array<byte>, i: nat) returns (ok: bool)
    modifies b
    ensures ok <==> u < Power256(6) && i + 6 <= b.Length
    ensures b[..] == if ok then Stored(old(b[..]), i, Digits(u, 6)) else old(b[..])
  {
    PowersOf256();
    if u > 0xffff_ffff_ffff || b.Length < i + 6 {
      return false;
    }
    var h, l := u / 0x1_0000_0000, u % 0x1_0000_0000;
    DigitsOfHalves(u, 2);
    TwoDigits(h);
    FourDigits(l);
    b[i] := Low8(ShiftedRight(h, 0x100));
    b[i + 1] := Low8(h);
    b[i + 2] := Low8(ShiftedRight(l, 0x100_0000));
    b[i + 3] := Low8(ShiftedRight(l, 0x1_0000));
    b[i + 4] := Low8(ShiftedRight(l, 0x100));
    b[i + 5] := Low8(l);
    IsStored(b[..], old(b[..]), i, Digits(u, 6));
    ok := true;
  }

  method PackUintTo8Bytes(u: nat, b: array<byte>, i: nat) returns (ok: bool)
    modifies b
    ensures ok <==> u <= MAX_SAFE_INTEGER && i + 8 <= b.Length
    ensures b[..] == if ok then Stored(old(b[..]), i, Digits(u, 8)) else old(b[..])
  {
    PowersOf256();
    if u > MAX_SAFE_INTEGER || b.Length < i + 8 {
      return false;
    }
    var h, l := u / 0x1_0000_0000, u % 0x1_0000_0000;
    DigitsOfHalves(u, 4);
    FourDigits(h);
    FourDigits(l);
    b[i] := Low8(ShiftedRight(h, 0x100_0000));
    b[i + 1] := Low8(ShiftedRight(h, 0x1_0000));
    b[i + 2] := Low8(ShiftedRight(h, 0x100));
    b[i + 3] := Low8(h);
    b[i + 4] := Low8(ShiftedRight(l, 0x100_0000));
    b[i + 5] := Low8(ShiftedRight(l, 0x1_0000));
    b[i + 6] := Low8(ShiftedRight(l, 0x100));
    b[i + 7] := Low8(l);
    IsStored(b[..], old(b[..]), i, Digits(u, 8));
    ok := true;
  }

  // ---------- unpacking

  function UintFrom2Bytes(x: Bytes, i: nat): (r: Option<nat>)
    ensures r == if i + 2 <= |x| then Some(Number(x, i, 2)) else None
  {
    if |x| < i + 2 then None
    else
      NumberOfTwo(x, i);
      OrOfTwo(x[i], x[i + 1]);
      Some(Or(ShiftedLeft(x[i], 0x100), x[i + 1]))
  }

  function UintFrom3Bytes(x: Bytes, i: nat): (r: Option<nat>)
    ensures r == if i + 3 <= |x| then Some(Number(x, i, 3)) else None
  {
    if |x| < i + 3 then None
    else
      NumberOfThree(x, i);
      OrOfThree(x[i], x[i + 1], x[i + 2]);
      Some(Or(Or(ShiftedLeft(x[i], 0x1_0000), ShiftedLeft(x[i + 1], 0x100)), x[i + 2]))
  }

  /** The highest byte is multiplied, because a shift of it may give a negative number. */
  function FromFour(a: byte, b: byte, c: byte, d: byte): nat {
    ShiftedLeft(a, 0x100_0000) + Or(Or(ShiftedLeft(b, 0x1_0000), ShiftedLeft(c, 0x100)), d)
  }

  lemma FourIsNumber(x: Bytes, i: nat)
    requires i + 4 <= |x|
    ensures FromFour(x[i], x[i + 1], x[i + 2], x[i + 3]) == Number(x, i, 4)
  {
    NumberOfFour(x, i);
    OrOfThree(x[i + 1], x[i + 2], x[i + 3]);
  }

  function UintFrom4Bytes(x: Bytes, i: nat): (r: Option<nat>)
    ensures r == if i + 4 <= |x| then Some(Number(x, i, 4)) else None
  {
    if |x| < i + 4 then None
    else
      FourIsNumber(x, i);
      Some(FromFour(x[i], x[i + 1], x[i + 2], x[i + 3]))
  }

  lemma HalvesAreNumber(x: Bytes, i: nat, m: nat)
    requires i + m + 4 <= |x|
    ensures Number(x, i, m + 4) == Number(x, i, m) * 0x1_0000_0000 + Number(x, i + m, 4)
  {
    PowersOf256();
    NumberOfBoth(x, i, m, 4);
  }

  lemma SixIsNumber(x: Bytes, i: nat)
    requires i + 6 <= |x|
    ensures Or(ShiftedLeft(x[i], 0x100), x[i + 1]) * 0x1_0000_0000 + FromFour(x[i + 2], x[i + 3], x[i + 4], x[i + 5])
         == Number(x, i, 6)
  {
    NumberOfTwo(x, i);
    OrOfTwo(x[i], x[i + 1]);
    FourIsNumber(x, i + 2);
    HalvesAreNumber(x, i, 2);
  }

  lemma EightIsNumber(x: Bytes, i: nat)
    requires i + 8 <= |x|
    ensures FromFour(x[i], x[i + 1], x[i + 2], x[i + 3]) * 0x1_0000_0000
            + FromFour(x[i + 4], x[i + 5], x[i + 6], x[i + 7])
         == Number(x, i, 8)
  {
    FourIsNumber(x, i);
    FourIsNumber(x, i + 4);
    HalvesAreNumber(x, i, 4);
  }

  function UintFrom6Bytes(x: Bytes, i: nat): (r: Option<nat>)
    ensures r == if i + 6 <= |x| then Some(Number(x, i, 6)) else None
  {
    if |x| < i + 6 then None
    else
      var h := Or(ShiftedLeft(x[i], 0x100), x[i + 1]);
      var l := FromFour(x[i + 2], x[i + 3], x[i + 4], x[i + 5]);
      SixIsNumber(x, i);
      Some(h * 0x1_0000_0000 + l)
  }

  function UintFrom8Bytes(x: Bytes, i: nat): (r: Option<nat>)
    ensures r == if i + 8 <= |x| then Some(Number(x, i, 8)) else None
  {
    if |x| < i + 8 then None
    else
      var h := FromFour(x[i], x[i + 1], x[i + 2], x[i + 3]);
      var l := FromFour(x[i + 4], x[i + 5], x[i + 6], x[i + 7]);
      EightIsNumber(x, i);
      Some(h * 0x1_0000_0000 + l)
  }

  /** Numbers within bounds of packing methods are read back, whatever bytes are around them. */
  lemma ReadBack(u: nat, c: Bytes, i: nat)
    ensures u < Power256(2) && i + 2 <= |c| ==> UintFrom2Bytes(Stored(c, i, Digits(u, 2)), i) == Some(u)
    ensures u < Power256(3) && i + 3 <= |c| ==> UintFrom3Bytes(Stored(c, i, Digits(u, 3)), i) == Some(u)
    ensures u < Power256(4) && i + 4 <= |c| ==> UintFrom4Bytes(Stored(c, i, Digits(u, 4)), i) == Some(u)
    ensures u < Power256(6) && i + 6 <= |c| ==> UintFrom6Bytes(Stored(c, i, Digits(u, 6)), i) == Some(u)
    ensures u <= MAX_SAFE_INTEGER && i + 8 <= |c| ==> UintFrom8Bytes(Stored(c, i, Digits(u, 8)), i) == Some(u)
  {
    PowersOf256();
    forall n: nat | u < Power256(n) && i + n <= |c|
      ensures Number(Stored(c, i, Digits(u, n)), i, n) == u
    {
      StoredIsThere(c, i, Digits(u, n));
      NumberOfDigits(u, n, Stored(c, i, Digits(u, n)), i);
    }
  }
}
