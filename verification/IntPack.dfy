/** Integers of 1 to 16 bytes in either byte order, as buffer.pack and buffer.unpack write and read them. */
module IntPack {
  import opened Basics
  import opened Bytes
  import opened Arith
  import opened EndianConv

  const SZINT := 8            // sizeof(lua_Integer)
  const WORD64 := 0x1_0000_0000_0000_0000

  predicate IsInteger(n: int) { -0x8000_0000_0000_0000 <= n < 0x8000_0000_0000_0000 }

  lemma Pow256Values()
    ensures Pow256(1) == 0x100 && Pow256(2) == 0x1_0000 && Pow256(4) == 0x1_0000_0000 && Pow256(8) == WORD64
  {
    assert Pow256(3) == 0x100_0000;
    assert Pow256(5) == 0x100_0000_0000;
    assert Pow256(6) == 0x1_0000_0000_0000;
    assert Pow256(7) == 0x100_0000_0000_0000;
  }

  function Ordered(e: Endian, s: seq<Byte>): (r: seq<Byte>)
    ensures |r| == |s|
  {
    if e.LittleEndian? then s else Reverse(s)
  }

  // ----- the digits of a number in several pieces

  lemma {:induction false} DigitsSum(lo: nat, hi: nat, a: nat, b: nat)
    requires lo < Pow256(a)
    ensures Digits(hi * Pow256(a) + lo, a + b) == Digits(lo, a) + Digits(hi, b)
  {
    if a > 0 {
      var v := hi * Pow256(a) + lo;
      Shifted(lo, hi, Pow256(a - 1));
      DigitsSum(lo / 256, hi, a - 1, b);
      var first: Byte := v % 256;
      assert Digits(v, a + b) == [first] + Digits(v / 256, a - 1 + b);
    }
  }

  lemma Shifted(lo: nat, hi: nat, p: nat)
    ensures hi * (256 * p) + lo >= 0
    ensures (hi * (256 * p) + lo) % 256 == lo % 256 && (hi * (256 * p) + lo) / 256 == hi * p + lo / 256
  {
    assert hi * (256 * p) == (hi * p) * 256 by { Assoc(hi, p, 256); }
    DivUnique(hi * (256 * p) + lo, hi * p + lo / 256, lo % 256, 256);
  }

  lemma {:induction false} DigitsLow(lo: nat, hi: nat, n: nat)
    ensures Digits(hi * Pow256(n) + lo, n) == Digits(lo, n)
  {
    if n > 0 {
      Shifted(lo, hi, Pow256(n - 1));
      DigitsLow(lo / 256, hi, n - 1);
    }
  }

  lemma DigitsMod(v: nat, n: nat)
    ensures Digits(v, n) == Digits(v % Pow256(n), n)
  {
    var q, r := Division(v, Pow256(n));
    DigitsLow(r, q, n);
  }

  function Repeat(b: Byte, n: nat): (s: seq<Byte>)
    ensures |s| == n && forall i :: 0 <= i < n ==> s[i] == b
  {
    seq(n, i => b)
  }

  lemma {:induction false} DigitsOfOnes(n: nat)
    ensures Digits(Pow256(n) - 1, n) == Repeat(255, n)
  {
    if n > 0 {
      DigitsOfOnes(n - 1);
      assert (Pow256(n) - 1) % 256 == 255 && (Pow256(n) - 1) / 256 == Pow256(n - 1) - 1 by {
        DivUnique(Pow256(n) - 1, Pow256(n - 1) - 1, 255, 256);
      }
      assert [255 as Byte] + Repeat(255, n - 1) == Repeat(255, n);
    }
  }

  lemma {:induction false} DigitsOfZero(n: nat)
    ensures Digits(0, n) == Repeat(0, n)
  {
    if n > 0 {
      DigitsOfZero(n - 1);
      assert [0 as Byte] + Repeat(0, n - 1) == Repeat(0, n);
    }
  }

  lemma {:induction false} PowSum(a: nat, b: nat)
    ensures Pow256(a + b) == Pow256(a) * Pow256(b)
  {
    if a > 0 {
      PowSum(a - 1, b);
      Assoc(256, Pow256(a - 1), Pow256(b));
    }
  }

  // The digits of n in two's complement beyond the eighth byte are its sign.
  lemma SignExtension(n: int, more: nat)
    requires IsInteger(n)
    ensures Digits(n % Pow256(8 + more), 8 + more) == Digits(n % WORD64, 8) + Repeat(if n < 0 then 255 else 0, more)
  {
    Pow256Values();
    PowSum(8, more);
    var p, m := Pow256(8 + more), Pow256(more);
    assert p == m * WORD64 && p >= WORD64;
    if n >= 0 {
      DivUnique(n, 0, n, p);
      DivUnique(n, 0, n, WORD64);
      DigitsSum(n, 0, 8, more);
      DigitsOfZero(more);
    } else {
      DivUnique(n, -1, n + p, p);
      DivUnique(n, -1, n + WORD64, WORD64);
      DigitsSum(n + WORD64, m - 1, 8, more);
      assert (m - 1) * WORD64 + (n + WORD64) == n + p;
      DigitsOfOnes(more);
    }
  }

  // ----- packint

  // What `size` bytes hold of n: two's complement if it is signed, else its 64 bits.
  function IntBytes(n: int, size: nat, signed: bool, e: Endian): (s: seq<Byte>)
    ensures |s| == size
  {
    Store(e, if signed then n else n % WORD64, size)
  }

  // Where the i-th least significant byte goes.
  function Place(e: Endian, i: nat, size: nat): nat
    requires i < size
  {
    if e.LittleEndian? then i else size - 1 - i
  }

  // The bytes in memory are d, least significant first, in byte order e.
  predicate Holds(s: seq<Byte>, d: seq<Byte>, e: Endian) {
    |s| == |d| && forall k :: 0 <= k < |d| ==> s[Place(e, k, |d|)] == d[k]
  }

  lemma HoldsOrdered(s: seq<Byte>, d: seq<Byte>, e: Endian)
    requires Holds(s, d, e)
    ensures s == Ordered(e, d)
  {
    ReverseIndex(d);
    forall k | 0 <= k < |s| ensures s[k] == Ordered(e, d)[k] {
      assert Place(e, Place(e, k, |d|), |d|) == k;
    }
  }

  method PackInt(n: int, e: Endian, size: nat, signed: bool) returns (buff: array<Byte>)
    requires IsInteger(n) && 1 <= size <= 16
    ensures fresh(buff) && buff.Length == size && buff[..] == IntBytes(n, size, signed, e)
  {
    buff := new Byte[size](_ => 0);
    WriteDigits(buff, n % WORD64, e);
    ghost var d := Digits(n % WORD64, size);
    if signed && n < 0 && size > SZINT {
      ExtendSign(buff, d, e);
      d := d[..SZINT] + Repeat(255, size - SZINT);
    }
    LittleBytes(n, size, signed, d);
    HoldsOrdered(buff[..], d, e);
  }

  method WriteDigits(buff: array<Byte>, n0: nat, e: Endian)
    requires 1 <= buff.Length
    modifies buff
    ensures Holds(buff[..], Digits(n0, buff.Length), e)
  {
    var size, n := buff.Length, n0;
    ghost var d := Digits(n0, size);
    buff[Place(e, 0, size)] := n % 256;
    var i := 1;
    assert d[1..] == Digits(n / 256, size - 1);
    while i < size
      invariant 1 <= i <= size && d[i..] == Digits(n / 256, size - i)
      invariant forall k :: 0 <= k < i ==> buff[Place(e, k, size)] == d[k]
    {
      n := n / 256;
      assert d[i] == d[i..][0] && d[i..][1..] == d[i + 1..];
      buff[Place(e, i, size)] := n % 256;
      i := i + 1;
    }
  }

  method ExtendSign(buff: array<Byte>, ghost d: seq<Byte>, e: Endian)
    requires SZINT < buff.Length && Holds(buff[..], d, e)
    modifies buff
    ensures Holds(buff[..], d[..SZINT] + Repeat(255, buff.Length - SZINT), e)
  {
    var size := buff.Length;
    var i := SZINT;
    while i < size
      invariant SZINT <= i <= size
      invariant forall k :: 0 <= k < SZINT ==> buff[Place(e, k, size)] == d[k]
      invariant forall k :: SZINT <= k < i ==> buff[Place(e, k, size)] == 255
    {
      buff[Place(e, i, size)] := 255;
      i := i + 1;
    }
  }

  // The loops leave the digits of the signed, or of the 64-bit, number.
  lemma LittleBytes(n: int, size: nat, signed: bool, little: seq<Byte>)
    requires IsInteger(n) && 1 <= size <= 16 && |little| == size
    requires var d := Digits(n % WORD64, size);
      little == if signed && n < 0 && size > SZINT then d[..SZINT] + Repeat(255, size - SZINT) else d
    ensures forall e: Endian :: IntBytes(n, size, signed, e) == Ordered(e, little)
  {
    if !signed {
      DigitsMod(n % WORD64, size);
    } else if size <= SZINT {
      LowBytes(n, size);
    } else {
      HighBytes(n, size);
    }
  }

  lemma HighBytes(n: int, size: nat)
    requires IsInteger(n) && size > SZINT
    ensures var d := Digits(n % WORD64, size);
      Digits(n % Pow256(size), size) == if n < 0 then d[..SZINT] + Repeat(255, size - SZINT) else d
  {
    Pow256Values();
    var u := n % WORD64;
    SignExtension(n, size - 8);
    DigitsSum(u, 0, 8, size - 8);
    DigitsOfZero(size - 8);
    assert Digits(u, size)[..SZINT] == Digits(u, 8);
  }

  lemma LowBytes(n: int, size: nat)
    requires size <= 8
    ensures Digits(n % Pow256(size), size) == Digits(n % WORD64, size)
  {
    Pow256Values();
    PowSum(8 - size, size);
    MultipleMod(Pow256(8 - size), Pow256(size));
    ModMod(n, WORD64, Pow256(size));
    DigitsMod(n % WORD64, size);
  }

  // ----- unpackint

  // The number in some bytes: sign-extended if signed and short; beyond eight bytes all
  // must repeat the sign.
  function IntOf(s: seq<Byte>, signed: bool, e: Endian): Option<int> {
    var d := Ordered(e, s);
    if |s| < SZINT then Some(if signed then Signed(Value(d), |s|) else Value(d))
    else
      var low := Signed(Value(d[..SZINT]), SZINT);
      if d[SZINT..] == Repeat(if signed && low < 0 then 255 else 0, |s| - SZINT) then Some(low) else None
  }

  lemma OrderedAt(s: seq<Byte>, e: Endian)
    ensures |Ordered(e, s)| == |s| && forall k :: 0 <= k < |s| ==> Ordered(e, s)[k] == s[Place(e, k, |s|)]
  {
    ReverseIndex(s);
  }

  lemma ValueFrom(d: seq<Byte>, i: nat, limit: nat)
    requires i < limit <= |d|
    ensures Value(d[i..limit]) == Value(d[i + 1..limit]) * 256 + d[i]
  {
    assert d[i..limit][1..] == d[i + 1..limit];
  }

  method UnpackInt(s: seq<Byte>, e: Endian, signed: bool) returns (r: Option<int>)
    requires 1 <= |s| <= 16
    ensures r == IntOf(s, signed, e)
  {
    var size := |s|;
    ghost var d := Ordered(e, s);
    OrderedAt(s, e);
    var limit := if size <= SZINT then size else SZINT;
    var res: nat := 0;
    var i := limit;
    while i > 0
      invariant 0 <= i <= limit && res == Value(d[i..limit])
    {
      i := i - 1;
      ValueFrom(d, i, limit);
      res := res * 256 + s[Place(e, i, size)];
    }
    assert d[0..limit] == d[..limit];
    if size < SZINT {
      assert d[..limit] == d;
      if !signed { return Some(res); }
      // (res ^ mask) - mask, with mask the sign bit
      return Some(if 2 * res >= Pow256(size) then res - Pow256(size) else res);
    }
    Pow256Values();
    var low := Signed(res, SZINT);
    var mask: Byte := if signed && low < 0 then 255 else 0;
    var same := UnreadBytes(s, e, mask, d);
    if !same { return None; }
    return Some(low);
  }

  // Whether the bytes beyond the eighth are all the same.
  method UnreadBytes(s: seq<Byte>, e: Endian, mask: Byte, ghost d: seq<Byte>) returns (same: bool)
    requires SZINT <= |s| == |d| && forall k :: 0 <= k < |s| ==> d[k] == s[Place(e, k, |s|)]
    ensures same <==> d[SZINT..] == Repeat(mask, |s| - SZINT)
  {
    var i := SZINT;
    while i < |s|
      invariant SZINT <= i <= |s| && forall k :: SZINT <= k < i ==> d[k] == mask
    {
      if s[Place(e, i, |s|)] != mask {
        assert d[SZINT..][i - SZINT] == d[i];
        return false;
      }
      i := i + 1;
    }
    assert d[SZINT..] == Repeat(mask, |s| - SZINT);
    return true;
  }

  // The numbers an option of `size` bytes accepts.
  predicate Fits(n: int, size: nat, signed: bool) {
    IsInteger(n) && (size < SZINT ==> if signed then -2 * n <= Pow256(size) && 2 * n < Pow256(size) else 0 <= n < Pow256(size))
  }

  lemma OrderedStore(x: int, n: nat, e: Endian)
    ensures Ordered(e, Store(e, x, n)) == Digits(x % Pow256(n), n)
  {
    ReverseTwice(Digits(x % Pow256(n), n));
  }

  lemma SignedBack(n: int, size: nat)
    requires -2 * n <= Pow256(size) && 2 * n < Pow256(size)
    ensures Signed(n % Pow256(size), size) == n
  {
    if n >= 0 { DivUnique(n, 0, n, Pow256(size)); } else { DivUnique(n, -1, n + Pow256(size), Pow256(size)); }
  }

  lemma ShortRoundTrip(n: int, size: nat, signed: bool, e: Endian)
    requires 1 <= size < SZINT && Fits(n, size, signed)
    ensures IntOf(IntBytes(n, size, signed, e), signed, e) == Some(n)
  {
    Pow256Values();
    var x := if signed then n else n % WORD64;
    OrderedStore(x, size, e);
    DigitsValue(x % Pow256(size), size);
    DivUnique(x % Pow256(size), 0, x % Pow256(size), Pow256(size));
    if signed {
      SignedBack(n, size);
    } else {
      PowSum(8 - size, size);
      assert Pow256(8 - size) * Pow256(size) >= Pow256(size);
      DivUnique(n, 0, n, WORD64);
      DivUnique(n, 0, n, Pow256(size));
    }
  }

  lemma LongDigits(n: int, size: nat, signed: bool, e: Endian)
    requires SZINT <= size && IsInteger(n)
    ensures var d := Ordered(e, IntBytes(n, size, signed, e));
      d[..SZINT] == Digits(n % WORD64, 8) && d[SZINT..] == Repeat(if signed && n < 0 then 255 else 0, size - SZINT)
  {
    Pow256Values();
    var u := n % WORD64;
    var x := if signed then n else u;
    OrderedStore(x, size, e);
    if signed {
      SignExtension(n, size - 8);
    } else {
      DigitsMod(u, size);
      DigitsSum(u, 0, 8, size - 8);
      DigitsOfZero(size - 8);
    }
  }

  // Every width from 1 to 16, both byte orders, signed or not.
  lemma IntRoundTrip(n: int, size: nat, signed: bool, e: Endian)
    requires 1 <= size <= 16 && Fits(n, size, signed)
    ensures IntOf(IntBytes(n, size, signed, e), signed, e) == Some(n)
  {
    if size < SZINT {
      ShortRoundTrip(n, size, signed, e);
    } else {
      Pow256Values();
      LongDigits(n, size, signed, e);
      DigitsValue(n % WORD64, 8);
      DivUnique(n % WORD64, 0, n % WORD64, WORD64);
      SignedBack(n, 8);
    }
  }

  // ----- every byte string that is read

  lemma {:induction false} DigitsOfValue(s: seq<Byte>)
    ensures Digits(Value(s), |s|) == s
  {
    if s != [] {
      DivUnique(Value(s), Value(s[1..]), s[0], 256);
      DigitsOfValue(s[1..]);
    }
  }

  lemma SignedMod(v: nat, size: nat)
    requires v < Pow256(size)
    ensures Signed(v, size) % Pow256(size) == v && -2 * Signed(v, size) <= Pow256(size) && 2 * Signed(v, size) < Pow256(size)
  {
    var p := Pow256(size);
    if 2 * v >= p { DivUnique(v - p, -1, v, p); } else { DivUnique(v, 0, v, p); }
  }

  lemma OrderedSame(e: Endian, s: seq<Byte>, t: seq<Byte>)
    requires Ordered(e, s) == Ordered(e, t)
    ensures s == t
  {
    ReverseTwice(s);
    ReverseTwice(t);
  }

  lemma ShortReads(s: seq<Byte>, signed: bool, e: Endian)
    requires 1 <= |s| < SZINT
    ensures IntOf(s, signed, e).Some? && Fits(IntOf(s, signed, e).value, |s|, signed)
    ensures IntBytes(IntOf(s, signed, e).value, |s|, signed, e) == s
  {
    var size, d := |s|, Ordered(e, s);
    var v, n := Value(d), IntOf(s, signed, e).value;
    var x := if signed then n else n % WORD64;
    Pow256Values();
    PowSum(8 - size, size);
    assert Pow256(8 - size) >= 256 by { assert Pow256(8 - size) == 256 * Pow256(7 - size); }
    assert 256 * Pow256(size) <= WORD64;
    SignedMod(v, size);
    if !signed {
      DivUnique(v, 0, v, WORD64);
      DivUnique(v, 0, v, Pow256(size));
    }
    OrderedStore(x, size, e);
    DigitsOfValue(d);
    OrderedSame(e, s, IntBytes(n, size, signed, e));
  }

  lemma LongReads(s: seq<Byte>, signed: bool, e: Endian)
    requires SZINT <= |s| && IntOf(s, signed, e).Some?
    ensures Fits(IntOf(s, signed, e).value, |s|, signed)
    ensures IntBytes(IntOf(s, signed, e).value, |s|, signed, e) == s
  {
    var d, n := Ordered(e, s), IntOf(s, signed, e).value;
    var t := Ordered(e, IntBytes(n, |s|, signed, e));
    Pow256Values();
    SignedMod(Value(d[..SZINT]), SZINT);
    LongDigits(n, |s|, signed, e);
    DigitsOfValue(d[..SZINT]);
    assert d == d[..SZINT] + d[SZINT..] && t == t[..SZINT] + t[SZINT..];
    OrderedSame(e, s, IntBytes(n, |s|, signed, e));
  }

  // Exactly the bytes of an accepted number are read as that number; any others are refused.
  lemma ReadsExactly(s: seq<Byte>, signed: bool, e: Endian, n: int)
    requires 1 <= |s| <= 16
    ensures IntOf(s, signed, e) == Some(n) <==> Fits(n, |s|, signed) && IntBytes(n, |s|, signed, e) == s
  {
    if Fits(n, |s|, signed) { IntRoundTrip(n, |s|, signed, e); }
    if IntOf(s, signed, e) == Some(n) {
      if |s| < SZINT { ShortReads(s, signed, e); } else { LongReads(s, signed, e); }
    }
  }
}
