/**
 endian_conv: integers of 1, 2, 4 or 8 bytes to and from a byte order.  The code copies
 the bytes when the order is the machine's own and reverses them otherwise; `host` is the
 machine's order.
 */
module EndianConv {
  import opened Bytes
  import opened Arith

  datatype Endian = LittleEndian | BigEndian

  function Reverse(s: seq<Byte>): (r: seq<Byte>)
    ensures |r| == |s|
  {
    if s == [] then [] else Reverse(s[1..]) + [s[0]]
  }

  lemma {:induction false} ReverseAppend(s: seq<Byte>, t: seq<Byte>)
    ensures Reverse(s + t) == Reverse(t) + Reverse(s)
  {
    if s == [] {
      assert s + t == t;
    } else {
      assert (s + t)[1..] == s[1..] + t;
      ReverseAppend(s[1..], t);
    }
  }

  lemma {:induction false} ReverseTwice(s: seq<Byte>)
    ensures Reverse(Reverse(s)) == s
  {
    if s != [] {
      ReverseAppend(Reverse(s[1..]), [s[0]]);
      assert Reverse([s[0]]) == [s[0]];
      ReverseTwice(s[1..]);
    }
  }

  // The value of the bytes, least significant first.
  function Value(s: seq<Byte>): (v: nat)
    ensures v < Pow256(|s|)
  {
    if s == [] then 0 else s[0] + 256 * Value(s[1..])
  }

  // The low n bytes of v, least significant first.
  function Digits(v: nat, n: nat): (s: seq<Byte>)
    ensures |s| == n
  {
    if n == 0 then [] else [v % 256] + Digits(v / 256, n - 1)
  }

  lemma {:induction false} DigitsValue(v: nat, n: nat)
    ensures Value(Digits(v, n)) == v % Pow256(n)
  {
    if n > 0 {
      DigitsValue(v / 256, n - 1);
      LowDigits(v, Pow256(n - 1));
    }
  }

  // The lowest digit and the others, modulo a power.
  lemma LowDigits(v: nat, p: nat)
    requires p > 0
    ensures v % (256 * p) == 256 * ((v / 256) % p) + v % 256
  {
    var h, d := Division(v, 256);
    var q, r := Division(h, p);
    Scaled(h, q, p, r);
    Assoc(q, 256, p);
    DivUnique(v, q, 256 * r + d, 256 * p);
  }

  lemma Scaled(h: int, q: int, p: int, r: int)
    requires h == q * p + r
    ensures h * 256 == (q * 256) * p + 256 * r
  {
  }

  // Two's complement.
  function Signed(v: nat, n: nat): int { if 2 * v >= Pow256(n) then v - Pow256(n) else v }

  // What the machine reads from, and writes to, n bytes of memory.
  function Load(host: Endian, m: seq<Byte>): int {
    Signed(Value(if host.LittleEndian? then m else Reverse(m)), |m|)
  }

  function Store(host: Endian, x: int, n: nat): (m: seq<Byte>)
    ensures |m| == n
  {
    var d := Digits(x % Pow256(n), n);
    if host.LittleEndian? then d else Reverse(d)
  }

  // endian_to_integer
  function EndianToInteger(host: Endian, src: seq<Byte>, e: Endian): int {
    if |src| == 1 then Load(host, src)
    else if |src| == 2 || |src| == 4 || |src| == 8 then Load(host, if e == host then src else Reverse(src))
    else 0
  }

  // endian_from_integer writes the low bytes of x into dest.
  method EndianFromInteger(host: Endian, x: int, dest: array<Byte>, bytes: nat, e: Endian)
    requires bytes <= dest.Length
    modifies dest
    ensures dest[bytes..] == old(dest[bytes..])
    ensures bytes in {1, 2, 4, 8} ==> dest[..bytes] == Encoded(x, bytes, e) == NumberBytes(x, bytes, e.LittleEndian?)
    ensures bytes !in {1, 2, 4, 8} ==> dest[..] == old(dest[..])
  {
    if bytes != 1 && bytes != 2 && bytes != 4 && bytes != 8 {
      return;
    }
    EncodedBytes(x, bytes, e);
    var m := Store(host, x, bytes);
    StoreMeets(host, x, bytes, e);
    WriteBytes(m, dest, e != host);
  }

  // The bytes of m, swapped or not, to the front of dest.
  method WriteBytes(m: seq<Byte>, dest: array<Byte>, swap: bool)
    requires |m| <= dest.Length
    modifies dest
    ensures dest[..|m|] == (if swap then Reverse(m) else m) && dest[|m|..] == old(dest[|m|..])
  {
    ghost var want := if swap then Reverse(m) else m;
    ReverseIndex(m);
    for i := 0 to |m|
      invariant forall j :: |m| <= j < dest.Length ==> dest[j] == old(dest[j])
      invariant forall j :: 0 <= j < i ==> dest[j] == want[j]
    {
      dest[i] := if swap then m[|m| - 1 - i] else m[i];
    }
    assert dest[..|m|] == want;
  }

  lemma {:induction false} ReverseIndex(s: seq<Byte>)
    ensures forall j :: 0 <= j < |s| ==> Reverse(s)[j] == s[|s| - 1 - j]
  {
    if s != [] {
      ReverseIndex(s[1..]);
    }
  }

  // The bytes of x in byte order e, on any machine.
  function Encoded(x: int, n: nat, e: Endian): (m: seq<Byte>)
    ensures |m| == n
  {
    Store(e, x, n)
  }

  lemma StoreMeets(host: Endian, x: int, n: nat, e: Endian)
    ensures (if e == host then Store(host, x, n) else Reverse(Store(host, x, n))) == Encoded(x, n, e)
  {
    ReverseTwice(Digits(x % Pow256(n), n));
  }

  // x by a number and then by another.
  lemma DividedTwice(x: int, p: int)
    requires p > 0
    ensures x / (256 * p) == (x / 256) / p && (x % (256 * p)) / 256 == (x / 256) % p
  {
    var h, d := x / 256, x % 256;
    var q, r := h / p, h % p;
    Scaled(h, q, p, r);
    Assoc(q, 256, p);
    DivUnique(x, q, 256 * r + d, 256 * p);
    DivUnique(256 * r + d, r, d, 256);
  }

  // The k-th byte of x, one division at a time.
  function ByteAt(x: int, i: nat): int
    decreases i
  {
    if i == 0 then x % 256 else ByteAt(x / 256, i - 1)
  }

  lemma {:induction false} ByteIs(x: int, i: nat)
    ensures ByteAt(x, i) == ByteOf(x, i)
    decreases i
  {
    if i > 0 {
      ByteIs(x / 256, i - 1);
      DividedTwice(x, Pow256(i - 1));
    }
  }

  lemma {:induction false} DigitAt(x: int, n: nat, i: nat)
    requires i < n
    ensures Digits(x % Pow256(n), n)[i] == ByteAt(x, i)
    decreases n
  {
    DigitsOf(x, n);
    if i > 0 { DigitAt(x / 256, n - 1, i - 1); }
  }

  lemma DigitsOf(x: int, n: nat)
    requires n > 0
    ensures Digits(x % Pow256(n), n) == [x % 256] + Digits((x / 256) % Pow256(n - 1), n - 1)
  {
    var p := Pow256(n - 1);
    DividedTwice(x, p);
    MultipleMod(p, 256);
    ModMod(x, 256 * p, 256);
  }

  // The bytes of x in either order; of a negative number, those of its two's complement.
  lemma EncodedBytes(x: int, n: nat, e: Endian)
    ensures Encoded(x, n, e) == NumberBytes(x, n, e.LittleEndian?)
  {
    ReverseIndex(Digits(x % Pow256(n), n));
    forall i | 0 <= i < n ensures Encoded(x, n, e)[i] == NumberBytes(x, n, e.LittleEndian?)[i] {
      EncodedByte(x, n, e, i);
    }
  }

  lemma EncodedByte(x: int, n: nat, e: Endian, i: nat)
    requires i < n
    ensures Encoded(x, n, e)[i] == ByteOf(x, if e.LittleEndian? then i else n - 1 - i)
  {
    var k := if e.LittleEndian? then i else n - 1 - i;
    ReverseIndex(Digits(x % Pow256(n), n));
    DigitAt(x, n, k);
    ByteIs(x, k);
  }

  lemma LoadStore(e: Endian, x: int, n: nat)
    ensures Load(e, Store(e, x, n)) == Signed(x % Pow256(n), n)
  {
    var v := x % Pow256(n);
    DigitsValue(v, n);
    DivUnique(v, 0, v, Pow256(n));
    ReverseTwice(Digits(v, n));
  }

  lemma LoadSwapped(e: Endian, host: Endian, src: seq<Byte>)
    requires e != host
    ensures Load(host, Reverse(src)) == Load(e, src)
  {
    ReverseTwice(src);
  }

  // Writing in one byte order and reading back in the same one, on machines of any two
  // orders, gives the low bytes of x as a signed number.
  lemma EndianRoundTrip(host: Endian, x: int, n: nat, e: Endian)
    requires n == 1 || n == 2 || n == 4 || n == 8
    ensures EndianToInteger(host, Encoded(x, n, e), e) == Signed(x % Pow256(n), n)
  {
    var m := Encoded(x, n, e);
    LoadStore(e, x, n);
    if e != host { LoadSwapped(e, host, m); }
    if n == 1 { assert m[1..] == [] && Reverse(m) == m; }
  }
}
