/** The bytes of a packed value, kind by kind: its tag as a number and what follows it. */
module TableWire {
  import opened Bytes
  import opened EndianConv
  import T = TablePack

  type Value = T.Value

  // A tag and, least significant first on a little-endian machine, the number in 1, 2, 4 or 8 bytes.
  function IntWire(little: bool, n: int): seq<Byte> {
    if -128 <= n < 128 then [0] + NumberBytes(n, 1, little)
    else if -32768 <= n < 32768 then [1] + NumberBytes(n, 2, little)
    else if -2147483648 <= n < 2147483648 then [2] + NumberBytes(n, 4, little)
    else [3] + NumberBytes(n, 8, little)
  }

  function Wire(little: bool, v: Value): seq<Byte>
    decreases v, if v.Table? then |v.entries| + 1 else 0
  {
    match v
    case Int(n) => IntWire(little, n)
    case Double(bits) => [4] + bits
    case Str(bytes) => [5] + (NumberBytes(|bytes|, 8, little) + bytes)
    case Bool(b) => [6, if b then 1 else 0]
    case Table(entries) => [7] + (EntriesWire(little, v, |entries|) + [8])
    case Other => []
  }

  // The first n entries of a table, each a key and a value.
  function EntriesWire(little: bool, v: Value, n: nat): seq<Byte>
    requires v.Table? && n <= |v.entries|
    decreases v, n
  {
    if n == 0 then [] else EntriesWire(little, v, n - 1) + (Wire(little, v.entries[n - 1].key) + Wire(little, v.entries[n - 1].value))
  }

  lemma IntIsWire(host: Endian, n: int)
    ensures T.Packed(host, T.Int(n)) == IntWire(host.LittleEndian?, n)
  {
    EncodedBytes(n, T.Width(n), host);
  }

  // What is packed is what the kinds of value say.
  lemma {:induction false} PackedIsWire(host: Endian, v: Value)
    ensures T.Packed(host, v) == Wire(host.LittleEndian?, v)
    decreases v, if v.Table? then |v.entries| + 1 else 0
  {
    match v
    case Int(n) => IntIsWire(host, n);
    case Str(bytes) => EncodedBytes(|bytes|, 8, host);
    case Table(entries) =>
      EntriesAreWire(host, v, |entries|);
      assert EntriesWire(host.LittleEndian?, v, |entries|) + [] == EntriesWire(host.LittleEndian?, v, |entries|);
    case _ =>
  }

  lemma {:induction false} EntriesAreWire(host: Endian, v: Value, n: nat)
    requires v.Table? && n <= |v.entries|
    ensures T.PackedFrom(host, v, 0) == EntriesWire(host.LittleEndian?, v, n) + T.PackedFrom(host, v, n)
    decreases v, n
  {
    if n == 0 { NoEntries(host, v); }
    else {
      EntriesAreWire(host, v, n - 1);
      PackedIsWire(host, v.entries[n - 1].key);
      PackedIsWire(host, v.entries[n - 1].value);
      OneEntry(host, v, n);
    }
  }

  lemma NoEntries(host: Endian, v: Value)
    requires v.Table?
    ensures T.PackedFrom(host, v, 0) == EntriesWire(host.LittleEndian?, v, 0) + T.PackedFrom(host, v, 0)
  {
  }

  lemma OneEntry(host: Endian, v: Value, n: nat)
    requires v.Table? && 0 < n <= |v.entries|
    requires T.Packed(host, v.entries[n - 1].key) == Wire(host.LittleEndian?, v.entries[n - 1].key)
    requires T.Packed(host, v.entries[n - 1].value) == Wire(host.LittleEndian?, v.entries[n - 1].value)
    ensures EntriesWire(host.LittleEndian?, v, n - 1) + T.PackedFrom(host, v, n - 1) ==
      EntriesWire(host.LittleEndian?, v, n) + T.PackedFrom(host, v, n)
  {
    var e := v.entries[n - 1];
    Regrouped(EntriesWire(host.LittleEndian?, v, n - 1), T.Packed(host, e.key), T.Packed(host, e.value), T.PackedFrom(host, v, n));
  }

  lemma Regrouped(a: seq<Byte>, b: seq<Byte>, c: seq<Byte>, d: seq<Byte>)
    ensures a + (b + (c + d)) == (a + (b + c)) + d
  {
  }

  // ----- the depth

  // No function, userdata or thread anywhere in the value.
  predicate Plain(v: Value)
    decreases v
  {
    match v
    case Other => false
    case Table(entries) => forall i :: 0 <= i < |entries| ==> Plain(entries[i].key) && Plain(entries[i].value)
    case _ => true
  }

  // No table of the value is nested more than n deep.
  predicate Within(v: Value, n: int)
    decreases v
  {
    v.Table? ==> n > 0 && forall i :: 0 <= i < |v.entries| ==> Within(v.entries[i].key, n - 1) && Within(v.entries[i].value, n - 1)
  }

  // What can be packed: plain values with tables nested no more than 256 deep.
  lemma {:induction false} PackableIsPlain(v: Value, depth: nat)
    ensures T.Packable(v, depth) <==> Plain(v) && Within(v, 256 - depth)
    decreases v
  {
    if v.Table? {
      forall i | 0 <= i < |v.entries|
        ensures T.Packable(v.entries[i].key, depth + 1) <==> Plain(v.entries[i].key) && Within(v.entries[i].key, 255 - depth)
        ensures T.Packable(v.entries[i].value, depth + 1) <==> Plain(v.entries[i].value) && Within(v.entries[i].value, 255 - depth)
      {
        PackableIsPlain(v.entries[i].key, depth + 1);
        PackableIsPlain(v.entries[i].value, depth + 1);
      }
    }
  }

  // Packing a value appends its bytes, or refuses what is not plain or too deep.
  method Pack(p: T.TPack, v: Value) returns (ok: bool)
    modifies p
    ensures ok <==> Plain(v) && Within(v, 256)
    ensures ok ==> p.data == old(p.data) + Wire(p.host.LittleEndian?, v)
  {
    PackableIsPlain(v, 0);
    PackedIsWire(p.host, v);
    var st := p.PackLuaData(v, 0);
    ok := st.Ok?;
  }
}
