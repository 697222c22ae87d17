/**
 Packing Lua tables into bytes and unpacking them.  Numbers are written as the machine
 stores them; every value begins with a type tag and a table ends with one, which no key
 begins with.
 */
module TablePack {
  import opened Arith
  import opened EndianConv
  import opened Bytes

  const MAX_DEPTH := 256

  const TYPE_INT8 := 0
  const TYPE_INT16 := 1
  const TYPE_INT32 := 2
  const TYPE_INT64 := 3
  const TYPE_DOUBLE := 4
  const TYPE_STRING := 5
  const TYPE_BOOL := 6
  const TYPE_TABLE_BEG := 7
  const TYPE_TABLE_END := 8

  // A double is the eight bytes it is stored in.  A table is the list of its entries in the
  // order lua_next meets them.
  datatype Value =
    | Int(n: int)
    | Double(bits: seq<Byte>)
    | Str(bytes: seq<Byte>)
    | Bool(b: bool)
    | Table(entries: seq<Entry>)
    | Other                          // functions, userdata and threads cannot be packed

  datatype Entry = Entry(key: Value, value: Value)

  // The least number of bytes for an integer, and its tag.
  function Width(n: int): (w: nat)
    ensures w in {1, 2, 4, 8}
  {
    if -128 <= n <= 127 then 1 else if -32768 <= n <= 32767 then 2 else if -0x8000_0000 <= n <= 0x7fff_ffff then 4 else 8
  }

  function IntTag(w: nat): Byte { if w == 1 then TYPE_INT8 else if w == 2 then TYPE_INT16 else if w == 4 then TYPE_INT32 else TYPE_INT64 }

  function Packed(host: Endian, v: Value): (s: seq<Byte>)
    ensures !v.Other? ==> |s| > 0
    decreases v, if v.Table? then |v.entries| + 1 else 0
  {
    match v
    case Int(n) => [IntTag(Width(n))] + Store(host, n, Width(n))
    case Double(bits) => [TYPE_DOUBLE as Byte] + bits
    case Str(bytes) => [TYPE_STRING as Byte] + (Store(host, |bytes|, 8) + bytes)
    case Bool(b) => [TYPE_BOOL as Byte, if b then 1 else 0]
    case Table(_) => [TYPE_TABLE_BEG as Byte] + (PackedFrom(host, v, 0) + [TYPE_TABLE_END as Byte])
    case Other => []
  }

  // The entries of a table from the i-th on.
  function PackedFrom(host: Endian, v: Value, i: nat): seq<Byte>
    requires v.Table? && i <= |v.entries|
    decreases v, |v.entries| - i
  {
    if i == |v.entries| then []
    else Packed(host, v.entries[i].key) + (Packed(host, v.entries[i].value) + PackedFrom(host, v, i + 1))
  }

  // The values pack_lua_data accepts at a nesting depth.
  predicate Packable(v: Value, depth: nat)
    decreases v
  {
    match v
    case Other => false
    case Table(entries) => depth < MAX_DEPTH && forall i :: 0 <= i < |entries| ==>
      Packable(entries[i].key, depth + 1) && Packable(entries[i].value, depth + 1)
    case _ => true
  }

  datatype Status = Ok | TooDeep | BadType

  class TPack {
    const host: Endian
    var data: seq<Byte>

    constructor (host: Endian)
      ensures data == [] && this.host == host
    {
      this.host, data := host, [];
    }

    method PackInteger(n: int)
      modifies this
      ensures data == old(data) + Packed(host, Int(n))
    {
      data := data + [IntTag(Width(n))];
      data := data + Store(host, n, Width(n));
    }

    method PackDouble(bits: seq<Byte>)
      modifies this
      ensures data == old(data) + Packed(host, Double(bits))
    {
      data := data + [TYPE_DOUBLE as Byte];
      data := data + bits;
    }

    method PackBoolean(b: bool)
      modifies this
      ensures data == old(data) + Packed(host, Bool(b))
    {
      data := data + [TYPE_BOOL as Byte];
      data := data + [if b then 1 else 0];
    }

    method PackString(bytes: seq<Byte>)
      modifies this
      ensures data == old(data) + Packed(host, Str(bytes))
    {
      data := data + [TYPE_STRING as Byte];
      data := data + Store(host, |bytes|, 8);
      data := data + bytes;
    }

    method PackLuaData(v: Value, depth: nat) returns (st: Status)
      modifies this
      ensures st.Ok? <==> Packable(v, depth)
      ensures st.Ok? ==> data == old(data) + Packed(host, v)
      decreases v, 2
    {
      st := Ok;
      match v
      case Int(n) => PackInteger(n);
      case Double(bits) => PackDouble(bits);
      case Str(bytes) => PackString(bytes);
      case Bool(b) => PackBoolean(b);
      case Table(_) => st := PackTable(v, depth + 1);
      case Other => st := BadType;
    }

    method PackTable(v: Value, depth: nat) returns (st: Status)
      requires v.Table? && depth > 0
      modifies this
      ensures st.Ok? <==> Packable(v, depth - 1)
      ensures st.Ok? ==> data == old(data) + Packed(host, v)
      decreases v, 1
    {
      if depth > MAX_DEPTH { return TooDeep; }
      data := data + [TYPE_TABLE_BEG as Byte];
      ghost var start := data;
      for i := 0 to |v.entries|
        invariant forall j :: 0 <= j < i ==> Packable(v.entries[j].key, depth) && Packable(v.entries[j].value, depth)
        invariant data + PackedFrom(host, v, i) == start + PackedFrom(host, v, 0)
      {
        st := PackEntry(v.entries[i], depth);
        if !st.Ok? { return st; }
      }
      ghost var body := PackedFrom(host, v, 0);
      assert data == start + body by { assert data + [] == data; }
      data := data + [TYPE_TABLE_END as Byte];
      assert data == old(data) + ([TYPE_TABLE_BEG as Byte] + (body + [TYPE_TABLE_END as Byte]));
      return Ok;
    }

    method PackEntry(e: Entry, depth: nat) returns (st: Status)
      modifies this
      ensures st.Ok? <==> Packable(e.key, depth) && Packable(e.value, depth)
      ensures st.Ok? ==> forall rest :: data + rest == old(data) + (Packed(host, e.key) + (Packed(host, e.value) + rest))
      decreases e, 3
    {
      st := PackLuaData(e.key, depth);
      if !st.Ok? { return st; }
      st := PackLuaData(e.value, depth);
    }
  }

  // ----- unpacking

  // What one call of unpack_lua_data did: the tag it returns, and the value it pushed, if any.
  datatype Unpacked = Fail | Nothing(tag: int, rpos: nat) | Item(tag: int, value: Value, rpos: nat)

  // lua_rawset
  function RawSet(es: seq<Entry>, k: Value, v: Value): (r: seq<Entry>) {
    if es == [] then [Entry(k, v)]
    else if es[0].key == k then [Entry(k, v)] + es[1..]
    else [es[0]] + RawSet(es[1..], k, v)
  }

  // A reading past the end of the data is stopped by sdsread's assertion.
  function Unpack(host: Endian, s: seq<Byte>, rpos: nat): (r: Unpacked)
    ensures !r.Fail? ==> rpos < r.rpos <= |s|
    ensures r.Item? ==> r.tag != TYPE_TABLE_END
    decreases |s| - rpos, 0
  {
    if rpos >= |s| then Fail else
    var tag, p := s[rpos], rpos + 1;
    if tag <= TYPE_INT64 then
      var w := if tag == TYPE_INT8 then 1 else if tag == TYPE_INT16 then 2 else if tag == TYPE_INT32 then 4 else 8;
      if p + w > |s| then Fail else Item(tag, Int(Load(host, s[p..p + w])), p + w)
    else if tag == TYPE_DOUBLE then
      if p + 8 > |s| then Fail else Item(tag, Double(s[p..p + 8]), p + 8)
    else if tag == TYPE_STRING then
      if p + 8 > |s| then Fail else
      var len := Load(host, s[p..p + 8]) % Pow256(8);
      if p + 8 + len > |s| then Fail else Item(tag, Str(s[p + 8..p + 8 + len]), p + 8 + len)
    else if tag == TYPE_BOOL then
      if p + 1 > |s| then Fail else Item(tag, Bool(s[p] != 0), p + 1)
    else if tag == TYPE_TABLE_BEG then UnpackEntries(host, s, p, [])
    else Nothing(tag, p)
  }

  // The loop over a table's entries.
  function UnpackEntries(host: Endian, s: seq<Byte>, rpos: nat, es: seq<Entry>): (r: Unpacked)
    ensures !r.Fail? ==> r.Item? && r.tag == TYPE_TABLE_BEG && rpos < r.rpos <= |s|
    decreases |s| - rpos, 1
  {
    var k := Unpack(host, s, rpos);
    if k.Fail? then Fail
    else if k.Nothing? then if k.tag == TYPE_TABLE_END then Item(TYPE_TABLE_BEG, Table(es), k.rpos) else Fail
    else
      var v := Unpack(host, s, k.rpos);
      if !v.Item? then Fail else UnpackEntries(host, s, v.rpos, RawSet(es, k.value, v.value))
  }

  method UnpackLuaData(host: Endian, s: seq<Byte>, rpos0: nat) returns (r: Unpacked)
    ensures r == Unpack(host, s, rpos0)
    decreases |s| - rpos0
  {
    var rpos := rpos0;
    if rpos >= |s| { return Fail; }
    var tag := s[rpos];
    rpos := rpos + 1;
    if tag <= TYPE_INT64 {
      var w := if tag == TYPE_INT8 then 1 else if tag == TYPE_INT16 then 2 else if tag == TYPE_INT32 then 4 else 8;
      if rpos + w > |s| { return Fail; }
      return Item(tag, Int(Load(host, s[rpos..rpos + w])), rpos + w);
    } else if tag == TYPE_DOUBLE {
      if rpos + 8 > |s| { return Fail; }
      return Item(tag, Double(s[rpos..rpos + 8]), rpos + 8);
    } else if tag == TYPE_STRING {
      if rpos + 8 > |s| { return Fail; }
      var len := Load(host, s[rpos..rpos + 8]) % Pow256(8);
      rpos := rpos + 8;
      if rpos + len > |s| { return Fail; }
      return Item(tag, Str(s[rpos..rpos + len]), rpos + len);
    } else if tag == TYPE_BOOL {
      if rpos + 1 > |s| { return Fail; }
      return Item(tag, Bool(s[rpos] != 0), rpos + 1);
    } else if tag == TYPE_TABLE_BEG {
      var es: seq<Entry> := [];
      while true
        invariant rpos0 < rpos <= |s| && UnpackEntries(host, s, rpos, es) == Unpack(host, s, rpos0)
        decreases |s| - rpos
      {
        var k := UnpackLuaData(host, s, rpos);
        if k.Fail? { return Fail; }
        if k.tag == TYPE_TABLE_END { return Item(tag, Table(es), k.rpos); }
        if k.Nothing? { return Fail; }
        var v := UnpackLuaData(host, s, k.rpos);
        if !v.Item? { return Fail; }
        es := RawSet(es, k.value, v.value);
        rpos := v.rpos;
      }
    }
    return Nothing(tag, rpos);
  }

  // ----- round trip

  predicate InRange(n: int, w: nat) { -2 * n <= Pow256(w) && 2 * n < Pow256(w) }

  // A value as it can be in a table: its integers and lengths fit their fields, and the keys
  // of a table are distinct scalars.
  predicate Proper(v: Value)
    decreases v
  {
    match v
    case Int(n) => InRange(n, 8)
    case Double(bits) => |bits| == 8
    case Str(bytes) => |bytes| < Pow256(8)
    case Bool(_) => true
    case Table(es) =>
      (forall i :: 0 <= i < |es| ==> Proper(es[i].key) && Proper(es[i].value) && !es[i].key.Table?)
      && (forall i, j :: 0 <= i < j < |es| ==> es[i].key != es[j].key)
    case Other => false
  }

  lemma SignedFits(n: int, w: nat)
    requires InRange(n, w)
    ensures Signed(n % Pow256(w), w) == n
  {
    if n >= 0 { DivUnique(n, 0, n, Pow256(w)); } else { DivUnique(n, -1, n + Pow256(w), Pow256(w)); }
  }

  lemma LoadsLength(host: Endian, n: nat)
    requires n < Pow256(8)
    ensures Load(host, Store(host, n, 8)) % Pow256(8) == n
  {
    LoadStore(host, n, 8);
    DivUnique(n, 0, n, Pow256(8));
    if 2 * n >= Pow256(8) { DivUnique(n - Pow256(8), -1, n, Pow256(8)); }
  }

  function TagOf(v: Value): int {
    match v
    case Int(n) => IntTag(Width(n))
    case Double(_) => TYPE_DOUBLE
    case Str(_) => TYPE_STRING
    case Bool(_) => TYPE_BOOL
    case Table(_) => TYPE_TABLE_BEG
    case Other => -1
  }

  lemma UnpacksInt(host: Endian, s: seq<Byte>, i: nat, n: int)
    requires InRange(n, 8) && Occurs(s, i, Packed(host, Int(n)))
    ensures Unpack(host, s, i) == Item(IntTag(Width(n)), Int(n), i + 1 + Width(n))
  {
    var w := Width(n);
    OccursAt(s, i, Packed(host, Int(n)), 0);
    OccursSum(s, i, [IntTag(w)], Store(host, n, w));
    LoadStore(host, n, w);
    SignedFits(n, w);
    assert s[i + 1..i + 1 + w] == Store(host, n, w);
  }

  lemma UnpacksDouble(host: Endian, s: seq<Byte>, i: nat, bits: seq<Byte>)
    requires |bits| == 8 && Occurs(s, i, Packed(host, Double(bits)))
    ensures Unpack(host, s, i) == Item(TYPE_DOUBLE, Double(bits), i + 9)
  {
    OccursAt(s, i, Packed(host, Double(bits)), 0);
    OccursSum(s, i, [TYPE_DOUBLE as Byte], bits);
  }

  lemma UnpacksString(host: Endian, s: seq<Byte>, i: nat, bytes: seq<Byte>)
    requires |bytes| < Pow256(8) && Occurs(s, i, Packed(host, Str(bytes)))
    ensures Unpack(host, s, i) == Item(TYPE_STRING, Str(bytes), i + 9 + |bytes|)
  {
    StringLies(host, s, i, bytes);
    LoadsLength(host, |bytes|);
  }

  // Where the parts of a packed string lie.
  lemma StringLies(host: Endian, s: seq<Byte>, i: nat, bytes: seq<Byte>)
    requires Occurs(s, i, Packed(host, Str(bytes)))
    ensures i + 9 + |bytes| <= |s| && s[i] == TYPE_STRING
    ensures s[i + 1..i + 9] == Store(host, |bytes|, 8) && s[i + 9..i + 9 + |bytes|] == bytes
  {
    var len := Store(host, |bytes|, 8);
    OccursAt(s, i, Packed(host, Str(bytes)), 0);
    OccursSum(s, i, [TYPE_STRING as Byte], len + bytes);
    OccursSum(s, i + 1, len, bytes);
  }

  lemma UnpacksScalar(host: Endian, s: seq<Byte>, i: nat, v: Value)
    requires Proper(v) && !v.Table? && Occurs(s, i, Packed(host, v))
    ensures Unpack(host, s, i) == Item(TagOf(v), v, i + |Packed(host, v)|)
  {
    match v
    case Int(n) => UnpacksInt(host, s, i, n);
    case Double(bits) => UnpacksDouble(host, s, i, bits);
    case Str(bytes) => UnpacksString(host, s, i, bytes);
    case Bool(b) =>
      OccursAt(s, i, Packed(host, v), 0);
      OccursAt(s, i, Packed(host, v), 1);
  }

  lemma {:induction false} RawSetNew(es: seq<Entry>, k: Value, v: Value)
    requires forall i :: 0 <= i < |es| ==> es[i].key != k
    ensures RawSet(es, k, v) == es + [Entry(k, v)]
  {
    if es != [] {
      RawSetNew(es[1..], k, v);
      assert [es[0]] + (es[1..] + [Entry(k, v)]) == es + [Entry(k, v)];
    }
  }

  lemma {:induction false} Unpacks(host: Endian, s: seq<Byte>, i: nat, v: Value)
    requires Proper(v) && Occurs(s, i, Packed(host, v))
    ensures Unpack(host, s, i) == Item(TagOf(v), v, i + |Packed(host, v)|)
    decreases v, if v.Table? then |v.entries| + 2 else 0
  {
    if v.Table? {
      var rest := PackedFrom(host, v, 0) + [TYPE_TABLE_END as Byte];
      OccursAt(s, i, Packed(host, v), 0);
      OccursSum(s, i, [TYPE_TABLE_BEG as Byte], rest);
      UnpacksFrom(host, s, i + 1, v, 0);
    } else {
      UnpacksScalar(host, s, i, v);
    }
  }

  lemma {:induction false} UnpacksFrom(host: Endian, s: seq<Byte>, p: nat, v: Value, k: nat)
    requires v.Table? && Proper(v) && k <= |v.entries|
    requires Occurs(s, p, PackedFrom(host, v, k) + [TYPE_TABLE_END as Byte])
    ensures UnpackEntries(host, s, p, v.entries[..k]) == Item(TYPE_TABLE_BEG, v, p + |PackedFrom(host, v, k)| + 1)
    decreases v, |v.entries| - k + 1
  {
    assert PackedFrom(host, v, |v.entries|) + [TYPE_TABLE_END as Byte] == [TYPE_TABLE_END as Byte];
    if k == |v.entries| {
      TableEnds(host, s, p, v);
    } else {
      var p2 := UnpacksEntry(host, s, p, v, k);
      UnpacksFrom(host, s, p2, v, k + 1);
    }
  }

  lemma {:induction false} UnpacksEntry(host: Endian, s: seq<Byte>, p: nat, v: Value, k: nat) returns (p2: nat)
    requires v.Table? && Proper(v) && k < |v.entries|
    requires Occurs(s, p, PackedFrom(host, v, k) + [TYPE_TABLE_END as Byte])
    ensures Occurs(s, p2, PackedFrom(host, v, k + 1) + [TYPE_TABLE_END as Byte])
    ensures p + |PackedFrom(host, v, k)| == p2 + |PackedFrom(host, v, k + 1)|
    ensures UnpackEntries(host, s, p, v.entries[..k]) == UnpackEntries(host, s, p2, v.entries[..k + 1])
    decreases v, 0
  {
    var p1;
    p1, p2 := EntryParts(host, s, p, v, k);
    Unpacks(host, s, p, v.entries[k].key);
    Unpacks(host, s, p1, v.entries[k].value);
    UnpackStep(host, s, p, v, k, p1, p2);
  }

  lemma TableEnds(host: Endian, s: seq<Byte>, p: nat, v: Value)
    requires v.Table? && Occurs(s, p, [TYPE_TABLE_END as Byte])
    ensures UnpackEntries(host, s, p, v.entries[..|v.entries|]) == Item(TYPE_TABLE_BEG, v, p + 1)
  {
    OccursAt(s, p, [TYPE_TABLE_END as Byte], 0);
    assert v.entries[..|v.entries|] == v.entries;
  }

  // Where the parts of an entry lie.
  lemma EntryParts(host: Endian, s: seq<Byte>, p: nat, v: Value, k: nat) returns (p1: nat, p2: nat)
    requires v.Table? && k < |v.entries| && Occurs(s, p, PackedFrom(host, v, k) + [TYPE_TABLE_END as Byte])
    ensures p1 == p + |Packed(host, v.entries[k].key)| && p2 == p1 + |Packed(host, v.entries[k].value)|
    ensures Occurs(s, p, Packed(host, v.entries[k].key)) && Occurs(s, p1, Packed(host, v.entries[k].value))
    ensures Occurs(s, p2, PackedFrom(host, v, k + 1) + [TYPE_TABLE_END as Byte])
    ensures p + |PackedFrom(host, v, k)| == p2 + |PackedFrom(host, v, k + 1)|
  {
    var key, value, rest := Packed(host, v.entries[k].key), Packed(host, v.entries[k].value), PackedFrom(host, v, k + 1);
    var end := [TYPE_TABLE_END as Byte];
    p1, p2 := p + |key|, p + |key| + |value|;
    Regroup(key, value, rest, end);
    OccursSum(s, p, key, value + (rest + end));
    OccursSum(s, p1, value, rest + end);
  }

  lemma Regroup(a: seq<Byte>, b: seq<Byte>, c: seq<Byte>, d: seq<Byte>)
    ensures (a + (b + c)) + d == a + (b + (c + d))
  {
  }

  lemma UnpackStep(host: Endian, s: seq<Byte>, p: nat, v: Value, k: nat, p1: nat, p2: nat)
    requires v.Table? && Proper(v) && k < |v.entries|
    requires var e := v.entries[k];
      Unpack(host, s, p) == Item(TagOf(e.key), e.key, p1) && Unpack(host, s, p1) == Item(TagOf(e.value), e.value, p2)
    ensures UnpackEntries(host, s, p, v.entries[..k]) == UnpackEntries(host, s, p2, v.entries[..k + 1])
  {
    var e := v.entries[k];
    RawSetNew(v.entries[..k], e.key, e.value);
    assert v.entries[..k] + [Entry(e.key, e.value)] == v.entries[..k + 1];
  }

  // Whatever bytes follow, unpacking gives the value back and consumes exactly its own.
  lemma PackRoundTrip(host: Endian, v: Value, rest: seq<Byte>)
    requires Proper(v)
    ensures Unpack(host, Packed(host, v) + rest, 0) == Item(TagOf(v), v, |Packed(host, v)|)
  {
    var s := Packed(host, v) + rest;
    assert s[0..0 + |Packed(host, v)|] == Packed(host, v);
    Unpacks(host, s, 0, v);
  }
}
