/**
 buffer.pack, buffer.unpack and buffer.packsize: values to bytes and back by a format string
 (section 6.4.2 of the Lua 5.3 Reference Manual).  `native` is the machine's byte order.
 */
module BufferPack {
  import opened Basics
  import opened EndianConv
  import opened Bytes
  import opened IntPack

  const MAXINTSIZE := 16
  const MAXALIGN := 8
  const MAXSIZE := 0x7fff_ffff
  const SIZE_SHORT := 2
  const SIZE_INT := 4
  const SIZE_LONG := 8
  const SIZE_T := 8
  const SIZE_FLOAT := 4
  const SIZE_DOUBLE := 8

  type Format = string

  // The format is a C string.
  predicate End(fmt: Format) { fmt == [] || fmt[0] == '\0' }

  datatype KOption = Kint | Kuint | Kfloat | Kchar | Kstring | Kzstr | Kpadding | Kpaddalign | Knop {
    predicate TakesValue() { !Kpadding? && !Kpaddalign? && !Knop? }
  }

  datatype Header = Header(order: Endian, maxalign: nat)

  function InitHeader(native: Endian): Header { Header(native, 1) }

  // ----- reading the format

  predicate Digit(c: char) { '0' <= c <= '9' }

  // The numeral at the start of fmt; it stops where another digit might overflow an int.
  function Digits10(fmt: Format, a: nat): (nat, Format)
    decreases |fmt|
  {
    if fmt != [] && Digit(fmt[0]) && a <= (MAXSIZE - 9) / 10
    then Digits10(fmt[1..], a * 10 + (fmt[0] as int - '0' as int))
    else (a, fmt)
  }

  lemma {:induction false} Digits10Shrinks(fmt: Format, a: nat)
    ensures |Digits10(fmt, a).1| <= |fmt|
    decreases |fmt|
  {
    if fmt != [] && Digit(fmt[0]) && a <= (MAXSIZE - 9) / 10 {
      Digits10Shrinks(fmt[1..], a * 10 + (fmt[0] as int - '0' as int));
    }
  }

  datatype Number = NoNumber | Num(n: nat, rest: Format)

  function GetNum(fmt: Format): (r: Number)
    ensures r.Num? ==> |r.rest| <= |fmt|
  {
    if fmt == [] || !Digit(fmt[0]) then NoNumber
    else
      var (n, rest) := Digits10(fmt, 0);
      Digits10Shrinks(fmt, 0);
      Num(n, rest)
  }

  datatype Got = BadOption | Got(opt: KOption, size: nat, h: Header, rest: Format)

  function GetNumLimit(opt: KOption, h: Header, fmt: Format, df: nat): (r: Got)
    requires 1 <= df <= MAXINTSIZE
    ensures r.Got? ==> r.opt == opt && r.h == h && 1 <= r.size <= MAXINTSIZE && |r.rest| <= |fmt|
  {
    match GetNum(fmt)
    case NoNumber => Got(opt, df, h, fmt)
    case Num(n, rest) => if n > MAXINTSIZE || n == 0 then BadOption else Got(opt, n, h, rest)
  }

  // An integer option has 1 to 16 bytes, a string option a length of as many.
  predicate SizeOk(opt: KOption, size: nat) {
    match opt
    case Kint => 1 <= size <= MAXINTSIZE
    case Kuint => 1 <= size <= MAXINTSIZE
    case Kstring => 1 <= size <= MAXINTSIZE
    case Kfloat => size == SIZE_FLOAT || size == SIZE_DOUBLE
    case Kchar => true
    case Kpadding => size == 1
    case _ => size == 0
  }

  // getoption; only the last four cases change the header.
  function GetOption(native: Endian, h: Header, fmt: Format): (r: Got)
    requires !End(fmt)
    ensures r.Got? ==> |r.rest| < |fmt| && SizeOk(r.opt, r.size)
  {
    var f := fmt[1..];
    match fmt[0]
    case 'b' => Got(Kint, 1, h, f)
    case 'B' => Got(Kuint, 1, h, f)
    case 'h' => Got(Kint, SIZE_SHORT, h, f)
    case 'H' => Got(Kuint, SIZE_SHORT, h, f)
    case 'l' => Got(Kint, SIZE_LONG, h, f)
    case 'L' => Got(Kuint, SIZE_LONG, h, f)
    case 'j' => Got(Kint, SZINT, h, f)
    case 'J' => Got(Kuint, SZINT, h, f)
    case 'T' => Got(Kuint, SIZE_T, h, f)
    case 'f' => Got(Kfloat, SIZE_FLOAT, h, f)
    case 'd' => Got(Kfloat, SIZE_DOUBLE, h, f)
    case 'n' => Got(Kfloat, SIZE_DOUBLE, h, f)
    case 'i' => GetNumLimit(Kint, h, f, SIZE_INT)
    case 'I' => GetNumLimit(Kuint, h, f, SIZE_INT)
    case 's' => GetNumLimit(Kstring, h, f, SIZE_T)
    case 'c' => (match GetNum(f) case NoNumber => BadOption case Num(n, rest) => Got(Kchar, n, h, rest))
    case 'z' => Got(Kzstr, 0, h, f)
    case 'x' => Got(Kpadding, 1, h, f)
    case 'X' => Got(Kpaddalign, 0, h, f)
    case ' ' => Got(Knop, 0, h, f)
    case '<' => Got(Knop, 0, h.(order := LittleEndian), f)
    case '>' => Got(Knop, 0, h.(order := BigEndian), f)
    case '=' => Got(Knop, 0, h.(order := native), f)
    case '!' =>
      (match GetNumLimit(Knop, h, f, MAXALIGN)
       case BadOption => BadOption
       case Got(_, n, _, rest) => Got(Knop, 0, h.(maxalign := n), rest))
    case _ => BadOption
  }

  datatype Details = BadFormat | Details(opt: KOption, size: nat, pad: nat, h: Header, rest: Format)

  predicate PowerOf2(n: nat) { n in {1, 2, 4, 8, 16} }

  // The padding before an item that is to be aligned: none for an alignment up to 1.
  function Padding(align: nat, maxalign: nat, totalsize: nat): (r: int)
    ensures r < 16
  {
    if align <= 1 then 0
    else
      var a := if align > maxalign then maxalign else align;
      if PowerOf2(a) then (a - totalsize % a) % a else -1
  }

  // getdetails; 'X' takes its alignment from the option that follows it.
  function GetDetails(native: Endian, h: Header, totalsize: nat, fmt: Format): (r: Details)
    requires !End(fmt)
    ensures r.Details? ==> |r.rest| < |fmt| && SizeOk(r.opt, r.size)
  {
    match GetOption(native, h, fmt)
    case BadOption => BadFormat
    case Got(opt, size, h', rest) =>
      if opt.Kpaddalign? then
        if End(rest) then BadFormat else
        match GetOption(native, h', rest)
        case BadOption => BadFormat
        case Got(next, align, h'', rest') =>
          if next.Kchar? || align == 0 then BadFormat else Aligned(opt, size, align, h'', totalsize, rest')
      else Aligned(opt, size, if opt.Kchar? then 0 else size, h', totalsize, rest)
  }

  function Aligned(opt: KOption, size: nat, align: nat, h: Header, totalsize: nat, rest: Format): (r: Details)
    ensures r.Details? ==> r.rest == rest && r.opt == opt && r.size == size
  {
    var pad := Padding(align, h.maxalign, totalsize);
    if pad < 0 then BadFormat else Details(opt, size, pad, h, rest)
  }

  // What the loops below need to know of the format: each option uses some of it up.
  type Parser = p: (Header, nat, Format) -> Details | UsesUp(p) witness (_, _, _) => BadFormat

  ghost predicate UsesUp(p: (Header, nat, Format) -> Details) {
    forall h: Header, n: nat, fmt: Format :: DetailsOk(p(h, n, fmt), fmt)
  }

  predicate DetailsOk(d: Details, fmt: Format) { d.Details? ==> |d.rest| < |fmt| && SizeOk(d.opt, d.size) }

  function FormatParser(native: Endian): Parser {
    (h: Header, totalsize: nat, fmt: Format) => if End(fmt) then BadFormat else GetDetails(native, h, totalsize, fmt)
  }

  // ----- one value

  datatype Arg = Integer(n: int) | Real(bits: nat) | Str(s: seq<Byte>)

  // How the machine stores a number as a float of some size.
  datatype Floats = Floats(store: (nat, nat) -> seq<Byte>, load: (nat, seq<Byte>) -> nat)

  ghost predicate FloatsOk(fl: Floats) { forall size: nat, x: nat :: |fl.store(size, x)| == size }

  // The bytes of a value, least significant first where the order matters; None where
  // buffer.pack raises an error.
  function PackOne(fl: Floats, native: Endian, order: Endian, opt: KOption, size: nat, arg: Arg): Option<seq<Byte>>
    requires opt.TakesValue()
  {
    match opt
    case Kint => if arg.Integer? && Fits(arg.n, size, true) then Some(IntBytes(arg.n, size, true, order)) else None
    case Kuint => if arg.Integer? && Fits(arg.n, size, false) then Some(IntBytes(arg.n, size, false, order)) else None
    case Kfloat =>
      if arg.Real? then Some(if order == native then fl.store(size, arg.bits) else Reverse(fl.store(size, arg.bits))) else None
    case Kchar => if arg.Str? then Some(Cut(arg.s, size)) else None
    case Kstring =>
      if arg.Str? && IsInteger(|arg.s|) && (size >= SIZE_T || |arg.s| < Pow256(size))
      then Some(IntBytes(|arg.s|, size, false, order) + arg.s) else None
    case Kzstr => if arg.Str? && 0 !in arg.s then Some(arg.s + [0]) else None
  }

  // A string cut or padded to a size.
  function Cut(s: seq<Byte>, size: nat): (r: seq<Byte>)
    ensures |r| == size && (|s| == size ==> r == s)
  {
    if size <= |s| then s[..size] else s + Repeat(0, size - |s|)
  }

  // What a packed value reads back as: itself, but for strings cut to a fixed size and
  // numbers rounded to a float.
  function Back(fl: Floats, opt: KOption, size: nat, arg: Arg): Arg {
    match arg
    case Integer(_) => arg
    case Real(bits) => Real(fl.load(size, fl.store(size, bits)))
    case Str(s) => if opt.Kchar? then Str(Cut(s, size)) else arg
  }

  datatype Read = Short | Read(arg: Arg, used: nat)

  // One value read at a position, with the bytes it takes; Short where buffer.unpack raises an error.
  function UnpackOne(fl: Floats, native: Endian, order: Endian, opt: KOption, size: nat, data: seq<Byte>, pos: nat): (r: Read)
    requires opt.TakesValue() && pos + size <= |data| && SizeOk(opt, size)
  {
    var item := data[pos..pos + size];
    match opt
    case Kint => (match IntOf(item, true, order) case None => Short case Some(n) => Read(Integer(n), size))
    case Kuint => (match IntOf(item, false, order) case None => Short case Some(n) => Read(Integer(n), size))
    case Kfloat => Read(Real(fl.load(size, if order == native then item else Reverse(item))), size)
    case Kchar => Read(Str(item), size)
    case Kstring =>
      (match IntOf(item, false, order)
       case None => Short
       case Some(n) =>
         var len := n % WORD64;
         if pos + len + size <= |data| then Read(Str(data[pos + size..pos + size + len]), size + len) else Short)
    case Kzstr =>
      var k := FindZero(data, pos);
      if k < |data| then Read(Str(data[pos..k]), k - pos + 1) else Short
  }

  // strlen
  function FindZero(data: seq<Byte>, pos: nat): (k: nat)
    ensures pos <= |data| ==> pos <= k <= |data| && 0 !in data[pos..k] && (k < |data| ==> data[k] == 0)
    decreases |data| - pos
  {
    if pos >= |data| then pos
    else if data[pos] == 0 then pos
    else
      var k := FindZero(data, pos + 1);
      assert data[pos..k] == [data[pos]] + data[pos + 1..k];
      k
  }

  // How a format is read, and one value written and read.
  datatype Codec = Codec(
    parse: Parser,
    put: (Endian, KOption, nat, Arg) -> Option<seq<Byte>>,
    get: (Endian, KOption, nat, seq<Byte>, nat) -> Read,
    back: (KOption, nat, Arg) -> Arg)

  function LuaCodec(fl: Floats, native: Endian): Codec {
    Codec(
      FormatParser(native),
      (order: Endian, opt: KOption, size: nat, arg: Arg) =>
        if opt.TakesValue() then PackOne(fl, native, order, opt, size, arg) else None,
      (order: Endian, opt: KOption, size: nat, data: seq<Byte>, pos: nat) =>
        if opt.TakesValue() && pos + size <= |data| && SizeOk(opt, size) then UnpackOne(fl, native, order, opt, size, data, pos) else Short,
      (opt: KOption, size: nat, arg: Arg) => Back(fl, opt, size, arg))
  }

  // A value written is read back where it was written.
  predicate ReadsBack(c: Codec, order: Endian, opt: KOption, size: nat, arg: Arg, data: seq<Byte>, pos: nat) {
    opt.TakesValue() && SizeOk(opt, size) && c.put(order, opt, size, arg).Some? && Occurs(data, pos, c.put(order, opt, size, arg).value) ==>
      var s := c.put(order, opt, size, arg).value;
      size <= |s| && pos + size <= |data| && c.get(order, opt, size, data, pos) == Read(c.back(opt, size, arg), |s|)
  }

  ghost predicate Lawful(c: Codec) {
    forall order: Endian, opt: KOption, size: nat, arg: Arg, data: seq<Byte>, pos: nat :: ReadsBack(c, order, opt, size, arg, data, pos)
  }

  // ----- the loops over the format

  // A value option of a format.
  datatype Slot = Slot(opt: KOption, size: nat)

  // `slots`: the value options met, in order, one for each argument packed.
  datatype Packed = PackError | Packed(bytes: seq<Byte>, slots: seq<Slot>)

  // One turn of packing: the bytes appended, for an option with or without a value.
  datatype Turn = Bad | Skip(mine: seq<Byte>, h: Header, rest: Format) | Take(slot: Slot, mine: seq<Byte>, h: Header, rest: Format)

  function TurnAt(c: Codec, h: Header, totalsize: nat, fmt: Format, args: seq<Arg>): (r: Turn)
    ensures !r.Bad? ==> |r.rest| < |fmt|
    ensures r.Take? ==> args != []
  {
    match c.parse(h, totalsize, fmt)
    case BadFormat => Bad
    case Details(opt, size, pad, h', rest) =>
      assert DetailsOk(c.parse(h, totalsize, fmt), fmt);
      if !opt.TakesValue() then Skip(Repeat(0, pad) + Repeat(0, size), h', rest)
      else if args == [] then Bad
      else
        match c.put(h'.order, opt, size, args[0])
        case None => Bad
        case Some(s) => Take(Slot(opt, size), Repeat(0, pad) + s, h', rest)
  }

  // What is appended for the rest of a format.
  function PackFrom(c: Codec, h: Header, totalsize: nat, fmt: Format, args: seq<Arg>): (r: Packed)
    ensures r.Packed? ==> |r.slots| <= |args|
    decreases |fmt|
  {
    if End(fmt) then Packed([], []) else
    match TurnAt(c, h, totalsize, fmt, args)
    case Bad => PackError
    case Skip(mine, h', rest) => Before(mine, [], PackFrom(c, h', totalsize + |mine|, rest, args))
    case Take(slot, mine, h', rest) => Before(mine, [slot], PackFrom(c, h', totalsize + |mine|, rest, args[1..]))
  }

  function Before(bytes: seq<Byte>, slots: seq<Slot>, p: Packed): Packed {
    if p.PackError? then PackError else Packed(bytes + p.bytes, slots + p.slots)
  }

  datatype Unpacked = UnpackError | Unpacked(values: seq<Arg>, pos: nat)

  function After(values: seq<Arg>, u: Unpacked): Unpacked {
    if u.UnpackError? then UnpackError else Unpacked(values + u.values, u.pos)
  }

  lemma AfterMore(values: seq<Arg>, arg: Arg, u: Unpacked)
    ensures After(values, After([arg], u)) == After(values + [arg], u)
    ensures After([], u) == u
  {
    if u.Unpacked? { assert values + ([arg] + u.values) == values + [arg] + u.values; }
  }

  function UnpackFrom(c: Codec, h: Header, pos: nat, fmt: Format, data: seq<Byte>): Unpacked
    decreases |fmt|
  {
    if End(fmt) then Unpacked([], pos) else
    match c.parse(h, pos, fmt)
    case BadFormat => UnpackError
    case Details(opt, size, pad, h', rest) =>
      assert DetailsOk(c.parse(h, pos, fmt), fmt);
      if pos + pad + size > |data| then UnpackError
      else if !opt.TakesValue() then UnpackFrom(c, h', pos + pad + size, rest, data)
      else
        match c.get(h'.order, opt, size, data, pos + pad)
        case Short => UnpackError
        case Read(arg, used) =>
          After([arg], UnpackFrom(c, h', pos + pad + used, rest, data))
  }

  // The values the arguments read back as.
  function BackAll(c: Codec, slots: seq<Slot>, args: seq<Arg>): seq<Arg>
    requires |slots| <= |args|
  {
    if slots == [] then [] else [c.back(slots[0].opt, slots[0].size, args[0])] + BackAll(c, slots[1..], args[1..])
  }

  method LbufferPack(c: Codec, native: Endian, buffer: seq<Byte>, fmt0: Format, args: seq<Arg>) returns (ok: bool, b: seq<Byte>)
    ensures var p := PackFrom(c, InitHeader(native), 0, fmt0, args);
      (ok <==> p.Packed?) && (ok ==> b == buffer + p.bytes)
  {
    ghost var whole := PackFrom(c, InitHeader(native), 0, fmt0, args);
    b := buffer;
    var fmt, h, arg := fmt0, InitHeader(native), 0;
    var totalsize: nat := 0;
    assert args[0..] == args;
    while !End(fmt)
      invariant 0 <= arg <= |args|
      invariant var p := PackFrom(c, h, totalsize, fmt, args[arg..]);
        (whole.Packed? <==> p.Packed?) && (p.Packed? ==> b + p.bytes == buffer + whole.bytes)
      decreases |fmt|
    {
      ghost var rest := args[arg..];
      ghost var p, turn := PackFrom(c, h, totalsize, fmt, rest), TurnAt(c, h, totalsize, fmt, rest);
      var d := c.parse(h, totalsize, fmt);
      if d.BadFormat? { return false, b; }
      assert DetailsOk(d, fmt);
      var item;
      if d.opt.TakesValue() {
        if arg == |args| { return false, b; }
        assert rest[0] == args[arg] && rest[1..] == args[arg + 1..];
        var one := c.put(d.h.order, d.opt, d.size, args[arg]);
        if one.None? { return false, b; }
        item := Repeat(0, d.pad) + one.value;
        assert turn == Take(Slot(d.opt, d.size), item, d.h, d.rest);
        arg := arg + 1;
      } else {
        item := Repeat(0, d.pad) + Repeat(0, d.size);
        assert turn == Skip(item, d.h, d.rest);
      }
      h, fmt := d.h, d.rest;
      totalsize := totalsize + |item|;
      ghost var q := PackFrom(c, h, totalsize, fmt, args[arg..]);
      assert p.Packed? <==> q.Packed?;
      if q.Packed? { Regroup(b, item, q.bytes); }
      b := b + item;
    }
    assert b + [] == b;
    return true, b;
  }

  // A negative position counts from the end; 0 is before the first byte.
  function PosRelat(pos: int, len: nat): nat { if pos >= 0 then pos else if -pos > len then 0 else len + pos + 1 }

  // The k-th byte counted from the front, or from the back; none before the first.
  lemma PosRelatMeans(k: nat, len: nat)
    ensures PosRelat(k + 1, len) - 1 == k
    ensures 0 < k <= len ==> PosRelat(0 - k, len) - 1 == len - k
    ensures k > len || k == 0 ==> PosRelat(0 - k, len) == 0
  {
  }

  method LbufferUnpack(c: Codec, native: Endian, data: seq<Byte>, fmt: Format, init: int) returns (r: Unpacked)
    ensures var p := PosRelat(init, |data|);
      r == if p == 0 || p - 1 > |data| then UnpackError else
        match UnpackFrom(c, InitHeader(native), p - 1, fmt, data)
        case UnpackError => UnpackError
        case Unpacked(values, pos) => Unpacked(values, pos + 1)
  {
    var p := PosRelat(init, |data|);
    if p == 0 || p - 1 > |data| { return UnpackError; }
    r := UnpackLoop(c, InitHeader(native), p - 1, fmt, data);
    if r.Unpacked? { r := Unpacked(r.values, r.pos + 1); }
  }

  lemma UnpackSkipped(c: Codec, h: Header, pos: nat, fmt: Format, data: seq<Byte>)
    requires !End(fmt) && c.parse(h, pos, fmt).Details? && !c.parse(h, pos, fmt).opt.TakesValue()
    requires pos + c.parse(h, pos, fmt).pad + c.parse(h, pos, fmt).size <= |data|
    ensures var d := c.parse(h, pos, fmt); UnpackFrom(c, h, pos, fmt, data) == UnpackFrom(c, d.h, pos + d.pad + d.size, d.rest, data)
  {
    assert DetailsOk(c.parse(h, pos, fmt), fmt);
  }

  lemma UnpackTaken(c: Codec, h: Header, pos: nat, fmt: Format, data: seq<Byte>)
    requires !End(fmt) && c.parse(h, pos, fmt).Details? && c.parse(h, pos, fmt).opt.TakesValue()
    requires var d := c.parse(h, pos, fmt);
      pos + d.pad + d.size <= |data| && c.get(d.h.order, d.opt, d.size, data, pos + d.pad).Read?
    ensures var d := c.parse(h, pos, fmt); var one := c.get(d.h.order, d.opt, d.size, data, pos + d.pad);
      UnpackFrom(c, h, pos, fmt, data) == After([one.arg], UnpackFrom(c, d.h, pos + d.pad + one.used, d.rest, data))
  {
    assert DetailsOk(c.parse(h, pos, fmt), fmt);
  }

  // A bad option, data that end too soon, or a value that cannot be read.
  lemma UnpackStops(c: Codec, h: Header, pos: nat, fmt: Format, data: seq<Byte>)
    requires !End(fmt)
    ensures var d := c.parse(h, pos, fmt);
      d.BadFormat? || pos + d.pad + d.size > |data| || (d.opt.TakesValue() && c.get(d.h.order, d.opt, d.size, data, pos + d.pad).Short?) ==>
        UnpackFrom(c, h, pos, fmt, data).UnpackError?
  {
  }

  method UnpackLoop(c: Codec, h0: Header, pos0: nat, fmt0: Format, data: seq<Byte>) returns (r: Unpacked)
    ensures r == UnpackFrom(c, h0, pos0, fmt0, data)
  {
    var pos: nat := pos0;
    var fmt, h := fmt0, h0;
    var values: seq<Arg> := [];
    ghost var whole := UnpackFrom(c, h, pos, fmt, data);
    AfterMore([], Integer(0), whole);
    while !End(fmt)
      invariant whole == After(values, UnpackFrom(c, h, pos, fmt, data))
      decreases |fmt|
    {
      var d := c.parse(h, pos, fmt);
      UnpackStops(c, h, pos, fmt, data);
      if d.BadFormat? { return UnpackError; }
      assert DetailsOk(d, fmt);
      if pos + d.pad + d.size > |data| { return UnpackError; }
      if d.opt.TakesValue() {
        var one := c.get(d.h.order, d.opt, d.size, data, pos + d.pad);
        if one.Short? { return UnpackError; }
        UnpackTaken(c, h, pos, fmt, data);
        pos := pos + d.pad + one.used;
        AfterMore(values, one.arg, UnpackFrom(c, d.h, pos, d.rest, data));
        values := values + [one.arg];
      } else {
        UnpackSkipped(c, h, pos, fmt, data);
        pos := pos + d.pad + d.size;
      }
      h, fmt := d.h, d.rest;
    }
    assert values + [] == values;
    return Unpacked(values, pos);
  }

  // packsize: None for a format of variable length, or one too long.
  function SizeFrom(c: Codec, h: Header, totalsize: nat, fmt: Format): Option<nat>
    decreases |fmt|
  {
    if End(fmt) then Some(totalsize) else
    match c.parse(h, totalsize, fmt)
    case BadFormat => None
    case Details(opt, size, pad, h', rest) =>
      assert DetailsOk(c.parse(h, totalsize, fmt), fmt);
      if totalsize > MAXSIZE - (size + pad) || opt.Kstring? || opt.Kzstr? then None
      else SizeFrom(c, h', totalsize + (size + pad), rest)
  }

  method LbufferPackSize(c: Codec, native: Endian, fmt0: Format) returns (r: Option<nat>)
    ensures r == SizeFrom(c, InitHeader(native), 0, fmt0)
  {
    var fmt, h := fmt0, InitHeader(native);
    var totalsize: nat := 0;
    while !End(fmt)
      invariant SizeFrom(c, h, totalsize, fmt) == SizeFrom(c, InitHeader(native), 0, fmt0)
      decreases |fmt|
    {
      var d := c.parse(h, totalsize, fmt);
      if d.BadFormat? { return None; }
      assert DetailsOk(d, fmt);
      if totalsize > MAXSIZE - (d.size + d.pad) { return None; }
      totalsize := totalsize + (d.size + d.pad);
      if d.opt.Kstring? || d.opt.Kzstr? { return None; }
      h, fmt := d.h, d.rest;
    }
    return Some(totalsize);
  }

  // ----- round trip

  lemma {:induction false} FindsZero(data: seq<Byte>, pos: nat, s: seq<Byte>)
    requires Occurs(data, pos, s + [0]) && 0 !in s
    ensures FindZero(data, pos) == pos + |s|
    decreases |s|
  {
    OccursAt(data, pos, s + [0], 0);
    if s != [] {
      assert s + [0] == [s[0]] + (s[1..] + [0]);
      OccursSum(data, pos, [s[0]], s[1..] + [0]);
      FindsZero(data, pos + 1, s[1..]);
    }
  }

  lemma ReadsString(fl: Floats, native: Endian, order: Endian, size: nat, s: seq<Byte>, data: seq<Byte>, pos: nat)
    requires 1 <= size <= MAXINTSIZE && IsInteger(|s|) && (size >= SIZE_T || |s| < Pow256(size))
    requires Occurs(data, pos, IntBytes(|s|, size, false, order) + s)
    ensures pos + size <= |data| && UnpackOne(fl, native, order, Kstring, size, data, pos) == Read(Str(s), size + |s|)
  {
    IntRoundTrip(|s|, size, false, order);
    ReadsCounted(fl, native, order, size, IntBytes(|s|, size, false, order), s, data, pos);
  }

  lemma ReadsCounted(fl: Floats, native: Endian, order: Endian, size: nat, len: seq<Byte>, s: seq<Byte>, data: seq<Byte>, pos: nat)
    requires |len| == size && 1 <= size <= MAXINTSIZE && IsInteger(|s|) && IntOf(len, false, order) == Some(|s|)
    requires Occurs(data, pos, len + s)
    ensures pos + size <= |data| && UnpackOne(fl, native, order, Kstring, size, data, pos) == Read(Str(s), size + |s|)
  {
    OccursSum(data, pos, len, s);
    var n := |s|;
    assert n % WORD64 == n && pos + n + size <= |data|;
    assert data[pos..pos + size] == len && data[pos + size..pos + size + n] == s;
  }

  lemma ReadsZero(fl: Floats, native: Endian, order: Endian, size: nat, s: seq<Byte>, data: seq<Byte>, pos: nat)
    requires SizeOk(Kzstr, size) && Occurs(data, pos, s + [0]) && 0 !in s
    ensures pos + size <= |data| && UnpackOne(fl, native, order, Kzstr, size, data, pos) == Read(Str(s), |s| + 1)
  {
    FindsZero(data, pos, s);
    OccursSum(data, pos, s, [0]);
    OccursAt(data, pos + |s|, [0], 0);
  }

  lemma ReadsInt(fl: Floats, native: Endian, order: Endian, opt: KOption, size: nat, arg: Arg, data: seq<Byte>, pos: nat)
    requires FloatsOk(fl) && (opt.Kint? || opt.Kuint?) && SizeOk(opt, size)
    requires var p := PackOne(fl, native, order, opt, size, arg); p.Some? && Occurs(data, pos, p.value)
    ensures var s := PackOne(fl, native, order, opt, size, arg).value;
      size <= |s| && pos + size <= |data| &&
      UnpackOne(fl, native, order, opt, size, data, pos) == Read(Back(fl, opt, size, arg), |s|)
  {
    IntRoundTrip(arg.n, size, opt.Kint?, order);
  }

  lemma ReadsFixed(fl: Floats, native: Endian, order: Endian, opt: KOption, size: nat, arg: Arg, data: seq<Byte>, pos: nat)
    requires FloatsOk(fl) && (opt.Kfloat? || opt.Kchar?) && SizeOk(opt, size)
    requires var p := PackOne(fl, native, order, opt, size, arg); p.Some? && Occurs(data, pos, p.value)
    ensures var s := PackOne(fl, native, order, opt, size, arg).value;
      size <= |s| && pos + size <= |data| &&
      UnpackOne(fl, native, order, opt, size, data, pos) == Read(Back(fl, opt, size, arg), |s|)
  {
    if opt.Kfloat? { ReverseTwice(fl.store(size, arg.bits)); }
  }

  // A packed value reads back.
  lemma OneBack(fl: Floats, native: Endian, order: Endian, opt: KOption, size: nat, arg: Arg, data: seq<Byte>, pos: nat)
    requires FloatsOk(fl) && opt.TakesValue() && SizeOk(opt, size)
    requires var p := PackOne(fl, native, order, opt, size, arg); p.Some? && Occurs(data, pos, p.value)
    ensures var s := PackOne(fl, native, order, opt, size, arg).value;
      size <= |s| && pos + size <= |data| &&
      UnpackOne(fl, native, order, opt, size, data, pos) == Read(Back(fl, opt, size, arg), |s|)
  {
    match opt
    case Kint => ReadsInt(fl, native, order, opt, size, arg, data, pos);
    case Kuint => ReadsInt(fl, native, order, opt, size, arg, data, pos);
    case Kfloat => ReadsFixed(fl, native, order, opt, size, arg, data, pos);
    case Kchar => ReadsFixed(fl, native, order, opt, size, arg, data, pos);
    case Kstring => ReadsString(fl, native, order, size, arg.s, data, pos);
    case Kzstr => ReadsZero(fl, native, order, size, arg.s, data, pos);
  }

  lemma LuaCodecLawful(fl: Floats, native: Endian)
    requires FloatsOk(fl)
    ensures Lawful(LuaCodec(fl, native))
  {
    var c := LuaCodec(fl, native);
    forall order: Endian, opt: KOption, size: nat, arg: Arg, data: seq<Byte>, pos: nat ensures ReadsBack(c, order, opt, size, arg, data, pos) {
      if opt.TakesValue() && SizeOk(opt, size) && c.put(order, opt, size, arg).Some? && Occurs(data, pos, c.put(order, opt, size, arg).value) {
        OneBack(fl, native, order, opt, size, arg, data, pos);
      }
    }
  }

  // Unpacking where packing began gives the values back, each as its option keeps it, and
  // ends where packing did.
  lemma {:induction false} UnpacksBack(c: Codec, h: Header, totalsize: nat, fmt: Format, args: seq<Arg>, data: seq<Byte>)
    requires Lawful(c)
    requires var p := PackFrom(c, h, totalsize, fmt, args); p.Packed? && Occurs(data, totalsize, p.bytes)
    ensures ComesBack(c, h, totalsize, fmt, args, data)
    decreases |fmt|
  {
    if !End(fmt) {
      var turn := TurnAt(c, h, totalsize, fmt, args);
      PackOccurs(c, h, totalsize, fmt, args, data);
      if turn.Take? {
        UnpacksBack(c, turn.h, totalsize + |turn.mine|, turn.rest, args[1..], data);
        TakesTurn(c, h, totalsize, fmt, args, data);
      } else {
        UnpacksBack(c, turn.h, totalsize + |turn.mine|, turn.rest, args, data);
        SkipsTurn(c, h, totalsize, fmt, args, data);
      }
    }
  }

  // Where a turn of packing wrote its bytes, and where the rest is.
  lemma PackOccurs(c: Codec, h: Header, totalsize: nat, fmt: Format, args: seq<Arg>, data: seq<Byte>)
    requires !End(fmt)
    requires var p := PackFrom(c, h, totalsize, fmt, args); p.Packed? && Occurs(data, totalsize, p.bytes)
    ensures !TurnAt(c, h, totalsize, fmt, args).Bad?
    ensures var turn := TurnAt(c, h, totalsize, fmt, args);
      var q := PackFrom(c, turn.h, totalsize + |turn.mine|, turn.rest, if turn.Take? then args[1..] else args);
      Occurs(data, totalsize, turn.mine) && q.Packed? && Occurs(data, totalsize + |turn.mine|, q.bytes)
  {
    var turn := TurnAt(c, h, totalsize, fmt, args);
    OccursSum(data, totalsize, turn.mine,
      PackFrom(c, turn.h, totalsize + |turn.mine|, turn.rest, if turn.Take? then args[1..] else args).bytes);
  }

  predicate ComesBack(c: Codec, h: Header, totalsize: nat, fmt: Format, args: seq<Arg>, data: seq<Byte>) {
    var p := PackFrom(c, h, totalsize, fmt, args);
    p.Packed? ==> UnpackFrom(c, h, totalsize, fmt, data) == Unpacked(BackAll(c, p.slots, args), totalsize + |p.bytes|)
  }

  lemma TakesTurn(c: Codec, h: Header, totalsize: nat, fmt: Format, args: seq<Arg>, data: seq<Byte>)
    requires Lawful(c) && !End(fmt) && PackFrom(c, h, totalsize, fmt, args).Packed?
    requires var turn := TurnAt(c, h, totalsize, fmt, args);
      turn.Take? && Occurs(data, totalsize, turn.mine) && ComesBack(c, turn.h, totalsize + |turn.mine|, turn.rest, args[1..], data)
    ensures ComesBack(c, h, totalsize, fmt, args, data)
  {
    var turn := TurnAt(c, h, totalsize, fmt, args);
    var q := PackFrom(c, turn.h, totalsize + |turn.mine|, turn.rest, args[1..]);
    ReadsTurn(c, h, totalsize, fmt, args, data);
    BackOne(c, turn.slot, q.slots, args);
    assert PackFrom(c, h, totalsize, fmt, args) == Packed(turn.mine + q.bytes, [turn.slot] + q.slots);
  }

  lemma SkipsTurn(c: Codec, h: Header, totalsize: nat, fmt: Format, args: seq<Arg>, data: seq<Byte>)
    requires !End(fmt) && PackFrom(c, h, totalsize, fmt, args).Packed?
    requires var turn := TurnAt(c, h, totalsize, fmt, args);
      turn.Skip? && Occurs(data, totalsize, turn.mine) && ComesBack(c, turn.h, totalsize + |turn.mine|, turn.rest, args, data)
    ensures ComesBack(c, h, totalsize, fmt, args, data)
  {
    var turn := TurnAt(c, h, totalsize, fmt, args);
    var q := PackFrom(c, turn.h, totalsize + |turn.mine|, turn.rest, args);
    UnpackSkipped(c, h, totalsize, fmt, data);
    assert [] + q.slots == q.slots;
  }

  lemma BackOne(c: Codec, slot: Slot, slots: seq<Slot>, args: seq<Arg>)
    requires |slots| < |args|
    ensures BackAll(c, [slot] + slots, args) == [c.back(slot.opt, slot.size, args[0])] + BackAll(c, slots, args[1..])
  {
    assert ([slot] + slots)[1..] == slots;
  }

  // The turn of unpacking that meets what a turn of packing wrote.
  lemma ReadsTurn(c: Codec, h: Header, totalsize: nat, fmt: Format, args: seq<Arg>, data: seq<Byte>)
    requires Lawful(c) && !End(fmt)
    requires var turn := TurnAt(c, h, totalsize, fmt, args); turn.Take? && Occurs(data, totalsize, turn.mine)
    ensures var turn := TurnAt(c, h, totalsize, fmt, args);
      UnpackFrom(c, h, totalsize, fmt, data) ==
        After([c.back(turn.slot.opt, turn.slot.size, args[0])], UnpackFrom(c, turn.h, totalsize + |turn.mine|, turn.rest, data))
  {
    var d := c.parse(h, totalsize, fmt);
    var s := c.put(d.h.order, d.opt, d.size, args[0]).value;
    assert DetailsOk(d, fmt);
    OccursSum(data, totalsize, Repeat(0, d.pad), s);
    assert ReadsBack(c, d.h.order, d.opt, d.size, args[0], data, totalsize + d.pad);
    UnpackTaken(c, h, totalsize, fmt, data);
  }

  // A value comes back as it was exactly if its option keeps it: a string of the exact size,
  // a number the float can hold.
  predicate Keeps(fl: Floats, opt: KOption, size: nat, arg: Arg) {
    match arg
    case Integer(_) => true
    case Real(bits) => fl.load(size, fl.store(size, bits)) == bits
    case Str(s) => opt.Kchar? ==> |s| == size
  }

  lemma KeepsIsBack(fl: Floats, opt: KOption, size: nat, arg: Arg)
    ensures Keeps(fl, opt, size, arg) <==> Back(fl, opt, size, arg) == arg
  {
  }

  // Every option keeps its argument.
  predicate AllKept(fl: Floats, slots: seq<Slot>, args: seq<Arg>) {
    |slots| <= |args| && forall i :: 0 <= i < |slots| ==> Keeps(fl, slots[i].opt, slots[i].size, args[i])
  }

  lemma {:induction false} KeptIsSame(fl: Floats, native: Endian, slots: seq<Slot>, args: seq<Arg>)
    requires |slots| <= |args|
    ensures BackAll(LuaCodec(fl, native), slots, args) == args[..|slots|] <==> AllKept(fl, slots, args)
  {
    if slots != [] {
      var v, vs := Back(fl, slots[0].opt, slots[0].size, args[0]), BackAll(LuaCodec(fl, native), slots[1..], args[1..]);
      KeepsIsBack(fl, slots[0].opt, slots[0].size, args[0]);
      KeptIsSame(fl, native, slots[1..], args[1..]);
      assert args[..|slots|] == [args[0]] + args[1..][..|slots| - 1];
      assert [v] + vs == args[..|slots|] <==> v == args[0] && vs == args[1..][..|slots| - 1] by {
        if [v] + vs == args[..|slots|] { assert ([v] + vs)[1..] == vs; }
      }
      KeptFirst(fl, slots, args);
    }
  }

  lemma KeptFirst(fl: Floats, slots: seq<Slot>, args: seq<Arg>)
    requires 0 < |slots| <= |args|
    ensures AllKept(fl, slots, args) <==> Keeps(fl, slots[0].opt, slots[0].size, args[0]) && AllKept(fl, slots[1..], args[1..])
  {
    if AllKept(fl, slots[1..], args[1..]) {
      forall i | 1 <= i < |slots| ensures Keeps(fl, slots[i].opt, slots[i].size, args[i]) {
        assert slots[1..][i - 1] == slots[i] && args[1..][i - 1] == args[i];
      }
    }
  }

  // The round trip: unpacking ends where packing did, and gives back the very arguments
  // packed exactly if every option keeps its argument.
  lemma PackRoundTrip(fl: Floats, native: Endian, fmt: Format, args: seq<Arg>, more: seq<Byte>)
    requires FloatsOk(fl) && PackFrom(LuaCodec(fl, native), InitHeader(native), 0, fmt, args).Packed?
    ensures var c, h := LuaCodec(fl, native), InitHeader(native);
      var p := PackFrom(c, h, 0, fmt, args);
      var u := UnpackFrom(c, h, 0, fmt, p.bytes + more);
      && u == Unpacked(BackAll(c, p.slots, args), |p.bytes|)
      && (u.values == args[..|p.slots|] <==> AllKept(fl, p.slots, args))
  {
    var c, h := LuaCodec(fl, native), InitHeader(native);
    LuaCodecLawful(fl, native);
    var p := PackFrom(c, h, 0, fmt, args);
    assert (p.bytes + more)[0..0 + |p.bytes|] == p.bytes;
    UnpacksBack(c, h, 0, fmt, args, p.bytes + more);
    KeptIsSame(fl, native, p.slots, args);
  }

  // The option of a fixed size: what it writes has that size.
  ghost predicate Sized(c: Codec) {
    forall order: Endian, opt: KOption, size: nat, arg: Arg :: FixedSize(c, order, opt, size, arg)
  }

  predicate FixedSize(c: Codec, order: Endian, opt: KOption, size: nat, arg: Arg) {
    !opt.Kstring? && !opt.Kzstr? && c.put(order, opt, size, arg).Some? ==> |c.put(order, opt, size, arg).value| == size
  }

  lemma LuaCodecSized(fl: Floats, native: Endian)
    requires FloatsOk(fl)
    ensures Sized(LuaCodec(fl, native))
  {
    var c := LuaCodec(fl, native);
    forall order: Endian, opt: KOption, size: nat, arg: Arg ensures FixedSize(c, order, opt, size, arg) {
      if opt.Kint? || opt.Kuint? { assert |IntBytes(if arg.Integer? then arg.n else 0, size, opt.Kint?, order)| == size; }
    }
  }

  predicate SizeAgrees(c: Codec, h: Header, totalsize: nat, fmt: Format, args: seq<Arg>) {
    var n, p := SizeFrom(c, h, totalsize, fmt), PackFrom(c, h, totalsize, fmt, args);
    n.Some? && p.Packed? ==> n.value == totalsize + |p.bytes|
  }

  lemma {:induction false} SizeIsPackedFrom(c: Codec, h: Header, totalsize: nat, fmt: Format, args: seq<Arg>)
    requires Sized(c)
    ensures SizeAgrees(c, h, totalsize, fmt, args)
    decreases |fmt|
  {
    if !End(fmt) && SizeFrom(c, h, totalsize, fmt).Some? && PackFrom(c, h, totalsize, fmt, args).Packed? {
      var d, turn := c.parse(h, totalsize, fmt), TurnAt(c, h, totalsize, fmt, args);
      assert DetailsOk(d, fmt);
      if turn.Take? { assert FixedSize(c, d.h.order, d.opt, d.size, args[0]); }
      assert |turn.mine| == d.size + d.pad;
      SizeIsPackedFrom(c, d.h, totalsize + |turn.mine|, d.rest, if turn.Take? then args[1..] else args);
    }
  }

  // packsize is the number of bytes any successful pack of the format appends.
  lemma SizeIsPacked(fl: Floats, native: Endian, fmt: Format, args: seq<Arg>)
    requires FloatsOk(fl)
    ensures SizeAgrees(LuaCodec(fl, native), InitHeader(native), 0, fmt, args)
  {
    LuaCodecSized(fl, native);
    SizeIsPackedFrom(LuaCodec(fl, native), InitHeader(native), 0, fmt, args);
  }
}
