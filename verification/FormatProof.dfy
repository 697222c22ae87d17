/** buffer.pack appends what its format asks for. */
module FormatProof {
  import opened Basics
  import opened Bytes
  import opened Arith
  import opened EndianConv
  import opened IntPack
  import opened BufferPack
  import opened M = FormatMeaning

  // ----- the text is read as it was written

  predicate NoDigit(fmt: Format) { fmt == [] || !Digit(fmt[0]) }

  predicate Digitals(s: string) { forall i :: 0 <= i < |s| ==> Digit(s[i]) }

  // A numeral is read digit by digit; the reader stops where another digit might be too much.
  lemma {:induction false} ReadsDigits(s: string, rest: Format)
    requires Digitals(s) && (s != [] ==> Numeral(s[..|s| - 1]) <= 214748363)
    ensures Digits10(s + rest, 0) == Digits10(rest, Numeral(s))
    decreases |s|
  {
    if s == [] { assert s + rest == rest; }
    else {
      var before, d := s[..|s| - 1], [s[|s| - 1]];
      assert s + rest == before + (d + rest);
      if before != [] { NumberGrows(before); }
      ReadsDigits(before, d + rest);
      assert (d + rest)[1..] == rest;
    }
  }

  lemma NumberGrows(s: string)
    requires s != []
    ensures Numeral(s[..|s| - 1]) <= Numeral(s)
  {
  }

  lemma {:induction false} TooLong(s: string, rest: Format)
    requires Digitals(s) && s != [] && Numeral(s[..|s| - 1]) > 214748363
    ensures Numeral(s) > 16 && Digits10(s + rest, 0).0 > 16
    decreases |s|
  {
    var before, d := s[..|s| - 1], [s[|s| - 1]];
    assert s + rest == before + (d + rest);
    assert before != [];
    if Numeral(before[..|before| - 1]) > 214748363 { TooLong(before, d + rest); }
    else { ReadsDigits(before, d + rest); }
  }

  // Read whole, or read as some other number that no option allows either.
  lemma ReadsCount(s: string, rest: Format)
    requires Digitals(s) && s != [] && NoDigit(rest)
    ensures Numeral(s[..|s| - 1]) <= 214748363 ==> GetNum(s + rest) == Num(Numeral(s), rest)
    ensures Numeral(s[..|s| - 1]) > 214748363 ==> Numeral(s) > 16 && GetNum(s + rest).Num? && GetNum(s + rest).n > 16
  {
    assert (s + rest)[0] == s[0];
    if Numeral(s[..|s| - 1]) <= 214748363 { ReadsDigits(s, rest); } else { TooLong(s, rest); }
  }

  lemma ReadsNumeral(it: Item, rest: Format)
    requires Readable(it) && NoDigit(rest)
    ensures var fmt := TextOf(it) + rest;
      && fmt != [] && fmt[0] == it.letter
      && (it.Count().None? ==> fmt[1..] == rest && GetNum(fmt[1..]) == NoNumber)
      && (it.Count().Some? ==>
           GetNum(fmt[1..]) == Num(it.Count().value, rest)
           || (it.letter != 'c' && it.Count().value > 16 && GetNum(fmt[1..]).Num? && GetNum(fmt[1..]).n > 16))
  {
    assert (TextOf(it) + rest)[1..] == it.numeral + rest;
    if it.numeral != [] { ReadsCount(it.numeral, rest); } else { assert [] + rest == rest; }
  }

  function KindOf(it: Item): KOption {
    match SortOf(it.letter)
    case Signed => Kint
    case Unsigned => Kuint
    case Float => Kfloat
    case Fixed => Kchar
    case Counted => Kstring
    case Zeroed => Kzstr
    case PadByte => Kpadding
    case AlignAs => Kpaddalign
    case _ => Knop
  }

  function SizeOf(it: Item): nat { if it.letter == 'c' && it.Count().Some? then it.Count().value else Width(it) }

  function ModeOf(h: Header): Mode { Mode(h.order.LittleEndian?, h.maxalign) }

  // An option read from its text.
  predicate Reads(native: Endian, h: Header, it: Item, rest: Format)
    requires it.letter != '\0'
  {
    var got := GetOption(native, h, TextOf(it) + rest);
    if !Legal(it) then got.BadOption? else got.Got? && Found(native, h, it, rest, got)
  }

  predicate Found(native: Endian, h: Header, it: Item, rest: Format, got: Got)
    requires got.Got?
  {
    && got.opt == KindOf(it) && got.size == SizeOf(it) && got.rest == rest
    && ModeOf(got.h) == Switched(ModeOf(h), native.LittleEndian?, it)
  }

  lemma ReadsSigned(native: Endian, h: Header, it: Item, rest: Format)
    requires Readable(it) && NoDigit(rest) && SortOf(it.letter).Signed?
    ensures Reads(native, h, it, rest)
  {
    ReadsNumeral(it, rest);
  }

  lemma ReadsUnsigned(native: Endian, h: Header, it: Item, rest: Format)
    requires Readable(it) && NoDigit(rest) && SortOf(it.letter).Unsigned?
    ensures Reads(native, h, it, rest)
  {
    ReadsNumeral(it, rest);
  }

  lemma ReadsValue(native: Endian, h: Header, it: Item, rest: Format)
    requires Readable(it) && NoDigit(rest) && TakesArg(it) && !SortOf(it.letter).Signed? && !SortOf(it.letter).Unsigned?
    ensures Reads(native, h, it, rest)
  {
    ReadsNumeral(it, rest);
  }

  lemma ReadsOther(native: Endian, h: Header, it: Item, rest: Format)
    requires Readable(it) && NoDigit(rest) && !TakesArg(it)
    ensures Reads(native, h, it, rest)
  {
    ReadsNumeral(it, rest);
  }

  lemma ReadsOption(native: Endian, h: Header, it: Item, rest: Format)
    requires Readable(it) && NoDigit(rest)
    ensures Reads(native, h, it, rest)
  {
    if SortOf(it.letter).Signed? { ReadsSigned(native, h, it, rest); }
    else if SortOf(it.letter).Unsigned? { ReadsUnsigned(native, h, it, rest); }
    else if TakesArg(it) { ReadsValue(native, h, it, rest); }
    else { ReadsOther(native, h, it, rest); }
  }

  // ----- one value

  lemma MirrorIs(s: seq<Byte>)
    ensures Mirror(s) == Reverse(s)
  {
    ReverseIndex(s);
  }

  // What PackOne writes for an option and what its letter asks for.
  predicate Writes(fl: Floats, native: Endian, h: Header, it: Item, arg: Arg)
    requires TakesArg(it) && KindOf(it).TakesValue()
  {
    PackOne(fl, native, h.order, KindOf(it), SizeOf(it), arg) == ValueBytes(fl.store, native.LittleEndian?, ModeOf(h), it, arg)
  }

  lemma FitsMeans(n: int, w: nat)
    ensures IsInteger(n) <==> IsLuaInteger(n)
    ensures Fits(n, w, true) <==> IsLuaInteger(n) && (w < 8 ==> 0 - Pow256(w) <= 2 * n < Pow256(w))
    ensures Fits(n, w, false) <==> IsLuaInteger(n) && (w < 8 ==> 0 <= n < Pow256(w))
  {
  }

  lemma WritesSigned(fl: Floats, native: Endian, h: Header, it: Item, arg: Arg)
    requires Legal(it) && SortOf(it.letter).Signed?
    ensures Writes(fl, native, h, it, arg)
  {
    if arg.Integer? {
      FitsMeans(arg.n, Width(it));
      EncodedBytes(arg.n, Width(it), h.order);
    }
  }

  lemma WritesUnsigned(fl: Floats, native: Endian, h: Header, it: Item, arg: Arg)
    requires Legal(it) && SortOf(it.letter).Unsigned?
    ensures Writes(fl, native, h, it, arg)
  {
    if arg.Integer? {
      FitsMeans(arg.n, Width(it));
      UnsignedBytes(arg.n, Width(it), h.order);
    }
  }

  lemma UnsignedBytes(n: int, size: nat, e: Endian)
    ensures IntBytes(n, size, false, e) == NumberBytes(n % 0x1_0000_0000_0000_0000, size, e.LittleEndian?)
  {
    EncodedBytes(n % WORD64, size, e);
  }

  lemma WritesFloat(fl: Floats, native: Endian, h: Header, it: Item, arg: Arg)
    requires Legal(it) && SortOf(it.letter).Float?
    ensures Writes(fl, native, h, it, arg)
  {
    if arg.Real? { MirrorIs(fl.store(Width(it), arg.bits)); }
  }

  lemma WritesFixed(fl: Floats, native: Endian, h: Header, it: Item, arg: Arg)
    requires Legal(it) && SortOf(it.letter).Fixed?
    ensures Writes(fl, native, h, it, arg)
  {
    if arg.Str? {
      var n := it.Count().value;
      assert Cut(arg.s, n) == seq(n, i requires 0 <= i => if i < |arg.s| then arg.s[i] else 0);
    }
  }

  lemma WritesCounted(fl: Floats, native: Endian, h: Header, it: Item, arg: Arg)
    requires Legal(it) && SortOf(it.letter).Counted?
    ensures Writes(fl, native, h, it, arg)
  {
    if arg.Str? {
      FitsMeans(|arg.s|, Width(it));
      if IsInteger(|arg.s|) { CountBytes(|arg.s|, Width(it), h.order); }
    }
  }

  lemma CountBytes(n: nat, size: nat, e: Endian)
    requires IsInteger(n)
    ensures IntBytes(n, size, false, e) == NumberBytes(n, size, e.LittleEndian?)
  {
    DivUnique(n, 0, n, WORD64);
    EncodedBytes(n, size, e);
  }

  lemma WritesZeroed(fl: Floats, native: Endian, h: Header, it: Item, arg: Arg)
    requires Legal(it) && SortOf(it.letter).Zeroed?
    ensures Writes(fl, native, h, it, arg)
  {
  }

  lemma WritesValue(fl: Floats, native: Endian, h: Header, it: Item, arg: Arg)
    requires Legal(it) && TakesArg(it)
    ensures KindOf(it).TakesValue() && Writes(fl, native, h, it, arg)
  {
    match SortOf(it.letter)
    case Signed => WritesSigned(fl, native, h, it, arg);
    case Unsigned => WritesUnsigned(fl, native, h, it, arg);
    case Float => WritesFloat(fl, native, h, it, arg);
    case Fixed => WritesFixed(fl, native, h, it, arg);
    case Counted => WritesCounted(fl, native, h, it, arg);
    case Zeroed => WritesZeroed(fl, native, h, it, arg);
  }

  // ----- the padding

  lemma GapIs(h: Header, pos: nat, size: nat)
    requires h.maxalign > 0
    ensures Gap(ModeOf(h), pos, size) == (if Padding(size, h.maxalign, pos) < 0 then None else Some(Padding(size, h.maxalign, pos)))
  {
    if size > 1 && h.maxalign > 1 {
      var a := if size > h.maxalign then h.maxalign else size;
      if a in {2, 4, 8, 16} { UpToIs(pos, a); }
    }
  }

  lemma UpToIs(pos: nat, a: nat)
    requires a in {2, 4, 8, 16}
    ensures UpTo(pos, a) == (a - pos % a) % a
  {
  }

  // ----- a whole format

  lemma SameHeader(h: Header, h': Header)
    requires ModeOf(h) == ModeOf(h')
    ensures h == h'
  {
  }

  // A turn of packing that appends these bytes, or is refused.
  predicate Turns(turn: Turn, z: Option<seq<Byte>>, rest: Format, m: Mode, takes: bool) {
    if z.None? then turn.Bad?
    else !turn.Bad? && turn.Take? == takes && turn.mine == z.value && turn.rest == rest && ModeOf(turn.h) == m && turn.h.maxalign > 0
  }

  lemma ZerosAre(n: nat)
    ensures Zeros(n) == Repeat(0, n)
  {
  }

  lemma SkipReads(fl: Floats, native: Endian, h: Header, pos: nat, it: Item, rest: Format, args: seq<Arg>)
    requires Readable(it) && NoDigit(rest) && h.maxalign > 0 && !TakesArg(it) && it.letter != 'X'
    ensures Turns(TurnAt(LuaCodec(fl, native), h, pos, TextOf(it) + rest, args),
      OptionBytes(fl.store, native.LittleEndian?, ModeOf(h), pos, it, args), rest, Switched(ModeOf(h), native.LittleEndian?, it), false)
  {
    ReadsOption(native, h, it, rest);
    if Legal(it) {
      SwitchedAlign(ModeOf(h), native.LittleEndian?, it);
      var got := GetOption(native, h, TextOf(it) + rest);
      GapIs(got.h, pos, Width(it));
      assert Repeat(0, 1) == [0] && Repeat(0, 0) == [];
    }
  }

  // An option that is no setting leaves the header alone.
  lemma PlainOption(native: Endian, h: Header, it: Item, rest: Format)
    requires Readable(it) && NoDigit(rest) && h.maxalign > 0 && Legal(it) && !SortOf(it.letter).Setting?
    ensures GetOption(native, h, TextOf(it) + rest) == Got(KindOf(it), SizeOf(it), h, rest)
  {
    ReadsOption(native, h, it, rest);
    SameHeader(h, GetOption(native, h, TextOf(it) + rest).h);
  }

  // What has a size is no setting, and has its size as its alignment unless it is a fixed string.
  lemma Sorts(it: Item)
    ensures it.letter == 'X' <==> SortOf(it.letter).AlignAs?
    ensures Legal(it) && Width(it) > 0 ==> !SortOf(it.letter).Setting? && !KindOf(it).Kchar? && SizeOf(it) == Width(it)
    ensures Legal(it) && Width(it) == 0 ==> KindOf(it).Kchar? || SizeOf(it) == 0
  {
  }

  lemma ValueDetails(native: Endian, h: Header, pos: nat, it: Item, rest: Format)
    requires Readable(it) && NoDigit(rest) && h.maxalign > 0 && TakesArg(it)
    ensures var gap := Gap(ModeOf(h), pos, Width(it));
      GetDetails(native, h, pos, TextOf(it) + rest) ==
        if !Legal(it) || gap.None? then BadFormat else Details(KindOf(it), SizeOf(it), gap.value, h, rest)
  {
    ReadsOption(native, h, it, rest);
    if Legal(it) {
      PlainOption(native, h, it, rest);
      GapIs(h, pos, Width(it));
    }
  }

  lemma TakeReads(fl: Floats, native: Endian, h: Header, pos: nat, it: Item, rest: Format, args: seq<Arg>)
    requires Readable(it) && NoDigit(rest) && h.maxalign > 0 && TakesArg(it)
    ensures Turns(TurnAt(LuaCodec(fl, native), h, pos, TextOf(it) + rest, args),
      OptionBytes(fl.store, native.LittleEndian?, ModeOf(h), pos, it, args), rest, ModeOf(h), true)
  {
    var c, fmt := LuaCodec(fl, native), TextOf(it) + rest;
    ValueDetails(native, h, pos, it, rest);
    assert c.parse(h, pos, fmt) == GetDetails(native, h, pos, fmt);
    if Legal(it) && Gap(ModeOf(h), pos, Width(it)).Some? && args != [] {
      WritesValue(fl, native, h, it, args[0]);
      ZerosAre(Gap(ModeOf(h), pos, Width(it)).value);
      assert c.put(h.order, KindOf(it), SizeOf(it), args[0]) == ValueBytes(fl.store, native.LittleEndian?, ModeOf(h), it, args[0]);
    }
  }

  lemma AlignDetails(native: Endian, h: Header, pos: nat, x: Item, it: Item, rest: Format)
    requires Readable(x) && x.letter == 'X' && Readable(it) && NoDigit(rest) && h.maxalign > 0
    ensures var bytes := Aligning(ModeOf(h), pos, it);
      GetDetails(native, h, pos, TextOf(x) + (TextOf(it) + rest)) ==
        if bytes.None? then BadFormat else Details(Kpaddalign, 0, |bytes.value|, h, rest)
  {
    Sorts(x);
    Sorts(it);
    PlainOption(native, h, x, TextOf(it) + rest);
    ReadsOption(native, h, it, rest);
    if Legal(it) && Width(it) > 0 {
      PlainOption(native, h, it, rest);
      GapIs(h, pos, Width(it));
    }
  }

  lemma AlignReads(fl: Floats, native: Endian, h: Header, pos: nat, x: Item, it: Item, rest: Format, args: seq<Arg>)
    requires Readable(x) && x.letter == 'X' && Readable(it) && NoDigit(rest) && h.maxalign > 0
    ensures Turns(TurnAt(LuaCodec(fl, native), h, pos, TextOf(x) + (TextOf(it) + rest), args),
      Aligning(ModeOf(h), pos, it), rest, ModeOf(h), false)
  {
    var c, fmt := LuaCodec(fl, native), TextOf(x) + (TextOf(it) + rest);
    AlignDetails(native, h, pos, x, it, rest);
    assert c.parse(h, pos, fmt) == GetDetails(native, h, pos, fmt);
    assert Repeat(0, 0) == [];
  }

  lemma LoneAlign(fl: Floats, native: Endian, h: Header, pos: nat, x: Item, args: seq<Arg>)
    requires Readable(x) && x.letter == 'X'
    ensures TurnAt(LuaCodec(fl, native), h, pos, TextOf(x) + [], args).Bad?
  {
    ReadsOption(native, h, x, []);
  }

  lemma SwitchedAlign(m: Mode, nativeLittle: bool, it: Item)
    requires Legal(it) && m.maxalign > 0
    ensures Switched(m, nativeLittle, it).maxalign > 0
    ensures TakesArg(it) || Width(it) > 0 ==> Switched(m, nativeLittle, it) == m
  {
  }

  // Packing and the meaning of the options agree.
  predicate Same(p: Packed, m: Option<seq<Byte>>) { if m.None? then p.PackError? else p.Packed? && p.bytes == m.value }

  predicate AllReadable(items: seq<Item>) { forall i :: 0 <= i < |items| ==> Readable(items[i]) }

  lemma TextBegins(items: seq<Item>)
    requires AllReadable(items)
    ensures NoDigit(Text(items)) && (items != [] ==> !End(Text(items)) && Text(items) == TextOf(items[0]) + Text(items[1..]))
  {
    if items != [] { assert Text(items)[0] == TextOf(items[0])[0]; }
  }

  // A way of packing and a machine's options agree on each option.
  predicate OptionAgrees(c: Codec, o: Options, h: Header, pos: nat, it: Item, rest: Format, args: seq<Arg>) {
    Turns(TurnAt(c, h, pos, TextOf(it) + rest, args), o.bytes(ModeOf(h), pos, it, args), rest, o.switch(ModeOf(h), it), o.takes(it))
  }

  predicate AlignAgrees(c: Codec, o: Options, h: Header, pos: nat, x: Item, it: Item, rest: Format, args: seq<Arg>) {
    Turns(TurnAt(c, h, pos, TextOf(x) + (TextOf(it) + rest), args), o.align(ModeOf(h), pos, it), rest, ModeOf(h), false)
  }

  predicate LoneRefused(c: Codec, h: Header, pos: nat, x: Item, args: seq<Arg>) { TurnAt(c, h, pos, TextOf(x) + [], args).Bad? }

  ghost predicate Agree(c: Codec, o: Options) {
    && (forall h: Header, pos: nat, it: Item, rest: Format, args: seq<Arg> ::
          Readable(it) && NoDigit(rest) && h.maxalign > 0 && it.letter != 'X' ==> OptionAgrees(c, o, h, pos, it, rest, args))
    && (forall h: Header, pos: nat, x: Item, it: Item, rest: Format, args: seq<Arg> ::
          Readable(x) && x.letter == 'X' && Readable(it) && NoDigit(rest) && h.maxalign > 0 ==> AlignAgrees(c, o, h, pos, x, it, rest, args))
    && (forall h: Header, pos: nat, x: Item, args: seq<Arg> :: Readable(x) && x.letter == 'X' ==> LoneRefused(c, h, pos, x, args))
  }

  lemma LuaAgrees(fl: Floats, native: Endian)
    ensures Agree(LuaCodec(fl, native), OptionsOf(fl.store, native.LittleEndian?))
  {
    var c, o := LuaCodec(fl, native), OptionsOf(fl.store, native.LittleEndian?);
    forall h: Header, pos: nat, it: Item, rest: Format, args: seq<Arg> | Readable(it) && NoDigit(rest) && h.maxalign > 0 && it.letter != 'X'
      ensures OptionAgrees(c, o, h, pos, it, rest, args)
    {
      OptionMeans(fl, native, h, pos, it, rest, args);
    }
    forall h: Header, pos: nat, x: Item, it: Item, rest: Format, args: seq<Arg>
      | Readable(x) && x.letter == 'X' && Readable(it) && NoDigit(rest) && h.maxalign > 0
      ensures AlignAgrees(c, o, h, pos, x, it, rest, args)
    {
      AlignReads(fl, native, h, pos, x, it, rest, args);
    }
    forall h: Header, pos: nat, x: Item, args: seq<Arg> | Readable(x) && x.letter == 'X' ensures LoneRefused(c, h, pos, x, args) {
      LoneAlign(fl, native, h, pos, x, args);
    }
  }

  lemma OptionMeans(fl: Floats, native: Endian, h: Header, pos: nat, it: Item, rest: Format, args: seq<Arg>)
    requires Readable(it) && NoDigit(rest) && h.maxalign > 0 && it.letter != 'X'
    ensures Turns(TurnAt(LuaCodec(fl, native), h, pos, TextOf(it) + rest, args),
      OptionBytes(fl.store, native.LittleEndian?, ModeOf(h), pos, it, args), rest, Switched(ModeOf(h), native.LittleEndian?, it), TakesArg(it))
  {
    if TakesArg(it) {
      TakeReads(fl, native, h, pos, it, rest, args);
      ValueSwitches(ModeOf(h), native.LittleEndian?, it);
    } else {
      SkipReads(fl, native, h, pos, it, rest, args);
    }
  }

  lemma ValueSwitches(m: Mode, nativeLittle: bool, it: Item)
    requires TakesArg(it)
    ensures Switched(m, nativeLittle, it) == m
  {
  }

  // One turn and what follows.
  lemma TurnsOn(c: Codec, h: Header, pos: nat, fmt: Format, args: seq<Arg>, turn: Turn, z: Option<seq<Byte>>, rest: Format, m: Mode,
      takes: bool, more: Option<seq<Byte>>)
    requires !End(fmt) && turn == TurnAt(c, h, pos, fmt, args) && Turns(turn, z, rest, m, takes)
    requires z.Some? ==>
      Same(PackFrom(c, turn.h, pos + |z.value|, rest, if takes && args != [] then args[1..] else args), more)
    ensures Same(PackFrom(c, h, pos, fmt, args), if z.None? then None else Joined(z, more))
  {
  }

  // The options are packed as they mean.
  lemma {:induction false} PacksItems(c: Codec, o: Options, h: Header, pos: nat, items: seq<Item>, args: seq<Arg>)
    requires Agree(c, o) && AllReadable(items) && h.maxalign > 0
    ensures Same(PackFrom(c, h, pos, Text(items), args), Meaning(o, ModeOf(h), pos, items, args))
    decreases |items|, 1
  {
    if items != [] {
      if items[0].letter != 'X' {
        var z, more := PacksOne(c, o, h, pos, items, args);
        MeaningOne(o, ModeOf(h), pos, items, args, z, more);
      }
      else if |items| == 1 { TextBegins(items); assert LoneRefused(c, h, pos, items[0], args); }
      else { PacksAligned(c, o, h, pos, items, args); }
    }
  }

  function Left(o: Options, it: Item, args: seq<Arg>): seq<Arg> { if o.takes(it) && args != [] then args[1..] else args }

  // The meaning of a list by its first option.
  lemma MeaningOne(o: Options, m: Mode, pos: nat, items: seq<Item>, args: seq<Arg>, z: Option<seq<Byte>>, more: Option<seq<Byte>>)
    requires items != [] && items[0].letter != 'X' && z == o.bytes(m, pos, items[0], args)
    requires z.Some? ==> more == Meaning(o, o.switch(m, items[0]), pos + |z.value|, items[1..], Left(o, items[0], args))
    ensures Meaning(o, m, pos, items, args) == if z.None? then None else Joined(z, more)
  {
  }

  lemma {:induction false} PacksOne(c: Codec, o: Options, h: Header, pos: nat, items: seq<Item>, args: seq<Arg>)
      returns (z: Option<seq<Byte>>, more: Option<seq<Byte>>)
    requires Agree(c, o) && AllReadable(items) && h.maxalign > 0 && items != [] && items[0].letter != 'X'
    ensures z == o.bytes(ModeOf(h), pos, items[0], args)
    ensures z.Some? ==> more == Meaning(o, o.switch(ModeOf(h), items[0]), pos + |z.value|, items[1..], Left(o, items[0], args))
    ensures Same(PackFrom(c, h, pos, Text(items), args), if z.None? then None else Joined(z, more))
    decreases |items|, 0
  {
    var m, rest, args' := o.switch(ModeOf(h), items[0]), items[1..], Left(o, items[0], args);
    var turn := OneTurn(c, o, h, pos, items, args);
    z, more := o.bytes(ModeOf(h), pos, items[0], args), None;
    if z.Some? {
      PacksItems(c, o, turn.h, pos + |z.value|, rest, args');
      more := Meaning(o, m, pos + |z.value|, rest, args');
    }
    TurnsOn(c, h, pos, Text(items), args, turn, z, Text(rest), m, o.takes(items[0]), more);
  }

  lemma OneTurn(c: Codec, o: Options, h: Header, pos: nat, items: seq<Item>, args: seq<Arg>) returns (turn: Turn)
    requires Agree(c, o) && AllReadable(items) && h.maxalign > 0 && items != [] && items[0].letter != 'X'
    ensures !End(Text(items)) && AllReadable(items[1..])
    ensures turn == TurnAt(c, h, pos, Text(items), args)
    ensures Turns(turn, o.bytes(ModeOf(h), pos, items[0], args), Text(items[1..]), o.switch(ModeOf(h), items[0]), o.takes(items[0]))
  {
    turn := TurnAt(c, h, pos, Text(items), args);
    TextBegins(items);
    TextBegins(items[1..]);
    assert OptionAgrees(c, o, h, pos, items[0], Text(items[1..]), args);
  }

  lemma {:induction false} PacksAligned(c: Codec, o: Options, h: Header, pos: nat, items: seq<Item>, args: seq<Arg>)
    requires Agree(c, o) && AllReadable(items) && h.maxalign > 0 && |items| > 1 && items[0].letter == 'X'
    ensures Same(PackFrom(c, h, pos, Text(items), args), Meaning(o, ModeOf(h), pos, items, args))
    decreases |items|, 0
  {
    var m, fmt, rest := ModeOf(h), Text(items), items[2..];
    TextBegins(items);
    TextBegins(items[1..]);
    TextBegins(rest);
    assert items[1..][1..] == rest;
    assert AlignAgrees(c, o, h, pos, items[0], items[1], Text(rest), args);
    var turn := TurnAt(c, h, pos, fmt, args);
    var z, more := o.align(m, pos, items[1]), None;
    if z.Some? {
      PacksItems(c, o, turn.h, pos + |z.value|, rest, args);
      more := Meaning(o, m, pos + |z.value|, rest, args);
    }
    TurnsOn(c, h, pos, fmt, args, turn, z, Text(rest), m, false, more);
  }

  // buffer.pack on the text of any options appends exactly the bytes they mean, and refuses
  // exactly what they refuse.
  method PackOptions(fl: Floats, native: Endian, buffer: seq<Byte>, items: seq<Item>, args: seq<Arg>) returns (ok: bool, b: seq<Byte>)
    requires forall i :: 0 <= i < |items| ==> Readable(items[i])
    ensures var bytes := Meaning(OptionsOf(fl.store, native.LittleEndian?), Mode(native.LittleEndian?, 1), 0, items, args);
      (ok <==> bytes.Some?) && (ok ==> b == buffer + bytes.value)
  {
    LuaAgrees(fl, native);
    PacksItems(LuaCodec(fl, native), OptionsOf(fl.store, native.LittleEndian?), InitHeader(native), 0, items, args);
    ok, b := LbufferPack(LuaCodec(fl, native), native, buffer, Text(items), args);
  }

  // "<i" or ">i" with a size: the bytes of n, the least significant first or last.
  lemma PacksInteger(o: Options, float: (nat, nat) -> seq<Byte>, native: Endian, order: Endian, it: Item, size: nat, n: int)
    requires o == OptionsOf(float, native.LittleEndian?) && 1 <= size <= 16 && IsLuaInteger(n)
    requires it.letter == 'i' && it.Count() == Some(size) && (size < 8 ==> 0 - Pow256(size) <= 2 * n < Pow256(size))
    ensures var items := [Item(if order.LittleEndian? then '<' else '>', []), it];
      Meaning(o, Mode(native.LittleEndian?, 1), 0, items, [Integer(n)]) == Some(NumberBytes(n, size, order.LittleEndian?))
  {
    var items := [Item(if order.LittleEndian? then '<' else '>', []), it];
    var m := Mode(order.LittleEndian?, 1);
    var b := NumberBytes(n, size, order.LittleEndian?);
    assert Zeros(0) == [] && Zeros(0) + Zeros(0) == [] && [] + b == b && b + [] == b;
    assert items[1..] == [it] && items[1..][1..] == [];
    assert o.bytes(Mode(native.LittleEndian?, 1), 0, items[0], [Integer(n)]) == Some([]);
    assert o.bytes(m, 0, it, [Integer(n)]) == Some(b);
    assert Meaning(o, m, |b|, [], []) == Some([]);
    assert Meaning(o, m, 0, items[1..], [Integer(n)]) == Some(b);
  }
}
