/**
 What a format of buffer.pack asks for, as section 6.4.2 of the Lua 5.3 Reference Manual tells it:
 a list of options, each a letter and perhaps a numeral, with the bytes each of them appends.
 Nothing here says how a format is read.
 */
module FormatMeaning {
  import opened Basics
  import opened Bytes
  import Arith
  import B = BufferPack

  datatype Item = Item(letter: char, numeral: string) {
    function Count(): Option<nat> { if numeral == [] then None else Some(Numeral(numeral)) }
  }

  // The value of a decimal numeral.
  function Numeral(s: string): (n: nat)
    ensures s == [] ==> n == 0
  {
    if s == [] then 0 else Numeral(s[..|s| - 1]) * 10 + DigitOf(s[|s| - 1])
  }

  function DigitOf(c: char): nat { if '0' <= c <= '9' then c as int - '0' as int else 0 }

  datatype Sort = Signed | Unsigned | Float | Fixed | Counted | Zeroed | PadByte | AlignAs | Setting | Unknown

  function SortOf(letter: char): Sort {
    match letter
    case 'b' => Signed case 'h' => Signed case 'i' => Signed case 'l' => Signed case 'j' => Signed
    case 'B' => Unsigned case 'H' => Unsigned case 'I' => Unsigned case 'L' => Unsigned case 'J' => Unsigned case 'T' => Unsigned
    case 'f' => Float case 'd' => Float case 'n' => Float
    case 'c' => Fixed case 's' => Counted case 'z' => Zeroed
    case 'x' => PadByte case 'X' => AlignAs
    case ' ' => Setting case '<' => Setting case '>' => Setting case '=' => Setting case '!' => Setting
    case _ => Unknown
  }

  // The sizes on the machine modelled; 0 for an option without one.
  function Usual(letter: char): nat {
    match letter
    case 'b' => 1 case 'B' => 1 case 'x' => 1
    case 'h' => 2 case 'H' => 2
    case 'i' => 4 case 'I' => 4 case 'f' => 4
    case 'l' => 8 case 'L' => 8 case 'j' => 8 case 'J' => 8 case 'T' => 8 case 'd' => 8 case 'n' => 8 case 's' => 8
    case _ => 0
  }

  predicate Countable(letter: char) { letter == 'i' || letter == 'I' || letter == 's' }

  type Arg = B.Arg

  predicate Legal(it: Item) {
    && !SortOf(it.letter).Unknown?
    && (it.letter == 'c' ==> it.Count().Some?)
    && (it.Count().Some? && (Countable(it.letter) || it.letter == '!') ==> 1 <= it.Count().value <= 16)
  }

  // The size of an option, which is also its alignment; 0 for one without.
  function Width(it: Item): nat { if it.Count().Some? && Countable(it.letter) then it.Count().value else Usual(it.letter) }

  datatype Mode = Mode(little: bool, maxalign: nat)

  // Byte order and greatest alignment behind an option.
  function Switched(m: Mode, nativeLittle: bool, it: Item): Mode {
    match it.letter
    case '<' => m.(little := true)
    case '>' => m.(little := false)
    case '=' => m.(little := nativeLittle)
    case '!' => m.(maxalign := if it.Count().Some? then it.Count().value else 8)
    case _ => m
  }

  // The padding before something of that size: up to the next multiple of it, or of the greatest
  // alignment, which must be a power of two.
  function Gap(m: Mode, pos: nat, size: nat): (r: Option<nat>)
    ensures r.Some? ==> size <= 1 || (r.value < size && r.value < m.maxalign && (pos + r.value) % (if size < m.maxalign then size else m.maxalign) == 0)
  {
    if size <= 1 || m.maxalign == 1 then Some(0) else
    var a := if size < m.maxalign then size else m.maxalign;
    if a in {2, 4, 8, 16} then Some(UpTo(pos, a)) else None
  }

  function UpTo(pos: nat, a: nat): (r: nat)
    requires a > 0
    ensures r < a && (pos + r) % a == 0
  {
    var r := (0 - pos) % a;
    assert pos + r == (0 - (0 - pos) / a) * a;
    Arith.MultipleMod(0 - (0 - pos) / a, a);
    r
  }

  function Zeros(n: nat): (s: seq<Byte>)
    ensures |s| == n
  {
    seq(n, i => 0)
  }

  function Mirror(s: seq<Byte>): (r: seq<Byte>)
    ensures |r| == |s|
  {
    seq(|s|, i requires 0 <= i < |s| => s[|s| - 1 - i])
  }

  // What an option appends for its argument; None where it refuses it.  float: how the machine
  // stores a number in so many bytes.
  function ValueBytes(float: (nat, nat) -> seq<Byte>, nativeLittle: bool, m: Mode, it: Item, arg: Arg): Option<seq<Byte>> {
    var w := Width(it);
    match SortOf(it.letter)
    case Signed =>
      if arg.Integer? && IsLuaInteger(arg.n) && (w < 8 ==> 0 - Pow256(w) <= 2 * arg.n < Pow256(w))
      then Some(NumberBytes(arg.n, w, m.little)) else None
    case Unsigned =>
      if arg.Integer? && IsLuaInteger(arg.n) && (w < 8 ==> 0 <= arg.n < Pow256(w))
      then Some(NumberBytes(arg.n % 0x1_0000_0000_0000_0000, w, m.little)) else None
    case Float =>
      if arg.Real? then Some(if m.little == nativeLittle then float(w, arg.bits) else Mirror(float(w, arg.bits))) else None
    case Fixed =>
      if arg.Str? && it.Count().Some? then Some(seq(it.Count().value, i requires 0 <= i => if i < |arg.s| then arg.s[i] else 0)) else None
    case Counted =>
      if arg.Str? && IsLuaInteger(|arg.s|) && (w < 8 ==> |arg.s| < Pow256(w)) then Some(NumberBytes(|arg.s|, w, m.little) + arg.s) else None
    case Zeroed => if arg.Str? && 0 !in arg.s then Some(arg.s + [0]) else None
    case _ => None
  }

  predicate IsLuaInteger(n: int) { -0x8000_0000_0000_0000 <= n < 0x8000_0000_0000_0000 }

  predicate TakesArg(it: Item) {
    match SortOf(it.letter) case PadByte => false case AlignAs => false case Setting => false case Unknown => false case _ => true
  }

  // The padding before an option, and what follows it; None where it is refused.
  function Padded(m: Mode, pos: nat, it: Item): Option<seq<Byte>> {
    if !Legal(it) || Gap(m, pos, Width(it)).None? then None else Some(Zeros(Gap(m, pos, Width(it)).value))
  }

  // Behind an 'X': it aligns as this option would.
  function Aligning(m: Mode, pos: nat, it: Item): Option<seq<Byte>> { if Width(it) == 0 then None else Padded(m, pos, it) }

  function OptionBytes(float: (nat, nat) -> seq<Byte>, nativeLittle: bool, m: Mode, pos: nat, it: Item, args: seq<Arg>): Option<seq<Byte>> {
    if !TakesArg(it) then Joined(Padded(m, pos, it), Some(if it.letter == 'x' then [0] else []))
    else if args == [] then None
    else Joined(Padded(m, pos, it), ValueBytes(float, nativeLittle, m, it, args[0]))
  }

  function Joined(a: Option<seq<Byte>>, b: Option<seq<Byte>>): Option<seq<Byte>> {
    if a.None? || b.None? then None else Some(a.value + b.value)
  }

  // What the options of a machine do: the bytes of one, the padding of 'X' before one, whether it
  // takes an argument, and the mode behind it.
  datatype Options = Options(
    bytes: (Mode, nat, Item, seq<Arg>) -> Option<seq<Byte>>,
    align: (Mode, nat, Item) -> Option<seq<Byte>>,
    takes: Item -> bool,
    switch: (Mode, Item) -> Mode)

  function OptionsOf(float: (nat, nat) -> seq<Byte>, nativeLittle: bool): Options {
    Options(
      (m: Mode, pos: nat, it: Item, args: seq<Arg>) => OptionBytes(float, nativeLittle, m, pos, it, args),
      (m: Mode, pos: nat, it: Item) => Aligning(m, pos, it),
      (it: Item) => TakesArg(it),
      (m: Mode, it: Item) => Switched(m, nativeLittle, it))
  }

  // The bytes a list of options appends, from position pos; None where pack raises an error.
  function Meaning(o: Options, m: Mode, pos: nat, items: seq<Item>, args: seq<Arg>): Option<seq<Byte>>
    decreases |items|
  {
    if items == [] then Some([])
    else if items[0].letter == 'X' then
      var z := if |items| == 1 then None else o.align(m, pos, items[1]);
      if z.None? then None else Joined(z, Meaning(o, m, pos + |z.value|, items[2..], args))
    else
      var z := o.bytes(m, pos, items[0], args);
      if z.None? then None
      else Joined(z, Meaning(o, o.switch(m, items[0]), pos + |z.value|, items[1..], if o.takes(items[0]) && args != [] then args[1..] else args))
  }

  // ----- the text

  // A numeral is read only behind some letters; that of 'c' has to be one that is read whole.
  predicate Readable(it: Item) {
    && it.letter != '\0' && !('0' <= it.letter <= '9')
    && (forall i :: 0 <= i < |it.numeral| ==> '0' <= it.numeral[i] <= '9')
    && (it.numeral != [] ==> Countable(it.letter) || it.letter == '!' || it.letter == 'c')
    && (it.letter == 'c' && it.numeral != [] ==> Numeral(it.numeral[..|it.numeral| - 1]) <= 214748363)
  }

  function TextOf(it: Item): string { [it.letter] + it.numeral }

  function Text(items: seq<Item>): string { if items == [] then [] else TextOf(items[0]) + Text(items[1..]) }
}
