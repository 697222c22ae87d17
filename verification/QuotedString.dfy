/**
 Quoted strings: sdscatrepr writes any bytes as a quoted, printable argument, and
 sdssplitargs splits a line into arguments.  A line is a C string: it ends at its first NUL.
 */
module QuotedString {
  import opened Basics
  import opened Bytes

  const QUOTE: Byte := 34
  const APOSTROPHE: Byte := 39
  const BACKSLASH: Byte := 92
  const BELL: Byte := 7
  const BACKSPACE: Byte := 8
  const TAB: Byte := 9
  const NEWLINE: Byte := 10
  const RETURN: Byte := 13
  const SPACE: Byte := 32
  const LETTER_A: Byte := 97
  const LETTER_B: Byte := 98
  const LETTER_N: Byte := 110
  const LETTER_R: Byte := 114
  const LETTER_T: Byte := 116
  const LETTER_X: Byte := 120

  predicate IsSpace(c: Byte) { c == SPACE || TAB <= c <= RETURN }

  predicate IsHexDigit(c: Byte) { 48 <= c <= 57 || 97 <= c <= 102 || 65 <= c <= 70 }

  function HexDigitToInt(c: Byte): (n: Byte)
    ensures n < 16
  {
    if 48 <= c <= 57 then c - 48 else if 97 <= c <= 102 then c - 87 else if 65 <= c <= 70 then c - 55 else 0
  }

  function HexDigit(n: Byte): (c: Byte)
    requires n < 16
    ensures IsHexDigit(c) && HexDigitToInt(c) == n
  {
    if n < 10 then 48 + n else 87 + n
  }

  // ----- writing

  // isprint depends on the locale; all that matters is that NUL is not printable.
  type IsPrint = p: Byte -> bool | !p(0) witness (_ => false)

  function Escape(isprint: IsPrint, c: Byte): (r: seq<Byte>)
    ensures 1 <= |r| <= 4 && forall b <- r :: b != 0
  {
    if c == BACKSLASH || c == QUOTE then [BACKSLASH, c]
    else if c == NEWLINE then [BACKSLASH, LETTER_N]
    else if c == RETURN then [BACKSLASH, LETTER_R]
    else if c == TAB then [BACKSLASH, LETTER_T]
    else if c == BELL then [BACKSLASH, LETTER_A]
    else if c == BACKSPACE then [BACKSLASH, LETTER_B]
    else if isprint(c) then [c]
    else [BACKSLASH, LETTER_X, HexDigit(c / 16), HexDigit(c % 16)]
  }

  function Escaped(isprint: IsPrint, s: seq<Byte>): seq<Byte> {
    if s == [] then [] else Escape(isprint, s[0]) + Escaped(isprint, s[1..])
  }

  function Repr(isprint: IsPrint, s: seq<Byte>): seq<Byte> { [QUOTE] + Escaped(isprint, s) + [QUOTE] }

  method SdsCatRepr(isprint: IsPrint, s: seq<Byte>, data: seq<Byte>) returns (r: seq<Byte>)
    ensures r == s + Repr(isprint, data)
  {
    r := s + [QUOTE];
    var p := 0;
    while p < |data|
      invariant 0 <= p <= |data|
      invariant r + Escaped(isprint, data[p..]) == s + [QUOTE] + Escaped(isprint, data)
    {
      var c := data[p];
      ghost var rest := Escaped(isprint, data[p + 1..]);
      assert data[p..][1..] == data[p + 1..];
      assert r + Escaped(isprint, data[p..]) == r + Escape(isprint, c) + rest;
      if c == BACKSLASH || c == QUOTE { r := r + [BACKSLASH, c]; }
      else if c == NEWLINE { r := r + [BACKSLASH, LETTER_N]; }
      else if c == RETURN { r := r + [BACKSLASH, LETTER_R]; }
      else if c == TAB { r := r + [BACKSLASH, LETTER_T]; }
      else if c == BELL { r := r + [BACKSLASH, LETTER_A]; }
      else if c == BACKSPACE { r := r + [BACKSLASH, LETTER_B]; }
      else if isprint(c) { r := r + [c]; }
      else { r := r + [BACKSLASH, LETTER_X, HexDigit(c / 16), HexDigit(c % 16)]; }
      p := p + 1;
    }
    assert data[p..] == [] && r == s + [QUOTE] + Escaped(isprint, data);
    r := r + [QUOTE];
  }

  // ----- splitting

  datatype Mode = Plain | Double | Single

  datatype Scanned = Bad | Token(text: seq<Byte>, next: nat)

  // The character at a position; at the end, and after it, the NUL.
  function At(line: seq<Byte>, i: nat): Byte { if i < |line| then line[i] else 0 }

  function Unescape(c: Byte): Byte {
    if c == LETTER_N then NEWLINE
    else if c == LETTER_R then RETURN
    else if c == LETTER_T then TAB
    else if c == LETTER_B then BACKSPACE
    else if c == LETTER_A then BELL
    else c
  }

  predicate HexEscape(line: seq<Byte>, i: nat) {
    At(line, i) == BACKSLASH && At(line, i + 1) == LETTER_X && IsHexDigit(At(line, i + 2)) && IsHexDigit(At(line, i + 3))
  }

  predicate TokenEnd(c: Byte) { c == SPACE || c == NEWLINE || c == RETURN || c == TAB || c == 0 }

  // The rest of one token.
  function Scan(line: seq<Byte>, i: nat, mode: Mode, cur: seq<Byte>): (r: Scanned)
    ensures r.Token? ==> i <= r.next && (i < |line| && line[i] != 0 ==> i < r.next)
    decreases |line| - i
  {
    var c := At(line, i);
    match mode
    case Double =>
      if HexEscape(line, i) then
        Scan(line, i + 4, Double, cur + [HexDigitToInt(At(line, i + 2)) * 16 + HexDigitToInt(At(line, i + 3))])
      else if c == BACKSLASH && At(line, i + 1) != 0 then Scan(line, i + 2, Double, cur + [Unescape(At(line, i + 1))])
      else if c == QUOTE then
        if At(line, i + 1) != 0 && !IsSpace(At(line, i + 1)) then Bad else Token(cur, i + 1)
      else if c == 0 then Bad
      else Scan(line, i + 1, Double, cur + [c])
    case Single =>
      if c == BACKSLASH && At(line, i + 1) == APOSTROPHE then Scan(line, i + 2, Single, cur + [APOSTROPHE])
      else if c == APOSTROPHE then
        if At(line, i + 1) != 0 && !IsSpace(At(line, i + 1)) then Bad else Token(cur, i + 1)
      else if c == 0 then Bad
      else Scan(line, i + 1, Single, cur + [c])
    case Plain =>
      if TokenEnd(c) then Token(cur, if c == 0 then i else i + 1)
      else if c == QUOTE then Scan(line, i + 1, Double, cur)
      else if c == APOSTROPHE then Scan(line, i + 1, Single, cur)
      else Scan(line, i + 1, Plain, cur + [c])
  }

  function SkipBlanks(line: seq<Byte>, i: nat): (j: nat)
    ensures i <= j
    decreases |line| - i
  {
    if At(line, i) != 0 && IsSpace(At(line, i)) then SkipBlanks(line, i + 1) else i
  }

  // The arguments from position i on; None for unbalanced quotes.
  function Split(line: seq<Byte>, i: nat): Option<seq<seq<Byte>>>
    decreases |line| - i
  {
    var j := SkipBlanks(line, i);
    if At(line, j) == 0 then Some([])
    else
      match Scan(line, j, Plain, [])
      case Bad => None
      case Token(text, next) =>
        var rest := Split(line, next);
        if rest.None? then None else Some([text] + rest.value)
  }

  // ----- which lines are refused

  // Where a reader of quotes is: between arguments, in an unquoted one, in double or single
  // quotes or behind a backslash there, or behind a closing quote.
  datatype Where = Between | Word | InDouble | DoubleEscape | InSingle | SingleEscape | Closed

  function Moved(w: Where, c: Byte): Option<Where> {
    match w
    case Between => Some(if IsSpace(c) then Between else if c == QUOTE then InDouble else if c == APOSTROPHE then InSingle else Word)
    case Word =>
      Some(if c == SPACE || c == NEWLINE || c == RETURN || c == TAB then Between
           else if c == QUOTE then InDouble else if c == APOSTROPHE then InSingle else Word)
    case InDouble => Some(if c == BACKSLASH then DoubleEscape else if c == QUOTE then Closed else InDouble)
    case DoubleEscape => Some(InDouble)
    case InSingle => Some(if c == BACKSLASH then SingleEscape else if c == APOSTROPHE then Closed else InSingle)
    case SingleEscape => Some(if c == BACKSLASH then SingleEscape else InSingle)
    case Closed => if IsSpace(c) then Some(Between) else None
  }

  // Every quote is closed, and no closing quote is followed by anything but a blank or the end.
  predicate Balanced(line: seq<Byte>, i: nat, w: Where)
    decreases |line| - i
  {
    if i >= |line| || line[i] == 0 then w.Between? || w.Word? || w.Closed?
    else Moved(w, line[i]).Some? && Balanced(line, i + 1, Moved(w, line[i]).value)
  }

  // What the rest of a line is after a token, or that there is none.
  predicate Agrees(line: seq<Byte>, i: nat, w: Where, r: Scanned) {
    Balanced(line, i, w) <==> r.Token? && Balanced(line, r.next, Between)
  }

  lemma {:induction false} DoubleBalances(line: seq<Byte>, i: nat, cur: seq<Byte>)
    ensures Agrees(line, i, InDouble, Scan(line, i, Double, cur))
    decreases |line| - i
  {
    var c, d := At(line, i), At(line, i + 1);
    if HexEscape(line, i) {
      DoubleBalances(line, i + 4, cur + [HexDigitToInt(At(line, i + 2)) * 16 + HexDigitToInt(At(line, i + 3))]);
      assert Balanced(line, i, InDouble) == Balanced(line, i + 2, InDouble);
      assert Balanced(line, i + 2, InDouble) == Balanced(line, i + 4, InDouble);
    } else if c == BACKSLASH && d != 0 {
      DoubleBalances(line, i + 2, cur + [Unescape(d)]);
      assert Balanced(line, i, InDouble) == Balanced(line, i + 2, InDouble);
    } else if c == QUOTE {
      ClosedThen(line, i + 1);
    } else if c != 0 {
      DoubleBalances(line, i + 1, cur + [c]);
    }
  }

  lemma {:induction false} SingleBalances(line: seq<Byte>, i: nat, cur: seq<Byte>)
    ensures Agrees(line, i, InSingle, Scan(line, i, Single, cur))
    decreases |line| - i
  {
    var c, d := At(line, i), At(line, i + 1);
    if c == BACKSLASH && d == APOSTROPHE {
      SingleBalances(line, i + 2, cur + [APOSTROPHE]);
      assert Balanced(line, i, InSingle) == Balanced(line, i + 2, InSingle);
    } else if c == APOSTROPHE {
      ClosedThen(line, i + 1);
    } else if c != 0 {
      SingleBalances(line, i + 1, cur + [c]);
      if c == BACKSLASH { assert Balanced(line, i + 1, SingleEscape) == Balanced(line, i + 1, InSingle); }
    }
  }

  lemma {:induction false} PlainBalances(line: seq<Byte>, i: nat, cur: seq<Byte>)
    ensures Agrees(line, i, Word, Scan(line, i, Plain, cur))
    decreases |line| - i
  {
    var c := At(line, i);
    if !TokenEnd(c) {
      if c == QUOTE { DoubleBalances(line, i + 1, cur); }
      else if c == APOSTROPHE { SingleBalances(line, i + 1, cur); }
      else { PlainBalances(line, i + 1, cur + [c]); }
    }
  }

  lemma ClosedThen(line: seq<Byte>, i: nat)
    ensures Balanced(line, i, Closed) <==> (At(line, i) == 0 || IsSpace(At(line, i))) && Balanced(line, i, Between)
  {
  }

  lemma {:induction false} BlanksBalance(line: seq<Byte>, i: nat)
    ensures Balanced(line, i, Between) == Balanced(line, SkipBlanks(line, i), Between)
    decreases |line| - i
  {
    if At(line, i) != 0 && IsSpace(At(line, i)) { BlanksBalance(line, i + 1); }
  }

  lemma {:induction false} SplitBalances(line: seq<Byte>, i: nat)
    ensures Split(line, i).Some? <==> Balanced(line, i, Between)
    decreases |line| - i
  {
    var j := SkipBlanks(line, i);
    BlanksBalance(line, i);
    SkipsBlanks(line, i);
    if At(line, j) != 0 {
      assert Balanced(line, j, Between) == Balanced(line, j, Word);
      PlainBalances(line, j, []);
      var r := Scan(line, j, Plain, []);
      if r.Token? { SplitBalances(line, r.next); }
    }
  }

  lemma {:induction false} SkipsBlanks(line: seq<Byte>, i: nat)
    ensures !IsSpace(At(line, SkipBlanks(line, i))) || At(line, SkipBlanks(line, i)) == 0
    decreases |line| - i
  {
    if At(line, i) != 0 && IsSpace(At(line, i)) { SkipsBlanks(line, i + 1); }
  }

  method SdsSplitArgs(line: seq<Byte>) returns (r: Option<seq<seq<Byte>>>)
    ensures r == Split(line, 0)
    ensures r.Some? <==> Balanced(line, 0, Between)
  {
    SplitBalances(line, 0);
    var p := 0;
    var vector: seq<seq<Byte>> := [];
    assert Split(line, 0).Some? ==> [] + Split(line, 0).value == Split(line, 0).value;
    while true
      invariant Split(line, 0) == if Split(line, p).None? then None else Some(vector + Split(line, p).value)
      decreases |line| - p
    {
      ghost var before := p;
      while At(line, p) != 0 && IsSpace(At(line, p))
        invariant before <= p && SkipBlanks(line, before) == SkipBlanks(line, p)
        decreases |line| - p
      {
        p := p + 1;
      }
      if At(line, p) == 0 {
        assert vector + [] == vector;
        return Some(vector);
      }
      var token := GetToken(line, p);
      if token.Bad? { return None; }
      ghost var rest := Split(line, token.next);
      assert rest.Some? ==> vector + ([token.text] + rest.value) == (vector + [token.text]) + rest.value;
      vector := vector + [token.text];
      p := token.next;
    }
  }

  // The loop over one token.
  method GetToken(line: seq<Byte>, start: nat) returns (r: Scanned)
    ensures r == Scan(line, start, Plain, [])
  {
    var p, mode, current := start, Plain, [];
    while true
      invariant Scan(line, p, mode, current) == Scan(line, start, Plain, [])
      decreases |line| - p
    {
      var c := At(line, p);
      match mode {
      case Double =>
        if HexEscape(line, p) {
          current := current + [HexDigitToInt(At(line, p + 2)) * 16 + HexDigitToInt(At(line, p + 3))];
          p := p + 3;
        } else if c == BACKSLASH && At(line, p + 1) != 0 {
          p := p + 1;
          current := current + [Unescape(At(line, p))];
        } else if c == QUOTE {
          if At(line, p + 1) != 0 && !IsSpace(At(line, p + 1)) { return Bad; }
          return Token(current, p + 1);
        } else if c == 0 {
          return Bad;
        } else {
          current := current + [c];
        }
      case Single =>
        if c == BACKSLASH && At(line, p + 1) == APOSTROPHE {
          p := p + 1;
          current := current + [APOSTROPHE];
        } else if c == APOSTROPHE {
          if At(line, p + 1) != 0 && !IsSpace(At(line, p + 1)) { return Bad; }
          return Token(current, p + 1);
        } else if c == 0 {
          return Bad;
        } else {
          current := current + [c];
        }
      case Plain =>
        if TokenEnd(c) { return Token(current, if c == 0 then p else p + 1); }
        if c == QUOTE { mode := Double; }
        else if c == APOSTROPHE { mode := Single; }
        else { current := current + [c]; }
      }
      p := p + 1;
    }
  }

  // ----- round trip

  // One written character is read back.
  lemma ReadsEscape(isprint: IsPrint, line: seq<Byte>, i: nat, c: Byte, cur: seq<Byte>)
    requires Occurs(line, i, Escape(isprint, c))
    ensures Scan(line, i, Double, cur) == Scan(line, i + |Escape(isprint, c)|, Double, cur + [c])
  {
    var e := Escape(isprint, c);
    OccursAt(line, i, e, 0);
    if |e| > 1 { OccursAt(line, i, e, 1); }
    if |e| == 4 {
      OccursAt(line, i, e, 2);
      OccursAt(line, i, e, 3);
      assert HexDigitToInt(e[2]) * 16 + HexDigitToInt(e[3]) == c;
    }
  }

  // A scanner of quoted text that reads every written character back.
  type Scanner = (nat, seq<Byte>) -> Scanned

  predicate ReadsBack(isprint: IsPrint, line: seq<Byte>, scan: Scanner, i: nat, c: Byte, cur: seq<Byte>) {
    Occurs(line, i, Escape(isprint, c)) ==> scan(i, cur) == scan(i + |Escape(isprint, c)|, cur + [c])
  }

  lemma EscapedLies(isprint: IsPrint, line: seq<Byte>, i: nat, s: seq<Byte>, end: nat) returns (next: nat)
    requires s != [] && Occurs(line, i, Escaped(isprint, s)) && end == i + |Escaped(isprint, s)|
    ensures next == i + |Escape(isprint, s[0])| && Occurs(line, i, Escape(isprint, s[0]))
    ensures Occurs(line, next, Escaped(isprint, s[1..])) && end == next + |Escaped(isprint, s[1..])|
  {
    next := i + |Escape(isprint, s[0])|;
    OccursSum(line, i, Escape(isprint, s[0]), Escaped(isprint, s[1..]));
  }

  lemma {:induction false} ReadsEscaped(isprint: IsPrint, line: seq<Byte>, scan: Scanner, i: nat, s: seq<Byte>, cur: seq<Byte>, end: nat)
    requires forall k: nat, c: Byte, t: seq<Byte> :: ReadsBack(isprint, line, scan, k, c, t)
    requires Occurs(line, i, Escaped(isprint, s)) && end == i + |Escaped(isprint, s)|
    ensures scan(i, cur) == scan(end, cur + s)
    decreases |s|
  {
    if s == [] { assert cur + s == cur; }
    else {
      var next := EscapedLies(isprint, line, i, s, end);
      assert ReadsBack(isprint, line, scan, i, s[0], cur);
      ReadsEscaped(isprint, line, scan, next, s[1..], cur + [s[0]], end);
      assert cur + [s[0]] + s[1..] == cur + s;
    }
  }

  function InQuotes(line: seq<Byte>): Scanner { (k: nat, cur: seq<Byte>) => Scan(line, k, Double, cur) }

  lemma InQuotesReads(isprint: IsPrint, line: seq<Byte>)
    ensures forall k: nat, c: Byte, cur: seq<Byte> :: ReadsBack(isprint, line, InQuotes(line), k, c, cur)
  {
    forall k: nat, c: Byte, cur: seq<Byte> ensures ReadsBack(isprint, line, InQuotes(line), k, c, cur) {
      if Occurs(line, k, Escape(isprint, c)) { ReadsEscape(isprint, line, k, c, cur); }
    }
  }

  lemma ReadsQuoted(isprint: IsPrint, line: seq<Byte>, i: nat, s: seq<Byte>, end: nat)
    requires Occurs(line, i, Escaped(isprint, s)) && end == i + |Escaped(isprint, s)|
    ensures InQuotes(line)(i, []) == InQuotes(line)(end, s)
  {
    InQuotesReads(isprint, line);
    ReadsEscaped(isprint, line, InQuotes(line), i, s, [], end);
    assert [] + s == s;
  }

  // A written string, at the end of the line or before a space, is one token.
  lemma ReadsRepr(isprint: IsPrint, line: seq<Byte>, i: nat, s: seq<Byte>)
    requires var e := i + |Repr(isprint, s)|; Occurs(line, i, Repr(isprint, s)) && (e == |line| || IsSpace(line[e]))
    ensures Scan(line, i, Plain, []) == Token(s, i + |Repr(isprint, s)|) && line[i] == QUOTE
  {
    var body := Escaped(isprint, s);
    OccursSum(line, i, [QUOTE] + body, [QUOTE]);
    OccursSum(line, i, [QUOTE], body);
    var close := i + 1 + |body|;
    ReadsQuoted(isprint, line, i + 1, s, close);
    OccursAt(line, i, [QUOTE], 0);
    OccursAt(line, close, [QUOTE], 0);
  }

  // Arguments written one after the other, separated by spaces.
  function Joined(isprint: IsPrint, args: seq<seq<Byte>>): seq<Byte>
    decreases |args|, 0
  {
    if args == [] then [] else Repr(isprint, args[0]) + Rest(isprint, args[1..])
  }

  function Rest(isprint: IsPrint, args: seq<seq<Byte>>): seq<Byte>
    decreases |args|, 1
  {
    if args == [] then [] else [SPACE] + Joined(isprint, args)
  }

  lemma {:induction false} SplitsJoined(isprint: IsPrint, line: seq<Byte>, i: nat, args: seq<seq<Byte>>)
    requires Occurs(line, i, Joined(isprint, args)) && i + |Joined(isprint, args)| == |line|
    ensures Split(line, i) == Some(args)
    decreases |args|, 0
  {
    if args == [] {
      assert Split(line, |line|) == Some([]);
    } else {
      assert [args[0]] + args[1..] == args;
      SplitsNext(isprint, line, i, args[0], args[1..]);
    }
  }

  lemma {:induction false} SplitsNext(isprint: IsPrint, line: seq<Byte>, i: nat, arg: seq<Byte>, args: seq<seq<Byte>>)
    requires var s := Repr(isprint, arg) + Rest(isprint, args); Occurs(line, i, s) && i + |s| == |line|
    ensures Split(line, i) == Some([arg] + args)
    decreases |args|, 2
  {
    var e := RestLies(line, i, Repr(isprint, arg), Rest(isprint, args));
    SplitsRest(isprint, line, e, args);
    SplitsOne(isprint, line, i, arg, args);
  }

  lemma RestLies(line: seq<Byte>, i: nat, r: seq<Byte>, rest: seq<Byte>) returns (e: nat)
    requires Occurs(line, i, r + rest) && i + |r + rest| == |line|
    ensures e == i + |r| && Occurs(line, i, r) && Occurs(line, e, rest) && e + |rest| == |line|
  {
    e := i + |r|;
    OccursSum(line, i, r, rest);
  }

  lemma {:induction false} SplitsRest(isprint: IsPrint, line: seq<Byte>, i: nat, args: seq<seq<Byte>>)
    requires Occurs(line, i, Rest(isprint, args)) && i + |Rest(isprint, args)| == |line|
    ensures Split(line, i) == Some(args) && (i == |line| || IsSpace(line[i]))
    decreases |args|, 1
  {
    if args != [] {
      OccursSum(line, i, [SPACE], Joined(isprint, args));
      OccursAt(line, i, [SPACE], 0);
      SplitsJoined(isprint, line, i + 1, args);
    }
  }

  lemma SplitsOne(isprint: IsPrint, line: seq<Byte>, i: nat, arg: seq<Byte>, args: seq<seq<Byte>>)
    requires var e := i + |Repr(isprint, arg)|; Occurs(line, i, Repr(isprint, arg)) && (e == |line| || IsSpace(line[e]))
    requires Split(line, i + |Repr(isprint, arg)|) == Some(args)
    ensures Split(line, i) == Some([arg] + args)
  {
    ReadsRepr(isprint, line, i, arg);
    assert SkipBlanks(line, i) == i;
  }

  // Whatever the arguments, writing them and splitting the line gives them back.
  lemma ReprRoundTrip(isprint: IsPrint, args: seq<seq<Byte>>)
    ensures Split(Joined(isprint, args), 0) == Some(args)
  {
    SplitsJoined(isprint, Joined(isprint, args), 0, args);
  }

  lemma OneArgument(isprint: IsPrint, s: seq<Byte>)
    ensures Split(Repr(isprint, s), 0) == Some([s])
  {
    assert Joined(isprint, [s]) == Repr(isprint, s) by {
      assert [s][1..] == [];
      assert Repr(isprint, s) + [] == Repr(isprint, s);
    }
    ReprRoundTrip(isprint, [s]);
  }
}
