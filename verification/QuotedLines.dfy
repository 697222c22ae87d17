/**
 What a line of arguments means, as its grammar tells it: words, quoted text with escapes, and
 blanks between them.  Splitting such a line gives what it means.
 */
module QuotedLines {
  import opened Basics
  import opened Bytes
  import opened QuotedString

  // Within double quotes: a character as it is, behind a backslash, or as two hexadecimal digits.
  datatype Part = Raw(c: Byte) | Slashed(c: Byte) | Hex(high: Byte, low: Byte)

  // A word, perhaps with quoted text at its end.
  datatype Arg = Bare(word: seq<Byte>) | InDoubles(word: seq<Byte>, parts: seq<Part>) | InSingles(word: seq<Byte>, text: seq<Byte>)

  // An argument and the blanks behind it.
  datatype Item = Item(arg: Arg, gap: seq<Byte>)

  predicate Blank(c: Byte) { c == 32 || c == 9 || c == 10 || c == 11 || c == 12 || c == 13 }

  // A word holds no blank that ends it, no quote and no NUL.
  predicate InWord(c: Byte) { c != 32 && c != 9 && c != 10 && c != 13 && c != 34 && c != 39 && c != 0 }

  predicate IsHex(c: Byte) { 48 <= c <= 57 || 65 <= c <= 70 || 97 <= c <= 102 }

  // '0' to '9', 'A' to 'F', 'a' to 'f'
  function HexOf(c: Byte): (n: int)
    ensures IsHex(c) ==> 0 <= n < 16
  {
    if c <= 57 then c - 48 else if c <= 70 then c - 65 + 10 else c - 97 + 10
  }

  predicate PartOk(p: Part) {
    match p
    case Raw(c) => c != 0 && c != 34 && c != 92
    case Slashed(c) => c != 0
    case Hex(a, b) => IsHex(a) && IsHex(b)
  }

  function PartText(p: Part): seq<Byte> {
    match p case Raw(c) => [c] case Slashed(c) => [92, c] case Hex(a, b) => [92, 120, a, b]
  }

  // \n, \r, \t, \b and \a are control characters; any other character behind a backslash is itself.
  function PartMeans(p: Part): Byte
    requires PartOk(p)
  {
    match p
    case Raw(c) => c
    case Slashed(c) => if c == 110 then 10 else if c == 114 then 13 else if c == 116 then 9 else if c == 98 then 8 else if c == 97 then 7 else c
    case Hex(a, b) => 16 * HexOf(a) + HexOf(b)
  }

  function PartsText(ps: seq<Part>): seq<Byte> { if ps == [] then [] else PartText(ps[0]) + PartsText(ps[1..]) }

  predicate TwoHex(s: seq<Byte>) { |s| >= 2 && IsHex(s[0]) && IsHex(s[1]) }

  // Text within double quotes, up to the closing quote.  \x is an x only if no two hexadecimal
  // digits follow.
  predicate PartsOk(ps: seq<Part>) {
    ps == [] || (PartOk(ps[0]) && (ps[0] == Slashed(120) ==> !TwoHex(PartsText(ps[1..]) + [34])) && PartsOk(ps[1..]))
  }

  function PartsMean(ps: seq<Part>): (r: seq<Byte>)
    requires PartsOk(ps)
    ensures |r| == |ps|
  {
    if ps == [] then [] else [PartMeans(ps[0])] + PartsMean(ps[1..])
  }

  // Within single quotes only the quote itself is written behind a backslash.
  function SingleText(s: seq<Byte>): seq<Byte> {
    if s == [] then [] else (if s[0] == 39 then [92, 39] else [s[0]]) + SingleText(s[1..])
  }

  function ArgText(a: Arg): seq<Byte> {
    match a
    case Bare(w) => w
    case InDoubles(w, ps) => w + ([34] + (PartsText(ps) + [34]))
    case InSingles(w, s) => w + ([39] + (SingleText(s) + [39]))
  }

  predicate ArgOk(a: Arg) {
    && (forall i :: 0 <= i < |a.word| ==> InWord(a.word[i]))
    && (a.word != [] ==> !Blank(a.word[0]))
    && match a
       case Bare(w) => w != []
       case InDoubles(_, ps) => PartsOk(ps)
       case InSingles(_, s) => 0 !in s && (s != [] ==> s[|s| - 1] != 92)
  }

  function ArgMeans(a: Arg): seq<Byte>
    requires ArgOk(a)
  {
    match a case Bare(w) => w case InDoubles(w, ps) => w + PartsMean(ps) case InSingles(w, s) => w + s
  }

  predicate GapOk(a: Arg, gap: seq<Byte>) {
    && (forall i :: 0 <= i < |gap| ==> Blank(gap[i]))
    && (gap != [] && a.Bare? ==> !InWord(gap[0]))
  }

  // Blanks stand between any two arguments.
  predicate LineOk(items: seq<Item>) {
    items == [] ||
    (ArgOk(items[0].arg) && GapOk(items[0].arg, items[0].gap) && (|items| > 1 ==> items[0].gap != []) && LineOk(items[1..]))
  }

  function LineText(items: seq<Item>): seq<Byte> {
    if items == [] then [] else ArgText(items[0].arg) + (items[0].gap + LineText(items[1..]))
  }

  function LineMeans(items: seq<Item>): (r: seq<seq<Byte>>)
    requires LineOk(items)
    ensures |r| == |items|
  {
    if items == [] then [] else [ArgMeans(items[0].arg)] + LineMeans(items[1..])
  }

  // ----- reading one argument

  lemma {:induction false} ReadsWord(line: seq<Byte>, i: nat, w: seq<Byte>, cur: seq<Byte>)
    requires Occurs(line, i, w) && forall k :: 0 <= k < |w| ==> InWord(w[k])
    ensures Scan(line, i, Plain, cur) == Scan(line, i + |w|, Plain, cur + w)
    decreases |w|
  {
    if w == [] { assert cur + w == cur; }
    else {
      OccursAt(line, i, w, 0);
      assert w == [w[0]] + w[1..];
      OccursSum(line, i, [w[0]], w[1..]);
      ReadsWord(line, i + 1, w[1..], cur + [w[0]]);
      assert cur + [w[0]] + w[1..] == cur + w;
    }
  }

  // One part, and what follows it.
  lemma ReadsPart(line: seq<Byte>, i: nat, p: Part, rest: seq<Byte>, cur: seq<Byte>)
    requires PartOk(p) && Occurs(line, i, PartText(p) + rest) && rest != [] && (p == Slashed(120) ==> !TwoHex(rest))
    requires |rest| == 1 ==> rest == [34]
    ensures Scan(line, i, Double, cur) == Scan(line, i + |PartText(p)|, Double, cur + [PartMeans(p)])
  {
    var t := PartText(p);
    OccursSum(line, i, t, rest);
    if p == Slashed(120) {
      OccursAt(line, i + 2, rest, 0);
      if |rest| > 1 { OccursAt(line, i + 2, rest, 1); }
    }
    OccursAt(line, i, t, 0);
    if |t| > 1 { OccursAt(line, i, t, 1); }
    if |t| == 4 {
      OccursAt(line, i, t, 2);
      OccursAt(line, i, t, 3);
    }
  }

  lemma PartsLie(line: seq<Byte>, i: nat, t: seq<Byte>, more: seq<Byte>, end: nat) returns (next: nat)
    requires Occurs(line, i, t + more + [34]) && end == i + |t + more|
    ensures next == i + |t| && end == next + |more| && Occurs(line, i, t + (more + [34])) && Occurs(line, next, more + [34])
  {
    next := i + |t|;
    assert t + more + [34] == t + (more + [34]);
    OccursSum(line, i, t, more + [34]);
  }

  lemma {:induction false} ReadsParts(line: seq<Byte>, i: nat, ps: seq<Part>, cur: seq<Byte>, end: nat)
    requires PartsOk(ps) && Occurs(line, i, PartsText(ps) + [34]) && end == i + |PartsText(ps)|
    ensures Scan(line, i, Double, cur) == Scan(line, end, Double, cur + PartsMean(ps))
    decreases |ps|
  {
    if ps == [] { assert cur + PartsMean(ps) == cur; }
    else {
      var t, b, rest := PartText(ps[0]), PartMeans(ps[0]), PartsText(ps[1..]);
      var next := PartsLie(line, i, t, rest, end);
      ReadsPart(line, i, ps[0], rest + [34], cur);
      ReadsParts(line, next, ps[1..], cur + [b], end);
      Regroup(cur, [b], PartsMean(ps[1..]));
    }
  }

  lemma ReadsSingleOne(line: seq<Byte>, i: nat, c: Byte, rest: seq<Byte>, cur: seq<Byte>)
    requires c != 0 && Occurs(line, i, (if c == 39 then [92, 39] else [c]) + rest)
    requires c == 92 ==> rest != [] && rest[0] != 39
    ensures var n := if c == 39 then 2 else 1;
      Occurs(line, i + n, rest) && Scan(line, i, Single, cur) == Scan(line, i + n, Single, cur + [c])
  {
    var t: seq<Byte> := if c == 39 then [92, 39] else [c];
    OccursSum(line, i, t, rest);
    OccursAt(line, i, t, 0);
    if c == 39 { OccursAt(line, i, t, 1); }
    if c == 92 { OccursAt(line, i + 1, rest, 0); }
  }

  // What follows a character of the text never is a bare quote, but at its end.
  lemma SingleBegins(s: seq<Byte>)
    requires s != []
    ensures SingleText(s) != [] && SingleText(s)[0] != 39
  {
  }

  lemma SingleLies(line: seq<Byte>, i: nat, s: seq<Byte>, end: nat) returns (next: nat)
    requires s != [] && 0 !in s && s[|s| - 1] != 92 && Occurs(line, i, SingleText(s) + [39]) && end == i + |SingleText(s)|
    ensures var rest := SingleText(s[1..]) + [39];
      && next == i + (if s[0] == 39 then 2 else 1) && end == next + |SingleText(s[1..])|
      && Occurs(line, i, (if s[0] == 39 then [92, 39] else [s[0]]) + rest) && (s[0] == 92 ==> rest[0] != 39)
  {
    var t, more: seq<Byte> := if s[0] == 39 then [92, 39] else [s[0]], SingleText(s[1..]);
    next := i + |t|;
    assert SingleText(s) + [39] == t + (more + [39]);
    if |s| > 1 { SingleBegins(s[1..]); assert (more + [39])[0] == more[0]; }
  }

  lemma {:induction false} ReadsSingle(line: seq<Byte>, i: nat, s: seq<Byte>, cur: seq<Byte>, end: nat)
    requires 0 !in s && (s != [] ==> s[|s| - 1] != 92) && Occurs(line, i, SingleText(s) + [39]) && end == i + |SingleText(s)|
    ensures Scan(line, i, Single, cur) == Scan(line, end, Single, cur + s)
    decreases |s|
  {
    if s == [] { assert cur + s == cur; }
    else {
      var next := SingleLies(line, i, s, end);
      ReadsSingleOne(line, i, s[0], SingleText(s[1..]) + [39], cur);
      ReadsSingle(line, next, s[1..], cur + [s[0]], end);
      assert cur + [s[0]] + s[1..] == cur + s;
    }
  }

  // Where the scan of an argument ends: behind it, or behind the blank that ends a bare word.
  predicate EndsAt(line: seq<Byte>, e: nat, next: nat) { next == e || (next == e + 1 && At(line, e) != 0 && IsSpace(At(line, e))) }

  predicate Stops(line: seq<Byte>, e: nat, a: Arg) {
    At(line, e) == 0 || (Blank(At(line, e)) && (a.Bare? ==> !InWord(At(line, e))))
  }

  // Where the parts of a quoted argument lie.
  lemma QuotedLies(line: seq<Byte>, i: nat, w: seq<Byte>, q: Byte, body: seq<Byte>, open: nat, close: nat)
    requires Occurs(line, i, w + ([q] + (body + [q]))) && open == i + |w| && close == open + 1 + |body|
    ensures Occurs(line, i, w) && At(line, open) == q
    ensures Occurs(line, open + 1, body) && Occurs(line, open + 1, body + [q]) && At(line, close) == q
  {
    OccursSum(line, i, w, [q] + (body + [q]));
    OccursSum(line, open, [q], body + [q]);
    OccursSum(line, open + 1, body, [q]);
    OccursAt(line, open, [q], 0);
    OccursAt(line, close, [q], 0);
  }

  lemma Opens(line: seq<Byte>, i: nat, cur: seq<Byte>)
    ensures At(line, i) == 34 ==> Scan(line, i, Plain, cur) == Scan(line, i + 1, Double, cur)
    ensures At(line, i) == 39 ==> Scan(line, i, Plain, cur) == Scan(line, i + 1, Single, cur)
  {
  }

  lemma Closes(line: seq<Byte>, i: nat, cur: seq<Byte>)
    requires At(line, i + 1) == 0 || Blank(At(line, i + 1))
    ensures At(line, i) == 34 ==> Scan(line, i, Double, cur) == Token(cur, i + 1)
    ensures At(line, i) == 39 ==> Scan(line, i, Single, cur) == Token(cur, i + 1)
  {
  }

  lemma ReadsDoubles(line: seq<Byte>, i: nat, w: seq<Byte>, ps: seq<Part>, body: seq<Byte>, open: nat, close: nat)
    requires (forall k :: 0 <= k < |w| ==> InWord(w[k])) && PartsOk(ps) && body == PartsText(ps)
    requires open == i + |w| && close == open + 1 + |body|
    requires Occurs(line, i, w + ([34] + (body + [34]))) && (At(line, close + 1) == 0 || Blank(At(line, close + 1)))
    ensures Scan(line, i, Plain, []) == Token(w + PartsMean(ps), close + 1)
  {
    QuotedLies(line, i, w, 34, body, open, close);
    ReadsOpened(line, i, w, open, 34);
    ReadsDoubleBody(line, open + 1, ps, body, w, close);
  }

  lemma ReadsDoubleBody(line: seq<Byte>, i: nat, ps: seq<Part>, body: seq<Byte>, cur: seq<Byte>, close: nat)
    requires PartsOk(ps) && body == PartsText(ps) && Occurs(line, i, body + [34]) && close == i + |body|
    requires At(line, close) == 34 && (At(line, close + 1) == 0 || Blank(At(line, close + 1)))
    ensures Scan(line, i, Double, cur) == Token(cur + PartsMean(ps), close + 1)
  {
    ReadsParts(line, i, ps, cur, close);
    Closes(line, close, cur + PartsMean(ps));
  }

  lemma ReadsOpened(line: seq<Byte>, i: nat, w: seq<Byte>, open: nat, q: Byte)
    requires (forall k :: 0 <= k < |w| ==> InWord(w[k])) && Occurs(line, i, w) && open == i + |w| && At(line, open) == q
    ensures q == 34 ==> Scan(line, i, Plain, []) == Scan(line, open + 1, Double, w)
    ensures q == 39 ==> Scan(line, i, Plain, []) == Scan(line, open + 1, Single, w)
  {
    ReadsWord(line, i, w, []);
    assert [] + w == w;
    Opens(line, open, w);
  }

  lemma ReadsSingles(line: seq<Byte>, i: nat, w: seq<Byte>, s: seq<Byte>, body: seq<Byte>, open: nat, close: nat)
    requires (forall k :: 0 <= k < |w| ==> InWord(w[k])) && body == SingleText(s) && open == i + |w| && close == open + 1 + |body|
    requires 0 !in s && (s != [] ==> s[|s| - 1] != 92)
    requires Occurs(line, i, w + ([39] + (body + [39]))) && (At(line, close + 1) == 0 || Blank(At(line, close + 1)))
    ensures Scan(line, i, Plain, []) == Token(w + s, close + 1)
  {
    QuotedLies(line, i, w, 39, body, open, close);
    ReadsOpened(line, i, w, open, 39);
    ReadsSingleBody(line, open + 1, s, body, w, close);
  }

  lemma ReadsSingleBody(line: seq<Byte>, i: nat, s: seq<Byte>, body: seq<Byte>, cur: seq<Byte>, close: nat)
    requires 0 !in s && (s != [] ==> s[|s| - 1] != 92) && body == SingleText(s) && Occurs(line, i, body + [39]) && close == i + |body|
    requires At(line, close) == 39 && (At(line, close + 1) == 0 || Blank(At(line, close + 1)))
    ensures Scan(line, i, Single, cur) == Token(cur + s, close + 1)
  {
    ReadsSingle(line, i, s, cur, close);
    Closes(line, close, cur + s);
  }

  lemma ReadsBare(line: seq<Byte>, i: nat, w: seq<Byte>) returns (next: nat)
    requires ArgOk(Bare(w)) && Occurs(line, i, w) && Stops(line, i + |w|, Bare(w))
    ensures Scan(line, i, Plain, []) == Token(w, next) && EndsAt(line, i + |w|, next)
  {
    next := i + |w|;
    ReadsWord(line, i, w, []);
    assert [] + w == w;
    if At(line, next) != 0 { next := next + 1; }
  }

  lemma ReadsArg(line: seq<Byte>, i: nat, a: Arg) returns (next: nat)
    requires ArgOk(a) && Occurs(line, i, ArgText(a)) && Stops(line, i + |ArgText(a)|, a)
    ensures Scan(line, i, Plain, []) == Token(ArgMeans(a), next) && EndsAt(line, i + |ArgText(a)|, next)
  {
    match a
    case Bare(w) => next := ReadsBare(line, i, w);
    case InDoubles(w, ps) =>
      next := i + |ArgText(a)|;
      ReadsDoubles(line, i, w, ps, PartsText(ps), i + |w|, next - 1);
    case InSingles(w, t) =>
      next := i + |ArgText(a)|;
      ReadsSingles(line, i, w, t, SingleText(t), i + |w|, next - 1);
  }

  // An argument begins with a character that is no blank.
  lemma ArgBegins(line: seq<Byte>, i: nat, a: Arg)
    requires ArgOk(a) && Occurs(line, i, ArgText(a))
    ensures At(line, i) != 0 && !IsSpace(At(line, i))
  {
    assert ArgText(a) != [];
    OccursAt(line, i, ArgText(a), 0);
    if a.word != [] { assert ArgText(a)[0] == a.word[0] && InWord(a.word[0]); }
  }

  // ----- reading a line

  lemma {:induction false} SkipsGap(line: seq<Byte>, i: nat, gap: seq<Byte>)
    requires Occurs(line, i, gap) && forall k :: 0 <= k < |gap| ==> Blank(gap[k])
    ensures Split(line, i) == Split(line, i + |gap|)
    decreases |gap|
  {
    if gap != [] {
      OccursAt(line, i, gap, 0);
      assert gap == [gap[0]] + gap[1..];
      OccursSum(line, i, [gap[0]], gap[1..]);
      SkipsGap(line, i + 1, gap[1..]);
      SkipsOne(line, i);
    }
  }

  lemma SkipsOne(line: seq<Byte>, i: nat)
    requires At(line, i) != 0 && IsSpace(At(line, i))
    ensures Split(line, i) == Split(line, i + 1)
  {
    assert SkipBlanks(line, i) == SkipBlanks(line, i + 1);
  }

  lemma SplitsArg(line: seq<Byte>, i: nat, a: Arg, means: seq<seq<Byte>>)
    requires ArgOk(a) && Occurs(line, i, ArgText(a)) && Stops(line, i + |ArgText(a)|, a)
    requires Split(line, i + |ArgText(a)|) == Some(means)
    ensures Split(line, i) == Some([ArgMeans(a)] + means)
  {
    var next := ReadsArg(line, i, a);
    ArgBegins(line, i, a);
    assert SkipBlanks(line, i) == i;
    if next != i + |ArgText(a)| { SkipsOne(line, i + |ArgText(a)|); }
  }

  // The first argument and its gap, before whatever the rest is.
  lemma SplitsFirst(line: seq<Byte>, i: nat, a: Arg, gap: seq<Byte>, rest: seq<Byte>, e: nat, next: nat, end: nat, means: seq<seq<Byte>>)
    requires ArgOk(a) && GapOk(a, gap) && (gap == [] ==> rest == []) && e == i + |ArgText(a)| && next == e + |gap| && end == next + |rest|
    requires Occurs(line, i, ArgText(a)) && Occurs(line, e, gap) && At(line, end) == 0
    requires Split(line, next) == Some(means)
    ensures Split(line, i) == Some([ArgMeans(a)] + means)
  {
    if gap != [] { OccursAt(line, e, gap, 0); }
    SkipsGap(line, e, gap);
    SplitsArg(line, i, a, means);
  }

  lemma {:induction false} SplitsItems(line: seq<Byte>, i: nat, items: seq<Item>, end: nat)
    requires LineOk(items) && Occurs(line, i, LineText(items)) && end == i + |LineText(items)| && At(line, end) == 0
    ensures Split(line, i) == Some(LineMeans(items))
    decreases |items|
  {
    if items != [] {
      var a, gap, rest := items[0].arg, items[0].gap, LineText(items[1..]);
      var e, next := RestLies(line, i, ArgText(a), gap, rest, end);
      SplitsItems(line, next, items[1..], end);
      SplitsFirst(line, i, a, gap, rest, e, next, end, LineMeans(items[1..]));
    }
  }

  lemma RestLies(line: seq<Byte>, i: nat, a: seq<Byte>, gap: seq<Byte>, rest: seq<Byte>, end: nat) returns (e: nat, next: nat)
    requires Occurs(line, i, a + (gap + rest)) && end == i + |a + (gap + rest)|
    ensures e == i + |a| && next == e + |gap| && end == next + |rest|
    ensures Occurs(line, i, a) && Occurs(line, e, gap) && Occurs(line, next, rest)
  {
    e, next := i + |a|, i + |a| + |gap|;
    OccursSum(line, i, a, gap + rest);
    OccursSum(line, i + |a|, gap, rest);
  }

  // Whatever the arguments and the blanks between them, splitting the line gives what the
  // arguments mean.  A NUL ends the line.
  method SplitLine(lead: seq<Byte>, items: seq<Item>, tail: seq<Byte>) returns (r: Option<seq<seq<Byte>>>)
    requires LineOk(items) && (forall i :: 0 <= i < |lead| ==> Blank(lead[i])) && (tail == [] || tail[0] == 0)
    ensures r == Some(LineMeans(items))
  {
    var line := lead + LineText(items) + tail;
    SplitsLine(lead, items, tail);
    r := SdsSplitArgs(line);
  }

  lemma SplitsLine(lead: seq<Byte>, items: seq<Item>, tail: seq<Byte>)
    requires LineOk(items) && (forall i :: 0 <= i < |lead| ==> Blank(lead[i])) && (tail == [] || tail[0] == 0)
    ensures Split(lead + LineText(items) + tail, 0) == Some(LineMeans(items))
  {
    var text := LineText(items);
    LeadLies(lead, text, tail);
    SplitsLed(lead + text + tail, lead, text, items);
  }

  lemma SplitsLed(line: seq<Byte>, lead: seq<Byte>, text: seq<Byte>, items: seq<Item>)
    requires LineOk(items) && text == LineText(items) && forall i :: 0 <= i < |lead| ==> Blank(lead[i])
    requires Occurs(line, 0, lead) && Occurs(line, |lead|, text) && At(line, |lead| + |text|) == 0
    ensures Split(line, 0) == Some(LineMeans(items))
  {
    SplitsItems(line, |lead|, items, |lead| + |text|);
    SkipsLead(line, lead, Some(LineMeans(items)));
  }

  lemma SkipsLead(line: seq<Byte>, lead: seq<Byte>, r: Option<seq<seq<Byte>>>)
    requires Occurs(line, 0, lead) && (forall i :: 0 <= i < |lead| ==> Blank(lead[i])) && Split(line, |lead|) == r
    ensures Split(line, 0) == r
  {
    SkipsGap(line, 0, lead);
  }

  lemma LeadLies(lead: seq<Byte>, text: seq<Byte>, tail: seq<Byte>)
    requires tail == [] || tail[0] == 0
    ensures var line := lead + text + tail;
      Occurs(line, 0, lead) && Occurs(line, |lead|, text) && At(line, |lead| + |text|) == 0
  {
  }

  // Words without blanks, quotes and NUL, joined by single blanks.
  function WordItems(ws: seq<seq<Byte>>): (items: seq<Item>)
    ensures |items| == |ws|
  {
    seq(|ws|, i requires 0 <= i < |ws| => Item(Bare(ws[i]), if i < |ws| - 1 then [32] else []))
  }

  lemma {:induction false} WordsMean(ws: seq<seq<Byte>>)
    requires forall i :: 0 <= i < |ws| ==> ArgOk(Bare(ws[i]))
    ensures LineOk(WordItems(ws)) && LineMeans(WordItems(ws)) == ws
  {
    if ws != [] {
      WordsMean(ws[1..]);
      assert WordItems(ws)[1..] == WordItems(ws[1..]);
    }
  }

  method SplitWords(ws: seq<seq<Byte>>) returns (r: Option<seq<seq<Byte>>>)
    requires forall i :: 0 <= i < |ws| ==> ws[i] != [] && forall k :: 0 <= k < |ws[i]| ==> InWord(ws[i][k]) && !Blank(ws[i][k])
    ensures r == Some(ws)
  {
    forall i | 0 <= i < |ws| ensures ArgOk(Bare(ws[i])) { assert InWord(ws[i][0]) && !Blank(ws[i][0]); }
    WordsMean(ws);
    r := SplitLine([], WordItems(ws), []);
  }

  // ----- writing

  // '0' to '9', 'a' to 'f'
  function LowerHex(n: int): Byte
    requires 0 <= n < 16
  {
    if n < 10 then 48 + n else 97 + n - 10
  }

  // The double quote and the backslash stand behind a backslash, five control characters
  // have letters, and what cannot be printed is written as two hexadecimal digits.
  function Shown(isprint: IsPrint, c: Byte): seq<Byte> {
    if c == 34 || c == 92 then [92, c]
    else if c == 10 then [92, 110]
    else if c == 13 then [92, 114]
    else if c == 9 then [92, 116]
    else if c == 7 then [92, 97]
    else if c == 8 then [92, 98]
    else if isprint(c) then [c]
    else [92, 120, LowerHex(c / 16), LowerHex(c % 16)]
  }

  function AllShown(isprint: IsPrint, s: seq<Byte>): seq<Byte> {
    if s == [] then [] else Shown(isprint, s[0]) + AllShown(isprint, s[1..])
  }

  lemma {:induction false} EscapedIsShown(isprint: IsPrint, s: seq<Byte>)
    ensures Escaped(isprint, s) == AllShown(isprint, s)
  {
    if s != [] { EscapedIsShown(isprint, s[1..]); }
  }

  method ShowQuoted(isprint: IsPrint, s: seq<Byte>, data: seq<Byte>) returns (r: seq<Byte>)
    ensures r == s + ([34] + AllShown(isprint, data) + [34])
  {
    EscapedIsShown(isprint, data);
    r := SdsCatRepr(isprint, s, data);
  }
}
