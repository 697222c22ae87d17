/** The length-prefixed framing of uv_tcp_handle: the parse of a stream, and the reader that does it piece by piece. */
module TcpFraming {
  import opened Bytes
  import Arith
  import opened EndianConv

  // `Parse` is the obvious parse of a whole byte stream.  `Reader` is the incremental parser: head
  // bytes are collected one read after another, a body is collected from the shared read buffer or,
  // when much of it is missing, read straight into the frame buffer.  At every moment it has finished
  // exactly the frames of `Parse` on the bytes received so far, however they were cut into reads.

  const MAX_BUFFER_CAPACITY := 0x7fff_ffff
  const LARGE_UNCOMPLETE_LIMIT := 1024
  const SHARED_READ_BUFFER_SIZE := 65536
  const WORD := 0x1_0000_0000

  // `bytes` is 0 (no framing), 1, 2 or 4.
  datatype HeadOption = HeadOption(endian: Endian, bytes: nat, max: nat) {
    // What set_rwopt lets through; a zero limit has been replaced by the largest one.
    predicate Ok() {
      && (bytes == 0 || bytes == 1 || bytes == 2 || bytes == 4)
      && max <= (if bytes == 0 then 0 else if bytes == 4 then MAX_BUFFER_CAPACITY else Pow256(bytes) - 1)
    }
  }

  datatype Error = NoError | EMsgSize | ENoMem | ReadError(code: int)

  type Frame = seq<Byte>

  datatype Parsed = Parsed(frames: seq<Frame>, error: Error, rest: seq<Byte>)

  // The head as the reader understands it: signed, then stored in 32 unsigned bits.
  function HeadValue(host: Endian, head: seq<Byte>, e: Endian): nat { EndianToInteger(host, head, e) % WORD }

  function Verdict(o: HeadOption, n: nat): Error {
    if n > o.max then EMsgSize else if n >= MAX_BUFFER_CAPACITY then ENoMem else NoError
  }

  type Decoder = seq<Byte> -> nat

  function HeadDecoder(host: Endian, e: Endian): Decoder { head => HeadValue(host, head, e) }

  // What the start of a stream is: not yet a frame, a refused head, or a frame of `size` bytes with its head.
  datatype Start = Short | Bad(error: Error) | Complete(size: nat)

  function StartOf(dec: Decoder, o: HeadOption, s: seq<Byte>): (r: Start)
    ensures r.Complete? ==> o.bytes <= r.size <= |s|
    ensures r.Bad? ==> r.error != NoError
  {
    if |s| < o.bytes then Short
    else
      var n := dec(s[..o.bytes]);
      if Verdict(o, n) != NoError then Bad(Verdict(o, n))
      else if |s| < o.bytes + n then Short
      else Complete(o.bytes + n)
  }

  // The whole-stream parse: the complete frames, the error that stops it, what is left over.
  function Parse(dec: Decoder, o: HeadOption, s: seq<Byte>): Parsed
    requires o.bytes > 0
    decreases |s|
  {
    match StartOf(dec, o, s)
    case Short => Parsed([], NoError, s)
    case Bad(error) => Parsed([], error, s)
    case Complete(size) =>
      var p := Parse(dec, o, s[size..]);
      Parsed([s[o.bytes..size]] + p.frames, p.error, p.rest)
  }

  // No frame is longer than the reader's limit, or than a buffer.
  lemma {:induction false} FramesWithin(dec: Decoder, o: HeadOption, s: seq<Byte>)
    requires o.bytes > 0
    ensures forall f <- Parse(dec, o, s).frames :: |f| <= o.max && |f| < MAX_BUFFER_CAPACITY
    decreases |s|
  {
    var start := StartOf(dec, o, s);
    if start.Complete? { FramesWithin(dec, o, s[start.size..]); }
  }

  lemma StartMore(dec: Decoder, o: HeadOption, s: seq<Byte>, t: seq<Byte>)
    ensures !StartOf(dec, o, s).Short? ==> StartOf(dec, o, s + t) == StartOf(dec, o, s)
  {
    if |s| >= o.bytes { assert (s + t)[..o.bytes] == s[..o.bytes]; }
  }

  // More bytes continue the parse where the complete frames ended; an error is final.
  lemma {:induction false} ParseMore(dec: Decoder, o: HeadOption, s: seq<Byte>, t: seq<Byte>)
    requires o.bytes > 0
    ensures
      var p := Parse(dec, o, s);
      var q := Parse(dec, o, s + t);
      if p.error != NoError then q.frames == p.frames && q.error == p.error
      else
        var r := Parse(dec, o, p.rest + t);
        q.frames == p.frames + r.frames && q.error == r.error && q.rest == r.rest
    decreases |s|
  {
    StartMore(dec, o, s, t);
    match StartOf(dec, o, s)
    case Short => assert Parse(dec, o, s).frames + Parse(dec, o, s + t).frames == Parse(dec, o, s + t).frames;
    case Bad(_) =>
    case Complete(size) =>
      assert (s + t)[size..] == s[size..] + t;
      assert (s + t)[o.bytes..size] == s[o.bytes..size];
      ParseMore(dec, o, s[size..], t);
      var p, f := Parse(dec, o, s[size..]), [s[o.bytes..size]];
      if p.error == NoError {
        assert f + (p.frames + Parse(dec, o, p.rest + t).frames) == (f + p.frames) + Parse(dec, o, p.rest + t).frames;
      }
  }

  // One more piece of the stream, up to the end of a frame at most.
  lemma Advance(dec: Decoder, o: HeadOption, stream: seq<Byte>, data: seq<Byte>)
    requires o.bytes > 0 && Parse(dec, o, stream).error == NoError
    ensures
      var p := Parse(dec, o, stream);
      var r := p.rest + data;
      var q := Parse(dec, o, stream + data);
      match StartOf(dec, o, r)
      case Short => q == Parsed(p.frames, NoError, r)
      case Bad(error) => q.frames == p.frames && q.error == error
      case Complete(size) => size == |r| ==> q == Parsed(p.frames + [r[o.bytes..]], NoError, [])
  {
    ParseMore(dec, o, stream, data);
    var r := Parse(dec, o, stream).rest + data;
    var start := StartOf(dec, o, r);
    if start.Complete? && start.size == |r| {
      assert r[start.size..] == [] && r[o.bytes..start.size] == r[o.bytes..];
      assert Parse(dec, o, []) == Parsed([], NoError, []);
    }
  }

  // The same, by what the reader holds: some of a head, or a whole head and some of its body.
  lemma AdvanceHead(dec: Decoder, o: HeadOption, stream: seq<Byte>, data: seq<Byte>)
    requires o.bytes > 0 && Parse(dec, o, stream).error == NoError && |Parse(dec, o, stream).rest + data| < o.bytes
    ensures Parse(dec, o, stream + data) == Parsed(Parse(dec, o, stream).frames, NoError, Parse(dec, o, stream).rest + data)
  {
    Advance(dec, o, stream, data);
  }

  lemma AdvanceBody(dec: Decoder, o: HeadOption, stream: seq<Byte>, data: seq<Byte>, head: seq<Byte>, body: seq<Byte>)
    requires o.bytes > 0 && Parse(dec, o, stream).error == NoError
    requires |head| == o.bytes && Parse(dec, o, stream).rest + data == head + body
    requires Verdict(o, dec(head)) == NoError ==> |body| <= dec(head)
    ensures var fs, q := Parse(dec, o, stream).frames, Parse(dec, o, stream + data);
      if Verdict(o, dec(head)) != NoError then q.frames == fs && q.error == Verdict(o, dec(head))
      else q == if |body| == dec(head) then Parsed(fs + [body], NoError, []) else Parsed(fs, NoError, head + body)
  {
    Advance(dec, o, stream, data);
    Pieces(head, body);
  }

  lemma Pieces(a: seq<Byte>, b: seq<Byte>)
    ensures (a + b)[..|a|] == a && (a + b)[|a|..] == b
  {
  }

  lemma Rejoined(a: seq<Byte>, b: seq<Byte>, used: nat, s: seq<Byte>)
    requires used <= |b| && a + b == s
    ensures a + b[..used] + b[used..] == s
  {
  }

  class Reader {
    const host: Endian
    const option: HeadOption
    var headBytes: nat
    var head: array<Byte>            // m_read_head_buffer
    var readBytes: nat
    var bufferValid: bool
    var buffer: seq<Byte>            // the content of m_read_buffer; its capacity is `cap`
    var cap: nat
    var error: Error
    var frames: seq<Frame>           // the frames finished so far, in order
    ghost var stream: seq<Byte>      // every byte received so far

    function Dec(): Decoder { HeadDecoder(host, option.endian) }

    // The bytes received since the last complete frame.
    function Partial(): seq<Byte>
      reads this, head
      requires headBytes <= head.Length
    {
      head[..headBytes] + if bufferValid then buffer else []
    }

    // Between two frames or inside a head (no buffer), or inside a body (head complete).
    predicate Collecting()
      reads this, head
    {
      && headBytes <= option.bytes <= head.Length
      && (bufferValid <==> headBytes == option.bytes)
      && (bufferValid ==> cap == readBytes == Dec()(head[..headBytes]) && Verdict(option, readBytes) == NoError)
    }

    ghost predicate Valid()
      reads this, head
    {
      && option.Ok() && option.bytes > 0 && head.Length == 4
      && (error == NoError ==> Collecting() && (bufferValid ==> |buffer| < cap))
      && var p := Parse(Dec(), option, stream);
         p.frames == frames && p.error == error && (error == NoError ==> p.rest == Partial())
    }

    constructor (host: Endian, option: HeadOption)
      requires option.Ok() && option.bytes > 0
      ensures Valid() && fresh(head) && this.host == host && this.option == option && frames == [] && stream == [] && error == NoError
    {
      this.host, this.option := host, option;
      headBytes, readBytes, bufferValid, buffer, cap, error, frames, stream := 0, 0, false, [], 0, NoError, [], [];
      head := new Byte[4](_ => 0);
    }

    function WriteSize(): nat
      reads this
    {
      if bufferValid && |buffer| <= cap then cap - |buffer| else 0
    }

    // Where libuv may put the next bytes, and how many.
    function OnReadAlloc(): (bool, nat)
      reads this
    {
      if WriteSize() < LARGE_UNCOMPLETE_LIMIT then (false, SHARED_READ_BUFFER_SIZE) else (true, WriteSize())
    }

    // write_read_buffer_finish(UV_OK): the frame buffer is handed on.
    method Finish()
      modifies this`frames, this`bufferValid, this`buffer, this`headBytes, this`readBytes
      ensures frames == old(frames) + [old(buffer)] && !bufferValid && buffer == [] && headBytes == 0 && readBytes == 0
    {
      frames := frames + [buffer];
      bufferValid, buffer := false, [];
      headBytes, readBytes := 0, 0;
    }

    // Body bytes, from either path; a full buffer is a frame.
    method AddBody(data: seq<Byte>)
      requires Valid() && error == NoError && bufferValid && |buffer| + |data| <= cap
      modifies this
      ensures Valid() && head == old(head) && stream == old(stream) + data && error == NoError
    {
      ghost var h := head[..headBytes];
      BodyAdvances(data);
      stream := stream + data;
      buffer := buffer + data;
      CloseFrame(h);
    }

    lemma BodyAdvances(data: seq<Byte>)
      requires Valid() && error == NoError && bufferValid && |buffer| + |data| <= cap
      ensures headBytes == option.bytes <= head.Length && cap == readBytes == Dec()(head[..headBytes]) && Verdict(option, cap) == NoError
      ensures Parse(Dec(), option, stream + data) ==
        if |buffer + data| == cap then Parsed(frames + [buffer + data], NoError, [])
        else Parsed(frames, NoError, head[..headBytes] + (buffer + data))
    {
      assert Partial() + data == head[..headBytes] + (buffer + data);
      AdvanceBody(Dec(), option, stream, data, head[..headBytes], buffer + data);
    }

    // A full frame buffer is handed on.
    method CloseFrame(ghost h: seq<Byte>)
      requires option.Ok() && option.bytes > 0 && head.Length == 4 && error == NoError && bufferValid && |buffer| <= cap
      requires headBytes == option.bytes && h == head[..headBytes] && cap == readBytes == Dec()(h) && Verdict(option, cap) == NoError
      requires Parse(Dec(), option, stream) ==
        if |buffer| == cap then Parsed(frames + [buffer], NoError, []) else Parsed(frames, NoError, h + buffer)
      modifies this
      ensures Valid() && head == old(head) && stream == old(stream) && error == NoError
    {
      if cap - |buffer| == 0 {
        Finish();
        assert Partial() == [];
      }
    }

    // The direct path: the bytes are already in the frame buffer.
    method WriteDirect(data: seq<Byte>)
      requires Valid() && error == NoError && OnReadAlloc().0 && 0 < |data| <= OnReadAlloc().1
      modifies this
      ensures Valid() && head == old(head) && stream == old(stream) + data && error == NoError
    {
      AddBody(data);
    }

    // Head bytes that do not complete the head.
    method AddHead(data: seq<Byte>)
      requires Valid() && error == NoError && headBytes + |data| < option.bytes
      modifies this, head
      ensures Valid() && head == old(head) && stream == old(stream) + data && error == NoError
    {
      assert Partial() == head[..headBytes];
      AdvanceHead(Dec(), option, stream, data);
      CopyIn(data);
      stream := stream + data;
      headBytes := headBytes + |data|;
      assert Partial() == head[..headBytes];
    }

    // memcpy into the head buffer.
    method CopyIn(data: seq<Byte>)
      requires headBytes + |data| <= head.Length
      modifies head
      ensures head[..headBytes + |data|] == old(head[..headBytes]) + data
    {
      for i := 0 to |data|
        invariant head[..headBytes + i] == old(head[..headBytes]) + data[..i]
      {
        head[headBytes + i] := data[i];
      }
      assert data[..|data|] == data;
    }

    // The last head bytes: the length is decoded and the frame buffer made, or refused.
    // An empty frame is complete at once.
    method EndHead(data: seq<Byte>)
      requires Valid() && error == NoError && headBytes < option.bytes && headBytes + |data| == option.bytes
      modifies this, head
      ensures Valid() && head == old(head) && stream == old(stream) + data
      ensures error == NoError ==> bufferValid || headBytes == 0
    {
      ghost var r := head[..headBytes] + data;
      assert Partial() == head[..headBytes] && r + [] == r;
      AdvanceBody(Dec(), option, stream, data, r, []);
      CopyIn(data);
      stream := stream + data;
      headBytes := option.bytes;
      readBytes := HeadValue(host, head[..headBytes], option.endian);
      OpenFrame(r);
    }

    // The frame buffer for a complete head.
    method OpenFrame(ghost r: seq<Byte>)
      requires option.Ok() && option.bytes > 0 && head.Length == 4 && error == NoError && !bufferValid
      requires headBytes == option.bytes && r == head[..headBytes] && readBytes == Dec()(r)
      requires var q := Parse(Dec(), option, stream);
        if Verdict(option, readBytes) != NoError then q.frames == frames && q.error == Verdict(option, readBytes)
        else q == if readBytes == 0 then Parsed(frames + [[]], NoError, []) else Parsed(frames, NoError, r)
      modifies this
      ensures Valid() && head == old(head) && stream == old(stream)
      ensures error == NoError ==> bufferValid || headBytes == 0
    {
      if readBytes > option.max {
        error := EMsgSize;
        return;
      }
      if readBytes >= MAX_BUFFER_CAPACITY {
        error := ENoMem;
        return;
      }
      bufferValid, buffer, cap := true, [], readBytes;
      if cap == 0 {
        Finish();
        assert Partial() == [];
      } else {
        assert Partial() == r;
      }
    }

    // As much of the head as there is.
    method HeadPart(data: seq<Byte>) returns (used: nat)
      requires Valid() && error == NoError && headBytes < option.bytes && data != []
      modifies this, head
      ensures 0 < used <= |data| && Valid() && head == old(head) && stream == old(stream) + data[..used]
      ensures used < |data| && error == NoError ==> bufferValid || headBytes == 0
    {
      var unread := option.bytes - headBytes;
      if |data| < unread {
        assert data[..|data|] == data;
        AddHead(data);
        return |data|;
      }
      EndHead(data[..unread]);
      used := unread;
    }

    // As much of the body as there is.
    method BodyPart(data: seq<Byte>) returns (used: nat)
      requires Valid() && error == NoError && bufferValid && data != []
      modifies this
      ensures 0 < used <= |data| && Valid() && error == NoError && head == old(head) && stream == old(stream) + data[..used]
    {
      var unread := cap - |buffer|;
      used := if |data| >= unread then unread else |data|;
      AddBody(data[..used]);
    }

    // One turn of the loop: the head if it is not complete, then the body.
    method Turn(data: seq<Byte>) returns (used: nat)
      requires Valid() && error == NoError && data != []
      modifies this, head
      ensures 0 < used <= |data| && Valid() && head == old(head) && stream == old(stream) + data[..used]
    {
      if headBytes == option.bytes {
        used := BodyPart(data);
        return;
      }
      used := HeadPart(data);
      if used < |data| && error == NoError && bufferValid {
        var more := BodyPart(data[used..]);
        TakeTwice(old(stream), data, used, more);
        used := used + more;
      }
    }

    lemma TakeTwice(s: seq<Byte>, data: seq<Byte>, i: nat, j: nat)
      requires i + j <= |data|
      ensures s + data[..i] + data[i..][..j] == s + data[..i + j]
    {
    }

    // After a refused head the rest of the read is not looked at.
    method Discard(data: seq<Byte>)
      requires Valid() && (error == NoError ==> data == [])
      modifies `stream
      ensures Valid() && stream == old(stream) + data
    {
      ParseMore(Dec(), option, stream, data);
      assert data == [] ==> stream + data == stream;
      stream := stream + data;
    }

    // write_read_buffer on the shared read buffer: heads and bodies as they come.
    method WriteShared(chunk: seq<Byte>)
      requires Valid() && error == NoError
      modifies this, head
      ensures Valid() && head == old(head) && stream == old(stream) + chunk
    {
      ghost var before := stream;
      var rest := chunk;
      while rest != [] && error == NoError
        invariant Valid() && head == old(head) && stream + rest == before + chunk
        decreases |rest|
      {
        ghost var was := stream;
        var used := Turn(rest);
        Rejoined(was, rest, used, before + chunk);
        rest := rest[used..];
      }
      Discard(rest);
    }
  }

  // A stream delivered in reads of any sizes libuv may choose, each into the place
  // OnReadAlloc names: the reader finishes exactly the frames of the whole-stream parse.
  method Receive(r: Reader, s: seq<Byte>)
    requires r.Valid() && r.stream == [] && r.error == NoError
    modifies r, r.head
    ensures r.frames == Parse(r.Dec(), r.option, s).frames && r.error == Parse(r.Dec(), r.option, s).error
    ensures r.error == NoError ==> r.Valid() && r.Partial() == Parse(r.Dec(), r.option, s).rest
    ensures forall f <- r.frames :: |f| <= r.option.max && |f| < MAX_BUFFER_CAPACITY
  {
    var pos := 0;
    while pos < |s| && r.error == NoError
      invariant 0 <= pos <= |s| && r.Valid() && r.head == old(r.head) && r.stream == s[..pos]
    {
      var (direct, room) := r.OnReadAlloc();
      var k :| 1 <= k <= room && k <= |s| - pos;
      assert s[..pos + k] == s[..pos] + s[pos..pos + k];
      if direct { r.WriteDirect(s[pos..pos + k]); } else { r.WriteShared(s[pos..pos + k]); }
      pos := pos + k;
    }
    assert s[..pos] + s[pos..] == s;
    ParseMore(r.Dec(), r.option, s[..pos], s[pos..]);
    if r.error == NoError { assert s[..pos] == s; }
    FramesWithin(r.Dec(), r.option, s);
  }

  // ----- what the writer sends

  // write_handle: the head is the length in the head's byte order.
  function Wire(o: HeadOption, payloads: seq<Frame>): seq<Byte> {
    if payloads == [] then []
    else Encoded(|payloads[0]|, o.bytes, o.endian) + payloads[0] + Wire(o, payloads[1..])
  }

  // The length check made before a write.
  predicate Writable(o: HeadOption, p: Frame) { |p| <= o.max }

  // The length fits the head as a signed number and a frame buffer can be made for it.
  predicate Deliverable(o: HeadOption, p: Frame) {
    |p| <= o.max && 2 * |p| < Pow256(o.bytes) && |p| < MAX_BUFFER_CAPACITY
  }

  // Why a payload is refused: too long for the reader's limit or its head, or for a buffer.
  function Refusal(o: HeadOption, p: Frame): Error {
    if |p| > o.max || 2 * |p| >= Pow256(o.bytes) then EMsgSize else ENoMem
  }

  function FirstBad(o: HeadOption, payloads: seq<Frame>): (k: nat)
    ensures k <= |payloads|
    ensures forall i :: 0 <= i < k ==> Deliverable(o, payloads[i])
    ensures k < |payloads| ==> !Deliverable(o, payloads[k])
  {
    if payloads == [] || !Deliverable(o, payloads[0]) then 0 else 1 + FirstBad(o, payloads[1..])
  }

  lemma Pow256Values()
    ensures Pow256(1) == 256 && Pow256(2) == 65536 && Pow256(4) == WORD
  {
    assert Pow256(0) == 1;
  }

  lemma SignedInWord(n: nat, p: nat)
    requires n < p <= WORD
    ensures (if 2 * n >= p then n - p else n) % WORD == if 2 * n >= p then n - p + WORD else n
  {
    if 2 * n >= p { Arith.DivUnique(n - p, -1, n - p + WORD, WORD); } else { Arith.DivUnique(n, 0, n, WORD); }
  }

  // What the reader makes of the head the writer wrote: the length, unless its top bit is
  // set, and then a number above every limit.
  lemma HeadOf(host: Endian, o: HeadOption, p: Frame)
    requires o.Ok() && o.bytes > 0 && |p| < Pow256(o.bytes)
    ensures
      var n := HeadDecoder(host, o.endian)(Encoded(|p|, o.bytes, o.endian));
      if 2 * |p| < Pow256(o.bytes) then n == |p| else n > o.max
  {
    var size := Pow256(o.bytes);
    HeadSize(o, |p|);
    EndianRoundTrip(host, |p|, o.bytes, o.endian);
    Arith.DivUnique(|p|, 0, |p|, size);
    SignedInWord(|p|, size);
  }

  lemma HeadSize(o: HeadOption, n: nat)
    requires o.Ok() && o.bytes > 0 && n < Pow256(o.bytes)
    ensures Pow256(o.bytes) <= WORD && o.max < WORD / 2
    ensures Pow256(o.bytes) < WORD ==> o.max <= 65535 && Pow256(o.bytes) <= 65536
  {
    Pow256Values();
  }

  lemma StartOfFrame(host: Endian, o: HeadOption, p: Frame, t: seq<Byte>)
    requires o.Ok() && o.bytes > 0 && |p| < Pow256(o.bytes)
    ensures
      StartOf(HeadDecoder(host, o.endian), o, Encoded(|p|, o.bytes, o.endian) + p + t) ==
      if Deliverable(o, p) then Complete(o.bytes + |p|) else Bad(Refusal(o, p))
  {
    HeadOf(host, o, p);
    var h := Encoded(|p|, o.bytes, o.endian);
    assert (h + p + t)[..o.bytes] == h;
  }

  // All payloads before the first undeliverable one are read; that one is refused.
  predicate StopsAtFirstBad(o: HeadOption, payloads: seq<Frame>, q: Parsed) {
    var k := FirstBad(o, payloads);
    && q.frames == payloads[..k]
    && (k == |payloads| ==> q.error == NoError && q.rest == [])
    && (k < |payloads| ==> q.error == Refusal(o, payloads[k]))
  }

  lemma {:induction false} FramesToFirstBad(host: Endian, o: HeadOption, payloads: seq<Frame>)
    requires o.Ok() && o.bytes > 0 && forall i :: 0 <= i < |payloads| ==> |payloads[i]| < Pow256(o.bytes)
    ensures StopsAtFirstBad(o, payloads, Parse(HeadDecoder(host, o.endian), o, Wire(o, payloads)))
  {
    if payloads != [] {
      var p, rest := payloads[0], payloads[1..];
      if Deliverable(o, p) {
        FirstFrame(host, o, p, Wire(o, rest));
        FramesToFirstBad(host, o, rest);
        GoodFirst(o, payloads, Parse(HeadDecoder(host, o.endian), o, Wire(o, rest)));
      } else {
        StartOfFrame(host, o, p, Wire(o, rest));
      }
    }
  }

  lemma GoodFirst(o: HeadOption, payloads: seq<Frame>, q: Parsed)
    requires payloads != [] && Deliverable(o, payloads[0]) && StopsAtFirstBad(o, payloads[1..], q)
    ensures StopsAtFirstBad(o, payloads, Parsed([payloads[0]] + q.frames, q.error, q.rest))
  {
    assert payloads[..FirstBad(o, payloads)] == [payloads[0]] + payloads[1..][..FirstBad(o, payloads[1..])];
  }

  // A deliverable payload is read first, and the parse goes on behind it.
  lemma FirstFrame(host: Endian, o: HeadOption, p: Frame, t: seq<Byte>)
    requires o.Ok() && o.bytes > 0 && Deliverable(o, p)
    ensures var dec := HeadDecoder(host, o.endian); var q := Parse(dec, o, t);
      Parse(dec, o, Encoded(|p|, o.bytes, o.endian) + p + t) == Parsed([p] + q.frames, q.error, q.rest)
  {
    var h := Encoded(|p|, o.bytes, o.endian);
    StartOfFrame(host, o, p, t);
    Pieces(h + p, t);
    assert (h + p + t)[o.bytes..o.bytes + |p|] == p;
  }

  // The round trip, for payloads of any lengths a head can say, whatever the writer's limit: the frames are the
  // payloads up to the first that is not deliverable, and that one stops the parse with an
  // error, never with a wrong frame.  So the round trip is complete iff all are deliverable.
  lemma FramingRoundTrip(host: Endian, o: HeadOption, payloads: seq<Frame>)
    requires o.Ok() && o.bytes > 0 && forall i :: 0 <= i < |payloads| ==> |payloads[i]| < Pow256(o.bytes)
    ensures StopsAtFirstBad(o, payloads, Parse(HeadDecoder(host, o.endian), o, Wire(o, payloads)))
    ensures Parse(HeadDecoder(host, o.endian), o, Wire(o, payloads)).frames == payloads <==>
      forall i :: 0 <= i < |payloads| ==> Deliverable(o, payloads[i])
  {
    FramesToFirstBad(host, o, payloads);
    assert payloads[..|payloads|] == payloads;
  }

  // What a writer may send fits the head, and its limit does not show on the wire.
  lemma {:induction false} WriterFits(w: HeadOption, o: HeadOption, payloads: seq<Frame>)
    requires w.Ok() && w.bytes == o.bytes && w.endian == o.endian && o.bytes > 0
    requires forall i :: 0 <= i < |payloads| ==> Writable(w, payloads[i])
    ensures Wire(w, payloads) == Wire(o, payloads) && forall i :: 0 <= i < |payloads| ==> |payloads[i]| < Pow256(o.bytes)
  {
    Pow256Values();
    if payloads != [] { WriterFits(w, o, payloads[1..]); }
  }

  // Writer and reader together, each with its own limit: whatever the pieces the wire is cut into,
  // the reader has finished the payloads up to the first that it cannot take, all of them iff it
  // can take all, and a payload longer than its limit is refused as too long.
  method ReceiveWire(r: Reader, w: HeadOption, payloads: seq<Frame>)
    requires r.Valid() && r.stream == [] && r.error == NoError
    requires w.Ok() && w.bytes == r.option.bytes && w.endian == r.option.endian
    requires forall i :: 0 <= i < |payloads| ==> Writable(w, payloads[i])
    modifies r, r.head
    ensures var k := FirstBad(r.option, payloads);
      && r.frames == payloads[..k]
      && (k < |payloads| && |payloads[k]| > r.option.max ==> r.error == EMsgSize)
    ensures r.frames == payloads <==> forall i :: 0 <= i < |payloads| ==> Deliverable(r.option, payloads[i])
    ensures r.error == NoError <==> r.frames == payloads
    ensures r.error == NoError ==> r.Valid() && r.Partial() == []
  {
    WriterFits(w, r.option, payloads);
    FramingRoundTrip(r.host, r.option, payloads);
    Receive(r, Wire(w, payloads));
  }

  // The largest limit set_rwopt accepts for a one-byte head lets a payload through that no
  // reader with the same option can take.
  lemma LargestLimitIsTooLarge(host: Endian, p: Frame)
    requires |p| == 128
    ensures var o := HeadOption(LittleEndian, 1, 255);
      o.Ok() && Writable(o, p) && Parse(HeadDecoder(host, o.endian), o, Wire(o, [p])) .frames == []
      && Parse(HeadDecoder(host, o.endian), o, Wire(o, [p])).error == EMsgSize
  {
    var o := HeadOption(LittleEndian, 1, 255);
    Pow256Values();
    FramingRoundTrip(host, o, [p]);
  }
}
