/** Cutting a client's byte stream into request lines (the data handler of `accept`). */
module Framing {
  import opened Text

  /**
   What a stream reads as: its complete lines up to the first oversized one, whether there is one, and what follows.
   */
  datatype Reading = Reading(lines: seq<string>, oversized: bool, tail: string)

  function Newline(s: string): (i: nat)
    ensures i <= |s| && '\n' !in s[..i] && (i < |s| ==> s[i] == '\n')
  {
    if s == [] || s[0] == '\n' then 0 else 1 + Newline(s[1..])
  }

  function Read(s: string, max: nat): (r: Reading)
    decreases |s|
  {
    var i := Newline(s);
    if i == |s| then Reading([], false, s)
    else if ByteLength(s[..i]) > max then Reading([], true, s[i + 1..])
    else Following([s[..i]], Read(s[i + 1..], max))
  }

  function Following(lines: seq<string>, r: Reading): Reading { r.(lines := lines + r.lines) }

  // ------------------------------------------------------ what a reading is

  function Unlines(lines: seq<string>): string {
    if lines == [] then "" else lines[0] + "\n" + Unlines(lines[1..])
  }

  predicate Line(s: string) { '\n' !in s }

  predicate AllFit(lines: seq<string>, max: nat) {
    forall i :: 0 <= i < |lines| ==> Line(lines[i]) && ByteLength(lines[i]) <= max
  }

  lemma {:induction false} NewlineAt(line: string, rest: string)
    requires Line(line)
    ensures var s := line + "\n" + rest; Newline(s) == |line| && s[..|line|] == line && s[|line| + 1..] == rest
  {
    var s := line + "\n" + rest;
    if line != "" {
      assert s[1..] == line[1..] + "\n" + rest;
      NewlineAt(line[1..], rest);
    }
  }

  /** Reading a first line and then the rest. */
  lemma ReadLine(line: string, rest: string, max: nat)
    requires Line(line)
    ensures Read(line + "\n" + rest, max) == if ByteLength(line) > max then Reading([], true, rest)
            else Following([line], Read(rest, max))
  {
    NewlineAt(line, rest);
  }

  lemma NoNewline(s: string)
    ensures Newline(s) == |s| <==> Line(s)
  {
    assert s[..|s|] == s;
  }

  lemma CutAt(s: string, i: nat)
    requires i < |s| && s[i] == '\n'
    ensures s == s[..i] + "\n" + s[i + 1..]
  {
    assert s[i..] == "\n" + s[i + 1..];
    assert s == s[..i] + s[i..];
  }

  lemma Pieces(s: string)
    requires Newline(s) < |s|
    ensures s == s[..Newline(s)] + "\n" + s[Newline(s) + 1..]
  {
    CutAt(s, Newline(s));
  }

  lemma UnlinesPlus(lines: seq<string>, tail: string)
    requires lines != []
    ensures Unlines(lines) + tail == lines[0] + "\n" + (Unlines(lines[1..]) + tail)
  {}

  lemma LineThen(line: string, lines: seq<string>, rest: string)
    ensures Unlines([line] + lines) + rest == line + "\n" + (Unlines(lines) + rest)
  {
    UnlinesPlus([line] + lines, rest);
    assert ([line] + lines)[1..] == lines;
  }

  lemma FitsThen(line: string, lines: seq<string>, max: nat)
    requires Line(line) && ByteLength(line) <= max && AllFit(lines, max)
    ensures AllFit([line] + lines, max)
  {}

  lemma HeldLine(a: string, b: string)
    ensures Line(a + b) <==> Line(a) && Line(b)
  {
    assert forall c: char :: c in a + b <==> c in a || c in b;
  }

  /** A stream without an oversized line is made of the lines and the tail it reads as, ... */
  lemma {:induction false} ReadIsPieces(s: string, max: nat)
    requires !Read(s, max).oversized
    ensures var r := Read(s, max);
            s == Unlines(r.lines) + r.tail && Line(r.tail) && AllFit(r.lines, max)
    decreases |s|
  {
    NoNewline(s);
    var i := Newline(s);
    if i == |s| {
      assert Unlines([]) + s == s;
    } else {
      Pieces(s);
      ReadIsPieces(s[i + 1..], max);
      var r := Read(s[i + 1..], max);
      LineThen(s[..i], r.lines, r.tail);
      FitsThen(s[..i], r.lines, max);
    }
  }

  /** ... and is the only reading of those pieces. */
  lemma {:induction false} PiecesRead(lines: seq<string>, tail: string, max: nat)
    requires Line(tail) && AllFit(lines, max)
    ensures Read(Unlines(lines) + tail, max) == Reading(lines, false, tail)
    decreases |lines|
  {
    if lines == [] {
      assert Unlines(lines) + tail == tail;
      NoNewline(tail);
    } else {
      UnlinesPlus(lines, tail);
      NewlineAt(lines[0], Unlines(lines[1..]) + tail);
      PiecesRead(lines[1..], tail, max);
      assert lines == [lines[0]] + lines[1..];
    }
  }

  lemma ReadIff(s: string, max: nat, lines: seq<string>, tail: string)
    ensures Read(s, max) == Reading(lines, false, tail) <==>
            s == Unlines(lines) + tail && Line(tail) && AllFit(lines, max)
  {
    if Read(s, max) == Reading(lines, false, tail) { ReadIsPieces(s, max); }
    if s == Unlines(lines) + tail && Line(tail) && AllFit(lines, max) { PiecesRead(lines, tail, max); }
  }

  /** With an oversized line it reads as the lines before the first such line. */
  lemma {:induction false} ReadOversizedIff(s: string, max: nat, lines: seq<string>)
    ensures Read(s, max).oversized && Read(s, max).lines == lines <==>
            AllFit(lines, max)
            && exists big, rest :: Line(big) && ByteLength(big) > max && s == Unlines(lines) + (big + "\n" + rest)
    decreases |s|
  {
    if Read(s, max).oversized { var big, rest := OversizedGivesPieces(s, max); }
    if AllFit(lines, max)
       && exists big, rest :: Line(big) && ByteLength(big) > max && s == Unlines(lines) + (big + "\n" + rest) {
      var big, rest :| Line(big) && ByteLength(big) > max && s == Unlines(lines) + (big + "\n" + rest);
      PiecesReadOversized(lines, big, rest, max);
    }
  }

  lemma {:induction false} OversizedGivesPieces(s: string, max: nat) returns (big: string, rest: string)
    requires Read(s, max).oversized
    ensures AllFit(Read(s, max).lines, max) && Line(big) && ByteLength(big) > max
    ensures s == Unlines(Read(s, max).lines) + (big + "\n" + rest)
    decreases |s|
  {
    var line, more := s[..Newline(s)], s[Newline(s) + 1..];
    NoNewline(s);
    Pieces(s);
    if ByteLength(line) > max {
      big, rest := line, more;
      assert Unlines([]) + (big + "\n" + rest) == big + "\n" + rest;
    } else {
      big, rest := OversizedGivesPieces(more, max);
      LineThen(line, Read(more, max).lines, big + "\n" + rest);
      FitsThen(line, Read(more, max).lines, max);
    }
  }

  lemma {:induction false} PiecesReadOversized(lines: seq<string>, big: string, rest: string, max: nat)
    requires Line(big) && ByteLength(big) > max && AllFit(lines, max)
    ensures Read(Unlines(lines) + (big + "\n" + rest), max) == Reading(lines, true, rest)
    decreases |lines|
  {
    if lines == [] {
      assert Unlines(lines) + (big + "\n" + rest) == big + "\n" + rest;
      ReadLine(big, rest, max);
    } else {
      UnlinesPlus(lines, big + "\n" + rest);
      ReadLine(lines[0], Unlines(lines[1..]) + (big + "\n" + rest), max);
      PiecesReadOversized(lines[1..], big, rest, max);
      assert lines == [lines[0]] + lines[1..];
    }
  }

  // -------------------------------------------------------- chunk by chunk

  /** The handler's state: what is buffered, what was dispatched, whether it destroyed the socket. */
  datatype Framer = Framer(buffer: string, dispatched: seq<string>, destroyed: bool)

  const START := Framer("", [], false)

  /** One data event. Nothing arrives at a destroyed socket. */
  function Receive(f: Framer, chunk: string, max: nat): Framer {
    var held := f.buffer + chunk;
    if f.destroyed then f
    else if ByteLength(held) > max && '\n' !in held then f.(buffer := held, destroyed := true)
    else var r := Read(held, max); Framer(r.tail, f.dispatched + r.lines, r.oversized)
  }

  function ReceiveAll(chunks: seq<string>, max: nat): Framer {
    if chunks == [] then START else Receive(ReceiveAll(chunks[..|chunks| - 1], max), chunks[|chunks| - 1], max)
  }

  function Stream(chunks: seq<string>): string {
    if chunks == [] then "" else Stream(chunks[..|chunks| - 1]) + chunks[|chunks| - 1]
  }

  lemma FollowingTwice(a: seq<string>, b: seq<string>, r: Reading)
    ensures Following(a, Following(b, r)) == Following(a + b, r) && Following([], r) == r
  {
    assert a + (b + r.lines) == (a + b) + r.lines;
    assert [] + r.lines == r.lines;
  }

  /** Reading on from a stream's tail is reading the longer stream. */
  lemma {:induction false} ReadConcat(a: string, b: string, max: nat)
    ensures var r := Read(a, max); var all := Read(a + b, max);
            if r.oversized then all.oversized
                && all.lines == r.lines else all == Following(r.lines, Read(r.tail + b, max))
    decreases |a|
  {
    var i := Newline(a);
    if i == |a| {
      FollowingTwice([], [], Read(a + b, max));
    } else {
      Pieces(a);
      assert a + b == a[..i] + "\n" + (a[i + 1..] + b);
      NewlineAt(a[..i], a[i + 1..] + b);
      ReadConcat(a[i + 1..], b, max);
      var r := Read(a[i + 1..], max);
      FollowingTwice([a[..i]], r.lines, Read(r.tail + b, max));
    }
  }

  /** A line already too long when its end has not arrived stays too long: no further line is read from it. */
  lemma OversizedTail(a: string, b: string, max: nat)
    requires Line(a) && ByteLength(a) > max
    ensures var r := Read(a + b, max);
            r.lines == [] && (r.oversized <==> !Line(b)) && (Line(b) ==> r.tail == a + b && ByteLength(a + b) > max)
  {
    if Line(b) { TailGrows(a, b, max); } else { TailEnds(a, b, max); }
  }

  lemma TailGrows(a: string, b: string, max: nat)
    requires Line(a) && ByteLength(a) > max && Line(b)
    ensures Read(a + b, max) == Reading([], false, a + b) && ByteLength(a + b) > max
  {
    ByteLengthConcat(a, b);
    HeldLine(a, b);
    NoNewline(a + b);
  }

  lemma TailEnds(a: string, b: string, max: nat)
    requires Line(a) && ByteLength(a) > max && !Line(b)
    ensures Read(a + b, max).oversized && Read(a + b, max).lines == []
  {
    NoNewline(b);
    Pieces(b);
    var line, rest := b[..Newline(b)], b[Newline(b) + 1..];
    assert a + b == (a + line) + "\n" + rest;
    HeldLine(a, line);
    ByteLengthConcat(a, line);
    ReadLine(a + line, rest, max);
  }

  lemma TailIsLine(s: string, max: nat)
    ensures !Read(s, max).oversized ==> Line(Read(s, max).tail)
    decreases |s|
  {
    NoNewline(s);
    if Newline(s) < |s| { TailIsLine(s[Newline(s) + 1..], max); }
  }

  /**
   What the handler has dispatched, and when it has destroyed the socket, in terms of the stream alone and the last
   chunk.
   */
  ghost predicate Agrees(f: Framer, stream: string, last: string, max: nat) {
    var r := Read(stream, max);
    && f.dispatched == r.lines
    && (f.destroyed <==> r.oversized || (ByteLength(r.tail) > max && Line(last)))
    && (!f.destroyed ==> f.buffer == r.tail)
  }

  lemma ReceiveAgrees(f: Framer, stream: string, last: string, chunk: string, max: nat)
    requires Agrees(f, stream, last, max)
    ensures Agrees(Receive(f, chunk, max), stream + chunk, chunk, max)
  {
    var r := Read(stream, max);
    ReadConcat(stream, chunk, max);
    TailIsLine(stream, max);
    if !r.oversized {
      var held := r.tail + chunk;
      NoNewline(held);
      if ByteLength(r.tail) > max { OversizedTail(r.tail, chunk, max); }
      HeldLine(r.tail, chunk);
      assert r.lines + [] == r.lines;
    }
  }

  /** For every way of cutting the stream: the lines dispatched are the stream's, and the socket is destroyed exactly
  for a
      complete oversized line or for an oversized tail that the last chunk lies wholly in. */
  lemma {:induction false} ReceiveAllAgrees(chunks: seq<string>, max: nat)
    ensures Agrees(ReceiveAll(chunks, max), Stream(chunks), if chunks == [] then "" else chunks[|chunks| - 1], max)
  {
    if chunks != [] {
      var before := chunks[..|chunks| - 1];
      ReceiveAllAgrees(before, max);
      ReceiveAgrees(ReceiveAll(before, max), Stream(before), if before == [] then "" else before[|before| - 1],
                    chunks[|chunks| - 1], max);
    }
  }

  /**
   How a stream is cut never changes what is dispatched, and matters to the socket only when the stream ends in an
   oversized tail.
   */
  lemma ChunkingIrrelevant(a: seq<string>, b: seq<string>, max: nat)
    requires Stream(a) == Stream(b)
    ensures ReceiveAll(a, max).dispatched == ReceiveAll(b, max).dispatched
    ensures ReceiveAll(a, max).destroyed == ReceiveAll(b, max).destroyed
            || (!Read(Stream(a), max).oversized && ByteLength(Read(Stream(a), max).tail) > max)
  {
    ReceiveAllAgrees(a, max);
    ReceiveAllAgrees(b, max);
  }

  /** There it does matter: one cut of the same stream destroys the socket and another leaves it open. */
  lemma OversizedTailDependsOnCut(max: nat, tail: string)
    requires Line(tail) && ByteLength(tail) > max
    ensures Stream(["\n" + tail]) == Stream(["\n", tail])
    ensures !ReceiveAll(["\n" + tail], max).destroyed && ReceiveAll(["\n", tail], max).destroyed
  {
    var one, two := ["\n" + tail], ["\n", tail];
    assert Stream(one[..0]) == "" && Stream(one) == "\n" + tail;
    assert two[..1] == ["\n"] && Stream(["\n"][..0]) == "" && Stream(two) == "\n" + tail;
    ReceiveAllAgrees(one, max);
    ReceiveAllAgrees(two, max);
    NewlineAt("", tail);
    NoNewline(tail);
    assert "" + "\n" + tail == "\n" + tail;
    assert Read("\n" + tail, max).tail == tail;
    assert one[0][0] == '\n';
  }

  /** Whatever follows an oversized line, in however many chunks, is never dispatched. */
  lemma NothingAfterOversized(lines: seq<string>, big: string, rest: string, chunks: seq<string>, max: nat)
    requires Line(big) && ByteLength(big) > max && AllFit(lines, max)
    requires Stream(chunks) == Unlines(lines) + (big + "\n" + rest)
    ensures ReceiveAll(chunks, max).dispatched == lines && ReceiveAll(chunks, max).destroyed
  {
    ReceiveAllAgrees(chunks, max);
    PiecesReadOversized(lines, big, rest, max);
  }

  // ------------------------------------------------------------ the handler

  const MAX_LOCAL_FRAME_BYTES := 1024 * 1024

  class Connection {
    var buffer: string
    var dispatched: seq<string>
    var destroyed: bool
    const maxFrameBytes: nat

    function State(): Framer
      reads this
    {
      Framer(buffer, dispatched, destroyed)
    }

    constructor (max: nat)
      ensures State() == START && maxFrameBytes == max
    {
      buffer, dispatched, destroyed, maxFrameBytes := "", [], false, max;
    }

    method OnData(chunk: string)
      requires !destroyed
      modifies this
      ensures State() == Receive(old(State()), chunk, maxFrameBytes)
    {
      buffer := buffer + chunk;
      NoNewline(buffer);
      if ByteLength(buffer) > maxFrameBytes && '\n' !in buffer {
        destroyed := true;
        return;
      }
      CutLines();
    }

    /** Dispatches the complete lines one by one, up to the first oversized one. */
    method CutLines()
      requires !destroyed
      modifies this
      ensures var r := Read(old(buffer), maxFrameBytes);
              buffer == r.tail && dispatched == old(dispatched) + r.lines && destroyed == r.oversized
    {
      ghost var all := Read(buffer, maxFrameBytes);
      ghost var done: seq<string> := [];
      FollowingTwice([], [], all);
      var newline := Newline(buffer);
      while newline < |buffer|
        invariant newline == Newline(buffer) && !destroyed
        invariant all == Following(done, Read(buffer, maxFrameBytes))
        invariant dispatched == old(dispatched) + done
        decreases |buffer|
      {
        ghost var first, rest := buffer[..newline], buffer[newline + 1..];
        FollowingTwice(done, [first], Read(rest, maxFrameBytes));
        var fits := TakeLine(newline);
        newline := Newline(buffer);
        if !fits { return; }
        done := done + [first];
      }
    }

    /** Cuts the first line off the buffer and dispatches it, or destroys the socket for it. */
    method TakeLine(newline: nat) returns (fits: bool)
      requires newline < |buffer|
      modifies this
      ensures buffer == old(buffer)[newline + 1..] && fits == (ByteLength(old(buffer)[..newline]) <= maxFrameBytes)
      ensures if fits then dispatched == old(dispatched) + [old(buffer)[..newline]] && destroyed == old(destroyed)
              else dispatched == old(dispatched) && destroyed
    {
      var line := buffer[..newline];
      buffer := buffer[newline + 1..];
      fits := ByteLength(line) <= maxFrameBytes;
      if fits { dispatched := dispatched + [line]; } else { destroyed := true; }
    }
  }
}
