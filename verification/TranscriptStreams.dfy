/**
 What the grouped transcript shows of each stream when several streams write: headings and blank lines belong to
 the transcript as a whole, the lines between them to their streams.
 */
module TranscriptStreams {
  import opened Basics
  import opened Transcript

  /** The lines shown on a stream, with their groups: headings and blank lines apart. */
  function BodiesOn(out: seq<(Stream, Piece)>, stream: Stream): seq<Piece> {
    if out == [] then []
    else
      var (to, piece) := out[|out| - 1];
      BodiesOn(out[..|out| - 1], stream) + if to == stream && piece.Body? then [piece] else []
  }

  function RenderedLine(style: Style, rawLine: string): seq<Piece> {
    var line := StripCarriageReturn(rawLine);
    if line == [] then []
    else
      var group := style.groupOf(line);
      [Body(group, if group == Switchboard then style.strip(line) else line)]
  }

  function Rendered(style: Style, lines: seq<string>): seq<Piece> {
    if lines == [] then [] else RenderedLine(style, lines[0]) + Rendered(style, lines[1..])
  }

  /** The lines that one call completes on a stream, seen from the stream's buffer alone, and what stays unfinished. */
  function OwnLinesOf(call: Call, stream: Stream, buffered: string): (seq<string>, string) {
    match call
    case Chunk(text, to) => if to == stream then Split(buffered + text) else ([], buffered)
    case FlushAll => (if buffered == [] then [] else [buffered], "")
  }

  /** The same for a session: other streams do not come into it. */
  function OwnLines(calls: seq<Call>, stream: Stream, buffered: string): (seq<string>, string)
    decreases |calls|
  {
    if calls == [] then ([], buffered)
    else
      var (lines, tail) := OwnLinesOf(calls[0], stream, buffered);
      var (more, rest) := OwnLines(calls[1..], stream, tail);
      (lines + more, rest)
  }

  lemma {:induction false} BodiesConcat(a: seq<(Stream, Piece)>, b: seq<(Stream, Piece)>, stream: Stream)
    ensures BodiesOn(a + b, stream) == BodiesOn(a, stream) + BodiesOn(b, stream)
    decreases |b|
  {
    if b == [] {
      assert a + b == a;
    } else {
      assert (a + b)[..|a + b| - 1] == a + b[..|b| - 1];
      BodiesConcat(a, b[..|b| - 1], stream);
    }
  }

  /** Headings and blank lines show no body. */
  lemma {:induction false} NoBodies(to: Stream, pieces: seq<Piece>, stream: Stream)
    requires forall i | 0 <= i < |pieces| :: !pieces[i].Body?
    ensures BodiesOn(On(to, pieces), stream) == []
    decreases |pieces|
  {
    if pieces != [] {
      var n := |pieces| - 1;
      NoBodies(to, pieces[..n], stream);
      assert On(to, pieces)[..n] == On(to, pieces[..n]);
    }
  }

  lemma HeadingAndBody(to: Stream, heading: seq<Piece>, body: Piece, stream: Stream)
    requires body.Body? && forall i | 0 <= i < |heading| :: !heading[i].Body?
    ensures BodiesOn(On(to, heading + [body]), stream) == if to == stream then [body] else []
  {
    NoBodies(to, heading, stream);
    assert On(to, heading + [body]) == On(to, heading) + [(to, body)];
    BodiesConcat(On(to, heading), [(to, body)], stream);
    assert [(to, body)][..0] == [];
  }

  lemma PiecesBodies(style: Style, current: Option<Group>, rawLine: string, to: Stream, stream: Stream)
    ensures BodiesOn(On(to, Pieces(style, current, rawLine)), stream)
         == if to == stream then RenderedLine(style, rawLine) else []
  {
    var line := StripCarriageReturn(rawLine);
    if line == [] {
      NoBodies(to, [Newline], stream);
    } else {
      var group := style.groupOf(line);
      var heading :=
        if current == Some(group) then [] else (if current.Some? then [Newline] else []) + [Title(group)];
      HeadingAndBody(to, heading, RenderedLine(style, rawLine)[0], stream);
    }
  }

  lemma EmitShows(style: Style, s: State, rawLine: string, to: Stream, stream: Stream)
    ensures BodiesOn(EmitLineSpec(style, s, rawLine, to).out, stream)
         == BodiesOn(s.out, stream) + if to == stream then RenderedLine(style, rawLine) else []
  {
    PiecesBodies(style, s.currentGroup, rawLine, to, stream);
    BodiesConcat(s.out, On(to, Pieces(style, s.currentGroup, rawLine)), stream);
  }

  lemma {:induction false} LinesShow(style: Style, s: State, lines: seq<string>, to: Stream, stream: Stream)
    ensures BodiesOn(EmitLines(style, s, lines, to).out, stream)
         == BodiesOn(s.out, stream) + if to == stream then Rendered(style, lines) else []
    decreases |lines|
  {
    if lines != [] {
      var s1 := EmitLineSpec(style, s, lines[0], to);
      EmitShows(style, s, lines[0], to, stream);
      LinesShow(style, s1, lines[1..], to, stream);
    }
  }

  /** Flushing one stream. */
  function FlushOne(style: Style, s: State, to: Stream): State {
    var buffered := Buffered(s, to);
    if buffered == [] then s else SetBuffer(EmitLineSpec(style, s, buffered, to), to, "")
  }

  function Unfinished(style: Style, s: State, stream: Stream): seq<Piece> {
    if Buffered(s, stream) == [] then [] else RenderedLine(style, Buffered(s, stream))
  }

  lemma FlushOneShows(style: Style, s: State, to: Stream, stream: Stream)
    ensures var t := FlushOne(style, s, to);
      && BodiesOn(t.out, stream)
          == BodiesOn(s.out, stream) + (if to == stream then Unfinished(style, s, stream) else [])
      && Buffered(t, stream) == if to == stream then "" else Buffered(s, stream)
  {
    var buffered := Buffered(s, to);
    if buffered == [] {
      assert FlushOne(style, s, to) == s;
    } else {
      var e := EmitLineSpec(style, s, buffered, to);
      EmitShows(style, s, buffered, to, stream);
      ClearedBuffer(e, to, stream);
    }
  }

  lemma ClearedBuffer(e: State, to: Stream, stream: Stream)
    ensures SetBuffer(e, to, "").out == e.out
    ensures Buffered(SetBuffer(e, to, ""), stream) == if to == stream then "" else Buffered(e, stream)
  {
  }

  lemma {:induction false} FlushShows(style: Style, s: State, streams: seq<Stream>, stream: Stream)
    ensures BodiesOn(FlushFrom(style, s, streams).out, stream)
         == BodiesOn(s.out, stream) + (if stream in streams then Unfinished(style, s, stream) else [])
    decreases |streams|
  {
    if streams != [] {
      FlushOneShows(style, s, streams[0], stream);
      FlushShows(style, FlushOne(style, s, streams[0]), streams[1..], stream);
      assert FlushFrom(style, s, streams) == FlushFrom(style, FlushOne(style, s, streams[0]), streams[1..]);
      assert stream in streams <==> stream == streams[0] || stream in streams[1..];
    }
  }

  lemma {:induction false} RenderedConcat(style: Style, a: seq<string>, b: seq<string>)
    ensures Rendered(style, a + b) == Rendered(style, a) + Rendered(style, b)
    decreases |a|
  {
    if a == [] {
      assert a + b == b;
    } else {
      assert (a + b)[1..] == a[1..] + b;
      RenderedConcat(style, a[1..], b);
    }
  }

  lemma ChunkShows(style: Style, s: State, text: string, to: Stream, stream: Stream)
    ensures var t := WriteSpec(style, s, text, to);
      && BodiesOn(t.out, stream)
         == BodiesOn(s.out, stream)
             + (if to == stream then Rendered(style, Split(Buffered(s, stream) + text).0) else [])
      && Buffered(t, stream) == if to == stream then Split(Buffered(s, stream) + text).1 else Buffered(s, stream)
  {
    var (lines, tail) := Split(Buffered(s, to) + text);
    WriteBuffers(style, s, text, to, stream);
    LinesShow(style, SetBuffer(s, to, tail), lines, to, stream);
  }

  lemma FlushAllShows(style: Style, s: State, stream: Stream)
    requires Registered(s)
    ensures var t := FlushSpec(style, s);
      && BodiesOn(t.out, stream)
         == BodiesOn(s.out, stream)
            + Unfinished(style, s, stream)
      && Buffered(t, stream) == ""
  {
    FlushShows(style, s, s.order, stream);
    SecondFlushIsNoOp(style, s);
    if Buffered(s, stream) != [] {
      assert stream in s.buffers && stream in s.order;
    }
  }

  /** What one call shows on a stream and leaves in its buffer. */
  lemma CallShows(style: Style, s: State, call: Call, stream: Stream)
    requires Registered(s)
    ensures var t := CallSpec(style, s, call);
            var (lines, rest) := OwnLinesOf(call, stream, Buffered(s, stream));
      && BodiesOn(t.out, stream) == BodiesOn(s.out, stream) + Rendered(style, lines)
      && Buffered(t, stream) == rest
  {
    match call
    case Chunk(text, to) => ChunkShows(style, s, text, to, stream);
    case FlushAll =>
      FlushAllShows(style, s, stream);
      assert [Buffered(s, stream)][1..] == [];
  }

  /**
   However streams interleave, flushes included, each stream shows exactly its own lines, in order, as if it were
   alone: what other streams write never reaches it.
   */
  lemma {:induction false} StreamShowsOwnLines(style: Style, s: State, calls: seq<Call>, stream: Stream)
    requires Registered(s)
    ensures var t := Session(style, s, calls);
            var (lines, rest) := OwnLines(calls, stream, Buffered(s, stream));
      && BodiesOn(t.out, stream) == BodiesOn(s.out, stream) + Rendered(style, lines)
      && Buffered(t, stream) == rest
    decreases |calls|
  {
    if calls != [] {
      var s1 := CallSpec(style, s, calls[0]);
      var lines := OwnLinesOf(calls[0], stream, Buffered(s, stream)).0;
      var more := OwnLines(calls[1..], stream, Buffered(s1, stream)).0;
      CallShows(style, s, calls[0], stream);
      CallKeepsRegistered(style, s, calls[0]);
      StreamShowsOwnLines(style, s1, calls[1..], stream);
      RenderedConcat(style, lines, more);
      Assoc(BodiesOn(s.out, stream), Rendered(style, lines), Rendered(style, more));
    }
  }

  lemma CallKeepsRegistered(style: Style, s: State, call: Call)
    requires Registered(s)
    ensures Registered(CallSpec(style, s, call))
  {
    match call
    case Chunk(text, stream) =>
      var (lines, tail) := Split(Buffered(s, stream) + text);
      EmitThenSet(style, s, lines, stream, tail);
    case FlushAll => FlushFromEmpties(style, s, s.order);
  }

  lemma {:induction false} OwnLinesAreSplit(calls: seq<Call>, stream: Stream, buffered: string)
    requires forall c | c in calls :: c.Chunk?
    requires Split(buffered).0 == []
    ensures OwnLines(calls, stream, buffered) == Split(buffered + TextOn(calls, stream))
    decreases |calls|
  {
    if calls == [] {
      assert buffered + "" == buffered;
      WholeTail(buffered);
    } else if calls[0].stream != stream {
      OwnLinesAreSplit(calls[1..], stream, buffered);
      assert [] + OwnLines(calls[1..], stream, buffered).0 == OwnLines(calls[1..], stream, buffered).0;
    } else {
      var text, later := calls[0].text, TextOn(calls[1..], stream);
      TailIsOneLine(buffered + text);
      OwnLinesAreSplit(calls[1..], stream, Split(buffered + text).1);
      SplitInTwoSteps(buffered, text, later);
    }
  }

  /** Between two flushes, those are the lines and the rest that the text written to the stream consists of. */
  lemma OwnLinesAreTheText(calls: seq<Call>, stream: Stream, buffered: string, lines: seq<string>, rest: string)
    requires forall c | c in calls :: c.Chunk?
    requires OneLine(buffered) && ConsistsOf(buffered + TextOn(calls, stream), lines, rest)
    ensures OwnLines(calls, stream, buffered) == (lines, rest)
  {
    NoBreakIsRest(buffered);
    OwnLinesAreSplit(calls, stream, buffered);
    SplitIsTheCut(buffered + TextOn(calls, stream), lines, rest);
  }

  // ----- Reading the transcript back

  /** What a reader sees of one line: nothing, or its text under its group. */
  datatype Shown = Blank | Line(group: Group, text: string)

  /**
   Reading a transcript: a blank line in front of a heading is a separator if another heading came before, every other
   blank line and every body is a line, and headings are none.
   */
  function ReadBack(out: seq<(Stream, Piece)>): seq<(Stream, Shown)>
    decreases |out|
  {
    if out == [] then []
    else
      var n := |out| - 1;
      var (stream, piece) := out[n];
      match piece
      case Newline => ReadBack(out[..n]) + [(stream, Blank)]
      case Body(group, text) => ReadBack(out[..n]) + [(stream, Line(group, text))]
      case Title(_) =>
        if LastTitle(out[..n]).Some? && n > 0 && out[n - 1].1 == Newline then ReadBack(out[..n - 1])
        else ReadBack(out[..n])
  }

  /** What a line should look like: without its carriage return, and without the prefix if it is Switchboard's. */
  function Appearance(style: Style, rawLine: string): Shown {
    var line := if |rawLine| > 0 && rawLine[|rawLine| - 1] == '\r' then rawLine[..|rawLine| - 1] else rawLine;
    if |line| == 0 then Blank
    else
      match style.groupOf(line)
      case Switchboard => Line(Switchboard, style.strip(line))
      case Acurast => Line(Acurast, line)
  }

  lemma ReadOneMore(out: seq<(Stream, Piece)>, stream: Stream, piece: Piece)
    requires !piece.Title?
    ensures ReadBack(out + [(stream, piece)])
         == ReadBack(out) + [(stream, if piece.Newline? then Blank else Line(piece.group, piece.text))]
  {
    assert (out + [(stream, piece)])[..|out|] == out;
  }

  lemma ReadFirstTitle(out: seq<(Stream, Piece)>, stream: Stream, group: Group)
    requires LastTitle(out).None?
    ensures ReadBack(out + [(stream, Title(group))]) == ReadBack(out)
  {
    assert (out + [(stream, Title(group))])[..|out|] == out;
  }

  lemma ReadNextTitle(out: seq<(Stream, Piece)>, stream: Stream, group: Group)
    requires LastTitle(out).Some?
    ensures ReadBack(out + [(stream, Newline), (stream, Title(group))]) == ReadBack(out)
  {
    var spaced := out + [(stream, Newline)];
    var titled := out + [(stream, Newline), (stream, Title(group))];
    assert titled[..|out| + 1] == spaced && titled[..|out|] == out && spaced[..|out|] == out;
  }

  /** A heading and a body add the body's line. */
  lemma HeadedReads(out: seq<(Stream, Piece)>, stream: Stream, heading: seq<Piece>, group: Group, text: string)
    requires heading == [] || (LastTitle(out).None? && heading == [] + [Title(group)])
             || (LastTitle(out).Some? && heading == [Newline] + [Title(group)])
    ensures ReadBack(out + On(stream, heading + [Body(group, text)])) == ReadBack(out) + [(stream, Line(group, text))]
  {
    var body := Body(group, text);
    HeadingReads(out, stream, heading, group);
    assert On(stream, heading + [body]) == On(stream, heading) + [(stream, body)];
    Assoc(out, On(stream, heading), [(stream, body)]);
    ReadOneMore(out + On(stream, heading), stream, body);
  }

  lemma BlankReads(out: seq<(Stream, Piece)>, stream: Stream)
    ensures ReadBack(out + On(stream, [Newline])) == ReadBack(out) + [(stream, Blank)]
  {
    assert On(stream, [Newline]) == [(stream, Newline)];
    ReadOneMore(out, stream, Newline);
  }

  lemma EmitReads(style: Style, s: State, rawLine: string, stream: Stream)
    requires WellHeaded(s)
    ensures ReadBack(EmitLineSpec(style, s, rawLine, stream).out)
         == ReadBack(s.out) + [(stream, Appearance(style, rawLine))]
  {
    var line := StripCarriageReturn(rawLine);
    if line == [] {
      BlankReads(s.out, stream);
    } else {
      var group := style.groupOf(line);
      var heading := if s.currentGroup == Some(group) then []
                     else (if s.currentGroup.Some? then [Newline] else []) + [Title(group)];
      HeadedReads(s.out, stream, heading, group, if group == Switchboard then style.strip(line) else line);
    }
  }

  lemma HeadingReads(out: seq<(Stream, Piece)>, stream: Stream, heading: seq<Piece>, group: Group)
    requires heading == [] || (LastTitle(out).None? && heading == [] + [Title(group)])
             || (LastTitle(out).Some? && heading == [Newline] + [Title(group)])
    ensures ReadBack(out + On(stream, heading)) == ReadBack(out)
  {
    if heading == [] {
      assert out + On(stream, heading) == out;
    } else if LastTitle(out).None? {
      assert On(stream, heading) == [(stream, Title(group))];
      ReadFirstTitle(out, stream, group);
    } else {
      assert On(stream, heading) == [(stream, Newline), (stream, Title(group))];
      ReadNextTitle(out, stream, group);
    }
  }

  function Appearances(style: Style, lines: seq<string>, stream: Stream): seq<(Stream, Shown)> {
    if lines == [] then [] else [(stream, Appearance(style, lines[0]))] + Appearances(style, lines[1..], stream)
  }

  lemma {:induction false} LinesRead(style: Style, s: State, lines: seq<string>, stream: Stream)
    requires WellHeaded(s)
    ensures ReadBack(EmitLines(style, s, lines, stream).out) == ReadBack(s.out) + Appearances(style, lines, stream)
    decreases |lines|
  {
    if lines != [] {
      var s1 := EmitLineSpec(style, s, lines[0], stream);
      EmitReads(style, s, lines[0], stream);
      EmitKeepsHeaded(style, s, lines[0], stream);
      LinesRead(style, s1, lines[1..], stream);
      Assoc(ReadBack(s.out), [(stream, Appearance(style, lines[0]))], Appearances(style, lines[1..], stream));
    }
  }

  /**
   The transcript loses and adds nothing: reading it back gives the lines that the text consists of, each once, in
   order, blank ones as blank lines, and the unfinished rest last.
   */
  lemma TranscriptReadsBack(style: Style, chunks: seq<string>, stream: Stream, lines: seq<string>, tail: string)
    requires chunks != [] && ConsistsOf(Concat(chunks), lines, tail)
    ensures ReadBack(FlushSpec(style, WriteAll(style, EMPTY, chunks, stream)).out)
         == Appearances(style, lines + (if tail == [] then [] else [tail]), stream)
  {
    WriteAndFlush(style, chunks, stream, lines, tail);
    LinesRead(style, EMPTY, lines + (if tail == [] then [] else [tail]), stream);
  }
}
