/**
 The grouped deploy transcript: chunks of text from several streams are cut into lines, and every line is
 written under the heading of its group.  How a line is classified, stripped and coloured is left to `Style`.
 */
module Transcript {
  import opened Basics

  type Stream(==, !new) = nat

  datatype Group = Switchboard | Acurast

  datatype Style = Style(groupOf: string -> Group, strip: string -> string)

  /** One call of `stream.write`: a blank line, a heading, or an indented line of its group. */
  datatype Piece = Newline | Title(group: Group) | Body(group: Group, text: string)

  /**
   The buffered tails by stream (in the order the streams first wrote), the group whose heading is current, and
   everything written.
   */
  datatype State = State(
    order: seq<Stream>, buffers: map<Stream, string>, currentGroup: Option<Group>, out: seq<(Stream, Piece)>)

  const EMPTY := State([], map[], None, [])

  // ----- Cutting text into lines

  /** A character in front of a text that is cut already. */
  function Prepend(c: char, lines: seq<string>, tail: string): (seq<string>, string) {
    if c == '\n' then ([""] + lines, tail)
    else if lines == [] then ([], [c] + tail)
    else ([[c] + lines[0]] + lines[1..], tail)
  }

  /** The complete lines of a text, and the unfinished rest (`text.split(/\n/)`, last part apart). */
  function Split(s: string): (r: (seq<string>, string)) {
    if s == [] then ([], "")
    else
      var (lines, tail) := Split(s[1..]);
      Prepend(s[0], lines, tail)
  }

  lemma PrependKeepsLaterLines(c: char, lines: seq<string>, tail: string, more: seq<string>, rest: string)
    requires c == '\n' || lines != []
    ensures Prepend(c, lines + more, rest) == (Prepend(c, lines, tail).0 + more, rest)
    ensures Prepend(c, lines, tail).1 == tail
  {
    if c == '\n' {
      assert [""] + (lines + more) == ([""] + lines) + more;
    } else {
      assert (lines + more)[1..] == lines[1..] + more;
      assert [[c] + lines[0]] + (lines[1..] + more) == ([[c] + lines[0]] + lines[1..]) + more;
    }
  }

  lemma {:induction false} SplitConcat(a: string, b: string)
    ensures Split(a + b) == (Split(a).0 + Split(Split(a).1 + b).0, Split(Split(a).1 + b).1)
  {
    if a == [] {
      assert a + b == b && Split(a).1 + b == b;
      assert [] + Split(b).0 == Split(b).0;
    } else {
      assert (a + b)[1..] == a[1..] + b;
      SplitConcat(a[1..], b);
      var (lines, tail) := Split(a[1..]);
      var (more, rest) := Split(tail + b);
      if a[0] == '\n' || lines != [] {
        PrependKeepsLaterLines(a[0], lines, tail, more, rest);
      } else {
        assert [] + more == more;
        assert ([a[0]] + tail) + b == [a[0]] + (tail + b);
        SplitCons(a[0], tail + b);
        assert [] + Split([a[0]] + (tail + b)).0 == Split([a[0]] + (tail + b)).0;
      }
    }
  }

  // ----- Cutting is the inverse of joining lines

  predicate OneLine(line: string) {
    '\n' !in line
  }

  /** Lines, each with its line break, and an unfinished rest. */
  function Joined(lines: seq<string>, rest: string): string {
    if lines == [] then rest else lines[0] + "\n" + Joined(lines[1..], rest)
  }

  /** `text` consists of these lines and this rest, none of which has a line break inside. */
  ghost predicate ConsistsOf(text: string, lines: seq<string>, rest: string) {
    (forall i | 0 <= i < |lines| :: OneLine(lines[i])) && OneLine(rest) && text == Joined(lines, rest)
  }

  lemma JoinedCons(c: char, lines: seq<string>, rest: string)
    requires c != '\n' && lines != []
    ensures Joined([[c] + lines[0]] + lines[1..], rest) == [c] + Joined(lines, rest)
  {
    var more := [[c] + lines[0]] + lines[1..];
    assert more[1..] == lines[1..];
    assert [c] + lines[0] + "\n" + Joined(lines[1..], rest) == [c] + (lines[0] + "\n" + Joined(lines[1..], rest));
  }

  lemma {:induction false} SplitConsists(s: string)
    ensures ConsistsOf(s, Split(s).0, Split(s).1)
  {
    if s != [] {
      SplitConsists(s[1..]);
      var (lines, tail) := Split(s[1..]);
      assert s == [s[0]] + s[1..];
      if s[0] == '\n' {
        assert ([""] + lines)[1..] == lines;
        assert "" + "\n" + Joined(lines, tail) == ['\n'] + Joined(lines, tail);
      } else if lines != [] {
        JoinedCons(s[0], lines, tail);
        assert OneLine([s[0]] + lines[0]);
      }
    }
  }

  lemma {:induction false} LineThenBreak(line: string, rest: string)
    requires OneLine(line)
    ensures Split(line + "\n" + rest) == ([line] + Split(rest).0, Split(rest).1)
  {
    if line == [] {
      assert "" + "\n" + rest == ['\n'] + rest;
      SplitCons('\n', rest);
    } else {
      assert line + "\n" + rest == [line[0]] + (line[1..] + "\n" + rest);
      LineThenBreak(line[1..], rest);
      SplitCons(line[0], line[1..] + "\n" + rest);
      assert ([line[1..]] + Split(rest).0)[1..] == Split(rest).0;
      assert [line[0]] + line[1..] == line;
    }
  }

  lemma {:induction false} NoBreakIsRest(rest: string)
    requires OneLine(rest)
    ensures Split(rest) == ([], rest)
  {
    if rest != [] {
      NoBreakIsRest(rest[1..]);
      assert rest == [rest[0]] + rest[1..];
    }
  }

  /** A text is cut into the only lines and the only rest that it consists of. */
  lemma {:induction false} SplitIsTheCut(text: string, lines: seq<string>, rest: string)
    ensures ConsistsOf(text, lines, rest) <==> Split(text) == (lines, rest)
    decreases |lines|
  {
    SplitConsists(text);
    if ConsistsOf(text, lines, rest) {
      if lines == [] {
        NoBreakIsRest(rest);
      } else {
        var later := Joined(lines[1..], rest);
        LineThenBreak(lines[0], later);
        assert ConsistsOf(later, lines[1..], rest);
        SplitIsTheCut(later, lines[1..], rest);
        assert [lines[0]] + lines[1..] == lines;
      }
    }
  }

  lemma SplitCons(c: char, s: string)
    ensures Split([c] + s) == Prepend(c, Split(s).0, Split(s).1)
  {
    assert ([c] + s)[1..] == s;
  }

  /** A tail has no line break, so nothing more can be cut off it. */
  lemma {:induction false} TailIsOneLine(s: string)
    ensures Split(Split(s).1) == ([], Split(s).1)
  {
    if s != [] {
      TailIsOneLine(s[1..]);
      if s[0] != '\n' && Split(s[1..]).0 == [] {
        SplitCons(s[0], Split(s[1..]).1);
      }
    }
  }

  // ----- What each operation does

  function StripCarriageReturn(line: string): string {
    if line != [] && line[|line| - 1] == '\r' then line[..|line| - 1] else line
  }

  function Pieces(style: Style, current: Option<Group>, rawLine: string): seq<Piece> {
    var line := StripCarriageReturn(rawLine);
    if line == [] then [Newline]
    else
      var group := style.groupOf(line);
      (if current == Some(group) then [] else (if current.Some? then [Newline] else []) + [Title(group)])
      + [Body(group, if group == Switchboard then style.strip(line) else line)]
  }

  function On(stream: Stream, pieces: seq<Piece>): (r: seq<(Stream, Piece)>)
    ensures |r| == |pieces| && forall i | 0 <= i < |r| :: r[i] == (stream, pieces[i])
  {
    seq(|pieces|, i requires 0 <= i < |pieces| => (stream, pieces[i]))
  }

  function EmitLineSpec(style: Style, s: State, rawLine: string, stream: Stream): State {
    var line := StripCarriageReturn(rawLine);
    s.(out := s.out + On(stream, Pieces(style, s.currentGroup, rawLine)),
       currentGroup := if line == [] then s.currentGroup else Some(style.groupOf(line)))
  }

  function EmitLines(style: Style, s: State, lines: seq<string>, stream: Stream): State
    decreases |lines|
  {
    if lines == [] then s else EmitLines(style, EmitLineSpec(style, s, lines[0], stream), lines[1..], stream)
  }

  lemma NextLine(style: Style, s: State, lines: seq<string>, i: nat, stream: Stream)
    requires i < |lines|
    ensures EmitLines(style, s, lines[i..], stream)
         == EmitLines(style, EmitLineSpec(style, s, lines[i], stream), lines[i + 1..], stream)
  {
    assert lines[i..][1..] == lines[i + 1..];
  }

  function Buffered(s: State, stream: Stream): string {
    if stream in s.buffers then s.buffers[stream] else ""
  }

  function SetBuffer(s: State, stream: Stream, tail: string): State {
    s.(buffers := s.buffers[stream := tail], order := if stream in s.buffers then s.order else s.order + [stream])
  }

  function WriteSpec(style: Style, s: State, text: string, stream: Stream): State {
    var (lines, tail) := Split(Buffered(s, stream) + text);
    EmitLines(style, SetBuffer(s, stream, tail), lines, stream)
  }

  /** Flushing the buffers of the given streams, one after the other. */
  function FlushFrom(style: Style, s: State, streams: seq<Stream>): State
    decreases |streams|
  {
    if streams == [] then s
    else
      var buffered := Buffered(s, streams[0]);
      FlushFrom(style,
        if buffered == [] then s else SetBuffer(EmitLineSpec(style, s, buffered, streams[0]), streams[0], ""),
        streams[1..])
  }

  function FlushSpec(style: Style, s: State): State {
    FlushFrom(style, s, s.order)
  }

  // ----- The writer

  class GroupedDeployTranscriptWriter {
    const style: Style
    var order: seq<Stream>
    var buffers: map<Stream, string>
    var currentGroup: Option<Group>
    var out: seq<(Stream, Piece)>

    function Now(): State
      reads this
    {
      State(order, buffers, currentGroup, out)
    }

    constructor (style: Style)
      ensures this.style == style && Now() == EMPTY
    {
      this.style := style;
      order, buffers, currentGroup, out := [], map[], None, [];
    }

    method EmitLine(rawLine: string, stream: Stream)
      modifies this`currentGroup, this`out
      ensures Now() == EmitLineSpec(style, old(Now()), rawLine, stream)
    {
      var line := StripCarriageReturn(rawLine);
      if |line| == 0 {
        out := out + [(stream, Newline)];
        return;
      }
      var group := style.groupOf(line);
      if currentGroup != Some(group) {
        if currentGroup.Some? {
          out := out + [(stream, Newline)];
        }
        out := out + [(stream, Title(group))];
        currentGroup := Some(group);
      }
      var rendered := if group == Switchboard then style.strip(line) else line;
      out := out + [(stream, Body(group, rendered))];
      assert out == old(out) + On(stream, Pieces(style, old(currentGroup), rawLine));
    }

    method Write(text: string, stream: Stream)
      modifies this
      ensures Now() == WriteSpec(style, old(Now()), text, stream)
    {
      var combined := (if stream in buffers then buffers[stream] else "") + text;
      var (parts, tail) := Split(combined);
      if stream !in buffers {
        order := order + [stream];
      }
      buffers := buffers[stream := tail];
      ghost var before := Now();
      assert before == SetBuffer(old(Now()), stream, tail);
      var i := 0;
      while i < |parts|
        invariant 0 <= i <= |parts|
        invariant EmitLines(style, Now(), parts[i..], stream) == EmitLines(style, before, parts, stream)
      {
        NextLine(style, Now(), parts, i, stream);
        EmitLine(parts[i], stream);
        i := i + 1;
      }
    }

    method Flush()
      modifies this
      ensures Now() == FlushSpec(style, old(Now()))
    {
      ghost var before := Now();
      var streams := order;
      var i := 0;
      while i < |streams|
        invariant 0 <= i <= |streams|
        invariant FlushFrom(style, Now(), streams[i..]) == FlushFrom(style, before, streams)
      {
        assert streams[i..][1..] == streams[i + 1..];
        var stream := streams[i];
        var buffered := if stream in buffers then buffers[stream] else "";
        if |buffered| > 0 {
          EmitLine(buffered, stream);
          buffers := buffers[stream := ""];
        }
        i := i + 1;
      }
    }
  }

  // ----- Chunking does not matter

  function WriteAll(style: Style, s: State, chunks: seq<string>, stream: Stream): State
    decreases |chunks|
  {
    if chunks == [] then s else WriteAll(style, WriteSpec(style, s, chunks[0], stream), chunks[1..], stream)
  }

  function Concat(chunks: seq<string>): string {
    if chunks == [] then "" else chunks[0] + Concat(chunks[1..])
  }

  lemma {:induction false} EmitLinesConcat(style: Style, s: State, a: seq<string>, b: seq<string>, stream: Stream)
    ensures EmitLines(style, s, a + b, stream) == EmitLines(style, EmitLines(style, s, a, stream), b, stream)
    decreases |a|
  {
    if a == [] {
      assert a + b == b;
    } else {
      assert (a + b)[1..] == a[1..] + b;
      EmitLinesConcat(style, EmitLineSpec(style, s, a[0], stream), a[1..], b, stream);
    }
  }

  /** Emitting lines and setting a buffer do not get in each other's way. */
  lemma {:induction false} EmitThenSet(style: Style, s: State, lines: seq<string>, stream: Stream, tail: string)
    ensures EmitLines(style, SetBuffer(s, stream, tail), lines, stream)
        == SetBuffer(EmitLines(style, s, lines, stream), stream, tail)
    ensures EmitLines(style, s, lines, stream).buffers == s.buffers
        && EmitLines(style, s, lines, stream).order == s.order
    decreases |lines|
  {
    if lines != [] {
      EmitThenSet(style, EmitLineSpec(style, s, lines[0], stream), lines[1..], stream, tail);
    }
  }

  lemma WriteTwice(style: Style, s: State, a: string, b: string, stream: Stream)
    ensures WriteSpec(style, WriteSpec(style, s, a, stream), b, stream) == WriteSpec(style, s, a + b, stream)
  {
    var buffered := Buffered(s, stream);
    var (lines, tail) := Split(buffered + a);
    var (more, rest) := Split(tail + b);
    assert buffered + (a + b) == (buffered + a) + b;
    SplitConcat(buffered + a, b);
    var s1 := WriteSpec(style, s, a, stream);
    EmitThenSet(style, s, lines, stream, tail);
    EmitThenSet(style, s, lines, stream, rest);
    EmitThenSet(style, SetBuffer(s, stream, rest), lines, stream, rest);
    var e := EmitLines(style, s, lines, stream);
    assert s1 == SetBuffer(e, stream, tail);
    assert SetBuffer(s1, stream, rest) == SetBuffer(e, stream, rest);
    EmitLinesConcat(style, SetBuffer(s, stream, rest), lines, more, stream);
  }

  /** Writing a text in any number of chunks leaves exactly the state that writing it at once leaves. */
  lemma {:induction false} ChunkingDoesNotMatter(style: Style, s: State, chunks: seq<string>, stream: Stream)
    requires chunks != []
    ensures WriteAll(style, s, chunks, stream) == WriteSpec(style, s, Concat(chunks), stream)
    decreases |chunks|
  {
    if |chunks| == 1 {
      assert chunks[1..] == [] && chunks[0] + "" == chunks[0];
    } else {
      ChunkingDoesNotMatter(style, WriteSpec(style, s, chunks[0], stream), chunks[1..], stream);
      WriteTwice(style, s, chunks[0], Concat(chunks[1..]), stream);
    }
  }

  // ----- Flushing

  /** Every buffer belongs to a stream in the list, which has no duplicates. */
  ghost predicate Registered(s: State) {
    && (forall i, j :: 0 <= i < j < |s.order| ==> s.order[i] != s.order[j])
    && (forall stream :: stream in s.order <==> stream in s.buffers)
  }

  lemma {:induction false} FlushFromEmpties(style: Style, s: State, streams: seq<Stream>)
    requires forall x | x in streams :: x in s.buffers
    ensures var t := FlushFrom(style, s, streams);
      && t.order == s.order && t.buffers.Keys == s.buffers.Keys
      && (forall x | x in s.buffers :: t.buffers[x] == if x in streams then "" else s.buffers[x])
    decreases |streams|
  {
    if streams != [] {
      var buffered := Buffered(s, streams[0]);
      var s1 := if buffered == [] then s else SetBuffer(EmitLineSpec(style, s, buffered, streams[0]), streams[0], "");
      assert s1.buffers.Keys == s.buffers.Keys;
      FlushFromEmpties(style, s1, streams[1..]);
      assert streams == [streams[0]] + streams[1..];
    }
  }

  lemma {:induction false} FlushFromNothing(style: Style, s: State, streams: seq<Stream>)
    requires forall x | x in streams :: Buffered(s, x) == []
    ensures FlushFrom(style, s, streams) == s
    decreases |streams|
  {
    if streams != [] {
      FlushFromNothing(style, s, streams[1..]);
    }
  }

  /** Flushing empties every buffer, so flushing again writes nothing and changes nothing. */
  lemma SecondFlushIsNoOp(style: Style, s: State)
    requires Registered(s)
    ensures forall x :: Buffered(FlushSpec(style, s), x) == []
    ensures FlushSpec(style, FlushSpec(style, s)) == FlushSpec(style, s)
  {
    FlushFromEmpties(style, s, s.order);
    FlushFromNothing(style, FlushSpec(style, s), s.order);
  }

  lemma FlushSingle(style: Style, e: State, stream: Stream, tail: string)
    requires e.order == [] && e.buffers == map[]
    ensures var s := FlushSpec(style, SetBuffer(e, stream, tail));
      && s.out == EmitLines(style, e, if tail == [] then [] else [tail], stream).out
      && s.buffers == map[stream := ""]
  {
    var s := SetBuffer(e, stream, tail);
    assert s.order == [stream] && [stream][1..] == [];
    if tail == [] {
      assert FlushFrom(style, s, [stream]) == s;
    } else {
      assert [tail][1..] == [];
      assert FlushFrom(style, s, [stream]) == SetBuffer(EmitLineSpec(style, s, tail, stream), stream, "");
    }
  }

  /**
   A single stream, written in chunks and flushed: every line that the text consists of once, in order, and the
   unfinished rest as a last line.
   */
  lemma WriteAndFlush(style: Style, chunks: seq<string>, stream: Stream, lines: seq<string>, tail: string)
    requires chunks != [] && ConsistsOf(Concat(chunks), lines, tail)
    ensures var s := FlushSpec(style, WriteAll(style, EMPTY, chunks, stream));
      && s.out == EmitLines(style, EMPTY, lines + (if tail == [] then [] else [tail]), stream).out
      && s.buffers == map[stream := ""]
  {
    var text := Concat(chunks);
    ChunkingDoesNotMatter(style, EMPTY, chunks, stream);
    assert "" + text == text;
    SplitIsTheCut(text, lines, tail);
    EmitThenSet(style, EMPTY, lines, stream, tail);
    var e := EmitLines(style, EMPTY, lines, stream);
    FlushSingle(style, e, stream, tail);
    EmitLinesConcat(style, EMPTY, lines, if tail == [] then [] else [tail], stream);
    assert lines + [] == lines;
  }

  // ----- Headings

  function LastTitle(out: seq<(Stream, Piece)>): Option<Group> {
    if out == [] then None
    else match out[|out| - 1].1
         case Title(g) => Some(g)
         case _ => LastTitle(out[..|out| - 1])
  }

  /**
   Every line stands under the heading of its own group; a heading is written only when the group changes, after a
   blank line.
   */
  ghost predicate WellHeaded(s: State) {
    s.currentGroup == LastTitle(s.out) && AllFit(s.out)
  }

  ghost predicate PieceFits(out: seq<(Stream, Piece)>, i: nat)
    requires i < |out|
  {
    match out[i].1
    case Newline => true
    case Title(g) => LastTitle(out[..i]) != Some(g) && (LastTitle(out[..i]).Some? ==> i > 0 && out[i - 1].1 == Newline)
    case Body(g, _) => LastTitle(out[..i]) == Some(g)
  }

  lemma AddPiece(out: seq<(Stream, Piece)>, stream: Stream, p: Piece)
    requires forall i | 0 <= i < |out| :: PieceFits(out, i)
    requires p.Title? ==>
      LastTitle(out) != Some(p.group) && (LastTitle(out).Some? ==> out != [] && out[|out| - 1].1 == Newline)
    requires p.Body? ==> LastTitle(out) == Some(p.group)
    ensures var out' := out + [(stream, p)];
      && (forall i | 0 <= i < |out'| :: PieceFits(out', i))
      && LastTitle(out') == if p.Title? then Some(p.group) else LastTitle(out)
  {
    var out' := out + [(stream, p)];
    assert out'[..|out|] == out;
    forall i | 0 <= i < |out'| ensures PieceFits(out', i) {
      assert i < |out| ==> out'[..i] == out[..i] && PieceFits(out, i);
    }
  }

  ghost predicate AllFit(out: seq<(Stream, Piece)>) {
    forall i | 0 <= i < |out| :: PieceFits(out, i)
  }

  /** A heading and its first line. */
  lemma AddHeaded(out: seq<(Stream, Piece)>, stream: Stream, group: Group, text: string)
    requires AllFit(out) && LastTitle(out) != Some(group)
    requires LastTitle(out).Some? ==> out != [] && out[|out| - 1].1 == Newline
    ensures var out' := out + [(stream, Title(group)), (stream, Body(group, text))];
            AllFit(out') && LastTitle(out') == Some(group)
  {
    var titled := out + [(stream, Title(group))];
    AddPiece(out, stream, Title(group));
    AddPiece(titled, stream, Body(group, text));
    assert titled + [(stream, Body(group, text))] == out + [(stream, Title(group)), (stream, Body(group, text))];
  }

  lemma EmitFirstGroup(out: seq<(Stream, Piece)>, stream: Stream, group: Group, text: string)
    requires AllFit(out) && LastTitle(out).None?
    ensures var out' := out + On(stream, [] + [Title(group)] + [Body(group, text)]);
            AllFit(out') && LastTitle(out') == Some(group)
  {
    AddHeaded(out, stream, group, text);
    assert On(stream, [] + [Title(group)] + [Body(group, text)])
        == [(stream, Title(group)), (stream, Body(group, text))];
  }

  lemma EmitNextGroup(out: seq<(Stream, Piece)>, stream: Stream, group: Group, text: string)
    requires AllFit(out) && LastTitle(out).Some? && LastTitle(out) != Some(group)
    ensures var out' := out + On(stream, [Newline] + [Title(group)] + [Body(group, text)]);
            AllFit(out') && LastTitle(out') == Some(group)
  {
    var spaced := out + [(stream, Newline)];
    AddPiece(out, stream, Newline);
    AddHeaded(spaced, stream, group, text);
    assert out + On(stream, [Newline] + [Title(group)] + [Body(group, text)])
        == spaced + [(stream, Title(group)), (stream, Body(group, text))];
  }

  lemma EmitSameGroup(out: seq<(Stream, Piece)>, stream: Stream, group: Group, text: string)
    requires AllFit(out) && LastTitle(out) == Some(group)
    ensures var out' := out + On(stream, [] + [Body(group, text)]);
            AllFit(out') && LastTitle(out') == Some(group)
  {
    AddPiece(out, stream, Body(group, text));
    assert On(stream, [] + [Body(group, text)]) == [(stream, Body(group, text))];
  }

  lemma EmitBlank(out: seq<(Stream, Piece)>, stream: Stream)
    requires AllFit(out)
    ensures AllFit(out + On(stream, [Newline])) && LastTitle(out + On(stream, [Newline])) == LastTitle(out)
  {
    AddPiece(out, stream, Newline);
    assert On(stream, [Newline]) == [(stream, Newline)];
  }

  lemma EmitKeepsHeaded(style: Style, s: State, rawLine: string, stream: Stream)
    requires WellHeaded(s)
    ensures WellHeaded(EmitLineSpec(style, s, rawLine, stream))
  {
    var line := StripCarriageReturn(rawLine);
    if line == [] {
      EmitBlank(s.out, stream);
    } else {
      var group := style.groupOf(line);
      var text := if group == Switchboard then style.strip(line) else line;
      if s.currentGroup == Some(group) {
        EmitSameGroup(s.out, stream, group, text);
      } else if s.currentGroup.None? {
        EmitFirstGroup(s.out, stream, group, text);
      } else {
        EmitNextGroup(s.out, stream, group, text);
      }
    }
  }

  datatype Call = Chunk(text: string, stream: Stream) | FlushAll

  function CallSpec(style: Style, s: State, call: Call): State {
    match call
    case Chunk(text, stream) => WriteSpec(style, s, text, stream)
    case FlushAll => FlushSpec(style, s)
  }

  function Session(style: Style, s: State, calls: seq<Call>): State
    decreases |calls|
  {
    if calls == [] then s else Session(style, CallSpec(style, s, calls[0]), calls[1..])
  }

  lemma {:induction false} LinesKeepHeaded(style: Style, s: State, lines: seq<string>, stream: Stream)
    requires WellHeaded(s)
    ensures WellHeaded(EmitLines(style, s, lines, stream))
    decreases |lines|
  {
    if lines != [] {
      EmitKeepsHeaded(style, s, lines[0], stream);
      LinesKeepHeaded(style, EmitLineSpec(style, s, lines[0], stream), lines[1..], stream);
    }
  }

  lemma {:induction false} FlushKeepsHeaded(style: Style, s: State, streams: seq<Stream>)
    requires WellHeaded(s)
    ensures WellHeaded(FlushFrom(style, s, streams))
    decreases |streams|
  {
    if streams != [] {
      var buffered := Buffered(s, streams[0]);
      EmitKeepsHeaded(style, s, buffered, streams[0]);
      FlushKeepsHeaded(style,
        if buffered == [] then s else SetBuffer(EmitLineSpec(style, s, buffered, streams[0]), streams[0], ""),
        streams[1..]);
    }
  }

  /** However streams interleave, every line of the transcript stands under the heading of its group. */
  lemma {:induction false} SessionIsWellHeaded(style: Style, s: State, calls: seq<Call>)
    requires WellHeaded(s) && Registered(s)
    ensures WellHeaded(Session(style, s, calls)) && Registered(Session(style, s, calls))
    decreases |calls|
  {
    if calls != [] {
      match calls[0]
      case Chunk(text, stream) =>
        var (lines, tail) := Split(Buffered(s, stream) + text);
        EmitThenSet(style, s, lines, stream, tail);
        LinesKeepHeaded(style, SetBuffer(s, stream, tail), lines, stream);
        SessionIsWellHeaded(style, WriteSpec(style, s, text, stream), calls[1..]);
      case FlushAll =>
        FlushKeepsHeaded(style, s, s.order);
        FlushFromEmpties(style, s, s.order);
        SessionIsWellHeaded(style, FlushSpec(style, s), calls[1..]);
    }
  }

  /** Everything the calls write to a stream. */
  function TextOn(calls: seq<Call>, stream: Stream): string {
    if calls == [] then ""
    else if calls[0].Chunk? && calls[0].stream == stream then calls[0].text + TextOn(calls[1..], stream)
    else TextOn(calls[1..], stream)
  }

  lemma SplitInTwoSteps(buffered: string, text: string, later: string)
    ensures var (lines, tail) := Split(buffered + text);
            Split(buffered + (text + later)) == (lines + Split(tail + later).0, Split(tail + later).1)
  {
    assert buffered + (text + later) == (buffered + text) + later;
    SplitConcat(buffered + text, later);
  }

  lemma WriteBuffers(style: Style, s: State, text: string, to: Stream, stream: Stream)
    ensures Buffered(WriteSpec(style, s, text, to), stream)
         == if stream == to then Split(Buffered(s, to) + text).1 else Buffered(s, stream)
  {
    var (lines, tail) := Split(Buffered(s, to) + text);
    EmitThenSet(style, s, lines, to, tail);
  }

  lemma {:induction false} WholeTail(s: string)
    requires Split(s).0 == []
    ensures Split(s).1 == s
  {
    if s != [] {
      WholeTail(s[1..]);
    }
  }
}
