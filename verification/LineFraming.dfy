// Incremental framing of a byte stream into messages: the accumulator loop that the
// synchronous and the asynchronous HTTP clients share, statement for statement.
module LineFraming {
  newtype byte = x: int | 0 <= x < 256

  const NEWLINE: byte := 10

  // What becomes of one line: decode, strip and JSON-parse are the caller's.  A line that is
  // blank once stripped is skipped; one that cannot be decoded or parsed ends the stream.
  datatype Parsed<+T> = Blank | Message(value: T) | Bad

  type Parser<!T> = seq<byte> -> Parsed<T>

  // The messages so far, and whether a bad line has ended the stream.
  datatype Stream<T> = Stream(messages: seq<T>, failed: bool)

  /* ---------- the meaning of a byte string ---------- */

  // The complete lines of a byte string, without their newlines, and what follows the last one.
  datatype Split = Split(lines: seq<seq<byte>>, tail: seq<byte>)

  const NOTHING := Split([], [])

  function FeedOne(s: Split, x: byte): Split {
    if x == NEWLINE then Split(s.lines + [s.tail], []) else Split(s.lines, s.tail + [x])
  }

  function Feed(s: Split, bytes: seq<byte>): Split {
    if bytes == [] then s else FeedOne(Feed(s, bytes[..|bytes| - 1]), bytes[|bytes| - 1])
  }

  function SplitOf(bytes: seq<byte>): Split {
    Feed(NOTHING, bytes)
  }

  function Take<T>(sofar: Stream<T>, parsed: Parsed<T>): Stream<T> {
    if sofar.failed then sofar
    else match parsed
         case Blank => sofar
         case Message(v) => Stream(sofar.messages + [v], false)
         case Bad => Stream(sofar.messages, true)
  }

  function Emit<T>(lines: seq<seq<byte>>, parse: Parser<T>): Stream<T> {
    if lines == [] then Stream([], false)
    else Take(Emit(lines[..|lines| - 1], parse), parse(lines[|lines| - 1]))
  }

  // All the lines, and the unterminated last one if there is any of it.
  function Meaning<T>(bytes: seq<byte>, parse: Parser<T>): Stream<T> {
    var split := SplitOf(bytes);
    var complete := Emit(split.lines, parse);
    if split.tail == [] then complete else Take(complete, parse(split.tail))
  }

  function Concat(chunks: seq<seq<byte>>): seq<byte> {
    if chunks == [] then [] else Concat(chunks[..|chunks| - 1]) + chunks[|chunks| - 1]
  }

  /* ---------- splitting ---------- */

  lemma {:induction false} FeedAppend(s: Split, a: seq<byte>, b: seq<byte>)
    ensures Feed(s, a + b) == Feed(Feed(s, a), b)
  {
    if b == [] {
      assert a + b == a;
    } else {
      assert (a + b)[..|a + b| - 1] == a + b[..|b| - 1];
      FeedAppend(s, a, b[..|b| - 1]);
    }
  }

  lemma {:induction false} NoNewline(s: Split, bytes: seq<byte>)
    requires NEWLINE !in bytes
    ensures Feed(s, bytes) == Split(s.lines, s.tail + bytes)
  {
    if bytes == [] {
      assert s.tail + bytes == s.tail;
    } else {
      NoNewline(s, bytes[..|bytes| - 1]);
      assert s.tail + bytes == s.tail + bytes[..|bytes| - 1] + [bytes[|bytes| - 1]];
    }
  }

  lemma OneLine(lines: seq<seq<byte>>, line: seq<byte>)
    requires NEWLINE !in line
    ensures Feed(Split(lines, []), line + [NEWLINE]) == Split(lines + [line], [])
  {
    NoNewline(Split(lines, []), line);
    assert [] + line == line;
    assert (line + [NEWLINE])[..|line|] == line;
  }

  lemma FirstLine(lines: seq<seq<byte>>, bytes: seq<byte>, index: nat)
    requires index < |bytes| && bytes[index] == NEWLINE && NEWLINE !in bytes[..index]
    ensures Feed(Split(lines, []), bytes) == Feed(Split(lines + [bytes[..index]], []), bytes[index + 1..])
  {
    assert bytes == bytes[..index] + [NEWLINE] + bytes[index + 1..];
    OneLine(lines, bytes[..index]);
    FeedAppend(Split(lines, []), bytes[..index] + [NEWLINE], bytes[index + 1..]);
  }

  // The accumulator stands for the tail: feeding it again on top of the lines changes nothing.
  lemma TailAgain(bytes: seq<byte>, more: seq<byte>)
    ensures SplitOf(bytes + more) == Feed(Split(SplitOf(bytes).lines, []), SplitOf(bytes).tail + more)
  {
    var s := SplitOf(bytes);
    FeedAppend(NOTHING, bytes, more);
    SplitNewlineFree(bytes);
    NoNewline(Split(s.lines, []), s.tail);
    assert [] + s.tail == s.tail;
    FeedAppend(Split(s.lines, []), s.tail, more);
  }

  // Each line followed by a newline.
  function Terminated(lines: seq<seq<byte>>): seq<byte> {
    if lines == [] then [] else Terminated(lines[..|lines| - 1]) + (lines[|lines| - 1] + [NEWLINE])
  }

  ghost predicate NewlineFree(lines: seq<seq<byte>>) {
    forall l :: l in lines ==> NEWLINE !in l
  }

  lemma TerminatedSnoc(lines: seq<seq<byte>>, line: seq<byte>)
    ensures Terminated(lines + [line]) == Terminated(lines) + (line + [NEWLINE])
  {
    assert (lines + [line])[..|lines|] == lines;
  }

  function Glued(s: Split): seq<byte> {
    Terminated(s.lines) + s.tail
  }

  // Splitting loses nothing: the lines are newline-free and put the bytes back together.
  lemma SplitIsExact(bytes: seq<byte>)
    ensures Glued(SplitOf(bytes)) == bytes
    ensures NewlineFree(SplitOf(bytes).lines) && NEWLINE !in SplitOf(bytes).tail
    ensures (10 as byte) !in SplitOf(bytes).tail && forall l :: l in SplitOf(bytes).lines ==> (10 as byte) !in l
  {
    SplitReassembles(bytes);
    SplitNewlineFree(bytes);
  }

  lemma GluedOne(s: Split, x: byte)
    ensures Glued(FeedOne(s, x)) == Glued(s) + [x]
  {
    if x == NEWLINE {
      TerminatedSnoc(s.lines, s.tail);
      assert Terminated(s.lines) + (s.tail + [NEWLINE]) + [] == Terminated(s.lines) + s.tail + [NEWLINE];
    } else {
      assert Terminated(s.lines) + (s.tail + [x]) == Terminated(s.lines) + s.tail + [x];
    }
  }

  lemma {:induction false} SplitReassembles(bytes: seq<byte>)
    ensures Glued(SplitOf(bytes)) == bytes
  {
    if bytes != [] {
      SplitReassembles(bytes[..|bytes| - 1]);
      GluedOne(SplitOf(bytes[..|bytes| - 1]), bytes[|bytes| - 1]);
      assert bytes == bytes[..|bytes| - 1] + [bytes[|bytes| - 1]];
    }
  }

  lemma {:induction false} SplitNewlineFree(bytes: seq<byte>)
    ensures NewlineFree(SplitOf(bytes).lines) && NEWLINE !in SplitOf(bytes).tail
  {
    if bytes != [] {
      SplitNewlineFree(bytes[..|bytes| - 1]);
    }
  }

  // And it is the only way to split them so.
  lemma {:induction false} SplitIsUnique(lines: seq<seq<byte>>, tail: seq<byte>)
    requires NewlineFree(lines) && NEWLINE !in tail
    ensures SplitOf(Terminated(lines) + tail) == Split(lines, tail)
  {
    WholeLines(lines);
    FeedAppend(NOTHING, Terminated(lines), tail);
    NoNewline(Split(lines, []), tail);
    assert [] + tail == tail;
  }

  lemma {:induction false} WholeLines(lines: seq<seq<byte>>)
    requires NewlineFree(lines)
    ensures SplitOf(Terminated(lines)) == Split(lines, [])
  {
    if lines != [] {
      var front, last := lines[..|lines| - 1], lines[|lines| - 1];
      assert last in lines;
      WholeLines(front);
      FeedAppend(NOTHING, Terminated(front), last + [NEWLINE]);
      OneLine(front, last);
      assert front + [last] == lines;
    }
  }

  /* ---------- the program ---------- */

  // bytearray.find for a one-byte separator: the first index of it, or -1.
  method Find(bytes: seq<byte>, separator: byte) returns (index: int)
    ensures -1 <= index < |bytes|
    ensures index < 0 <==> separator !in bytes
    ensures index >= 0 ==> bytes[index] == separator && separator !in bytes[..index]
  {
    for i := 0 to |bytes|
      invariant separator !in bytes[..i]
    {
      if bytes[i] == separator {
        return i;
      }
      assert bytes[..i + 1] == bytes[..i] + [bytes[i]];
    }
    assert bytes[..|bytes|] == bytes;
    return -1;
  }

  // What a chunk that arrives after `sofar` makes of the accumulator and the messages: afterwards
  // the accumulator is the newline-free tail of all the bytes and the messages are those of the
  // complete lines, up to the first bad one.
  method AcceptChunk<T>(accumulator: seq<byte>, messages: seq<T>, chunk: seq<byte>, parse: Parser<T>, ghost sofar: seq<byte>)
    returns (tail: seq<byte>, all: seq<T>, failed: bool)
    requires accumulator == SplitOf(sofar).tail && Stream(messages, false) == Emit(SplitOf(sofar).lines, parse)
    ensures Stream(all, failed) == Emit(SplitOf(sofar + chunk).lines, parse)
    ensures !failed ==> tail == SplitOf(sofar + chunk).tail && NEWLINE !in tail
  {
    ghost var lines := SplitOf(sofar).lines;
    TailAgain(sofar, chunk);
    tail, all := accumulator + chunk, messages;
    var index := Find(tail, NEWLINE);
    while index >= 0
      invariant -1 <= index < |tail|
      invariant index < 0 <==> NEWLINE !in tail
      invariant index >= 0 ==> tail[index] == NEWLINE && NEWLINE !in tail[..index]
      invariant SplitOf(sofar + chunk) == Feed(Split(lines, []), tail)
      invariant Stream(all, false) == Emit(lines, parse)
      decreases |tail|
    {
      var line := parse(tail[..index]);
      FirstLine(lines, tail, index);
      EmitSnoc(lines, tail[..index], parse);
      lines := lines + [tail[..index]];
      match line {
        case Blank =>
        case Message(value) => all := all + [value];
        case Bad =>
          BadLineStays(lines, tail[index + 1..], parse);
          return tail, all, true;
      }
      tail := tail[index + 1..];
      index := Find(tail, NEWLINE);
    }
    NoNewline(Split(lines, []), tail);
    assert [] + tail == tail;
    failed := false;
  }

  // Whatever the chunks, the stream is the meaning of their concatenation.
  method StreamingChat<T>(chunks: seq<seq<byte>>, parse: Parser<T>) returns (messages: seq<T>, failed: bool)
    ensures Stream(messages, failed) == Meaning(Concat(chunks), parse)
  {
    messages, failed := [], false;
    var accumulator: seq<byte> := [];
    for i := 0 to |chunks|
      invariant accumulator == SplitOf(Concat(chunks[..i])).tail
      invariant Stream(messages, false) == Emit(SplitOf(Concat(chunks[..i])).lines, parse)
    {
      assert chunks[..i + 1][..i] == chunks[..i];
      accumulator, messages, failed := AcceptChunk(accumulator, messages, chunks[i], parse, Concat(chunks[..i]));
      if failed {
        BadLineEnds(chunks, i + 1, parse);
        return messages, true;
      }
    }
    assert chunks[..|chunks|] == chunks;
    if |accumulator| > 0 {
      match parse(accumulator) {
        case Blank =>
        case Message(value) => messages := messages + [value];
        case Bad => failed := true;
      }
    }
  }

  lemma EmitSnoc<T>(lines: seq<seq<byte>>, line: seq<byte>, parse: Parser<T>)
    ensures Emit(lines + [line], parse) == Take(Emit(lines, parse), parse(line))
  {
    assert (lines + [line])[..|lines|] == lines;
  }

  lemma {:induction false} FailedStays<T>(lines: seq<seq<byte>>, more: seq<seq<byte>>, parse: Parser<T>)
    requires Emit(lines, parse).failed
    ensures Emit(lines + more, parse) == Emit(lines, parse)
  {
    if more == [] {
      assert lines + more == lines;
    } else {
      FailedStays(lines, more[..|more| - 1], parse);
      assert (lines + more)[..|lines + more| - 1] == lines + more[..|more| - 1];
    }
  }

  lemma {:induction false} ConcatSplits(chunks: seq<seq<byte>>, i: nat)
    requires i <= |chunks|
    ensures Concat(chunks) == Concat(chunks[..i]) + Concat(chunks[i..])
  {
    if i == |chunks| {
      assert chunks[..i] == chunks;
    } else {
      var front := chunks[..|chunks| - 1];
      ConcatSplits(front, i);
      assert front[..i] == chunks[..i] && chunks[i..][..|chunks| - i - 1] == front[i..];
    }
  }

  lemma {:induction false} FeedKeepsLines(s: Split, bytes: seq<byte>) returns (more: seq<seq<byte>>)
    ensures Feed(s, bytes).lines == s.lines + more
  {
    if bytes == [] {
      more := [];
    } else {
      more := FeedKeepsLines(s, bytes[..|bytes| - 1]);
      var before := Feed(s, bytes[..|bytes| - 1]);
      if bytes[|bytes| - 1] == NEWLINE {
        assert s.lines + more + [before.tail] == s.lines + (more + [before.tail]);
        more := more + [before.tail];
      }
    }
  }

  lemma BadLineStays<T>(lines: seq<seq<byte>>, rest: seq<byte>, parse: Parser<T>)
    requires Emit(lines, parse).failed
    ensures Emit(Feed(Split(lines, []), rest).lines, parse) == Emit(lines, parse)
  {
    var later := FeedKeepsLines(Split(lines, []), rest);
    FailedStays(lines, later, parse);
  }

  lemma BadLineEnds<T>(chunks: seq<seq<byte>>, i: nat, parse: Parser<T>)
    requires i <= |chunks| && Emit(SplitOf(Concat(chunks[..i])).lines, parse).failed
    ensures Meaning(Concat(chunks), parse) == Emit(SplitOf(Concat(chunks[..i])).lines, parse)
  {
    var sofar, more := Concat(chunks[..i]), Concat(chunks[i..]);
    ConcatSplits(chunks, i);
    TailAgain(sofar, more);
    BadLineStays(SplitOf(sofar).lines, SplitOf(sofar).tail + more, parse);
  }

  /* ---------- what the clients promise ---------- */

  // Lines separated by newlines, the last one unterminated.
  function Joined(lines: seq<seq<byte>>): seq<byte> {
    if lines == [] then [] else Terminated(lines[..|lines| - 1]) + lines[|lines| - 1]
  }

  lemma {:induction false} EmitAll<T>(lines: seq<seq<byte>>, values: seq<T>, parse: Parser<T>)
    requires |lines| == |values| && forall i :: 0 <= i < |lines| ==> parse(lines[i]) == Message(values[i])
    ensures Emit(lines, parse) == Stream(values, false)
  {
    if lines != [] {
      EmitAll(lines[..|lines| - 1], values[..|values| - 1], parse);
      assert values == values[..|values| - 1] + [values[|values| - 1]];
    }
  }

  // Messages written one to a line come back, whether or not the last line is terminated, and
  // however the bytes are cut into chunks.
  lemma MessagesComeBack<T>(lines: seq<seq<byte>>, values: seq<T>, chunks: seq<seq<byte>>, parse: Parser<T>)
    requires NewlineFree(lines) && |lines| == |values|
    requires forall i :: 0 <= i < |lines| ==> lines[i] != [] && parse(lines[i]) == Message(values[i])
    requires Concat(chunks) == Joined(lines) || Concat(chunks) == Terminated(lines)
    ensures Meaning(Concat(chunks), parse) == Stream(values, false)
  {
    EmitAll(lines, values, parse);
    if Concat(chunks) == Terminated(lines) {
      WholeLines(lines);
    } else if lines != [] {
      LastLineUnterminated(lines, parse);
    }
  }

  lemma LastLineUnterminated<T>(lines: seq<seq<byte>>, parse: Parser<T>)
    requires lines != [] && NewlineFree(lines) && lines[|lines| - 1] != []
    ensures Meaning(Joined(lines), parse) == Emit(lines, parse)
  {
    var front, last := lines[..|lines| - 1], lines[|lines| - 1];
    assert last in lines;
    SplitIsUnique(front, last);
  }

  // A line that cannot be decoded or parsed ends the stream: the messages before it came, and
  // nothing behind it does, terminated or not.
  lemma BadLineEndsStream<T>(lines: seq<seq<byte>>, values: seq<T>, bad: seq<byte>, rest: seq<byte>, parse: Parser<T>)
    requires NewlineFree(lines) && NEWLINE !in bad && bad != [] && parse(bad) == Bad && |lines| == |values|
    requires forall i :: 0 <= i < |lines| ==> parse(lines[i]) == Message(values[i])
    ensures Meaning(Terminated(lines) + bad, parse) == Stream(values, true)
    ensures Meaning(Terminated(lines + [bad]) + rest, parse) == Stream(values, true)
  {
    EmitAll(lines, values, parse);
    SplitIsUnique(lines, bad);
    EmitSnoc(lines, bad, parse);
    var sofar := lines + [bad];
    WholeLines(sofar);
    FeedAppend(NOTHING, Terminated(sofar), rest);
    BadLineStays(sofar, rest, parse);
  }

  // A blank rest without a newline adds nothing.
  lemma BlankTailVanishes<T>(lines: seq<seq<byte>>, blank: seq<byte>, parse: Parser<T>)
    requires NewlineFree(lines) && NEWLINE !in blank && parse(blank) == Blank
    ensures Meaning(Terminated(lines) + blank, parse) == Emit(lines, parse) == Meaning(Terminated(lines), parse)
  {
    SplitIsUnique(lines, blank);
    WholeLines(lines);
  }

  // Blank lines between messages change nothing.
  lemma {:induction false} BlankLinesVanish<T>(lines: seq<seq<byte>>, blank: seq<byte>, more: seq<seq<byte>>, parse: Parser<T>)
    requires parse(blank) == Blank
    ensures Emit(lines + [blank] + more, parse) == Emit(lines + more, parse)
  {
    if more == [] {
      assert (lines + [blank] + [])[..|lines|] == lines && lines + [] == lines;
    } else {
      var front := more[..|more| - 1];
      BlankLinesVanish(lines, blank, front, parse);
      assert (lines + [blank] + more)[..|lines| + |more|] == lines + [blank] + front;
      assert (lines + more)[..|lines + more| - 1] == lines + front;
    }
  }
}
