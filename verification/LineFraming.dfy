/**
 * Newline framing of the IPC stream: however the bytes are cut into chunks, the reader
 * emits the lines of the whole stream, so encoded messages arrive as they were sent.
 */
module LineFraming {
  import opened Common
  import opened Separators

  const NEWLINE := '\n'

  // ------------------------------------------------------- lines of a stream

  /** `s` is the complete lines `lines` and the unfinished rest `residue`. */
  ghost predicate IsSplit(s: string, lines: seq<string>, residue: string) {
    AreFree(NEWLINE, lines) && NEWLINE !in residue && s == Terminate(NEWLINE, lines) + residue
  }

  lemma TakeLine(lines: seq<string>, buffer: string, i: nat)
    requires i < |buffer| && buffer[i] == NEWLINE
    ensures Terminate(NEWLINE, lines) + buffer == Terminate(NEWLINE, lines + [buffer[..i]]) + buffer[i + 1..]
  {
    var line, rest := buffer[..i], buffer[i + 1..];
    TerminateConcat(NEWLINE, lines, [line]);
    assert Terminate(NEWLINE, [line]) == line + [NEWLINE];
    assert buffer == line + [NEWLINE] + rest;
  }

  /** Splitting can go on from the unfinished rest. */
  lemma SplitOn(s: string, lines: seq<string>, rest: string, chunk: string, more: seq<string>, residue: string)
    requires IsSplit(s, lines, rest) && IsSplit(rest + chunk, more, residue)
    ensures IsSplit(s + chunk, lines + more, residue)
  {
    hide Terminate;
    TerminateConcat(NEWLINE, lines, more);
    assert s + chunk == Terminate(NEWLINE, lines) + (rest + chunk);
    assert Terminate(NEWLINE, lines) + (Terminate(NEWLINE, more) + residue)
        == Terminate(NEWLINE, lines + more) + residue;
  }

  /** A stream has one split. */
  lemma {:induction false} SplitUnique(a: seq<string>, r: string, b: seq<string>, q: string)
    requires IsSplit(Terminate(NEWLINE, a) + r, a, r) && IsSplit(Terminate(NEWLINE, a) + r, b, q)
    ensures a == b && r == q
  {
    if a != [] && b != [] {
      var u, v := Terminate(NEWLINE, a[1..]) + r, Terminate(NEWLINE, b[1..]) + q;
      assert Terminate(NEWLINE, a) + r == a[0] + [NEWLINE] + u && Terminate(NEWLINE, b) + q == b[0] + [NEWLINE] + v;
      SameFirstPart(NEWLINE, a[0], b[0], u, v);
      SameFirstPart(NEWLINE, b[0], a[0], v, u);
      SplitUnique(a[1..], r, b[1..], q);
      assert a == [a[0]] + a[1..] && b == [b[0]] + b[1..];
    } else {
      PartsHaveEnds(NEWLINE, a, r);
      PartsHaveEnds(NEWLINE, b, q);
    }
  }

  // ------------------------------------------------------- the reader

  /** One connection's reader; the stream received and the lines emitted are history. */
  class LineReader {
    var buffer: string
    ghost var received: string
    ghost var emitted: seq<string>

    ghost predicate Valid()
      reads this
    {
      IsSplit(received, emitted, buffer)
    }

    constructor ()
      ensures Valid() && buffer == "" && received == "" && emitted == []
    {
      buffer, received, emitted := "", "", [];
    }

    method OnData(chunk: string) returns (lines: seq<string>)
      requires Valid()
      modifies this
      ensures Valid()
      ensures received == old(received) + chunk && emitted == old(emitted) + lines
      ensures IsSplit(old(buffer) + chunk, lines, buffer)
    {
      hide Terminate, IndexOf;
      buffer := buffer + chunk;
      lines := [];
      assert Terminate(NEWLINE, []) + buffer == buffer by { PartsHaveEnds(NEWLINE, [], buffer); }
      var newlineIdx := IndexOf(buffer, NEWLINE);
      while newlineIdx.Some?
        invariant newlineIdx == IndexOf(buffer, NEWLINE)
        invariant received == old(received) && emitted == old(emitted)
        invariant AreFree(NEWLINE, lines) && old(buffer) + chunk == Terminate(NEWLINE, lines) + buffer
        decreases |buffer|
      {
        TakeLine(lines, buffer, newlineIdx.value);
        var line := buffer[..newlineIdx.value];
        buffer := buffer[newlineIdx.value + 1..];
        lines := lines + [line];
        newlineIdx := IndexOf(buffer, NEWLINE);
      }
      SplitOn(received, emitted, old(buffer), chunk, lines, buffer);
      received, emitted := received + chunk, emitted + lines;
    }
  }

  // ------------------------------------------------------- every chunking

  function Flatten<T>(parts: seq<seq<T>>): seq<T> {
    if parts == [] then [] else Flatten(parts[..|parts| - 1]) + parts[|parts| - 1]
  }

  /** A fresh reader is given the chunks one by one; `buffers[i]` is its buffer before chunk `i`. */
  ghost predicate IsRun(chunks: seq<string>, buffers: seq<string>, outputs: seq<seq<string>>) {
    && |buffers| == |chunks| + 1 && |outputs| == |chunks|
    && buffers[0] == ""
    && forall i :: 0 <= i < |chunks| ==> IsSplit(buffers[i] + chunks[i], outputs[i], buffers[i + 1])
  }

  /** The lines emitted over a run and the last buffer are the split of the whole stream. */
  lemma {:induction false} RunSplitsStream(chunks: seq<string>, buffers: seq<string>, outputs: seq<seq<string>>)
    requires IsRun(chunks, buffers, outputs)
    ensures IsSplit(Flatten(chunks), Flatten(outputs), buffers[|chunks|])
  {
    if chunks != [] {
      var n := |chunks| - 1;
      RunSplitsStream(chunks[..n], buffers[..n + 1], outputs[..n]);
      SplitOn(Flatten(chunks[..n]), Flatten(outputs[..n]), buffers[n], chunks[n], outputs[n], buffers[n + 1]);
    }
  }

  /** How the stream was cut makes no difference. */
  lemma ChunkingDoesNotMatter(
      chunks: seq<string>, buffers: seq<string>, outputs: seq<seq<string>>,
      chunks': seq<string>, buffers': seq<string>, outputs': seq<seq<string>>)
    requires IsRun(chunks, buffers, outputs) && IsRun(chunks', buffers', outputs')
    requires Flatten(chunks) == Flatten(chunks')
    ensures Flatten(outputs) == Flatten(outputs') && buffers[|chunks|] == buffers'[|chunks'|]
  {
    RunSplitsStream(chunks, buffers, outputs);
    RunSplitsStream(chunks', buffers', outputs');
    SplitUnique(Flatten(outputs), buffers[|chunks|], Flatten(outputs'), buffers'[|chunks'|]);
  }

  // ------------------------------------------------------- messages

  datatype Result<+T> = Ok(value: T) | Err(reason: string)

  /** The characters `String.prototype.trim` removes. */
  predicate IsWhite(c: char) {
    var code := c as int;
    || 9 <= code <= 13 || code == 0x20 || code == 0xA0 || code == 0x1680 || 0x2000 <= code <= 0x200A
    || code == 0x2028 || code == 0x2029 || code == 0x202F || code == 0x205F || code == 0x3000 || code == 0xFEFF
  }

  const UNICODE_SPACES :=
    "\U{A0}\U{1680}\U{2000}\U{2001}\U{2002}\U{2003}\U{2004}\U{2005}\U{2006}\U{2007}" +
    "\U{2008}\U{2009}\U{200A}\U{2028}\U{2029}\U{202F}\U{205F}\U{3000}\U{FEFF}"

  /** Which they are: tab to carriage return, the space, and the Unicode spaces and line ends. */
  lemma WhiteSpace(c: char)
    ensures IsWhite(c) <==> c in "\t\n\U{B}\U{C}\r " || c in UNICODE_SPACES
  {
  }

  function TrimStart(s: string): string {
    if s != "" && IsWhite(s[0]) then TrimStart(s[1..]) else s
  }

  function TrimEnd(s: string): string {
    if s != "" && IsWhite(s[|s| - 1]) then TrimEnd(s[..|s| - 1]) else s
  }

  function Trim(s: string): string {
    TrimEnd(TrimStart(s))
  }

  function EncodeMessage<M>(stringify: M -> Option<string>, msg: M): Result<string> {
    match stringify(msg)
    case None => Err("cannot encode value as JSON")
    case Some(json) => Ok(json + [NEWLINE])
  }

  function DecodeMessage<M>(parse: string -> Result<M>, line: string): Result<M> {
    match parse(Trim(line))
    case Ok(msg) => Ok(msg)
    case Err(reason) => Err("invalid JSON: " + reason)
  }

  /** What is used of JSON: a text has no newline and no outer white space, and parses back. */
  ghost predicate IsCodec<M(!new)>(stringify: M -> Option<string>, parse: string -> Result<M>) {
    forall msg :: stringify(msg).Some? ==>
      var json := stringify(msg).value;
      && NEWLINE !in json && json != "" && !IsWhite(json[0]) && !IsWhite(json[|json| - 1])
      && parse(json) == Ok(msg)
  }

  lemma {:induction false} TrimStartOf(before: string, s: string)
    requires forall i :: 0 <= i < |before| ==> IsWhite(before[i])
    requires s != "" && !IsWhite(s[0])
    ensures TrimStart(before + s) == s
  {
    hide IsWhite;
    if before == "" {
      assert before + s == s;
    } else {
      TrimStartOf(before[1..], s);
      assert (before + s)[1..] == before[1..] + s;
    }
  }

  lemma {:induction false} TrimEndOf(s: string, after: string)
    requires forall i :: 0 <= i < |after| ==> IsWhite(after[i])
    requires s != "" && !IsWhite(s[|s| - 1])
    ensures TrimEnd(s + after) == s
  {
    hide IsWhite;
    var n := |after| - 1;
    if after == "" {
      assert s + after == s;
    } else {
      TrimEndOf(s, after[..n]);
      assert (s + after)[..|s| + n] == s + after[..n];
    }
  }

  /** A message decodes from its line, whatever white space a peer puts around it. */
  lemma DecodesWithinSpace<M(!new)>(
      stringify: M -> Option<string>, parse: string -> Result<M>, msg: M, before: string, after: string)
    requires IsCodec(stringify, parse) && stringify(msg).Some?
    requires forall i :: 0 <= i < |before| ==> IsWhite(before[i])
    requires forall i :: 0 <= i < |after| ==> IsWhite(after[i])
    ensures DecodeMessage(parse, before + stringify(msg).value + after) == Ok(msg)
  {
    hide IsWhite;
    var json := stringify(msg).value;
    assert before + json + after == before + (json + after);
    TrimStartOf(before, json + after);
    TrimEndOf(json, after);
  }

  /** A value without a text is not sent, and a line that does not parse is reported with the reason. */
  lemma FailuresAreNamed<M>(stringify: M -> Option<string>, parse: string -> Result<M>, msg: M, line: string)
    ensures stringify(msg) == None ==> EncodeMessage(stringify, msg) == Err("cannot encode value as JSON")
    ensures parse(Trim(line)).Err? ==>
              DecodeMessage(parse, line) == Err("invalid JSON: " + parse(Trim(line)).reason)
  {
  }

  /** The messages have encodings, and `stream` is these one after the other. */
  ghost predicate IsEncoded<M>(stringify: M -> Option<string>, msgs: seq<M>, stream: string) {
    if msgs == [] then stream == ""
    else
      && var first := EncodeMessage(stringify, msgs[0]);
      && first.Ok? && first.value <= stream
      && IsEncoded(stringify, msgs[1..], stream[|first.value|..])
  }

  lemma {:induction false} EncodedIsFramed<M(!new)>(
      stringify: M -> Option<string>, parse: string -> Result<M>, msgs: seq<M>, stream: string)
    returns (lines: seq<string>)
    requires IsCodec(stringify, parse) && IsEncoded(stringify, msgs, stream)
    ensures |lines| == |msgs| && AreFree('\n', lines) && stream == Terminate('\n', lines)
    ensures forall i :: 0 <= i < |msgs| ==> stringify(msgs[i]) == Some(lines[i])
  {
    hide IsWhite;
    if msgs == [] {
      lines := [];
    } else {
      var first := EncodeMessage(stringify, msgs[0]).value;
      var rest := EncodedIsFramed(stringify, parse, msgs[1..], stream[|first|..]);
      lines := [stringify(msgs[0]).value] + rest;
      assert lines[1..] == rest;
    }
  }

  /**
   * At every moment of every chunking, the lines emitted so far decode to the first
   * messages sent, in order, and what is buffered is no complete message.
   */
  lemma MessagesArriveInOrder<M(!new)>(
      stringify: M -> Option<string>, parse: string -> Result<M>, msgs: seq<M>, stream: string,
      chunks: seq<string>, buffers: seq<string>, outputs: seq<seq<string>>)
    requires IsCodec(stringify, parse) && IsEncoded(stringify, msgs, stream)
    requires IsRun(chunks, buffers, outputs) && Flatten(chunks) <= stream
    ensures |Flatten(outputs)| <= |msgs|
    ensures forall i :: 0 <= i < |Flatten(outputs)| ==> DecodeMessage(parse, Flatten(outputs)[i]) == Ok(msgs[i])
    ensures Flatten(chunks) == stream ==> |Flatten(outputs)| == |msgs| && buffers[|chunks|] == ""
  {
    hide IsWhite, Trim;
    var lines := EncodedIsFramed(stringify, parse, msgs, stream);
    var emitted, rest := Flatten(outputs), buffers[|chunks|];
    RunSplitsStream(chunks, buffers, outputs);
    PartsOfPrefix(NEWLINE, emitted, rest, lines);
    forall i | 0 <= i < |emitted|
      ensures DecodeMessage(parse, emitted[i]) == Ok(msgs[i])
    {
      DecodesWithinSpace(stringify, parse, msgs[i], "", "");
      assert emitted[i] == "" + lines[i] + "";
    }
    if Flatten(chunks) == stream {
      assert stream == Terminate(NEWLINE, lines) + "";
      SplitUnique(lines, "", emitted, rest);
    }
  }
}
