/** Server-sent events: how the server prints them and how the dashboard reads them back, in whatever
    pieces the network delivers the text. */
module Sse {
  import opened Basics

  const MAX_BUFFER := 1_000_000

  datatype Message = Message(data: string, id: Option<string>, kind: string)

  // ---- where frames and lines end --------------------------------------------------------

  /** The length of the line end at `i`: 1 for LF, 2 for CR LF, 0 for none. */
  function LineEnd(s: string, i: nat): (n: nat)
    ensures n <= 2 && (n > 0 ==> i + n <= |s|)
  {
    if i < |s| && s[i] == '\n' then 1
    else if i + 1 < |s| && s[i] == '\r' && s[i + 1] == '\n' then 2
    else 0
  }

  /** The length of the blank line that ends a frame at `i`: two line ends in a row. */
  function FrameEnd(s: string, i: nat): (n: nat)
    ensures n > 0 ==> i + n <= |s|
  {
    var a := LineEnd(s, i);
    var b := LineEnd(s, i + a);
    if a > 0 && b > 0 then a + b else 0
  }

  function FirstFrameEnd(s: string, from: nat): (i: nat)
    requires from <= |s|
    ensures from <= i <= |s|
    ensures forall k :: from <= k < i ==> FrameEnd(s, k) == 0
    ensures i < |s| ==> FrameEnd(s, i) > 0
    decreases |s| - from
  {
    if from == |s| || FrameEnd(s, from) > 0 then from else FirstFrameEnd(s, from + 1)
  }

  function FirstLineEnd(s: string, from: nat): (i: nat)
    requires from <= |s|
    ensures from <= i <= |s|
    ensures forall k :: from <= k < i ==> LineEnd(s, k) == 0
    ensures i < |s| ==> LineEnd(s, i) > 0
    decreases |s| - from
  {
    if from == |s| || LineEnd(s, from) > 0 then from else FirstLineEnd(s, from + 1)
  }

  /** `frame.split(/\r?\n/)`. */
  function Lines(s: string): (lines: seq<string>)
    ensures lines != []
    decreases |s|
  {
    var i := FirstLineEnd(s, 0);
    if i == |s| then [s] else [s[..i]] + Lines(s[i + LineEnd(s, i)..])
  }

  // ---- what one frame says ---------------------------------------------------------------

  predicate StartsWith(s: string, p: string) { p <= s }

  /** The white space and line ends that `trim` removes. */
  predicate Blank(c: char) {
    || c == ' ' || '\t' <= c <= '\r' || c == '\U{00A0}' || c == '\U{1680}' || '\U{2000}' <= c <= '\U{200A}'
    || c == '\U{2028}' || c == '\U{2029}' || c == '\U{202F}' || c == '\U{205F}' || c == '\U{3000}'
    || c == '\U{FEFF}'
  }

  function Trim(s: string): (t: string)
    ensures |t| <= |s|
    ensures t == "" || (!Blank(t[0]) && !Blank(t[|t| - 1]))
    ensures s == "" || (!Blank(s[0]) && !Blank(s[|s| - 1])) ==> t == s
    decreases |s|
  {
    if s == "" then s
    else if Blank(s[0]) then Trim(s[1..])
    else if Blank(s[|s| - 1]) then Trim(s[..|s| - 1])
    else s
  }

  function Join(parts: seq<string>): string {
    if parts == [] then ""
    else if |parts| == 1 then parts[0]
    else Join(parts[..|parts| - 1]) + "\n" + parts[|parts| - 1]
  }

  /** The `data:` lines of a frame, each without one leading space. */
  function DataOf(lines: seq<string>): seq<string> {
    if lines == [] then []
    else
      var line := lines[|lines| - 1];
      DataOf(lines[..|lines| - 1]) + if StartsWith(line, "data:") then [Unspaced(line[5..])] else []
  }

  function Unspaced(s: string): string { if s != "" && s[0] == ' ' then s[1..] else s }

  /** The last `id:` line decides. */
  function IdOf(lines: seq<string>): Option<string> {
    if lines == [] then None
    else
      var line := lines[|lines| - 1];
      if StartsWith(line, "id:") then Some(Trim(line[3..])) else IdOf(lines[..|lines| - 1])
  }

  /** The last `event:` line decides; an empty one, or none, means "message". */
  function KindOf(lines: seq<string>): string {
    if lines == [] then "message"
    else
      var line := lines[|lines| - 1];
      if StartsWith(line, "event:") then (var k := Trim(line[6..]); if k == "" then "message" else k)
      else KindOf(lines[..|lines| - 1])
  }

  /** A frame without data says nothing. */
  function Read(frame: string): seq<Message> {
    var lines := Lines(frame);
    var data := DataOf(lines);
    if data == [] then [] else [Message(Join(data), IdOf(lines), KindOf(lines))]
  }

  // ---- a whole text ----------------------------------------------------------------------

  datatype Decoded = Decoded(messages: seq<Message>, rest: string)

  /** The first complete frame, and the text after its blank line. */
  function Cut(s: string): (c: Option<(string, string)>)
    ensures c.Some? ==> |c.value.1| < |s|
  {
    var i := FirstFrameEnd(s, 0);
    if i == |s| then None else Some((s[..i], s[i + FrameEnd(s, i)..]))
  }

  function Decode(s: string): Decoded
    decreases |s|
  {
    match Cut(s)
    case None => Decoded([], s)
    case Some((frame, rest)) => Decoded(Read(frame) + Decode(rest).messages, Decode(rest).rest)
  }

  /** More text does not move a frame's end: not even a blank line cut in two, or a CR cut from its LF. */
  lemma FrameEndStays(a: string, b: string)
    requires FirstFrameEnd(a, 0) < |a|
    ensures var i := FirstFrameEnd(a, 0);
            FirstFrameEnd(a + b, 0) == i && FrameEnd(a + b, i) == FrameEnd(a, i)
  {
    var i := FirstFrameEnd(a, 0);
    EndStays(a, b, i);
    forall k | 0 <= k < i ensures FrameEnd(a + b, k) == 0 {
      NoneAppears(a, b, k, i);
    }
    FirstIs(a + b, i);
  }

  lemma EndStays(a: string, b: string, i: nat)
    requires FrameEnd(a, i) > 0
    ensures FrameEnd(a + b, i) == FrameEnd(a, i)
  {
  }

  lemma FirstIs(s: string, i: nat)
    requires i < |s| && FrameEnd(s, i) > 0 && forall k :: 0 <= k < i ==> FrameEnd(s, k) == 0
    ensures FirstFrameEnd(s, 0) == i
  {
  }

  lemma NoneAppears(a: string, b: string, k: nat, i: nat)
    requires k < i && FrameEnd(a, i) > 0 && FrameEnd(a, k) == 0
    ensures FrameEnd(a + b, k) == 0
  {
  }

  /** A complete frame stays what it is when more text comes. */
  lemma CutStays(a: string, b: string)
    requires Cut(a).Some?
    ensures Cut(a + b) == Some((Cut(a).value.0, Cut(a).value.1 + b))
  {
    hide FrameEnd;
    FrameEndStays(a, b);
    var i := FirstFrameEnd(a, 0);
    assert (a + b)[..i] == a[..i];
    assert (a + b)[i + FrameEnd(a, i)..] == a[i + FrameEnd(a, i)..] + b;
  }

  /** Decoding may stop anywhere and go on with what is left. */
  lemma {:induction false} DecodeResumes(a: string, b: string)
    ensures var first := Decode(a);
            var second := Decode(first.rest + b);
            Decode(a + b) == Decoded(first.messages + second.messages, second.rest)
    decreases |a|
  {
    hide Cut, Read;
    if Cut(a).Some? {
      CutStays(a, b);
      DecodeResumes(Cut(a).value.1, b);
    }
  }

  // ---- the decoder -----------------------------------------------------------------------

  class SseDecoder {
    var buffer: string

    constructor ()
      ensures buffer == ""
    {
      buffer := "";
    }

    /** Take in a chunk and report every message it completes. A buffer too large is refused before
        anything is read from it. */
    method Push(chunk: string) returns (r: Result<seq<Message>, string>)
      modifies this
      ensures r.Ok? <==> |old(buffer) + chunk| <= 1_000_000
      ensures r.Ok? ==> Decoded(r.value, buffer) == Decode(old(buffer) + chunk)
      ensures r.Err? ==> buffer == old(buffer) + chunk
    {
      hide Cut, Read;
      buffer := buffer + chunk;
      if |buffer| > MAX_BUFFER {
        return Err("Live-update frame too large");
      }
      var messages: seq<Message> := [];
      ghost var all := buffer;
      var cut := Cut(buffer);
      while cut.Some?
        invariant cut == Cut(buffer)
        invariant Decode(all)
               == Decoded(messages + Decode(buffer).messages, Decode(buffer).rest)
        decreases |buffer|
      {
        buffer := cut.value.1;
        var said := ReadFrame(cut.value.0);
        messages := messages + said;
        cut := Cut(buffer);
      }
      return Ok(messages);
    }
  }

  method ReadFrame(frame: string) returns (said: seq<Message>)
    ensures said == Read(frame)
  {
    var lines := Lines(frame);
    var data: seq<string>, id: Option<string>, kind := [], None, "message";
    for n := 0 to |lines|
      invariant data == DataOf(lines[..n]) && id == IdOf(lines[..n]) && kind == KindOf(lines[..n])
    {
      var line := lines[n];
      assert lines[..n + 1][..n] == lines[..n];
      if StartsWith(line, "event:") {
        kind := Trim(line[6..]);
        if kind == "" {
          kind := "message";
        }
      }
      if StartsWith(line, "data:") {
        data := data + [Unspaced(line[5..])];
      }
      if StartsWith(line, "id:") {
        id := Some(Trim(line[3..]));
      }
    }
    assert lines[..|lines|] == lines;
    if data != [] {
      return [Message(Join(data), id, kind)];
    }
    return [];
  }

  // ---- any way of cutting the text -------------------------------------------------------

  function Concat(chunks: seq<string>): string {
    if chunks == [] then "" else Concat(chunks[..|chunks| - 1]) + chunks[|chunks| - 1]
  }

  /** One decoder fed chunk after chunk, from an empty buffer: None once a push is refused. */
  function Feed(chunks: seq<string>): Option<Decoded> {
    if chunks == [] then Some(Decoded([], ""))
    else
      match Feed(chunks[..|chunks| - 1])
      case None => None
      case Some(d) =>
        var buffer := d.rest + chunks[|chunks| - 1];
        if |buffer| > MAX_BUFFER then None
        else Some(Decoded(d.messages + Decode(buffer).messages, Decode(buffer).rest))
  }

  /** The decoder object, fed the same chunks, does the same. */
  method FeedDecoder(decoder: SseDecoder, chunks: seq<string>) returns (r: Option<seq<Message>>)
    requires decoder.buffer == ""
    modifies decoder
    ensures r.None? <==> Feed(chunks).None?
    ensures r.Some? ==> Feed(chunks) == Some(Decoded(r.value, decoder.buffer))
  {
    var all: seq<Message> := [];
    for n := 0 to |chunks|
      invariant Feed(chunks[..n]) == Some(Decoded(all, decoder.buffer))
    {
      assert chunks[..n + 1][..n] == chunks[..n];
      var pushed := decoder.Push(chunks[n]);
      if pushed.Err? {
        RefusedForGood(chunks, n + 1);
        return None;
      }
      all := all + pushed.value;
    }
    assert chunks[..|chunks|] == chunks;
    return Some(all);
  }

  lemma {:induction false} RefusedForGood(chunks: seq<string>, n: nat)
    requires n <= |chunks| && Feed(chunks[..n]).None?
    ensures Feed(chunks).None?
    decreases |chunks| - n
  {
    if n == |chunks| {
      assert chunks[..n] == chunks;
    } else {
      assert chunks[..n + 1][..n] == chunks[..n];
      RefusedForGood(chunks, n + 1);
    }
  }

  /** However a text is cut, a decoder that refuses no chunk reports what the whole text says, and
      keeps the same unfinished rest. */
  lemma {:induction false} ChunkingDoesNotMatter(chunks: seq<string>)
    requires Feed(chunks).Some?
    ensures Feed(chunks).value == Decode(Concat(chunks))
  {
    if chunks != [] {
      var front := chunks[..|chunks| - 1];
      ChunkingDoesNotMatter(front);
      DecodeResumes(Concat(front), chunks[|chunks| - 1]);
    }
  }
}
