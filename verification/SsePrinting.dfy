/** What the server writes on the stream, and that the dashboard reads exactly that back. */
module SsePrinting {
  import opened Basics
  import opened Sse

  datatype Frame = Retry | KeepAlive | Change(id: string, kind: string, payload: string)

  function Body(f: Frame): string {
    match f
    case Retry => "retry: 2000"
    case KeepAlive => ": keep-alive"
    case Change(id, kind, payload) => IdLine(id) + "\n" + (EventLine(kind) + "\n" + DataLine(payload))
  }

  function IdLine(id: string): string { "id: " + id }

  function EventLine(kind: string): string { "event: " + kind }

  function DataLine(payload: string): string { "data: " + payload }

  function Print(f: Frame): string { Body(f) + "\n\n" }

  function PrintAll(frames: seq<Frame>): string {
    if frames == [] then "" else Print(frames[0]) + PrintAll(frames[1..])
  }

  predicate OneLine(s: string) { forall k :: 0 <= k < |s| ==> s[k] != '\n' && s[k] != '\r' }

  predicate Printable(f: Frame) { f.Change? ==> OneLine(f.id) && OneLine(f.kind) && OneLine(f.payload) }

  /** What a frame tells the dashboard: a change's exact payload, its id and kind without surrounding
      space. The other frames tell it nothing. */
  function Meaning(f: Frame): seq<Message> {
    if !f.Change? then []
    else [Message(f.payload, Some(Trim(f.id)), if Trim(f.kind) == "" then "message" else Trim(f.kind))]
  }

  function Meanings(frames: seq<Frame>): seq<Message> {
    if frames == [] then [] else Meaning(frames[0]) + Meanings(frames[1..])
  }

  // ---- where a printed frame ends --------------------------------------------------------

  /** Nothing in it could be taken for the end of a frame. */
  predicate Unbroken(s: string) {
    && s != "" && s[0] != '\n' && s[|s| - 1] != '\n'
    && (forall k :: 0 <= k < |s| ==> s[k] != '\r')
    && (forall k :: 0 < k < |s| ==> s[k - 1] != '\n' || s[k] != '\n')
  }

  lemma UnbrokenLines(a: string, b: string)
    requires Unbroken(a) && Unbroken(b)
    ensures Unbroken(a + "\n" + b)
  {
  }

  lemma BodyUnbroken(f: Frame)
    requires Printable(f)
    ensures Unbroken(Body(f))
  {
    if f.Change? {
      hide Unbroken;
      LineUnbroken(IdLine(f.id));
      LineUnbroken(EventLine(f.kind));
      LineUnbroken(DataLine(f.payload));
      UnbrokenLines(EventLine(f.kind), DataLine(f.payload));
      UnbrokenLines(IdLine(f.id), EventLine(f.kind) + "\n" + DataLine(f.payload));
    }
  }

  lemma LineUnbroken(s: string)
    requires s != "" && OneLine(s)
    ensures Unbroken(s)
  {
  }

  lemma CutPrinted(body: string, tail: string)
    requires Unbroken(body)
    ensures Cut(body + "\n\n" + tail) == Some((body, tail))
  {
    var s := body + "\n\n" + tail;
    forall k | 0 <= k < |body| ensures FrameEnd(s, k) == 0 {
      NoEndInside(body, tail, k);
    }
    EndsHere(body, tail);
    FirstIs(s, |body|);
    assert s[..|body|] == body && s[|body| + 2..] == tail;
  }

  lemma EndsHere(body: string, tail: string)
    ensures FrameEnd(body + "\n\n" + tail, |body|) == 2
  {
    var s := body + "\n\n" + tail;
    assert s[|body|] == '\n' && s[|body| + 1] == '\n';
  }

  lemma NoEndInside(body: string, tail: string, k: nat)
    requires Unbroken(body) && k < |body|
    ensures FrameEnd(body + "\n\n" + tail, k) == 0
  {
    var s := body + "\n\n" + tail;
    assert s[k] == body[k];
    if k + 1 < |body| {
      assert s[k + 1] == body[k + 1];
    }
  }

  // ---- what a printed frame says ---------------------------------------------------------

  lemma LinesFirst(line: string, rest: string)
    requires OneLine(line)
    ensures Lines(line + "\n" + rest) == [line] + Lines(rest)
  {
    var s := line + "\n" + rest;
    assert s[|line|] == '\n';
    assert forall k :: 0 <= k < |line| ==> s[k] == line[k];
    assert LineEnd(s, |line|) == 1;
    assert FirstLineEnd(s, 0) == |line|;
    assert s[..|line|] == line && s[|line| + 1..] == rest;
  }

  lemma LinesLast(line: string)
    requires OneLine(line)
    ensures Lines(line) == [line]
  {
    assert FirstLineEnd(line, 0) == |line|;
  }

  lemma {:induction false} TrimLeading(s: string)
    ensures Trim(" " + s) == Trim(s)
  {
    assert (" " + s)[1..] == s;
  }

  lemma ReadChange(id: string, kind: string, payload: string)
    requires OneLine(id) && OneLine(kind) && OneLine(payload)
    ensures Read(Body(Change(id, kind, payload))) == Meaning(Change(id, kind, payload))
  {
    hide Lines, Trim, DataOf, IdOf, KindOf, Join;
    var a, b, c := IdLine(id), EventLine(kind), DataLine(payload);
    LinesFirst(a, b + "\n" + c);
    LinesFirst(b, c);
    LinesLast(c);
    assert Lines(Body(Change(id, kind, payload))) == [a, b, c];
    FieldsOfChange(id, kind, payload);
    OnlyPart(payload);
  }

  lemma OnlyPart(payload: string)
    ensures Join([payload]) == payload
  {
  }

  lemma FieldsOfChange(id: string, kind: string, payload: string)
    ensures var lines := [IdLine(id), EventLine(kind), DataLine(payload)];
            && DataOf(lines) == [payload] && IdOf(lines) == Some(Trim(id))
            && KindOf(lines) == if Trim(kind) == "" then "message" else Trim(kind)
  {
    hide Trim, DataOf, IdOf, KindOf, StartsWith, Unspaced, IdLine, EventLine, DataLine;
    Prefixes(id, kind, payload);
    var none: seq<string> := [];
    var a, b, c := IdLine(id), EventLine(kind), DataLine(payload);
    OneMoreLine(none, a);
    OneMoreLine([a], b);
    OneMoreLine([a, b], c);
    assert none + [a] == [a] && [a] + [b] == [a, b] && [a, b] + [c] == [a, b, c];
    Nothing();
  }

  lemma Nothing()
    ensures DataOf([]) == [] && IdOf([]) == None && KindOf([]) == "message"
  {
  }

  lemma OneMoreLine(lines: seq<string>, line: string)
    ensures DataOf(lines + [line])
         == DataOf(lines) + if StartsWith(line, "data:") then [Unspaced(line[5..])] else []
    ensures IdOf(lines + [line]) == if StartsWith(line, "id:") then Some(Trim(line[3..])) else IdOf(lines)
    ensures KindOf(lines + [line])
         == if StartsWith(line, "event:") then (var k := Trim(line[6..]); if k == "" then "message" else k)
            else KindOf(lines)
  {
    assert (lines + [line])[..|lines|] == lines;
  }

  lemma Prefixes(id: string, kind: string, payload: string)
    ensures var a := IdLine(id);
            && StartsWith(a, "id:") && !StartsWith(a, "event:") && !StartsWith(a, "data:")
            && Trim(a[3..]) == Trim(id)
    ensures var b := EventLine(kind);
            && StartsWith(b, "event:") && !StartsWith(b, "id:") && !StartsWith(b, "data:")
            && Trim(b[6..]) == Trim(kind)
    ensures var c := DataLine(payload);
            && StartsWith(c, "data:") && !StartsWith(c, "id:") && !StartsWith(c, "event:")
            && Unspaced(c[5..]) == payload
  {
    hide Trim;
    var a, b, c := IdLine(id), EventLine(kind), DataLine(payload);
    assert a[0] == 'i' && b[0] == 'e' && c[0] == 'd';
    assert a[..3] == "id:" && b[..6] == "event:" && c[..5] == "data:";
    assert a[3..] == " " + id && b[6..] == " " + kind && c[5..] == " " + payload;
    assert (" " + payload)[1..] == payload;
    TrimLeading(id);
    TrimLeading(kind);
  }

  lemma ReadPrinted(f: Frame)
    requires Printable(f)
    ensures Read(Body(f)) == Meaning(f)
  {
    match f
    case Change(id, kind, payload) => ReadChange(id, kind, payload);
    case Retry =>
      LinesLast("retry: 2000");
      NoData("retry: 2000");
    case KeepAlive =>
      LinesLast(": keep-alive");
      NoData(": keep-alive");
  }

  lemma NoData(line: string)
    requires line != "" && line[0] != 'd'
    ensures DataOf([line]) == []
  {
    assert [line][..0] == [];
    var data := "data:";
    assert data[0] == 'd';
  }

  // ---- round trip ------------------------------------------------------------------------

  /** Decoding undoes printing: nothing is lost, invented, reordered or left over. */
  lemma {:induction false} DecodePrinted(frames: seq<Frame>, tail: string)
    requires forall f :: f in frames ==> Printable(f)
    ensures Decode(PrintAll(frames) + tail) == Decoded(Meanings(frames) + Decode(tail).messages, Decode(tail).rest)
  {
    hide Cut, Read, Body, Unbroken, Meaning;
    if frames == [] {
      assert PrintAll(frames) + tail == tail;
    } else {
      var f, rest := frames[0], PrintAll(frames[1..]) + tail;
      assert PrintAll(frames) + tail == Body(f) + "\n\n" + rest;
      BodyUnbroken(f);
      CutPrinted(Body(f), rest);
      ReadPrinted(f);
      DecodePrinted(frames[1..], tail);
    }
  }

  /** The stream in the dashboard is the stream on the server, however the network cut it up. */
  lemma StreamArrives(frames: seq<Frame>, chunks: seq<string>)
    requires (forall f :: f in frames ==> Printable(f))
    requires Concat(chunks) == PrintAll(frames) && Feed(chunks).Some?
    ensures Feed(chunks).value == Decoded(Meanings(frames), "")
  {
    ChunkingDoesNotMatter(chunks);
    DecodePrinted(frames, "");
    assert PrintAll(frames) + "" == PrintAll(frames);
    assert Cut("") == None;
  }

  /** A change arrives exactly as printed just when its id and kind have no space around them and
      there is a kind. */
  lemma ArrivesExactly(f: Frame)
    requires f.Change?
    ensures Meaning(f) == [Message(f.payload, Some(f.id), f.kind)]
       <==> Trim(f.id) == f.id && Trim(f.kind) == f.kind && f.kind != ""
  {
    assert Trim("message") == "message";
  }

  // ---- the size limit --------------------------------------------------------------------

  lemma Unfinished(f: Frame, p: string)
    requires Printable(f) && p <= Print(f) && |p| < |Print(f)|
    ensures Cut(p) == None
  {
    hide Cut, Body, Unbroken;
    BodyUnbroken(f);
    var missing := Print(f)[|p|..];
    assert p + missing == Print(f) == Body(f) + "\n\n" + "";
    CutPrinted(Body(f), "");
    if Cut(p).Some? {
      CutStays(p, missing);
      assert false;
    }
  }

  /** Whatever part of the stream has arrived, at most one unfinished frame waits in the buffer. */
  lemma {:induction false} AtMostOneWaits(frames: seq<Frame>, p: string, longest: nat)
    requires forall f :: f in frames ==> Printable(f) && |Print(f)| <= longest
    requires p <= PrintAll(frames)
    ensures |Decode(p).rest| <= longest
  {
    hide Cut, Body, Unbroken, Read;
    if frames != [] {
      var f := frames[0];
      if |p| < |Print(f)| {
        assert p == PrintAll(frames)[..|p|] == Print(f)[..|p|];
        Unfinished(f, p);
      } else {
        var later := p[|Print(f)|..];
        assert Print(f) == PrintAll(frames)[..|Print(f)|] == p[..|Print(f)|];
        assert later == PrintAll(frames)[|Print(f)|..|p|] == PrintAll(frames[1..])[..|later|];
        assert p == Body(f) + "\n\n" + later;
        BodyUnbroken(f);
        CutPrinted(Body(f), later);
        AtMostOneWaits(frames[1..], later, longest);
      }
    } else {
      assert Decode("").rest == "";
    }
  }

  /** The decoder never refuses the server's stream as long as one frame and one chunk fit together. */
  lemma {:induction false} NeverTooLarge(frames: seq<Frame>, chunks: seq<string>, longest: nat, chunk: nat)
    requires forall f :: f in frames ==> Printable(f) && |Print(f)| <= longest
    requires forall k :: 0 <= k < |chunks| ==> |chunks[k]| <= chunk
    requires longest + chunk <= 1_000_000 && Concat(chunks) <= PrintAll(frames)
    ensures Feed(chunks).Some?
  {
    if chunks != [] {
      var front := chunks[..|chunks| - 1];
      assert Concat(front) <= Concat(chunks);
      NeverTooLarge(frames, front, longest, chunk);
      ChunkingDoesNotMatter(front);
      AtMostOneWaits(frames, Concat(front), longest);
    }
  }
}
