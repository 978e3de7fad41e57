/** What the decoder makes of any frames at all: fields in any number and order, unknown lines and comments
    among them, every line ended by LF or by CR LF. */
module SseFields {
  import opened Basics
  import opened Sse
  import opened SsePrinting

  datatype Ending = Lf | CrLf {
    function Text(): string { if Lf? then "\n" else "\r\n" }
  }

  datatype Field = Id(value: string) | Event(value: string) | Data(value: string) | Other(text: string) {
    function Line(): string {
      match this
      case Id(value) => "id:" + value
      case Event(value) => "event:" + value
      case Data(value) => "data:" + value
      case Other(text) => text
    }

    /** One line that is not empty; and an unknown one does not begin like a known one. */
    predicate Valid() {
      && Line() != "" && OneLine(Line())
      && (Other? ==> !StartsWith(text, "id:") && !StartsWith(text, "event:") && !StartsWith(text, "data:"))
    }
  }

  /** A field and how its line ends. */
  datatype Entry = Entry(field: Field, ending: Ending)

  /** Some lines, and how the blank line after them ends. */
  datatype Block = Block(entries: seq<Entry>, blank: Ending) {
    predicate Valid() { entries != [] && forall k :: 0 <= k < |entries| ==> entries[k].field.Valid() }
  }

  function Text(entries: seq<Entry>): string {
    if entries == [] then "" else entries[0].field.Line() + entries[0].ending.Text() + Text(entries[1..])
  }

  function BlockText(b: Block): string { Text(b.entries) + b.blank.Text() }

  function AllText(blocks: seq<Block>): string {
    if blocks == [] then "" else BlockText(blocks[0]) + AllText(blocks[1..])
  }

  // ---- what a block says -----------------------------------------------------------------

  /** This piece of `s`, all of it but the white space around it. */
  ghost predicate Trimmed(s: string, t: string) {
    exists i, j ::
      && 0 <= i <= j <= |s| && t == s[i..j] && (forall k :: 0 <= k < i || j <= k < |s| ==> Blank(s[k]))
      && (t != "" ==> !Blank(t[0]) && !Blank(t[|t| - 1]))
  }

  /** The place of the last entry of a kind. */
  ghost predicate LastAt(entries: seq<Entry>, k: int, known: Field -> bool) {
    0 <= k < |entries| && known(entries[k].field) && forall j :: k < j < |entries| ==> !known(entries[j].field)
  }

  function IsId(): Field -> bool { (f: Field) => f.Id? }

  function IsEvent(): Field -> bool { (f: Field) => f.Event? }

  /** The values of the data fields, each without one leading space. */
  function Parts(entries: seq<Entry>): seq<string> {
    if entries == [] then []
    else
      var last := entries[|entries| - 1].field;
      Parts(entries[..|entries| - 1]) + if last.Data? then [Unspaced(last.value)] else []
  }

  /** What must be reported of a block: nothing without data; otherwise one message, whose lines are the
      data, whose id is the last id given, if any, and whose kind is the last one given, if it is not blank,
      and "message" if it is or if there is none. */
  ghost predicate Tells(entries: seq<Entry>, said: seq<Message>) {
    if forall k :: 0 <= k < |entries| ==> !entries[k].field.Data? then said == []
    else
      && |said| == 1
      && Lines(said[0].data) == Parts(entries)
      && (match said[0].id
          case None => forall k :: 0 <= k < |entries| ==> !entries[k].field.Id?
          case Some(id) => exists k :: LastAt(entries, k, IsId()) && Trimmed(entries[k].field.value, id))
      && ((said[0].kind == "message" && (forall k :: 0 <= k < |entries| ==> !entries[k].field.Event?))
          || exists k :: LastAt(entries, k, IsEvent())
                         && exists t :: Trimmed(entries[k].field.value, t)
                                        && said[0].kind == if t == "" then "message" else t)
  }

  /** Block by block. */
  ghost predicate AllTold(blocks: seq<Block>, said: seq<Message>)
    decreases blocks
  {
    if blocks == [] then said == []
    else exists n :: 0 <= n <= |said| && Tells(blocks[0].entries, said[..n]) && AllTold(blocks[1..], said[n..])
  }

  // ---- where a block ends ----------------------------------------------------------------

  /** Text that moves a frame's end no nearer. */
  lemma CutShift(prefix: string, s: string)
    requires Cut(s).Some? && forall k :: 0 <= k < |prefix| ==> FrameEnd(prefix + s, k) == 0
    ensures Cut(prefix + s) == Some((prefix + Cut(s).value.0, Cut(s).value.1))
  {
    hide FrameEnd;
    var i, t := FirstFrameEnd(s, 0), prefix + s;
    forall k | 0 <= k <= i ensures FrameEnd(t, |prefix| + k) == FrameEnd(s, k) {
      EndShifts(prefix, s, k);
    }
    forall k | 0 <= k < |prefix| + i ensures FrameEnd(t, k) == 0 {
      if k >= |prefix| {
        assert FrameEnd(t, |prefix| + (k - |prefix|)) == FrameEnd(s, k - |prefix|);
      }
    }
    FirstIs(t, |prefix| + i);
    assert t[..|prefix| + i] == prefix + s[..i];
    assert t[|prefix| + i + FrameEnd(s, i)..] == s[i + FrameEnd(s, i)..];
  }

  lemma EndShifts(prefix: string, s: string, k: nat)
    ensures FrameEnd(prefix + s, |prefix| + k) == FrameEnd(s, k)
  {
    LineEndShifts(prefix, s, k);
    LineEndShifts(prefix, s, k + LineEnd(s, k));
  }

  lemma LineEndShifts(prefix: string, s: string, k: nat)
    ensures LineEnd(prefix + s, |prefix| + k) == LineEnd(s, k)
  {
    assert k < |s| ==> (prefix + s)[|prefix| + k] == s[k];
    assert k + 1 < |s| ==> (prefix + s)[|prefix| + k + 1] == s[k + 1];
  }

  /** A line with another line after it holds no frame's end. */
  lemma NoEndInLine(line: string, e: Ending, rest: string, k: nat)
    requires OneLine(line) && rest != "" && rest[0] != '\n' && rest[0] != '\r' && k < |line| + |e.Text()|
    ensures FrameEnd(line + e.Text() + rest, k) == 0
  {
    var s := line + e.Text() + rest;
    if k < |line| {
      assert s[k] == line[k];
    } else {
      assert s[|line| + |e.Text()|] == rest[0];
      assert s[|line|] == e.Text()[0] && (e.CrLf? ==> s[|line| + 1] == '\n');
    }
  }

  /** The last line of a block, and the blank line after it. */
  lemma LastLineEnds(line: string, e: Ending, blank: Ending, tail: string)
    requires OneLine(line)
    ensures Cut(line + e.Text() + (blank.Text() + tail)) == Some((line, tail))
  {
    var s, n := line + e.Text() + (blank.Text() + tail), |line|;
    assert s[n] == e.Text()[0] && (e.CrLf? ==> s[n + 1] == '\n');
    var m := n + |e.Text()|;
    assert s[m] == blank.Text()[0] && (blank.CrLf? ==> s[m + 1] == '\n');
    assert FrameEnd(s, n) == |e.Text()| + |blank.Text()|;
    forall k | 0 <= k < n ensures FrameEnd(s, k) == 0 {
      assert s[k] == line[k];
    }
    FirstIs(s, n);
    assert s[..n] == line && s[m + |blank.Text()|..] == tail;
  }

  /** A block's text without the end of its last line. */
  function Bare(entries: seq<Entry>): string
    requires entries != []
  {
    if |entries| == 1 then entries[0].field.Line()
    else entries[0].field.Line() + entries[0].ending.Text() + Bare(entries[1..])
  }

  lemma {:induction false} BlockEnds(b: Block, tail: string)
    requires b.Valid()
    ensures Cut(BlockText(b) + tail) == Some((Bare(b.entries), tail))
    decreases |b.entries|
  {
    hide Cut, FrameEnd, LineEnd, OneLine;
    var first := b.entries[0];
    var line, e := first.field.Line(), first.ending.Text();
    if |b.entries| == 1 {
      assert Text(b.entries) == line + e;
      Text3("", line + e, b.blank.Text(), tail);
      LastLineEnds(line, first.ending, b.blank, tail);
    } else {
      var later := Block(b.entries[1..], b.blank);
      BlockEnds(later, tail);
      var rest := BlockText(later) + tail;
      BeginsWithALine(later, tail);
      forall k | 0 <= k < |line + e| ensures FrameEnd(line + e + rest, k) == 0 {
        NoEndInLine(line, first.ending, rest, k);
      }
      CutShift(line + e, rest);
      Text3(line + e, Text(later.entries), b.blank.Text(), tail);
    }
  }

  lemma Text3(a: string, b: string, c: string, tail: string)
    ensures a + b + c + tail == a + (b + c + tail) && b + c + tail == b + (c + tail)
  {
  }

  lemma BeginsWithALine(b: Block, tail: string)
    requires b.Valid()
    ensures var s := BlockText(b) + tail; s != "" && s[0] != '\n' && s[0] != '\r'
  {
    var line := b.entries[0].field.Line();
    assert (BlockText(b) + tail)[0] == line[0];
  }

  // ---- the lines of a block --------------------------------------------------------------

  lemma LinesAny(line: string, e: Ending, rest: string)
    requires OneLine(line)
    ensures Lines(line + e.Text() + rest) == [line] + Lines(rest)
  {
    var s, n := line + e.Text() + rest, |line|;
    assert s[n] == e.Text()[0] && (e.CrLf? ==> s[n + 1] == '\n');
    assert forall k :: 0 <= k < n ==> s[k] == line[k];
    assert LineEnd(s, n) == |e.Text()|;
    assert FirstLineEnd(s, 0) == n;
    assert s[..n] == line && s[n + |e.Text()|..] == rest;
  }

  function LinesOf(entries: seq<Entry>): (lines: seq<string>)
    ensures |lines| == |entries|
  {
    if entries == [] then [] else LinesOf(entries[..|entries| - 1]) + [entries[|entries| - 1].field.Line()]
  }

  lemma {:induction false} LinesOfFirst(entries: seq<Entry>)
    requires entries != []
    ensures LinesOf(entries) == [entries[0].field.Line()] + LinesOf(entries[1..])
  {
    var n := |entries| - 1;
    if n > 0 {
      LinesOfFirst(entries[..n]);
      assert entries[..n][1..] == entries[1..][..n - 1];
    }
  }

  lemma {:induction false} BareLines(entries: seq<Entry>)
    requires entries != [] && forall k :: 0 <= k < |entries| ==> entries[k].field.Valid()
    ensures Lines(Bare(entries)) == LinesOf(entries)
  {
    hide Lines;
    var first := entries[0];
    LinesOfFirst(entries);
    if |entries| == 1 {
      LinesLast(first.field.Line());
    } else {
      BareLines(entries[1..]);
      LinesAny(first.field.Line(), first.ending, Bare(entries[1..]));
    }
  }

  // ---- what its lines say ----------------------------------------------------------------

  lemma {:induction false} TrimCuts(s: string) returns (i: nat, j: nat)
    ensures i <= j <= |s| && Trim(s) == s[i..j] && forall k :: 0 <= k < i || j <= k < |s| ==> Blank(s[k])
    decreases |s|
  {
    hide Blank;
    i, j := 0, |s|;
    if s != "" && Blank(s[0]) {
      i, j := TrimCuts(s[1..]);
      Later(s, i, j);
      i, j := i + 1, j + 1;
    } else if s != "" && Blank(s[|s| - 1]) {
      i, j := TrimCuts(s[..|s| - 1]);
      assert s[..|s| - 1][i..j] == s[i..j];
      assert forall k :: 0 <= k < i || j <= k < |s| - 1 ==> s[..|s| - 1][k] == s[k];
    }
  }

  lemma Later(s: string, i: nat, j: nat)
    requires s != "" && Blank(s[0]) && i <= j < |s|
    requires forall k :: 0 <= k < i || j <= k < |s| - 1 ==> Blank(s[1..][k])
    ensures s[1..][i..j] == s[i + 1..j + 1]
    ensures forall k :: 0 <= k < i + 1 || j + 1 <= k < |s| ==> Blank(s[k])
  {
    hide Blank;
    forall k | 0 <= k < i + 1 || j + 1 <= k < |s| ensures Blank(s[k]) {
      if k > 0 {
        assert Blank(s[1..][k - 1]);
      }
    }
  }

  lemma TrimIsTrimmed(s: string)
    ensures Trimmed(s, Trim(s))
  {
    hide Blank;
    var i, j := TrimCuts(s);
  }

  lemma Starts(f: Field)
    requires f.Valid()
    ensures var line := f.Line();
            && (StartsWith(line, "id:") <==> f.Id?) && (StartsWith(line, "event:") <==> f.Event?)
            && (StartsWith(line, "data:") <==> f.Data?)
            && (f.Id? ==> line[3..] == f.value) && (f.Event? ==> line[6..] == f.value)
            && (f.Data? ==> line[5..] == f.value)
  {
    var line := f.Line();
    match f
    case Id(value) => assert line[..3] == "id:" && line[0] == 'i';
    case Event(value) => assert line[..6] == "event:" && line[0] == 'e';
    case Data(value) => assert line[..5] == "data:" && line[0] == 'd';
    case Other(_) =>
  }

  /** The raw value of the last id, and of the last event. */
  function LastId(entries: seq<Entry>): Option<string> {
    if entries == [] then None
    else
      var last := entries[|entries| - 1].field;
      if last.Id? then Some(last.value) else LastId(entries[..|entries| - 1])
  }

  function LastEvent(entries: seq<Entry>): Option<string> {
    if entries == [] then None
    else
      var last := entries[|entries| - 1].field;
      if last.Event? then Some(last.value) else LastEvent(entries[..|entries| - 1])
  }

  lemma {:induction false} LastIdIs(entries: seq<Entry>)
    ensures LastId(entries).None? <==> forall k :: 0 <= k < |entries| ==> !entries[k].field.Id?
    ensures LastId(entries).Some? ==>
              exists k :: LastAt(entries, k, IsId()) && entries[k].field.value == LastId(entries).value
  {
    if entries != [] {
      var n := |entries| - 1;
      LastIdIs(entries[..n]);
      if entries[n].field.Id? {
        assert LastAt(entries, n, IsId());
      } else if LastId(entries).Some? {
        var k :| LastAt(entries[..n], k, IsId()) && entries[..n][k].field.value == LastId(entries).value;
        assert LastAt(entries, k, IsId());
      }
    }
  }

  lemma {:induction false} LastEventIs(entries: seq<Entry>)
    ensures LastEvent(entries).None? <==> forall k :: 0 <= k < |entries| ==> !entries[k].field.Event?
    ensures LastEvent(entries).Some? ==>
              exists k :: LastAt(entries, k, IsEvent()) && entries[k].field.value == LastEvent(entries).value
  {
    if entries != [] {
      var n := |entries| - 1;
      LastEventIs(entries[..n]);
      if entries[n].field.Event? {
        assert LastAt(entries, n, IsEvent());
      } else if LastEvent(entries).Some? {
        var k :| LastAt(entries[..n], k, IsEvent()) && entries[..n][k].field.value == LastEvent(entries).value;
        assert LastAt(entries, k, IsEvent());
      }
    }
  }

  lemma {:induction false} FieldsOf(entries: seq<Entry>)
    requires forall k :: 0 <= k < |entries| ==> entries[k].field.Valid()
    ensures var lines := LinesOf(entries);
            && DataOf(lines) == Parts(entries)
            && IdOf(lines) == (match LastId(entries) case None => None case Some(v) => Some(Trim(v)))
            && KindOf(lines)
               == (match LastEvent(entries)
                   case None => "message"
                   case Some(v) => if Trim(v) == "" then "message" else Trim(v))
  {
    hide Trim, DataOf, IdOf, KindOf, Unspaced;
    if entries == [] {
      Nothing();
    } else {
      var n := |entries| - 1;
      FieldsOf(entries[..n]);
      Starts(entries[n].field);
      OneMoreLine(LinesOf(entries[..n]), entries[n].field.Line());
    }
  }

  lemma {:induction false} PartsAre(entries: seq<Entry>)
    requires forall k :: 0 <= k < |entries| ==> entries[k].field.Valid()
    ensures Parts(entries) == [] <==> forall k :: 0 <= k < |entries| ==> !entries[k].field.Data?
    ensures forall part :: part in Parts(entries) ==> OneLine(part)
  {
    hide OneLine, Unspaced, Field.Valid;
    if entries != [] {
      var n := |entries| - 1;
      var front := entries[..n];
      PartsAre(front);
      assert forall k :: 0 <= k < n ==> front[k] == entries[k];
      if entries[n].field.Data? {
        PartIsOneLine(entries[n].field);
      } else {
        assert Parts(front) + [] == Parts(front);
      }
    }
  }

  lemma PartIsOneLine(f: Field)
    requires f.Valid() && f.Data?
    ensures OneLine(Unspaced(f.value))
  {
    assert forall k :: 0 <= k < |f.value| ==> f.value[k] == f.Line()[k + 5];
  }

  /** Joined by line feeds, the parts are the lines again. */
  lemma {:induction false} JoinedLines(parts: seq<string>)
    requires parts != [] && forall part :: part in parts ==> OneLine(part)
    ensures Lines(Join(parts)) == parts
  {
    hide Lines, OneLine;
    if |parts| == 1 {
      LinesLast(parts[0]);
    } else {
      JoinFirst(parts);
      JoinedLines(parts[1..]);
      LinesFirst(parts[0], Join(parts[1..]));
    }
  }

  lemma {:induction false} JoinFirst(parts: seq<string>)
    requires |parts| > 1
    ensures Join(parts) == parts[0] + "\n" + Join(parts[1..])
  {
    var n := |parts| - 1;
    if n > 1 {
      JoinFirst(parts[..n]);
      assert parts[..n][1..] == parts[1..][..n - 1];
    }
  }

  lemma BlockTells(entries: seq<Entry>)
    requires entries != [] && forall k :: 0 <= k < |entries| ==> entries[k].field.Valid()
    ensures Tells(entries, Read(Bare(entries)))
  {
    hide Lines, Trim, DataOf, IdOf, KindOf, Join, Trimmed, LastAt, Field.Valid;
    BareLines(entries);
    FieldsOf(entries);
    PartsAre(entries);
    LastIdIs(entries);
    LastEventIs(entries);
    if Parts(entries) != [] {
      JoinedLines(Parts(entries));
      forall v: string ensures Trimmed(v, Trim(v)) {
        TrimIsTrimmed(v);
      }
    }
  }

  // ---- any text of frames ----------------------------------------------------------------

  /** Decoding any blocks reports, block by block, what each of them tells and nothing else, and goes on with
      what follows them. */
  lemma {:induction false} DecodeBlocks(blocks: seq<Block>, tail: string) returns (said: seq<Message>)
    requires forall k :: 0 <= k < |blocks| ==> blocks[k].Valid()
    ensures Decode(AllText(blocks) + tail) == Decoded(said + Decode(tail).messages, Decode(tail).rest)
    ensures AllTold(blocks, said)
    decreases blocks
  {
    hide Decode, AllTold, BlockText;
    if blocks == [] {
      said := [];
      assert AllText(blocks) + tail == tail;
      assert [] + Decode(tail).messages == Decode(tail).messages;
      NoneTold();
    } else {
      var more := DecodeBlocks(blocks[1..], tail);
      var first := Read(Bare(blocks[0].entries));
      said := first + more;
      DecodeOne(blocks[0], AllText(blocks[1..]) + tail);
      BlockTells(blocks[0].entries);
      OneMoreTold(blocks, first, more);
      assert AllText(blocks) + tail == BlockText(blocks[0]) + (AllText(blocks[1..]) + tail);
      assert first + (more + Decode(tail).messages) == said + Decode(tail).messages;
    }
  }

  lemma DecodeOne(b: Block, rest: string)
    requires b.Valid()
    ensures var d := Decode(rest);
            Decode(BlockText(b) + rest) == Decoded(Read(Bare(b.entries)) + d.messages, d.rest)
  {
    hide Cut, Read, Bare, BlockText;
    BlockEnds(b, rest);
  }

  lemma NoneTold()
    ensures AllTold([], [])
  {
  }

  lemma OneMoreTold(blocks: seq<Block>, first: seq<Message>, more: seq<Message>)
    requires blocks != [] && Tells(blocks[0].entries, first) && AllTold(blocks[1..], more)
    ensures AllTold(blocks, first + more)
  {
    hide Tells;
    var said := first + more;
    assert said[..|first|] == first && said[|first|..] == more;
  }

  /** The same for a decoder that gets the text in pieces. */
  lemma BlocksArrive(blocks: seq<Block>, chunks: seq<string>)
    requires forall k :: 0 <= k < |blocks| ==> blocks[k].Valid()
    requires Sse.Concat(chunks) == AllText(blocks) && Feed(chunks).Some?
    ensures Feed(chunks).value.rest == "" && AllTold(blocks, Feed(chunks).value.messages)
  {
    hide Decode, AllTold;
    ChunkingDoesNotMatter(chunks);
    var said := DecodeBlocks(blocks, "");
    assert AllText(blocks) + "" == AllText(blocks);
    DecodeNothing();
    assert said + [] == said;
  }

  lemma DecodeNothing()
    ensures Decode("") == Decoded([], "")
  {
    assert Cut("") == None;
  }
}
