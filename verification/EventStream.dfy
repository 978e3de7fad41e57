/** The stream endpoint: resume points, polling, printing, and the way round through the browser. */
module EventStream {
  import opened Basics
  import opened Sse
  import opened SsePrinting
  import opened ChangeStream

  // ---- event ids -------------------------------------------------------------------------

  /** How instants are written and read back. */
  datatype Stamps = Stamps(show: int -> string, read: string -> Option<int>) {
    ghost predicate Valid() {
      forall t :: read(show(t)) == Some(t) && '|' !in show(t) && show(t) != "" && OneLine(show(t))
                  && !Blank(show(t)[0])
    }
  }

  function EventId(stamps: Stamps, c: Record): string {
    stamps.show(c.at) + "|" + (c.kind + "|" + c.id)
  }

  /** The text before the first bar, and after it. */
  function SplitOnce(s: string): (r: Option<(string, string)>)
    decreases |s|
  {
    if s == "" then None
    else if s[0] == '|' then Some(("", s[1..]))
    else
      match SplitOnce(s[1..])
      case None => None
      case Some((head, tail)) => Some(([s[0]] + head, tail))
  }

  /** `split("|", 2)` into three parts, or an error. */
  function ResumePoint(stamps: Stamps, header: Option<string>): Option<Point> {
    if header.None? || header.value == "" then None
    else
      match SplitOnce(header.value)
      case None => None
      case Some((stamp, rest)) =>
        match SplitOnce(rest)
        case None => None
        case Some((kind, id)) =>
          match stamps.read(stamp)
          case None => None
          case Some(at) => Some(Point(at, kind, id))
  }

  lemma {:induction false} SplitAtFirstBar(head: string, tail: string)
    requires '|' !in head
    ensures SplitOnce(head + "|" + tail) == Some((head, tail))
  {
    var s := head + "|" + tail;
    if head == "" {
      assert s[0] == '|' && s[1..] == tail;
    } else {
      assert s[1..] == head[1..] + "|" + tail;
      SplitAtFirstBar(head[1..], tail);
      assert [head[0]] + head[1..] == head;
    }
  }

  /** An id leads back to the change it names, whatever the record is called, bars included. */
  lemma ResumesWhereItStood(stamps: Stamps, c: Record)
    requires stamps.Valid() && '|' !in c.kind
    ensures ResumePoint(stamps, Some(EventId(stamps, c))) == Some(c.Place())
  {
    hide SplitOnce;
    SplitAtFirstBar(stamps.show(c.at), c.kind + "|" + c.id);
    SplitAtFirstBar(c.kind, c.id);
    assert c.kind + "|" + c.id == c.kind + ("|" + c.id);
    assert EventId(stamps, c) == stamps.show(c.at) + "|" + (c.kind + "|" + c.id);
  }

  function FrameOf(stamps: Stamps, c: Record): Frame { Change(EventId(stamps, c), c.kind, c.payload) }

  function FramesOf(stamps: Stamps, changes: seq<Record>): (frames: seq<Frame>)
    ensures |frames| == |changes|
    ensures forall k :: 0 <= k < |changes| ==> frames[k] == FrameOf(stamps, changes[k])
  {
    seq(|changes|, k requires 0 <= k < |changes| => FrameOf(stamps, changes[k]))
  }

  /** A record that can be put in a frame and come back: no line breaks, no bar in its kind, no space
      at the end of its name. */
  predicate Presentable(c: Record) {
    && OneLine(c.kind) && OneLine(c.id) && OneLine(c.payload)
    && c.kind != "" && Trim(c.kind) == c.kind && '|' !in c.kind
    && (c.id == "" || !Blank(c.id[|c.id| - 1]))
  }

  /** Round the whole circle: the message a printed change decodes to carries its exact payload and
      kind, and an id that, sent back as `Last-Event-ID`, resumes at that very change. */
  lemma FullCircle(stamps: Stamps, c: Record)
    requires stamps.Valid() && Presentable(c)
    ensures Printable(FrameOf(stamps, c))
    ensures Meaning(FrameOf(stamps, c)) == [Message(c.payload, Some(EventId(stamps, c)), c.kind)]
    ensures ResumePoint(stamps, Some(EventId(stamps, c))) == Some(c.Place())
  {
    hide Trim, SplitOnce;
    ResumesWhereItStood(stamps, c);
    var id, stamp := EventId(stamps, c), stamps.show(c.at);
    assert id[0] == stamp[0];
    assert !Blank(id[|id| - 1]) by {
      if c.id == "" {
        assert id[|id| - 1] == '|';
      } else {
        assert id[|id| - 1] == c.id[|c.id| - 1];
      }
    }
    TrimNothing(id);
    forall k | 0 <= k < |id| ensures id[k] != '\n' && id[k] != '\r' {
      assert id[k] in stamp || id[k] == '|' || id[k] in c.kind || id[k] in c.id;
    }
  }

  lemma TrimNothing(s: string)
    requires s != "" && !Blank(s[0]) && !Blank(s[|s| - 1])
    ensures Trim(s) == s
  {
  }

  // ---- the endpoint ----------------------------------------------------------------------

  /** One connection. A poll asks for three pages, and the loop waits for each: a page is received at a
      time, and with the third the poll is sorted, walked and sent. */
  class EventStream {
    const stamps: Stamps
    var cursor: int
    var last: Option<Point>
    var polls: nat
    var changes: seq<Record>
    var asked: nat

    /** The pages of the poll in progress. */
    ghost var pages: seq<seq<Record>>

    ghost predicate Valid()
      reads this
    {
      && View().Valid() && asked == |pages| < 3
      && changes == (if asked > 0 then pages[0] else []) + (if asked > 1 then pages[1] else [])
    }

    function View(): Resume
      reads this
    {
      Resume(cursor, last)
    }

    /** A connection starts where its `Last-Event-ID` says, or now. */
    constructor (stamps: Stamps, header: Option<string>, now: int)
      ensures this.stamps == stamps && polls == 0 && Valid() && pages == []
      ensures View() == match ResumePoint(stamps, header)
                        case None => Resume(now, None)
                        case Some(p) => Resume(p.at, Some(p))
    {
      var resume := ResumePoint(stamps, header);
      this.stamps, polls, changes, asked, pages := stamps, 0, [], 0, [];
      cursor, last := if resume.Some? then resume.value.at else now, resume;
    }

    /** What is asked for next: the kind, and from when on. */
    method Ask() returns (kind: string, since: int)
      requires Valid()
      ensures kind == Kind(|pages|) && since == View().since
    {
      return Kind(asked), cursor;
    }

    /** A page arrives. Two of three are only gathered; the third completes the poll, and the frames to
        send are its changes past the last point sent, and now and then a keep-alive. */
    method Receive(page: seq<Record>) returns (frames: seq<Frame>)
      requires Valid()
      modifies this
      ensures Valid()
      ensures |old(pages)| < 2 ==>
                frames == [] && pages == old(pages) + [page] && View() == old(View()) && polls == old(polls)
      ensures |old(pages)| == 2 ==>
                var (r, sent) := Poll(old(View()), Pages(old(pages)[0], old(pages)[1], page));
                && pages == [] && View() == r && polls == old(polls) + 1
                && frames == FramesOf(stamps, sent) + if polls % 15 == 0 then [KeepAlive] else []
    {
      hide Before;
      Gather(page);
      if asked < 3 {
        return [];
      }
      ghost var complete := Pages(pages[0], pages[1], pages[2]);
      WalkIsValid(View(), InOrder(complete.All()));
      frames := SendAll(InOrder(changes));
      changes, asked, pages := [], 0, [];
      polls := polls + 1;
      if polls % HEARTBEAT_EVERY == 0 {
        frames := frames + [KeepAlive];
      }
    }

    method Gather(page: seq<Record>)
      requires Valid()
      modifies this`changes, this`asked, this`pages
      ensures pages == old(pages) + [page] && asked == |pages|
      ensures changes == pages[0] + (if asked > 1 then pages[1] else []) + (if asked > 2 then pages[2] else [])
    {
      for n := 0 to |page|
        invariant changes == old(changes) + page[..n] && pages == old(pages) && asked == old(asked)
      {
        changes := changes + [page[n]];
      }
      assert page[..|page|] == page;
      asked, pages := asked + 1, pages + [page];
    }

    /** Walk sorted changes: skip what was delivered, move on past what is sent. */
    method SendAll(sorted: seq<Record>) returns (frames: seq<Frame>)
      modifies this`cursor, this`last
      ensures View() == Walk(old(View()), sorted).0
      ensures frames == FramesOf(stamps, Walk(old(View()), sorted).1)
    {
      hide Before;
      frames := [];
      ghost var r := View();
      for n := 0 to |sorted|
        invariant View() == Walk(r, sorted[..n]).0
        invariant frames == FramesOf(stamps, Walk(r, sorted[..n]).1)
      {
        var change := sorted[n];
        assert sorted[..n + 1][..n] == sorted[..n];
        var point := change.Place();
        if last.Some? && !Before(last.value, point) {
          continue;
        }
        cursor, last := change.at, Some(point);
        frames := frames + [FrameOf(stamps, change)];
        assert FramesOf(stamps, Walk(r, sorted[..n]).1 + [change]) == frames;
      }
      assert sorted[..|sorted|] == sorted;
    }
  }

  lemma {:induction false} WalkIsValid(r: Resume, changes: seq<Record>)
    requires r.Valid()
    ensures Walk(r, changes).0.Valid()
  {
    hide Before;
    if changes != [] {
      WalkIsValid(r, changes[..|changes| - 1]);
    }
  }
}
