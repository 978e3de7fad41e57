/** The change feed behind the stream: polls that resume from the last change delivered. */
module ChangeStream {
  import opened Basics
  import Sorting

  const MAX_PAGE := 500
  const HEARTBEAT_EVERY := 15

  // ---- the order of changes --------------------------------------------------------------

  /** Where a change stands in the stream: its time, then its kind, then its record. */
  datatype Point = Point(at: int, kind: string, id: string)

  datatype Record = Record(at: int, kind: string, id: string, payload: string) {
    function Place(): Point { Point(at, kind, id) }
  }

  predicate StringLess(a: string, b: string)
    decreases |a|
  {
    b != "" && (a == "" || a[0] < b[0] || (a[0] == b[0] && StringLess(a[1..], b[1..])))
  }

  lemma {:induction false} StringTotal(a: string, b: string)
    ensures !(StringLess(a, b) && StringLess(b, a)) && !StringLess(a, a)
    ensures a != b ==> StringLess(a, b) || StringLess(b, a)
    decreases |a|
  {
    if a != "" && b != "" {
      if a[0] == b[0] {
        StringTotal(a[1..], b[1..]);
        assert a == [a[0]] + a[1..] && b == [b[0]] + b[1..];
      } else {
        StringTotal(a[1..], a[1..]);
      }
    } else if a != "" {
      StringTotal(a[1..], a[1..]);
    }
  }

  lemma {:induction false} StringTransitive(a: string, b: string, c: string)
    requires StringLess(a, b) && StringLess(b, c)
    ensures StringLess(a, c)
    decreases |a|
  {
    if a != "" && a[0] == b[0] == c[0] {
      StringTransitive(a[1..], b[1..], c[1..]);
    }
  }

  /** Strings compare at the first place where they differ; of two that differ nowhere the shorter is less. */
  lemma {:induction false} LessAtFirstDifference(a: string, b: string)
    ensures StringLess(a, b) <==>
              exists k :: 0 <= k <= |a| && k < |b| && a[..k] == b[..k] && (k == |a| || a[k] < b[k])
    decreases |a|
  {
    if a != "" && b != "" && a[0] == b[0] {
      var c, d := a[1..], b[1..];
      LessAtFirstDifference(c, d);
      if k :| 0 <= k <= |c| && k < |d| && c[..k] == d[..k] && (k == |c| || c[k] < d[k]) {
        assert a[..k + 1] == [a[0]] + c[..k] && b[..k + 1] == [b[0]] + d[..k];
      }
      if k :| 0 <= k <= |a| && k < |b| && a[..k] == b[..k] && (k == |a| || a[k] < b[k]) {
        if k > 0 {
          assert c[..k - 1] == a[..k][1..] == b[..k][1..] == d[..k - 1];
        }
      }
    } else if b != "" {
      assert a[..0] == b[..0];
      forall k | 0 < k <= |a| && k < |b| ensures a[..k] != b[..k] {
        assert a[..k][0] == a[0] && b[..k][0] == b[0];
      }
    }
  }

  predicate Before(p: Point, q: Point) {
    || p.at < q.at
    || (p.at == q.at && StringLess(p.kind, q.kind))
    || (p.at == q.at && p.kind == q.kind && StringLess(p.id, q.id))
  }

  lemma BeforeTotal(p: Point, q: Point)
    ensures !(Before(p, q) && Before(q, p)) && !Before(p, p)
    ensures p != q ==> Before(p, q) || Before(q, p)
  {
    StringTotal(p.kind, q.kind);
    StringTotal(p.id, q.id);
  }

  lemma BeforeTransitive(p: Point, q: Point, r: Point)
    requires Before(p, q) && Before(q, r)
    ensures Before(p, r)
  {
    hide StringLess;
    if StringLess(p.kind, q.kind) && StringLess(q.kind, r.kind) {
      StringTransitive(p.kind, q.kind, r.kind);
    }
    if StringLess(p.id, q.id) && StringLess(q.id, r.id) {
      StringTransitive(p.id, q.id, r.id);
    }
  }

  ghost predicate Ascending(changes: seq<Record>) {
    forall j, k :: 0 <= j < k < |changes| ==> Before(changes[j].Place(), changes[k].Place())
  }

  // ---- what a query returns --------------------------------------------------------------

  /** Up to MAX_PAGE records changed at or after `since`, the earliest ones, in order of time alone:
      the database may break ties as it likes. */
  ghost predicate PageOf(stored: set<Record>, kind: string, since: int, page: seq<Record>) {
    && (forall c :: c in page ==> c in stored && c.kind == kind && c.at >= since)
    && (forall j, k :: 0 <= j < k < |page| ==> page[j] != page[k] && page[j].at <= page[k].at)
    && |page| <= MAX_PAGE
    && (forall c :: c in stored && c.kind == kind && c.at >= since && c !in page ==>
          |page| == MAX_PAGE && forall d :: d in page ==> d.at <= c.at)
  }

  /** Every kind has a collection of its own; they are read one after another. */
  function Kind(k: nat): string { if k == 0 then "order" else if k == 1 then "position" else "command" }

  predicate Known(kind: string) { kind == "order" || kind == "position" || kind == "command" }

  /** A record is stored once, in the collection of its kind. */
  ghost predicate Keyed(stored: set<Record>) {
    && (forall c :: c in stored ==> Known(c.kind))
    && forall c, d :: c in stored && d in stored && c.kind == d.kind && c.id == d.id ==> c == d
  }

  /** The store at the three moments a poll reads it. */
  datatype Reads = Reads(orders: set<Record>, positions: set<Record>, commands: set<Record>) {
    ghost predicate Valid() { Keyed(orders) && Keyed(positions) && Keyed(commands) }

    /** What was stored when this kind was read. */
    function By(kind: string): set<Record> {
      if kind == "order" then orders else if kind == "position" then positions else commands
    }
  }

  datatype Pages = Pages(orders: seq<Record>, positions: seq<Record>, commands: seq<Record>) {
    ghost predicate From(seen: Reads, since: int) {
      && seen.Valid()
      && PageOf(seen.orders, "order", since, orders)
      && PageOf(seen.positions, "position", since, positions)
      && PageOf(seen.commands, "command", since, commands)
    }

    function All(): seq<Record> { orders + positions + commands }
  }

  // ---- sorting ---------------------------------------------------------------------------

  /** Changes are sorted by their place. */
  predicate Earlier(c: Record, d: Record) { Before(c.Place(), d.Place()) }

  function InOrder(changes: seq<Record>): seq<Record> { Sorting.Sorted(changes, Earlier) }

  lemma InOrderIs(changes: seq<Record>)
    requires forall j, k :: 0 <= j < k < |changes| ==> changes[j].Place() != changes[k].Place()
    ensures Ascending(InOrder(changes)) && forall c :: c in InOrder(changes) <==> c in changes
  {
    hide Before;
    forall x, y, z | Earlier(x, y) && Earlier(y, z) ensures Earlier(x, z) {
      BeforeTransitive(x.Place(), y.Place(), z.Place());
    }
    forall x ensures !Earlier(x, x) {
      BeforeTotal(x.Place(), x.Place());
    }
    forall j, k | 0 <= j < k < |changes|
      ensures Earlier(changes[j], changes[k]) || Earlier(changes[k], changes[j])
    {
      BeforeTotal(changes[j].Place(), changes[k].Place());
    }
    Sorting.SortedIs(changes, Earlier);
    var sorted := InOrder(changes);
    assert forall j, k :: 0 <= j < k < |sorted| ==> Earlier(sorted[j], sorted[k]);
  }

  // ---- one poll --------------------------------------------------------------------------

  /** `cursor` and `last`. */
  datatype Resume = Resume(since: int, last: Option<Point>) {
    predicate Past(p: Point) { last.None? || Before(last.value, p) }

    /** A change this stream has yet to deliver. */
    predicate Due(c: Record) { c.at >= since && Past(c.Place()) }

    ghost predicate Valid() { last.Some? ==> last.value.at == since }

    function Step(c: Record): Resume {
      if Past(c.Place()) then Resume(c.at, Some(c.Place())) else this
    }
  }

  /** Walk the changes of one poll: skip what was delivered, move on past what is sent. */
  function Walk(r: Resume, changes: seq<Record>): (Resume, seq<Record>) {
    if changes == [] then (r, [])
    else
      var (before, sent) := Walk(r, changes[..|changes| - 1]);
      var c := changes[|changes| - 1];
      (before.Step(c), if before.Past(c.Place()) then sent + [c] else sent)
  }

  /** On a sorted list that is one cut: everything due is sent, in order, and nothing else. */
  lemma {:induction false} WalkSendsTheDue(r: Resume, changes: seq<Record>)
    requires r.Valid() && Ascending(changes) && forall c :: c in changes ==> c.at >= r.since
    ensures var (r', sent) := Walk(r, changes);
            && r'.Valid() && Ascending(sent)
            && (forall c :: c in sent <==> c in changes && r.Due(c))
            && (if sent == [] then r' == r
                else r' == Resume(sent[|sent| - 1].at, Some(sent[|sent| - 1].Place())))
  {
    hide Before;
    if changes != [] {
      var n := |changes| - 1;
      var front, c := changes[..n], changes[n];
      assert changes == front + [c];
      WalkSendsTheDue(r, front);
      var (before, sent) := Walk(r, front);
      assert forall d :: d in sent ==> d in front;
      if sent != [] {
        var top := sent[|sent| - 1];
        assert top in front;
        assert Before(top.Place(), c.Place());
        assert r.Past(top.Place());
        if r.last.Some? {
          BeforeTransitive(r.last.value, top.Place(), c.Place());
        }
        forall k | 0 <= k < |sent| ensures Before(sent[k].Place(), c.Place()) {
          assert sent[k] in front;
        }
      }
    }
  }

  function Poll(r: Resume, pages: Pages): (Resume, seq<Record>) { Walk(r, InOrder(pages.All())) }

  lemma PagesApart(seen: Reads, r: Resume, pages: Pages)
    requires pages.From(seen, r.since)
    ensures var all := pages.All();
            && (forall j, k :: 0 <= j < k < |all| ==> all[j].Place() != all[k].Place())
            && (forall c :: c in all ==> Known(c.kind) && c in seen.By(c.kind) && c.at >= r.since)
  {
    assert pages.All() == pages.orders + (pages.positions + pages.commands);
    forall c | c in pages.All() ensures Known(c.kind) && c in seen.By(c.kind) && c.at >= r.since {
      assert c in pages.orders || c in pages.positions || c in pages.commands;
    }
  }

  /** What one poll sends, whatever page the database chose and whatever changed between its reads:
      changes that are due, each once, in order, and the resume point moves to the last of them. */
  lemma PollSends(seen: Reads, r: Resume, pages: Pages)
    requires r.Valid() && pages.From(seen, r.since)
    ensures var (r', sent) := Poll(r, pages);
            && r'.Valid() && Ascending(sent)
            && (forall c :: c in sent <==> c in pages.All() && r.Due(c))
            && (forall c :: c in sent ==> c in seen.By(c.kind))
            && (if sent == [] then r' == r
                else r' == Resume(sent[|sent| - 1].at, Some(sent[|sent| - 1].Place())))
  {
    hide Before, Pages.From;
    PagesApart(seen, r, pages);
    InOrderIs(pages.All());
    WalkSendsTheDue(r, InOrder(pages.All()));
  }

  // ---- what one poll loses ---------------------------------------------------------------

  /** A change the poll should have sent but did not, and that no later poll can send either. */
  ghost predicate Lost(r: Resume, pages: Pages, c: Record) {
    r.Due(c) && c !in Poll(r, pages).1 && !Poll(r, pages).0.Due(c)
  }

  /** The poll sends a change at this place or after it. */
  ghost predicate Passes(r: Resume, pages: Pages, p: Point) {
    exists d :: d in pages.All() && r.Due(d) && !Before(d.Place(), p)
  }

  /** A record left off a full page although a change the poll does send comes after it. */
  ghost predicate Overtaken(seen: Reads, r: Resume, pages: Pages, c: Record) {
    c in seen.By(c.kind) && c !in pages.All() && Passes(r, pages, c.Place())
  }

  /** A change that became visible only after its own kind was read, at or below the last point the
      poll sends. */
  ghost predicate TooLate(seen: Reads, r: Resume, pages: Pages, c: Record) {
    c !in seen.By(c.kind) && Passes(r, pages, c.Place())
  }

  /** A poll loses exactly the due changes its pages overtake and those that came too late for it. */
  lemma LostIff(seen: Reads, r: Resume, pages: Pages, c: Record)
    requires r.Valid() && pages.From(seen, r.since) && r.Due(c)
    ensures Lost(r, pages, c) <==> Overtaken(seen, r, pages, c) || TooLate(seen, r, pages, c)
  {
    hide Before, Pages.From, Poll;
    PagesApart(seen, r, pages);
    PollSends(seen, r, pages);
    var (r', sent) := Poll(r, pages);
    if c !in pages.All() {
      if sent != [] {
        var top := sent[|sent| - 1];
        assert top in sent;
        BeforeThenEarlier(top.Place(), c.Place());
        if Passes(r, pages, c.Place()) {
          var d :| d in pages.All() && r.Due(d) && !Before(d.Place(), c.Place());
          assert d in sent;
          var k :| 0 <= k < |sent| && sent[k] == d;
          if k < |sent| - 1 && Before(top.Place(), c.Place()) {
            BeforeTransitive(d.Place(), top.Place(), c.Place());
          }
        }
      } else {
        assert forall d :: d in pages.All() && r.Due(d) ==> d in sent;
      }
    }
  }

  lemma BeforeThenEarlier(p: Point, q: Point)
    ensures Before(p, q) ==> p.at <= q.at
  {
  }

  /** No kind had more due records than fit its page when it was read. */
  ghost predicate Whole(seen: Reads, r: Resume, pages: Pages) {
    forall c: Record :: Known(c.kind) && c in seen.By(c.kind) && c.at >= r.since ==> c in pages.All()
  }

  /** A page that is not full is whole. */
  lemma ShortPagesAreWhole(seen: Reads, r: Resume, pages: Pages)
    requires pages.From(seen, r.since)
    requires |pages.orders| < 500 && |pages.positions| < 500 && |pages.commands| < 500
    ensures Whole(seen, r, pages)
  {
  }

  // ---- a client's whole stream, reconnects included --------------------------------------

  /** The store as it is now; the server's resume point, the pages of the poll in progress and the
      stores they were read from; what is sent but not yet received, what the client has received, and
      where its stream began. */
  datatype Stream = Stream(
    stored: set<Record>, server: Resume, pages: seq<seq<Record>>, seen: seq<set<Record>>,
    wire: seq<Record>, got: seq<Record>, start: Resume)
  {
    function All(): seq<Record> { got + wire }
  }

  /** A poll is three reads; the store may change before, between and after them. */
  datatype Event = Store(stored: set<Record>) | Read(page: seq<Record>) | Arrive | Reconnect(now: int)

  function Connected(stored: set<Record>, now: int): Stream {
    Stream(stored, Resume(now, None), [], [], [], [], Resume(now, None))
  }

  function LastOf(got: seq<Record>, start: Resume): Resume {
    if got == [] then start else Resume(got[|got| - 1].at, Some(got[|got| - 1].Place()))
  }

  /** The poll that a third page would complete. */
  predicate Completes(s: Stream) { |s.pages| == |s.seen| == 2 }

  function PagesWith(s: Stream, page: seq<Record>): Pages
    requires Completes(s)
  {
    Pages(s.pages[0], s.pages[1], page)
  }

  function ReadsWith(s: Stream): Reads
    requires Completes(s)
  {
    Reads(s.seen[0], s.seen[1], s.stored)
  }

  /** `Last-Event-ID` names the last change received; without one the stream starts at the present. */
  function Next(s: Stream, e: Event): Stream {
    match e
    case Store(stored) => s.(stored := stored)
    case Read(page) =>
      if !Completes(s) then s.(pages := s.pages + [page], seen := s.seen + [s.stored])
      else
        var (r, sent) := Poll(s.server, PagesWith(s, page));
        s.(server := r, pages := [], seen := [], wire := s.wire + sent)
    case Arrive => if s.wire == [] then s else s.(got := s.got + [s.wire[0]], wire := s.wire[1..])
    case Reconnect(now) =>
      var start := if s.got == [] then Resume(now, None) else s.start;
      s.(wire := [], pages := [], seen := [], start := start, server := LastOf(s.got, start))
  }

  /** Records have unique keys, and each page comes from the store as it is when it is read. */
  ghost predicate Allowed(s: Stream, e: Event) {
    match e
    case Store(stored) => Keyed(stored)
    case Read(page) => |s.pages| < 3 && PageOf(s.stored, Kind(|s.pages|), s.server.since, page)
    case _ => true
  }

  /** No change becomes visible at or below a delivered point; and when a poll completes, its pages have
      overtaken no change that is due and none came too late for it. */
  ghost predicate Gentle(s: Stream, e: Event) {
    match e
    case Store(stored) => forall c :: c in stored && c !in s.stored ==> s.server.Due(c)
    case Read(page) =>
      Completes(s) ==>
        var pages, seen := PagesWith(s, page), ReadsWith(s);
        forall c :: c in s.stored && s.server.Due(c) ==>
          !Overtaken(seen, s.server, pages, c) && !TooLate(seen, s.server, pages, c)
    case _ => true
  }

  /** Everything delivered so far comes after the start, in strictly increasing order, and the poll in
      progress has read what it should. */
  ghost predicate Orderly(s: Stream) {
    && Keyed(s.stored) && s.start.Valid() && s.start.last.None?
    && Ascending(s.All())
    && s.server == LastOf(s.All(), s.start)
    && (forall c :: c in s.All() ==> c.at >= s.start.since)
    && |s.pages| == |s.seen| <= 2
    && forall k :: 0 <= k < |s.pages| ==>
         Keyed(s.seen[k]) && PageOf(s.seen[k], Kind(k), s.server.since, s.pages[k])
  }

  /** Every stored change past the start was sent, or is still to be sent. */
  ghost predicate Covered(s: Stream) {
    forall c :: c in s.stored && s.start.Due(c) ==> c in s.All() || s.server.Due(c)
  }

  lemma AscendingAppend(a: seq<Record>, b: seq<Record>)
    requires Ascending(a) && Ascending(b)
    requires a != [] ==> forall c :: c in b ==> Before(a[|a| - 1].Place(), c.Place())
    ensures Ascending(a + b)
  {
    hide Before;
    forall j, k | 0 <= j < |a| && 0 <= k < |b| ensures Before(a[j].Place(), b[k].Place()) {
      assert b[k] in b;
      if j < |a| - 1 {
        BeforeTransitive(a[j].Place(), a[|a| - 1].Place(), b[k].Place());
      }
    }
  }

  lemma PagesComplete(s: Stream, page: seq<Record>)
    requires Orderly(s) && Completes(s) && Allowed(s, Read(page))
    ensures PagesWith(s, page).From(ReadsWith(s), s.server.since) && s.server.Valid()
  {
    hide PageOf, Ascending, Keyed;
    assert Kind(0) == "order" && Kind(1) == "position" && Kind(2) == "command";
    assert PageOf(s.seen[0], Kind(0), s.server.since, s.pages[0]);
    assert PageOf(s.seen[1], Kind(1), s.server.since, s.pages[1]);
  }

  /** The third read completes a poll, and what it sends keeps the order. */
  lemma PollKeepsOrder(s: Stream, page: seq<Record>)
    requires Orderly(s) && Completes(s) && Allowed(s, Read(page))
    ensures Orderly(Next(s, Read(page)))
    ensures Next(s, Read(page)).All() == s.All() + Poll(s.server, PagesWith(s, page)).1
  {
    hide Before, PageOf, Pages.From, Keyed, Poll;
    PagesComplete(s, page);
    var (r, sent) := Poll(s.server, PagesWith(s, page));
    var all := s.All();
    PollSends(ReadsWith(s), s.server, PagesWith(s, page));
    AscendingAppend(all, sent);
    assert Next(s, Read(page)).All() == all + sent;
    forall c | c in sent ensures c.at >= s.start.since {
      assert all != [] ==> all[|all| - 1] in all;
    }
  }

  lemma StillCovered(s: Stream, page: seq<Record>, c: Record)
    requires Orderly(s) && Completes(s) && Allowed(s, Read(page)) && s.server.Due(c)
    ensures var s' := Next(s, Read(page));
            var pages, seen := PagesWith(s, page), ReadsWith(s);
            (c in s'.All() || s'.server.Due(c)) <==>
              !Overtaken(seen, s.server, pages, c) && !TooLate(seen, s.server, pages, c)
  {
    hide Before, PageOf, Pages.From, Keyed, Poll, Overtaken, TooLate, Orderly;
    PagesComplete(s, page);
    LostIff(ReadsWith(s), s.server, PagesWith(s, page), c);
    NotYetSent(s, c);
    PollKeepsOrder(s, page);
  }

  /** A completed poll keeps every stored change covered exactly when it overtakes none that is due and
      none came too late for it. */
  lemma PollStep(s: Stream, page: seq<Record>)
    requires Orderly(s) && Completes(s) && Allowed(s, Read(page)) && Covered(s)
    ensures var pages, seen := PagesWith(s, page), ReadsWith(s);
            Covered(Next(s, Read(page))) <==>
              forall c :: c in s.stored && s.start.Due(c) && s.server.Due(c) ==>
                !Overtaken(seen, s.server, pages, c) && !TooLate(seen, s.server, pages, c)
  {
    hide Before, PageOf, Pages.From, Keyed, Poll, Overtaken, TooLate, Orderly, Resume.Due;
    var s' := Next(s, Read(page));
    PollKeepsOrder(s, page);
    forall c | s.server.Due(c)
      ensures (c in s'.All() || s'.server.Due(c)) <==>
                !Overtaken(ReadsWith(s), s.server, PagesWith(s, page), c)
                && !TooLate(ReadsWith(s), s.server, PagesWith(s, page), c)
    {
      StillCovered(s, page, c);
    }
  }

  /** What is due has not been sent. */
  lemma NotYetSent(s: Stream, c: Record)
    requires Orderly(s) && s.server.Due(c)
    ensures c !in s.All()
  {
    hide Before, PageOf, Keyed;
    var all := s.All();
    if c in all {
      var k :| 0 <= k < |all| && all[k] == c;
      var top := all[|all| - 1];
      BeforeTotal(c.Place(), top.Place());
      assert false;
    }
  }

  /** Losing the connection loses nothing for good: what was on the wire is due again. */
  lemma ReconnectStep(s: Stream, now: int)
    requires Orderly(s)
    ensures Orderly(Next(s, Reconnect(now)))
    ensures Covered(s) && s.got != [] ==> Covered(Next(s, Reconnect(now)))
    ensures s.got == [] ==> Covered(Next(s, Reconnect(now)))
  {
    hide Before, Keyed, PageOf;
    var s', all := Next(s, Reconnect(now)), s.All();
    assert s.got + [] == s.got;
    ReceivedAscends(s);
    if s.got != [] {
      assert forall c :: c in s.got ==> c in all;
      var n := |s.got| - 1;
      forall c | c in s.wire ensures s'.server.Due(c) {
        var k :| 0 <= k < |s.wire| && s.wire[k] == c;
        assert all[n] == s.got[n] && all[n + 1 + k] == c;
        BeforeThenEarlier(all[n].Place(), c.Place());
      }
      forall c | s.server.Due(c) ensures s'.server.Due(c) {
        var top := all[|all| - 1];
        if s.wire != [] {
          assert all[n] == s.got[n] && Before(all[n].Place(), top.Place());
          BeforeTransitive(all[n].Place(), top.Place(), c.Place());
          BeforeThenEarlier(all[n].Place(), top.Place());
        }
      }
    }
  }

  lemma OtherSteps(s: Stream, e: Event)
    requires Orderly(s) && Allowed(s, e) && !e.Reconnect? && (e.Read? ==> !Completes(s))
    ensures Orderly(Next(s, e)) && (Covered(s) && Gentle(s, e) ==> Covered(Next(s, e)))
  {
    hide Before, PageOf;
    if e.Arrive? && s.wire != [] {
      assert s.got + [s.wire[0]] + s.wire[1..] == s.got + s.wire;
    }
  }

  function Run(s: Stream, events: seq<Event>): Stream
    decreases events
  {
    if events == [] then s else Run(Next(s, events[0]), events[1..])
  }

  ghost predicate AllowedRun(s: Stream, events: seq<Event>)
    decreases events
  {
    events == [] || (Allowed(s, events[0]) && AllowedRun(Next(s, events[0]), events[1..]))
  }

  ghost predicate GentleRun(s: Stream, events: seq<Event>)
    decreases events
  {
    events == [] || (Gentle(s, events[0]) && GentleRun(Next(s, events[0]), events[1..]))
  }

  /** Over every run of store changes, polls, deliveries and reconnects, the client receives each
      point at most once and in strictly increasing order; and if changes only become visible past
      the delivered point and no page overflows, every stored change is received, on the wire, or
      still due. */
  lemma {:induction false} StreamIsOrderly(s: Stream, events: seq<Event>)
    requires Orderly(s) && AllowedRun(s, events)
    ensures Orderly(Run(s, events)) && Ascending(Run(s, events).got)
    ensures Covered(s) && GentleRun(s, events) ==> Covered(Run(s, events))
    decreases events
  {
    hide Orderly, Covered, Next, Allowed, Gentle, Ascending;
    if events == [] {
      ReceivedAscends(s);
    } else {
      OneStep(s, events[0]);
      StreamIsOrderly(Next(s, events[0]), events[1..]);
    }
  }

  /** The order of arrival: by time, at one time by kind, and within a kind by name. */
  lemma ArrivesInOrder(s: Stream, events: seq<Event>, j: nat, k: nat)
    requires Orderly(s) && AllowedRun(s, events) && j < k < |Run(s, events).got|
    ensures var c, d := Run(s, events).got[j], Run(s, events).got[k];
            && c.at <= d.at && (c.at == d.at ==> c.kind == d.kind || StringLess(c.kind, d.kind))
            && (c.at == d.at && c.kind == d.kind ==> StringLess(c.id, d.id))
  {
    hide Orderly, Allowed, Next, StringLess;
    StreamIsOrderly(s, events);
    StringTotal(Run(s, events).got[j].kind, Run(s, events).got[k].kind);
  }

  lemma ReceivedAscends(s: Stream)
    requires Orderly(s)
    ensures Ascending(s.got)
  {
    forall j, k | 0 <= j < k < |s.got| ensures Before(s.got[j].Place(), s.got[k].Place()) {
      assert (s.got + s.wire)[j] == s.got[j] && (s.got + s.wire)[k] == s.got[k];
    }
  }

  lemma OneStep(s: Stream, e: Event)
    requires Orderly(s) && Allowed(s, e)
    ensures Orderly(Next(s, e)) && (Covered(s) && Gentle(s, e) ==> Covered(Next(s, e)))
  {
    hide Orderly, Covered, Next;
    if e.Reconnect? {
      ReconnectStep(s, e.now);
    } else if e.Read? && Completes(s) {
      PollKeepsOrder(s, e.page);
      if Covered(s) {
        PollStep(s, e.page);
      }
    } else {
      OtherSteps(s, e);
    }
  }

  /** Right after a poll of a gentle run, every stored change past the start that its kind's read could
      see has been delivered, if the pages were whole; and every other is still to come. */
  lemma EveryPollCatchesUp(s: Stream, events: seq<Event>, page: seq<Record>, c: Record)
    requires Orderly(s) && Covered(s) && AllowedRun(s, events) && GentleRun(s, events)
    requires var t := Run(s, events);
             && Completes(t) && Allowed(t, Read(page)) && Gentle(t, Read(page))
             && c in t.stored && t.start.Due(c)
    ensures var t := Run(s, events);
            var t' := Next(t, Read(page));
            && (c in t'.All() || t'.server.Due(c))
            && (Whole(ReadsWith(t), t.server, PagesWith(t, page)) && c in ReadsWith(t).By(c.kind) ==> c in t'.All())
  {
    hide Run, AllowedRun, GentleRun, PageOf, Poll, Overtaken, TooLate, Ascending;
    StreamIsOrderly(s, events);
    var t := Run(s, events);
    PollStep(t, page);
    PollKeepsOrder(t, page);
    PagesComplete(t, page);
    PollSends(ReadsWith(t), t.server, PagesWith(t, page));
  }

  lemma Connects(stored: set<Record>, now: int)
    requires Keyed(stored)
    ensures Orderly(Connected(stored, now)) && Covered(Connected(stored, now))
  {
  }

  // ---- a change between two seen --------------------------------------------------------

  const EarlyOrder := Record(1, "order", "", "")

  const LaterCommand := Record(2, "command", "", "")

  /** The orders are read, then an order is stored, then a later command, which the same poll reads:
      no page is full and both changes are new when they appear, yet the order is never sent. */
  lemma AChangeBetweenReadsIsLost()
    ensures var s1 := Next(Connected({}, 0), Read([]));
            var s2 := Next(s1, Store({EarlyOrder}));
            var s3 := Next(s2, Read([]));
            var s4 := Next(s3, Store({EarlyOrder, LaterCommand}));
            var s5 := Next(s4, Read([LaterCommand]));
            && Allowed(Connected({}, 0), Read([])) && Allowed(s1, Store({EarlyOrder}))
            && Gentle(s1, Store({EarlyOrder})) && Allowed(s2, Read([]))
            && Allowed(s3, Store({EarlyOrder, LaterCommand})) && Gentle(s3, Store({EarlyOrder, LaterCommand}))
            && Allowed(s4, Read([LaterCommand]))
            && EarlyOrder in s5.stored && s5.start.Due(EarlyOrder)
            && EarlyOrder !in s5.All() && !s5.server.Due(EarlyOrder)
  {
    hide Poll;
    var s0 := Connected({}, 0);
    var s1 := Next(s0, Read([]));
    assert s1 == s0.(pages := [[]], seen := [{}]);
    var s2 := Next(s1, Store({EarlyOrder}));
    var s3 := Next(s2, Read([]));
    assert s3 == s2.(pages := [[], []], seen := [{}, {EarlyOrder}]);
    var s4 := Next(s3, Store({EarlyOrder, LaterCommand}));
    OneChange(s4.server, LaterCommand);
    assert PagesWith(s4, [LaterCommand]) == Pages([], [], [LaterCommand]);
    assert Kind(1) == "position" && Kind(2) == "command";
    OnePages();
  }

  lemma OnePages()
    ensures PageOf({}, "order", 0, []) && PageOf({EarlyOrder}, "position", 0, [])
    ensures PageOf({EarlyOrder, LaterCommand}, "command", 0, [LaterCommand])
  {
  }

  lemma OneChange(r: Resume, c: Record)
    requires r.Due(c)
    ensures Poll(r, Pages([], [], [c])) == (Resume(c.at, Some(c.Place())), [c])
  {
    var all, none: seq<Record> := Pages([], [], [c]).All(), [];
    assert all == [c] && all[..0] == none;
    assert Sorting.Sorted(none, Earlier) == none;
    assert Sorting.Insert(c, none, Earlier) == [c];
    assert InOrder(all) == [c];
    assert Walk(r, none) == (r, none);
    assert Walk(r, all) == (r.Step(c), none + [c]);
  }

  // ---- what an overflowing page costs ----------------------------------------------------

  function Name(k: nat): string { seq(k, _ => 'x') }

  function Order(at: int, k: nat): Record { Record(at, "order", Name(k), "") }

  /** The first MAX_PAGE orders, one a millisecond, or all at once. */
  function OnePage(step: nat): (page: seq<Record>)
    ensures |page| == MAX_PAGE && forall k :: 0 <= k < MAX_PAGE ==> page[k] == Order(step * k, k)
  {
    seq(MAX_PAGE, k requires 0 <= k => Order(step * k, k))
  }

  const ManyOrders: set<Record> := set k | 0 <= k <= MAX_PAGE :: Order(k, k)

  const LatePosition := Record(MAX_PAGE + 1, "position", "", "")

  lemma NamesDiffer(j: nat, k: nat)
    ensures Name(j) == Name(k) <==> j == k
  {
    assert |Name(j)| == j && |Name(k)| == k;
  }

  /** One order more than a page, and a later position: the poll resumes past the order it left off,
      and no poll ever sends it. */
  lemma OverflowLosesAChange()
    ensures var stored := ManyOrders + {LatePosition};
            var r := Resume(0, None);
            var pages := Pages(OnePage(1), [LatePosition], []);
            && pages.From(Reads(stored, stored, stored), 0)
            && Order(MAX_PAGE, MAX_PAGE) in stored && Lost(r, pages, Order(MAX_PAGE, MAX_PAGE))
  {
    var stored := ManyOrders + {LatePosition};
    var r := Resume(0, None);
    var page := OnePage(1);
    var pages := Pages(page, [LatePosition], []);
    ManyAreKeyed();
    forall k | 0 <= k < MAX_PAGE ensures Order(k, k) in page {
      assert page[k] == Order(k, k);
    }
    forall c | c in stored && c.kind == "order" && c !in page ensures c == Order(MAX_PAGE, MAX_PAGE) {
      var k :| 0 <= k <= MAX_PAGE && c == Order(k, k);
    }
    var c := Order(MAX_PAGE, MAX_PAGE);
    assert LatePosition in pages.All() && r.Due(LatePosition) && !Before(LatePosition.Place(), c.Place());
    LostIff(Reads(stored, stored, stored), r, pages, c);
  }

  lemma ManyAreKeyed()
    ensures Keyed(ManyOrders + {LatePosition})
  {
    var stored := ManyOrders + {LatePosition};
    forall c, d | c in stored && d in stored && c.kind == d.kind && c.id == d.id ensures c == d {
      if c.kind == "order" {
        var j :| 0 <= j <= MAX_PAGE && c == Order(j, j);
        var k :| 0 <= k <= MAX_PAGE && d == Order(k, k);
        NamesDiffer(j, k);
      }
    }
  }

  const TiedOrders: set<Record> := set k | 0 <= k <= MAX_PAGE :: Order(0, k)

  /** A page full of records of one instant, all delivered: if the database keeps choosing that page,
      the rest of that instant stays due for ever. */
  lemma TiesCanStall()
    ensures var top := Order(0, MAX_PAGE - 1);
            var r := Resume(0, Some(top.Place()));
            var pages := Pages(OnePage(0), [], []);
            && pages.From(Reads(TiedOrders, TiedOrders, TiedOrders), 0) && r.Due(Order(0, MAX_PAGE))
            && Poll(r, pages) == (r, [])
  {
    var r := Resume(0, Some(Order(0, MAX_PAGE - 1).Place()));
    var page := OnePage(0);
    var pages := Pages(page, [], []);
    forall c, d | c in TiedOrders && d in TiedOrders && c.id == d.id ensures c == d {
      var j :| 0 <= j <= MAX_PAGE && c == Order(0, j);
      var k :| 0 <= k <= MAX_PAGE && d == Order(0, k);
      NamesDiffer(j, k);
    }
    forall j, k | 0 <= j < k < MAX_PAGE ensures page[j] != page[k] {
      NamesDiffer(j, k);
    }
    assert pages.From(Reads(TiedOrders, TiedOrders, TiedOrders), 0);
    NamesAscend(MAX_PAGE - 1, MAX_PAGE);
    forall c | c in pages.All() ensures !r.Due(c) {
      var k :| 0 <= k < MAX_PAGE && c == page[k];
      NamesAscend(k, MAX_PAGE - 1);
      BeforeTotal(c.Place(), Order(0, MAX_PAGE - 1).Place());
    }
    PollSends(Reads(TiedOrders, TiedOrders, TiedOrders), r, pages);
    var sent := Poll(r, pages).1;
    assert forall c :: c in sent ==> false;
    if sent != [] {
      Sorting.HasFirst(sent);
      assert false;
    }
  }

  lemma {:induction false} NamesAscend(j: nat, k: nat)
    requires j <= k
    ensures j < k ==> StringLess(Name(j), Name(k))
  {
    if 0 < j < k {
      NamesAscend(j - 1, k - 1);
      assert Name(j)[1..] == Name(j - 1) && Name(k)[1..] == Name(k - 1);
    }
  }
}
