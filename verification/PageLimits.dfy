/** When a page is enough: what the store alone says about every answer a database may give. */
module PageLimits {
  import opened Basics
  import opened ChangeStream
  import Sorting

  /** The records of a kind that a poll from `since` asks for. */
  ghost function Asked(stored: set<Record>, kind: string, since: int): set<Record> {
    set c | c in stored && c.kind == kind && c.at >= since
  }

  ghost predicate HasDue(stored: set<Record>, r: Resume, kind: string) {
    exists c :: c in Asked(stored, kind, r.since) && r.Due(c)
  }

  /** An answer to a poll of a store that holds still. */
  ghost predicate Answers(stored: set<Record>, r: Resume, pages: Pages) {
    pages.From(Reads(stored, stored, stored), r.since)
  }

  ghost predicate ServesAll(stored: set<Record>, r: Resume, pages: Pages) {
    forall c :: c in stored && r.Due(c) ==> c in Poll(r, pages).1
  }

  // ---- sets and sequences ----------------------------------------------------------------

  lemma {:induction false} DistinctFit(s: seq<Record>, all: set<Record>)
    requires forall j, k :: 0 <= j < k < |s| ==> s[j] != s[k]
    requires forall c :: c in s ==> c in all
    ensures |s| <= |all|
  {
    if s != [] {
      var n := |s| - 1;
      assert s[n] in s;
      forall c | c in s[..n] ensures c in all - {s[n]} {
        var k :| 0 <= k < n && s[k] == c;
      }
      DistinctFit(s[..n], all - {s[n]});
    }
  }

  /** A set of records in order. */
  lemma {:induction false} ByPlace(all: set<Record>) returns (s: seq<Record>)
    requires forall c, d :: c in all && d in all && c != d ==> c.Place() != d.Place()
    ensures Ascending(s) && |s| == |all| && forall c :: c in s <==> c in all
    decreases |all|
  {
    hide Before;
    if all == {} {
      s := [];
    } else {
      var c :| c in all;
      var rest := ByPlace(all - {c});
      s := Sorting.Insert(c, rest, Earlier);
      EarlierIsOrder();
      forall d | d in rest ensures Earlier(c, d) || Earlier(d, c) {
        BeforeTotal(c.Place(), d.Place());
      }
      AscendingBoth(rest);
      Sorting.InsertKeeps(c, rest, Earlier);
      AscendingBoth(s);
      InsertOne(c, rest);
    }
  }

  lemma EarlierIsOrder()
    ensures Sorting.Transitive(Earlier)
  {
    hide Before;
    forall x, y, z | Earlier(x, y) && Earlier(y, z) ensures Earlier(x, z) {
      BeforeTransitive(x.Place(), y.Place(), z.Place());
    }
    forall x ensures !Earlier(x, x) {
      BeforeTotal(x.Place(), x.Place());
    }
  }

  lemma AscendingBoth(s: seq<Record>)
    ensures Ascending(s) <==> Sorting.Ascending(s, Earlier)
  {
    hide Before;
    if Sorting.Ascending(s, Earlier) {
      forall j, k | 0 <= j < k < |s| ensures Before(s[j].Place(), s[k].Place()) {
        assert Earlier(s[j], s[k]);
      }
    }
  }

  lemma {:induction false} InsertOne(c: Record, s: seq<Record>)
    ensures |Sorting.Insert(c, s, Earlier)| == |s| + 1
  {
    if s != [] && !Earlier(c, s[0]) {
      InsertOne(c, s[1..]);
    }
  }

  // ---- pages a database may choose -------------------------------------------------------

  /** The earliest records make a page; and if they do not all fit, it leaves off one that comes after
      every other, so one that is due if any is. */
  lemma FirstPage(stored: set<Record>, r: Resume, kind: string) returns (page: seq<Record>)
    requires Keyed(stored) && r.Valid()
    ensures PageOf(stored, kind, r.since, page)
    ensures |Asked(stored, kind, r.since)| > MAX_PAGE && HasDue(stored, r, kind) ==>
              exists c :: c in Asked(stored, kind, r.since) && r.Due(c) && c !in page
  {
    hide Before;
    var asked := Asked(stored, kind, r.since);
    var s := ByPlace(asked);
    var n := Min(MAX_PAGE, |s|);
    page := s[..n];
    PrefixIsPage(stored, kind, r.since, s, n);
    if |s| > MAX_PAGE && HasDue(stored, r, kind) {
      var c :| c in asked && r.Due(c);
      var k :| 0 <= k < |s| && s[k] == c;
      var last := s[|s| - 1];
      assert last in s;
      LaterIsDue(r, c, last, k == |s| - 1);
      LeftOff(s, n);
    }
  }

  lemma PrefixIsPage(stored: set<Record>, kind: string, since: int, s: seq<Record>, n: nat)
    requires Ascending(s) && n == Min(MAX_PAGE, |s|)
    requires forall c :: c in s <==> c in Asked(stored, kind, since)
    ensures PageOf(stored, kind, since, s[..n])
  {
    hide Before;
    var page := s[..n];
    forall j, k | 0 <= j < k < |s| ensures s[j] != s[k] && s[j].at <= s[k].at {
      BeforeTotal(s[j].Place(), s[k].Place());
      BeforeThenEarlier(s[j].Place(), s[k].Place());
    }
    forall c | c in page ensures c in s {
    }
    forall k | 0 <= k < n ensures s[k] in page {
      assert page[k] == s[k];
    }
    forall c | c in Asked(stored, kind, since) && c !in page
      ensures |page| == MAX_PAGE && forall d :: d in page ==> d.at <= c.at
    {
      AfterThePage(s, n, c);
    }
  }

  lemma AfterThePage(s: seq<Record>, n: nat, c: Record)
    requires n <= |s| && c in s && c !in s[..n]
    requires forall j, k :: 0 <= j < k < |s| ==> s[j].at <= s[k].at
    ensures n < |s| && forall d :: d in s[..n] ==> d.at <= c.at
  {
    forall j | 0 <= j < n ensures s[j] in s[..n] {
      assert s[..n][j] == s[j];
    }
    var k :| 0 <= k < |s| && s[k] == c;
    forall d | d in s[..n] ensures d.at <= c.at {
      var j :| 0 <= j < n && s[..n][j] == d;
      assert s[j].at <= s[k].at;
    }
  }

  lemma LaterIsDue(r: Resume, c: Record, later: Record, same: bool)
    requires r.Due(c) && (if same then c == later else Before(c.Place(), later.Place()))
    ensures r.Due(later)
  {
    hide Before;
    BeforeThenEarlier(c.Place(), later.Place());
    if !same && r.last.Some? {
      BeforeTransitive(r.last.value, c.Place(), later.Place());
    }
  }

  lemma LeftOff(s: seq<Record>, n: nat)
    requires Ascending(s) && n < |s|
    ensures s[|s| - 1] !in s[..n]
  {
    hide Before;
    forall k | 0 <= k < n ensures s[k] != s[|s| - 1] {
      BeforeTotal(s[k].Place(), s[|s| - 1].Place());
    }
  }

  /** If everything asked for fits a page, every page holds it all. */
  lemma FitsWhole(stored: set<Record>, kind: string, since: int, page: seq<Record>)
    requires PageOf(stored, kind, since, page) && |Asked(stored, kind, since)| <= MAX_PAGE
    ensures forall c :: c in Asked(stored, kind, since) ==> c in page
  {
    forall c | c in Asked(stored, kind, since) ensures c in page {
      if c !in page {
        DistinctFit(page, Asked(stored, kind, since) - {c});
        assert false;
      }
    }
  }

  // ---- when every answer serves everything -----------------------------------------------

  ghost predicate Fits(stored: set<Record>, r: Resume, kind: string) {
    HasDue(stored, r, kind) ==> |Asked(stored, kind, r.since)| <= 500
  }

  function PageIn(pages: Pages, kind: string): seq<Record> {
    if kind == "order" then pages.orders else if kind == "position" then pages.positions else pages.commands
  }

  lemma SentFromItsPage(stored: set<Record>, r: Resume, pages: Pages, c: Record)
    requires r.Valid() && Answers(stored, r, pages) && c in stored && r.Due(c)
    ensures Known(c.kind) && PageOf(stored, c.kind, r.since, PageIn(pages, c.kind))
    ensures c in Poll(r, pages).1 <==> c in PageIn(pages, c.kind)
  {
    hide Before, Poll;
    PollSends(Reads(stored, stored, stored), r, pages);
    assert pages.All() == pages.orders + pages.positions + pages.commands;
  }

  /** Whatever pages the database chooses, one poll of a store that holds still sends everything due,
      exactly if every kind with something due has no more than a page of records from the cursor on. */
  lemma EveryAnswerServesIff(stored: set<Record>, r: Resume)
    requires r.Valid() && Keyed(stored)
    ensures (forall pages :: Answers(stored, r, pages) ==> ServesAll(stored, r, pages)) <==>
              Fits(stored, r, "order") && Fits(stored, r, "position") && Fits(stored, r, "command")
  {
    hide Poll, PageOf, Keyed, Answers, Pages.From;
    var orders := FirstPage(stored, r, "order");
    var positions := FirstPage(stored, r, "position");
    var commands := FirstPage(stored, r, "command");
    var first := Pages(orders, positions, commands);
    AreAnswers(stored, r, first);
    if Fits(stored, r, "order") && Fits(stored, r, "position") && Fits(stored, r, "command") {
      forall pages | Answers(stored, r, pages) ensures ServesAll(stored, r, pages) {
        forall c | c in stored && r.Due(c) ensures c in Poll(r, pages).1 {
          SentFromItsPage(stored, r, pages, c);
          assert c in Asked(stored, c.kind, r.since);
          FitsWhole(stored, c.kind, r.since, PageIn(pages, c.kind));
        }
      }
    } else {
      var kind := if !Fits(stored, r, "order") then "order"
                  else if !Fits(stored, r, "position") then "position" else "command";
      var c :| c in Asked(stored, kind, r.since) && r.Due(c) && c !in PageIn(first, kind);
      SentFromItsPage(stored, r, first, c);
      assert !ServesAll(stored, r, first);
    }
  }

  lemma AreAnswers(stored: set<Record>, r: Resume, pages: Pages)
    requires Keyed(stored)
    requires PageOf(stored, "order", r.since, pages.orders)
    requires PageOf(stored, "position", r.since, pages.positions)
    requires PageOf(stored, "command", r.since, pages.commands)
    ensures Answers(stored, r, pages)
  {
    hide PageOf, Keyed;
  }

  // ---- when a poll can stand still -------------------------------------------------------

  /** A poll sends nothing, and stays where it is, exactly when its pages hold nothing due. */
  lemma StandsStillIff(seen: Reads, r: Resume, pages: Pages)
    requires r.Valid() && pages.From(seen, r.since)
    ensures Poll(r, pages) == (r, []) <==> forall d :: d in pages.All() ==> !r.Due(d)
  {
    hide Before, Poll, Pages.From;
    PollSends(seen, r, pages);
    var sent := Poll(r, pages).1;
    if sent != [] {
      Sorting.HasFirst(sent);
    }
  }

  /** The records of a kind asked for again although they were delivered. */
  ghost function Delivered(stored: set<Record>, r: Resume, kind: string): set<Record> {
    set c | c in Asked(stored, kind, r.since) && !r.Due(c)
  }

  ghost predicate Clogged(stored: set<Record>, r: Resume, kind: string) {
    HasDue(stored, r, kind) ==> |Delivered(stored, r, kind)| >= 500
  }

  /** A page of delivered records is a page a database may choose whenever there are enough of them:
      they are all of the cursor's own instant, the earliest there is. */
  lemma CloggedPage(stored: set<Record>, r: Resume, kind: string) returns (page: seq<Record>)
    requires Keyed(stored) && r.Valid() && Clogged(stored, r, kind)
    ensures PageOf(stored, kind, r.since, page) && forall c :: c in page ==> !r.Due(c)
  {
    hide Before;
    if HasDue(stored, r, kind) {
      var delivered := Delivered(stored, r, kind);
      var s := ByPlace(delivered);
      page := s[..MAX_PAGE];
      assert forall c :: c in page ==> c in s;
      forall c | c in delivered ensures c.at == r.since {
        AtTheCursor(r, c);
      }
      forall j, k | 0 <= j < k < |page| ensures page[j] != page[k] && page[j].at <= page[k].at {
        assert page[j] in page && page[k] in page;
        BeforeTotal(s[j].Place(), s[k].Place());
      }
    } else {
      page := FirstPage(stored, r, kind);
      assert forall c :: c in page ==> c in Asked(stored, kind, r.since);
    }
  }

  lemma AtTheCursor(r: Resume, c: Record)
    requires r.Valid() && c.at >= r.since && !r.Due(c)
    ensures c.at == r.since
  {
  }

  lemma CloggedIfStill(stored: set<Record>, r: Resume, kind: string, page: seq<Record>)
    requires PageOf(stored, kind, r.since, page) && forall c :: c in page ==> !r.Due(c)
    ensures Clogged(stored, r, kind)
  {
    if HasDue(stored, r, kind) {
      var c :| c in Asked(stored, kind, r.since) && r.Due(c);
      assert c !in page;
      DistinctFit(page, Delivered(stored, r, kind));
    }
  }

  /** Some answer makes a poll stand still, exactly if every kind with something due has a full page of
      delivered records at the cursor's instant. */
  lemma CanStandStillIff(stored: set<Record>, r: Resume)
    requires r.Valid() && Keyed(stored)
    ensures (exists pages :: Answers(stored, r, pages) && Poll(r, pages) == (r, []))
       <==> Clogged(stored, r, "order") && Clogged(stored, r, "position") && Clogged(stored, r, "command")
  {
    hide Poll, PageOf, Keyed, Clogged, Before;
    var all := Reads(stored, stored, stored);
    if Clogged(stored, r, "order") && Clogged(stored, r, "position") && Clogged(stored, r, "command") {
      var orders := CloggedPage(stored, r, "order");
      var positions := CloggedPage(stored, r, "position");
      var commands := CloggedPage(stored, r, "command");
      var pages := Pages(orders, positions, commands);
      AreAnswers(stored, r, pages);
      StandsStillIff(all, r, pages);
    }
    if pages :| Answers(stored, r, pages) && Poll(r, pages) == (r, []) {
      StandsStillIff(all, r, pages);
      assert forall c :: c in pages.orders || c in pages.positions || c in pages.commands ==> c in pages.All();
      CloggedIfStill(stored, r, "order", pages.orders);
      CloggedIfStill(stored, r, "position", pages.positions);
      CloggedIfStill(stored, r, "command", pages.commands);
    }
  }
}
