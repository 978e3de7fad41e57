/** The dashboard's command coordinator: it writes an intention down before sending it, and finds out
    what became of it without ever sending it twice. */
module Commands {
  import opened Basics

  datatype Input = Input(key: string, body: string)

  datatype CommandStatus = OPEN | DONE | FAILED | REJECTED | EXPIRED

  datatype Command = Command(id: string, key: string, status: CommandStatus) {
    predicate Terminal() { !status.OPEN? }
  }

  datatype Notice =
    | RESTORED | UNREADABLE | NO_STORAGE | REFUSED(status: int) | UNCONFIRMED | NOT_FOUND
    | CANNOT_CONFIRM | CANNOT_ABANDON

  datatype Memory = Memory(
    knownId: Option<string>, input: Option<Input>, result: Option<Command>,
    unresolved: bool, busy: bool, notice: Option<Notice>)
  {
    predicate Unsettled() { unresolved || (result.Some? && !result.value.Terminal()) }

    predicate Pending() { busy || Unsettled() }

    predicate Holds(key: string) { input.Some? && input.value.key == key }
  }

  const Blank := Memory(None, None, None, false, false, None)

  /** What `emporos.command` holds: an intention that parses, or something else. */
  datatype Saved = Saved(input: Input) | Garbage

  datatype Disk = Disk(command: Option<Saved>, id: Option<string>)

  /** One browser page: what it remembers and what outlives it. */
  datatype Page = Page(mem: Memory, disk: Disk)

  /** How a request ends: a command, an API error, or no usable answer. */
  datatype Reply = Answer(command: Command) | ApiError(status: int) | Broken

  predicate Refusal(r: Reply) { r.ApiError? && r.status in {400, 401, 403, 422, 429} }

  // ---- what each operation does to a page ------------------------------------------------

  /** `restore`. */
  function Restored(p: Page): Page {
    var mem := p.mem.(knownId := p.disk.id);
    p.(mem := match p.disk.command
              case None => mem
              case Some(Saved(input)) => Memory(p.disk.id, Some(input), None, true, false, Some(RESTORED))
              case Some(Garbage) => mem.(unresolved := true, notice := Some(UNREADABLE)))
  }

  /** `submit` up to its request: nothing is sent that is not written down. */
  function Submitted(p: Page, input: Input, written: bool, cleared: bool): (Page, bool) {
    if p.mem.Pending() then (p, false)
    else if !written then (p.(mem := p.mem.(notice := Some(NO_STORAGE))), false)
    else
      var saved := Page(p.mem.(knownId := None), p.disk.(command := Some(Saved(input))));
      if !cleared then (saved.(mem := saved.mem.(notice := Some(NO_STORAGE))), false)
      else (Page(Memory(None, Some(input), None, true, true, None), Disk(Some(Saved(input)), None)), true)
  }

  /** `accept`: the page, and whether it got to the end. */
  function Accepted(p: Page, c: Command, written: bool, cleared: bool): (Page, bool) {
    if !p.mem.Holds(c.key) then (p, false)
    else
      var known := p.(mem := p.mem.(knownId := Some(c.id)));
      if !written then (known, false)
      else
        var noted := known.(disk := p.disk.(id := Some(c.id)));
        if c.Terminal() && !cleared then (noted, false)
        else
          var disk := if c.Terminal() then noted.disk.(command := None) else noted.disk;
          (Page(noted.mem.(result := Some(c), busy := false, unresolved := false, notice := None), disk), true)
  }

  /** `submit` after its request. */
  function SubmitAnswered(p: Page, reply: Reply, written: bool, cleared: bool): Page {
    if Refusal(reply) then
      if !cleared then p
      else
        Page(p.mem.(busy := false, unresolved := false, notice := Some(REFUSED(reply.status))),
             p.disk.(command := None))
    else
      var (q, done) := if reply.Answer? then Accepted(p, reply.command, written, cleared) else (p, false);
      if done then q
      else q.(mem := q.mem.(busy := false, unresolved := true, notice := Some(UNCONFIRMED)))
  }

  predicate CanResolve(m: Memory) { m.input.Some? && m.Pending() && !m.busy }

  /** `resolve` after its request. */
  function ResolveAnswered(p: Page, reply: Reply, written: bool, cleared: bool): Page {
    var (q, done) := if reply.Answer? then Accepted(p, reply.command, written, cleared) else (p, false);
    if done then q
    else
      var why := if reply == ApiError(404) then NOT_FOUND else CANNOT_CONFIRM;
      q.(mem := q.mem.(busy := false, notice := Some(why)))
  }

  predicate CanDiscard(m: Memory) { !m.busy && m.result.None? && m.input.Some? }

  /** `discard`: the two removals may fail one without the other. */
  function Discarded(p: Page, first: bool, second: bool): (Page, bool) {
    if !CanDiscard(p.mem) then (p, false)
    else if !first then (p.(mem := p.mem.(notice := Some(CANNOT_ABANDON))), false)
    else if !second then
      (Page(p.mem.(notice := Some(CANNOT_ABANDON)), p.disk.(command := None)), false)
    else (Page(Blank, Disk(None, None)), true)
  }

  // ---- the coordinator, split where it waits for the network -----------------------------

  /** Browser storage. Each write may fail, and then changes nothing. */
  class Storage {
    var command: Option<Saved>
    var id: Option<string>

    constructor ()
      ensures View() == Disk(None, None)
    {
      command, id := None, None;
    }

    function View(): Disk
      reads this
    {
      Disk(command, id)
    }

    method SetCommand(value: Option<Saved>, works: bool) returns (done: bool)
      modifies this
      ensures done == works && View() == if works then old(View()).(command := value) else old(View())
    {
      if works {
        command := value;
      }
      return works;
    }

    method SetId(value: Option<string>, works: bool) returns (done: bool)
      modifies this
      ensures done == works && View() == if works then old(View()).(id := value) else old(View())
    {
      if works {
        id := value;
      }
      return works;
    }
  }

  class CommandCoordinator {
    const storage: Storage
    var current: Memory

    constructor (storage: Storage)
      ensures this.storage == storage && current == Blank
    {
      this.storage, current := storage, Blank;
    }

    function View(): Page
      reads this, storage
    {
      Page(current, storage.View())
    }

    method Restore()
      modifies this
      ensures View() == Restored(old(View()))
    {
      current := current.(knownId := storage.id);
      match storage.command
      case None =>
      case Some(Saved(input)) => current := Memory(current.knownId, Some(input), None, true, false, Some(RESTORED));
      case Some(Garbage) => current := current.(unresolved := true, notice := Some(UNREADABLE));
    }

    /** True when the request is to be sent. */
    method Submit(body: string, uuid: string, written: bool, cleared: bool) returns (send: bool)
      modifies this, storage
      ensures (View(), send) == Submitted(old(View()), Input(uuid, body), written, cleared)
    {
      if current.Pending() {
        return false;
      }
      var input := Input(uuid, body);
      var ok := storage.SetCommand(Some(Saved(input)), written);
      if ok {
        current := current.(knownId := None);
        ok := storage.SetId(None, cleared);
      }
      if !ok {
        current := current.(notice := Some(NO_STORAGE));
        return false;
      }
      current := current.(input := Some(input), result := None, busy := true, unresolved := true, notice := None);
      return true;
    }

    method Accept(result: Command, written: bool, cleared: bool) returns (done: bool)
      modifies this, storage
      ensures (View(), done) == Accepted(old(View()), result, written, cleared)
    {
      if !current.Holds(result.key) {
        return false;
      }
      current := current.(knownId := Some(result.id));
      var ok := storage.SetId(Some(result.id), written);
      if ok && result.Terminal() {
        ok := storage.SetCommand(None, cleared);
      }
      if !ok {
        return false;
      }
      current := current.(result := Some(result), busy := false, unresolved := false, notice := None);
      return true;
    }

    method SubmitReply(reply: Reply, written: bool, cleared: bool)
      modifies this, storage
      ensures View() == SubmitAnswered(old(View()), reply, written, cleared)
    {
      if Refusal(reply) {
        var ok := storage.SetCommand(None, cleared);
        if ok {
          current := current.(busy := false, unresolved := false, notice := Some(REFUSED(reply.status)));
        }
        return;
      }
      var done := false;
      if reply.Answer? {
        done := Accept(reply.command, written, cleared);
      }
      if !done {
        current := current.(busy := false, unresolved := true, notice := Some(UNCONFIRMED));
      }
    }

    /** The question to ask, if there is one: this key, by the id known for it. */
    method Resolve() returns (ask: Option<(string, Option<string>)>)
      modifies this
      ensures ask == if CanResolve(old(current)) then Some((old(current).input.value.key, old(current).knownId))
                     else None
      ensures current == if ask.Some? then old(current).(busy := true) else old(current)
    {
      if current.input.None? || !current.Pending() || current.busy {
        return None;
      }
      current := current.(busy := true);
      return Some((current.input.value.key, current.knownId));
    }

    method ResolveReply(reply: Reply, written: bool, cleared: bool)
      modifies this, storage
      ensures View() == ResolveAnswered(old(View()), reply, written, cleared)
    {
      var done := false;
      if reply.Answer? {
        done := Accept(reply.command, written, cleared);
      }
      if !done {
        var why := if reply == ApiError(404) then NOT_FOUND else CANNOT_CONFIRM;
        current := current.(busy := false, notice := Some(why));
      }
    }

    method Discard(first: bool, second: bool) returns (done: bool)
      modifies this, storage
      ensures (View(), done) == Discarded(old(View()), first, second)
    {
      if current.busy || current.result.Some? || current.input.None? {
        return false;
      }
      var ok := storage.SetCommand(None, first);
      if ok {
        ok := storage.SetId(None, second);
      }
      if !ok {
        current := current.(notice := Some(CANNOT_ABANDON));
        return false;
      }
      current := Blank;
      return true;
    }
  }

  // ---- the machine: page, requests in flight, and every reload ---------------------------

  datatype Call = Post(key: string) | Query(key: string, knownId: Option<string>)

  /** `posted` are the keys ever sent as new commands, `used` the keys ever generated, `closed` those
      known terminal, refused by the server, or discarded by the operator. */
  datatype Machine = Machine(page: Page, flight: seq<Call>, posted: seq<string>, used: set<string>, closed: set<string>)
  {
    /** Sent, and for all the browser knows still to be settled. */
    predicate Live(key: string) { key in posted && key !in closed }
  }

  datatype Event =
    | Submit(body: string, key: string, written: bool, cleared: bool)
    | Reply(call: nat, reply: Reply, written: bool, cleared: bool)
    | Resolve
    | Discard(first: bool, second: bool)
    | Restore
    | Reload

  function Start(): Machine { Machine(Page(Blank, Disk(None, None)), [], [], {}, {}) }

  function Next(m: Machine, e: Event): Machine {
    match e
    case Submit(body, key, written, cleared) =>
      var (page, send) := Submitted(m.page, Input(key, body), written, cleared);
      var n := m.(page := page, used := m.used + {key});
      if send then n.(flight := m.flight + [Post(key)], posted := m.posted + [key]) else n
    case Reply(call, reply, written, cleared) => if call < |m.flight| then Answered(m, e) else m
    case Resolve =>
      if CanResolve(m.page.mem) then
        m.(page := m.page.(mem := m.page.mem.(busy := true)),
           flight := m.flight + [Query(m.page.mem.input.value.key, m.page.mem.knownId)])
      else m
    case Discard(first, second) =>
      var (page, done) := Discarded(m.page, first, second);
      m.(page := page, closed := if done then m.closed + {m.page.mem.input.value.key} else m.closed)
    case Restore => m.(page := Restored(m.page))
    case Reload => m.(page := Restored(m.page.(mem := Blank)), flight := [])
  }

  /** One reply arrives; the other requests stay in flight. */
  function Answered(m: Machine, e: Event): Machine
    requires e.Reply? && e.call < |m.flight|
  {
    var call := m.flight[e.call];
    var page := if call.Post? then SubmitAnswered(m.page, e.reply, e.written, e.cleared)
                else ResolveAnswered(m.page, e.reply, e.written, e.cleared);
    var settled :=
      if call.Post? && Refusal(e.reply) then {call.key}
      else if e.reply.Answer? && e.reply.command.Terminal()
              && Accepted(m.page, e.reply.command, e.written, e.cleared).1 then {e.reply.command.key}
      else {};
    m.(page := page, flight := m.flight[..e.call] + m.flight[e.call + 1..], closed := m.closed + settled)
  }

  // ---- what every run keeps --------------------------------------------------------------

  ghost predicate Inv(m: Machine) {
    && |m.flight| <= 1
    && (m.flight != [] ==> m.page.mem.busy && m.page.mem.Holds(m.flight[0].key))
    && (m.flight != [] && m.flight[0].Post? ==> m.page.mem.result.None? && m.Live(m.flight[0].key))
    && (m.page.mem.result.Some? ==> m.page.mem.Holds(m.page.mem.result.value.key))
    && (forall j, k :: 0 <= j < k < |m.posted| ==> m.posted[j] != m.posted[k])
    && (forall k :: m.Live(k) ==>
          && m.page.mem.Holds(k) && m.page.mem.Unsettled()
          && m.page.disk.command == Some(Saved(m.page.mem.input.value)))
    && (forall k :: k in m.posted ==> k in m.used) && m.closed <= m.used
    && (m.page.mem.input.Some? ==> m.page.mem.input.value.key in m.used)
    && (m.page.disk.command.Some? ==> m.page.disk.command.value.Saved? && m.page.disk.command.value.input.key in m.used)
  }

  /** Keys are fresh; nobody restores over a request in flight; and if abandoning an unsettled command
      fails, it fails at once. */
  predicate Allowed(m: Machine, e: Event) {
    match e
    case Submit(_, key, _, _) => key !in m.used
    case Discard(first, second) => first && !second ==> !AbandonsLive(m)
    case Restore => m.flight == []
    case _ => true
  }

  predicate AbandonsLive(m: Machine) { CanDiscard(m.page.mem) && m.Live(m.page.mem.input.value.key) }

  lemma SubmitKeeps(m: Machine, e: Event)
    requires Inv(m) && e.Submit? && Allowed(m, e)
    ensures Inv(Next(m, e))
  {
    var n := Next(m, e);
    if !m.page.mem.Pending() {
      forall k ensures !m.Live(k) {
      }
      forall k | n.Live(k) ensures k == e.key && n.posted == m.posted + [e.key] {
        assert !m.Live(k);
      }
      assert m.flight == [];
    } else {
      assert forall k :: n.Live(k) ==> m.Live(k);
    }
  }

  lemma ReplyKeeps(m: Machine, e: Event)
    requires Inv(m) && e.Reply?
    ensures Inv(Next(m, e))
  {
    if e.call < |m.flight| {
      var n := Next(m, e);
      assert n.flight == [];
      forall k | n.Live(k) ensures m.Live(k) && m.page.mem.Holds(k) {
      }
    }
  }

  lemma QuietStepKeeps(m: Machine, e: Event)
    requires Inv(m) && Allowed(m, e) && (e.Resolve? || e.Discard? || e.Restore? || e.Reload?)
    ensures Inv(Next(m, e))
  {
    forall k | Next(m, e).Live(k)
      ensures m.Live(k)
    {
    }
  }

  lemma OneStepKeeps(m: Machine, e: Event)
    requires Inv(m) && Allowed(m, e)
    ensures Inv(Next(m, e))
  {
    hide Inv, Allowed, Next;
    match e
    case Submit(_, _, _, _) => SubmitKeeps(m, e);
    case Reply(_, _, _, _) => ReplyKeeps(m, e);
    case _ => QuietStepKeeps(m, e);
  }

  function Run(m: Machine, events: seq<Event>): Machine
    decreases events
  {
    if events == [] then m else Run(Next(m, events[0]), events[1..])
  }

  ghost predicate AllowedRun(m: Machine, events: seq<Event>)
    decreases events
  {
    events == [] || (Allowed(m, events[0]) && AllowedRun(Next(m, events[0]), events[1..]))
  }

  lemma {:induction false} EveryRunKeeps(m: Machine, events: seq<Event>)
    requires Inv(m) && AllowedRun(m, events)
    ensures Inv(Run(m, events))
    decreases events
  {
    hide Inv, Allowed, Next;
    if events != [] {
      OneStepKeeps(m, events[0]);
      EveryRunKeeps(Next(m, events[0]), events[1..]);
    }
  }

  lemma StartsRight()
    ensures Inv(Start())
  {
  }

  /** What that means for the operator: one request at a time, no command sent twice, at most one
      unsettled command, and that one survives a reload. */
  lemma WhatRunsPromise(m: Machine)
    requires Inv(m)
    ensures |m.flight| <= 1
    ensures forall j, k :: 0 <= j < k < |m.posted| ==> m.posted[j] != m.posted[k]
    ensures forall j, k :: m.Live(j) && m.Live(k) ==> j == k
    ensures forall k :: m.Live(k) ==>
              && m.page.disk.command.Some? && m.page.disk.command.value.input.key == k
              && Next(m, Reload).page.mem.Holds(k) && Next(m, Reload).page.mem.Unsettled()
    ensures m.page.mem.result.Some? ==> m.page.mem.Holds(m.page.mem.result.value.key)
  {
  }

  // ---- what an answer settles ------------------------------------------------------------

  /** The command sent is still to be settled: it is the page's own, unresolved, and written down. */
  ghost predicate StillOpen(m: Machine, key: string) {
    && m.Live(key) && m.page.mem.Holds(key) && m.page.mem.Pending()
    && m.page.disk.command == Some(Saved(m.page.mem.input.value))
  }

  /** How a submission's answer settles it. An API error other than the five refusals, no usable answer,
      or a command under another key leaves it unconfirmed. One of the five settles it, and its record
      goes if the removal works. Its own command settles it if the id is noted and, for a final status,
      the record removed; a status that is not final leaves it open, with the command held. */
  lemma SubmissionSettledIff(m: Machine, e: Event, key: string)
    requires Inv(m) && e.Reply? && e.call < |m.flight| && m.flight[e.call] == Post(key)
    ensures var n := Next(m, e);
            && n.flight == [] && n.posted == m.posted && (forall k :: k != key ==> (n.Live(k) <==> m.Live(k)))
            && match e.reply
               case ApiError(status) =>
                 if status == 400 || status == 401 || status == 403 || status == 422 || status == 429 then
                   && !n.Live(key)
                   && (e.cleared ==>
                         n.page.disk.command == None && !n.page.mem.Pending()
                         && n.page.mem.notice == Some(REFUSED(status)))
                 else StillOpen(n, key) && n.page.mem.unresolved && !n.page.mem.busy
               case Broken => StillOpen(n, key) && n.page.mem.unresolved && !n.page.mem.busy
               case Answer(c) =>
                 var final := c.status == DONE || c.status == FAILED || c.status == REJECTED || c.status == EXPIRED;
                 if c.key != key || !e.written || (final && !e.cleared) then
                   StillOpen(n, key) && n.page.mem.unresolved && !n.page.mem.busy
                 else if final then
                   !n.Live(key) && n.page.disk.command == None && !n.page.mem.Pending()
                   && n.page.mem.result == Some(c)
                 else StillOpen(n, key) && !n.page.mem.unresolved && n.page.mem.result == Some(c)
  {
    assert e.call == 0 && m.flight[..0] + m.flight[1..] == [];
    assert m.page.mem.Unsettled();
  }

  /** Asking never settles a command but by its own final answer, noted and cleared; no API error does. */
  lemma QuestionSettlesIff(m: Machine, e: Event, key: string)
    requires Inv(m) && e.Reply? && e.call < |m.flight| && m.flight[e.call].Query? && m.Live(key)
    ensures var n := Next(m, e);
            && n.flight == [] && n.posted == m.posted
            && (if && e.reply.Answer? && e.reply.command.key == key && e.written && e.cleared
                   && e.reply.command.status != OPEN
                then !n.Live(key) && n.page.disk.command == None && !n.page.mem.Pending()
                else StillOpen(n, key) && !n.page.mem.busy)
            && (e.reply == ApiError(404) ==> n.page.mem.notice == Some(NOT_FOUND))
  {
    assert e.call == 0 && m.flight[..0] + m.flight[1..] == [];
  }

  /** A command once seen is asked about by its own id, after a reload too. */
  lemma AskedByItsId(m: Machine, e: Event, key: string)
    requires Inv(m) && e.Reply? && e.call < |m.flight| && m.flight[e.call] == Post(key)
    requires e.reply.Answer? && e.reply.command.key == key && e.reply.command.status == OPEN && e.written
    ensures var n := Next(m, e);
            && Next(n, Resolve).flight == [Query(key, Some(e.reply.command.id))]
            && Next(Next(n, Reload), Resolve).flight == [Query(key, Some(e.reply.command.id))]
  {
    assert e.call == 0 && m.flight[..0] + m.flight[1..] == [];
    var n := Next(m, e);
    var r := Next(n, Reload);
    assert n.page.disk.command == Some(Saved(m.page.mem.input.value));
    assert r.page.mem.input == m.page.mem.input && r.page.mem.knownId == Some(e.reply.command.id);
  }

  /** A command is abandoned exactly when it is the page's, no answer for it is awaited or held, and both
      removals work; then nothing is left of it, and no other command changes its standing. */
  lemma AbandonsIff(m: Machine, first: bool, second: bool, key: string)
    requires Inv(m) && m.page.mem.Holds(key)
    ensures var n := Next(m, Discard(first, second));
            && n.flight == m.flight && n.posted == m.posted
            && (forall k :: k != key ==> (n.Live(k) <==> m.Live(k)))
            && if !m.page.mem.busy && m.page.mem.result == None && first && second then
                 !n.Live(key) && n.page == Page(Memory(None, None, None, false, false, None), Disk(None, None))
               else
                 && (n.Live(key) <==> m.Live(key)) && n.page.mem.input == m.page.mem.input
                 && (m.page.mem.busy || m.page.mem.result != None || !first ==> n.page.disk == m.page.disk)
  {
  }

  /** A submission sends exactly when nothing is pending and the storage works: the command under its
      fresh key, written down, nothing known of it yet. */
  lemma SendsIff(m: Machine, e: Event)
    requires Inv(m) && e.Submit? && Allowed(m, e)
    ensures var n := Next(m, e);
            if !m.page.mem.Pending() && e.written && e.cleared then
              && n.flight == [Post(e.key)] && n.posted == m.posted + [e.key] && StillOpen(n, e.key)
              && n.page.mem.busy && n.page.mem.unresolved && n.page.mem.result == None
              && n.page.mem.input == Some(Input(e.key, e.body)) && n.page.mem.knownId == None
              && n.page.disk == Disk(Some(Saved(Input(e.key, e.body))), None)
            else
              && n.flight == m.flight && n.posted == m.posted
              && (m.page.mem.Pending() ==> n.page == m.page)
              && (!m.page.mem.Pending() ==> n.page.mem.notice == Some(NO_STORAGE))
  {
    if !m.page.mem.Pending() {
      assert m.flight == [];
    }
  }

  /** The three ways a command is settled: one of the five refusals of its submission; its own final answer,
      noted and cleared; the operator abandoning it while no answer is awaited or held. */
  predicate Settles(m: Machine, e: Event, key: string) {
    match e
    case Reply(call, reply, written, cleared) =>
      && call < |m.flight|
      && (match reply
          case ApiError(status) =>
            m.flight[call] == Post(key)
            && (status == 400 || status == 401 || status == 403 || status == 422 || status == 429)
          case Answer(c) =>
            c.key == key && c.status != OPEN && written && cleared && m.page.mem.Holds(key)
          case Broken => false)
    case Discard(first, second) =>
      first && second && !m.page.mem.busy && m.page.mem.result == None && m.page.mem.Holds(key)
    case _ => false
  }

  lemma SettlesStep(m: Machine, e: Event, key: string)
    ensures key in Next(m, e).closed <==> key in m.closed || Settles(m, e, key)
  {
  }

  /** Over any run at all, a command counts as settled exactly when one of its events settled it. */
  lemma {:induction false} SettledIff(m: Machine, events: seq<Event>, key: string)
    ensures key in Run(m, events).closed <==>
              key in m.closed || exists k :: 0 <= k < |events| && Settles(Run(m, events[..k]), events[k], key)
    decreases events
  {
    hide Next, Settles;
    if events != [] {
      var first, rest := events[0], events[1..];
      SettlesStep(m, first, key);
      SettledIff(Next(m, first), rest, key);
      assert events[..0] == [];
      forall k | 0 <= k < |rest| ensures Run(m, events[..k + 1]) == Run(Next(m, first), rest[..k]) {
        assert events[..k + 1][1..] == rest[..k];
      }
      if k :| 0 <= k < |rest| && Settles(Run(Next(m, first), rest[..k]), rest[k], key) {
        assert Settles(Run(m, events[..k + 1]), events[k + 1], key);
      }
      if k :| 0 < k < |events| && Settles(Run(m, events[..k]), events[k], key) {
        assert Settles(Run(Next(m, first), rest[..k - 1]), rest[k - 1], key);
      }
    }
  }

  // ---- where the promises end ------------------------------------------------------------

  /** Restoring is safe exactly when nothing is in flight, or nothing is written down. */
  lemma RestoreIsSafeIff(m: Machine)
    requires Inv(m)
    ensures Inv(Next(m, Restore)) <==> m.flight == [] || m.page.disk.command.None?
  {
    if m.flight == [] || m.page.disk.command.None? {
      assert forall k :: Next(m, Restore).Live(k) ==> m.Live(k);
    }
  }

  /** Abandoning is safe exactly when it does not fail half-way on a command that is still unsettled. */
  lemma DiscardIsSafeIff(m: Machine, first: bool, second: bool)
    requires Inv(m)
    ensures Inv(Next(m, Discard(first, second))) <==> !(first && !second && AbandonsLive(m))
  {
    var n := Next(m, Discard(first, second));
    if first && !second && AbandonsLive(m) {
      assert n.Live(m.page.mem.input.value.key);
    } else {
      QuietStepKeeps(m, Discard(first, second));
    }
  }

  lemma RunThree(m: Machine, a: Event, b: Event, c: Event)
    ensures Run(m, [a, b, c]) == Next(Next(Next(m, a), b), c)
  {
    hide Run, Next;
    assert [a, b, c] == [a] + [b, c] && [b, c] == [b] + [c] && [c] == [c] + [];
    RunOne(m, a, [b, c]);
    RunOne(Next(m, a), b, [c]);
    RunOne(Next(Next(m, a), b), c, []);
    RunNone(Next(Next(Next(m, a), b), c));
  }

  lemma RunOne(m: Machine, e: Event, rest: seq<Event>)
    ensures Run(m, [e] + rest) == Run(Next(m, e), rest)
  {
    hide Next;
    assert ([e] + rest)[1..] == rest;
  }

  lemma RunNone(m: Machine)
    ensures Run(m, []) == m
  {
  }

  const SendA := Submit("", "A", true, true)
  const SendB := Submit("", "B", true, true)

  /** Signing in again while a request is in flight starts a second one. */
  const Doubled := Machine(
    Page(Memory(None, Some(Input("A", "")), None, true, true, Some(RESTORED)),
         Disk(Some(Saved(Input("A", ""))), None)),
    [Post("A"), Query("A", None)], ["A"], {"A"}, {})

  lemma RestoreInFlightDoubles()
    ensures Run(Start(), [SendA, Restore, Resolve]) == Doubled
  {
    hide Run;
    RunThree(Start(), SendA, Restore, Resolve);
    var m1 := Next(Start(), SendA);
    assert m1.page.mem.Pending() && m1.flight == [Post("A")] && m1.posted == ["A"] && m1.used == {"A"};
    var m2 := Next(m1, Restore);
    assert m2.page.mem == Memory(None, Some(Input("A", "")), None, true, false, Some(RESTORED));
    assert Next(m2, Resolve) == Doubled;
  }

  /** Then the late reply to the first request erases the record of the next command, which is sent,
      unsettled and forgotten. */
  lemma RestoreInFlightForgets()
    ensures var m := Run(Doubled, [Reply(1, Answer(Command("1", "A", DONE)), true, true), SendB,
                                   Reply(0, ApiError(429), true, true)]);
            m.Live("B") && m.page.disk.command == None && !m.page.mem.Pending()
  {
    hide Run;
    RunThree(Doubled, Reply(1, Answer(Command("1", "A", DONE)), true, true), SendB,
             Reply(0, ApiError(429), true, true));
    var m4 := Next(Doubled, Reply(1, Answer(Command("1", "A", DONE)), true, true));
    assert m4.flight == [Post("A")] && m4.closed == {"A"} && !m4.page.mem.Pending();
    var m5 := Next(m4, SendB);
    assert m5.flight == [Post("A"), Post("B")] && m5.posted == ["A", "B"];
    var m6 := Next(m5, Reply(0, ApiError(429), true, true));
    assert m6.closed == {"A"} && m6.Live("B");
  }

  /** Abandoning that fails half-way, then a reload: two commands unsettled at once. */
  lemma HalfDiscardForgets()
    ensures var unsure := Run(Start(), [SendA, Reply(0, Broken, true, true), Discard(true, false)]);
            var m := Next(Next(unsure, Reload), SendB);
            m.Live("A") && m.Live("B")
  {
    hide Run;
    RunThree(Start(), SendA, Reply(0, Broken, true, true), Discard(true, false));
    var m1 := Next(Start(), SendA);
    assert m1.flight == [Post("A")] && m1.posted == ["A"] && m1.page.mem.input == Some(Input("A", ""));
    var m2 := Next(m1, Reply(0, Broken, true, true));
    assert m2.flight == [] && !m2.page.mem.busy && m2.closed == {};
    var m3 := Next(m2, Discard(true, false));
    var m4 := Next(m3, Reload);
    assert m4.page == Page(Blank, Disk(None, None));
    var m5 := Next(m4, SendB);
    assert m5.posted == ["A", "B"] && m5.closed == {};
  }

  /** Busy exactly while a request is in flight. */
  predicate Attended(m: Machine) { m.page.mem.busy <==> m.flight != [] }

  /** That fails in one way only: the server refuses a command and its record cannot be removed. */
  lemma BusyWithoutRequestIff(m: Machine, e: Event)
    requires Inv(m) && Attended(m) && Allowed(m, e)
    ensures Attended(Next(m, e))
       <==> !(e.Reply? && e.call < |m.flight| && m.flight[e.call].Post? && Refusal(e.reply) && !e.cleared)
  {
  }

  /** Such a run: busy, with nothing in flight. */
  lemma RefusalCanLeaveItBusy()
    ensures var m := Run(Start(), [SendA, Reply(0, ApiError(429), true, false)]);
            m.page.mem.busy && m.flight == []
  {
    hide Run, Next;
    assert [SendA, Reply(0, ApiError(429), true, false)] == [SendA] + [Reply(0, ApiError(429), true, false)];
    assert [Reply(0, ApiError(429), true, false)] == [Reply(0, ApiError(429), true, false)] + [];
    var m1 := Next(Start(), SendA);
    RunOne(Start(), SendA, [Reply(0, ApiError(429), true, false)]);
    RunOne(m1, Reply(0, ApiError(429), true, false), []);
    RunNone(Next(m1, Reply(0, ApiError(429), true, false)));
    RefusedStep();
  }

  lemma RefusedStep()
    ensures var m := Next(Next(Start(), SendA), Reply(0, ApiError(429), true, false));
            m.page.mem.busy && m.flight == []
  {
    assert Next(Start(), SendA).flight == [Post("A")];
  }

  /** After it the page answers to nothing but a reload or a new sign-in. */
  lemma StuckUntilReload(m: Machine, e: Event)
    requires m.page.mem.busy && m.flight == [] && !e.Reload? && !e.Restore?
    ensures Next(m, e).page == m.page && Next(m, e).flight == [] && Next(m, e).posted == m.posted
  {
  }

  /** An unreadable record blocks a fresh page for good: nothing is sent, asked or abandoned. */
  lemma UnreadableBlocks(m: Machine, e: Event)
    requires m.page.disk.command == Some(Garbage) && m.flight == []
    requires m.page.mem == Restored(Page(Blank, m.page.disk)).mem
    ensures var n := Next(m, e);
            n.page == m.page && n.flight == [] && n.posted == m.posted && n.closed == m.closed
  {
  }
}
