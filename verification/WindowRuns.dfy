/** The display window as an object with one read in flight, and whole runs of it against a changing history. */
module WindowRuns {
  import opened Options
  import opened DisplayWindow

  datatype Ticket = Ticket(selection: nat, op: Operation, anchor: Option<Anchor>)

  datatype Response = Ready(page: Page) | Changed(feed: Feed) | Preparing | Evicted | Failed

  /** Nothing is shown; how much of the feed was consumed does not matter until the next replacement. */
  function Nothing(after: nat): View { View([], false, false, after, None) }

  // ---------------------------------------------------------------- what each call does

  /** What the window remembers: what it shows, the anchor of an initial read, and the read in flight. */
  datatype Memory = Memory(
    view: View,
    open: bool,
    ready: bool,
    failed: Option<Operation>,
    start: Option<Anchor>,
    selection: nat,
    asked: Option<Operation>,
    queued: bool)

  function TicketFor(m: Memory, op: Operation): Ticket { Ticket(m.selection, op, AnchorFor(m.view, op, m.start)) }

  /** A read asks beside the shown edge, at the saved anchor, or for the latest messages. */
  predicate AsksBeside(ticket: Ticket, op: Operation, shown: seq<Record>, saved: Option<Anchor>) {
    && ticket.op == op
    && ticket.anchor ==
         match op
         case Initial => saved
         case Older => if shown == [] then None else Some(Anchor(shown[0].place, false, false))
         case Newer => if shown == [] then None else Some(Anchor(shown[|shown| - 1].place, true, false))
         case _ => None
  }

  /** `select` (src/client/display-window.ts:83-92), up to the initial read. */
  function Selected(m: Memory, open: bool, anchor: Option<Anchor>): Memory {
    Memory(Nothing(0), open, false, None, anchor, m.selection + 1, None, false)
  }

  /** A read may begin: none is in flight, and no jump to the latest messages waits. */
  predicate MayAsk(m: Memory, op: Operation) { m.open && m.asked.None? && (m.queued ==> op == Latest) }

  /** The start of `read` (src/client/display-window.ts:109-120). */
  function Asked(m: Memory, op: Operation): Memory {
    if MayAsk(m, op) then m.(asked := Some(op), failed := None) else m
  }

  /** `jumpToLatest` (src/client/display-window.ts:95-105): it waits for a read of the change feed. */
  function Jumped(m: Memory): Memory {
    if m.queued then m
    else if m.asked == Some(Changes) then m.(queued := true)
    else Asked(m, Latest)
  }

  /** What follows the read that a jump waited for. */
  function Resumed(m: Memory): Memory {
    if !m.queued || m.asked.Some? then m
    else if m.ready && m.failed.None? then Asked(m, Latest)
    else m.(queued := false)
  }

  /** A response that fails the envelope checks, or a failed read, leaves the shown view as it is. */
  predicate Refused(v: View, op: Operation, response: Response, pageSize: nat) {
    match response
    case Ready(page) =>
      op == Changes || |page.records| > pageSize || exists i :: 0 <= i < |page.records| && page.records[i].deleted
    case Changed(feed) => op != Changes || |feed.records| > pageSize || (feed.next.Some? && feed.next == v.cursor)
    case Failed => true
    case _ => false
  }

  function Displayed(v: View, ticket: Ticket, response: Response, b: Bounds, pageSize: nat): View {
    if Refused(v, ticket.op, response, pageSize) then v
    else if response.Ready? then ApplyPage(v, ticket.op, ticket.anchor, response.page, b)
    else if response.Changed? then ApplyChanges(v, response.feed, b)
    else Nothing(v.after)
  }

  /** The rest of `read` (src/client/display-window.ts:117-191). A read of an abandoned selection changes nothing. */
  function Answered(m: Memory, ticket: Ticket, response: Response, b: Bounds, pageSize: nat): Memory {
    if ticket.selection != m.selection then m
    else
      var view := Displayed(m.view, ticket, response, b, pageSize);
      var ended := m.(view := view, asked := None, queued := m.queued && ticket.op != Latest);
      if Refused(m.view, ticket.op, response, pageSize) then
        ended.(ready := |view.records| > 0, failed := Some(ticket.op))
      else if response.Ready? then ended.(ready := true)
      else if response.Changed? then ended
      else ended.(ready := false, start := None, failed := if response.Evicted? then Some(Initial) else m.failed)
  }

  // ---------------------------------------------------------------- the object

  /** The published snapshot, which every change replaces as a whole. */
  datatype Snapshot = Snapshot(
    conversation: Option<nat>,
    ready: bool,
    failed: Option<Operation>,
    records: seq<Record>,
    hasOlder: bool,
    hasNewer: bool,
    retainedBytes: nat,
    version: nat)

  function Blank(c: Option<nat>, version: nat): Snapshot { Snapshot(c, false, None, [], false, false, 0, version) }

  class ConversationDisplayWindow {
    const bounds: Bounds
    const pageSize: nat

    var state: Snapshot
    var changesAfter: nat
    var changesCursor: Option<Cursor>
    var initialAnchor: Option<Anchor>
    var selection: nat
    var pending: Option<Operation>
    var queuedLatest: bool
    var disposed: bool

    ghost predicate Valid() reads this { Within(state.records, bounds) && state.retainedBytes == Bytes(state.records) }

    function Shown(): View reads this {
      View(state.records, state.hasOlder, state.hasNewer, changesAfter, changesCursor)
    }

    function Remembered(): Memory reads this {
      Memory(Shown(), state.conversation.Some?, state.ready, state.failed, initialAnchor, selection, pending,
                    queuedLatest)
    }

    constructor (bounds: Bounds, pageSize: nat)
      ensures Valid() && !disposed && this.bounds == bounds && this.pageSize == pageSize
      ensures Remembered() == Memory(Nothing(0), false, false, None, None, 0, None, false)
    {
      this.bounds, this.pageSize := bounds, pageSize;
      state, changesAfter, changesCursor := Blank(None, 0), 0, None;
      initialAnchor, selection, pending, queuedLatest, disposed := None, 0, None, false, false;
    }

    /** `select`: reads of the earlier selection are abandoned. */
    method Select(c: Option<nat>, anchor: Option<Anchor>)
      requires Valid()
      modifies this
      ensures Valid() && disposed == old(disposed)
      ensures Remembered() == if disposed then old(Remembered()) else Selected(old(Remembered()), c.Some?, anchor)
      ensures !disposed ==>
                && state.conversation == c && state.version > old(state.version)
                && Shown() == Nothing(0) && Shown().records == [] && initialAnchor == anchor
                && pending.None? && !queuedLatest && selection > old(selection)
    {
      if disposed { return; }
      selection := selection + 1;
      pending, queuedLatest := None, false;
      changesCursor, changesAfter, initialAnchor := None, 0, anchor;
      state := Blank(c, state.version + 1);
    }

    /** The start of `read`: at most one read is in flight. */
    method Begin(op: Operation) returns (ticket: Option<Ticket>)
      requires Valid()
      modifies this`pending, this`state
      ensures Valid()
      ensures Remembered() == if disposed then old(Remembered()) else Asked(old(Remembered()), op)
      ensures ticket.Some? <==>
                && !disposed && old(pending).None? && (old(queuedLatest) ==> op == Latest)
                && old(state).conversation.Some?
      ensures ticket.Some? ==>
                && ticket.value == TicketFor(old(Remembered()), op) && ticket.value.selection == selection
                && pending == Some(op) && state.failed.None? && Shown() == old(Shown())
      ensures ticket.Some? ==> AsksBeside(ticket.value, op, old(state).records, initialAnchor)
    {
      if disposed || pending.Some? || (queuedLatest && op != Latest) || state.conversation.None? { return None; }
      pending := Some(op);
      state := state.(failed := None);
      ticket := Some(Ticket(selection, op, AnchorFor(Shown(), op, initialAnchor)));
    }

    /** The rest of `read`, when its response arrives. */
    method Finish(ticket: Ticket, response: Response)
      requires Valid()
      modifies this`state, this`changesAfter, this`changesCursor, this`initialAnchor, this`pending, this`queuedLatest
      ensures Valid()
      ensures Remembered() ==
                if disposed then old(Remembered()) else Answered(old(Remembered()), ticket, response, bounds, pageSize)
    {
      if disposed || ticket.selection != selection { return; }
      pending := None;
      if ticket.op == Latest { queuedLatest := false; }
      var refused := Refused(Shown(), ticket.op, response, pageSize);
      if refused {
        state := state.(ready := |state.records| > 0, failed := Some(ticket.op));
      } else {
        var next, bytes := Answer(Shown(), ticket, response, bounds, pageSize);
        Publish(next, bytes, response);
      }
    }

    /** An accepted response is shown. */
    method Publish(next: View, bytes: nat, response: Response)
      requires Valid() && Within(next.records, bounds) && bytes == Bytes(next.records)
      modifies this`state, this`changesAfter, this`changesCursor, this`initialAnchor
      ensures Valid() && Shown() == next && state.conversation == old(state.conversation)
      ensures state.ready == (response.Ready? || (response.Changed? && old(state.ready)))
      ensures state.failed == if response.Evicted? then Some(Initial) else old(state.failed)
      ensures initialAnchor == if response.Ready? || response.Changed? then old(initialAnchor) else None
      ensures state.version == old(state.version) <==> response.Changed? && next.records == old(state.records)
    {
      var changed := !response.Changed? || next.records != state.records;
      var ready := response.Ready? || (response.Changed? && state.ready);
      var failed := if response.Evicted? then Some(Initial) else state.failed;
      var version := if changed then state.version + 1 else state.version;
      state := Snapshot(state.conversation, ready, failed, next.records, next.hasOlder, next.hasNewer, bytes, version);
      changesAfter, changesCursor := next.after, next.cursor;
      if !response.Ready? && !response.Changed? { initialAnchor := None; }
    }

    /** `jumpToLatest`: clicks are gathered behind a read of the change feed. */
    method JumpToLatest() returns (ticket: Option<Ticket>)
      requires Valid()
      modifies this`pending, this`state, this`queuedLatest
      ensures Valid()
      ensures Remembered() == if disposed then old(Remembered()) else Jumped(old(Remembered()))
      ensures ticket == if !disposed && MayAsk(old(Remembered()), Latest) && !old(queuedLatest)
                        then Some(TicketFor(old(Remembered()), Latest)) else None
    {
      ticket := None;
      if disposed || queuedLatest { return; }
      if pending == Some(Changes) { queuedLatest := true; } else { ticket := Begin(Latest); }
    }

    /** The jump that waited goes on, unless the read before it failed or emptied the window. */
    method Resume() returns (ticket: Option<Ticket>)
      requires Valid()
      modifies this`pending, this`state, this`queuedLatest
      ensures Valid()
      ensures Remembered() == if disposed then old(Remembered()) else Resumed(old(Remembered()))
      ensures ticket.Some? ==> ticket.value == TicketFor(old(Remembered()), Latest)
      ensures ticket.Some? <==> !disposed && old(pending).None? && pending.Some?
    {
      ticket := None;
      if disposed || !queuedLatest || pending.Some? { return; }
      if state.ready && state.failed.None? { ticket := Begin(Latest); } else { queuedLatest := false; }
    }

    /** `dispose` (src/client/display-window.ts:213-218). */
    method Dispose()
      requires Valid()
      modifies this
      ensures Valid() && disposed
      ensures !old(disposed) ==> Shown().records == [] && state.conversation.None? && pending.None? && !queuedLatest
    {
      if disposed { return; }
      disposed, pending, queuedLatest := true, None, false;
      state := Blank(None, state.version + 1);
    }
  }

  /** What an acceptable response leaves in the window. */
  method Answer(v: View, ticket: Ticket, response: Response, b: Bounds, pageSize: nat) returns (next: View, bytes: nat)
    requires !Refused(v, ticket.op, response, pageSize)
    ensures next == Displayed(v, ticket, response, b, pageSize)
    ensures bytes == Bytes(next.records) && Within(next.records, b)
  {
    if response.Ready? {
      next, bytes := TakePage(v, ticket.op, ticket.anchor, response.page, b);
    } else if response.Changed? {
      next, bytes := TakeFeed(v, response.feed, b);
    } else {
      next, bytes := Nothing(v.after), 0;
    }
  }

  /** A page joins the window: merge by identity, trim, and set the flags. */
  method TakePage(v: View, op: Operation, anchor: Option<Anchor>, page: Page, b: Bounds)
    returns (next: View, bytes: nat)
    ensures next == ApplyPage(v, op, anchor, page, b) && bytes == Bytes(next.records) && Within(next.records, b)
  {
    next := Extension(v, op, anchor, page);
    var merged := MergeById(next.records);
    next := next.(records := merged);
    next, bytes := CutTo(next, op, b);
  }

  method TakeFeed(v: View, feed: Feed, b: Bounds) returns (next: View, bytes: nat)
    ensures next == ApplyChanges(v, feed, b) && bytes == Bytes(next.records) && Within(next.records, b)
  {
    next := Consumption(v, feed);
    next, bytes := CutTo(next, Changes, b);
  }

  method CutTo(v: View, op: Operation, b: Bounds) returns (next: View, bytes: nat)
    ensures next == Cut(v, op, b) && bytes == Bytes(next.records) && Within(next.records, b)
  {
    var kept;
    kept, bytes := TrimTo(v.records, op, b);
    TrimShortens(v.records, op, b);
    next := v.(records := kept);
    if |kept| < |v.records| {
      if op == Older || op == Changes { next := next.(hasNewer := true); } else { next := next.(hasOlder := true); }
    }
  }

  lemma {:induction false} TrimShortens(records: seq<Record>, op: Operation, b: Bounds)
    ensures |Trim(records, op, b)| <= |records|
    ensures |Trim(records, op, b)| == |records| ==> Trim(records, op, b) == records
  {
    var kept := Trim(records, op, b);
    if op == Older || op == Changes { assert kept == records[..|kept|]; }
  }

  /** The map by identity that merges a page with the window. */
  method MergeById(combined: seq<Record>) returns (merged: seq<Record>)
    ensures merged == Merge(combined)
  {
    merged := [];
    var i := 0;
    while i < |combined|
      invariant 0 <= i <= |combined| && merged == Merge(combined[..i])
    {
      assert combined[..i + 1][..i] == combined[..i];
      merged := Upsert(merged, combined[i]);
      i := i + 1;
    }
    assert combined[..i] == combined;
  }

  /** `trim` (src/client/display-window.ts:203-212): pops or shifts one record at a time. */
  method TrimTo(input: seq<Record>, op: Operation, b: Bounds) returns (records: seq<Record>, bytes: nat)
    ensures records == Trim(input, op, b) && bytes == Bytes(records)
  {
    records, bytes := input, Bytes(input);
    while |records| > b.messages || bytes > b.bytes
      invariant bytes == Bytes(records) && Trim(records, op, b) == Trim(input, op, b)
      decreases |records|
    {
      if op == Older || op == Changes {
        bytes := bytes - records[|records| - 1].bytes;
        records := records[..|records| - 1];
      } else {
        FirstBytes(records);
        bytes := bytes - records[0].bytes;
        records := records[1..];
      }
    }
  }

  lemma {:induction false} FirstBytes(records: seq<Record>)
    requires records != []
    ensures Bytes(records) == records[0].bytes + Bytes(records[1..])
  {
    if |records| > 1 {
      var init := records[..|records| - 1];
      FirstBytes(init);
      assert records[1..][..|records| - 2] == init[1..];
    } else {
      assert records[..0] == [] && records[1..] == [];
    }
  }

  // ---------------------------------------------------------------- whole runs

  /**
   * What happens to a window: the server moves on, a conversation is selected, a read or a jump is asked
   * for, the read in flight is answered from the history `g` as the server saw it, an abandoned one is
   * answered, or a waiting jump goes on.
   */
  datatype Step =
    | Serve(g: History)
    | Choose(g: History, conversation: Option<nat>, anchor: Option<Anchor>)
    | Ask(op: Operation)
    | Jump
    | Resume
    | Reply(g: History, response: Response)
    | Late(k: nat, response: Response)

  /**
   * `h` is the history of the selected conversation, `since` is what it was when the read in flight was asked
   * for, and `lost` holds the abandoned reads.
   */
  datatype World = World(h: History, m: Memory, lost: seq<Ticket>, since: History)

  datatype Limits = Limits(bounds: Bounds, pageSize: nat)

  function Abandoned(m: Memory): seq<Ticket> {
    if m.asked.Some? then [TicketFor(m, m.asked.value)] else []
  }

  /** What the read in flight is answered with comes from the history, unless the window turns it down. */
  predicate Truthful(h: History, m: Memory, op: Operation, response: Response, pageSize: nat) {
    Refused(m.view, op, response, pageSize)
    || (match response
        case Ready(page) => PageFrom(h, AnchorFor(m.view, op, m.start), page)
        case Changed(feed) => FeedFrom(h, m.view.after, m.view.cursor, feed)
        case _ => true)
  }

  predicate Legal(w: World, step: Step, l: Limits) {
    match step
    case Serve(g) => Evolves(w.h, g)
    case Choose(g, _, _) => HistoryOk(g)
    case Reply(g, response) =>
      && Evolves(w.since, g) && Evolves(g, w.h)
      && (w.m.asked.Some? ==> Truthful(g, w.m, w.m.asked.value, response, l.pageSize))
    case _ => true
  }

  function Next(w: World, step: Step, l: Limits): World {
    match step
    case Serve(g) => w.(h := g, since := if w.m.asked.Some? then w.since else g)
    case Choose(g, c, anchor) => World(g, Selected(w.m, c.Some?, anchor), w.lost + Abandoned(w.m), g)
    case Ask(op) => w.(m := Asked(w.m, op))
    case Jump => w.(m := Jumped(w.m))
    case Resume => w.(m := Resumed(w.m))
    case Reply(_, response) =>
      if w.m.asked.None? then w
      else w.(m := Answered(w.m, TicketFor(w.m, w.m.asked.value), response, l.bounds, l.pageSize), since := w.h)
    case Late(k, response) =>
      if k >= |w.lost| then w else w.(m := Answered(w.m, w.lost[k], response, l.bounds, l.pageSize))
  }

  /** A new window. */
  function Fresh(h: History): World {
    World(h, Memory(Nothing(0), false, false, None, None, 0, None, false), [], h)
  }

  function Exec(h: History, steps: seq<Step>, l: Limits): World {
    if steps == [] then Fresh(h) else Next(Exec(h, steps[..|steps| - 1], l), steps[|steps| - 1], l)
  }

  predicate LegalRun(h: History, steps: seq<Step>, l: Limits) {
    steps == []
    || (LegalRun(h, steps[..|steps| - 1], l) && Legal(Exec(h, steps[..|steps| - 1], l), steps[|steps| - 1], l))
  }

  /** A newer read of an emptied window whose older flag is already down, which leaves older messages out. */
  predicate MisledBy(m: Memory, op: Operation, response: Response, l: Limits) {
    && response.Ready? && !Refused(m.view, op, response, l.pageSize)
    && Misleading(m.view, op, response.page, l.bounds)
  }

  predicate Misleads(w: World, step: Step, l: Limits) {
    step.Reply? && w.m.asked.Some? && MisledBy(w.m, w.m.asked.value, step.response, l)
  }

  predicate NeverMisled(h: History, steps: seq<Step>, l: Limits) {
    steps == []
    || (NeverMisled(h, steps[..|steps| - 1], l) && !Misleads(Exec(h, steps[..|steps| - 1], l), steps[|steps| - 1], l))
  }

  predicate LostOk(w: World) { forall k :: 0 <= k < |w.lost| ==> w.lost[k].selection < w.m.selection }

  /** The window is honest now and was when its read was asked for, and abandoned reads are of earlier selections. */
  predicate WorldOk(w: World, l: Limits) {
    && Honest(w.h, w.m.view) && Within(w.m.view.records, l.bounds) && LostOk(w)
    && Honest(w.since, w.m.view) && (w.m.asked.None? ==> w.since == w.h)
  }

  predicate OlderOk(w: World) { OlderHonest(w.h, w.m.view) && OlderHonest(w.since, w.m.view) }

  lemma {:induction false} DisplayedHonest(h: History, m: Memory, op: Operation, response: Response, l: Limits)
    requires Honest(h, m.view) && Within(m.view.records, l.bounds)
    requires Truthful(h, m, op, response, l.pageSize)
    ensures var next := Displayed(m.view, TicketFor(m, op), response, l.bounds, l.pageSize);
            && Honest(h, next) && Within(next.records, l.bounds)
            && (OlderHonest(h, m.view) ==> (OlderHonest(h, next) <==> !MisledBy(m, op, response, l)))
  {
    if !Refused(m.view, op, response, l.pageSize) {
      match response
      case Ready(page) => PagesStayHonest(h, m.view, op, m.start, page, l.bounds);
      case Changed(feed) => ChangesStayHonest(h, m.view, feed, l.bounds);
      case _ =>
    }
  }

  lemma {:induction false} ReplyHonest(w: World, g: History, response: Response, l: Limits)
    requires WorldOk(w, l) && Legal(w, Reply(g, response), l) && w.m.asked.Some?
    ensures WorldOk(Next(w, Reply(g, response), l), l)
    ensures OlderOk(w) && !Misleads(w, Reply(g, response), l) ==> OlderOk(Next(w, Reply(g, response), l))
    ensures OlderOk(w) && Misleads(w, Reply(g, response), l) ==>
              !OlderHonest(g, Next(w, Reply(g, response), l).m.view)
  {
    HonestEvolves(w.since, g, w.m.view);
    DisplayedHonest(g, w.m, w.m.asked.value, response, l);
    HonestEvolves(g, w.h, Next(w, Reply(g, response), l).m.view);
  }

  /** Every step keeps the window honest; its older flag unless an answer misleads, and then it is wrong. */
  lemma {:induction false} NextHonest(w: World, step: Step, l: Limits)
    requires WorldOk(w, l) && Legal(w, step, l)
    ensures WorldOk(Next(w, step, l), l)
    ensures OlderOk(w) && !Misleads(w, step, l) ==> OlderOk(Next(w, step, l))
    ensures OlderOk(w) && Misleads(w, step, l) ==> !OlderHonest(step.g, Next(w, step, l).m.view)
  {
    match step
    case Serve(g) => HonestEvolves(w.h, g, w.m.view);
    case Reply(g, response) => if w.m.asked.Some? { ReplyHonest(w, g, response, l); }
    case _ =>
  }

  /**
   * Over every run, with conversations selected and reads answered late or abandoned, the window is a
   * duplicate-free run of the selected conversation's history, bounded, current and honest.
   */
  lemma {:induction false} RunsAreHonest(h: History, steps: seq<Step>, l: Limits)
    requires HistoryOk(h) && LegalRun(h, steps, l)
    ensures WorldOk(Exec(h, steps, l), l)
    ensures NeverMisled(h, steps, l) ==> OlderOk(Exec(h, steps, l))
  {
    if steps != [] {
      var before := steps[..|steps| - 1];
      RunsAreHonest(h, before, l);
      NextHonest(Exec(h, before, l), steps[|steps| - 1], l);
    }
  }

  /** The object, driven through a run, ends as the run does, and shows what `RunsAreHonest` says. */
  method RunWindow(h: History, steps: seq<Step>, l: Limits) returns (window: ConversationDisplayWindow, now: World)
    requires HistoryOk(h) && LegalRun(h, steps, l)
    ensures fresh(window) && window.Valid() && window.Remembered() == now.m && now == Exec(h, steps, l)
    ensures Honest(now.h, window.Shown()) && Within(window.Shown().records, l.bounds)
    ensures NeverMisled(h, steps, l) ==> OlderHonest(now.h, window.Shown())
  {
    window := new ConversationDisplayWindow(l.bounds, l.pageSize);
    now := Fresh(h);
    var i := 0;
    while i < |steps|
      invariant 0 <= i <= |steps| && now == Exec(h, steps[..i], l)
      invariant fresh(window) && window.Valid() && window.Remembered() == now.m && !window.disposed
      invariant window.bounds == l.bounds && window.pageSize == l.pageSize
    {
      assert steps[..i + 1][..i] == steps[..i];
      Drive(window, now, steps[i], l);
      now := Next(now, steps[i], l);
      i := i + 1;
    }
    assert steps[..i] == steps;
    RunsAreHonest(h, steps, l);
  }

  method Drive(window: ConversationDisplayWindow, now: World, step: Step, l: Limits)
    requires window.Valid() && !window.disposed && window.Remembered() == now.m
    requires window.bounds == l.bounds && window.pageSize == l.pageSize
    modifies window
    ensures window.Valid() && !window.disposed && window.Remembered() == Next(now, step, l).m
  {
    var ticket: Option<Ticket>;
    match step
    case Serve(_) =>
    case Choose(_, c, anchor) => window.Select(c, anchor);
    case Ask(op) => ticket := window.Begin(op);
    case Jump => ticket := window.JumpToLatest();
    case Resume => ticket := window.Resume();
    case Reply(_, response) =>
      if now.m.asked.Some? { window.Finish(TicketFor(now.m, now.m.asked.value), response); }
    case Late(k, response) =>
      if k < |now.lost| { window.Finish(now.lost[k], response); }
  }

  // ---------------------------------------------------------------- what an answer does

  lemma {:induction false} PageIsAccepted(
    h: History, v: View, op: Operation, anchor: Option<Anchor>, page: Page, pageSize: nat)
    requires op != Changes && |page.records| <= pageSize && PageFrom(h, anchor, page)
    ensures !Refused(v, op, Ready(page), pageSize)
  {}

  lemma {:induction false} AcceptedAnswer(m: Memory, op: Operation, page: Page, b: Bounds, pageSize: nat, view: View)
    requires !Refused(m.view, op, Ready(page), pageSize)
    requires view == Displayed(m.view, TicketFor(m, op), Ready(page), b, pageSize)
    ensures Answered(m, TicketFor(m, op), Ready(page), b, pageSize) ==
            m.(view := view, asked := None, queued := m.queued && op != Latest, ready := true)
  {}

  lemma {:induction false} AcceptedReply(w: World, g: History, op: Operation, page: Page, l: Limits, m: Memory)
    requires w.m.asked == Some(op)
    requires m == Answered(w.m, TicketFor(w.m, op), Ready(page), l.bounds, l.pageSize)
    ensures Next(w, Reply(g, Ready(page)), l).m == m
  {}

  lemma {:induction false} AcceptedIsShown(w: World, g: History, op: Operation, page: Page, l: Limits)
    requires w.m.asked == Some(op) && !Refused(w.m.view, op, Ready(page), l.pageSize)
    ensures var next := Next(w, Reply(g, Ready(page)), l).m;
            && next.view == ApplyPage(w.m.view, op, AnchorFor(w.m.view, op, w.m.start), page, l.bounds)
            && next.ready && next.asked.None? && next.failed == w.m.failed && next.start == w.m.start
            && next.queued == (w.m.queued && op != Latest) && next.selection == w.m.selection
  {
    var view := ApplyPage(w.m.view, op, AnchorFor(w.m.view, op, w.m.start), page, l.bounds);
    PageIsDisplayed(w.m.view, TicketFor(w.m, op), page, l);
    AcceptedAnswer(w.m, op, page, l.bounds, l.pageSize, view);
    AcceptedReply(w, g, op, page, l,
                  w.m.(view := view, asked := None, queued := w.m.queued && op != Latest, ready := true));
  }

  /** A page of the asked size is shown, and the read is over. */
  lemma {:induction false} PageIsShown(w: World, g: History, op: Operation, page: Page, l: Limits)
    requires w.m.asked == Some(op) && op != Changes && |page.records| <= l.pageSize
    requires PageFrom(g, AnchorFor(w.m.view, op, w.m.start), page)
    ensures var next := Next(w, Reply(g, Ready(page)), l).m;
            && next.view == ApplyPage(w.m.view, op, AnchorFor(w.m.view, op, w.m.start), page, l.bounds)
            && next.ready && next.asked.None? && next.failed == w.m.failed && next.start == w.m.start
            && next.queued == (w.m.queued && op != Latest) && next.selection == w.m.selection
  {
    PageIsAccepted(g, w.m.view, op, AnchorFor(w.m.view, op, w.m.start), page, l.pageSize);
    AcceptedIsShown(w, g, op, page, l);
  }

  /** A feed page that moves on is consumed. */
  lemma {:induction false} FeedIsConsumed(w: World, g: History, feed: Feed, l: Limits)
    requires w.m.asked == Some(Changes) && |feed.records| <= l.pageSize
    requires feed.next.Some? ==> feed.next != w.m.view.cursor
    ensures var next := Next(w, Reply(g, Changed(feed)), l).m;
            && next.view == ApplyChanges(w.m.view, feed, l.bounds)
            && next.ready == w.m.ready && next.asked.None? && next.failed == w.m.failed && next.start == w.m.start
            && next.queued == w.m.queued && next.selection == w.m.selection
  {}

  /** A failed read, or an answer of the wrong form, leaves everything shown as it is and says so. */
  lemma {:induction false} FailureKeepsTheView(w: World, g: History, op: Operation, response: Response, l: Limits)
    requires w.m.asked == Some(op)
    requires || response.Failed?
             || (response.Ready? && (op == Changes || |response.page.records| > l.pageSize))
             || (response.Changed? && (op != Changes || |response.feed.records| > l.pageSize))
             || (response.Changed? && response.feed.next.Some? && response.feed.next == w.m.view.cursor)
    ensures var next := Next(w, Reply(g, response), l).m;
            && next.view == w.m.view && next.failed == Some(op) && next.asked.None?
            && next.ready == (w.m.view.records != []) && next.start == w.m.start
  {}

  /** A view that is being prepared, or was evicted, shows nothing and forgets the saved anchor. */
  lemma {:induction false} EmptyingAnswer(w: World, g: History, op: Operation, response: Response, l: Limits)
    requires w.m.asked == Some(op) && (response.Preparing? || response.Evicted?)
    ensures var next := Next(w, Reply(g, response), l).m;
            && next.view.records == [] && !next.view.hasOlder && !next.view.hasNewer && next.view.cursor.None?
            && next.start.None? && !next.ready && next.asked.None?
            && next.failed == if response.Evicted? then Some(Initial) else w.m.failed
  {}

  /** A selection abandons the read in flight, whose answer then changes nothing, whatever it is. */
  lemma {:induction false} SelectionAbandons(
    w: World, g: History, c: Option<nat>, anchor: Option<Anchor>, response: Response, l: Limits)
    requires LostOk(w) && w.m.asked.Some?
    ensures var next := Next(w, Choose(g, c, anchor), l);
            && next.lost == w.lost + [TicketFor(w.m, w.m.asked.value)] && next.m.asked.None?
            && next.m.start == anchor && next.m.view == Nothing(0)
            && forall k :: 0 <= k < |next.lost| ==> Next(next, Late(k, response), l) == next
  {}

  /** While a read is in flight the server moves on; the answer may be of any moment since it was asked for. */
  lemma {:induction false} AnswerMayBeOlder(w: World, op: Operation, g: History, response: Response, l: Limits)
    requires w.since == w.h && HistoryOk(w.h) && MayAsk(w.m, op) && Evolves(w.h, g)
    requires Truthful(w.h, Asked(w.m, op), op, response, l.pageSize)
    ensures Legal(Next(Next(w, Ask(op), l), Serve(g), l), Reply(w.h, response), l)
  {}

  // ---------------------------------------------------------------- a jump is not swallowed

  /** A jump waits behind a read of the change feed, is about to go on, or is the read in flight. */
  predicate Navigating(m: Memory) {
    && m.open && m.queued
    && (m.asked == Some(Latest) || ((m.asked.None? || m.asked == Some(Changes)) && m.ready && m.failed.None?))
  }

  /** The step ends the jump: another selection, its own answer, or a refused or emptying answer before it. */
  predicate Ends(w: World, step: Step, l: Limits) {
    || step.Choose?
    || (&& step.Reply? && w.m.asked.Some?
        && (|| w.m.asked == Some(Latest) || !step.response.Changed?
            || Refused(w.m.view, w.m.asked.value, step.response, l.pageSize)))
  }

  function RunOn(w: World, steps: seq<Step>, l: Limits): World {
    if steps == [] then w else Next(RunOn(w, steps[..|steps| - 1], l), steps[|steps| - 1], l)
  }

  lemma {:induction false} RunOnIsExec(h: History, before: seq<Step>, steps: seq<Step>, l: Limits)
    ensures RunOn(Exec(h, before, l), steps, l) == Exec(h, before + steps, l)
    decreases |steps|
  {
    if steps == [] {
      assert before + steps == before;
    } else {
      RunOnIsExec(h, before, steps[..|steps| - 1], l);
      var all := before + steps;
      assert all[..|all| - 1] == before + steps[..|steps| - 1];
    }
  }

  predicate Undisturbed(w: World, steps: seq<Step>, l: Limits) {
    steps == []
    || (Undisturbed(w, steps[..|steps| - 1], l) && !Ends(RunOn(w, steps[..|steps| - 1], l), steps[|steps| - 1], l))
  }

  lemma {:induction false} NavigationStep(w: World, step: Step, l: Limits)
    requires LostOk(w) && Navigating(w.m) && !Ends(w, step, l)
    ensures LostOk(Next(w, step, l)) && Navigating(Next(w, step, l).m)
  {}

  /**
   * A jump made while the change feed is read is not swallowed: whatever else is asked for meanwhile, the
   * latest messages are read once that read is answered.
   */
  lemma {:induction false} JumpIsNotSwallowed(w: World, steps: seq<Step>, l: Limits)
    requires LostOk(w) && w.m.open && w.m.asked == Some(Changes) && w.m.ready && w.m.failed.None?
    requires Undisturbed(Next(w, Jump, l), steps, l)
    ensures var after := RunOn(Next(w, Jump, l), steps, l);
            && LostOk(after) && Navigating(after.m)
            && Next(after, Resume, l).m.asked == Some(if after.m.asked == Some(Changes) then Changes else Latest)
  {
    if steps != [] {
      var before := steps[..|steps| - 1];
      JumpIsNotSwallowed(w, before, l);
      NavigationStep(RunOn(Next(w, Jump, l), before, l), steps[|steps| - 1], l);
    }
  }

  // ---------------------------------------------------------------- an older flag that misleads

  /** One message is shown; it is deleted while two arrive; one newer read then shows only the last of them. */
  const THEN := History(1, [Entry(1, false, 0)])
  const NOW := History(4, [Entry(2, true, 0), Entry(3, false, 0), Entry(4, false, 0)])
  const FIRST := Page([Record(0, 1, false, 0)], false, 1)
  const NEWS := Feed([Record(0, 2, true, 0), Record(1, 3, false, 0), Record(2, 4, false, 0)], None, 4)
  const LAST := Page([Record(2, 4, false, 0)], true, 4)
  const ROOM := Bounds(6, 16384)
  const SIZE := 3

  lemma {:induction false} FirstTake()
    ensures PageFrom(THEN, None, FIRST)
    ensures ApplyPage(Nothing(0), Initial, None, FIRST, ROOM) == View(FIRST.records, false, false, 1, None)
  {
    MergeIncreasing(FIRST.records);
    assert FIRST.records[..0] == [];
    assert Within(FIRST.records, ROOM);
  }

  lemma {:induction false} Moves()
    ensures Evolves(THEN, NOW)
  {}

  lemma {:induction false} NewsIsFeed()
    ensures FeedFrom(NOW, 1, None, NEWS)
  {
    forall p: nat | p < 3 ensures Holds(NEWS.records, p) { assert NEWS.records[p].place == p; }
  }

  lemma {:induction false} NewsEmptiesIt()
    ensures ApplyChanges(View(FIRST.records, false, false, 1, None), NEWS, ROOM) == View([], false, true, 4, None)
  {
    Overtaken(FIRST.records[0], NEWS.records);
    assert FIRST.records[..0] == [];
    assert Refreshed(FIRST.records, NEWS.records) == [];
    assert Outside(FIRST.records, NEWS.records) by { assert NEWS.records[1] == Record(1, 3, false, 0); }
  }

  lemma {:induction false} Overtaken(r: Record, feed: seq<Record>)
    requires feed != [] && feed[0].place == r.place && feed[0].revision >= r.revision
    ensures Updated(r, feed) == feed[0]
  {}

  lemma {:induction false} LastIsPage()
    ensures PageFrom(NOW, None, LAST) && !Gone(NOW, 1)
  {
    assert !Gone(NOW, 1);
  }

  lemma {:induction false} TakenWhole(v: View, page: Page, b: Bounds)
    requires v.records == [] && Increasing(page.records) && Within(page.records, b)
    ensures ApplyPage(v, Newer, None, page, b) == v.(records := page.records, hasNewer := page.more)
  {
    assert [] + page.records == page.records;
    MergeIncreasing(page.records);
  }

  lemma {:induction false} LastTake()
    ensures PageFrom(NOW, None, LAST)
    ensures ApplyPage(View([], false, true, 4, None), Newer, None, LAST, ROOM)
         == View(LAST.records, false, true, 4, None)
    ensures !OlderHonest(NOW, View(LAST.records, false, true, 4, None))
  {
    LastIsPage();
    assert LAST.records[..0] == [];
    TakenWhole(View([], false, true, 4, None), LAST, ROOM);
  }

  /** One conversation is open and shows `v`; no read is in flight. */
  function Quiet(h: History, v: View, ready: bool): World {
    World(h, Memory(v, true, ready, None, None, 1, None, false), [], h)
  }

  /** The run is legal and ends in the given world. */
  predicate Reaches(h: History, steps: seq<Step>, l: Limits, w: World) {
    LegalRun(h, steps, l) && Exec(h, steps, l) == w
  }

  /** The run is legal, and afterwards the older flag is down although an older message is live. */
  predicate Misinforms(h: History, steps: seq<Step>, l: Limits) {
    && LegalRun(h, steps, l)
    && var w := Exec(h, steps, l);
       w.m.view.records != [] && !w.m.view.hasOlder && !OlderHonest(w.h, w.m.view)
  }

  lemma {:induction false} OneMore(h: History, steps: seq<Step>, w: World, step: Step, l: Limits)
    requires Reaches(h, steps, l, w) && Legal(w, step, l)
    ensures Reaches(h, steps + [step], l, Next(w, step, l))
  {
    var all := steps + [step];
    assert all[..|all| - 1] == steps && all[|all| - 1] == step;
  }

  /** What a read of a quiet window shows. */
  predicate Gives(h: History, v: View, ready: bool, op: Operation, response: Response, l: Limits, next: View) {
    var m := Quiet(h, v, ready).m;
    && !Refused(v, op, response, l.pageSize) && (response.Ready? || response.Changed?)
    && Truthful(h, m, op, response, l.pageSize)
    && Displayed(v, TicketFor(m, op), response, l.bounds, l.pageSize) == next
  }

  /** A read that is asked for and answered. */
  lemma {:induction false} ReadMore(
    h: History, steps: seq<Step>, g: History, v: View, op: Operation, response: Response, l: Limits, next: View)
    requires Reaches(h, steps, l, Quiet(g, v, op != Initial)) && Gives(g, v, op != Initial, op, response, l, next)
    requires HistoryOk(g) && (op == Initial ==> response.Ready?)
    ensures Reaches(h, steps + [Ask(op)] + [Reply(g, response)], l, Quiet(g, next, true))
  {
    var w := Quiet(g, v, op != Initial);
    OneMore(h, steps, w, Ask(op), l);
    OneMore(h, steps + [Ask(op)], Next(w, Ask(op), l), Reply(g, response), l);
  }

  function Misled(first: Page, g: History, feed: Feed, last: Page, h: History): seq<Step> {
    [] + [Choose(h, Some(0), None)] + [Ask(Initial)] + [Reply(h, Ready(first))] + [Serve(g)]
    + [Ask(Changes)] + [Reply(g, Changed(feed))] + [Ask(Newer)] + [Reply(g, Ready(last))]
  }

  lemma {:induction false} Chain(
    h: History, first: Page, g: History, feed: Feed, last: Page, v1: View, v2: View, v3: View, l: Limits)
    requires Evolves(h, g) && Gives(h, Nothing(0), false, Initial, Ready(first), l, v1)
    requires Gives(g, v1, true, Changes, Changed(feed), l, v2) && Gives(g, v2, true, Newer, Ready(last), l, v3)
    ensures Reaches(h, Misled(first, g, feed, last, h), l, Quiet(g, v3, true))
  {
    var open := [] + [Choose(h, Some(0), None)];
    OneMore(h, [], Fresh(h), Choose(h, Some(0), None), l);
    var shown := open + [Ask(Initial)] + [Reply(h, Ready(first))];
    ReadMore(h, open, h, Nothing(0), Initial, Ready(first), l, v1);
    OneMore(h, shown, Quiet(h, v1, true), Serve(g), l);
    var emptied := shown + [Serve(g)] + [Ask(Changes)] + [Reply(g, Changed(feed))];
    ReadMore(h, shown + [Serve(g)], g, v1, Changes, Changed(feed), l, v2);
    ReadMore(h, emptied, g, v2, Newer, Ready(last), l, v3);
  }

  lemma {:induction false} EndsMisinformed(h: History, steps: seq<Step>, l: Limits, g: History, v: View)
    requires Reaches(h, steps, l, Quiet(g, v, true)) && v.records != [] && !v.hasOlder && !OlderHonest(g, v)
    ensures Misinforms(h, steps, l)
  {}

  lemma {:induction false} PageIsTruthful(h: History, m: Memory, op: Operation, page: Page, pageSize: nat)
    requires PageFrom(h, AnchorFor(m.view, op, m.start), page)
    ensures Truthful(h, m, op, Ready(page), pageSize)
  {}

  lemma {:induction false} PageIsDisplayed(v: View, ticket: Ticket, page: Page, l: Limits)
    requires !Refused(v, ticket.op, Ready(page), l.pageSize)
    ensures Displayed(v, ticket, Ready(page), l.bounds, l.pageSize)
         == ApplyPage(v, ticket.op, ticket.anchor, page, l.bounds)
  {}

  lemma {:induction false} PageGives(h: History, v: View, ready: bool, op: Operation, page: Page, l: Limits, next: View)
    requires !Refused(v, op, Ready(page), l.pageSize) && PageFrom(h, AnchorFor(v, op, None), page)
    requires ApplyPage(v, op, AnchorFor(v, op, None), page, l.bounds) == next
    ensures Gives(h, v, ready, op, Ready(page), l, next)
  {
    var m := Quiet(h, v, ready).m;
    PageIsTruthful(h, m, op, page, l.pageSize);
    PageIsDisplayed(v, TicketFor(m, op), page, l);
  }

  lemma {:induction false} FeedGives(h: History, v: View, feed: Feed, l: Limits, next: View)
    requires !Refused(v, Changes, Changed(feed), l.pageSize) && FeedFrom(h, v.after, v.cursor, feed)
    requires ApplyChanges(v, feed, l.bounds) == next
    ensures Gives(h, v, true, Changes, Changed(feed), l, next)
  {}

  lemma {:induction false} NoneRefused(v: View)
    requires v.cursor.None?
    ensures !Refused(v, Initial, Ready(FIRST), SIZE) && !Refused(v, Changes, Changed(NEWS), SIZE)
    ensures !Refused(v, Newer, Ready(LAST), SIZE)
  {}

  lemma {:induction false} FirstRead(shown: View)
    requires shown == View(FIRST.records, false, false, 1, None)
    ensures Gives(THEN, Nothing(0), false, Initial, Ready(FIRST), Limits(ROOM, SIZE), shown)
  {
    FirstTake();
    NoneRefused(Nothing(0));
    PageGives(THEN, Nothing(0), false, Initial, FIRST, Limits(ROOM, SIZE), shown);
  }

  lemma {:induction false} NewsRead(shown: View, emptied: View)
    requires shown == View(FIRST.records, false, false, 1, None) && emptied == View([], false, true, 4, None)
    ensures Gives(NOW, shown, true, Changes, Changed(NEWS), Limits(ROOM, SIZE), emptied)
  {
    NewsIsFeed();
    NewsEmptiesIt();
    NoneRefused(shown);
    FeedGives(NOW, shown, NEWS, Limits(ROOM, SIZE), emptied);
  }

  lemma {:induction false} LastRead(emptied: View, left: View)
    requires emptied == View([], false, true, 4, None) && left == View(LAST.records, false, true, 4, None)
    ensures Gives(NOW, emptied, true, Newer, Ready(LAST), Limits(ROOM, SIZE), left)
    ensures left.records != [] && !left.hasOlder && !OlderHonest(NOW, left)
  {
    LastTake();
    NoneRefused(emptied);
    PageGives(NOW, emptied, true, Newer, LAST, Limits(ROOM, SIZE), left);
  }

  /** The exception is reachable. */
  lemma {:induction false} OlderFlagCanMislead()
    ensures Misinforms(THEN, Misled(FIRST, NOW, NEWS, LAST, THEN), Limits(ROOM, SIZE))
  {
    var shown, emptied := View(FIRST.records, false, false, 1, None), View([], false, true, 4, None);
    var left, l := View(LAST.records, false, true, 4, None), Limits(ROOM, SIZE);
    Moves();
    FirstRead(shown);
    NewsRead(shown, emptied);
    LastRead(emptied, left);
    Chain(THEN, FIRST, NOW, NEWS, LAST, shown, emptied, left, l);
    EndsMisinformed(THEN, Misled(FIRST, NOW, NEWS, LAST, THEN), l, NOW, left);
  }
}
