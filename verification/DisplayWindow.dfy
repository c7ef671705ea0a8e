/** A bounded window over a conversation's display history (src/client/display-window.ts). */
module DisplayWindow {
  import opened Options

  // ---------------------------------------------------------------- the server's history

  /** A message at its place in display order; a deletion leaves a tombstone. */
  datatype Entry = Entry(revision: nat, deleted: bool, bytes: nat)
  datatype History = History(head: nat, entries: seq<Entry>)

  predicate HistoryOk(h: History) { forall p :: 0 <= p < |h.entries| ==> h.entries[p].revision <= h.head }

  /** Later: messages were appended, edited or deleted, each at a new revision, and no deletion was undone. */
  predicate Evolves(h: History, g: History) {
    && HistoryOk(h) && HistoryOk(g) && h.head <= g.head && |h.entries| <= |g.entries|
    && (forall p :: 0 <= p < |h.entries| ==>
          g.entries[p] == h.entries[p]
              || (g.entries[p].revision > h.head && (h.entries[p].deleted ==> g.entries[p].deleted)))
    && (forall p :: |h.entries| <= p < |g.entries| ==> g.entries[p].revision > h.head)
  }

  predicate Gone(h: History, p: nat) { p >= |h.entries| || h.entries[p].deleted }

  // ---------------------------------------------------------------- what the window keeps

  datatype Record = Record(place: nat, revision: nat, deleted: bool, bytes: nat)
  datatype Cursor = Cursor(ceiling: nat, revision: nat, place: nat)
  datatype Anchor = Anchor(place: nat, newer: bool, inclusive: bool)
  datatype Operation = Initial | Older | Newer | Latest | Changes

  /** `after` and `cursor` say how much of the change feed has been consumed. */
  datatype View = View(records: seq<Record>, hasOlder: bool, hasNewer: bool, after: nat, cursor: Option<Cursor>)

  datatype Page = Page(records: seq<Record>, more: bool, revision: nat)
  datatype Feed = Feed(records: seq<Record>, next: Option<Cursor>, through: nat)

  function Bytes(records: seq<Record>): nat {
    if records == [] then 0 else Bytes(records[..|records| - 1]) + records[|records| - 1].bytes
  }

  datatype Bounds = Bounds(messages: nat, bytes: nat)

  predicate Within(records: seq<Record>, b: Bounds) { |records| <= b.messages && Bytes(records) <= b.bytes }

  /** `trim` (src/client/display-window.ts:203-212), from the newer and from the older end. */
  function TrimNewer(records: seq<Record>, b: Bounds): (r: seq<Record>)
    ensures Within(r, b) && r <= records
    ensures |r| < |records| ==> !Within(records[..|r| + 1], b)
    decreases |records|
  {
    if Within(records, b) then records
    else
      var r := TrimNewer(records[..|records| - 1], b);
      assert |r| == |records| - 1 ==> records[..|r| + 1] == records;
      assert |r| < |records| - 1 ==> records[..|records| - 1][..|r| + 1] == records[..|r| + 1];
      r
  }

  function TrimOlder(records: seq<Record>, b: Bounds): (r: seq<Record>)
    ensures Within(r, b) && |r| <= |records| && r == records[|records| - |r|..]
    ensures |r| < |records| ==> !Within(records[|records| - |r| - 1..], b)
    decreases |records|
  {
    if Within(records, b) then assert records[0..] == records; records
    else
      var r := TrimOlder(records[1..], b);
      assert records[1..][|records| - 1 - |r|..] == records[|records| - |r|..];
      assert |r| == |records| - 1 ==> records[0..] == records;
      assert |r| < |records| - 1 ==> records[1..][|records| - |r| - 2..] == records[|records| - |r| - 1..];
      r
  }

  function Trim(records: seq<Record>, op: Operation, b: Bounds): seq<Record> {
    if op == Older || op == Changes then TrimNewer(records, b) else TrimOlder(records, b)
  }

  /** The place of a record with the same identity, or the length. */
  function IndexOf(records: seq<Record>, place: nat): (i: nat)
    ensures i <= |records| && (i < |records| ==> records[i].place == place)
    ensures i == |records| <==> forall k :: 0 <= k < |records| ==> records[k].place != place
  {
    if records == [] then 0
    else if records[0].place == place then 0
    else
      var i := IndexOf(records[1..], place);
      assert records == [records[0]] + records[1..];
      i + 1
  }

  /** One entry of the map by identity: the newer revision wins and keeps the earlier position. */
  function Upsert(records: seq<Record>, r: Record): seq<Record> {
    var i := IndexOf(records, r.place);
    if i == |records| then records + [r]
    else if records[i].revision <= r.revision then records[i := r] else records
  }

  function Merge(records: seq<Record>): seq<Record> {
    if records == [] then [] else Upsert(Merge(records[..|records| - 1]), records[|records| - 1])
  }

  /** Too many records or bytes: one end goes, and its flag says so. */
  function Cut(v: View, op: Operation, b: Bounds): View {
    var kept := Trim(v.records, op, b);
    if |kept| == |v.records| then v
    else if op == Older || op == Changes then v.(records := kept, hasNewer := true)
    else v.(records := kept, hasOlder := true)
  }

  /** The view after a page, before trimming. */
  function Extension(v: View, op: Operation, anchor: Option<Anchor>, page: Page): View {
    var replacement := op == Initial || op == Latest;
    var combined :=
      if replacement then page.records else if op == Older then page.records + v.records else v.records + page.records;
    var towardsNewer := anchor.Some? && anchor.value.newer;
    View(combined,
         if replacement then towardsNewer || page.more else if op == Older then page.more else v.hasOlder,
         if replacement then (if towardsNewer then page.more else anchor.Some?)
         else if op == Older then v.hasNewer else page.more,
         if replacement then page.revision else v.after, if replacement then None else v.cursor)
  }

  /** A page read joins the window (src/client/display-window.ts:154-175). */
  function ApplyPage(v: View, op: Operation, anchor: Option<Anchor>, page: Page, b: Bounds): View {
    var w := Extension(v, op, anchor, page);
    Cut(w.(records := Merge(w.records)), op, b)
  }

  function Updated(r: Record, feed: seq<Record>): Record {
    var i := IndexOf(feed, r.place);
    if i < |feed| && feed[i].revision >= r.revision then feed[i] else r
  }

  /** The window's records brought up to date, without the deleted ones. */
  function Refreshed(records: seq<Record>, feed: seq<Record>): seq<Record> {
    if records == [] then []
    else
      var r := Updated(records[|records| - 1], feed);
      Refreshed(records[..|records| - 1], feed) + (if r.deleted then [] else [r])
  }

  predicate Outside(records: seq<Record>, feed: seq<Record>) {
    exists i :: 0 <= i < |feed| && !feed[i].deleted && IndexOf(records, feed[i].place) == |records|
  }

  /** The view after a feed page, before trimming. */
  function Consumption(v: View, feed: Feed): View {
    View(Refreshed(v.records, feed.records), v.hasOlder, v.hasNewer || Outside(v.records, feed.records),
         if feed.next.None? then feed.through else v.after, feed.next)
  }

  /** A page of the change feed (src/client/display-window.ts:121-143). */
  function ApplyChanges(v: View, feed: Feed, b: Bounds): View { Cut(Consumption(v, feed), Changes, b) }

  // ---------------------------------------------------------------- what the server answers

  predicate Current(h: History, r: Record) {
    r.place < |h.entries|
        && r == Record(r.place, h.entries[r.place].revision, h.entries[r.place].deleted, h.entries[r.place].bytes)
  }

  /** Records in display order, with only deleted messages between them. */
  predicate Run(h: History, records: seq<Record>) {
    && (forall i, j :: 0 <= i < j < |records| ==> records[i].place < records[j].place)
    && (forall i :: 0 <= i < |records| ==> records[i].place < |h.entries|)
    && (forall p: nat {:trigger Gone(h, p)} :: records != [] && records[0].place < p < records[|records| - 1].place ==>
          Gone(h, p) || Holds(records, p))
  }

  predicate Holds(records: seq<Record>, p: nat) { IndexOf(records, p) < |records| }

  /** Every message in an open interval of places is gone. */
  predicate Empty(h: History, from: int, to: int) {
    forall p: nat {:trigger Gone(h, p)} :: from < p < to ==> Gone(h, p)
  }

  /**
   * A page is a run of current messages next to its anchor, or the latest ones; `more` is false exactly at the
   * end of the history.
   */
  predicate PageFrom(h: History, anchor: Option<Anchor>, page: Page) {
    && page.revision == h.head && Run(h, page.records)
    && (forall i :: 0 <= i < |page.records| ==> Current(h, page.records[i]) && !page.records[i].deleted)
    && (anchor.Some? ==> !Gone(h, anchor.value.place))
    && var (low, high) := Edges(page, anchor, |h.entries|);
       && (anchor.None? || !anchor.value.newer ==>
             Empty(h, high, if anchor.None? then |h.entries| else Limit(anchor.value)))
       && (anchor.Some? && anchor.value.newer ==> Empty(h, Limit(anchor.value), low))
       && (page.records != [] && anchor.Some? ==>
             if anchor.value.newer then page.records[0].place > Limit(anchor.value)
             else page.records[|page.records| - 1].place < Limit(anchor.value))
       && (page.more <==>
             !(if anchor.Some? && anchor.value.newer then Empty(h, high, |h.entries|) else Empty(h, -1, low)))
  }

  /** The exclusive end at the anchor's side. */
  function Limit(a: Anchor): int { if !a.inclusive then a.place else if a.newer then a.place - 1 else a.place + 1 }

  /** First and last place of a page; an empty page stands at the anchor's limit or the end of the history. */
  function Edges(page: Page, anchor: Option<Anchor>, end: nat): (int, int) {
    if page.records != [] then (page.records[0].place, page.records[|page.records| - 1].place)
    else if anchor.None? then (end, -1)
    else if anchor.value.newer then (end, Limit(anchor.value)) else (Limit(anchor.value), -1)
  }

  predicate LexLeq(r: nat, p: nat, s: nat, q: nat) { r < s || (r == s && p <= q) }

  /** A change at this revision and place has been consumed. */
  predicate Consumed(after: nat, cursor: Option<Cursor>, r: nat, p: nat) {
    r <= after || (cursor.Some? && r <= cursor.value.ceiling && LexLeq(r, p, cursor.value.revision, cursor.value.place))
  }

  /** A feed page holds the current form of every message that it makes consumed. */
  predicate FeedFrom(h: History, after: nat, cursor: Option<Cursor>, feed: Feed) {
    && feed.through == (if cursor.Some? then cursor.value.ceiling else h.head)
    && (feed.next.Some? ==> feed.next.value.ceiling == feed.through)
    && (forall i :: 0 <= i < |feed.records| ==> Current(h, feed.records[i]))
    && (forall p: nat {:trigger Gone(h, p)} :: p < |h.entries| ==>
          var r := h.entries[p].revision;
          Consumed(if feed.next.None? then feed.through else after, feed.next, r, p) ==>
            Consumed(after, cursor, r, p) || Holds(feed.records, p))
  }

  // ---------------------------------------------------------------- honesty

  /** A record is no newer than its message, and up to date and live once the change has been consumed. */
  predicate RecordOk(h: History, v: View, r: Record) {
    && r.place < |h.entries| && !r.deleted && r.revision <= h.entries[r.place].revision
    && (Consumed(v.after, v.cursor, h.entries[r.place].revision, r.place) ==> Current(h, r))
  }

  predicate NewerHonest(h: History, v: View) {
    v.records != [] && !v.hasNewer ==>
      forall p: nat {:trigger Gone(h, p)} :: v.records[|v.records| - 1].place < p < |h.entries| ==>
        Gone(h, p) || !Consumed(v.after, v.cursor, h.entries[p].revision, p)
  }

  predicate OlderHonest(h: History, v: View) {
    v.records != [] && !v.hasOlder ==> Empty(h, -1, v.records[0].place)
  }

  /** The window is a run of the history, up to date with what it consumed and honest about what lies beyond. */
  predicate Honest(h: History, v: View) {
    && HistoryOk(h) && Run(h, v.records)
    && v.after <= h.head && (v.cursor.Some? ==> v.cursor.value.ceiling <= h.head)
    && (forall i :: 0 <= i < |v.records| ==> RecordOk(h, v, v.records[i]))
    && NewerHonest(h, v)
  }

  /** Whatever happens at the server, the window stays as honest as it was. */
  lemma {:induction false} HonestEvolves(h: History, g: History, v: View)
    requires Honest(h, v) && Evolves(h, g)
    ensures Honest(g, v) && (OlderHonest(h, v) ==> OlderHonest(g, v))
  {
    forall p: nat | Gone(h, p) && p < |h.entries| ensures Gone(g, p) {}
  }

  // ---------------------------------------------------------------- trimming

  lemma {:induction false} RunPrefix(h: History, records: seq<Record>, k: nat)
    requires Run(h, records) && k <= |records|
    ensures Run(h, records[..k])
  {
    var w := records[..k];
    if k > 0 {
      forall p: nat | w[0].place < p < w[k - 1].place ensures Gone(h, p) || Holds(w, p) {
        assert records[k - 1].place <= records[|records| - 1].place;
        if !Gone(h, p) {
          assert Holds(records, p);
          assert w[IndexOf(records, p)].place == p;
        }
      }
    }
  }

  lemma {:induction false} RunSuffix(h: History, records: seq<Record>, k: nat)
    requires Run(h, records) && k <= |records|
    ensures Run(h, records[k..])
  {
    var w := records[k..];
    if w != [] {
      assert w[|w| - 1] == records[|records| - 1];
      forall p: nat | w[0].place < p < w[|w| - 1].place ensures Gone(h, p) || Holds(w, p) {
        assert records[0].place <= records[k].place;
        if !Gone(h, p) {
          assert Holds(records, p);
          assert w[IndexOf(records, p) - k].place == p;
        }
      }
    }
  }

  function LessNewer(v: View, k: nat): View
    requires k <= |v.records|
  {
    v.(records := v.records[..k], hasNewer := true)
  }

  function LessOlder(v: View, k: nat): View
    requires k <= |v.records|
  {
    v.(records := v.records[k..], hasOlder := true)
  }

  lemma {:induction false} CutNewer(h: History, v: View, k: nat)
    requires Honest(h, v) && k <= |v.records|
    ensures Honest(h, LessNewer(v, k)) && (OlderHonest(h, v) ==> OlderHonest(h, LessNewer(v, k)))
  {
    RunPrefix(h, v.records, k);
    var w := LessNewer(v, k);
    forall i | 0 <= i < |w.records| ensures RecordOk(h, w, w.records[i]) { assert RecordOk(h, v, v.records[i]); }
  }

  lemma {:induction false} CutOlder(h: History, v: View, k: nat)
    requires Honest(h, v) && k <= |v.records|
    ensures Honest(h, LessOlder(v, k)) && OlderHonest(h, LessOlder(v, k))
  {
    RunSuffix(h, v.records, k);
    var w := LessOlder(v, k);
    forall i | 0 <= i < |w.records| ensures RecordOk(h, w, w.records[i]) { assert RecordOk(h, v, v.records[k + i]); }
    assert w.records != [] ==> w.records[|w.records| - 1] == v.records[|v.records| - 1];
  }

  /** Trimming leaves the view as it is, or takes some records off one end and sets that end's flag. */
  lemma {:induction false} CutAsIs(v: View, op: Operation, b: Bounds) returns (k: nat)
    ensures k <= |v.records| && Within(Cut(v, op, b).records, b)
    ensures Trim(v.records, op, b) == v.records ==> Cut(v, op, b) == v
    ensures Trim(v.records, op, b) != v.records ==>
              Cut(v, op, b) == if op == Older || op == Changes then LessNewer(v, k) else LessOlder(v, k)
  {
    var kept := Trim(v.records, op, b);
    k := if op == Older || op == Changes then |kept| else |v.records| - |kept|;
    if op == Older || op == Changes { assert kept == v.records[..k]; }
    assert |kept| == |v.records| ==> kept == v.records;
  }

  lemma {:induction false} CutHonest(h: History, v: View, op: Operation, b: Bounds)
    requires Honest(h, v)
    ensures Honest(h, Cut(v, op, b)) && Within(Cut(v, op, b).records, b)
    ensures OlderHonest(h, v) ==> OlderHonest(h, Cut(v, op, b))
    ensures Trim(v.records, op, b) == v.records ==> Cut(v, op, b) == v
    ensures Trim(v.records, op, b) != v.records && op != Older && op != Changes ==> OlderHonest(h, Cut(v, op, b))
  {
    var k := CutAsIs(v, op, b);
    CutNewer(h, v, k);
    CutOlder(h, v, k);
  }

  // ---------------------------------------------------------------- consuming changes

  predicate Increasing(records: seq<Record>) {
    forall i, j :: 0 <= i < j < |records| ==> records[i].place < records[j].place
  }

  lemma {:induction false} RefreshedSpec(records: seq<Record>, feed: seq<Record>)
    requires Increasing(records)
    ensures Increasing(Refreshed(records, feed))
    ensures forall r :: r in Refreshed(records, feed) ==>
              !r.deleted && exists q :: q in records && r == Updated(q, feed)
    ensures forall q :: q in records && !Updated(q, feed).deleted ==> Updated(q, feed) in Refreshed(records, feed)
  {
    if records != [] {
      var init, last := records[..|records| - 1], records[|records| - 1];
      RefreshedSpec(init, feed);
      assert records == init + [last];
      var done := Refreshed(init, feed);
      forall i | 0 <= i < |done| ensures done[i].place < last.place {
        assert done[i] in done;
        var q :| q in init && done[i] == Updated(q, feed);
      }
    }
  }

  /** Each record, brought up to date, is as current as the feed made it; a deleted one is gone. */
  lemma {:induction false} UpdatedOk(h: History, v: View, feed: Feed, r: Record, after: View)
    requires Honest(h, v) && FeedFrom(h, v.after, v.cursor, feed) && r in v.records
    requires after.cursor == feed.next && after.after == (if feed.next.None? then feed.through else v.after)
    ensures var u := Updated(r, feed.records);
            u.place == r.place && (u.deleted ==> Gone(h, r.place)) && (!u.deleted ==> RecordOk(h, after, u))
  {
    assert RecordOk(h, v, r);
    var p := r.place;
    assert p < |h.entries|;
    var i := IndexOf(feed.records, p);
    if i < |feed.records| {
      assert Current(h, feed.records[i]);
    } else {
      assert !Holds(feed.records, p);
      assert Gone(h, p) || !Gone(h, p);
    }
  }

  lemma {:induction false} InRecords(records: seq<Record>, p: nat)
    ensures Holds(records, p) <==> exists r :: r in records && r.place == p
  {
    if Holds(records, p) { assert records[IndexOf(records, p)] in records; }
  }

  /** A message that was in the window and is not in the refreshed one is gone. */
  lemma {:induction false} LeftBecauseGone(h: History, v: View, feed: Feed, p: nat)
    requires Honest(h, v) && FeedFrom(h, v.after, v.cursor, feed) && Holds(v.records, p)
    ensures Gone(h, p) || Holds(Refreshed(v.records, feed.records), p)
  {
    var q := v.records[IndexOf(v.records, p)];
    UpdatedOk(h, v, feed, q, Consumption(v, feed));
    RefreshedSpec(v.records, feed.records);
    InRecords(Refreshed(v.records, feed.records), p);
  }

  lemma {:induction false} NotHeldOutside(records: seq<Record>, p: nat)
    requires Increasing(records) && records != [] && (p < records[0].place || p > records[|records| - 1].place)
    ensures !Holds(records, p)
  {
    forall k | 0 <= k < |records| ensures records[k].place != p {
      assert records[0].place <= records[k].place <= records[|records| - 1].place;
    }
  }

  lemma {:induction false} RefreshedEdges(v: View, feed: Feed, k: nat)
    requires Increasing(v.records) && k < |Refreshed(v.records, feed.records)|
    ensures v.records != []
    ensures v.records[0].place <= Refreshed(v.records, feed.records)[k].place <= v.records[|v.records| - 1].place
  {
    var after := Refreshed(v.records, feed.records);
    RefreshedSpec(v.records, feed.records);
    assert after[k] in after;
    var q :| q in v.records && after[k] == Updated(q, feed.records);
    var i :| 0 <= i < |v.records| && v.records[i] == q;
  }

  lemma {:induction false} RefreshedGap(h: History, v: View, feed: Feed, p: nat)
    requires Honest(h, v) && FeedFrom(h, v.after, v.cursor, feed)
    requires v.records != [] && v.records[0].place < p < v.records[|v.records| - 1].place
    ensures Gone(h, p) || Holds(Refreshed(v.records, feed.records), p)
  {
    assert Gone(h, p) || Holds(v.records, p);
    if Holds(v.records, p) { LeftBecauseGone(h, v, feed, p); }
  }

  lemma {:induction false} RefreshedRun(h: History, v: View, feed: Feed)
    requires Honest(h, v) && FeedFrom(h, v.after, v.cursor, feed)
    ensures Run(h, Refreshed(v.records, feed.records))
  {
    var after := Refreshed(v.records, feed.records);
    RefreshedSpec(v.records, feed.records);
    forall i | 0 <= i < |after| ensures after[i].place < |h.entries| { RefreshedRecords(h, v, feed, i); }
    if after != [] {
      RefreshedEdges(v, feed, 0);
      RefreshedEdges(v, feed, |after| - 1);
      forall p: nat | after[0].place < p < after[|after| - 1].place ensures Gone(h, p) || Holds(after, p) {
        RefreshedGap(h, v, feed, p);
      }
    }
  }

  lemma {:induction false} RefreshedRecords(h: History, v: View, feed: Feed, i: nat)
    requires Honest(h, v) && FeedFrom(h, v.after, v.cursor, feed) && i < |Refreshed(v.records, feed.records)|
    ensures RecordOk(h, Consumption(v, feed), Refreshed(v.records, feed.records)[i])
  {
    var after := Refreshed(v.records, feed.records);
    RefreshedSpec(v.records, feed.records);
    assert after[i] in after;
    var q :| q in v.records && after[i] == Updated(q, feed.records);
    UpdatedOk(h, v, feed, q, Consumption(v, feed));
  }

  lemma {:induction false} BeyondRefreshed(h: History, v: View, feed: Feed, p: nat)
    requires Honest(h, v) && FeedFrom(h, v.after, v.cursor, feed) && p < |h.entries|
    requires !Consumption(v, feed).hasNewer && v.records != [] && v.records[0].place < p
    requires !Holds(Refreshed(v.records, feed.records), p)
    ensures Gone(h, p)
            || !Consumed(if feed.next.None? then feed.through else v.after, feed.next, h.entries[p].revision, p)
  {
    if Holds(v.records, p) {
      LeftBecauseGone(h, v, feed, p);
    } else if Holds(feed.records, p) {
      assert Current(h, feed.records[IndexOf(feed.records, p)]);
      assert feed.records[IndexOf(feed.records, p)].deleted;
    } else {
      assert p != v.records[|v.records| - 1].place;
      assert Gone(h, p) || !Consumed(v.after, v.cursor, h.entries[p].revision, p);
    }
  }

  lemma {:induction false} RefreshedNewer(h: History, v: View, feed: Feed)
    requires Honest(h, v) && FeedFrom(h, v.after, v.cursor, feed)
    ensures NewerHonest(h, Consumption(v, feed))
  {
    var w := Consumption(v, feed);
    if w.records != [] && !w.hasNewer {
      RefreshedSpec(v.records, feed.records);
      RefreshedEdges(v, feed, |w.records| - 1);
      forall p: nat | w.records[|w.records| - 1].place < p < |h.entries|
        ensures Gone(h, p) || !Consumed(w.after, w.cursor, h.entries[p].revision, p)
      {
        NotHeldOutside(w.records, p);
        BeyondRefreshed(h, v, feed, p);
      }
    }
  }

  lemma {:induction false} RefreshedOlder(h: History, v: View, feed: Feed)
    requires Honest(h, v) && FeedFrom(h, v.after, v.cursor, feed) && OlderHonest(h, v)
    ensures OlderHonest(h, Consumption(v, feed))
  {
    var w := Consumption(v, feed);
    if w.records != [] && !w.hasOlder {
      RefreshedSpec(v.records, feed.records);
      RefreshedEdges(v, feed, 0);
      forall p: nat | p < w.records[0].place ensures Gone(h, p) {
        NotHeldOutside(w.records, p);
        if Holds(v.records, p) { LeftBecauseGone(h, v, feed, p); }
      }
    }
  }

  lemma {:induction false} ConsumptionHonest(h: History, v: View, feed: Feed)
    requires Honest(h, v) && FeedFrom(h, v.after, v.cursor, feed)
    ensures Honest(h, Consumption(v, feed))
    ensures OlderHonest(h, v) ==> OlderHonest(h, Consumption(v, feed))
  {
    var w := Consumption(v, feed);
    RefreshedRun(h, v, feed);
    RefreshedNewer(h, v, feed);
    forall i | 0 <= i < |w.records| ensures RecordOk(h, w, w.records[i]) { RefreshedRecords(h, v, feed, i); }
    if OlderHonest(h, v) { RefreshedOlder(h, v, feed); }
  }

  /** Consuming a page of changes keeps the window honest and bounded. */
  lemma {:induction false} ChangesStayHonest(h: History, v: View, feed: Feed, b: Bounds)
    requires Honest(h, v) && FeedFrom(h, v.after, v.cursor, feed)
    ensures Honest(h, ApplyChanges(v, feed, b)) && Within(ApplyChanges(v, feed, b).records, b)
    ensures OlderHonest(h, v) ==> OlderHonest(h, ApplyChanges(v, feed, b))
  {
    ConsumptionHonest(h, v, feed);
    CutHonest(h, Consumption(v, feed), Changes, b);
  }

  // ---------------------------------------------------------------- reading pages

  /** The anchor that each read sends (src/client/display-window.ts:145-150). */
  function AnchorFor(v: View, op: Operation, start: Option<Anchor>): Option<Anchor> {
    if op == Initial then start
    else if op == Older && v.records != [] then Some(Anchor(v.records[0].place, false, false))
    else if op == Newer && v.records != [] then Some(Anchor(v.records[|v.records| - 1].place, true, false))
    else None
  }

  lemma {:induction false} MergeIncreasing(records: seq<Record>)
    requires Increasing(records)
    ensures Merge(records) == records
  {
    if records != [] {
      MergeIncreasing(records[..|records| - 1]);
      assert records == records[..|records| - 1] + [records[|records| - 1]];
    }
  }

  lemma {:induction false} JoinedRun(h: History, a: seq<Record>, b: seq<Record>)
    requires Run(h, a) && Run(h, b)
    requires a != [] && b != [] ==> a[|a| - 1].place < b[0].place && Empty(h, a[|a| - 1].place, b[0].place)
    ensures Run(h, a + b)
  {
    if a == [] {
      assert a + b == b;
    } else if b == [] {
      assert a + b == a;
    } else {
      forall i, j | 0 <= i < j < |a + b| ensures (a + b)[i].place < (a + b)[j].place {
        if i < |a| <= j {
          assert a[i].place <= a[|a| - 1].place < b[0].place <= b[j - |a|].place;
        }
      }
      forall p: nat | a[0].place < p < b[|b| - 1].place ensures Gone(h, p) || Holds(a + b, p) {
        HoldsEither(a, b, p);
        if p == a[|a| - 1].place { assert (a + b)[|a| - 1].place == p; }
        if p == b[0].place { assert (a + b)[|a|].place == p; }
      }
    }
  }

  lemma {:induction false} HoldsEither(a: seq<Record>, b: seq<Record>, p: nat)
    ensures Holds(a, p) || Holds(b, p) ==> Holds(a + b, p)
  {
    if Holds(a, p) { assert (a + b)[IndexOf(a, p)].place == p; }
    if Holds(b, p) { assert (a + b)[|a| + IndexOf(b, p)].place == p; }
  }

  lemma {:induction false} PageRecordOk(h: History, v: View, anchor: Option<Anchor>, page: Page, i: nat)
    requires PageFrom(h, anchor, page) && i < |page.records|
    ensures RecordOk(h, v, page.records[i])
  {}

  lemma {:induction false} ReplacementHonest(h: History, v: View, op: Operation, anchor: Option<Anchor>, page: Page)
    requires HistoryOk(h) && (op == Initial || op == Latest) && PageFrom(h, anchor, page)
    ensures Honest(h, Extension(v, op, anchor, page)) && OlderHonest(h, Extension(v, op, anchor, page))
  {
    var w := Extension(v, op, anchor, page);
    forall i | 0 <= i < |w.records| ensures RecordOk(h, w, w.records[i]) { PageRecordOk(h, w, anchor, page, i); }
  }

  lemma {:induction false} OlderStaysHonest(h: History, v: View, page: Page)
    requires Honest(h, v) && v.records != [] && PageFrom(h, AnchorFor(v, Older, None), page)
    ensures var w := Extension(v, Older, AnchorFor(v, Older, None), page);
            Honest(h, w) && OlderHonest(h, w)
  {
    var w := Extension(v, Older, AnchorFor(v, Older, None), page);
    JoinedRun(h, page.records, v.records);
    forall i | 0 <= i < |w.records| ensures RecordOk(h, w, w.records[i]) {
      if i < |page.records| { PageRecordOk(h, w, AnchorFor(v, Older, None), page, i); }
      else { assert RecordOk(h, v, v.records[i - |page.records|]); }
    }
    assert w.records[|w.records| - 1] == v.records[|v.records| - 1];
  }

  lemma {:induction false} NewerStaysHonest(h: History, v: View, page: Page)
    requires Honest(h, v) && v.records != [] && PageFrom(h, AnchorFor(v, Newer, None), page)
    ensures var w := Extension(v, Newer, AnchorFor(v, Newer, None), page);
            Honest(h, w) && (OlderHonest(h, v) ==> OlderHonest(h, w))
  {
    var w := Extension(v, Newer, AnchorFor(v, Newer, None), page);
    JoinedRun(h, v.records, page.records);
    forall i | 0 <= i < |w.records| ensures RecordOk(h, w, w.records[i]) {
      if i >= |v.records| { PageRecordOk(h, w, AnchorFor(v, Newer, None), page, i - |v.records|); }
      else { assert RecordOk(h, v, v.records[i]); }
    }
    assert w.records[0] == v.records[0];
  }

  lemma {:induction false} LatestPageHonest(h: History, page: Page, w: View)
    requires HistoryOk(h) && PageFrom(h, None, page) && w.records == page.records
    requires w.after <= h.head && (w.cursor.Some? ==> w.cursor.value.ceiling <= h.head)
    ensures Honest(h, w)
  {
    forall i | 0 <= i < |w.records| ensures RecordOk(h, w, w.records[i]) { PageRecordOk(h, w, None, page, i); }
  }

  /** From an emptied window every read brings the latest page. */
  lemma {:induction false} EmptyStaysHonest(h: History, v: View, op: Operation, page: Page)
    requires Honest(h, v) && v.records == [] && (op == Older || op == Newer) && PageFrom(h, None, page)
    ensures var w := Extension(v, op, None, page);
            w.records == page.records && Honest(h, w)
  {
    assert [] + page.records == page.records && page.records + [] == page.records;
    LatestPageHonest(h, page, Extension(v, op, None, page));
  }

  /** A latest page that does not say there is more reaches the beginning, and only such a page. */
  lemma {:induction false} LatestPageOlder(h: History, page: Page, w: View)
    requires PageFrom(h, None, page) && w.records == page.records
    ensures OlderHonest(h, w) <==> page.records == [] || w.hasOlder || !page.more
  {
    assert page.records != [] ==> (page.more <==> !Empty(h, -1, page.records[0].place));
  }

  /** Only a newer read then leaves `hasOlder` as it was. */
  lemma {:induction false} EmptyOlder(h: History, v: View, op: Operation, page: Page)
    requires v.records == [] && (op == Older || op == Newer) && PageFrom(h, None, page)
    ensures var w := Extension(v, op, None, page);
            && (op == Older ==> OlderHonest(h, w))
            && (op == Newer ==> (OlderHonest(h, w) <==> page.records == [] || v.hasOlder || !page.more))
  {
    assert [] + page.records == page.records && page.records + [] == page.records;
    LatestPageOlder(h, page, Extension(v, op, None, page));
  }

  /** What a page read leaves, before trimming, in every case. */
  lemma {:induction false} ExtensionHonest(h: History, v: View, op: Operation, start: Option<Anchor>, page: Page)
    requires Honest(h, v) && op != Changes && PageFrom(h, AnchorFor(v, op, start), page)
    ensures var w := Extension(v, op, AnchorFor(v, op, start), page);
            && Honest(h, w)
            && (op == Newer && v.records == [] ==>
                  (OlderHonest(h, w) <==> page.records == [] || v.hasOlder || !page.more))
            && (op == Newer && v.records != [] ==> (OlderHonest(h, v) ==> OlderHonest(h, w)))
            && (op != Newer ==> OlderHonest(h, w))
  {
    if op == Initial || op == Latest {
      ReplacementHonest(h, v, op, AnchorFor(v, op, start), page);
    } else if v.records == [] {
      EmptyStaysHonest(h, v, op, page);
      EmptyOlder(h, v, op, page);
    } else if op == Older {
      OlderStaysHonest(h, v, page);
    } else {
      NewerStaysHonest(h, v, page);
    }
  }

  /** The older flag can be wrong only after a newer read of an emptied window that leaves older messages out. */
  predicate Misleading(v: View, op: Operation, page: Page, b: Bounds) {
    && op == Newer && v.records == [] && !v.hasOlder && page.records != [] && page.more
    && TrimOlder(page.records, b) == page.records
  }

  /** Every page read keeps the window honest and bounded; its older edge exactly when the read is not misleading. */
  lemma {:induction false} PagesStayHonest(
    h: History, v: View, op: Operation, start: Option<Anchor>, page: Page, b: Bounds)
    requires Honest(h, v) && op != Changes && PageFrom(h, AnchorFor(v, op, start), page)
    ensures var after := ApplyPage(v, op, AnchorFor(v, op, start), page, b);
            && Honest(h, after) && Within(after.records, b)
            && (OlderHonest(h, v) ==> (OlderHonest(h, after) <==> !Misleading(v, op, page, b)))
  {
    var w := Extension(v, op, AnchorFor(v, op, start), page);
    ExtensionHonest(h, v, op, start, page);
    MergeIncreasing(w.records);
    CutHonest(h, w, op, b);
    if op == Newer && v.records == [] { assert w.records == page.records; }
  }
}
