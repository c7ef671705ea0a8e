/** What each answered read leaves on the screen, by membership (src/client/display-window.ts:121-175). */
module WindowReads {
  import opened Options
  import opened DisplayWindow

  /** Exactly the records of both parts, in display order. */
  ghost predicate Union(all: seq<Record>, a: seq<Record>, b: seq<Record>) {
    Increasing(all) && forall r :: r in all <==> r in a || r in b
  }

  /** The longest beginning within the bounds. */
  predicate KeepsOldest(all: seq<Record>, kept: seq<Record>, b: Bounds) {
    && kept <= all && Within(kept, b) && (Within(all, b) ==> kept == all)
    && (|kept| < |all| ==> !Within(all[..|kept| + 1], b))
  }

  /** The longest end within the bounds. */
  predicate KeepsNewest(all: seq<Record>, kept: seq<Record>, b: Bounds) {
    && |kept| <= |all| && kept == all[|all| - |kept|..] && Within(kept, b) && (Within(all, b) ==> kept == all)
    && (|kept| < |all| ==> !Within(all[|all| - |kept| - 1..], b))
  }

  lemma {:induction false} CutKeeps(v: View, op: Operation, b: Bounds)
    ensures var after := Cut(v, op, b);
            && after.after == v.after && after.cursor == v.cursor
            && (op == Older || op == Changes ==>
                  && KeepsOldest(v.records, after.records, b) && after.hasOlder == v.hasOlder
                  && after.hasNewer == (v.hasNewer || |after.records| < |v.records|))
            && (op != Older && op != Changes ==>
                  && KeepsNewest(v.records, after.records, b) && after.hasNewer == v.hasNewer
                  && after.hasOlder == (v.hasOlder || |after.records| < |v.records|))
  {
    var kept := Trim(v.records, op, b);
    if op == Older || op == Changes {
      assert |kept| == |v.records| ==> kept == v.records;
    } else {
      assert v.records[0..] == v.records;
    }
  }

  lemma {:induction false} JoinedIsUnion(a: seq<Record>, b: seq<Record>)
    requires Increasing(a) && Increasing(b) && (a != [] && b != [] ==> a[|a| - 1].place < b[0].place)
    ensures Union(a + b, a, b)
  {
    forall i, j | 0 <= i < j < |a + b| ensures (a + b)[i].place < (a + b)[j].place {
      if i < |a| <= j { assert a[i].place <= a[|a| - 1].place < b[0].place <= b[j - |a|].place; }
    }
  }

  lemma {:induction false} HonestIncreases(h: History, v: View)
    requires Honest(h, v)
    ensures Increasing(v.records)
  {}

  lemma {:induction false} PageIsBeside(h: History, a: Anchor, page: Page)
    requires PageFrom(h, Some(a), page) && !a.inclusive && page.records != []
    ensures if a.newer then page.records[0].place > a.place else page.records[|page.records| - 1].place < a.place
  {}

  /** An older page is in display order and ends where the window begins. */
  lemma {:induction false} OlderPagePrecedes(h: History, v: View, page: Page)
    requires Honest(h, v) && PageFrom(h, AnchorFor(v, Older, None), page)
    ensures Union(page.records + v.records, page.records, v.records)
  {
    HonestIncreases(h, v);
    PageIncreases(h, AnchorFor(v, Older, None), page);
    if v.records != [] && page.records != [] { PageIsBeside(h, Anchor(v.records[0].place, false, false), page); }
    JoinedIsUnion(page.records, v.records);
  }

  /** A newer page is in display order and begins where the window ends. */
  lemma {:induction false} NewerPageFollows(h: History, v: View, page: Page)
    requires Honest(h, v) && PageFrom(h, AnchorFor(v, Newer, None), page)
    ensures Union(v.records + page.records, v.records, page.records)
  {
    HonestIncreases(h, v);
    PageIncreases(h, AnchorFor(v, Newer, None), page);
    if v.records != [] && page.records != [] {
      PageIsBeside(h, Anchor(v.records[|v.records| - 1].place, true, false), page);
    }
    JoinedIsUnion(v.records, page.records);
  }

  /** An older read adds its page before what is shown; only what does not fit goes, at the newer end. */
  lemma {:induction false} OlderReadJoins(h: History, v: View, page: Page, b: Bounds) returns (all: seq<Record>)
    requires Honest(h, v) && PageFrom(h, AnchorFor(v, Older, None), page)
    ensures Union(all, page.records, v.records)
    ensures var after := ApplyPage(v, Older, AnchorFor(v, Older, None), page, b);
            && KeepsOldest(all, after.records, b)
            && after.hasOlder == page.more && after.hasNewer == (v.hasNewer || |after.records| < |all|)
            && after.after == v.after && after.cursor == v.cursor
  {
    all := page.records + v.records;
    OlderPagePrecedes(h, v, page);
    MergeIncreasing(all);
    CutKeeps(Extension(v, Older, AnchorFor(v, Older, None), page), Older, b);
  }

  /** A newer read adds its page behind what is shown; only what does not fit goes, at the older end. */
  lemma {:induction false} NewerReadJoins(h: History, v: View, page: Page, b: Bounds) returns (all: seq<Record>)
    requires Honest(h, v) && PageFrom(h, AnchorFor(v, Newer, None), page)
    ensures Union(all, v.records, page.records)
    ensures var after := ApplyPage(v, Newer, AnchorFor(v, Newer, None), page, b);
            && KeepsNewest(all, after.records, b)
            && after.hasNewer == page.more && after.hasOlder == (v.hasOlder || |after.records| < |all|)
            && after.after == v.after && after.cursor == v.cursor
  {
    all := v.records + page.records;
    NewerPageFollows(h, v, page);
    MergeIncreasing(all);
    CutKeeps(Extension(v, Newer, AnchorFor(v, Newer, None), page), Newer, b);
  }

  /** The page is shown alone, with the flags of its anchor. */
  ghost predicate ShownAlone(page: Page, anchor: Option<Anchor>, after: View, b: Bounds) {
    var cut := |after.records| < |page.records|;
    && KeepsNewest(page.records, after.records, b) && after.after == page.revision && after.cursor == None
    && (anchor.None? ==> !after.hasNewer && after.hasOlder == (page.more || cut))
    && (anchor.Some? ==>
          && after.hasOlder == (anchor.value.newer || page.more || cut)
          && after.hasNewer == (!anchor.value.newer || page.more))
  }

  /** An initial read asks at the saved anchor and a latest one without any; they show the page alone. */
  lemma {:induction false} ReplacementShows(
    h: History, v: View, op: Operation, start: Option<Anchor>, page: Page, b: Bounds)
    requires (op == Initial || op == Latest) && PageFrom(h, AnchorFor(v, op, start), page)
    ensures AnchorFor(v, op, start) == if op == Initial then start else None
    ensures ShownAlone(page, AnchorFor(v, op, start), ApplyPage(v, op, AnchorFor(v, op, start), page, b), b)
  {
    PageIncreases(h, AnchorFor(v, op, start), page);
    ReplacementIsShown(v, op, AnchorFor(v, op, start), page, b);
  }

  lemma {:induction false} ReplacementIsShown(v: View, op: Operation, anchor: Option<Anchor>, page: Page, b: Bounds)
    requires (op == Initial || op == Latest) && Increasing(page.records)
    ensures ShownAlone(page, anchor, ApplyPage(v, op, anchor, page, b), b)
  {
    MergeIncreasing(page.records);
    Replacement(v, op, anchor, page);
    CutKeeps(Extension(v, op, anchor, page), op, b);
  }

  lemma {:induction false} PageIncreases(h: History, anchor: Option<Anchor>, page: Page)
    requires PageFrom(h, anchor, page)
    ensures Increasing(page.records)
  {}

  lemma {:induction false} Replacement(v: View, op: Operation, anchor: Option<Anchor>, page: Page)
    requires op == Initial || op == Latest
    ensures Extension(v, op, anchor, page) ==
            View(page.records, (anchor.Some? && anchor.value.newer) || page.more,
                 anchor.Some? && (!anchor.value.newer || page.more), page.revision, None)
  {}

  /** The feed has a newer form of the record. */
  predicate Supersedes(f: Record, q: Record) { f.place == q.place && f.revision >= q.revision }

  /** What a feed page makes of the shown records: the changed ones in their new form, without the deleted ones. */
  predicate BroughtUpToDate(was: seq<Record>, feed: seq<Record>, now: seq<Record>) {
    && Increasing(now)
    && (forall r :: r in now ==> !r.deleted && exists q :: q in was && (r == q || (r in feed && Supersedes(r, q))))
    && (forall q :: q in was && (forall f :: f in feed ==> !Supersedes(f, q)) ==> q in now)
    && (forall q, f {:trigger Supersedes(f, q)} :: q in was && f in feed && Supersedes(f, q) ==>
          (f in now <==> !f.deleted) && (q in now ==> q == f))
  }

  lemma {:induction false} FeedNamesOne(h: History, feed: seq<Record>, f: Record, q: Record)
    requires forall i :: 0 <= i < |feed| ==> Current(h, feed[i])
    requires f in feed && Supersedes(f, q)
    ensures Updated(q, feed) == f
  {
    var i := IndexOf(feed, q.place);
    var j :| 0 <= j < |feed| && feed[j] == f;
    assert Current(h, feed[i]) && Current(h, feed[j]);
  }

  lemma {:induction false} NoneSupersedes(feed: seq<Record>, q: Record)
    requires forall f :: f in feed ==> !Supersedes(f, q)
    ensures Updated(q, feed) == q
  {
    var i := IndexOf(feed, q.place);
    if i < |feed| { assert feed[i] in feed; }
  }

  lemma {:induction false} SamePlaceSame(records: seq<Record>, a: Record, b: Record)
    requires Increasing(records) && a in records && b in records && a.place == b.place
    ensures a == b
  {}

  lemma {:induction false} RefreshedIsUpToDate(h: History, v: View, feed: Feed)
    requires Honest(h, v) && FeedFrom(h, v.after, v.cursor, feed)
    ensures BroughtUpToDate(v.records, feed.records, Refreshed(v.records, feed.records))
  {
    var was, fs, now := v.records, feed.records, Refreshed(v.records, feed.records);
    RefreshedSpec(was, fs);
    forall r | r in now ensures !r.deleted && exists q :: q in was && (r == q || (r in fs && Supersedes(r, q))) {
      var q :| q in was && r == Updated(q, fs);
      var i := IndexOf(fs, q.place);
      if i < |fs| { assert fs[i] in fs; }
      assert r == q || (r in fs && Supersedes(r, q));
    }
    forall q | q in was && (forall f :: f in fs ==> !Supersedes(f, q)) ensures q in now {
      NoneSupersedes(fs, q);
      var i :| 0 <= i < |was| && was[i] == q;
      assert RecordOk(h, v, was[i]);
    }
    forall q, f | q in was && f in fs && Supersedes(f, q)
      ensures (f in now <==> !f.deleted) && (q in now ==> q == f)
    {
      FeedNamesOne(h, fs, f, q);
      if q in now && !f.deleted { SamePlaceSame(now, q, f); }
      if q in now && f.deleted { StillThere(h, was, fs, now, q, f); }
    }
  }

  lemma {:induction false} StillThere(
    h: History, was: seq<Record>, feed: seq<Record>, now: seq<Record>, q: Record, f: Record)
    requires Increasing(was) && now == Refreshed(was, feed) && q in was && q in now && f in feed && Supersedes(f, q)
    requires forall i :: 0 <= i < |feed| ==> Current(h, feed[i])
    ensures q == f
  {
    RefreshedSpec(was, feed);
    FeedNamesOne(h, feed, f, q);
    var p :| p in was && q == Updated(p, feed);
    SamePlaceSame(was, p, q);
  }

  /** A feed page changes exactly what it names, takes nothing else off the screen, and moves on in the feed. */
  lemma {:induction false} ChangesKeep(h: History, v: View, feed: Feed, b: Bounds) returns (all: seq<Record>)
    requires Honest(h, v) && FeedFrom(h, v.after, v.cursor, feed)
    ensures var after := ApplyChanges(v, feed, b);
            && BroughtUpToDate(v.records, feed.records, all) && KeepsOldest(all, after.records, b)
            && after.hasOlder == v.hasOlder
            && after.hasNewer == (|| v.hasNewer || |after.records| < |all|
                                  || exists f :: f in feed.records && !f.deleted && !Holds(v.records, f.place))
            && after.cursor == feed.next && after.after == if feed.next.None? then feed.through else v.after
  {
    all := Refreshed(v.records, feed.records);
    RefreshedIsUpToDate(h, v, feed);
    CutKeeps(Consumption(v, feed), Changes, b);
    OutsideIsNotShown(v.records, feed.records);
  }

  lemma {:induction false} OutsideIsNotShown(records: seq<Record>, feed: seq<Record>)
    ensures Outside(records, feed) <==> exists f :: f in feed && !f.deleted && !Holds(records, f.place)
  {
    if f :| f in feed && !f.deleted && !Holds(records, f.place) {
      var i :| 0 <= i < |feed| && feed[i] == f;
      assert IndexOf(records, feed[i].place) == |records|;
    }
    if Outside(records, feed) {
      var i :| 0 <= i < |feed| && !feed[i].deleted && IndexOf(records, feed[i].place) == |records|;
      assert feed[i] in feed && !Holds(records, feed[i].place);
    }
  }
}
