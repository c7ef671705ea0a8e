/**
 The frame loop of one observation (src/runtime.ts:763-790), in the source's own form:
 an object whose fields `acceptFrame` and `draftsForNonterminalFrame` update.  Its methods
 compute the functions of `Projection`, and batching its input changes nothing it persists.
 */
module Observer {
  import opened Options
  import opened Projection
  import opened ProjectionInvariant
  import opened StreamBatches

  /** What the transport hands over: the frame with sequence `k`, or something that does not parse. */
  datatype Raw = Good(k: nat, frame: Frame) | Bad

  // ---------------------------------------------------------------- one batch

  datatype Fed = Fed(o: Observation, identified: bool, failed: bool)

  function FeedOne(s: Fed, keys: set<nat>, raw: Raw, minted: nat): Fed {
    if s.failed || raw.Bad? then s.(failed := true)
    else
      var d := Judge(s.o, s.identified, keys, raw.k, raw.frame);
      var next := Advance(s.o, d, raw.k, raw.frame);
      match d
      case Rejected => s.(failed := true)
      case Duplicate => s.(o := next)
      case Accepted => s.(identified := true, o := Draft(next, raw.k, raw.frame, minted))
  }

  /** All frames of a batch; after the first bad one nothing more is read. */
  function Feed(s: Fed, keys: set<nat>, raws: seq<Raw>, minted: nat): Fed {
    if raws == [] then s
    else FeedOne(Feed(s, keys, raws[..|raws| - 1], minted), keys, raws[|raws| - 1], minted)
  }

  class FrameState {
    var expected: nat
    var live: set<nat>
    var unsafe: bool
    var message: Option<nat>
    var pending: seq<(nat, nat)>
    var last: bool
    var drafts: Log
    var mark: Option<nat>
    var identified: bool

    function Value(): Observation
      reads this
    {
      Observation(expected, live, unsafe, message, pending, last, drafts, mark, false, false, 0)
    }

    constructor (log: Log, r: Runtime)
      requires Placed(log, r) && -1 <= r.safe
      ensures Value() == Begin(log, r) && identified == r.identified
    {
      expected, live, unsafe, last := r.safe + 1, {}, false, false;
      message, pending, drafts, mark := TextId(log[..r.view]), [], [], None;
      identified := r.identified;
    }

    method AcceptFrame(keys: set<nat>, k: nat, f: Frame) returns (d: Disposition)
      modifies this
      ensures d == Judge(old(Value()), old(identified), keys, k, f)
      ensures Value() == Advance(old(Value()), d, k, f)
      ensures identified == (old(identified) || d.Accepted?)
    {
      var known := k in keys || k in live;
      if k < expected {
        if !known { return Rejected; }
        return Duplicate;
      }
      if k != expected || last { return Rejected; }
      if known {
        live := live + {k};
        expected := expected + 1;
        return Duplicate;
      }
      if !identified && (!f.Started? || k != 0) { return Rejected; }
      if f.Started? && k != 0 { return Rejected; }
      identified := true;
      live := live + {k};
      expected := expected + 1;
      last := f.Done?;
      return Accepted;
    }

    method DraftFrame(k: nat, f: Frame, minted: nat)
      modifies this
      ensures Value() == Draft(old(Value()), k, f, minted) && identified == old(identified)
    {
      match f {
        case Started =>
          drafts := drafts + [Effect(k, !unsafe, Running)];
          if !unsafe { mark := Some(k); }
        case ToolCall(c) =>
          drafts := drafts + [Effect(k, !unsafe, Requested(c))];
          if !unsafe { mark := Some(k); }
        case Text(delta) =>
          if delta != "" {
            if message.None? { message := Some(minted); }
            drafts := drafts
                + ([Effect(k, !unsafe, Appended(message.value, delta))] + LinksFor(message.value, pending));
            pending := [];
            if !unsafe { mark := Some(k); }
          }
        case Citations(b) =>
          if message.None? {
            pending := pending + [(k, b)];
          } else {
            drafts := drafts + [Effect(k, !unsafe, Linked(message.value, b))];
            if !unsafe { mark := Some(k); }
          }
        case Usage => unsafe := true;
        case Done(outcome) => if !outcome.Completed? { pending := []; }
      }
    }

    /** The inner loop of the observation: the whole batch, or its valid prefix. */
    method ReadBatch(batch: seq<Raw>, keys: set<nat>, minted: nat) returns (failed: bool)
      modifies this
      ensures Fed(Value(), identified, failed) ==
              Feed(Fed(old(Value()), old(identified), false), keys, batch, minted)
    {
      failed := false;
      ghost var start := Fed(Value(), identified, false);
      for i := 0 to |batch|
        invariant Fed(Value(), identified, failed) == Feed(start, keys, batch[..i], minted)
      {
        assert batch[..i + 1][..i] == batch[..i];
        if !failed {
          match batch[i] {
            case Bad => failed := true;
            case Good(k, f) =>
              var d := AcceptFrame(keys, k, f);
              if d.Rejected? {
                failed := true;
              } else if d.Accepted? {
                DraftFrame(k, f, minted);
              }
          }
        }
      }
      assert batch[..|batch|] == batch;
    }

    /** What the `finally` of the batch does for an up-to-date runtime (src/runtime.ts:778-784). */
    method PersistBatch(log: Log, failed: bool) returns (all: Log)
      requires Coherent(Pass(log, Fed(Value(), identified, failed)))
      modifies this`drafts, this`mark, this`message
      ensures Pass(all, Fed(Value(), identified, failed)) == Persist(Pass(log, Fed(old(Value()), identified, failed)))
    {
      all := log;
      PersistCoherent(Pass(log, Fed(Value(), identified, failed)));
      if drafts != [] {
        all := log + Outgoing(Keys(log), TextId(log), drafts);
        if TextId(all).Some? { message := TextId(all); }
      }
      drafts, mark := [], None;
    }
  }

  // ---------------------------------------------------------------- batching is transparent

  datatype Pass = Pass(log: Log, fed: Fed)

  /** Persisting the batch of an up-to-date runtime (src/runtime.ts:778-784). */
  function Persist(p: Pass): Pass {
    var log := p.log + Outgoing(Keys(p.log), TextId(p.log), p.fed.o.drafts);
    var id := TextId(log);
    Pass(log, p.fed.(o := p.fed.o.(drafts := [], mark := None,
                                   message := if id.Some? then id else p.fed.o.message)))
  }

  /** The log written from the batches, up to the first bad frame. */
  function Project(p: Pass, batches: seq<seq<Raw>>, minted: nat): Pass {
    if batches == [] then p
    else
      var q := Project(p, batches[..|batches| - 1], minted);
      if q.fed.failed then q
      else Persist(q.(fed := Feed(q.fed, Keys(q.log), batches[|batches| - 1], minted)))
  }

  function Singles(raws: seq<Raw>): seq<seq<Raw>> { seq(|raws|, i requires 0 <= i < |raws| => [raws[i]]) }

  /** A pass between frames: nothing drafted is durable yet, and all of it speaks of the log's message. */
  predicate Coherent(p: Pass) {
    var o := p.fed.o;
    && Keys(o.drafts) !! Keys(p.log)
    && (forall i :: 0 <= i < |o.drafts| ==> o.drafts[i].Effect? && o.drafts[i].sequence in o.live)
    && (forall i :: 0 <= i < |o.pending| ==>
          o.pending[i].0 in o.live && o.pending[i].0 !in Keys(p.log) + Keys(o.drafts))
    && (forall k :: k in o.live ==> k < o.expected)
    && TextId(p.log + o.drafts) == o.message
    && (forall i :: 0 <= i < |o.drafts| && Carries(o.drafts[i]) ==> Some(o.drafts[i].payload.message) == o.message)
  }

  lemma {:induction false} OutgoingAll(keys: set<nat>, id: Option<nat>, message: Option<nat>, drafts: Log)
    requires Keys(drafts) !! keys && (id.Some? ==> id == message)
    requires forall i :: 0 <= i < |drafts| ==> drafts[i].Effect?
    requires forall i :: 0 <= i < |drafts| && Carries(drafts[i]) ==> Some(drafts[i].payload.message) == message
    ensures Outgoing(keys, id, drafts) == drafts
  {
    if drafts != [] {
      var init := drafts[..|drafts| - 1];
      OutgoingAll(keys, id, message, init);
      assert drafts == init + [drafts[|drafts| - 1]];
    }
  }

  /** A coherent pass persists its drafts as they are. */
  lemma {:induction false} PersistCoherent(p: Pass)
    requires Coherent(p)
    ensures Persist(p) == Pass(p.log + p.fed.o.drafts, p.fed.(o := p.fed.o.(drafts := [], mark := None)))
    ensures Coherent(Persist(p))
  {
    var o := p.fed.o;
    TextIdGrows(p.log, o.drafts);
    OutgoingAll(Keys(p.log), TextId(p.log), o.message, o.drafts);
    assert p.log + o.drafts + [] == p.log + o.drafts;
    KeysSplit(p.log, o.drafts);
  }

  lemma {:induction false} KeysOfEffects(drafts: Log, live: set<nat>)
    requires forall i :: 0 <= i < |drafts| ==> drafts[i].Effect? && drafts[i].sequence in live
    ensures Keys(drafts) <= live
  {
    if drafts != [] {
      KeysOfEffects(drafts[..|drafts| - 1], live);
    }
  }

  lemma {:induction false} LinksKeys(m: nat, pending: seq<(nat, nat)>)
    ensures forall k :: k in Keys(LinksFor(m, pending)) ==> exists i :: 0 <= i < |pending| && pending[i].0 == k
    ensures TextId(LinksFor(m, pending)).None?
  {
    if pending != [] {
      var init := pending[..|pending| - 1];
      LinksKeys(m, init);
      assert LinksFor(m, pending)[..|pending| - 1] == LinksFor(m, init);
      assert forall i :: 0 <= i < |init| ==> init[i] == pending[i];
    }
  }

  lemma {:induction false} TextIdSplit(a: Log, b: Log)
    ensures TextId(a + b) == if TextId(a).Some? then TextId(a) else TextId(b)
    decreases |b|
  {
    TextIdGrows(a, b);
    if b == [] {
      assert a + b == a;
    } else {
      TextIdSplit(a, b[..|b| - 1]);
      assert (a + b)[..|a + b| - 1] == a + b[..|b| - 1];
    }
  }

  lemma {:induction false} AddedOk(o: Observation, k: nat, f: Frame, minted: nat)
    ensures var added := Added(o, k, f, minted);
            var message := MessageAfter(o, f, minted);
            && (forall x :: x in Keys(added) ==> x == k || exists i :: 0 <= i < |o.pending| && o.pending[i].0 == x)
            && (forall i :: 0 <= i < |added| ==> added[i].Effect?)
            && (forall i :: 0 <= i < |added| ==>
                  added[i].sequence == k || exists j :: 0 <= j < |o.pending| && o.pending[j].0 == added[i].sequence)
            && (forall i :: 0 <= i < |added| && Carries(added[i]) ==> Some(added[i].payload.message) == message)
            && TextId(added) == (if f.Text? && f.delta != "" then message else None)
  {
    if f.Text? && f.delta != "" {
      var m := if o.message.Some? then o.message.value else minted;
      LinksKeys(m, o.pending);
      var e := Effect(k, !o.unsafe, Appended(m, f.delta));
      KeysSplit([e], LinksFor(m, o.pending));
      TextIdSplit([e], LinksFor(m, o.pending));
    }
  }

  predicate AddedFits(p: Pass, o': Observation, added: Log) {
    var o := p.fed.o;
    && (forall x :: x in Keys(added) ==> x == o.expected || exists i :: 0 <= i < |o.pending| && o.pending[i].0 == x)
    && (forall i :: 0 <= i < |added| ==> added[i].Effect? && added[i].sequence in o'.live)
    && (forall i :: 0 <= i < |added| && Carries(added[i]) ==> Some(added[i].payload.message) == o'.message)
  }

  lemma {:induction false} GrowKeys(p: Pass, o': Observation, added: Log)
    requires Coherent(p) && p.fed.o.expected !in Keys(p.log) && AddedFits(p, o', added)
    ensures Keys(p.fed.o.drafts + added) == Keys(p.fed.o.drafts) + Keys(added)
    ensures Keys(p.fed.o.drafts + added) !! Keys(p.log)
  {
    KeysSplit(p.fed.o.drafts, added);
  }

  lemma {:induction false} GrowMembers(o: Observation, o': Observation, added: Log, p: Pass)
    requires Coherent(p) && p.fed.o == o && AddedFits(p, o', added)
    requires o'.live == o.live + {o.expected} && o'.drafts == o.drafts + added
    requires o.message.Some? ==> o'.message == o.message
    ensures forall i :: 0 <= i < |o'.drafts| ==> o'.drafts[i].Effect? && o'.drafts[i].sequence in o'.live
    ensures forall i :: 0 <= i < |o'.drafts| && Carries(o'.drafts[i]) ==>
              Some(o'.drafts[i].payload.message) == o'.message
  {
    forall i | 0 <= i < |o'.drafts|
      ensures o'.drafts[i].Effect? && o'.drafts[i].sequence in o'.live
      ensures Carries(o'.drafts[i]) ==> Some(o'.drafts[i].payload.message) == o'.message
    {
      if i >= |o.drafts| {
        assert o'.drafts[i] == added[i - |o.drafts|];
      }
    }
  }

  lemma {:induction false} GrowTextId(log: Log, drafts: Log, added: Log, all: Log)
    requires all == drafts + added
    ensures TextId(log + all) == if TextId(log + drafts).Some? then TextId(log + drafts) else TextId(added)
  {
    assert log + all == (log + drafts) + added;
    TextIdSplit(log + drafts, added);
  }

  /** Adding such drafts to a coherent pass keeps it coherent. */
  lemma {:induction false} GrowCoherent(p: Pass, o': Observation, added: Log)
    requires Coherent(p) && p.fed.o.expected !in Keys(p.log) && AddedFits(p, o', added)
    requires o'.expected == p.fed.o.expected + 1 && o'.live == p.fed.o.live + {p.fed.o.expected}
    requires o'.drafts == p.fed.o.drafts + added
    requires p.fed.o.message.Some? ==> o'.message == p.fed.o.message
    requires p.fed.o.message.None? ==> TextId(added) == o'.message
    requires forall i :: 0 <= i < |o'.pending| ==>
               o'.pending[i].0 in o'.live && o'.pending[i].0 !in Keys(p.log) + Keys(p.fed.o.drafts) + Keys(added)
    ensures Coherent(p.(fed := Fed(o', true, false)))
  {
    GrowKeys(p, o', added);
    GrowMembers(p.fed.o, o', added, p);
    GrowTextId(p.log, p.fed.o.drafts, added, o'.drafts);
  }

  /** Accepting a frame keeps a pass coherent. */
  lemma {:induction false} AcceptCoherent(p: Pass, k: nat, f: Frame, minted: nat)
    requires Coherent(p) && k == p.fed.o.expected && k !in Keys(p.log)
    ensures Coherent(p.(fed := Fed(Draft(Advance(p.fed.o, Accepted, k, f), k, f, minted), true, false)))
  {
    var o' := Draft(Advance(p.fed.o, Accepted, k, f), k, f, minted);
    AdvanceThenDraft(p.fed.o, k, f, minted);
    AddedOk(p.fed.o, k, f, minted);
    KeysOfEffects(p.fed.o.drafts, p.fed.o.live);
    GrowCoherent(p, o', Added(p.fed.o, k, f, minted));
  }

  /** Judging a frame does not look at the drafts, nor at which of the two memories knows the frame. */
  lemma {:induction false} SameVerdict(
    o: Observation, identified: bool, known: set<nat>, keys: set<nat>, k: nat, f: Frame)
    requires k in known || k in o.live <==> k in keys || k in o.live
    ensures Judge(o, identified, known, k, f) == Judge(o.(drafts := [], mark := None), identified, keys, k, f)
  {}

  lemma {:induction false} SameDraft(o: Observation, k: nat, f: Frame, minted: nat)
    ensures var a, b := Draft(o, k, f, minted), Draft(o.(drafts := [], mark := None), k, f, minted);
            a == b.(drafts := o.drafts + b.drafts, mark := a.mark)
  {
    assert [] + Added(o, k, f, minted) == Added(o, k, f, minted);
    assert Added(o.(drafts := [], mark := None), k, f, minted) == Added(o, k, f, minted);
  }

  /** The frame's effect on the fields other than the drafts does not depend on the drafts. */
  lemma {:induction false} SameFields(p: Pass, keys: set<nat>, raw: Raw, minted: nat)
    requires raw.Good? && !p.fed.failed
    requires forall k :: k in Keys(p.log) || k in p.fed.o.live <==> k in keys || k in p.fed.o.live
    ensures var a := FeedOne(p.fed, Keys(p.log), raw, minted);
            var b := FeedOne(p.fed.(o := p.fed.o.(drafts := [], mark := None)), keys, raw, minted);
            && a.identified == b.identified && a.failed == b.failed
            && a.o == b.o.(drafts := p.fed.o.drafts + b.o.drafts, mark := a.o.mark)
  {
    var o, d := p.fed.o, Judge(p.fed.o, p.fed.identified, Keys(p.log), raw.k, raw.frame);
    SameVerdict(o, p.fed.identified, Keys(p.log), keys, raw.k, raw.frame);
    var next := Advance(o, d, raw.k, raw.frame);
    assert Advance(o.(drafts := [], mark := None), d, raw.k, raw.frame) == next.(drafts := [], mark := None);
    if d.Accepted? { SameDraft(next, raw.k, raw.frame, minted); }
    assert o.drafts + [] == o.drafts;
  }

  lemma {:induction false} FeedOneCoherent(p: Pass, raw: Raw, minted: nat)
    requires Coherent(p)
    ensures Coherent(p.(fed := FeedOne(p.fed, Keys(p.log), raw, minted)))
  {
    if raw.Good? && !p.fed.failed && Judge(p.fed.o, p.fed.identified, Keys(p.log), raw.k, raw.frame).Accepted? {
      AcceptCoherent(p, raw.k, raw.frame, minted);
    }
  }

  lemma {:induction false} PersistEqual(p: Pass, q: Pass, a: Fed, b: Fed)
    requires Coherent(p.(fed := a)) && Coherent(q.(fed := b)) && q.log == p.log + p.fed.o.drafts
    requires a.identified == b.identified && a.failed == b.failed
    requires a.o == b.o.(drafts := p.fed.o.drafts + b.o.drafts, mark := a.o.mark)
    ensures Persist(p.(fed := a)) == Persist(q.(fed := b))
  {
    PersistCoherent(p.(fed := a));
    PersistCoherent(q.(fed := b));
    assert p.log + a.o.drafts == q.log + b.o.drafts;
  }

  /** Persisting before a frame or after it comes to the same log. */
  lemma {:induction false} PersistCommutes(p: Pass, raw: Raw, minted: nat)
    requires Coherent(p)
    ensures var q := Persist(p);
            Persist(p.(fed := FeedOne(p.fed, Keys(p.log), raw, minted))) ==
            Persist(q.(fed := FeedOne(q.fed, Keys(q.log), raw, minted)))
  {
    var q := Persist(p);
    PersistCoherent(p);
    if raw.Good? && !p.fed.failed {
      FeedOneCoherent(p, raw, minted);
      FeedOneCoherent(q, raw, minted);
      KeysSplit(p.log, p.fed.o.drafts);
      KeysOfEffects(p.fed.o.drafts, p.fed.o.live);
      SameFields(p, Keys(q.log), raw, minted);
      PersistEqual(p, q, FeedOne(p.fed, Keys(p.log), raw, minted), FeedOne(q.fed, Keys(q.log), raw, minted));
    } else {
      StopCommutes(p);
    }
  }

  lemma {:induction false} StopCommutes(p: Pass)
    requires Coherent(p)
    ensures var q := Persist(p);
            Persist(p.(fed := p.fed.(failed := true))) == Persist(q.(fed := q.fed.(failed := true)))
  {
    var q := Persist(p);
    PersistCoherent(p);
    PersistCoherent(p.(fed := p.fed.(failed := true)));
    PersistCoherent(q.(fed := q.fed.(failed := true)));
    assert q.log + [] == q.log;
  }

  lemma {:induction false} FeedCoherent(p: Pass, raws: seq<Raw>, minted: nat)
    requires Coherent(p)
    ensures Coherent(p.(fed := Feed(p.fed, Keys(p.log), raws, minted)))
  {
    if raws != [] {
      FeedCoherent(p, raws[..|raws| - 1], minted);
      FeedOneCoherent(p.(fed := Feed(p.fed, Keys(p.log), raws[..|raws| - 1], minted)), raws[|raws| - 1], minted);
    }
  }

  /** One batch or its frames one by one. */
  lemma {:induction false} BatchIsSingles(p: Pass, batch: seq<Raw>, minted: nat)
    requires Coherent(p) && p.fed.o.drafts == [] && p.fed.o.mark == None && !p.fed.failed
    ensures Persist(p.(fed := Feed(p.fed, Keys(p.log), batch, minted))) == Project(p, Singles(batch), minted)
    ensures Coherent(Project(p, Singles(batch), minted))
  {
    FeedCoherent(p, batch, minted);
    PersistCoherent(p.(fed := Feed(p.fed, Keys(p.log), batch, minted)));
    if batch == [] {
      assert p.log + [] == p.log;
    } else {
      var init, x := batch[..|batch| - 1], batch[|batch| - 1];
      var before := p.(fed := Feed(p.fed, Keys(p.log), init, minted));
      BatchIsSingles(p, init, minted);
      FeedCoherent(p, init, minted);
      PersistCommutes(before, x, minted);
      assert Singles(batch)[..|batch| - 1] == Singles(init);
      var q := Project(p, Singles(init), minted);
      assert q == Persist(before);
      FeedSingle(q.fed, Keys(q.log), x, minted);
      if q.fed.failed {
        PersistTwice(before);
      }
    }
  }

  lemma {:induction false} FeedSingle(s: Fed, keys: set<nat>, x: Raw, minted: nat)
    ensures Feed(s, keys, [x], minted) == FeedOne(s, keys, x, minted)
  {
    assert [x][..0] == [];
  }

  lemma {:induction false} PersistTwice(p: Pass)
    requires Coherent(p)
    ensures Persist(Persist(p)) == Persist(p)
  {
    PersistCoherent(p);
    PersistCoherent(Persist(p));
    assert p.log + p.fed.o.drafts + [] == p.log + p.fed.o.drafts;
  }

  lemma {:induction false} ProjectSplit(p: Pass, a: seq<seq<Raw>>, b: seq<seq<Raw>>, minted: nat)
    ensures Project(p, a + b, minted) == Project(Project(p, a, minted), b, minted)
    decreases |b|
  {
    if b == [] {
      assert a + b == a;
    } else {
      ProjectSplit(p, a, b[..|b| - 1], minted);
      assert (a + b)[..|a + b| - 1] == a + b[..|b| - 1];
    }
  }

  lemma {:induction false} StoppedStays(p: Pass, batches: seq<seq<Raw>>, minted: nat)
    requires p.fed.failed
    ensures Project(p, batches, minted) == p
  {
    if batches != [] {
      StoppedStays(p, batches[..|batches| - 1], minted);
    }
  }

  lemma {:induction false} SinglesSplit(a: seq<Raw>, b: seq<Raw>)
    ensures Singles(a + b) == Singles(a) + Singles(b)
  {}

  /** One batch of a pass that may have stopped. */
  lemma {:induction false} BatchOrStop(q: Pass, batch: seq<Raw>, minted: nat)
    requires Coherent(q) && q.fed.o.drafts == [] && q.fed.o.mark == None
    ensures var next := if q.fed.failed then q else Persist(q.(fed := Feed(q.fed, Keys(q.log), batch, minted)));
            && next == Project(q, Singles(batch), minted)
            && Coherent(next) && next.fed.o.drafts == [] && next.fed.o.mark == None
  {
    if q.fed.failed {
      StoppedStays(q, Singles(batch), minted);
    } else {
      BatchIsSingles(q, batch, minted);
    }
  }

  /** Batching is transparent: however the frames are batched, the same events are persisted, in the same order. */
  lemma {:induction false} BatchingIsTransparent(p: Pass, batches: seq<seq<Raw>>, minted: nat)
    requires Coherent(p) && p.fed.o.drafts == [] && p.fed.o.mark == None
    ensures Project(p, batches, minted) == Project(p, Singles(Flatten(batches)), minted)
    ensures var q := Project(p, batches, minted); Coherent(q) && q.fed.o.drafts == [] && q.fed.o.mark == None
  {
    if batches != [] {
      var init, batch := batches[..|batches| - 1], batches[|batches| - 1];
      BatchingIsTransparent(p, init, minted);
      var q := Project(p, init, minted);
      SinglesSplit(Flatten(init), batch);
      ProjectSplit(p, Singles(Flatten(init)), Singles(batch), minted);
      BatchOrStop(q, batch, minted);
    }
  }

  /** A fresh observation of an up-to-date runtime starts coherent. */
  lemma {:induction false} FreshIsCoherent(log: Log, r: Runtime)
    requires r.view == r.known == |log| && -1 <= r.safe
    ensures Coherent(Pass(log, Fed(Begin(log, r), r.identified, false)))
  {
    assert log[..r.view] == log;
    assert log + [] == log;
  }

  /** A source that ends in an error fails the observation once its frames are read. */
  function Broken(p: Pass, errs: bool): Pass { if errs then p.(fed := p.fed.(failed := true)) else p }

  /** Once a batch fails, the later ones are not read. */
  lemma {:induction false} StopsThere(p: Pass, batches: seq<seq<Raw>>, i: nat, minted: nat)
    requires i <= |batches| && (i == |batches| || Project(p, batches[..i], minted).fed.failed)
    ensures Project(p, batches, minted) == Project(p, batches[..i], minted)
  {
    assert batches[..i] + batches[i..] == batches;
    if i == |batches| {
      assert batches[..i] == batches;
    } else {
      ProjectSplit(p, batches[..i], batches[i..], minted);
      StoppedStays(Project(p, batches[..i], minted), batches[i..], minted);
    }
  }

  lemma {:induction false} ProjectOne(p: Pass, batches: seq<seq<Raw>>, i: nat, minted: nat)
    requires i < |batches| && !Project(p, batches[..i], minted).fed.failed
    ensures Project(p, batches[..i + 1], minted) == Taken(Project(p, batches[..i], minted), batches[i], minted)
  {
    assert batches[..i + 1][..i] == batches[..i];
  }

  /** One batch read and persisted. */
  function Taken(p: Pass, batch: seq<Raw>, minted: nat): Pass {
    Persist(p.(fed := Feed(p.fed, Keys(p.log), batch, minted)))
  }

  method TakeBatch(state: FrameState, batch: seq<Raw>, log: Log, minted: nat) returns (written: Log, failed: bool)
    requires Coherent(Pass(log, Fed(state.Value(), state.identified, false)))
    modifies state
    ensures Pass(written, Fed(state.Value(), state.identified, failed)) ==
            Taken(Pass(log, Fed(old(state.Value()), old(state.identified), false)), batch, minted)
  {
    FeedCoherent(Pass(log, Fed(state.Value(), state.identified, false)), batch, minted);
    failed := state.ReadBatch(batch, Keys(log), minted);
    written := state.PersistBatch(log, failed);
  }

  /** The observation's loop over the batches: each is read and persisted until one fails. */
  method ReadBatches(state: FrameState, batches: seq<seq<Raw>>, log: Log, minted: nat)
    returns (written: Log, failed: bool)
    requires Coherent(Pass(log, Fed(state.Value(), state.identified, false)))
    requires state.drafts == [] && state.mark == None
    modifies state
    ensures Pass(written, Fed(state.Value(), state.identified, failed)) ==
            Project(Pass(log, Fed(old(state.Value()), old(state.identified), false)), batches, minted)
  {
    ghost var start := Pass(log, Fed(state.Value(), state.identified, false));
    written, failed := log, false;
    var i := 0;
    while i < |batches| && !failed
      invariant 0 <= i <= |batches|
      invariant Pass(written, Fed(state.Value(), state.identified, failed)) == Project(start, batches[..i], minted)
    {
      BatchingIsTransparent(start, batches[..i], minted);
      ProjectOne(start, batches, i, minted);
      written, failed := TakeBatch(state, batches[i], written, minted);
      i := i + 1;
    }
    StopsThere(start, batches, i, minted);
  }

  /**
   * With batching on or off, whatever the timers do and however the source ends, the object ends as
   * frame-by-frame reading does: with the same log, the same state and the same failure.
   */
  method ProjectSource(
    source: seq<Raw>, errs: bool, log: Log, r: Runtime, batchable: Raw -> bool, maximum: nat, minted: nat)
    returns (state: FrameState, batches: seq<seq<Raw>>, written: Log, failed: bool)
    requires r.view == r.known == |log| && -1 <= r.safe
    ensures forall i :: 0 <= i < |batches| ==> IsBatch(batches[i], batchable, maximum)
    ensures var start := Pass(log, Fed(Begin(log, r), r.identified, false));
            Pass(written, Fed(state.Value(), state.identified, failed)) ==
            Broken(Project(start, Singles(source), minted), errs)
  {
    ghost var start := Pass(log, Fed(Begin(log, r), r.identified, false));
    state := new FrameState(log, r);
    FreshIsCoherent(log, r);
    var threw;
    batches, threw := StreamBatches.StreamBatches(source, errs, batchable, maximum);
    BatchingIsTransparent(start, batches, minted);
    written, failed := ReadBatches(state, batches, log, minted);
    failed := failed || threw;
  }
}
