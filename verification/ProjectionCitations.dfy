/**
 Which citation batches projection may lose.  A batch that waits in memory for a message id is passed by the safe
 sequence only if a tool call follows it before any text and before any usage frame, and is dropped at the end only if
 no text follows it and the response does not complete.  Every other batch is as durable as text is.
 */
module ProjectionCitations {
  import opened Options
  import opened Projection
  import opened ProjectionInvariant

  // ---------------------------------------------------------------- conditions on the response

  predicate Words(f: Frame) { f.Text? && f.delta != "" }

  predicate NoWords(frames: seq<Frame>, from: int, to: int) {
    forall t :: from < t < to && 0 <= t < |frames| ==> !Words(frames[t])
  }

  predicate NoUsage(frames: seq<Frame>, to: int) {
    forall t :: 0 <= t < to && t < |frames| ==> !frames[t].Usage?
  }

  /** A tool call `k` after the batch can be marked resume-safe while the batch still waits for a text. */
  predicate PassedBy(frames: seq<Frame>, c: nat, k: nat) {
    c < k < |frames| && frames[k].ToolCall? && NoWords(frames, c, k) && NoUsage(frames, k)
  }

  predicate Skippable(frames: seq<Frame>, c: nat) {
    exists k :: c < k < |frames| && PassedBy(frames, c, k)
  }

  /** No text follows the batch, and the response ends without completing. */
  predicate Lossy(frames: seq<Frame>, c: nat) {
    && NoWords(frames, c, |frames|)
    && |frames| > 0 && frames[|frames| - 1].Done? && !frames[|frames| - 1].outcome.Completed?
  }

  predicate Exposed(frames: seq<Frame>, c: nat) {
    c < |frames| && frames[c].Citations? && (Skippable(frames, c) || Lossy(frames, c))
  }

  /** A batch that the safe sequence never passes unwritten. */
  predicate Guarded(w: Watched, c: nat) { c < |w.frames| && w.frames[c].Citations? && !Skippable(w.frames, c) }

  // ---------------------------------------------------------------- the invariant

  /** Every guarded batch below `n` is among the keys. */
  predicate Shelters(w: Watched, keys: set<nat>, n: int) {
    forall c: nat {:trigger Guarded(w, c)} :: c < n && c < |w.frames| && Guarded(w, c) ==> c in keys
  }

  /** A text in the log has all guarded batches before it in the log. */
  ghost predicate Texts(w: Watched, log: Log) {
    forall t {:trigger t in Keys(log)} ::
      t in Keys(log) && t < |w.frames| && Words(w.frames[t]) ==> Shelters(w, Keys(log), t)
  }

  /** So has every effect that is marked resume-safe. */
  predicate Safes(w: Watched, log: Log) { SafesIn(w, Keys(log), log) }

  predicate SafesIn(w: Watched, keys: set<nat>, events: Log) {
    forall j :: 0 <= j < |events| && events[j].Effect? && events[j].resumeSafe ==> Shelters(w, keys, events[j].sequence)
  }

  predicate Pends(o: Observation, c: nat) { exists i :: 0 <= i < |o.pending| && o.pending[i].0 == c }

  /** The batch waits in memory; a message id came up meanwhile only after a usage frame. */
  predicate Waits(w: Watched, o: Observation, c: nat) { Pends(o, c) && (o.message.None? || !Quiet(w, o.expected)) }

  /** The response ended without completing, so waiting batches were dropped. */
  predicate Lapsed(w: Watched, o: Observation) {
    o.last && |w.frames| > 0 && w.frames[|w.frames| - 1].Done? && !w.frames[|w.frames| - 1].outcome.Completed?
  }

  /** Every guarded batch that was read is durable, drafted, or waits. */
  predicate Read(w: Watched, keys: set<nat>, o: Observation) {
    forall c: nat {:trigger Guarded(w, c)} ::
      c < o.expected && c < |w.frames| && Guarded(w, c) && c !in keys + Keys(o.drafts) ==>
          Waits(w, o, c) || Lapsed(w, o)
  }

  /** A batch of drafts is one effect just read, or texts with nothing left waiting. */
  predicate BatchOk(o: Observation) {
    && (o.drafts == [] ==> !o.flushing && o.mark.None?)
    && (o.drafts != [] && !IsText(o.drafts[0]) ==>
          |o.drafts| == 1 && o.drafts[0].Effect? && o.expected == o.drafts[0].sequence + 1)
    && (o.drafts != [] && IsText(o.drafts[0]) ==> o.pending == [])
    && (o.mark.Some? ==> o.mark.value in Keys(o.drafts))
    && (o.last ==> o.drafts == [])
  }

  predicate ObservationCites(w: Watched, log: Log, o: Observation) { Read(w, Keys(log), o) && BatchOk(o) }

  predicate RuntimeCites(w: Watched, log: Log, r: Runtime) {
    && Shelters(w, Keys(log), r.safe + 1)
    && (r.observation.Some? ==> ObservationCites(w, log, r.observation.value))
  }

  /** The terminal event has every batch before it that is not exposed. */
  predicate Closed(w: Watched, log: Log) {
    forall j :: 0 <= j < |log| && log[j].Finished? ==> AllCited(w, Keys(log[..j]))
  }

  predicate AllCited(w: Watched, keys: set<nat>) {
    forall c: nat {:trigger Exposed(w.frames, c)} ::
      c < |w.frames| && w.frames[c].Citations? && !Exposed(w.frames, c) ==> c in keys
  }

  ghost predicate LogCites(w: Watched, log: Log) { Texts(w, log) && Safes(w, log) }

  ghost predicate Cited(w: Watched, s: System) {
    && Closed(w, s.log)
    && (TurnOver(w, s.log) ||
        (LogCites(w, s.log) && forall i :: 0 <= i < |s.runtimes| ==> RuntimeCites(w, s.log, s.runtimes[i])))
  }

  // ---------------------------------------------------------------- growth

  lemma {:induction false} SheltersMore(w: Watched, keys: set<nat>, more: set<nat>, n: int)
    requires Shelters(w, keys, n) && keys <= more
    ensures Shelters(w, more, n)
  {}

  lemma {:induction false} RuntimeCitesGrows(w: Watched, log: Log, more: Log, r: Runtime)
    requires RuntimeCites(w, log, r)
    ensures RuntimeCites(w, log + more, r)
  {
    KeysSplit(log, more);
    SheltersMore(w, Keys(log), Keys(log + more), r.safe + 1);
  }

  lemma {:induction false} ClosedGrows(w: Watched, log: Log, more: Log)
    requires Closed(w, log) && forall i :: 0 <= i < |more| ==> !more[i].Finished?
    ensures Closed(w, log + more)
  {
    var all := log + more;
    forall j | 0 <= j < |all| && all[j].Finished? ensures AllCited(w, Keys(all[..j])) {
      assert j < |log| && all[..j] == log[..j];
    }
  }

  /** Events without a key teach nothing about batches. */
  lemma {:induction false} UnkeyedCites(w: Watched, log: Log, e: Event)
    requires LogCites(w, log) && !Keyed(e)
    ensures LogCites(w, log + [e]) && Keys(log + [e]) == Keys(log)
  {
    KeysSnoc(log, e);
    SafesJoin(w, Keys(log), log, [e]);
  }

  lemma {:induction false} LearnCites(w: Watched, log: Log, r: Runtime, to: nat)
    requires LogSound(w, log) && LogCites(w, log) && !TurnOver(w, log) && Placed(log, r) && RuntimeCites(w, log, r)
    ensures RuntimeCites(w, log, Learn(log, r, to))
  {
    if r.view < to <= |log| && MaxSafe(log[r.view..to]) > r.safe {
      var news := log[r.view..to];
      MaxSafeSpec(news);
      if MaxSafe(news) >= 0 {
        var i :| 0 <= i < |news| && SafeOf(news[i]) == MaxSafe(news);
        SafeEventCites(w, log, r.view + i);
      }
    }
  }

  lemma {:induction false} SafeEventCites(w: Watched, log: Log, j: nat)
    requires LogCites(w, log) && !TurnOver(w, log) && j < |log| && SafeOf(log[j]) >= 0
    ensures Shelters(w, Keys(log), SafeOf(log[j]) + 1)
  {
    KeyIn(log, j);
    assert !Ends(w, log[j]);
    assert Shelters(w, Keys(log), log[j].sequence);
  }

  // ---------------------------------------------------------------- receiving a frame

  lemma {:induction false} BeginCites(w: Watched, log: Log, r: Runtime)
    requires Placed(log, r) && -1 <= r.safe && RuntimeCites(w, log, r)
    ensures ObservationCites(w, log, Begin(log, r))
  {}

  lemma {:induction false} PendsMore(o: Observation, next: Observation, c: nat)
    requires Pends(o, c) && o.pending <= next.pending
    ensures Pends(next, c)
  {
    var i :| 0 <= i < |o.pending| && o.pending[i].0 == c;
    assert next.pending[i] == o.pending[i];
  }

  /** Reading on: what waited still waits, as long as waiting batches and drafts are kept and no id comes up. */
  lemma {:induction false} ReadOn(w: Watched, keys: set<nat>, o: Observation, next: Observation)
    requires Read(w, keys, o) && !o.last && next.expected == o.expected + 1 && Keys(o.drafts) <= Keys(next.drafts)
    requires o.pending <= next.pending && next.message == o.message
    requires Guarded(w, o.expected) ==>
               o.expected in keys + Keys(next.drafts) || (Pends(next, o.expected) && next.message.None?)
    ensures Read(w, keys, next)
  {
    forall c: nat | c < next.expected && c < |w.frames| && Guarded(w, c) && c !in keys + Keys(next.drafts)
      ensures Waits(w, next, c) || Lapsed(w, next)
    {
      if c < o.expected {
        assert Waits(w, o, c);
        PendsMore(o, next, c);
      }
    }
  }

  lemma {:induction false} DuplicateCites(w: Watched, log: Log, o: Observation, k: nat)
    requires ObservationCites(w, log, o) && !o.last && k == o.expected && k < |w.frames| && k in Keys(log)
    requires Joins(o, w.frames[k])
    ensures ObservationCites(w, log, Advance(o, Duplicate, k, w.frames[k]))
  {
    ReadOn(w, Keys(log), o, Advance(o, Duplicate, k, w.frames[k]));
  }

  /** A text takes every waiting batch along. */
  lemma {:induction false} WordsCite(w: Watched, keys: set<nat>, o: Observation, next: Observation, m: nat, e: Event)
    requires Read(w, keys, o) && !o.last && next.expected == o.expected + 1 && next.pending == []
    requires o.expected < |w.frames| && !w.frames[o.expected].Citations?
    requires next.drafts == o.drafts + ([e] + LinksFor(m, o.pending))
    ensures Read(w, keys, next)
  {
    KeysSplit(o.drafts, [e] + LinksFor(m, o.pending));
    KeysSplit([e], LinksFor(m, o.pending));
    forall c: nat | c < next.expected && Guarded(w, c) ensures c in keys + Keys(next.drafts) {
      if c !in keys + Keys(o.drafts) {
        assert Waits(w, o, c);
        var i :| 0 <= i < |o.pending| && o.pending[i].0 == c;
        KeyIn(LinksFor(m, o.pending), i);
      }
    }
  }

  /** The end of a response that does not complete drops what waits; one that completes keeps it. */
  lemma {:induction false} DoneCites(w: Watched, keys: set<nat>, o: Observation, next: Observation)
    requires WellFormed(w.frames) && Read(w, keys, o) && !o.last && o.expected < |w.frames|
             && w.frames[o.expected].Done?
    requires next == o.(expected := o.expected + 1, live := next.live, last := true,
                        pending := if w.frames[o.expected].outcome.Completed? then o.pending else [])
    ensures Read(w, keys, next)
  {
    assert o.expected == |w.frames| - 1;
    if w.frames[o.expected].outcome.Completed? { ReadOn(w, keys, o, next); }
  }

  lemma {:induction false} AcceptedCites(w: Watched, log: Log, o: Observation, minted: nat)
    requires WellFormed(w.frames) && ObservationCites(w, log, o) && !o.last && !o.flushing
    requires o.expected < |w.frames| && Joins(o, w.frames[o.expected])
    ensures var k, f := o.expected, w.frames[o.expected];
            ObservationCites(w, log, Draft(Advance(o, Accepted, k, f), k, f, minted))
  {
    var k, f := o.expected, w.frames[o.expected];
    var next := Draft(Advance(o, Accepted, k, f), k, f, minted);
    AdvanceThenDraft(o, k, f, minted);
    if Words(f) {
      var m := if o.message.Some? then o.message.value else minted;
      var e := Effect(k, !o.unsafe, Appended(m, f.delta));
      WordsCite(w, Keys(log), o, next, m, e);
      WordsBatch(o, next, m, e);
    } else if f.Done? {
      DoneCites(w, Keys(log), o, next);
    } else {
      SilentCites(w, log, o, minted);
    }
  }

  lemma {:induction false} WordsBatch(o: Observation, next: Observation, m: nat, e: Event)
    requires BatchOk(o) && (o.drafts == [] || IsText(o.drafts[0])) && IsText(e)
    requires next.drafts == o.drafts + ([e] + LinksFor(m, o.pending)) && next.pending == [] && !next.last
    requires next.mark == o.mark || next.mark == Some(e.sequence)
    ensures BatchOk(next)
  {
    KeysSplit(o.drafts, [e] + LinksFor(m, o.pending));
    KeysSplit([e], LinksFor(m, o.pending));
    KeyIn([e], 0);
    assert next.drafts[0] == if o.drafts == [] then e else o.drafts[0];
  }

  /** The one draft of a frame that is not text. */
  lemma {:induction false} SingleCites(w: Watched, log: Log, o: Observation, next: Observation, e: Event)
    requires ObservationCites(w, log, o) && o.drafts == [] && !o.last && o.expected < |w.frames|
    requires e.Effect? && !IsText(e) && e.sequence == o.expected && next.drafts == [e] && next.pending == o.pending
    requires next.expected == o.expected + 1 && next.message == o.message && !next.last
    requires next.mark == o.mark || next.mark == Some(e.sequence)
    ensures ObservationCites(w, log, next)
  {
    KeyIn(next.drafts, 0);
    ReadOn(w, Keys(log), o, next);
  }

  /** A frame that drafts nothing. */
  lemma {:induction false} QuietCites(w: Watched, log: Log, o: Observation, next: Observation)
    requires ObservationCites(w, log, o) && !o.last && !next.last && o.expected < |w.frames|
    requires o.drafts == [] || IsText(o.drafts[0])
    requires next.drafts == o.drafts && next.mark == o.mark && next.flushing == o.flushing
    requires next.expected == o.expected + 1 && next.message == o.message
    requires if w.frames[o.expected].Citations?
             then o.drafts == [] && o.message.None? && exists b :: next.pending == o.pending + [(o.expected, b)]
             else next.pending == o.pending
    ensures ObservationCites(w, log, next)
  {
    if w.frames[o.expected].Citations? {
      assert next.pending[|o.pending|].0 == o.expected;
    }
    ReadOn(w, Keys(log), o, next);
  }

  lemma {:induction false} SilentCites(w: Watched, log: Log, o: Observation, minted: nat)
    requires ObservationCites(w, log, o) && !o.last && !o.flushing && o.expected < |w.frames|
    requires Joins(o, w.frames[o.expected]) && !Words(w.frames[o.expected]) && !w.frames[o.expected].Done?
    ensures var k, f := o.expected, w.frames[o.expected];
            ObservationCites(w, log, Draft(Advance(o, Accepted, k, f), k, f, minted))
  {
    var k, f := o.expected, w.frames[o.expected];
    var next := Draft(Advance(o, Accepted, k, f), k, f, minted);
    var added := Added(Advance(o, Accepted, k, f), k, f, minted);
    if added != [] {
      assert next.drafts == [added[0]];
      SingleCites(w, log, o, next, added[0]);
    } else {
      assert o.drafts + [] == o.drafts;
      if f.Citations? { assert next.pending == o.pending + [(k, f.batch)]; }
      QuietCites(w, log, o, next);
    }
  }

  lemma {:induction false} ReceiveCites(w: Watched, log: Log, r: Runtime, o: Observation, k: nat, minted: nat)
    requires WellFormed(w.frames) && RuntimeOk(w, log, r) && RuntimeCites(w, log, r) && r.observation == Some(o)
    requires k < |w.frames| && !o.flushing && Joins(o, w.frames[k])
    ensures RuntimeCites(w, log, Receive(log, r, o, k, w.frames[k], minted))
  {
    var keys := Keys(log[..r.known]);
    KeysPrefix(log, r.known);
    match Judge(o, r.identified, keys, k, w.frames[k])
    case Rejected =>
    case Duplicate => if k == o.expected { DuplicateCites(w, log, o, k); }
    case Accepted => AcceptedCites(w, log, o, minted);
  }

  // ---------------------------------------------------------------- persisting

  lemma {:induction false} DraftAt(w: Watched, keys: set<nat>, n: nat, drafts: Log, i: nat)
    requires DraftsOk(w, keys, n, drafts) && i < |drafts|
    ensures drafts[i].Effect? && drafts[i].sequence < n && Matches(w, drafts[i])
    ensures drafts[i].resumeSafe ==> Quiet(w, drafts[i].sequence)
  {
    if i < |drafts| - 1 { DraftAt(w, keys, n, drafts[..|drafts| - 1], i); }
  }

  /** Once a batch of drafts is durable, so is every guarded batch before a draft that may be marked resume-safe. */
  lemma {:induction false} DraftShelters(w: Watched, log: Log, o: Observation, i: nat)
    requires WellFormed(w.frames) && ObservationOk(w, log, o) && ObservationCites(w, log, o) && Texts(w, log)
    requires Keys(o.drafts) <= Keys(log) && i < |o.drafts| && o.drafts[i].Effect? && Quiet(w, o.drafts[i].sequence)
    ensures Shelters(w, Keys(log), o.drafts[i].sequence)
  {
    var e := o.drafts[i];
    DraftAt(w, Keys(log), o.expected, o.drafts, i);
    assert Keys(log) + Keys(o.drafts) == Keys(log);
    if IsText(o.drafts[0]) {
      assert forall c: nat :: !Pends(o, c);
    } else {
      assert Quiet(w, o.expected);
      forall c: nat | c < e.sequence && Guarded(w, c) ensures c in Keys(log) {
        if Pends(o, c) && o.message.None? { PassedIsDurable(w, log, o, e, c); }
      }
    }
  }

  /** Before the one draft of a tool call, a waiting batch has a text between, and that text is durable. */
  lemma {:induction false} PassedIsDurable(w: Watched, log: Log, o: Observation, e: Event, c: nat)
    requires WellFormed(w.frames) && ObservationOk(w, log, o) && Texts(w, log) && Keys(o.drafts) <= Keys(log)
    requires o.drafts == [e] && e.Effect? && !IsText(e) && Matches(w, e) && Quiet(w, e.sequence)
    requires o.expected == e.sequence + 1 && c < e.sequence && Guarded(w, c) && o.message.None?
    ensures c in Keys(log)
  {
    assert e == o.drafts[0];
    assert w.frames[e.sequence].ToolCall?;
    assert !PassedBy(w.frames, c, e.sequence);
    var t :| c < t < e.sequence && Words(w.frames[t]);
    assert Lasting(w.frames[t]);
    assert t in Keys(log) + Keys(o.drafts);
  }

  /** A drafted text has no guarded batch before it that is neither durable nor drafted. */
  lemma {:induction false} TextShelters(w: Watched, log: Log, o: Observation, all: Log, t: nat)
    requires ObservationOk(w, log, o) && ObservationCites(w, log, o)
    requires Keys(log) <= Keys(all) && Keys(o.drafts) <= Keys(all)
    requires t in Keys(o.drafts) && t < |w.frames| && Words(w.frames[t])
    ensures Shelters(w, Keys(all), t)
  {
    var i := KeyAt(o.drafts, t);
    DraftAt(w, Keys(log), o.expected, o.drafts, i);
    assert IsText(o.drafts[i]);
    assert IsText(o.drafts[0]);
    assert forall c: nat :: !Pends(o, c);
  }

  lemma {:induction false} TextsAppended(w: Watched, log: Log, o: Observation, out: Log)
    requires ObservationOk(w, log, o) && ObservationCites(w, log, o) && Texts(w, log)
    requires Keys(out) <= Keys(o.drafts) <= Keys(log) + Keys(out)
    ensures Texts(w, log + out)
  {
    var all := log + out;
    KeysSplit(log, out);
    forall t | t in Keys(all) && t < |w.frames| && Words(w.frames[t]) ensures Shelters(w, Keys(all), t) {
      if t in Keys(log) {
        SheltersMore(w, Keys(log), Keys(all), t);
      } else {
        TextShelters(w, log, o, all, t);
      }
    }
  }


  lemma {:induction false} OutgoingAt(keys: set<nat>, id: Option<nat>, drafts: Log, i: nat) returns (j: nat)
    requires i < |Outgoing(keys, id, drafts)|
    ensures j < |drafts| && Outgoing(keys, id, drafts)[i] == Rebind(id, drafts[j])
  {
    j := |drafts| - 1;
    if i < |Outgoing(keys, id, drafts[..j])| {
      j := OutgoingAt(keys, id, drafts[..j], i);
    }
  }

  lemma {:induction false} SafesAppended(
    w: Watched, log: Log, o: Observation, out: Log, keys: set<nat>, id: Option<nat>)
    requires WellFormed(w.frames) && Safes(w, log) && out == Outgoing(keys, id, o.drafts)
    requires ObservationOk(w, log + out, o) && ObservationCites(w, log + out, o) && Texts(w, log + out)
    requires Keys(o.drafts) <= Keys(log + out)
    ensures Safes(w, log + out)
  {
    var all := log + out;
    KeysSplit(log, out);
    SafesMore(w, Keys(log), Keys(all), log);
    forall i | 0 <= i < |out| && out[i].Effect? && out[i].resumeSafe ensures Shelters(w, Keys(all), out[i].sequence) {
      OutShelters(w, all, o, keys, id, i);
    }
    SafesJoin(w, Keys(all), log, out);
  }

  lemma {:induction false} SafesMore(w: Watched, keys: set<nat>, more: set<nat>, events: Log)
    requires SafesIn(w, keys, events) && keys <= more
    ensures SafesIn(w, more, events)
  {
    forall j | 0 <= j < |events| && events[j].Effect? && events[j].resumeSafe
      ensures Shelters(w, more, events[j].sequence)
    {
      SheltersMore(w, keys, more, events[j].sequence);
    }
  }

  lemma {:induction false} SafesJoin(w: Watched, keys: set<nat>, a: Log, b: Log)
    requires SafesIn(w, keys, a) && SafesIn(w, keys, b)
    ensures SafesIn(w, keys, a + b)
  {}

  lemma {:induction false} OutShelters(w: Watched, all: Log, o: Observation, keys: set<nat>, id: Option<nat>, i: nat)
    requires WellFormed(w.frames) && ObservationOk(w, all, o) && ObservationCites(w, all, o) && Texts(w, all)
    requires Keys(o.drafts) <= Keys(all) && i < |Outgoing(keys, id, o.drafts)|
    ensures var e := Outgoing(keys, id, o.drafts)[i];
            e.Effect? && (e.resumeSafe ==> Shelters(w, Keys(all), e.sequence))
  {
    var j := OutgoingAt(keys, id, o.drafts, i);
    DraftAt(w, Keys(all), o.expected, o.drafts, j);
    if o.drafts[j].resumeSafe { DraftShelters(w, all, o, j); }
  }

  /** The log with a batch appended, whoever learns of it. */
  lemma {:induction false} AppendCites(w: Watched, log: Log, r: Runtime, o: Observation)
    requires WellFormed(w.frames) && LogSound(w, log) && RuntimeOk(w, log, r) && r.observation == Some(o)
    requires LogCites(w, log) && RuntimeCites(w, log, r)
    ensures var out := Outgoing(Keys(log), TextId(log), o.drafts);
            && LogSound(w, log + out) && LogCites(w, log + out) && RuntimeOk(w, log + out, r)
            && RuntimeCites(w, log + out, r) && Keys(o.drafts) <= Keys(log + out)
  {
    var out := Outgoing(Keys(log), TextId(log), o.drafts);
    OutgoingOk(w, log, o.expected, o.message, o.drafts);
    KeysSplit(log, out);
    OutKeys(Keys(log), TextId(log), o.drafts);
    RuntimeOkGrows(w, log, out, r);
    RuntimeCitesGrows(w, log, out, r);
    TextsAppended(w, log, o, out);
    SafesAppended(w, log, o, out, Keys(log), TextId(log));
  }

  lemma {:induction false} OutKeys(keys: set<nat>, id: Option<nat>, drafts: Log)
    ensures Keys(Outgoing(keys, id, drafts)) <= Keys(drafts)
  {
    if drafts != [] {
      var init, e := drafts[..|drafts| - 1], drafts[|drafts| - 1];
      OutKeys(keys, id, init);
      KeysSplit(Outgoing(keys, id, init), if Keyed(e) && e.sequence in keys then [] else [Rebind(id, e)]);
      KeysSnoc([], Rebind(id, e));
      assert [] + [Rebind(id, e)] == [Rebind(id, e)];
    }
  }

  /** After a flush what waits still waits, and a message id came up only after a usage frame. */
  lemma {:induction false} SettleRead(w: Watched, log: Log, o: Observation, message: Option<nat>)
    requires WellFormed(w.frames) && ObservationOk(w, log, o) && ObservationCites(w, log, o) && Texts(w, log)
    requires Keys(o.drafts) <= Keys(log) && o.drafts != [] && (o.message.Some? ==> message.Some?)
    ensures Read(w, Keys(log), o.(message := message, drafts := []))
  {
    var next := o.(message := message, drafts := []);
    DraftAt(w, Keys(log), o.expected, o.drafts, 0);
    forall c: nat | c < o.expected && c < |w.frames| && Guarded(w, c) && c !in Keys(log) ensures Waits(w, next, c) {
      assert Waits(w, o, c);
      assert Pends(next, c);
      if Quiet(w, o.expected) {
        assert o.drafts == [o.drafts[0]];
        PassedIsDurable(w, log, o, o.drafts[0], c);
      }
    }
  }

  lemma {:induction false} SettleCites(w: Watched, log: Log, r: Runtime, o: Observation)
    requires WellFormed(w.frames) && RuntimeOk(w, log, r) && RuntimeCites(w, log, r) && Texts(w, log)
    requires ObservationOk(w, log, o) && ObservationCites(w, log, o) && Keys(o.drafts) <= Keys(log) && o.drafts != []
    ensures RuntimeCites(w, log, Settle(log, r, o))
  {
    var id := TextId(log[..r.view]);
    SettleRead(w, log, o, if id.Some? then id else o.message);
    if o.mark.Some? { MarkShelters(w, log, o); }
    var next := o.(message := if id.Some? then id else o.message, drafts := []);
    assert Read(w, Keys(log), next);
    SameRead(w, Keys(log), next, next.(mark := None, flushing := false, attempts := 0));
  }

  lemma {:induction false} SameRead(w: Watched, keys: set<nat>, o: Observation, next: Observation)
    requires Read(w, keys, o) && next == o.(mark := next.mark, flushing := next.flushing, attempts := next.attempts)
    ensures Read(w, keys, next)
  {
    forall c: nat | c < next.expected && c < |w.frames| && Guarded(w, c) && c !in keys + Keys(next.drafts)
      ensures Waits(w, next, c) || Lapsed(w, next)
    {
      if Pends(o, c) { PendsMore(o, next, c); }
    }
  }

  lemma {:induction false} MarkShelters(w: Watched, log: Log, o: Observation)
    requires WellFormed(w.frames) && ObservationOk(w, log, o) && ObservationCites(w, log, o) && Texts(w, log)
    requires Keys(o.drafts) <= Keys(log) && o.mark.Some?
    ensures Shelters(w, Keys(log), o.mark.value + 1)
  {
    var i := KeyAt(o.drafts, o.mark.value);
    DraftAt(w, Keys(log), o.expected, o.drafts, i);
    DraftShelters(w, log, o, i);
  }

  lemma {:induction false} ConflictCites(w: Watched, log: Log, r: Runtime, o: Observation, to: nat)
    requires LogSound(w, log) && LogCites(w, log) && !TurnOver(w, log) && Placed(log, r) && RuntimeCites(w, log, r)
    requires r.observation == Some(o)
    ensures RuntimeCites(w, log, Conflict(log, r, o, to))
  {
    LearnCites(w, log, r, to);
    SameRead(w, Keys(log), o, o.(attempts := o.attempts + 1));
  }

  // ---------------------------------------------------------------- every step

  /** The log and one runtime after a step of it; a log that is over asks for nothing more. */
  ghost predicate StepCites(w: Watched, log: Log, r: Runtime) {
    TurnOver(w, log) || (LogCites(w, log) && RuntimeCites(w, log, r))
  }

  lemma {:induction false} FlushCites(w: Watched, log: Log, r: Runtime, o: Observation, to: nat)
    requires WellFormed(w.frames) && LogSound(w, log) && RuntimeOk(w, log, r) && r.observation == Some(o) && o.flushing
    requires LogCites(w, log) && RuntimeCites(w, log, r) && !TurnOver(w, log)
    ensures StepCites(w, FlushBatch(w, log, r, o, to).0, FlushBatch(w, log, r, o, to).1)
  {
    var seen, keys := log[..r.view], Keys(log[..r.known]);
    var out := Outgoing(keys, TextId(seen), o.drafts);
    if out == [] {
      NothingOutgoing(keys, TextId(seen), o.drafts);
      KeysPrefix(log, r.known);
      SettleCites(w, log, r, o);
    } else if r.view == |log| {
      assert seen == log && log[..r.known] == log;
      FlushAppendCites(w, log, r, o);
    } else {
      ConflictCites(w, log, r, o, to);
    }
  }

  lemma {:induction false} FlushAppendCites(w: Watched, log: Log, r: Runtime, o: Observation)
    requires WellFormed(w.frames) && LogSound(w, log) && RuntimeOk(w, log, r) && r.observation == Some(o)
    requires LogCites(w, log) && RuntimeCites(w, log, r) && o.drafts != []
    ensures var all := log + Outgoing(Keys(log), TextId(log), o.drafts);
            StepCites(w, all, Settle(all, Learn(all, r, |all|), o))
  {
    var all := log + Outgoing(Keys(log), TextId(log), o.drafts);
    AppendCites(w, log, r, o);
    LearnOk(w, all, r, |all|);
    if !TurnOver(w, all) {
      LearnCites(w, all, r, |all|);
      SettleCites(w, all, Learn(all, r, |all|), o);
    }
  }

  /** The terminal event finds every batch that is not exposed in the log. */
  lemma {:induction false} FinishIsClosed(w: Watched, log: Log, o: Observation)
    requires WellFormed(w.frames) && ObservationOk(w, log, o) && ObservationCites(w, log, o) && Texts(w, log)
    requires o.last && w.frames[|w.frames| - 1].Done?
    requires w.frames[|w.frames| - 1].outcome.Completed? ==> o.pending == []
    ensures AllCited(w, Keys(log))
  {
    assert Keys(log) + Keys(o.drafts) == Keys(log);
    forall c: nat | c < |w.frames| && w.frames[c].Citations? && !Exposed(w.frames, c) ensures c in Keys(log) {
      assert Guarded(w, c);
      if !w.frames[|w.frames| - 1].outcome.Completed? {
        assert !NoWords(w.frames, c, |w.frames|);
        var t :| c < t < |w.frames| && Words(w.frames[t]);
        assert Lasting(w.frames[t]);
        assert Shelters(w, Keys(log), t);
      }
    }
  }

  lemma {:induction false} FinishCites(w: Watched, log: Log, r: Runtime, o: Observation, to: nat, raw: RawPoint)
    requires WellFormed(w.frames) && LogSound(w, log) && RuntimeOk(w, log, r) && r.observation == Some(o)
    requires LogCites(w, log) && RuntimeCites(w, log, r) && !TurnOver(w, log)
    requires o.drafts == [] && o.last && w.frames[|w.frames| - 1].Done? && Closed(w, log)
    ensures var (all, next) := FinishTurn(w, log, r, o, to, raw);
            Closed(w, all) && StepCites(w, all, next)
  {
    var (all, next) := FinishTurn(w, log, r, o, to, raw);
    TurnOverGrows(w, log[..r.view], log[r.view..]);
    assert log == log[..r.view] + log[r.view..];
    if all != log {
      FinishIsClosed(w, log, o);
      assert Ends(w, all[|log|]) && all[..|log|] == log;
      forall j | 0 <= j < |all| && all[j].Finished? ensures AllCited(w, Keys(all[..j])) {
        assert forall i :: 0 <= i < |log| ==> all[i] == log[i] && !Ends(w, log[i]);
      }
    } else {
      ConflictCites(w, log, r, o, to);
    }
  }

  lemma {:induction false} ParkCites(w: Watched, log: Log, r: Runtime, o: Observation, to: nat, raw: RawPoint)
    requires WellFormed(w.frames) && LogSound(w, log) && RuntimeOk(w, log, r) && r.observation == Some(o)
    requires LogCites(w, log) && RuntimeCites(w, log, r) && !TurnOver(w, log)
    ensures var (all, next) := ParkTurn(w, log, r, o, to, raw); StepCites(w, all, next)
  {
    var verdict := Validate(raw, r.checkpoint, r.view);
    if verdict.Valid? { LearnOne(w, log, r, Checkpointed(verdict.point)); }
    ConflictCites(w, log, r, o, to);
  }

  /** An event without a key, learned by its author. */
  lemma {:induction false} LearnOne(w: Watched, log: Log, r: Runtime, e: Event)
    requires WellFormed(w.frames) && LogCites(w, log) && RuntimeCites(w, log, r) && Placed(log, r) && !Keyed(e)
    ensures r.view == |log| ==> StepCites(w, log + [e], Learn(log + [e], r, |log| + 1))
  {
    if r.view == |log| {
      UnkeyedCites(w, log, e);
      RuntimeCitesGrows(w, log, [e], r);
      assert (log + [e])[|log|..|log| + 1] == [e];
      assert MaxSafe([e]) == -1 by { assert [e][..0] == []; }
    }
  }

  lemma {:induction false} AdmitCites(w: Watched, log: Log, r: Runtime, u: nat, to: nat)
    requires WellFormed(w.frames) && LogSound(w, log) && RuntimeOk(w, log, r)
    requires LogCites(w, log) && RuntimeCites(w, log, r) && !TurnOver(w, log)
    ensures StepCites(w, AdmitTurn(w, log, r, u, to).0, AdmitTurn(w, log, r, u, to).1)
  {
    LearnOne(w, log, r, Admitted(u));
    LearnCites(w, log, r, to);
  }

  lemma {:induction false} FlushingCites(w: Watched, log: Log, r: Runtime, o: Observation, a: Action)
    requires WellFormed(w.frames) && LogSound(w, log) && RuntimeOk(w, log, r) && r.observation == Some(o) && o.flushing
    requires LogCites(w, log) && RuntimeCites(w, log, r) && !TurnOver(w, log)
    ensures StepCites(w, During(w, log, r, o, a).0, During(w, log, r, o, a).1)
  {
    match a
    case Flush(to) => FlushCites(w, log, r, o, to);
    case _ =>
  }

  lemma {:induction false} ReadingCites(w: Watched, log: Log, r: Runtime, o: Observation, a: Action)
    requires WellFormed(w.frames) && LogSound(w, log) && RuntimeOk(w, log, r) && r.observation == Some(o) && !o.flushing
    requires LogCites(w, log) && RuntimeCites(w, log, r) && !TurnOver(w, log) && Closed(w, log)
    ensures StepCites(w, During(w, log, r, o, a).0, During(w, log, r, o, a).1)
  {
    match a
    case Deliver(k, minted) =>
      if k < |w.frames| && Joins(o, w.frames[k]) { ReceiveCites(w, log, r, o, k, minted); }
    case Finish(to, raw) =>
      if o.drafts == [] && o.last && w.frames[|w.frames| - 1].Done? { FinishCites(w, log, r, o, to, raw); }
    case Park(to, raw) => ParkCites(w, log, r, o, to, raw);
    case Cut => SameRead(w, Keys(log), o, o.(flushing := true));
    case _ =>
  }

  lemma {:induction false} RehydrateCites(w: Watched, log: Log, to: nat, known: nat)
    requires LogSound(w, log) && LogCites(w, log) && !TurnOver(w, log) && to <= known <= |log|
    ensures RuntimeCites(w, log, Rehydrate(log, to, known))
  {
    LearnCites(w, log, NEW, known);
  }

  lemma {:induction false} DuringCites(w: Watched, log: Log, r: Runtime, o: Observation, a: Action)
    requires WellFormed(w.frames) && LogSound(w, log) && RuntimeOk(w, log, r) && r.observation == Some(o)
    requires LogCites(w, log) && RuntimeCites(w, log, r) && !TurnOver(w, log) && Closed(w, log)
    ensures StepCites(w, During(w, log, r, o, a).0, During(w, log, r, o, a).1)
  {
    if o.flushing { FlushingCites(w, log, r, o, a); } else { ReadingCites(w, log, r, o, a); }
  }

  predicate Between(a: Action) { a.Sync? || a.Crash? || a.Admit? || a.Observe? }

  lemma {:induction false} SyncCites(w: Watched, log: Log, r: Runtime, to: nat)
    requires WellFormed(w.frames) && LogSound(w, log) && RuntimeOk(w, log, r)
    requires LogCites(w, log) && RuntimeCites(w, log, r) && !TurnOver(w, log)
    ensures StepCites(w, Act(w, log, r, Sync(to)).0, Act(w, log, r, Sync(to)).1)
  {
    LearnCites(w, log, r, to);
  }

  lemma {:induction false} CrashCites(w: Watched, log: Log, r: Runtime, to: nat, known: nat)
    requires WellFormed(w.frames) && LogSound(w, log) && RuntimeOk(w, log, r)
    requires LogCites(w, log) && RuntimeCites(w, log, r) && !TurnOver(w, log)
    ensures StepCites(w, Act(w, log, r, Crash(to, known)).0, Act(w, log, r, Crash(to, known)).1)
  {
    if to <= known <= |log| { RehydrateCites(w, log, to, known); }
  }

  lemma {:induction false} ObserveCites(w: Watched, log: Log, r: Runtime)
    requires WellFormed(w.frames) && LogSound(w, log) && RuntimeOk(w, log, r)
    requires LogCites(w, log) && RuntimeCites(w, log, r) && !TurnOver(w, log)
    ensures StepCites(w, Act(w, log, r, Observe).0, Act(w, log, r, Observe).1)
  {
    BeginCites(w, log, r);
  }

  lemma {:induction false} AdmittingCites(w: Watched, log: Log, r: Runtime, u: nat, to: nat)
    requires WellFormed(w.frames) && LogSound(w, log) && RuntimeOk(w, log, r)
    requires LogCites(w, log) && RuntimeCites(w, log, r) && !TurnOver(w, log)
    ensures StepCites(w, Act(w, log, r, Admit(u, to)).0, Act(w, log, r, Admit(u, to)).1)
  {
    AdmitCites(w, log, r, u, to);
  }

  lemma {:induction false} ActIsDuring(w: Watched, log: Log, r: Runtime, a: Action)
    requires Placed(log, r) && -1 <= r.safe && !Between(a)
    ensures Act(w, log, r, a) ==
              if r.observation.None? then (log, r) else During(w, log, r, r.observation.value, a)
  {}

  lemma {:induction false} ActCites(w: Watched, log: Log, r: Runtime, a: Action)
    requires WellFormed(w.frames) && LogSound(w, log) && RuntimeOk(w, log, r)
    requires LogCites(w, log) && RuntimeCites(w, log, r) && !TurnOver(w, log) && Closed(w, log)
    ensures StepCites(w, Act(w, log, r, a).0, Act(w, log, r, a).1)
  {
    match a
    case Sync(to) => SyncCites(w, log, r, to);
    case Crash(to, known) => CrashCites(w, log, r, to, known);
    case Observe => ObserveCites(w, log, r);
    case Admit(u, to) => AdmittingCites(w, log, r, u, to);
    case _ => OtherCites(w, log, r, a);
  }

  lemma {:induction false} OtherCites(w: Watched, log: Log, r: Runtime, a: Action)
    requires WellFormed(w.frames) && LogSound(w, log) && RuntimeOk(w, log, r) && !Between(a)
    requires LogCites(w, log) && RuntimeCites(w, log, r) && !TurnOver(w, log) && Closed(w, log)
    ensures StepCites(w, Act(w, log, r, a).0, Act(w, log, r, a).1)
  {
    ActIsDuring(w, log, r, a);
    if r.observation.Some? { DuringCites(w, log, r, r.observation.value, a); }
  }

  /** A terminal event comes only from `FinishTurn`, in a log that is not over. */
  lemma {:induction false} ActFinishes(w: Watched, log: Log, r: Runtime, a: Action, j: nat)
    requires WellFormed(w.frames) && Placed(log, r) && -1 <= r.safe
    requires |log| <= j < |Act(w, log, r, a).0| && Act(w, log, r, a).0[j].Finished?
    requires r.observation.Some? ==> ObservationOk(w, log, r.observation.value)
    ensures a.Finish? && r.observation.Some? && r.view == |log| && !TurnOver(w, log[..r.view])
    ensures var o := r.observation.value;
            && o.drafts == [] && o.last && w.frames[|w.frames| - 1].Done?
            && Act(w, log, r, a) == FinishTurn(w, log, r, o, a.to, a.raw)
  {
    if r.observation.Some? {
      var o := r.observation.value;
      OutgoingHasNoEnd(w, Keys(log), o.expected, Keys(log[..r.known]), TextId(log[..r.view]), o.drafts);
    }
  }

  lemma {:induction false} ActClosed(w: Watched, log: Log, r: Runtime, a: Action)
    requires WellFormed(w.frames) && LogSound(w, log) && RuntimeOk(w, log, r) && Closed(w, log) && StepCites(w, log, r)
    ensures Closed(w, Act(w, log, r, a).0)
  {
    ActAppends(w, log, r, a);
    var all := Act(w, log, r, a).0;
    if j :| |log| <= j < |all| && all[j].Finished? {
      ActFinishes(w, log, r, a, j);
      assert log[..r.view] == log;
      FinishCites(w, log, r, r.observation.value, a.to, a.raw);
    } else {
      var more := all[|log|..];
      assert all == log + more;
      ClosedGrows(w, log, more);
    }
  }

  lemma {:induction false} OutgoingHasNoEnd(w: Watched, durable: set<nat>, n: nat, keys: set<nat>, id: Option<nat>,
                                            drafts: Log)
    requires DraftsOk(w, durable, n, drafts)
    ensures forall i :: 0 <= i < |Outgoing(keys, id, drafts)| ==> !Outgoing(keys, id, drafts)[i].Finished?
  {
    forall i | 0 <= i < |Outgoing(keys, id, drafts)| ensures !Outgoing(keys, id, drafts)[i].Finished? {
      var j := OutgoingAt(keys, id, drafts, i);
      DraftAt(w, durable, n, drafts, j);
    }
  }

  lemma {:induction false} WorldCites(w: Watched, s: System, e: Event)
    requires Cited(w, s) && Outside(e)
    ensures Cited(w, s.(log := s.log + [e]))
  {
    var all := s.log + [e];
    ClosedGrows(w, s.log, [e]);
    TurnOverGrows(w, s.log, [e]);
    if !TurnOver(w, s.log) {
      UnkeyedCites(w, s.log, e);
      forall i | 0 <= i < |s.runtimes| ensures RuntimeCites(w, all, s.runtimes[i]) {
        RuntimeCitesGrows(w, s.log, [e], s.runtimes[i]);
      }
    }
  }

  lemma {:induction false} LocalCites(w: Watched, s: System, i: nat, a: Action)
    requires Invariant(w, s) && Cited(w, s) && i < |s.runtimes| && Sane(s)
    ensures Cited(w, Next(w, s, Local(i, a)))
  {
    var r := s.runtimes[i];
    assert RuntimeOk(w, s.log, r);
    var (log, next) := Act(w, s.log, r, a);
    ActClosed(w, s.log, r, a);
    ActAppends(w, s.log, r, a);
    var more := log[|s.log|..];
    assert log == s.log + more;
    TurnOverGrows(w, s.log, more);
    if !TurnOver(w, log) {
      ActCites(w, s.log, r, a);
      var runtimes := s.runtimes[i := next];
      forall j | 0 <= j < |runtimes| ensures RuntimeCites(w, log, runtimes[j]) {
        if j != i { RuntimeCitesGrows(w, s.log, more, s.runtimes[j]); }
      }
    }
  }

  lemma {:induction false} LostCites(w: Watched, s: System, i: nat, a: Action)
    requires Invariant(w, s) && Cited(w, s) && i < |s.runtimes| && Sane(s)
    ensures Cited(w, Next(w, s, Lost(i, a)))
  {
    var r := s.runtimes[i];
    assert RuntimeOk(w, s.log, r);
    var log := Act(w, s.log, r, a).0;
    ActClosed(w, s.log, r, a);
    ActAppends(w, s.log, r, a);
    var more := log[|s.log|..];
    assert log == s.log + more;
    TurnOverGrows(w, s.log, more);
    if !TurnOver(w, log) {
      ActCites(w, s.log, r, a);
      forall j | 0 <= j < |s.runtimes| ensures RuntimeCites(w, log, s.runtimes[j]) {
        RuntimeCitesGrows(w, s.log, more, s.runtimes[j]);
      }
    }
  }

  /** Every run keeps the invariant about citation batches. */
  lemma {:induction false} RunCites(w: Watched, n: nat, steps: seq<Step>)
    requires WellFormed(w.frames)
    ensures Cited(w, Exec(w, n, steps))
  {
    if steps != [] {
      var before := steps[..|steps| - 1];
      RunCites(w, n, before);
      var s, step := Exec(w, n, before), steps[|steps| - 1];
      match step
      case World(e) => if Outside(e) { WorldCites(w, s, e); }
      case Local(i, a) => if i < |s.runtimes| { LocalCites(w, s, i, a); }
      case Lost(i, a) => if i < |s.runtimes| { LostCites(w, s, i, a); }
    }
  }

  // ---------------------------------------------------------------- what it gives

  /** The safe sequence passes an unwritten citation batch of a running turn only if the batch is skippable. */
  lemma {:induction false} SafeResumeOfCitations(w: Watched, n: nat, steps: seq<Step>, i: nat, c: nat)
    requires WellFormed(w.frames) && i < n && c < |w.frames| && w.frames[c].Citations?
    requires c <= Exec(w, n, steps).runtimes[i].safe && !Skippable(w.frames, c)
    ensures c in Keys(Exec(w, n, steps).log) || TurnOver(w, Exec(w, n, steps).log)
  {
    RunCites(w, n, steps);
    assert Guarded(w, c);
  }

  /** The terminal event has every batch before it that is not exposed. */
  lemma {:induction false} CitationsBeforeTheEnd(w: Watched, n: nat, steps: seq<Step>, j: nat, c: nat)
    requires WellFormed(w.frames) && c < |w.frames| && w.frames[c].Citations? && !Exposed(w.frames, c)
    requires var log := Exec(w, n, steps).log; j < |log| && log[j].Finished?
    ensures c in Keys(Exec(w, n, steps).log[..j])
  {
    RunCites(w, n, steps);
  }

  /** Something can follow the terminal event: there is text, and a batch is exposed. */
  predicate Straggling(frames: seq<Frame>) {
    && |frames| > 0 && frames[|frames| - 1].Done?
    && (exists t :: 0 <= t < |frames| && Words(frames[t]))
    && (exists c: nat {:trigger Exposed(frames, c)} :: c < |frames| && Exposed(frames, c))
  }
}
