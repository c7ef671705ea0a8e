/**
 The inductive invariant of turn projection.  Each log event is justified by the log
 before it (`Sound`), and each runtime's memory is justified by the log as it stands.
 */
module ProjectionInvariant {
  import opened Options
  import opened Projection

  // ---------------------------------------------------------------- the log

  /** The event `e` carries exactly the effect of its frame. */
  predicate Matches(w: Watched, e: Event) {
    match e
    case Effect(s, _, p) =>
      s < |w.frames| &&
      (match w.frames[s]
       case Started => p == Running
       case Text(d) => d != "" && p.Appended? && p.text == d
       case ToolCall(c) => p == Requested(c)
       case Citations(b) => p.Linked? && p.batch == b
       case _ => false)
    case Finished(s, outcome, _, _) => s < |w.frames| && w.frames[s] == Done(outcome)
    case _ => true
  }

  /** Every lasting frame below `n` is among the keys. */
  predicate Covered(w: Watched, keys: set<nat>, n: int) {
    forall t :: 0 <= t < n && t < |w.frames| && Lasting(w.frames[t]) ==> t in keys
  }

  /** No usage or terminal frame below `n`. */
  predicate Quiet(w: Watched, n: int) {
    forall t :: 0 <= t < n && t < |w.frames| ==> !w.frames[t].Usage? && !w.frames[t].Done?
  }

  predicate Sound(w: Watched, before: Log, e: Event) {
    match e
    case Effect(s, safe, p) =>
      && Matches(w, e)
      && s !in Keys(before)
      && Covered(w, Keys(before), s)
      && (safe ==> Quiet(w, s))
      && (p.Appended? && TextId(before).Some? ==> TextId(before).value == p.message)
      && (p.Linked? ==> TextId(before) == Some(p.message))
    case Finished(s, outcome, output, point) =>
      && Matches(w, e)
      && s !in Keys(before)
      && Covered(w, Keys(before), s)
      && !TurnOver(w, before)
      && output == (if outcome.Completed? && TextId(before).Some? then [TextId(before).value] else [])
      && (point.Some? ==> point.value.revision == |before| + 1)
    case Checkpointed(p) => p.revision == |before| && !TurnOver(w, before)
    case Admitted(_) => ActiveTurn(w, before) == None
    case _ => true
  }

  predicate LogSound(w: Watched, log: Log) {
    log == [] || (LogSound(w, log[..|log| - 1]) && Sound(w, log[..|log| - 1], log[|log| - 1]))
  }

  lemma {:induction false} LogSoundSnoc(w: Watched, log: Log, e: Event)
    requires LogSound(w, log) && Sound(w, log, e)
    ensures LogSound(w, log + [e])
  {
    assert (log + [e])[..|log|] == log;
  }

  lemma {:induction false} SoundAt(w: Watched, log: Log, j: nat)
    requires LogSound(w, log) && j < |log|
    ensures LogSound(w, log[..j]) && Sound(w, log[..j], log[j])
  {
    var init := log[..|log| - 1];
    if j < |init| {
      SoundAt(w, init, j);
      assert init[..j] == log[..j];
    }
  }

  lemma {:induction false} KeysSplit(a: Log, b: Log)
    ensures Keys(a + b) == Keys(a) + Keys(b)
    decreases |b|
  {
    if b == [] {
      assert a + b == a;
    } else {
      KeysSplit(a, b[..|b| - 1]);
      assert (a + b)[..|a + b| - 1] == a + b[..|b| - 1];
    }
  }

  lemma {:induction false} KeysSnoc(log: Log, e: Event)
    ensures Keys(log + [e]) == Keys(log) + (if Keyed(e) then {e.sequence} else {})
  {
    assert (log + [e])[..|log|] == log;
  }

  lemma {:induction false} KeysPrefix(log: Log, n: nat)
    requires n <= |log|
    ensures Keys(log[..n]) <= Keys(log)
  {
    KeysSplit(log[..n], log[n..]);
    assert log == log[..n] + log[n..];
  }

  /** Where a key of the log was written. */
  lemma {:induction false} KeyAt(log: Log, k: nat) returns (j: nat)
    requires k in Keys(log)
    ensures j < |log| && Keyed(log[j]) && log[j].sequence == k
  {
    j := |log| - 1;
    if !(Keyed(log[j]) && log[j].sequence == k) {
      j := KeyAt(log[..|log| - 1], k);
    }
  }

  lemma {:induction false} KeyIn(log: Log, j: nat)
    requires j < |log| && Keyed(log[j])
    ensures log[j].sequence in Keys(log)
  {
    if j < |log| - 1 {
      KeyIn(log[..|log| - 1], j);
    }
  }

  lemma {:induction false} TextIdSnoc(log: Log, e: Event)
    ensures TextId(log + [e]) ==
            if TextId(log).Some? then TextId(log) else if IsText(e) then Some(e.payload.message) else None
  {
    assert (log + [e])[..|log|] == log;
  }

  /** The first text event keeps naming the message, whatever is appended. */
  lemma {:induction false} TextIdGrows(a: Log, b: Log)
    ensures TextId(a).Some? ==> TextId(a + b) == TextId(a)
    decreases |b|
  {
    if b == [] {
      assert a + b == a;
    } else {
      TextIdGrows(a, b[..|b| - 1]);
      assert (a + b)[..|a + b| - 1] == a + b[..|b| - 1];
    }
  }

  lemma {:induction false} TextIdNone(log: Log)
    ensures TextId(log).None? <==> forall i :: 0 <= i < |log| ==> !IsText(log[i])
  {
    if log != [] {
      var init := log[..|log| - 1];
      TextIdNone(init);
      assert forall i :: 0 <= i < |init| ==> init[i] == log[i];
    }
  }

  lemma {:induction false} MaxSafeSpec(events: Log)
    ensures -1 <= MaxSafe(events)
    ensures MaxSafe(events) >= 0 ==>
              exists i :: 0 <= i < |events| && SafeOf(events[i]) == MaxSafe(events)
  {
    if events != [] {
      var init := events[..|events| - 1];
      MaxSafeSpec(init);
      if MaxSafe(events) == MaxSafe(init) && MaxSafe(init) >= 0 {
        var i :| 0 <= i < |init| && SafeOf(init[i]) == MaxSafe(init);
        assert events[i] == init[i];
      }
    }
  }

  lemma {:induction false} TurnOverGrows(w: Watched, a: Log, b: Log)
    ensures TurnOver(w, a) ==> TurnOver(w, a + b)
  {
    if TurnOver(w, a) {
      var j :| 0 <= j < |a| && Ends(w, a[j]);
      assert (a + b)[j] == a[j];
    }
  }

  // ---------------------------------------------------------------- one runtime

  /** The safe sequence passes no missing lasting frame, and a usage frame only once the turn is over. */
  predicate SafeOk(w: Watched, log: Log, safe: int) {
    && -1 <= safe < |w.frames|
    && Covered(w, Keys(log), safe + 1)
    && (Quiet(w, safe + 1) || (safe + 1 == |w.frames| && TurnOver(w, log)))
  }

  predicate DraftOk(w: Watched, keys: set<nat>, expected: nat, before: Log, e: Event) {
    && e.Effect?
    && e.sequence < expected
    && Matches(w, e)
    && e.sequence !in Keys(before)
    && Covered(w, keys + Keys(before), e.sequence)
    && (e.resumeSafe ==> Quiet(w, e.sequence))
  }

  predicate DraftsOk(w: Watched, keys: set<nat>, expected: nat, drafts: Log) {
    drafts == [] ||
    (DraftsOk(w, keys, expected, drafts[..|drafts| - 1]) &&
     DraftOk(w, keys, expected, drafts[..|drafts| - 1], drafts[|drafts| - 1]))
  }

  /** Drafts that speak of a message all speak of the observation's own, after a text. */
  predicate Spoken(log: Log, message: Option<nat>, drafts: Log) {
    && (forall j :: 0 <= j < |drafts| && IsText(drafts[j]) ==> message == Some(drafts[j].payload.message))
    && (forall j :: 0 <= j < |drafts| && drafts[j].Effect? && drafts[j].payload.Linked? ==>
          message == Some(drafts[j].payload.message) && (TextId(log).Some? || TextId(drafts[..j]).Some?))
  }

  predicate MessagesOk(log: Log, message: Option<nat>, drafts: Log) {
    && Spoken(log, message, drafts)
    && (message.Some? ==> TextId(log).Some? || TextId(drafts).Some?)
  }

  predicate PendingOk(w: Watched, n: nat, drafted: set<nat>, pending: seq<(nat, nat)>) {
    && (forall i :: 0 <= i < |pending| ==>
          pending[i].0 < n && pending[i].0 < |w.frames| &&
          w.frames[pending[i].0] == Citations(pending[i].1) && pending[i].0 !in drafted)
    && (forall i, j :: 0 <= i < j < |pending| ==> pending[i].0 != pending[j].0)
  }

  predicate MarkOk(w: Watched, o: Observation) {
    o.mark.Some? ==> o.mark.value < o.expected && Quiet(w, o.mark.value + 1)
  }

  predicate ObservationOk(w: Watched, log: Log, o: Observation) {
    && o.expected <= |w.frames|
    && (forall k :: k in o.live ==> k < o.expected)
    && Covered(w, Keys(log) + Keys(o.drafts), o.expected)
    && DraftsOk(w, Keys(log), o.expected, o.drafts)
    && MessagesOk(log, o.message, o.drafts)
    && PendingOk(w, o.expected, Keys(o.drafts), o.pending)
    && MarkOk(w, o)
    && (Quiet(w, o.expected) || o.unsafe || o.expected == |w.frames|)
    && (o.last ==> o.expected == |w.frames|)
  }

  /** A remembered resume point stands in the remembered part of the log. */
  predicate PointOk(log: Log, known: nat, p: Option<Point>) {
    p.Some? ==> exists j :: 0 <= j < known && j < |log| && CheckpointOf(log[j]) == p
  }

  predicate RuntimeOk(w: Watched, log: Log, r: Runtime) {
    && Placed(log, r)
    && SafeOk(w, log, r.safe)
    && PointOk(log, r.known, r.checkpoint)
    && (r.observation.Some? ==> ObservationOk(w, log, r.observation.value))
  }

  predicate Invariant(w: Watched, s: System) {
    && WellFormed(w.frames)
    && LogSound(w, s.log)
    && forall i :: 0 <= i < |s.runtimes| ==> RuntimeOk(w, s.log, s.runtimes[i])
  }

  // ---------------------------------------------------------------- other runtimes' appends

  lemma {:induction false} DraftsOkGrows(w: Watched, keys: set<nat>, more: set<nat>, n: nat, m: nat, drafts: Log)
    requires DraftsOk(w, keys, n, drafts) && n <= m && keys <= more
    ensures DraftsOk(w, more, m, drafts)
  {
    if drafts != [] {
      DraftsOkGrows(w, keys, more, n, m, drafts[..|drafts| - 1]);
    }
  }

  lemma {:induction false} PointOkGrows(log: Log, more: Log, known: nat, p: Option<Point>)
    requires PointOk(log, known, p)
    ensures PointOk(log + more, known, p)
  {
    if p.Some? {
      var j :| 0 <= j < known && j < |log| && CheckpointOf(log[j]) == p;
      assert (log + more)[j] == log[j];
    }
  }

  lemma {:induction false} LastCheckpointAt(log: Log) returns (j: nat)
    requires LastCheckpoint(log).Some?
    ensures j < |log| && CheckpointOf(log[j]) == LastCheckpoint(log)
  {
    j := |log| - 1;
    if CheckpointOf(log[j]).None? {
      j := LastCheckpointAt(log[..|log| - 1]);
    }
  }

  lemma {:induction false} RuntimeOkGrows(w: Watched, log: Log, more: Log, r: Runtime)
    requires RuntimeOk(w, log, r)
    ensures RuntimeOk(w, log + more, r)
  {
    KeysSplit(log, more);
    TurnOverGrows(w, log, more);
    TextIdGrows(log, more);
    PointOkGrows(log, more, r.known, r.checkpoint);
    if r.observation.Some? {
      var o := r.observation.value;
      DraftsOkGrows(w, Keys(log), Keys(log + more), o.expected, o.expected, o.drafts);
    }
  }

  /** What a runtime learns from any stretch of a sound log keeps its safe sequence justified. */
  lemma {:induction false} LearnOk(w: Watched, log: Log, r: Runtime, to: nat)
    requires WellFormed(w.frames) && LogSound(w, log) && RuntimeOk(w, log, r)
    ensures RuntimeOk(w, log, Learn(log, r, to))
  {
    if r.view < to <= |log| {
      if MaxSafe(log[r.view..to]) > r.safe {
        StretchIsSafe(w, log, r.view, to);
      }
      LearnPoint(log, r, to);
    }
  }

  lemma {:induction false} LearnPoint(log: Log, r: Runtime, to: nat)
    requires Placed(log, r) && r.view < to <= |log| && PointOk(log, r.known, r.checkpoint)
    ensures PointOk(log, Learn(log, r, to).known, Learn(log, r, to).checkpoint)
  {
    var news := log[r.view..to];
    if LastCheckpoint(news).Some? {
      var j := LastCheckpointAt(news);
      assert CheckpointOf(log[r.view + j]) == LastCheckpoint(news);
    }
  }

  /** A new process is justified wherever its metadata and its store were read. */
  lemma {:induction false} RehydrateOk(w: Watched, log: Log, to: nat, known: nat)
    requires WellFormed(w.frames) && LogSound(w, log) && to <= known <= |log|
    ensures RuntimeOk(w, log, Rehydrate(log, to, known))
  {
    LearnOk(w, log, NEW, known);
  }

  lemma {:induction false} StretchIsSafe(w: Watched, log: Log, from: nat, to: nat)
    requires WellFormed(w.frames) && LogSound(w, log) && from <= to <= |log| && MaxSafe(log[from..to]) >= 0
    ensures SafeOk(w, log, MaxSafe(log[from..to]))
  {
    var news := log[from..to];
    MaxSafeSpec(news);
    var i :| 0 <= i < |news| && SafeOf(news[i]) == MaxSafe(news);
    SoundIsSafe(w, log, from + i);
  }

  lemma {:induction false} SoundIsSafe(w: Watched, log: Log, j: nat)
    requires WellFormed(w.frames) && LogSound(w, log) && j < |log| && SafeOf(log[j]) >= 0
    ensures SafeOk(w, log, SafeOf(log[j]))
  {
    SoundAt(w, log, j);
    KeysPrefix(log, j);
    KeyIn(log, j);
    if log[j].Finished? {
      assert Ends(w, log[j]);
    }
  }

  // ---------------------------------------------------------------- receiving a frame

  lemma {:induction false} BeginOk(w: Watched, log: Log, r: Runtime)
    requires WellFormed(w.frames) && LogSound(w, log) && RuntimeOk(w, log, r)
    ensures ObservationOk(w, log, Begin(log, r))
  {
    TextIdGrows(log[..r.view], log[r.view..]);
    assert log == log[..r.view] + log[r.view..];
  }

  /** A frame known to be durable is not a usage frame. */
  lemma {:induction false} DurableIsMatched(w: Watched, log: Log, k: nat)
    requires LogSound(w, log) && k in Keys(log)
    ensures k < |w.frames| && !w.frames[k].Usage?
  {
    var j := KeyAt(log, k);
    SoundAt(w, log, j);
  }

  lemma {:induction false} AdvanceOk(w: Watched, log: Log, o: Observation, identified: bool, keys: set<nat>, k: nat)
    requires WellFormed(w.frames) && LogSound(w, log) && ObservationOk(w, log, o)
    requires k < |w.frames| && keys <= Keys(log)
    requires Judge(o, identified, keys, k, w.frames[k]).Duplicate?
    ensures ObservationOk(w, log, Advance(o, Duplicate, k, w.frames[k]))
  {
    if k == o.expected {
      DurableIsMatched(w, log, k);
      DraftsOkGrows(w, Keys(log), Keys(log), o.expected, o.expected + 1, o.drafts);
      assert Covered(w, Keys(log) + Keys(o.drafts), o.expected + 1);
      assert Quiet(w, o.expected) && !w.frames[k].Done? ==> Quiet(w, o.expected + 1);
    }
  }

  lemma {:induction false} PushDraft(w: Watched, keys: set<nat>, n: nat, drafts: Log, e: Event)
    requires DraftsOk(w, keys, n, drafts) && DraftOk(w, keys, n, drafts, e)
    ensures DraftsOk(w, keys, n, drafts + [e])
    ensures Keys(drafts + [e]) == Keys(drafts) + {e.sequence}
  {
    KeysSnoc(drafts, e);
    assert (drafts + [e])[..|drafts|] == drafts;
  }

  lemma {:induction false} PushMessage(log: Log, message: Option<nat>, drafts: Log, e: Event)
    requires MessagesOk(log, message, drafts)
    requires IsText(e) ==> message == Some(e.payload.message)
    requires e.Effect? && e.payload.Linked? ==> message == Some(e.payload.message)
    ensures MessagesOk(log, message, drafts + [e])
  {
    var all := drafts + [e];
    TextIdSnoc(drafts, e);
    forall j | 0 <= j < |all| && all[j].Effect? && all[j].payload.Linked?
      ensures message == Some(all[j].payload.message) && (TextId(log).Some? || TextId(all[..j]).Some?)
    {
      if j < |drafts| {
        assert all[..j] == drafts[..j];
      } else {
        assert all[..j] == drafts;
      }
    }
  }

  lemma {:induction false} PendingTail(w: Watched, n: nat, drafted: set<nat>, pending: seq<(nat, nat)>)
    requires PendingOk(w, n, drafted, pending) && pending != []
    ensures PendingOk(w, n, drafted + {pending[0].0}, pending[1..])
  {
  }

  /** The citation frames that waited for a message follow the text that creates it. */
  lemma {:induction false} PushLinks(
    w: Watched, log: Log, n: nat, drafts: Log, m: nat, pending: seq<(nat, nat)>, all: Log)
    requires DraftsOk(w, Keys(log), n, drafts) && MessagesOk(log, Some(m), drafts)
    requires Covered(w, Keys(log) + Keys(drafts), n) && PendingOk(w, n, Keys(drafts), pending)
    requires all == drafts + LinksFor(m, pending)
    ensures DraftsOk(w, Keys(log), n, all) && MessagesOk(log, Some(m), all)
    ensures Covered(w, Keys(log) + Keys(all), n)
    decreases |pending|
  {
    if pending == [] {
      assert all == drafts;
    } else {
      var e := Effect(pending[0].0, false, Linked(m, pending[0].1));
      assert all == drafts + [e] + LinksFor(m, pending[1..]);
      PushDraft(w, Keys(log), n, drafts, e);
      PushMessage(log, Some(m), drafts, e);
      PendingTail(w, n, Keys(drafts), pending);
      PushLinks(w, log, n, drafts + [e], m, pending[1..], all);
    }
  }

  lemma {:induction false} KeysBelow(w: Watched, keys: set<nat>, n: nat, drafts: Log)
    requires DraftsOk(w, keys, n, drafts)
    ensures forall k :: k in Keys(drafts) ==> k < n
  {
    if drafts != [] {
      KeysBelow(w, keys, n, drafts[..|drafts| - 1]);
    }
  }

  lemma {:induction false} PushNext(w: Watched, keys: set<nat>, k: nat, drafts: Log, e: Event)
    requires DraftsOk(w, keys, k, drafts) && Covered(w, keys + Keys(drafts), k)
    requires e.Effect? && e.sequence == k && Matches(w, e) && (e.resumeSafe ==> Quiet(w, k))
    ensures DraftsOk(w, keys, k + 1, drafts + [e])
    ensures Keys(drafts + [e]) == Keys(drafts) + {k}
    ensures Covered(w, keys + Keys(drafts + [e]), k + 1)
  {
    DraftsOkGrows(w, keys, keys, k, k + 1, drafts);
    KeysBelow(w, keys, k, drafts);
    PushDraft(w, keys, k + 1, drafts, e);
  }

  lemma {:induction false} PendingGrows(w: Watched, n: nat, drafted: set<nat>, pending: seq<(nat, nat)>)
    requires PendingOk(w, n, drafted, pending)
    ensures PendingOk(w, n + 1, drafted + {n}, pending)
  {
  }

  lemma {:induction false} TextDrafts(w: Watched, log: Log, k: nat, message: Option<nat>, drafts: Log, e: Event,
                   pending: seq<(nat, nat)>, m: nat, all: Log)
    requires DraftsOk(w, Keys(log), k, drafts) && MessagesOk(log, message, drafts)
    requires Covered(w, Keys(log) + Keys(drafts), k) && PendingOk(w, k, Keys(drafts), pending)
    requires IsText(e) && e.sequence == k && Matches(w, e) && (e.resumeSafe ==> Quiet(w, k))
    requires e.payload.message == m && (message.Some? ==> message.value == m)
    requires all == drafts + [e] + LinksFor(m, pending)
    ensures DraftsOk(w, Keys(log), k + 1, all) && MessagesOk(log, Some(m), all)
    ensures Covered(w, Keys(log) + Keys(all), k + 1)
  {
    PushNext(w, Keys(log), k, drafts, e);
    FirstText(log, message, drafts, e, m);
    PendingGrows(w, k, Keys(drafts), pending);
    PushLinks(w, log, k + 1, drafts + [e], m, pending, all);
  }

  lemma {:induction false} FirstText(log: Log, message: Option<nat>, drafts: Log, e: Event, m: nat)
    requires MessagesOk(log, message, drafts) && IsText(e) && e.payload.message == m
    requires message.Some? ==> message.value == m
    ensures MessagesOk(log, Some(m), drafts + [e])
  {
    TextIdSnoc(drafts, e);
    if message.Some? {
      PushMessage(log, message, drafts, e);
    }
  }

  /** The drafts after frame `k` was accepted, and what they rest on. */
  predicate Grown(w: Watched, log: Log, k: nat, message: Option<nat>, drafts: Log, pending: seq<(nat, nat)>) {
    && DraftsOk(w, Keys(log), k + 1, drafts)
    && MessagesOk(log, message, drafts)
    && Covered(w, Keys(log) + Keys(drafts), k + 1)
    && PendingOk(w, k + 1, Keys(drafts), pending)
  }

  lemma {:induction false} GrownText(w: Watched, log: Log, o: Observation, m: nat, all: Log)
    requires ObservationOk(w, log, o) && o.expected < |w.frames|
    requires w.frames[o.expected].Text? && w.frames[o.expected].delta != ""
    requires o.message.Some? ==> o.message.value == m
    requires all ==
             o.drafts + ([Effect(o.expected, !o.unsafe, Appended(m, w.frames[o.expected].delta))]
                 + LinksFor(m, o.pending))
    ensures Grown(w, log, o.expected, Some(m), all, [])
  {
    var e := Effect(o.expected, !o.unsafe, Appended(m, w.frames[o.expected].delta));
    assert all == o.drafts + [e] + LinksFor(m, o.pending);
    TextDrafts(w, log, o.expected, o.message, o.drafts, e, o.pending, m, all);
  }

  lemma {:induction false} GrownEffect(w: Watched, log: Log, o: Observation, e: Event)
    requires ObservationOk(w, log, o) && o.expected < |w.frames|
    requires e.Effect? && e.sequence == o.expected && Matches(w, e) && e.resumeSafe == !o.unsafe && !IsText(e)
    requires e.payload.Linked? ==> o.message == Some(e.payload.message)
    ensures Grown(w, log, o.expected, o.message, o.drafts + [e], o.pending)
  {
    PushNext(w, Keys(log), o.expected, o.drafts, e);
    PushMessage(log, o.message, o.drafts, e);
    PendingGrows(w, o.expected, Keys(o.drafts), o.pending);
  }

  lemma {:induction false} GrownSilently(w: Watched, log: Log, o: Observation, pending: seq<(nat, nat)>)
    requires ObservationOk(w, log, o) && o.expected < |w.frames| && !Lasting(w.frames[o.expected])
    requires pending == o.pending || pending == [] ||
             (w.frames[o.expected].Citations? && pending == o.pending + [(o.expected, w.frames[o.expected].batch)])
    ensures Grown(w, log, o.expected, o.message, o.drafts + [], pending)
  {
    assert o.drafts + [] == o.drafts;
    DraftsOkGrows(w, Keys(log), Keys(log), o.expected, o.expected + 1, o.drafts);
    KeysBelow(w, Keys(log), o.expected, o.drafts);
    PendingGrows(w, o.expected, Keys(o.drafts), o.pending);
  }

  lemma {:induction false} GrownAccepted(w: Watched, log: Log, o: Observation, minted: nat)
    requires ObservationOk(w, log, o) && o.expected < |w.frames|
    ensures var k, f := o.expected, w.frames[o.expected];
            Grown(w, log, k, MessageAfter(o, f, minted), o.drafts + Added(o, k, f, minted), PendingAfter(o, k, f))
  {
    var k := o.expected;
    match w.frames[k]
    case Started => GrownEffect(w, log, o, Effect(k, !o.unsafe, Running));
    case ToolCall(c) => GrownEffect(w, log, o, Effect(k, !o.unsafe, Requested(c)));
    case Text(d) =>
      if d == "" {
        GrownSilently(w, log, o, o.pending);
      } else {
        var m := if o.message.Some? then o.message.value else minted;
        GrownText(w, log, o, m, o.drafts + Added(o, k, Text(d), minted));
      }
    case Citations(b) =>
      if o.message.Some? {
        GrownEffect(w, log, o, Effect(k, !o.unsafe, Linked(o.message.value, b)));
      } else {
        GrownSilently(w, log, o, o.pending + [(k, b)]);
      }
    case Usage => GrownSilently(w, log, o, o.pending);
    case Done(outcome) => GrownSilently(w, log, o, if outcome.Completed? then o.pending else []);
  }

  lemma {:induction false} Assemble(w: Watched, log: Log, o: Observation, next: Observation)
    requires WellFormed(w.frames) && ObservationOk(w, log, o) && o.expected < |w.frames|
    requires Grown(w, log, o.expected, next.message, next.drafts, next.pending)
    requires next.expected == o.expected + 1 && next.live == o.live + {o.expected}
    requires next.unsafe == (o.unsafe || w.frames[o.expected].Usage?) && next.last == w.frames[o.expected].Done?
    requires next.mark == o.mark ||
             (next.mark == Some(o.expected) && !o.unsafe && !w.frames[o.expected].Usage? && !w.frames[o.expected].Done?)
    ensures ObservationOk(w, log, next)
  {
  }

  lemma {:induction false} AdvanceThenDraft(o: Observation, k: nat, f: Frame, minted: nat)
    requires k == o.expected
    ensures var next := Draft(Advance(o, Accepted, k, f), k, f, minted);
            && next.expected == k + 1 && next.live == o.live + {k} && next.last == f.Done?
            && next.unsafe == (o.unsafe || f.Usage?)
            && next.message == MessageAfter(o, f, minted) && next.pending == PendingAfter(o, k, f)
            && next.drafts == o.drafts + Added(o, k, f, minted)
            && (next.mark == o.mark || (next.mark == Some(k) && !o.unsafe && !f.Usage? && !f.Done?))
  {
  }

  lemma {:induction false} AcceptedOk(w: Watched, log: Log, o: Observation, minted: nat)
    requires WellFormed(w.frames) && ObservationOk(w, log, o) && o.expected < |w.frames|
    ensures ObservationOk(w, log, Draft(Advance(o, Accepted, o.expected, w.frames[o.expected]),
                                        o.expected, w.frames[o.expected], minted))
  {
    var k, f := o.expected, w.frames[o.expected];
    GrownAccepted(w, log, o, minted);
    AdvanceThenDraft(o, k, f, minted);
    Assemble(w, log, o, Draft(Advance(o, Accepted, k, f), k, f, minted));
  }

  /** What `Receive` leaves of the runtime, by the frame's disposition. */
  lemma {:induction false} ReceiveCases(log: Log, r: Runtime, o: Observation, k: nat, f: Frame, minted: nat)
    requires Placed(log, r)
    ensures var d, next := Judge(o, r.identified, Keys(log[..r.known]), k, f), Receive(log, r, o, k, f, minted);
            && (d.Rejected? ==> next == Fail(r, o))
            && (d.Duplicate? ==> next == r.(observation := Some(Advance(o, Duplicate, k, f))))
            && (d.Accepted? ==>
                  next == r.(identified := true, observation := Some(Draft(Advance(o, Accepted, k, f), k, f, minted))))
  {}

  lemma {:induction false} FailOk(w: Watched, log: Log, r: Runtime, o: Observation)
    requires RuntimeOk(w, log, r) && r.observation == Some(o)
    ensures RuntimeOk(w, log, Fail(r, o))
  {}

  lemma {:induction false} ObserveOk(w: Watched, log: Log, r: Runtime, next: Runtime, o: Observation)
    requires RuntimeOk(w, log, r) && ObservationOk(w, log, o)
    requires next == r.(identified := next.identified, observation := Some(o))
    ensures RuntimeOk(w, log, next)
  {}

  lemma {:induction false} ReceiveOk(w: Watched, log: Log, r: Runtime, o: Observation, k: nat, minted: nat)
    requires WellFormed(w.frames) && LogSound(w, log) && RuntimeOk(w, log, r) && r.observation == Some(o)
    requires k < |w.frames|
    ensures RuntimeOk(w, log, Receive(log, r, o, k, w.frames[k], minted))
  {
    var keys, f := Keys(log[..r.known]), w.frames[k];
    var d, next := Judge(o, r.identified, keys, k, f), Receive(log, r, o, k, f, minted);
    ReceiveCases(log, r, o, k, f, minted);
    KeysPrefix(log, r.known);
    if d.Rejected? {
      FailOk(w, log, r, o);
    } else if d.Duplicate? {
      AdvanceOk(w, log, o, r.identified, keys, k);
      ObserveOk(w, log, r, next, Advance(o, Duplicate, k, f));
    } else {
      AcceptedOk(w, log, o, minted);
      ObserveOk(w, log, r, next, Draft(Advance(o, Accepted, k, f), k, f, minted));
    }
  }

  // ---------------------------------------------------------------- persisting

  lemma {:induction false} DurableText(w: Watched, log: Log, e: Event)
    requires LogSound(w, log) && IsText(e) && Matches(w, e) && e.sequence in Keys(log)
    ensures TextId(log).Some?
  {
    var j := KeyAt(log, e.sequence);
    SoundAt(w, log, j);
    assert IsText(log[j]);
    TextIdNone(log);
  }

  /** `all` is the log once the drafts are durable, each exactly once and with one message id. */
  predicate Flushed(w: Watched, log: Log, message: Option<nat>, drafts: Log, all: Log) {
    && LogSound(w, all)
    && Keys(all) == Keys(log) + Keys(drafts)
    && (TextId(log).Some? ==> TextId(all) == TextId(log))
    && (TextId(log).None? ==> (TextId(all).Some? <==> TextId(drafts).Some?))
    && (TextId(log).None? && TextId(all).Some? ==> TextId(all) == message)
  }

  /** Appending what is still missing keeps every event justified and makes every draft durable. */
  lemma {:induction false} OutgoingOk(w: Watched, log: Log, n: nat, message: Option<nat>, drafts: Log)
    requires LogSound(w, log) && DraftsOk(w, Keys(log), n, drafts) && Spoken(log, message, drafts)
    ensures Flushed(w, log, message, drafts, log + Outgoing(Keys(log), TextId(log), drafts))
    decreases |drafts|
  {
    var id := TextId(log);
    if drafts == [] {
      assert log + Outgoing(Keys(log), id, drafts) == log;
    } else {
      var init, e := drafts[..|drafts| - 1], drafts[|drafts| - 1];
      SpokenInit(log, message, drafts);
      OutgoingOk(w, log, n, message, init);
      var cur := log + Outgoing(Keys(log), id, init);
      if e.sequence in Keys(log) {
        assert log + Outgoing(Keys(log), id, drafts) == cur;
        OutgoingSkip(w, log, message, cur, drafts);
      } else {
        assert log + Outgoing(Keys(log), id, drafts) == cur + [Rebind(id, e)];
        OutgoingStep(w, log, n, message, cur, drafts);
      }
    }
  }

  lemma {:induction false} SpokenInit(log: Log, message: Option<nat>, drafts: Log)
    requires Spoken(log, message, drafts) && drafts != []
    ensures Spoken(log, message, drafts[..|drafts| - 1])
  {
    var init := drafts[..|drafts| - 1];
    assert forall j :: 0 <= j < |init| ==> init[j] == drafts[j] && init[..j] == drafts[..j];
  }

  lemma {:induction false} OutgoingSkip(w: Watched, log: Log, message: Option<nat>, cur: Log, drafts: Log)
    requires LogSound(w, log) && drafts != [] && Flushed(w, log, message, drafts[..|drafts| - 1], cur)
    requires Matches(w, drafts[|drafts| - 1]) && drafts[|drafts| - 1].Effect?
    requires drafts[|drafts| - 1].sequence in Keys(log)
    ensures Flushed(w, log, message, drafts, cur)
  {
    if IsText(drafts[|drafts| - 1]) {
      DurableText(w, log, drafts[|drafts| - 1]);
    }
  }

  lemma {:induction false} OutgoingStep(w: Watched, log: Log, n: nat, message: Option<nat>, cur: Log, drafts: Log)
    requires drafts != [] && Flushed(w, log, message, drafts[..|drafts| - 1], cur)
    requires DraftsOk(w, Keys(log), n, drafts) && Spoken(log, message, drafts)
    requires drafts[|drafts| - 1].sequence !in Keys(log)
    ensures Flushed(w, log, message, drafts, cur + [Rebind(TextId(log), drafts[|drafts| - 1])])
  {
    var e := drafts[|drafts| - 1];
    var e' := Rebind(TextId(log), e);
    assert Sound(w, cur, e');
    LogSoundSnoc(w, cur, e');
    KeysSnoc(cur, e');
    TextIdSnoc(cur, e');
  }

  /** What a flushed observation rests on once its drafts are durable. */
  lemma {:induction false} SettleOk(w: Watched, log: Log, r: Runtime, o: Observation)
    requires RuntimeOk(w, log, r) && ObservationOk(w, log, o)
    requires Keys(o.drafts) <= Keys(log)
    requires o.message.Some? ==> TextId(log).Some?
    ensures RuntimeOk(w, log, Settle(log, r, o))
  {
    TextIdGrows(log[..r.view], log[r.view..]);
    assert log == log[..r.view] + log[r.view..];
    assert Keys(log) + Keys(o.drafts) == Keys(log);
  }

  lemma {:induction false} NothingOutgoing(keys: set<nat>, id: Option<nat>, drafts: Log)
    requires Outgoing(keys, id, drafts) == []
    ensures Keys(drafts) <= keys
  {
    if drafts != [] {
      NothingOutgoing(keys, id, drafts[..|drafts| - 1]);
    }
  }

  lemma {:induction false} DurableDrafts(w: Watched, log: Log, n: nat, drafts: Log)
    requires LogSound(w, log) && DraftsOk(w, Keys(log), n, drafts) && Keys(drafts) <= Keys(log)
    ensures TextId(drafts).Some? ==> TextId(log).Some?
  {
    if drafts != [] {
      DurableDrafts(w, log, n, drafts[..|drafts| - 1]);
      if IsText(drafts[|drafts| - 1]) {
        DurableText(w, log, drafts[|drafts| - 1]);
      }
    }
  }

  lemma {:induction false} ConflictOk(w: Watched, log: Log, r: Runtime, o: Observation, to: nat)
    requires WellFormed(w.frames) && LogSound(w, log) && RuntimeOk(w, log, r) && ObservationOk(w, log, o)
    ensures RuntimeOk(w, log, Conflict(log, r, o, to))
  {
    LearnOk(w, log, r, to);
  }

  lemma {:induction false} FlushAppendOk(w: Watched, log: Log, r: Runtime, o: Observation)
    requires WellFormed(w.frames) && LogSound(w, log) && RuntimeOk(w, log, r) && r.observation == Some(o)
    requires r.view == |log|
    ensures var all := log + Outgoing(Keys(log), TextId(log), o.drafts);
            LogSound(w, all) && RuntimeOk(w, all, Settle(all, Learn(all, r, |all|), o))
  {
    var out := Outgoing(Keys(log), TextId(log), o.drafts);
    var all := log + out;
    OutgoingOk(w, log, o.expected, o.message, o.drafts);
    RuntimeOkGrows(w, log, out, r);
    LearnOk(w, all, r, |all|);
    SettleOk(w, all, Learn(all, r, |all|), o);
  }

  lemma {:induction false} FlushOk(w: Watched, log: Log, r: Runtime, o: Observation, to: nat)
    requires WellFormed(w.frames) && LogSound(w, log) && RuntimeOk(w, log, r) && r.observation == Some(o)
    ensures var (log', r') := FlushBatch(w, log, r, o, to); LogSound(w, log') && RuntimeOk(w, log', r')
  {
    var seen, keys := log[..r.view], Keys(log[..r.known]);
    if Outgoing(keys, TextId(seen), o.drafts) == [] {
      NothingOutgoing(keys, TextId(seen), o.drafts);
      KeysPrefix(log, r.known);
      DurableDrafts(w, log, o.expected, o.drafts);
      SettleOk(w, log, r, o);
    } else if r.view == |log| {
      assert seen == log && log[..r.known] == log;
      FlushAppendOk(w, log, r, o);
    } else {
      ConflictOk(w, log, r, o, to);
    }
  }

  // ---------------------------------------------------------------- ending and admitting

  lemma {:induction false} OverWhenDone(w: Watched, log: Log)
    requires LogSound(w, log) && WellFormed(w.frames) && |w.frames| - 1 in Keys(log)
    requires w.frames[|w.frames| - 1].Done?
    ensures TurnOver(w, log)
  {
    var j := KeyAt(log, |w.frames| - 1);
    SoundAt(w, log, j);
    assert Ends(w, log[j]);
  }

  /** Appending one justified event keeps the log sound and teaches its author. */
  lemma {:induction false} AppendOk(w: Watched, log: Log, r: Runtime, e: Event)
    requires WellFormed(w.frames) && LogSound(w, log) && RuntimeOk(w, log, r) && Sound(w, log, e)
    ensures LogSound(w, log + [e]) && RuntimeOk(w, log + [e], Learn(log + [e], r, |log| + 1))
  {
    LogSoundSnoc(w, log, e);
    RuntimeOkGrows(w, log, [e], r);
    LearnOk(w, log + [e], r, |log| + 1);
  }

  lemma {:induction false} FinishedIsSound(w: Watched, log: Log, o: Observation, raw: RawPoint, current: Option<Point>)
    requires WellFormed(w.frames) && LogSound(w, log) && ObservationOk(w, log, o)
    requires o.drafts == [] && o.last && w.frames[|w.frames| - 1].Done? && !TurnOver(w, log)
    requires !Validate(raw, current, |log| + 1).Refused?
    ensures var s := |w.frames| - 1;
            var outcome := w.frames[s].outcome;
            var id := if TextId(log).Some? then TextId(log) else o.message;
            var v := Validate(raw, current, |log| + 1);
            var point := if v.Valid? && Some(v.point) != current then Some(v.point) else None;
            Sound(w, log, Finished(s, outcome, if outcome.Completed? && id.Some? then [id.value] else [], point))
  {
    if |w.frames| - 1 in Keys(log) {
      OverWhenDone(w, log);
    }
    assert Keys(log) + Keys(o.drafts) == Keys(log);
  }

  lemma {:induction false} SafeAtEnd(w: Watched, log: Log, o: Observation)
    requires WellFormed(w.frames) && ObservationOk(w, log, o) && o.drafts == [] && o.last && TurnOver(w, log)
    ensures SafeOk(w, log, |w.frames| - 1)
  {
    assert Keys(log) + Keys(o.drafts) == Keys(log);
  }

  lemma {:induction false} FinishAppendOk(w: Watched, log: Log, r: Runtime, o: Observation, done: Event)
    requires WellFormed(w.frames) && LogSound(w, log) && RuntimeOk(w, log, r) && r.observation == Some(o)
    requires o.drafts == [] && o.last && done.Finished? && Sound(w, log, done)
    ensures LogSound(w, log + [done])
    ensures RuntimeOk(w, log + [done],
                      Learn(log + [done], r, |log| + 1).(safe := |w.frames| - 1, observation := None))
  {
    AppendOk(w, log, r, done);
    RuntimeOkGrows(w, log, [done], r);
    assert Ends(w, (log + [done])[|log|]);
    SafeAtEnd(w, log + [done], o);
  }

  lemma {:induction false} FinishOk(w: Watched, log: Log, r: Runtime, o: Observation, to: nat, raw: RawPoint)
    requires WellFormed(w.frames) && LogSound(w, log) && RuntimeOk(w, log, r) && r.observation == Some(o)
    requires o.drafts == [] && o.last && w.frames[|w.frames| - 1].Done?
    ensures var (log', r') := FinishTurn(w, log, r, o, to, raw); LogSound(w, log') && RuntimeOk(w, log', r')
  {
    var seen := log[..r.view];
    var verdict := Validate(raw, r.checkpoint, r.view + 1);
    if TurnOver(w, seen) {
      TurnOverGrows(w, seen, log[r.view..]);
      assert log == seen + log[r.view..];
      SafeAtEnd(w, log, o);
    } else if r.view == |log| && !verdict.Refused? {
      assert seen == log;
      FinishedIsSound(w, log, o, raw, r.checkpoint);
      var (log', r') := FinishTurn(w, log, r, o, to, raw);
      if log' != log {
        FinishAppendOk(w, log, r, o, log'[|log|]);
      }
    } else {
      ConflictOk(w, log, r, o, to);
    }
  }

  lemma {:induction false} ParkOk(w: Watched, log: Log, r: Runtime, o: Observation, to: nat, raw: RawPoint)
    requires WellFormed(w.frames) && LogSound(w, log) && RuntimeOk(w, log, r) && r.observation == Some(o)
    ensures var (log', r') := ParkTurn(w, log, r, o, to, raw); LogSound(w, log') && RuntimeOk(w, log', r')
  {
    var seen := log[..r.view];
    var verdict := Validate(raw, r.checkpoint, r.view);
    if r.view == |log| {
      assert seen == log;
      if verdict.Valid? && !TurnOver(w, log) {
        AppendOk(w, log, r, Checkpointed(verdict.point));
      }
    } else {
      ConflictOk(w, log, r, o, to);
    }
  }

  lemma {:induction false} AdmitOk(w: Watched, log: Log, r: Runtime, u: nat, to: nat)
    requires WellFormed(w.frames) && LogSound(w, log) && RuntimeOk(w, log, r)
    ensures var (log', r') := AdmitTurn(w, log, r, u, to); LogSound(w, log') && RuntimeOk(w, log', r')
  {
    if ActiveTurn(w, log[..r.view]).None? && r.view == |log| {
      assert log[..r.view] == log;
      AppendOk(w, log, r, Admitted(u));
    } else {
      LearnOk(w, log, r, to);
    }
  }

  // ---------------------------------------------------------------- every step, every run

  lemma {:induction false} FlushingOk(w: Watched, log: Log, r: Runtime, o: Observation, a: Action)
    requires WellFormed(w.frames) && LogSound(w, log) && RuntimeOk(w, log, r) && r.observation == Some(o) && o.flushing
    ensures var (log', r') := During(w, log, r, o, a); LogSound(w, log') && RuntimeOk(w, log', r')
  {
    match a
    case Flush(to) => FlushOk(w, log, r, o, to);
    case _ =>
  }

  lemma {:induction false} ReadingOk(w: Watched, log: Log, r: Runtime, o: Observation, a: Action)
    requires WellFormed(w.frames) && LogSound(w, log) && RuntimeOk(w, log, r) && r.observation == Some(o) && !o.flushing
    ensures var (log', r') := During(w, log, r, o, a); LogSound(w, log') && RuntimeOk(w, log', r')
  {
    match a
    case Deliver(k, minted) => if k < |w.frames| { ReceiveOk(w, log, r, o, k, minted); }
    case Finish(to, raw) =>
      if o.drafts == [] && o.last && w.frames[|w.frames| - 1].Done? { FinishOk(w, log, r, o, to, raw); }
    case Park(to, raw) => if o.drafts == [] && !o.last { ParkOk(w, log, r, o, to, raw); }
    case _ =>
  }

  lemma {:induction false} DuringOk(w: Watched, log: Log, r: Runtime, o: Observation, a: Action)
    requires WellFormed(w.frames) && LogSound(w, log) && RuntimeOk(w, log, r) && r.observation == Some(o)
    ensures var (log', r') := During(w, log, r, o, a); LogSound(w, log') && RuntimeOk(w, log', r')
  {
    if o.flushing { FlushingOk(w, log, r, o, a); } else { ReadingOk(w, log, r, o, a); }
  }

  lemma {:induction false} ActOk(w: Watched, log: Log, r: Runtime, a: Action)
    requires WellFormed(w.frames) && LogSound(w, log) && RuntimeOk(w, log, r)
    ensures var (log', r') := Act(w, log, r, a); LogSound(w, log') && RuntimeOk(w, log', r')
  {
    match a
    case Sync(to) => LearnOk(w, log, r, to);
    case Crash(to, known) => if to <= known <= |log| { RehydrateOk(w, log, to, known); }
    case Admit(u, to) => AdmitOk(w, log, r, u, to);
    case Observe => BeginOk(w, log, r);
    case _ => if r.observation.Some? { DuringOk(w, log, r, r.observation.value, a); }
  }

  /** No step rewrites the log; it only appends. */
  lemma {:induction false} ActAppends(w: Watched, log: Log, r: Runtime, a: Action)
    requires Placed(log, r) && -1 <= r.safe
    ensures log <= Act(w, log, r, a).0
  {
  }

  lemma {:induction false} UnansweredOk(w: Watched, log: Log, r: Runtime, e: Event)
    requires RuntimeOk(w, log, r)
    ensures RuntimeOk(w, log, Unanswered(r, e))
  {}

  /** Runtimes that learn nothing of an append, its author among them, stay as they should be. */
  lemma {:induction false} UnawareOk(w: Watched, s: System, log: Log, i: nat)
    requires Invariant(w, s) && LogSound(w, log) && s.log <= log && |s.log| < |log| && i < |s.runtimes|
    ensures Invariant(w, System(log, s.runtimes[i := Unanswered(s.runtimes[i], log[|s.log|])]))
  {
    assert log == s.log + log[|s.log|..];
    forall j | 0 <= j < |s.runtimes| ensures RuntimeOk(w, log, s.runtimes[j]) {
      RuntimeOkGrows(w, s.log, log[|s.log|..], s.runtimes[j]);
    }
    UnansweredOk(w, log, s.runtimes[i], log[|s.log|]);
  }

  lemma {:induction false} LostOk(w: Watched, s: System, i: nat, a: Action)
    requires Invariant(w, s) && Sane(s) && i < |s.runtimes|
    ensures Invariant(w, Next(w, s, Lost(i, a))) && s.log <= Next(w, s, Lost(i, a)).log
  {
    ActOk(w, s.log, s.runtimes[i], a);
    ActAppends(w, s.log, s.runtimes[i], a);
    var log := Act(w, s.log, s.runtimes[i], a).0;
    if |log| > |s.log| { UnawareOk(w, s, log, i); }
  }

  lemma {:induction false} NextOk(w: Watched, s: System, step: Step)
    requires Invariant(w, s)
    ensures Sane(s) && Invariant(w, Next(w, s, step)) && s.log <= Next(w, s, step).log
  {
    match step
    case World(e) =>
      if Outside(e) {
        LogSoundSnoc(w, s.log, e);
        forall i | 0 <= i < |s.runtimes| ensures RuntimeOk(w, s.log + [e], s.runtimes[i]) {
          RuntimeOkGrows(w, s.log, [e], s.runtimes[i]);
        }
      }
    case Lost(i, a) => if i < |s.runtimes| { LostOk(w, s, i, a); }
    case Local(i, a) =>
      if i < |s.runtimes| {
        ActOk(w, s.log, s.runtimes[i], a);
        ActAppends(w, s.log, s.runtimes[i], a);
        var (log, r) := Act(w, s.log, s.runtimes[i], a);
        forall j | 0 <= j < |s.runtimes| && j != i ensures RuntimeOk(w, log, s.runtimes[j]) {
          RuntimeOkGrows(w, s.log, log[|s.log|..], s.runtimes[j]);
          assert log == s.log + log[|s.log|..];
        }
      }
  }

  /** The state after the steps, from `n` fresh runtimes and an empty log. */
  function Exec(w: Watched, n: nat, steps: seq<Step>): (s: System)
    requires WellFormed(w.frames)
    ensures Invariant(w, s) && |s.runtimes| == n
  {
    if steps == [] then Initial(n)
    else
      var s := Exec(w, n, steps[..|steps| - 1]);
      NextOk(w, s, steps[|steps| - 1]);
      Next(w, s, steps[|steps| - 1])
  }
}
