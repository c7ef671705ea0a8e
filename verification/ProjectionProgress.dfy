/** Which responses can be brought to their terminal event at all: for each of them there is a run that does. */
module ProjectionProgress {
  import opened Options
  import opened Projection
  import opened ProjectionInvariant
  import opened ProjectionCitations
  import opened ProjectionRuns
  import opened ProjectionExceptions

  predicate HasWords(frames: seq<Frame>) { exists t :: 0 <= t < |frames| && Words(frames[t]) }

  /** Every citation batch can be passed while it waits for a text. */
  predicate AllSkippable(frames: seq<Frame>) {
    forall c :: 0 <= c < |frames| && frames[c].Citations? ==> Skippable(frames, c)
  }

  /** The response ends, and if it completes no citation batch is left without a message to link to. */
  predicate Finishable(frames: seq<Frame>) {
    && |frames| > 0 && frames[|frames| - 1].Done?
    && (frames[|frames| - 1].outcome.Completed? ==> HasWords(frames) || AllSkippable(frames))
  }

  /** The run is one that the code can make, and the terminal event is in the log. */
  ghost predicate FinishesIn(w: Watched, n: nat, steps: seq<Step>, j: nat) {
    && WellFormed(w.frames) && Possible(w, n, steps)
    && j < |Exec(w, n, steps).log| && Exec(w, n, steps).log[j].Finished?
  }

  // ---------------------------------------------------------------- only such responses

  lemma {:induction false} TextHasWords(w: Watched, log: Log)
    requires LogSound(w, log) && TextId(log).Some?
    ensures HasWords(w.frames)
  {
    TextIdNone(log);
    var i :| 0 <= i < |log| && IsText(log[i]);
    SoundAt(w, log, i);
    assert Words(w.frames[log[i].sequence]);
  }

  /** A batch that is before the terminal event was linked to a message, which some text began. */
  lemma {:induction false} LinkedBatchHasWords(w: Watched, n: nat, steps: seq<Step>, j: nat, c: nat)
    requires FinishesIn(w, n, steps, j) && c < |w.frames| && w.frames[c].Citations? && !Exposed(w.frames, c)
    ensures HasWords(w.frames)
  {
    var log := Exec(w, n, steps).log;
    SoundAt(w, log, j);
    CitationsBeforeTheEnd(w, n, steps, j, c);
    LinksHaveText(w, log[..j], c);
    TextHasWords(w, log[..j]);
  }

  lemma {:induction false} EndIsDone(w: Watched, n: nat, steps: seq<Step>, j: nat)
    requires FinishesIn(w, n, steps, j)
    ensures w.frames[|w.frames| - 1].Done?
  {
    var log := Exec(w, n, steps).log;
    SoundAt(w, log, j);
    SoundEndIsDone(w, log[..j], log[j]);
  }

  lemma {:induction false} SoundEndIsDone(w: Watched, before: Log, e: Event)
    requires WellFormed(w.frames) && e.Finished? && Sound(w, before, e)
    ensures w.frames[|w.frames| - 1].Done?
  {
    assert Matches(w, e);
    assert e.sequence == |w.frames| - 1;
  }

  lemma {:induction false} OnlyFinishable(w: Watched, n: nat, steps: seq<Step>, j: nat)
    requires FinishesIn(w, n, steps, j)
    ensures Finishable(w.frames)
  {
    EndIsDone(w, n, steps, j);
    if !HasWords(w.frames) && w.frames[|w.frames| - 1].outcome.Completed? {
      forall c | 0 <= c < |w.frames| && w.frames[c].Citations? ensures Skippable(w.frames, c) {
        if !Exposed(w.frames, c) { LinkedBatchHasWords(w, n, steps, j, c); }
      }
    }
  }

  // ---------------------------------------------------------------- all such responses

  lemma {:induction false} NothingPends(pending: seq<(nat, nat)>)
    ensures PendKeys(pending) == {} ==> pending == []
  {
    if pending != [] { assert pending[0].0 in PendKeys(pending); }
  }

  lemma {:induction false} PendingAreCitations(w: Watched, log: Log, r: Runtime, m: nat)
    requires RuntimeOk(w, log, r) && Ready(log, r, m)
    ensures forall k :: k in PendKeys(r.observation.value.pending) ==> k < m && k < |w.frames| && w.frames[k].Citations?
  {
    assert PendingOk(w, m, Keys(r.observation.value.drafts), r.observation.value.pending);
  }

  /** Reading over frames without citations: nothing comes to wait. */
  lemma {:induction false} ReadQuietly(
    w: Watched, n: nat, steps: seq<Step>, i: nat, a: nat, b: nat, log: Log, rs: seq<Runtime>)
    returns (more: seq<Step>, after: Log, next: Runtime)
    requires At(w, n, steps, System(log, rs)) && i < n == |rs| && Ready(log, rs[i], a) && !TurnOver(w, log)
    requires rs[i].observation.value.pending == [] && a <= b <= |w.frames| && forall k :: k in Keys(log) ==> k < a
    requires forall m :: a <= m < b ==> !w.frames[m].Done? && !w.frames[m].Citations?
    ensures At(w, n, steps + more, System(after, rs[i := next])) && Ready(after, next, b) && !TurnOver(w, after)
    ensures next.observation.value.pending == [] && forall k :: k in Keys(after) ==> k < b
    decreases b - a
  {
    if a == b {
      more, after, next := [], log, rs[i];
      assert steps + [] == steps && rs[i := next] == rs;
    } else {
      var first, mid, r := Proceed(w, n, steps, i, a, log, rs);
      AtOk(w, n, steps + first, System(mid, rs[i := r]), i);
      PendingAreCitations(w, mid, r, a + 1);
      NothingPends(r.observation.value.pending);
      var rest;
      rest, after, next := ReadQuietly(w, n, steps + first, i, a + 1, b, mid, rs[i := r]);
      more := first + rest;
      Append(steps, first, rest);
      Twice(rs, i, r, next);
    }
  }

  lemma {:induction false} LastCitations(frames: seq<Frame>, c: nat) returns (last: nat)
    requires c < |frames| && frames[c].Citations?
    ensures last < |frames| && frames[last].Citations? && forall m :: last < m < |frames| ==> !frames[m].Citations?
    decreases |frames| - c
  {
    if m :| c < m < |frames| && frames[m].Citations? { last := LastCitations(frames, m); } else { last := c; }
  }

  lemma {:induction false} EndsHere(w: Watched, steps: seq<Step>, log: Log, rs: seq<Runtime>, i: nat)
    returns (all: seq<Step>)
    requires At(w, 2, steps, System(log, rs)) && i < 2 == |rs| && Ready(log, rs[i], |w.frames| - 1)
    requires w.frames[|w.frames| - 1].Done? && |w.frames| - 1 !in Keys(log) && !TurnOver(w, log)
    requires w.frames[|w.frames| - 1].outcome.Completed? ==> rs[i].observation.value.pending == []
    ensures FinishesIn(w, 2, all, |log|)
  {
    var more, done, next := EndRun(w, 2, steps, i, |w.frames| - 1, log, rs);
    all := steps + more;
    Open(w, 2, all, System(log + [done], rs[i := next]));
  }

  /** One runtime reads everything and ends the response. */
  lemma {:induction false} ReadToTheEnd(w: Watched) returns (steps: seq<Step>, j: nat)
    requires WellFormed(w.frames) && w.frames[|w.frames| - 1].Done?
    requires w.frames[|w.frames| - 1].outcome.Completed? ==>
               HasWords(w.frames) || forall c :: 0 <= c < |w.frames| ==> !w.frames[c].Citations?
    ensures FinishesIn(w, 2, steps, j)
  {
    var d := |w.frames| - 1;
    var written, log, r := WriteTo(w, d);
    AtOk(w, 2, written, System(log, [r, WATCHING]), 0);
    if HasWords(w.frames) {
      var t :| 0 <= t < |w.frames| && Words(w.frames[t]);
      NothingWaits(w, log, r, d, t);
    } else {
      PendingAreCitations(w, log, r, d);
      if w.frames[d].outcome.Completed? { NothingPends(r.observation.value.pending); }
    }
    steps := EndsHere(w, written, log, [r, WATCHING], 0);
    j := |log|;
  }

  /** Another runtime passes the last batch, begins anew behind it, and ends the response. */
  lemma {:induction false} SkipToTheEnd(w: Watched, c: nat) returns (steps: seq<Step>, j: nat)
    requires WellFormed(w.frames) && w.frames[|w.frames| - 1].Done?
    requires c < |w.frames| && w.frames[c].Citations? && Skippable(w.frames, c)
    requires forall m :: c < m < |w.frames| ==> !w.frames[m].Citations?
    ensures FinishesIn(w, 2, steps, j)
  {
    var k0 :| c < k0 < |w.frames| && PassedBy(w.frames, c, k0);
    var k := FirstTool(w.frames, c, k0);
    var written, log, r := WriteTo(w, c);
    WrittenBefore(w, written, log, r, c);
    var skipped, l1, f := SkipRun(w, written, log, r, c, k);
    var again, g := StartOver(w, written + skipped, l1, r, f, k);
    var s1 := written + skipped + again;
    DoneIsLast(w.frames, k + 1, |w.frames| - 1);
    var rest, after, next := ReadQuietly(w, 2, s1, 1, k + 1, |w.frames| - 1, l1, [r, g]);
    steps := EndsHere(w, s1 + rest, after, [r, g][1 := next], 1);
    j := |after|;
  }

  /** A response can be brought to its terminal event exactly when it is finishable. */
  lemma {:induction false} FinishesIff(w: Watched)
    requires WellFormed(w.frames)
    ensures (exists n, steps, j :: FinishesIn(w, n, steps, j)) <==> Finishable(w.frames)
  {
    if n, steps, j :| FinishesIn(w, n, steps, j) { OnlyFinishable(w, n, steps, j); }
    if Finishable(w.frames) {
      var steps, j;
      if c: nat :| c < |w.frames| && w.frames[c].Citations? && Skippable(w.frames, c) && !HasWords(w.frames)
                   && AllSkippable(w.frames) {
        var last := LastCitations(w.frames, c);
        steps, j := SkipToTheEnd(w, last);
      } else {
        steps, j := ReadToTheEnd(w);
      }
    }
  }

  // ---------------------------------------------------------------- from every reachable state

  /** The turn runs, and nothing keeps its response from ending. */
  ghost predicate Endable(w: Watched, log: Log) {
    && Admitted(w.turn) in log && !TurnOver(w, log) && w.frames != [] && w.frames[|w.frames| - 1].Done?
    && (w.frames[|w.frames| - 1].outcome.Completed? ==>
          HasWords(w.frames) || forall c :: 0 <= c < |w.frames| ==> !w.frames[c].Citations?)
  }

  /** While the turn runs, what the log holds of the response is before its last frame. */
  lemma {:induction false} KeysBeforeTheEnd(w: Watched, log: Log, k: nat)
    requires WellFormed(w.frames) && LogSound(w, log) && !TurnOver(w, log) && w.frames[|w.frames| - 1].Done?
    requires k in Keys(log)
    ensures k < |w.frames| - 1
  {
    var j := KeyAt(log, k);
    SoundAt(w, log, j);
    assert !Ends(w, log[j]);
    assert Matches(w, log[j]);
  }

  lemma {:induction false} SafeBeforeTheEnd(w: Watched, log: Log)
    requires WellFormed(w.frames) && LogSound(w, log) && !TurnOver(w, log) && w.frames[|w.frames| - 1].Done?
    ensures -1 <= MaxSafe(log) < |w.frames| - 1 && (MaxSafe(log) >= 0 ==> Keys(log) != {})
  {
    MaxSafeSpec(log);
    if MaxSafe(log) >= 0 {
      var j :| 0 <= j < |log| && SafeOf(log[j]) == MaxSafe(log);
      assert !Ends(w, log[j]);
      KeyIn(log, j);
      KeysBeforeTheEnd(w, log, MaxSafe(log));
    }
  }

  /** What a new process knows of the whole log. */
  lemma {:induction false} Reborn(w: Watched, log: Log)
    ensures var r := Rehydrate(log, |log|, |log|);
            && r.view == r.known == |log| && r.observation.None? && (log != [] ==> r.identified == (Keys(log) != {}))
            && (log != [] ==> r.safe == if MaxSafe(log) > -1 then MaxSafe(log) else -1)
            && (log != [] ==> r.checkpoint == LastCheckpoint(log))
  {
    assert log[0..|log|] == log;
  }

  /** A runtime starts anew and observes from the last safe frame on. */
  lemma {:induction false} StartAnew(w: Watched, n: nat, steps: seq<Step>, i: nat, log: Log, rs: seq<Runtime>)
    returns (more: seq<Step>, g: Runtime, a: nat)
    requires At(w, n, steps, System(log, rs)) && i < n == |rs| && Endable(w, log)
    ensures At(w, n, steps + more, System(log, rs[i := g])) && Ready(log, g, a) && a < |w.frames|
    ensures g.observation.value.pending == [] && g.observation.value.message == TextId(log)
  {
    AtOk(w, n, steps, System(log, rs), i);
    SafeBeforeTheEnd(w, log);
    Reborn(w, log);
    var crash := Crash(|log|, |log|);
    var b := Rehydrate(log, |log|, |log|);
    assert Act(w, log, rs[i], crash) == (log, b);
    Did(w, n, steps, System(log, rs), i, crash, log, b);
    assert log[..|log|] == log;
    g := ObserveRun(w, n, steps + [Local(i, crash)], i, log, rs[i := b]);
    Twice(rs, i, b, g);
    more := [Local(i, crash), Local(i, Observe)];
    Thrice(steps, Local(i, crash), Local(i, Observe));
    a := b.safe + 1;
  }

  /** A runtime starts anew and reads up to the last frame. */
  lemma {:induction false} ReadAnew(w: Watched, n: nat, steps: seq<Step>, i: nat, log: Log, rs: seq<Runtime>)
    returns (more: seq<Step>, after: Log, r: Runtime)
    requires At(w, n, steps, System(log, rs)) && i < n == |rs| && Endable(w, log)
    ensures At(w, n, steps + more, System(after, rs[i := r])) && Ready(after, r, |w.frames| - 1) && log <= after
    ensures |w.frames| - 1 !in Keys(after) && !TurnOver(w, after)
    ensures Aware(after, r.observation.value) && Tidy(r.observation.value)
  {
    var d := |w.frames| - 1;
    AtOk(w, n, steps, System(log, rs), i);
    if d in Keys(log) { KeysBeforeTheEnd(w, log, d); }
    var again, g, a := StartAnew(w, n, steps, i, log, rs);
    DoneIsLast(w.frames, a, d);
    var rest;
    rest, after, r := ReadTo(w, n, steps + again, i, a, d, log, rs[i := g]);
    more := again + rest;
    Twice(rs, i, g, r);
    Append(steps, again, rest);
  }

  /** A reader at the last frame ends the response. */
  lemma {:induction false} EndAnew(w: Watched, n: nat, steps: seq<Step>, i: nat, log: Log, rs: seq<Runtime>)
    returns (more: seq<Step>)
    requires At(w, n, steps, System(log, rs)) && i < n == |rs| && Endable(w, log) && Ready(log, rs[i], |w.frames| - 1)
    requires |w.frames| - 1 !in Keys(log)
    requires Aware(log, rs[i].observation.value) && Tidy(rs[i].observation.value)
    ensures FinishesIn(w, n, steps + more, |log|)
  {
    NothingLeft(w, n, steps, i, |w.frames| - 1, log, rs);
    var done, next;
    more, done, next := EndRun(w, n, steps, i, |w.frames| - 1, log, rs);
    Open(w, n, steps + more, System(log + [done], rs[i := next]));
  }

  /**
   From every state that a possible run reaches while the turn runs, whatever was lost or crashed before, any one
   runtime can start anew, read the rest of the response and bring it to its terminal event.
   */
  lemma {:induction false} CanAlwaysFinish(w: Watched, n: nat, steps: seq<Step>, i: nat)
    returns (more: seq<Step>, j: nat)
    requires WellFormed(w.frames) && Possible(w, n, steps) && i < n && Endable(w, Exec(w, n, steps).log)
    ensures FinishesIn(w, n, steps + more, j) && j >= |Exec(w, n, steps).log|
  {
    var log, rs := Exec(w, n, steps).log, Exec(w, n, steps).runtimes;
    assert At(w, n, steps, System(log, rs));
    var read, after, r := ReadAnew(w, n, steps, i, log, rs);
    var end := EndAnew(w, n, steps + read, i, after, rs[i := r]);
    more, j := read + end, |after|;
    Append(steps, read, end);
  }

  /** Before the end of a completed response nothing waits. */
  lemma {:induction false} NothingLeft(w: Watched, n: nat, steps: seq<Step>, i: nat, d: nat, log: Log, rs: seq<Runtime>)
    requires At(w, n, steps, System(log, rs)) && i < n == |rs| && Ready(log, rs[i], d) && d == |w.frames| - 1
    requires Aware(log, rs[i].observation.value) && Tidy(rs[i].observation.value) && w.frames[d].Done?
    requires w.frames[d].outcome.Completed? ==>
               HasWords(w.frames) || forall c :: 0 <= c < |w.frames| ==> !w.frames[c].Citations?
    ensures w.frames[d].outcome.Completed? ==> rs[i].observation.value.pending == []
  {
    AtOk(w, n, steps, System(log, rs), i);
    if HasWords(w.frames) {
      var t :| 0 <= t < |w.frames| && Words(w.frames[t]);
      NothingWaits(w, log, rs[i], d, t);
    } else {
      PendingAreCitations(w, log, rs[i], d);
      NothingPends(rs[i].observation.value.pending);
    }
  }

  // ---------------------------------------------------------------- what a flush writes

  /** The draft as it is written: only its message id may be another, the one that the log has already. */
  predicate WrittenAs(id: Option<nat>, draft: Event, e: Event) {
    && draft.Effect? && e.Effect? && e.sequence == draft.sequence && e.resumeSafe == draft.resumeSafe
    && match draft.payload
       case Appended(m, text) => e.payload == Appended(if id.Some? then id.value else m, text)
       case Linked(m, batch) => e.payload == Linked(if id.Some? then id.value else m, batch)
       case _ => e.payload == draft.payload
  }

  /** The event is one of the drafts that are not durable. */
  ghost predicate ComesFrom(keys: set<nat>, id: Option<nat>, drafts: Log, e: Event) {
    exists j :: 0 <= j < |drafts| && WrittenAs(id, drafts[j], e) && drafts[j].sequence !in keys
  }

  ghost predicate GoesTo(id: Option<nat>, draft: Event, out: Log) {
    exists i :: 0 <= i < |out| && WrittenAs(id, draft, out[i])
  }

  /** Exactly the drafts that are not durable, as they are written. */
  ghost predicate WritesMissing(keys: set<nat>, id: Option<nat>, drafts: Log, out: Log) {
    && (forall i :: 0 <= i < |out| ==> ComesFrom(keys, id, drafts, out[i]))
    && (forall j :: 0 <= j < |drafts| && drafts[j].Effect? && drafts[j].sequence !in keys ==>
          GoesTo(id, drafts[j], out))
  }

  lemma {:induction false} ComesFromMore(keys: set<nat>, id: Option<nat>, drafts: Log, d: Event, e: Event)
    ensures ComesFrom(keys, id, drafts, e) ==> ComesFrom(keys, id, drafts + [d], e)
    ensures WrittenAs(id, d, e) && d.sequence !in keys ==> ComesFrom(keys, id, drafts + [d], e)
  {
    var more := drafts + [d];
    if ComesFrom(keys, id, drafts, e) {
      var j :| 0 <= j < |drafts| && WrittenAs(id, drafts[j], e) && drafts[j].sequence !in keys;
      assert more[j] == drafts[j];
    }
    assert more[|drafts|] == d;
  }

  lemma {:induction false} GoesToMore(id: Option<nat>, draft: Event, out: Log, e: Event)
    ensures GoesTo(id, draft, out) ==> GoesTo(id, draft, out + [e])
    ensures WrittenAs(id, draft, e) ==> GoesTo(id, draft, out + [e])
  {
    var more := out + [e];
    if GoesTo(id, draft, out) {
      var i :| 0 <= i < |out| && WrittenAs(id, draft, out[i]);
      assert more[i] == out[i];
    }
    assert more[|out|] == e;
  }

  lemma {:induction false} MissingSnoc(keys: set<nat>, id: Option<nat>, drafts: Log, e: Event, out: Log)
    requires WritesMissing(keys, id, drafts, out) && e.Effect?
    ensures WritesMissing(keys, id, drafts + [e], out + if e.sequence in keys then [] else [Rebind(id, e)])
  {
    var more, all := drafts + [e], out + if e.sequence in keys then [] else [Rebind(id, e)];
    assert WrittenAs(id, e, Rebind(id, e));
    forall i | 0 <= i < |all| ensures ComesFrom(keys, id, more, all[i]) {
      ComesFromMore(keys, id, drafts, e, all[i]);
      if i < |out| { assert all[i] == out[i]; }
    }
    forall j | 0 <= j < |more| && more[j].Effect? && more[j].sequence !in keys ensures GoesTo(id, more[j], all) {
      GoesToMore(id, more[j], out, Rebind(id, e));
      if j < |drafts| { assert more[j] == drafts[j]; }
      if e.sequence in keys { assert all == out; }
    }
  }

  lemma {:induction false} OutgoingIsMissing(keys: set<nat>, id: Option<nat>, drafts: Log)
    requires forall j :: 0 <= j < |drafts| ==> drafts[j].Effect?
    ensures WritesMissing(keys, id, drafts, Outgoing(keys, id, drafts))
  {
    if drafts != [] {
      var init, e := drafts[..|drafts| - 1], drafts[|drafts| - 1];
      OutgoingIsMissing(keys, id, init);
      MissingSnoc(keys, id, init, e, Outgoing(keys, id, init));
      assert drafts == init + [e];
    }
  }

  /** A flush that is rebased after a conflict leaves an ended or inactive turn alone, but for its citations. */
  predicate StaysInTurn(w: Watched, seen: Log, attempts: nat, out: Log) {
    attempts > 0 && (exists i :: 0 <= i < |out| && out[i].Effect? && !out[i].payload.Linked?) ==>
      !TurnOver(w, seen) && ActiveTurn(w, seen) == Some(w.turn)
  }

  /**
   An up-to-date runtime's flush writes exactly its drafts that are not durable, or gives the batch up because the turn
   is no longer active.
   */
  lemma {:induction false} FlushWrites(w: Watched, log: Log, r: Runtime, o: Observation, to: nat)
    requires WellFormed(w.frames) && RuntimeOk(w, log, r) && r.observation == Some(o) && o.flushing
    requires r.view == r.known == |log|
    ensures var (all, next) := Act(w, log, r, Flush(to));
            var out := Outgoing(Keys(log), TextId(log), o.drafts);
            && WritesMissing(Keys(log), TextId(log), o.drafts, out)
            && (if StaysInTurn(w, log, o.attempts, out) then all == log + out else all == log && next.observation.None?)
  {
    assert log[..r.view] == log && log[..r.known] == log;
    forall j | 0 <= j < |o.drafts| ensures o.drafts[j].Effect? { DraftAt(w, Keys(log), o.expected, o.drafts, j); }
    OutgoingIsMissing(Keys(log), TextId(log), o.drafts);
    OutgoingEffects(Keys(log), TextId(log), o.drafts);
    if Outgoing(Keys(log), TextId(log), o.drafts) == [] { assert log + [] == log; }
  }

  lemma {:induction false} OutgoingEffects(keys: set<nat>, id: Option<nat>, drafts: Log)
    requires forall j :: 0 <= j < |drafts| ==> drafts[j].Effect?
    ensures forall i :: 0 <= i < |Outgoing(keys, id, drafts)| ==> Outgoing(keys, id, drafts)[i].Effect?
  {
    if drafts != [] { OutgoingEffects(keys, id, drafts[..|drafts| - 1]); }
  }

  /** A frame that is refused or does not parse ends the observation, but what was read before it is still written. */
  lemma {:induction false} PrefixSurvives(w: Watched, log: Log, r: Runtime, o: Observation, bad: Action)
    requires WellFormed(w.frames) && RuntimeOk(w, log, r) && r.view == r.known == |log|
    requires r.observation == Some(o) && o.drafts != [] && !o.flushing && o.attempts == 0
    requires || bad.Spoil?
             || (&& bad.Deliver? && bad.k < |w.frames| && Joins(o, w.frames[bad.k])
                 && Judge(o, r.identified, Keys(log), bad.k, w.frames[bad.k]).Rejected?)
    ensures var (l1, failing) := Act(w, log, r, bad);
            var (l2, ended) := Act(w, l1, failing, Flush(0));
            && l1 == log && failing.observation.Some? && l2 == log + Outgoing(Keys(log), TextId(log), o.drafts)
            && ended.observation.None?
  {
    assert log[..r.view] == log && log[..r.known] == log;
    var failing := r.(observation := Some(o.(flushing := true, failing := true)));
    assert Act(w, log, r, bad) == (log, failing);
    if Outgoing(Keys(log), TextId(log), o.drafts) == [] { assert log + [] == log; }
  }

  // ---------------------------------------------------------------- which turn is active

  predicate EndsTurn(w: Watched, e: Event, u: nat) { e == Settled(u) || (e.Finished? && u == w.turn) }

  /** The turn was admitted at `i`, and nothing later admits a turn or ends this one. */
  predicate ActiveSince(w: Watched, log: Log, u: nat, i: nat) {
    && i < |log| && log[i] == Admitted(u)
    && forall k :: i < k < |log| ==> !log[k].Admitted? && !EndsTurn(w, log[k], u)
  }

  lemma {:induction false} ActiveIsSince(w: Watched, log: Log, u: nat)
    ensures ActiveTurn(w, log) == Some(u) <==> exists i: nat :: ActiveSince(w, log, u, i)
  {
    if log != [] {
      var init, e := log[..|log| - 1], log[|log| - 1];
      ActiveIsSince(w, init, u);
      if i: nat :| ActiveSince(w, init, u, i) {
        if !e.Admitted? && !EndsTurn(w, e, u) { assert ActiveSince(w, log, u, i); }
      }
      if i: nat :| ActiveSince(w, log, u, i) {
        if i < |init| { assert ActiveSince(w, init, u, i); }
      }
      if e == Admitted(u) { assert ActiveSince(w, log, u, |init|); }
    }
  }

  /** An up-to-date runtime admits a turn exactly when none is active, and then it is the active one. */
  lemma {:induction false} AdmitsWhenFree(w: Watched, log: Log, r: Runtime, u: nat, to: nat)
    requires r.view == r.known == |log| && -1 <= r.safe && !Gathering(r)
    ensures var all := Act(w, log, r, Admit(u, to)).0;
            if ActiveTurn(w, log).None? then all == log + [Admitted(u)] && ActiveTurn(w, all) == Some(u) else all == log
  {
    assert log[..r.view] == log;
    assert (log + [Admitted(u)])[..|log|] == log;
  }
}
