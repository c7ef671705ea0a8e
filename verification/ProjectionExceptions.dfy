/**
 The exceptions of turn projection are exactly as wide as stated: for every response that meets a condition there is a
 run of two runtimes in which the exception happens.  In these runs the turn is admitted first, both runtimes observe
 it afterwards, and every message id is minted once (`Possible`).
 */
module ProjectionExceptions {
  import opened Options
  import opened Projection
  import opened ProjectionInvariant
  import opened ProjectionCitations
  import opened ProjectionTheorems
  import opened ProjectionRuns

  // ---------------------------------------------------------------- facts about responses and logs

  lemma {:induction false} DoneIsLast(frames: seq<Frame>, a: nat, b: nat)
    requires WellFormed(frames) && b < |frames|
    ensures forall m :: a <= m < b ==> !frames[m].Done?
  {}

  /** The first tool call that passes the batch: nothing lasting lies between. */
  lemma {:induction false} FirstTool(frames: seq<Frame>, c: nat, k: nat) returns (first: nat)
    requires WellFormed(frames) && PassedBy(frames, c, k)
    ensures first <= k && PassedBy(frames, c, first) && forall t :: c < t < first ==> !Lasting(frames[t])
    decreases k
  {
    if t :| c < t < k && Lasting(frames[t]) {
      first := FirstTool(frames, c, t);
    } else {
      first := k;
    }
  }

  lemma {:induction false} FirstWords(frames: seq<Frame>, t: nat) returns (first: nat)
    requires t < |frames| && Words(frames[t])
    ensures first <= t && Words(frames[first]) && NoWords(frames, -1, first)
    decreases t
  {
    if u :| 0 <= u < t && Words(frames[u]) {
      first := FirstWords(frames, u);
    } else {
      first := t;
    }
  }

  /** A durable text gives the turn its message. */
  lemma {:induction false} DurableWords(w: Watched, log: Log, t: nat)
    requires LogSound(w, log) && t in Keys(log) && t < |w.frames| && Words(w.frames[t])
    ensures TextId(log).Some?
  {
    var j := KeyAt(log, t);
    SoundAt(w, log, j);
    TextIdNone(log);
  }

  /** Only a turn with a text has citations linked. */
  lemma {:induction false} LinksHaveText(w: Watched, log: Log, c: nat)
    requires LogSound(w, log) && c < |w.frames| && w.frames[c].Citations?
    ensures c in Keys(log) ==> TextId(log).Some?
  {
    if c in Keys(log) {
      var j := KeyAt(log, c);
      SoundAt(w, log, j);
      TextIdGrows(log[..j], log[j..]);
      assert log == log[..j] + log[j..];
    }
  }

  /** A reader that is aware and tidy waits for nothing once a text is durable. */
  lemma {:induction false} NothingWaits(w: Watched, log: Log, r: Runtime, d: nat, t: nat)
    requires LogSound(w, log) && RuntimeOk(w, log, r) && Ready(log, r, d) && t < d <= |w.frames| && Words(w.frames[t])
    requires Aware(log, r.observation.value) && Tidy(r.observation.value)
    ensures r.observation.value.pending == [] && r.observation.value.message.Some?
  {
    LastingIsDurable(w, log, r, d, t);
    DurableWords(w, log, t);
  }

  lemma {:induction false} LastingIsDurable(w: Watched, log: Log, r: Runtime, d: nat, t: nat)
    requires RuntimeOk(w, log, r) && Ready(log, r, d) && t < d <= |w.frames| && Lasting(w.frames[t])
    ensures t in Keys(log)
  {
    var o := r.observation.value;
    assert Keys(log) + Keys(o.drafts) == Keys(log);
    assert Covered(w, Keys(log) + Keys(o.drafts), o.expected);
  }

  lemma {:induction false} MaxSafeAtLeast(events: Log, j: nat)
    requires j < |events|
    ensures SafeOf(events[j]) <= MaxSafe(events)
  {
    if j < |events| - 1 { MaxSafeAtLeast(events[..|events| - 1], j); }
  }

  // ---------------------------------------------------------------- the common beginning

  /** The turn is admitted, and an event names its handle at the transport (src/runtime.ts:1387-1393). */
  function Base(w: Watched): Log { [Admitted(w.turn), Foreign] }

  const FRESH := Observation(0, {}, false, None, [], false, [], None, false, false, 0)
  const AWARE := Runtime(2, 2, -1, false, None, None)
  const WATCHING := AWARE.(observation := Some(FRESH))

  /** An event that says nothing of the response. */
  lemma {:induction false} BareEvent(e: Event)
    requires e.Admitted? || e.Foreign?
    ensures Keys([e]) == {} && TextId([e]) == None && MaxSafe([e]) == -1 && LastCheckpoint([e]) == None
  {
    assert [e][..0] == [];
  }

  /** Nothing of the response is in the log yet. */
  lemma {:induction false} BaseIsBare(w: Watched)
    ensures Keys(Base(w)) == {} && TextId(Base(w)) == None && !TurnOver(w, Base(w))
    ensures MaxSafe(Base(w)) == -1 && LastCheckpoint(Base(w)) == None
  {
    BareEvent(Admitted(w.turn));
    assert Base(w)[..1] == [Admitted(w.turn)];
  }

  lemma {:induction false} AdmitBase(w: Watched)
    ensures Act(w, [], NEW, Admit(w.turn, 0)) == ([Admitted(w.turn)], Runtime(1, 1, -1, false, None, None))
  {
    var log := [] + [Admitted(w.turn)];
    BareEvent(Admitted(w.turn));
    assert log == [Admitted(w.turn)] && log[0..1] == log && log[..0] == [];
  }

  lemma {:induction false} LearnBase(w: Watched)
    ensures Learn(Base(w), NEW, 2) == AWARE && Learn(Base(w), Runtime(1, 1, -1, false, None, None), 2) == AWARE
  {
    BaseIsBare(w);
    BareEvent(Foreign);
    assert Base(w)[0..2] == Base(w) && Base(w)[1..2] == [Foreign];
  }

  lemma {:induction false} ObserveBase(w: Watched)
    ensures Act(w, Base(w), AWARE, Observe) == (Base(w), WATCHING)
  {
    BaseIsBare(w);
    assert Base(w)[..2] == Base(w);
  }

  /** The first runtime admits the turn, the transport's handle is noted, and both runtimes see it. */
  lemma {:induction false} Admission(w: Watched) returns (steps: seq<Step>)
    requires WellFormed(w.frames)
    ensures Reached(w, 2, steps, System(Base(w), [AWARE, AWARE]))
  {
    assert Reached(w, 2, [], System([], [NEW, NEW])) by { assert Initial(2).runtimes == [NEW, NEW]; }
    AdmitBase(w);
    LearnBase(w);
    var first := Runtime(1, 1, -1, false, None, None);
    Reach(w, 2, [], System([], [NEW, NEW]), Local(0, Admit(w.turn, 0)));
    SetFirst(NEW, NEW, first);
    steps := [] + [Local(0, Admit(w.turn, 0))];
    Reach(w, 2, steps, System([Admitted(w.turn)], [first, NEW]), World(Foreign));
    steps := steps + [World(Foreign)];
    Reach(w, 2, steps, System(Base(w), [first, NEW]), Local(0, Sync(2)));
    SetFirst(first, NEW, AWARE);
    steps := steps + [Local(0, Sync(2))];
    Reach(w, 2, steps, System(Base(w), [AWARE, NEW]), Local(1, Sync(2)));
    SetSecond(AWARE, NEW, AWARE);
    steps := steps + [Local(1, Sync(2))];
  }

  /** Two runtimes start observing an admitted turn. */
  lemma {:induction false} Opening(w: Watched) returns (steps: seq<Step>)
    requires WellFormed(w.frames)
    ensures At(w, 2, steps, System(Base(w), [WATCHING, WATCHING])) && Ready(Base(w), WATCHING, 0)
  {
    steps := Admission(w);
    BaseIsBare(w);
    ObserveBase(w);
    var f := ObserveRun(w, 2, steps, 1, Base(w), [AWARE, AWARE]);
    SetSecond(AWARE, AWARE, f);
    steps := steps + [Local(1, Observe)];
    var r := ObserveRun(w, 2, steps, 0, Base(w), [AWARE, f]);
    SetFirst(AWARE, f, r);
    steps := steps + [Local(0, Observe)];
  }

  /** The writer brings everything before frame `m` into the log. */
  lemma {:induction false} WriteTo(w: Watched, m: nat) returns (steps: seq<Step>, log: Log, r: Runtime)
    requires WellFormed(w.frames) && 0 < m < |w.frames|
    ensures Base(w) <= log
    ensures At(w, 2, steps, System(log, [r, WATCHING])) && Ready(log, r, m) && !TurnOver(w, log)
    ensures Course(w, Base(w), FRESH, 0, log, r.observation.value, m)
    ensures Aware(log, r.observation.value) && Tidy(r.observation.value)
    ensures forall k :: k in Keys(log) ==> k < m
    ensures 0 in Keys(log)
  {
    steps := Opening(w);
    BaseIsBare(w);
    DoneIsLast(w.frames, 0, m);
    var more;
    more, log, r := ReadTo(w, 2, steps, 0, 0, m, Base(w), [WATCHING, WATCHING]);
    SetFirst(WATCHING, WATCHING, r);
    steps := steps + more;
    AtOk(w, 2, steps, System(log, [r, WATCHING]), 0);
    LastingIsDurable(w, log, r, m, 0);
  }

  /** What a runtime that watches from the start learns when it catches up. */
  lemma {:induction false} BeyondBase(w: Watched, log: Log)
    requires Base(w) <= log
    ensures Keys(log[2..]) == Keys(log)
    ensures 0 in Keys(log) ==> |log| > 2
    ensures forall k :: Marked(log, k) ==> Marked(log[2..], k)
    ensures !TurnOver(w, log) ==> !TurnOver(w, log[2..])
  {
    BaseIsBare(w);
    assert log == Base(w) + log[2..];
    KeysSplit(Base(w), log[2..]);
    forall k | Marked(log, k) ensures Marked(log[2..], k) {
      var j :| 0 <= j < |log| && log[j].Effect? && log[j].resumeSafe && log[j].sequence == k;
      assert j >= 2 && log[2..][j - 2] == log[j];
    }
    if !TurnOver(w, log) {
      forall j | 0 <= j < |log[2..]| ensures !Ends(w, log[2..][j]) { assert log[2..][j] == log[j + 2]; }
    }
  }

  /** The second runtime, which has been watching from the start, catches up with the log. */
  lemma {:induction false} CatchUp(w: Watched, steps: seq<Step>, log: Log, holder: Runtime, m: nat)
    returns (more: seq<Step>, f: Runtime)
    requires Base(w) <= log
    requires At(w, 2, steps, System(log, [holder, WATCHING])) && 0 in Keys(log) && m <= |w.frames|
    requires forall t :: 0 <= t < m ==> !w.frames[t].Done? && (t in Keys(log) || !Lasting(w.frames[t]))
    ensures At(w, 2, steps + more, System(log, [holder, f])) && Ready(log, f, m)
    ensures f.observation.value.message.None? && (NoUsage(w.frames, m) ==> !f.observation.value.unsafe)
  {
    var rs := [holder, WATCHING];
    var g := SyncRun(w, 2, steps, 1, log, rs);
    SetSecond(holder, WATCHING, g);
    BeyondBase(w, log);
    assert log[2..|log|] == log[2..];
    var rest;
    rest, f := SkimTo(w, 2, steps + [Local(1, Sync(|log|))], 1, 0, m, log, [holder, g]);
    SetSecond(holder, g, f);
    more := [Local(1, Sync(|log|))] + rest;
    Append(steps, [Local(1, Sync(|log|))], rest);
  }

  // ---------------------------------------------------------------- passed by the safe sequence

  /** The second runtime passes the batch: the tool call is durable and safe, the batch is neither. */
  lemma {:induction false} SkipRun(w: Watched, steps: seq<Step>, log: Log, holder: Runtime, c: nat, k: nat)
    returns (more: seq<Step>, after: Log, f: Runtime)
    requires Base(w) <= log
    requires At(w, 2, steps, System(log, [holder, WATCHING])) && 0 in Keys(log) && !TurnOver(w, log)
    requires PassedBy(w.frames, c, k) && (forall t :: c < t < k ==> !Lasting(w.frames[t])) && w.frames[c].Citations?
    requires (forall x :: x in Keys(log) ==> x < c) && forall t :: 0 <= t < c && Lasting(w.frames[t]) ==> t in Keys(log)
    ensures At(w, 2, steps + more, System(after, [holder, f])) && Ready(after, f, k + 1) && f.safe == k
    ensures c !in Keys(after) && !TurnOver(w, after) && (forall x :: x in Keys(after) ==> x < k + 1) && log <= after
  {
    DoneIsLast(w.frames, 0, k);
    var caught, g := CatchUp(w, steps, log, holder, k);
    var rest;
    rest, after, f := Proceed(w, 2, steps + caught, 1, k, log, [holder, g]);
    SetSecond(holder, g, f);
    more := caught + rest;
    Append(steps, caught, rest);
    assert !Words(w.frames[k]) && Lasting(w.frames[k]);
  }

  ghost predicate PassedIn(w: Watched, n: nat, steps: seq<Step>, i: nat, c: nat) {
    && WellFormed(w.frames) && Possible(w, n, steps) && i < n
    && c <= Exec(w, n, steps).runtimes[i].safe
    && c !in Keys(Exec(w, n, steps).log) && !TurnOver(w, Exec(w, n, steps).log)
  }

  lemma {:induction false} SkippableIsPassed(w: Watched, c: nat) returns (steps: seq<Step>)
    requires WellFormed(w.frames) && c < |w.frames| && w.frames[c].Citations? && Skippable(w.frames, c)
    ensures PassedIn(w, 2, steps, 1, c)
  {
    var k0 :| c < k0 < |w.frames| && PassedBy(w.frames, c, k0);
    var k := FirstTool(w.frames, c, k0);
    var written, log, r := WriteTo(w, c);
    WrittenBefore(w, written, log, r, c);
    var more, after, f := SkipRun(w, written, log, r, c, k);
    steps := written + more;
    Open(w, 2, steps, System(after, [r, f]));
  }

  /** The safe sequence can pass a batch of citations of a running turn exactly when the batch is skippable. */
  lemma {:induction false} PassedIffSkippable(w: Watched, c: nat)
    requires WellFormed(w.frames) && c < |w.frames| && w.frames[c].Citations?
    ensures (exists n, steps, i :: PassedIn(w, n, steps, i, c)) <==> Skippable(w.frames, c)
  {
    if n, steps, i :| PassedIn(w, n, steps, i, c) {
      if !Skippable(w.frames, c) { SafeResumeOfCitations(w, n, steps, i, c); }
    }
    if Skippable(w.frames, c) {
      var steps := SkippableIsPassed(w, c);
    }
  }

  // ---------------------------------------------------------------- after the terminal event

  ghost predicate FollowsTheEnd(w: Watched, n: nat, steps: seq<Step>, j: nat, i: nat) {
    && WellFormed(w.frames) && Possible(w, n, steps)
    && var log := Exec(w, n, steps).log;
       j < i < |log| && log[j].Finished? && Keyed(log[i])
  }

  /** The rest of the response is read and ended while the batch is held back, and then the holder flushes it. */
  lemma {:induction false} EndWithout(
    w: Watched, steps: seq<Step>, log: Log, holder: Runtime, o: Observation, f: Runtime, a: nat, c: nat)
    returns (all: seq<Step>, j: nat, i: nat)
    requires At(w, 2, steps, System(log, [holder, f])) && Ready(log, f, a) && c < a < |w.frames| && !TurnOver(w, log)
    requires w.frames[|w.frames| - 1].Done? && (forall k :: k in Keys(log) ==> k < |w.frames| - 1)
    requires Spared(w, Keys(log), f.observation.value, c) && HoldsBack(w, log, holder, o, c)
    requires w.frames[|w.frames| - 1].outcome.Completed? ==> TidyWithWords(w, log, f.observation.value)
    ensures FollowsTheEnd(w, 2, all, j, i)
  {
    var d := |w.frames| - 1;
    DoneIsLast(w.frames, a, d);
    var read, after, g := ReadTo(w, 2, steps, 1, a, d, log, [holder, f]);
    SetSecond(holder, f, g);
    AtOk(w, 2, steps + read, System(after, [holder, g]), 1);
    if w.frames[d].outcome.Completed? {
      var t :| 0 <= t < d && Words(w.frames[t]);
      NothingWaits(w, after, g, d, t);
    }
    assert Spared(w, Keys(after), g.observation.value, c);
    LeftAfter(w, after, g, d, o.drafts, c);
    all, j, i := EndAndStraggle(w, steps + read, after, holder, o, g, d, c);
  }

  /** A runtime has the batch drafted, perhaps behind a text, and has not flushed it. */
  predicate HoldsBack(w: Watched, log: Log, holder: Runtime, o: Observation, c: nat) {
    && holder.observation == Some(o) && holder.view <= |log| && o.flushing && o.attempts == 0
    && (exists x ::
          && 0 <= x < |o.drafts| && o.drafts[x].Effect? && o.drafts[x].payload.Linked?
          && o.drafts[x].sequence == c)
    && (forall x :: 0 <= x < |o.drafts| ==>
          o.drafts[x].Effect? && (o.drafts[x].payload.Linked? || DueBefore(w, o.drafts[x].sequence)))
  }

  predicate DueBefore(w: Watched, s: nat) { s < |w.frames| - 1 && Lasting(w.frames[s]) }

  predicate TidyWithWords(w: Watched, log: Log, o: Observation) {
    && Aware(log, o) && Tidy(o)
    && exists t :: 0 <= t < |w.frames| - 1 && Words(w.frames[t])
  }

  lemma {:induction false} LeftAfter(w: Watched, log: Log, r: Runtime, d: nat, drafts: Log, c: nat)
    requires RuntimeOk(w, log, r) && Ready(log, r, d) && d == |w.frames| - 1 && c !in Keys(log)
    requires exists x ::
               && 0 <= x < |drafts| && drafts[x].Effect? && drafts[x].payload.Linked?
               && drafts[x].sequence == c
    requires forall x :: 0 <= x < |drafts| ==>
               drafts[x].Effect? && (drafts[x].payload.Linked? || DueBefore(w, drafts[x].sequence))
    ensures OnlyLinksLeft(Keys(log), drafts, c)
  {
    forall x | 0 <= x < |drafts|
      ensures drafts[x].Effect? && (drafts[x].payload.Linked? || drafts[x].sequence in Keys(log))
    {
      if !drafts[x].payload.Linked? { LastingIsDurable(w, log, r, d, drafts[x].sequence); }
    }
  }

  lemma {:induction false} EndAndStraggle(w: Watched, steps: seq<Step>, log: Log, holder: Runtime, o: Observation,
                                          f: Runtime, d: nat, c: nat)
    returns (all: seq<Step>, j: nat, i: nat)
    requires At(w, 2, steps, System(log, [holder, f])) && Ready(log, f, d) && !TurnOver(w, log)
    requires d == |w.frames| - 1 && w.frames[d].Done? && d !in Keys(log) && c < d
    requires w.frames[d].outcome.Completed? ==> f.observation.value.pending == []
    requires holder.observation == Some(o) && holder.view <= |log| && o.flushing && o.attempts == 0
    requires OnlyLinksLeft(Keys(log), o.drafts, c)
    ensures FollowsTheEnd(w, 2, all, j, i)
  {
    var ended, done, g := EndKeyed(w, steps, log, holder, f, d);
    all, i := Straggle(w, steps + ended, log, done, holder, g, o, c);
    j := |log|;
  }

  lemma {:induction false} EndKeyed(w: Watched, steps: seq<Step>, log: Log, holder: Runtime, f: Runtime, d: nat)
    returns (more: seq<Step>, done: Event, g: Runtime)
    requires At(w, 2, steps, System(log, [holder, f])) && Ready(log, f, d) && !TurnOver(w, log)
    requires d == |w.frames| - 1 && w.frames[d].Done? && d !in Keys(log)
    requires w.frames[d].outcome.Completed? ==> f.observation.value.pending == []
    ensures At(w, 2, steps + more, System(log + [done], [holder, g])) && done.Finished?
    ensures Keys(log + [done]) == Keys(log) + {d}
  {
    more, done, g := EndRun(w, 2, steps, 1, d, log, [holder, f]);
    SetSecond(holder, f, g);
    DoneKey(w, steps + more, log, done, [holder, g], d);
  }

  lemma {:induction false} DoneKey(w: Watched, steps: seq<Step>, log: Log, done: Event, rs: seq<Runtime>, d: nat)
    requires At(w, 2, steps, System(log + [done], rs)) && |rs| == 2 && done.Finished? && d == |w.frames| - 1
    ensures Keys(log + [done]) == Keys(log) + {d}
  {
    AtOk(w, 2, steps, System(log + [done], rs), 0);
    SoundAt(w, log + [done], |log|);
    KeysSnoc(log, done);
  }

  lemma {:induction false} Straggle(w: Watched, steps: seq<Step>, log: Log, done: Event, holder: Runtime, g: Runtime,
                                    o: Observation, c: nat)
    returns (all: seq<Step>, i: nat)
    requires At(w, 2, steps, System(log + [done], [holder, g])) && done.Finished? && c < |w.frames| - 1
    requires Keys(log + [done]) == Keys(log) + {|w.frames| - 1} && OnlyLinksLeft(Keys(log), o.drafts, c)
    requires holder.observation == Some(o) && holder.view <= |log| && o.flushing && o.attempts == 0
    ensures FollowsTheEnd(w, 2, all, |log|, i)
  {
    var late, after, k, rs := LateRun(w, 2, steps, 0, log + [done], [holder, g], o, c);
    all, i := steps + late, k;
    Open(w, 2, all, System(after, rs));
    assert after[|log|] == (log + [done])[|log|];
  }

  /** A batch after a text: its writer drafts it and holds the draft back. */
  lemma {:induction false} HoldLink(w: Watched, c: nat, t: nat)
    returns (steps: seq<Step>, log: Log, holder: Runtime, o: Observation)
    requires WellFormed(w.frames) && t < c < |w.frames| && w.frames[c].Citations? && Words(w.frames[t])
    ensures Base(w) <= log
    ensures At(w, 2, steps, System(log, [holder, WATCHING])) && 0 in Keys(log) && !TurnOver(w, log)
    ensures (forall x :: x in Keys(log) ==> x < c) && forall x :: 0 <= x < c && Lasting(w.frames[x]) ==> x in Keys(log)
    ensures HoldsBack(w, log, holder, o, c)
  {
    var r;
    steps, log, r := WriteTo(w, c);
    WrittenBefore(w, steps, log, r, c);
    AtOk(w, 2, steps, System(log, [r, WATCHING]), 0);
    NothingWaits(w, log, r, c, t);
    var more;
    more, holder, o := HoldOne(w, steps, log, r, c);
    steps := steps + more;
  }

  lemma {:induction false} WrittenBefore(w: Watched, steps: seq<Step>, log: Log, r: Runtime, c: nat)
    requires At(w, 2, steps, System(log, [r, WATCHING])) && Ready(log, r, c) && c <= |w.frames|
    ensures forall x :: 0 <= x < c && Lasting(w.frames[x]) ==> x in Keys(log)
  {
    AtOk(w, 2, steps, System(log, [r, WATCHING]), 0);
    forall x | 0 <= x < c && Lasting(w.frames[x]) ensures x in Keys(log) { LastingIsDurable(w, log, r, c, x); }
  }

  lemma {:induction false} HoldOne(w: Watched, steps: seq<Step>, log: Log, r: Runtime, c: nat)
    returns (more: seq<Step>, holder: Runtime, o: Observation)
    requires At(w, 2, steps, System(log, [r, WATCHING])) && Ready(log, r, c) && c < |w.frames| && c !in Keys(log)
    requires w.frames[c].Citations? && r.observation.value.message.Some?
    ensures At(w, 2, steps + more, System(log, [holder, WATCHING])) && HoldsBack(w, log, holder, o, c)
  {
    var drafted;
    more, holder, drafted := HoldDraft(w, 2, steps, 0, c, log, [r, WATCHING]);
    SetFirst(r, WATCHING, holder);
    o := drafted.(flushing := true);
    assert o.drafts[0].payload.Linked?;
  }

  /** No text follows the batch and the response does not complete. */
  lemma {:induction false} LossyStraggles(w: Watched, c: nat, t: nat) returns (all: seq<Step>, j: nat, i: nat)
    requires WellFormed(w.frames) && c < |w.frames| && w.frames[c].Citations? && Lossy(w.frames, c)
    requires t < |w.frames| && Words(w.frames[t])
    ensures FollowsTheEnd(w, 2, all, j, i)
  {
    var steps, log, holder, o := HoldLink(w, c, t);
    DoneIsLast(w.frames, 0, c + 1);
    var more, f := CatchUp(w, steps, log, holder, c + 1);
    all, j, i := EndWithout(w, steps + more, log, holder, o, f, c + 1, c);
  }

  /** A new observation starts after the tool call and never reads the batch. */
  lemma {:induction false} StartOver(w: Watched, steps: seq<Step>, log: Log, holder: Runtime, f: Runtime, k: nat)
    returns (more: seq<Step>, g: Runtime)
    requires At(w, 2, steps, System(log, [holder, f])) && Ready(log, f, k + 1) && f.safe == k
    ensures At(w, 2, steps + more, System(log, [holder, g])) && Ready(log, g, k + 1)
    ensures g.observation.value.pending == [] && g.observation.value.message == TextId(log)
  {
    var a := AbandonRun(w, 2, steps, 1, log, [holder, f]);
    SetSecond(holder, f, a);
    g := ObserveRun(w, 2, steps + [Local(1, Abandon)], 1, log, [holder, a]);
    SetSecond(holder, a, g);
    assert log[..f.view] == log;
    more := [Local(1, Abandon), Local(1, Observe)];
    Thrice(steps, Local(1, Abandon), Local(1, Observe));
  }

  /** The second runtime passes the batch and starts over behind it. */
  lemma {:induction false} SkipAndStartOver(w: Watched, steps: seq<Step>, log: Log, holder: Runtime, c: nat, k: nat)
    returns (more: seq<Step>, after: Log, g: Runtime)
    requires Base(w) <= log
    requires At(w, 2, steps, System(log, [holder, WATCHING])) && 0 in Keys(log) && !TurnOver(w, log)
    requires PassedBy(w.frames, c, k) && (forall t :: c < t < k ==> !Lasting(w.frames[t])) && w.frames[c].Citations?
    requires (forall x :: x in Keys(log) ==> x < c) && forall t :: 0 <= t < c && Lasting(w.frames[t]) ==> t in Keys(log)
    ensures At(w, 2, steps + more, System(after, [holder, g])) && Ready(after, g, k + 1) && log <= after
    ensures Spared(w, Keys(after), g.observation.value, c) && !TurnOver(w, after)
    ensures forall x :: x in Keys(after) ==> x < k + 1
    ensures Aware(after, g.observation.value) && Tidy(g.observation.value)
  {
    var skipped, f;
    skipped, after, f := SkipRun(w, steps, log, holder, c, k);
    var again;
    again, g := StartOver(w, steps + skipped, after, holder, f, k);
    more := skipped + again;
    Append(steps, skipped, again);
  }

  lemma {:induction false} HeldLater(w: Watched, log: Log, after: Log, holder: Runtime, o: Observation, c: nat)
    requires HoldsBack(w, log, holder, o, c) && log <= after
    ensures HoldsBack(w, after, holder, o, c)
  {}

  lemma {:induction false} SkippedWhileHeld(w: Watched, steps: seq<Step>, log: Log, holder: Runtime, o: Observation,
                                            c: nat, k: nat, t: nat)
    returns (all: seq<Step>, j: nat, i: nat)
    requires Base(w) <= log
    requires At(w, 2, steps, System(log, [holder, WATCHING])) && 0 in Keys(log) && !TurnOver(w, log)
    requires PassedBy(w.frames, c, k) && (forall x :: c < x < k ==> !Lasting(w.frames[x])) && w.frames[c].Citations?
    requires (forall x :: x in Keys(log) ==> x < c) && forall x :: 0 <= x < c && Lasting(w.frames[x]) ==> x in Keys(log)
    requires HoldsBack(w, log, holder, o, c) && w.frames[|w.frames| - 1].Done? && t < c && Words(w.frames[t])
    ensures FollowsTheEnd(w, 2, all, j, i)
  {
    var more, after, g := SkipAndStartOver(w, steps, log, holder, c, k);
    HeldLater(w, log, after, holder, o, c);
    assert k < |w.frames| - 1 && t < |w.frames| - 1;
    all, j, i := EndWithout(w, steps + more, after, holder, o, g, k + 1, c);
  }

  /** A skippable batch after a text. */
  lemma {:induction false} SkippedAfterText(w: Watched, c: nat, k: nat, t: nat) returns (all: seq<Step>, j: nat, i: nat)
    requires WellFormed(w.frames) && w.frames[|w.frames| - 1].Done? && t < c < |w.frames| && Words(w.frames[t])
    requires PassedBy(w.frames, c, k) && (forall x :: c < x < k ==> !Lasting(w.frames[x])) && w.frames[c].Citations?
    ensures FollowsTheEnd(w, 2, all, j, i)
  {
    var steps, log, holder, o := HoldLink(w, c, t);
    all, j, i := SkippedWhileHeld(w, steps, log, holder, o, c, k, t);
  }

  // ---------------------------------------------------------------- the batch before any text

  /** A writer that has read up to `m` without any text, with the batch waiting. */
  ghost predicate Waiting(w: Watched, log: Log, r: Runtime, m: nat, c: nat) {
    && Ready(log, r, m) && !TurnOver(w, log) && TextId(log).None? && 0 in Keys(log)
    && (forall x :: x in Keys(log) ==> x < m)
    && c in PendKeys(r.observation.value.pending) && r.observation.value.message.None?
    && (NoUsage(w.frames, m) ==> !r.observation.value.unsafe)
  }

  lemma {:induction false} StillWaiting(
    w: Watched, log: Log, r: Runtime, a: nat, after: Log, next: Runtime, b: nat, c: nat)
    requires Waiting(w, log, r, a, c) && Ready(after, next, b) && a <= b && NoWords(w.frames, -1, b) && 0 < a
    requires Course(w, log, r.observation.value, a, after, next.observation.value, b)
    ensures Waiting(w, after, next, b, c)
  {
    assert NoWords(w.frames, a - 1, b);
    KeysSplit(log, after[|log|..]);
    assert after == log + after[|log|..];
    if NoUsage(w.frames, b) { assert NoUsage(w.frames, a); }
  }

  /** The writer reads on to frame `b`; the batch goes on waiting. */
  lemma {:induction false} WaitTo(w: Watched, steps: seq<Step>, log: Log, r: Runtime, a: nat, b: nat, c: nat)
    returns (more: seq<Step>, after: Log, next: Runtime)
    requires At(w, 2, steps, System(log, [r, WATCHING])) && Waiting(w, log, r, a, c)
    requires 0 < a <= b < |w.frames| && NoWords(w.frames, -1, b)
    ensures At(w, 2, steps + more, System(after, [next, WATCHING])) && Waiting(w, after, next, b, c) && log <= after
  {
    DoneIsLast(w.frames, a, b);
    more, after, next := ReadTo(w, 2, steps, 0, a, b, log, [r, WATCHING]);
    SetFirst(r, WATCHING, next);
    StillWaiting(w, log, r, a, after, next, b, c);
  }

  /** The tool call is written and marked while the batch waits. */
  lemma {:induction false} MarkTool(w: Watched, steps: seq<Step>, log: Log, r: Runtime, k: nat, c: nat)
    returns (more: seq<Step>, after: Log, next: Runtime)
    requires At(w, 2, steps, System(log, [r, WATCHING])) && Waiting(w, log, r, k, c)
    requires 0 < k < |w.frames| - 1 && w.frames[k].ToolCall? && NoUsage(w.frames, k) && NoWords(w.frames, -1, k)
    ensures log <= after
    ensures At(w, 2, steps + more, System(after, [next, WATCHING])) && Waiting(w, after, next, k + 1, c)
            && Marked(after, k)
  {
    more, after, next := Proceed(w, 2, steps, 0, k, log, [r, WATCHING]);
    SetFirst(r, WATCHING, next);
    AtOk(w, 2, steps, System(log, [r, WATCHING]), 0);
    CourseOne(w, log, r, k, after, next);
    assert NoWords(w.frames, -1, k + 1);
    StillWaiting(w, log, r, k, after, next, k + 1, c);
  }

  /** The writer reads the batch before there is any text. */
  lemma {:induction false} StartWaiting(w: Watched, c: nat) returns (steps: seq<Step>, log: Log, r: Runtime)
    requires WellFormed(w.frames) && c < |w.frames| - 1 && w.frames[c].Citations? && NoWords(w.frames, -1, c)
    ensures Base(w) <= log
    ensures At(w, 2, steps, System(log, [r, WATCHING])) && Waiting(w, log, r, c + 1, c)
  {
    var l0, r0;
    steps, l0, r0 := WriteTo(w, c);
    BaseIsBare(w);
    var more;
    more, log, r := Proceed(w, 2, steps, 0, c, l0, [r0, WATCHING]);
    SetFirst(r0, WATCHING, r);
    steps := steps + more;
    if NoUsage(w.frames, c + 1) { assert NoUsage(w.frames, c) && !w.frames[c].Usage?; }
  }

  lemma {:induction false} MarkedLater(log: Log, after: Log, k: nat)
    requires Marked(log, k) && log <= after
    ensures Marked(after, k)
  {
    var j :| 0 <= j < |log| && log[j].Effect? && log[j].resumeSafe && log[j].sequence == k;
    assert after[j] == log[j];
  }

  /** The writer stands before the first text, with the tool call marked in the log and the batch still waiting. */
  lemma {:induction false} WaitingWriter(w: Watched, c: nat, k: nat, t: nat)
    returns (steps: seq<Step>, log: Log, r: Runtime)
    requires WellFormed(w.frames) && PassedBy(w.frames, c, k) && w.frames[c].Citations?
    requires k < t < |w.frames| && NoWords(w.frames, -1, t)
    ensures Base(w) <= log
    ensures At(w, 2, steps, System(log, [r, WATCHING])) && Waiting(w, log, r, t, c) && Marked(log, k)
  {
    var l0, r0, l1, r1, l2, r2, more;
    assert NoWords(w.frames, -1, c) && NoWords(w.frames, -1, k);
    steps, l0, r0 := StartWaiting(w, c);
    more, l1, r1 := WaitTo(w, steps, l0, r0, c + 1, k, c);
    steps := steps + more;
    more, l2, r2 := MarkTool(w, steps, l1, r1, k, c);
    steps := steps + more;
    more, log, r := WaitTo(w, steps, l2, r2, k + 1, t, c);
    steps := steps + more;
    MarkedLater(l2, log, k);
  }

  /** It reads the text and holds it back, with the batch behind it. */
  lemma {:induction false} HoldText(w: Watched, steps: seq<Step>, log: Log, r: Runtime, t: nat, c: nat)
    returns (more: seq<Step>, holder: Runtime, o: Observation)
    requires At(w, 2, steps, System(log, [r, WATCHING])) && Waiting(w, log, r, t, c) && t < |w.frames| - 1
    requires Words(w.frames[t])
    ensures At(w, 2, steps + more, System(log, [holder, WATCHING])) && HoldsBack(w, log, holder, o, c)
  {
    var drafted;
    more, holder, drafted := HoldDraft(w, 2, steps, 0, t, log, [r, WATCHING]);
    SetFirst(r, WATCHING, holder);
    o := drafted.(flushing := true);
    HeldText(w, log, r, t, Unminted(steps), drafted, holder, c);
  }

  lemma {:induction false} HeldText(
    w: Watched, log: Log, r: Runtime, t: nat, x: nat, drafted: Observation, holder: Runtime, c: nat)
    requires Ready(log, r, t) && t < |w.frames| - 1 && Words(w.frames[t]) && IsDraft(w, log, r, t, x, drafted)
    requires c in PendKeys(r.observation.value.pending)
    requires holder == r.(identified := true, observation := Some(drafted.(flushing := true)))
    ensures HoldsBack(w, log, holder, drafted.(flushing := true), c)
  {
    TextDraftsHold(w, r.observation.value, t, w.frames[t], x, drafted.drafts, c);
  }

  lemma {:induction false} TextDraftsHold(
    w: Watched, o: Observation, t: nat, f: Frame, x: nat, drafts: Log, c: nat)
    requires t < |w.frames| - 1 && f == w.frames[t] && Words(f) && drafts == Added(o, t, f, x)
             && c in PendKeys(o.pending)
    ensures exists y :: 0 <= y < |drafts| && drafts[y].Effect? && drafts[y].payload.Linked? && drafts[y].sequence == c
    ensures forall y :: 0 <= y < |drafts| ==>
              drafts[y].Effect? && (drafts[y].payload.Linked? || DueBefore(w, drafts[y].sequence))
  {
    var i :| 0 <= i < |o.pending| && o.pending[i].0 == c;
    var m := if o.message.Some? then o.message.value else x;
    assert drafts[1 + i] == LinksFor(m, o.pending)[i];
  }

  lemma {:induction false} SafeBounds(w: Watched, log: Log, k: nat, t: nat)
    requires Marked(log, k) && !TurnOver(w, log) && forall x :: x in Keys(log) ==> x < t
    ensures k <= MaxSafe(log) < t
  {
    var j :| 0 <= j < |log| && log[j].Effect? && log[j].resumeSafe && log[j].sequence == k;
    MaxSafeAtLeast(log, j);
    MaxSafeSpec(log);
    var i :| 0 <= i < |log| && SafeOf(log[i]) == MaxSafe(log);
    assert !Ends(w, log[i]);
    KeyIn(log, i);
  }

  /** The second runtime begins a new observation behind the tool call. */
  lemma {:induction false} BeginBehind(w: Watched, steps: seq<Step>, log: Log, holder: Runtime, k: nat, t: nat)
    returns (more: seq<Step>, g: Runtime, a: nat)
    requires Base(w) <= log
    requires At(w, 2, steps, System(log, [holder, WATCHING])) && Marked(log, k) && !TurnOver(w, log) && 0 in Keys(log)
    requires forall x :: x in Keys(log) ==> x < t
    ensures At(w, 2, steps + more, System(log, [holder, g])) && Ready(log, g, a) && k < a <= t
    ensures g.observation.value.pending == [] && g.observation.value.message == TextId(log)
  {
    var b := AbandonRun(w, 2, steps, 1, log, [holder, WATCHING]);
    SetSecond(holder, WATCHING, b);
    assert b == AWARE;
    var s1 := steps + [Local(1, Abandon)];
    var s := SyncRun(w, 2, s1, 1, log, [holder, b]);
    SetSecond(holder, b, s);
    BeyondBase(w, log);
    SafeBounds(w, log[2..], k, t);
    assert log[2..|log|] == log[2..];
    var s2 := s1 + [Local(1, Sync(|log|))];
    g := ObserveRun(w, 2, s2, 1, log, [holder, s]);
    SetSecond(holder, s, g);
    assert log[..|log|] == log;
    a := s.safe + 1;
    more := [Local(1, Abandon), Local(1, Sync(|log|))] + [Local(1, Observe)];
    Thrice(steps, Local(1, Abandon), Local(1, Sync(|log|)));
    Append(steps, [Local(1, Abandon), Local(1, Sync(|log|))], [Local(1, Observe)]);
  }

  /** A skippable batch before any text. */
  lemma {:induction false} SkippedBeforeText(w: Watched, c: nat, k: nat, t: nat)
    returns (all: seq<Step>, j: nat, i: nat)
    requires WellFormed(w.frames) && w.frames[|w.frames| - 1].Done? && PassedBy(w.frames, c, k)
    requires w.frames[c].Citations? && k < t < |w.frames| && Words(w.frames[t]) && NoWords(w.frames, -1, t)
    ensures FollowsTheEnd(w, 2, all, j, i)
  {
    var steps, log, r := WaitingWriter(w, c, k, t);
    all, j, i := SkippedWaiting(w, steps, log, r, c, k, t);
  }

  lemma {:induction false} SkippedWaiting(w: Watched, steps: seq<Step>, log: Log, r: Runtime, c: nat, k: nat, t: nat)
    returns (all: seq<Step>, j: nat, i: nat)
    requires Base(w) <= log
    requires At(w, 2, steps, System(log, [r, WATCHING])) && Waiting(w, log, r, t, c) && Marked(log, k)
    requires w.frames[|w.frames| - 1].Done? && c < k < t < |w.frames| && Words(w.frames[t]) && w.frames[c].Citations?
    ensures FollowsTheEnd(w, 2, all, j, i)
  {
    Unwritten(w, steps, log, [r, WATCHING], c);
    var more, holder, o := HoldText(w, steps, log, r, t, c);
    all, j, i := SkippedBehind(w, steps + more, log, holder, o, c, k, t);
  }

  lemma {:induction false} Unwritten(w: Watched, steps: seq<Step>, log: Log, rs: seq<Runtime>, c: nat)
    requires At(w, 2, steps, System(log, rs)) && TextId(log).None? && c < |w.frames| && w.frames[c].Citations?
    ensures c !in Keys(log)
  {
    AtOk(w, 2, steps, System(log, rs), 0);
    LinksHaveText(w, log, c);
  }

  lemma {:induction false} SkippedBehind(
    w: Watched, steps: seq<Step>, log: Log, holder: Runtime, o: Observation, c: nat, k: nat, t: nat)
    returns (all: seq<Step>, j: nat, i: nat)
    requires Base(w) <= log
    requires At(w, 2, steps, System(log, [holder, WATCHING])) && HoldsBack(w, log, holder, o, c) && Marked(log, k)
    requires !TurnOver(w, log) && 0 in Keys(log) && (forall x :: x in Keys(log) ==> x < t) && c !in Keys(log)
    requires w.frames[|w.frames| - 1].Done? && c < k < t < |w.frames| && Words(w.frames[t])
    ensures FollowsTheEnd(w, 2, all, j, i)
  {
    var more, g, a := BeginBehind(w, steps, log, holder, k, t);
    assert t < |w.frames| - 1;
    all, j, i := EndWithout(w, steps + more, log, holder, o, g, a, c);
  }

  // ---------------------------------------------------------------- exactly when

  lemma {:induction false} StraggleHappens(w: Watched) returns (all: seq<Step>, j: nat, i: nat)
    requires WellFormed(w.frames) && Straggling(w.frames)
    ensures FollowsTheEnd(w, 2, all, j, i)
  {
    var c: nat :| c < |w.frames| && Exposed(w.frames, c);
    var u :| 0 <= u < |w.frames| && Words(w.frames[u]);
    if Lossy(w.frames, c) {
      all, j, i := LossyStraggles(w, c, u);
    } else {
      var k0 :| c < k0 < |w.frames| && PassedBy(w.frames, c, k0);
      var k := FirstTool(w.frames, c, k0);
      var t := FirstWords(w.frames, u);
      if t < c {
        all, j, i := SkippedAfterText(w, c, k, t);
      } else {
        all, j, i := SkippedBeforeText(w, c, k, t);
      }
    }
  }

  /**
   Something of a response can follow its terminal event exactly when the response has text and an exposed batch of
   citations.
   */
  lemma {:induction false} StragglesIff(w: Watched)
    requires WellFormed(w.frames)
    ensures (exists n, steps, j, i :: FollowsTheEnd(w, n, steps, j, i)) <==> Straggling(w.frames)
  {
    if n, steps, j, i :| FollowsTheEnd(w, n, steps, j, i) {
      RunCites(w, n, steps);
      OnlyExposedFollows(w, Exec(w, n, steps).log, j, i);
    }
    if Straggling(w.frames) {
      var all, j, i := StraggleHappens(w);
    }
  }

  /** A response in which it happens: a cancelled one whose last batch of citations follows its text. */
  lemma {:induction false} CancelledResponseStraggles(turn: nat, frames: seq<Frame>)
    requires frames == [Started, Text("a"), Citations(9), Done(Cancelled)]
    ensures exists steps, j, i :: FollowsTheEnd(Watched(turn, frames), 2, steps, j, i)
  {
    assert Words(frames[1]) && Lossy(frames, 2) && Exposed(frames, 2);
    var steps, j, i := StraggleHappens(Watched(turn, frames));
  }

  // ---------------------------------------------------------------- refused replays

  /** The frame is below the resume point of an up-to-date runtime, and a new observation refuses it. */
  ghost predicate RefusedIn(w: Watched, n: nat, steps: seq<Step>, i: nat, k: nat) {
    && WellFormed(w.frames) && Possible(w, n, steps) && i < n && k < |w.frames|
    && var s := Exec(w, n, steps);
       var r := s.runtimes[i];
       && k <= r.safe && r.view == |s.log| && Placed(s.log, r) && !TurnOver(w, s.log)
       && Judge(Begin(s.log, r), r.identified, Keys(s.log), k, w.frames[k]).Rejected?
  }

  /** An empty text before a lasting frame is refused when it is replayed. */
  lemma {:induction false} EmptyTextIsRefused(w: Watched, k: nat, m: nat) returns (steps: seq<Step>)
    requires WellFormed(w.frames) && k < m < |w.frames| && w.frames[k] == Text("") && Lasting(w.frames[m])
    requires NoUsage(w.frames, m)
    ensures RefusedIn(w, 2, steps, 0, k)
  {
    var written, l0, r0 := WriteTo(w, m);
    var more, log, r := Proceed(w, 2, written, 0, m, l0, [r0, WATCHING]);
    SetFirst(r0, WATCHING, r);
    steps := written + more;
    Open(w, 2, steps, System(log, [r, WATCHING]));
    StaleReplay(w, 2, steps, 0, k);
  }

  /** So is a batch of citations that was passed without being written. */
  lemma {:induction false} PassedBatchIsRefused(w: Watched, c: nat) returns (steps: seq<Step>)
    requires WellFormed(w.frames) && c < |w.frames| && w.frames[c].Citations? && Skippable(w.frames, c)
    ensures RefusedIn(w, 2, steps, 1, c)
  {
    var k0 :| c < k0 < |w.frames| && PassedBy(w.frames, c, k0);
    var k := FirstTool(w.frames, c, k0);
    var written, log, r := WriteTo(w, c);
    WrittenBefore(w, written, log, r, c);
    var more, after, f := SkipRun(w, written, log, r, c, k);
    steps := written + more;
    Open(w, 2, steps, System(after, [r, f]));
    StaleReplay(w, 2, steps, 1, c);
  }

  lemma {:induction false} EmptyTextExample(turn: nat, frames: seq<Frame>)
    requires frames == [Started, Text(""), Text("b")]
    ensures exists steps :: RefusedIn(Watched(turn, frames), 2, steps, 0, 1)
  {
    assert Lasting(frames[2]);
    var steps := EmptyTextIsRefused(Watched(turn, frames), 1, 2);
  }
}
