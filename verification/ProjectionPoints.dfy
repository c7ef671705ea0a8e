/**
 Transport resume points (src/runtime.ts:836-948, 2950-2998): where every stored point comes from, when one is stored,
 and which one a runtime resumes from.
 */
module ProjectionPoints {
  import opened Options
  import opened Projection
  import opened ProjectionInvariant
  import opened ProjectionCitations

  // ---------------------------------------------------------------- every stored point comes from the transport

  /** The point that a step's transport handed over, if it is one that can be stored. */
  function Offered(step: Step): Option<Point> {
    if step.World? then None
    else match step.action
         case Park(_, Given(p)) => Some(p)
         case Finish(_, Given(p)) => Some(p)
         case _ => None
  }

  /** The point keeps the transport's event and cursor, under the durable revision at which it is stored. */
  predicate StoredAs(offered: Point, stored: Point, revision: nat) {
    && stored.event == offered.event && stored.cursor == offered.cursor
    && stored.revision == revision && offered.revision <= revision
  }

  /** The revision that covers an event at position `k`: a terminal event covers itself. */
  function Covering(e: Event, k: nat): nat { if e.Finished? then k + 1 else k }

  lemma {:induction false} ValidPoint(raw: RawPoint, current: Option<Point>, durable: nat)
    ensures Validate(raw, current, durable).Valid? ==>
              raw.Given? && StoredAs(raw.point, Validate(raw, current, durable).point, durable)
  {}

  lemma {:induction false} EffectsHaveNoPoint(w: Watched, log: Log, r: Runtime, o: Observation, to: nat, k: nat)
    requires RuntimeOk(w, log, r) && r.observation == Some(o)
    requires |log| <= k < |FlushBatch(w, log, r, o, to).0|
    ensures CheckpointOf(FlushBatch(w, log, r, o, to).0[k]).None?
  {
    var keys, id := Keys(log[..r.known]), TextId(log[..r.view]);
    var j := OutgoingAt(keys, id, o.drafts, k - |log|);
    DraftAt(w, Keys(log), o.expected, o.drafts, j);
  }

  lemma {:induction false} ActBrings(w: Watched, log: Log, r: Runtime, a: Action, k: nat)
    requires WellFormed(w.frames) && RuntimeOk(w, log, r) && |log| <= k < |Act(w, log, r, a).0|
    requires CheckpointOf(Act(w, log, r, a).0[k]).Some?
    ensures k == |log| && Act(w, log, r, a).0 == log + [Act(w, log, r, a).0[k]]
    ensures var e := Act(w, log, r, a).0[k];
            && Offered(Local(0, a)).Some?
            && StoredAs(Offered(Local(0, a)).value, CheckpointOf(e).value, Covering(e, k))
            && (e.Finished? <==> a.Finish?)
  {
    if a.Flush? && r.observation.Some? && r.observation.value.flushing {
      EffectsHaveNoPoint(w, log, r, r.observation.value, a.to, k);
    }
    if a.Finish? { ValidPoint(a.raw, r.checkpoint, r.view + 1); }
    if a.Park? { ValidPoint(a.raw, r.checkpoint, r.view); }
  }

  /** The step hands over the point that the event at position `k` stores. */
  predicate Brings(step: Step, e: Event, k: nat) {
    && Offered(step).Some? && CheckpointOf(e).Some?
    && StoredAs(Offered(step).value, CheckpointOf(e).value, Covering(e, k))
    && (e.Finished? <==> step.action.Finish?)
  }

  /** A step that stores a point parks or ends an observation with that point, at the end of the log. */
  lemma {:induction false} StepBrings(w: Watched, s: System, step: Step, k: nat)
    requires Invariant(w, s) && Sane(s) && |s.log| <= k < |Next(w, s, step).log|
    requires CheckpointOf(Next(w, s, step).log[k]).Some?
    ensures k == |s.log| && Brings(step, Next(w, s, step).log[k], k)
  {
    if !step.World? {
      assert RuntimeOk(w, s.log, s.runtimes[step.i]);
      ActBrings(w, s.log, s.runtimes[step.i], step.action, k);
    }
  }

  /**
   In every run each stored resume point is one that the transport handed over, at the step that stored it: the same
   event and the same cursor, under the revision of the log that it covers.
   */
  lemma {:induction false} PointsComeFromTheTransport(w: Watched, n: nat, steps: seq<Step>, j: nat) returns (k: nat)
    requires WellFormed(w.frames)
    requires j < |Exec(w, n, steps).log| && CheckpointOf(Exec(w, n, steps).log[j]).Some?
    ensures k < |steps| && Exec(w, n, steps[..k]).log == Exec(w, n, steps).log[..j]
    ensures Brings(steps[k], Exec(w, n, steps).log[j], j)
  {
    assert steps != [] by { assert Exec(w, n, []).log == []; }
    var last := |steps| - 1;
    var before := steps[..last];
    LogGrows(w, n, steps);
    var s, all := Exec(w, n, before), Exec(w, n, steps).log;
    PrefixSame(s.log, all, j);
    if j < |s.log| {
      k := PointsComeFromTheTransport(w, n, before, j);
      assert before[..k] == steps[..k];
    } else {
      k := last;
      StepBrings(w, s, steps[last], j);
    }
  }

  lemma {:induction false} PrefixSame(a: Log, b: Log, j: nat)
    requires a <= b && j < |b|
    ensures j < |a| ==> a[..j] == b[..j] && a[j] == b[j]
    ensures j == |a| ==> b[..j] == a
  {}

  lemma {:induction false} LogGrows(w: Watched, n: nat, steps: seq<Step>)
    requires WellFormed(w.frames) && steps != []
    ensures var s := Exec(w, n, steps[..|steps| - 1]);
            && Sane(s) && Exec(w, n, steps) == Next(w, s, steps[|steps| - 1]) && s.log <= Exec(w, n, steps).log
  {
    NextOk(w, Exec(w, n, steps[..|steps| - 1]), steps[|steps| - 1]);
  }

  // ---------------------------------------------------------------- when a point is stored

  /** Nothing is drafted or being persisted, and the frames read so far are durable as far as they are due. */
  predicate Resting(log: Log, r: Runtime, o: Observation) {
    && r.view == r.known == |log| && r.observation == Some(o)
    && o.drafts == [] && !o.flushing && o.attempts == 0
  }

  /** A point that the transport may hand over: not ahead of what is durable. */
  predicate Covered(raw: RawPoint, revision: nat) { raw.Given? && raw.point.revision <= revision }

  function Stored(p: Point, revision: nat): Point { Point(p.event, p.cursor, revision) }

  lemma {:induction false} NoNewerPoint(w: Watched, log: Log, r: Runtime)
    requires LogSound(w, log) && RuntimeOk(w, log, r) && !TurnOver(w, log) && r.checkpoint.Some?
    ensures r.checkpoint.value.revision < |log|
  {
    var j :| 0 <= j < r.known && j < |log| && CheckpointOf(log[j]) == r.checkpoint;
    SoundAt(w, log, j);
    assert !Ends(w, log[j]);
  }

  /** The point that is stored already is no conflict, and is not stored again. */
  lemma {:induction false} SamePointAgain(p: Point, durable: nat)
    requires p.revision <= durable && 0 < durable
    ensures Validate(Given(p), Some(Stored(p, durable)), durable) == Valid(Stored(p, durable))
  {}

  /** A disconnected observation of a running turn stores its point exactly when it is covered and nothing waits. */
  lemma {:induction false} ParkStores(w: Watched, n: nat, steps: seq<Step>, i: nat, to: nat, raw: RawPoint)
    requires WellFormed(w.frames) && i < n
    requires var s := Exec(w, n, steps);
             && s.log != [] && !TurnOver(w, s.log) && s.runtimes[i].observation.Some?
             && Resting(s.log, s.runtimes[i], s.runtimes[i].observation.value)
             && !s.runtimes[i].observation.value.last
    ensures var s := Exec(w, n, steps);
            var next := Next(w, s, Local(i, Park(to, raw)));
            && next.runtimes[i].observation.None?
            && (if Covered(raw, |s.log|) && s.runtimes[i].observation.value.pending == []
                then && next.log == s.log + [Checkpointed(Stored(raw.point, |s.log|))]
                     && next.runtimes[i].checkpoint == Some(Stored(raw.point, |s.log|))
                else next.log == s.log && next.runtimes[i].checkpoint == s.runtimes[i].checkpoint)
  {
    var s := Exec(w, n, steps);
    var r := s.runtimes[i];
    assert RuntimeOk(w, s.log, r) && Sane(s);
    ParkActs(w, s.log, r, r.observation.value, to, raw);
  }

  lemma {:induction false} LearnsThePoint(log: Log, r: Runtime, p: Point)
    requires r.view == r.known == |log|
    ensures Learn(log + [Checkpointed(p)], r, |log| + 1).checkpoint == Some(p)
  {
    assert (log + [Checkpointed(p)])[|log|..|log| + 1] == [Checkpointed(p)];
    assert [Checkpointed(p)][..0] == [];
  }

  lemma {:induction false} PointIsValid(w: Watched, log: Log, r: Runtime, raw: RawPoint, durable: nat)
    requires LogSound(w, log) && RuntimeOk(w, log, r) && !TurnOver(w, log) && |log| <= durable && 0 < durable
    ensures Validate(raw, r.checkpoint, durable) ==
            if raw.Empty? then Absent
            else if Covered(raw, durable) then Valid(Stored(raw.point, durable)) else Refused
    ensures Covered(raw, durable) ==> r.checkpoint != Some(Stored(raw.point, durable))
  {
    if r.checkpoint.Some? { NoNewerPoint(w, log, r); }
  }

  lemma {:induction false} ParkActs(w: Watched, log: Log, r: Runtime, o: Observation, to: nat, raw: RawPoint)
    requires LogSound(w, log) && RuntimeOk(w, log, r) && Resting(log, r, o) && !o.last && log != [] && !TurnOver(w, log)
    ensures var (all, next) := Act(w, log, r, Park(to, raw));
            && next.observation.None?
            && (if Covered(raw, |log|) && o.pending == []
                then && all == log + [Checkpointed(Stored(raw.point, |log|))]
                     && next.checkpoint == Some(Stored(raw.point, |log|))
                else all == log && next.checkpoint == r.checkpoint)
  {
    assert log[..r.view] == log;
    PointIsValid(w, log, r, raw, |log|);
    if Covered(raw, |log|) { LearnsThePoint(log, r, Stored(raw.point, |log|)); }
  }

  /** The terminal event that a runtime may write now. */
  predicate MayFinish(w: Watched, log: Log, o: Observation) {
    && o.last && w.frames != [] && w.frames[|w.frames| - 1].Done? && !TurnOver(w, log)
    && (w.frames[|w.frames| - 1].outcome.Completed? ==> o.pending == [])
  }

  /**
   The terminal event carries the outcome of the last frame and the point, if there is one; a point that is malformed
   or ahead of the terminal event's own revision keeps the event from being written.
   */
  lemma {:induction false} FinishStores(w: Watched, n: nat, steps: seq<Step>, i: nat, to: nat, raw: RawPoint)
    requires WellFormed(w.frames) && i < n
    requires var s := Exec(w, n, steps);
             && s.runtimes[i].observation.Some?
             && Resting(s.log, s.runtimes[i], s.runtimes[i].observation.value)
             && MayFinish(w, s.log, s.runtimes[i].observation.value)
    ensures var s := Exec(w, n, steps);
            var next := Next(w, s, Local(i, Finish(to, raw)));
            Finishes(w, s.log, raw, next.log, next.runtimes[i])
  {
    var s := Exec(w, n, steps);
    var r := s.runtimes[i];
    assert RuntimeOk(w, s.log, r) && Sane(s);
    FinishActs(w, s.log, r, r.observation.value, to, raw);
  }

  /** What the end of an observation writes, and what its runtime then knows. */
  predicate Finishes(w: Watched, log: Log, raw: RawPoint, all: Log, next: Runtime)
    requires w.frames != [] && w.frames[|w.frames| - 1].Done?
  {
    var done := |w.frames| - 1;
    && next.observation.None?
    && if raw.Empty? || Covered(raw, |log| + 1)
       then && |all| == |log| + 1 && log <= all
            && all[|log|].Finished? && all[|log|].sequence == done && all[|log|].outcome == w.frames[done].outcome
            && all[|log|].checkpoint == (if raw.Empty? then None else Some(Stored(raw.point, |log| + 1)))
            && next.safe == done
       else all == log
  }

  lemma {:induction false} FinishActs(w: Watched, log: Log, r: Runtime, o: Observation, to: nat, raw: RawPoint)
    requires LogSound(w, log) && RuntimeOk(w, log, r) && Resting(log, r, o) && MayFinish(w, log, o)
    ensures Finishes(w, log, raw, Act(w, log, r, Finish(to, raw)).0, Act(w, log, r, Finish(to, raw)).1)
  {
    assert log[..r.view] == log;
    PointIsValid(w, log, r, raw, |log| + 1);
    assert Act(w, log, r, Finish(to, raw)) == FinishTurn(w, log, r, o, to, raw);
  }

  // ---------------------------------------------------------------- which point a runtime resumes from

  /** The event stores the point, and no later one stores any. */
  predicate LastAt(log: Log, p: Point, j: int) {
    && 0 <= j < |log| && CheckpointOf(log[j]) == Some(p)
    && forall k :: j < k < |log| ==> CheckpointOf(log[k]).None?
  }

  lemma {:induction false} LastAtSnoc(log: Log, p: Point, j: int)
    requires log != [] && CheckpointOf(log[|log| - 1]).None?
    ensures LastAt(log, p, j) <==> LastAt(log[..|log| - 1], p, j)
  {}

  /** The last point is the one that no later event replaces. */
  lemma {:induction false} LastIsLast(log: Log, p: Point)
    ensures LastCheckpoint(log) == Some(p) <==> exists j :: LastAt(log, p, j)
  {
    if log != [] {
      var init, last := log[..|log| - 1], |log| - 1;
      if CheckpointOf(log[last]).None? {
        LastIsLast(init, p);
        forall j ensures LastAt(log, p, j) <==> LastAt(init, p, j) { LastAtSnoc(log, p, j); }
      } else {
        if CheckpointOf(log[last]) == Some(p) { assert LastAt(log, p, last); }
        forall j | LastAt(log, p, j) ensures j == last {}
      }
    }
  }

  lemma {:induction false} LastOfBoth(a: Log, b: Log)
    ensures LastCheckpoint(a + b) == if LastCheckpoint(b).Some? then LastCheckpoint(b) else LastCheckpoint(a)
    decreases |b|
  {
    if b == [] {
      assert a + b == a;
    } else {
      LastOfBoth(a, b[..|b| - 1]);
      assert (a + b)[..|a + b| - 1] == a + b[..|b| - 1];
    }
  }

  lemma {:induction false} LastUpTo(log: Log, a: nat, b: nat)
    requires a <= b <= |log|
    ensures LastCheckpoint(log[..b]) ==
            if LastCheckpoint(log[a..b]).Some? then LastCheckpoint(log[a..b]) else LastCheckpoint(log[..a])
  {
    assert log[..b] == log[..a] + log[a..b];
    LastOfBoth(log[..a], log[a..b]);
  }

  /** The remembered point is the last one of the projected view or of the metadata read ahead of it. */
  predicate Remembers(log: Log, r: Runtime) {
    && Placed(log, r)
    && (r.checkpoint == LastCheckpoint(log[..r.view]) || r.checkpoint == LastCheckpoint(log[..r.known]))
  }

  lemma {:induction false} RemembersGrows(log: Log, all: Log, r: Runtime)
    requires Remembers(log, r) && log <= all
    ensures Remembers(all, r)
  {
    assert all[..r.view] == log[..r.view] && all[..r.known] == log[..r.known];
  }

  lemma {:induction false} LearnRemembers(log: Log, r: Runtime, to: nat)
    requires Remembers(log, r)
    ensures Remembers(log, Learn(log, r, to))
  {
    if r.view < to <= |log| {
      LastUpTo(log, r.view, to);
      if r.known <= to {
        LastUpTo(log, r.known, to);
        assert log[r.view..to] == log[r.view..r.known] + log[r.known..to];
        LastOfBoth(log[r.view..r.known], log[r.known..to]);
      }
    }
  }

  lemma {:induction false} RehydrateRemembers(log: Log, to: nat, known: nat)
    requires to <= known <= |log|
    ensures Remembers(log, Rehydrate(log, to, known))
  {
    assert log[0..known] == log[..known];
  }

  /** An append of one's own, and what is learned of it. */
  lemma {:induction false} OwnAppend(log: Log, r: Runtime, more: Log)
    requires Remembers(log, r)
    ensures Remembers(log + more, Learn(log + more, r, |log + more|))
  {
    RemembersGrows(log, log + more, r);
    LearnRemembers(log + more, r, |log + more|);
  }

  /** Only the revisions and the point matter. */
  predicate SameMemory(r: Runtime, next: Runtime) {
    next.view == r.view && next.known == r.known && next.checkpoint == r.checkpoint
  }

  lemma {:induction false} FlushRemembers(w: Watched, log: Log, r: Runtime, o: Observation, to: nat)
    requires Remembers(log, r)
    ensures Remembers(FlushBatch(w, log, r, o, to).0, FlushBatch(w, log, r, o, to).1)
  {
    var events := Outgoing(Keys(log[..r.known]), TextId(log[..r.view]), o.drafts);
    OwnAppend(log, r, events);
    LearnRemembers(log, r, to);
  }

  lemma {:induction false} FinishRemembers(w: Watched, log: Log, r: Runtime, o: Observation, to: nat, raw: RawPoint)
    requires Remembers(log, r) && |w.frames| > 0 && w.frames[|w.frames| - 1].Done?
    ensures Remembers(FinishTurn(w, log, r, o, to, raw).0, FinishTurn(w, log, r, o, to, raw).1)
  {
    var (all, next) := FinishTurn(w, log, r, o, to, raw);
    if |all| > |log| { OwnAppend(log, r, all[|log|..]); assert all == log + all[|log|..]; }
    LearnRemembers(log, r, to);
  }

  lemma {:induction false} ParkRemembers(w: Watched, log: Log, r: Runtime, o: Observation, to: nat, raw: RawPoint)
    requires Remembers(log, r)
    ensures Remembers(ParkTurn(w, log, r, o, to, raw).0, ParkTurn(w, log, r, o, to, raw).1)
  {
    var (all, next) := ParkTurn(w, log, r, o, to, raw);
    if |all| > |log| { OwnAppend(log, r, all[|log|..]); assert all == log + all[|log|..]; }
    LearnRemembers(log, r, to);
  }

  lemma {:induction false} AdmitRemembers(w: Watched, log: Log, r: Runtime, u: nat, to: nat)
    requires Remembers(log, r)
    ensures Remembers(AdmitTurn(w, log, r, u, to).0, AdmitTurn(w, log, r, u, to).1)
  {
    OwnAppend(log, r, [Admitted(u)]);
    LearnRemembers(log, r, to);
  }

  lemma {:induction false} ReceiveRemembers(log: Log, r: Runtime, o: Observation, k: nat, f: Frame, minted: nat)
    requires Placed(log, r)
    ensures SameMemory(r, Receive(log, r, o, k, f, minted))
  {}

  lemma {:induction false} DuringRemembers(w: Watched, log: Log, r: Runtime, o: Observation, a: Action)
    requires Remembers(log, r)
    ensures Remembers(During(w, log, r, o, a).0, During(w, log, r, o, a).1)
  {
    match a
    case Flush(to) => FlushRemembers(w, log, r, o, to);
    case Deliver(k, minted) => if k < |w.frames| { ReceiveRemembers(log, r, o, k, w.frames[k], minted); }
    case Finish(to, raw) =>
      if |w.frames| > 0 && w.frames[|w.frames| - 1].Done? { FinishRemembers(w, log, r, o, to, raw); }
    case Park(to, raw) => ParkRemembers(w, log, r, o, to, raw);
    case _ =>
  }

  lemma {:induction false} ActRemembers(w: Watched, log: Log, r: Runtime, a: Action)
    requires Remembers(log, r) && -1 <= r.safe
    ensures Remembers(Act(w, log, r, a).0, Act(w, log, r, a).1)
  {
    match a
    case Sync(to) => LearnRemembers(log, r, to);
    case Crash(to, known) => if to <= known <= |log| { RehydrateRemembers(log, to, known); }
    case Admit(u, to) => AdmitRemembers(w, log, r, u, to);
    case Observe =>
    case _ => if r.observation.Some? { DuringRemembers(w, log, r, r.observation.value, a); }
  }

  ghost predicate AllRemember(s: System) { forall i :: 0 <= i < |s.runtimes| ==> Remembers(s.log, s.runtimes[i]) }

  lemma {:induction false} NextRemembers(w: Watched, s: System, step: Step)
    requires Invariant(w, s) && Sane(s) && AllRemember(s)
    ensures AllRemember(Next(w, s, step))
  {
    var next := Next(w, s, step);
    NextOk(w, s, step);
    forall i | 0 <= i < |next.runtimes| ensures Remembers(next.log, next.runtimes[i]) {
      RemembersGrows(s.log, next.log, s.runtimes[i]);
      if step.Local? && step.i == i { ActRemembers(w, s.log, s.runtimes[i], step.action); }
    }
  }

  lemma {:induction false} RunRemembers(w: Watched, n: nat, steps: seq<Step>)
    requires WellFormed(w.frames)
    ensures AllRemember(Exec(w, n, steps))
  {
    if steps != [] {
      var before := steps[..|steps| - 1];
      RunRemembers(w, n, before);
      NextRemembers(w, Exec(w, n, before), steps[|steps| - 1]);
    }
  }

  /** A runtime that is up to date resumes from the last point in the log, whoever stored it. */
  lemma {:induction false} ResumesFromTheLast(w: Watched, n: nat, steps: seq<Step>, i: nat)
    requires WellFormed(w.frames) && i < n
    requires var s := Exec(w, n, steps); s.runtimes[i].view == s.runtimes[i].known == |s.log|
    ensures var s := Exec(w, n, steps);
            s.runtimes[i].checkpoint == LastCheckpoint(s.log)
  {
    var s := Exec(w, n, steps);
    RunRemembers(w, n, steps);
    assert Remembers(s.log, s.runtimes[i]);
    assert s.log[..|s.log|] == s.log;
  }
}
