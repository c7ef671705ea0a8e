/**
 What every run of turn projection guarantees.  `Exec(w, n, steps)` is the state after
 any steps of any `n` runtimes, so each lemma here speaks of every reachable state.
 */
module ProjectionTheorems {
  import opened Options
  import opened Projection
  import opened ProjectionInvariant
  import opened ProjectionCitations

  // ---------------------------------------------------------------- reference definitions

  predicate IsLasting(e: Event) { e.Effect? && !e.payload.Linked? }

  /** The sequences of the lasting effects, in log order. */
  function Written(log: Log): seq<nat> {
    if log == [] then []
    else
      var e := log[|log| - 1];
      Written(log[..|log| - 1]) + (if IsLasting(e) then [e.sequence] else [])
  }

  /** The text the log spells. */
  function Spelled(log: Log): string {
    if log == [] then ""
    else
      var e := log[|log| - 1];
      Spelled(log[..|log| - 1]) + (if IsText(e) then e.payload.text else "")
  }

  /** The sequences of the response's lasting frames, in stream order. */
  function Due(frames: seq<Frame>): seq<nat> {
    if frames == [] then []
    else
      var n := |frames| - 1;
      Due(frames[..n]) + (if Lasting(frames[n]) then [n] else [])
  }

  /** The concatenated deltas of the response. */
  function Deltas(frames: seq<Frame>): string {
    if frames == [] then ""
    else
      var n := |frames| - 1;
      Deltas(frames[..n]) + (if frames[n].Text? then frames[n].delta else "")
  }

  // ---------------------------------------------------------------- exactly once, in order

  lemma {:induction false} DuePrefix(frames: seq<Frame>, h: nat)
    requires h <= |frames|
    ensures Due(frames[..h]) <= Due(frames) && Deltas(frames[..h]) <= Deltas(frames)
  {
    if h < |frames| {
      var init := frames[..|frames| - 1];
      DuePrefix(init, h);
      assert init[..h] == frames[..h];
    } else {
      assert frames[..h] == frames;
    }
  }

  /** Frames without a lasting effect add nothing. */
  lemma {:induction false} DueSkips(frames: seq<Frame>, h: nat, n: nat)
    requires h <= n <= |frames| && forall t :: h <= t < n ==> !Lasting(frames[t])
    ensures Due(frames[..n]) == Due(frames[..h]) && Deltas(frames[..n]) == Deltas(frames[..h])
  {
    if h < n {
      DueSkips(frames, h, n - 1);
      assert frames[..n][..n - 1] == frames[..n - 1];
    }
  }

  /** `h` splits the response into what the log has written and what it has not. */
  predicate UpTo(w: Watched, log: Log, h: nat) {
    && h <= |w.frames|
    && Written(log) == Due(w.frames[..h])
    && Spelled(log) == Deltas(w.frames[..h])
    && forall t :: h <= t < |w.frames| && Lasting(w.frames[t]) ==> t !in Keys(log)
  }

  /** A sound log has written exactly the lasting frames below some point of the response. */
  lemma {:induction false} WrittenUpTo(w: Watched, log: Log) returns (h: nat)
    requires LogSound(w, log)
    ensures UpTo(w, log, h)
  {
    h := 0;
    if log != [] {
      h := WrittenUpTo(w, log[..|log| - 1]);
      if IsLasting(log[|log| - 1]) {
        WrittenNext(w, log, h);
        h := log[|log| - 1].sequence + 1;
      }
    }
  }

  lemma {:induction false} WrittenNext(w: Watched, log: Log, h: nat)
    requires LogSound(w, log) && log != [] && IsLasting(log[|log| - 1]) && UpTo(w, log[..|log| - 1], h)
    ensures UpTo(w, log, log[|log| - 1].sequence + 1)
  {
    var init, s := log[..|log| - 1], log[|log| - 1].sequence;
    if s < h {
      WrittenIsKeyed(w, init, h, s);
    }
    DueSkips(w.frames, h, s);
    assert w.frames[..s + 1][..s] == w.frames[..s];
  }

  lemma {:induction false} WrittenIsKeyed(w: Watched, log: Log, h: nat, s: nat)
    requires LogSound(w, log) && s < h <= |w.frames| && Lasting(w.frames[s]) && Written(log) == Due(w.frames[..h])
    ensures s in Keys(log)
  {
    DueHas(w.frames[..h], s);
    WrittenInKeys(log);
  }

  lemma {:induction false} DueHas(frames: seq<Frame>, s: nat)
    requires s < |frames| && Lasting(frames[s])
    ensures s in Due(frames)
  {
    if s < |frames| - 1 {
      DueHas(frames[..|frames| - 1], s);
    }
  }

  lemma {:induction false} WrittenInKeys(log: Log)
    ensures forall s :: s in Written(log) ==> s in Keys(log)
  {
    if log != [] {
      WrittenInKeys(log[..|log| - 1]);
    }
  }

  lemma {:induction false} KeysDistinct(w: Watched, log: Log, i: nat, j: nat)
    requires LogSound(w, log) && i < j < |log| && Keyed(log[i]) && Keyed(log[j])
    ensures log[i].sequence != log[j].sequence
  {
    SoundAt(w, log, j);
    KeyIn(log[..j], i);
  }

  /** Exactly once: no key twice, and the log spells the response so far with no gap, repeat or reordering. */
  lemma {:induction false} ExactlyOnce(w: Watched, n: nat, steps: seq<Step>)
    requires WellFormed(w.frames)
    ensures var log := Exec(w, n, steps).log;
            && (forall i, j :: 0 <= i < j < |log| && Keyed(log[i]) && Keyed(log[j]) ==>
                  log[i].sequence != log[j].sequence)
            && Written(log) <= Due(w.frames)
            && Spelled(log) <= Deltas(w.frames)
  {
    var log := Exec(w, n, steps).log;
    forall i, j | 0 <= i < j < |log| && Keyed(log[i]) && Keyed(log[j]) ensures log[i].sequence != log[j].sequence {
      KeysDistinct(w, log, i, j);
    }
    var h := WrittenUpTo(w, log);
    DuePrefix(w.frames, h);
  }

  lemma {:induction false} NothingAfterTheEnd(w: Watched, log: Log, j: nat, i: nat)
    requires WellFormed(w.frames) && LogSound(w, log) && j < i < |log| && log[j].Finished?
    ensures !IsLasting(log[i]) && !log[i].Finished?
  {
    SoundAt(w, log, j);
    SoundAt(w, log, i);
    assert log[..i][..j] == log[..j];
    KeysPrefix(log[..i], j);
    KeyIn(log[..i], j);
  }

  lemma {:induction false} AllBeforeTheEnd(w: Watched, before: Log)
    requires WellFormed(w.frames) && LogSound(w, before) && Covered(w, Keys(before), |w.frames| - 1)
    requires w.frames[|w.frames| - 1].Done?
    ensures Written(before) == Due(w.frames) && Spelled(before) == Deltas(w.frames)
  {
    var h := WrittenUpTo(w, before);
    DueSkips(w.frames, h, |w.frames|);
    assert w.frames[..|w.frames|] == w.frames;
  }

  lemma {:induction false} LinkHasText(w: Watched, log: Log, i: nat)
    requires LogSound(w, log) && i < |log| && log[i].Effect? && log[i].payload.Linked?
    ensures exists t :: 0 <= t < |w.frames| && Words(w.frames[t])
  {
    SoundAt(w, log, i);
    TextIdNone(log[..i]);
    var k :| 0 <= k < i && IsText(log[..i][k]);
    SoundAt(w, log, k);
    assert Words(w.frames[log[k].sequence]);
  }

  /** What follows the terminal event is only ever a citation batch that is exposed. */
  lemma {:induction false} OnlyExposedFollows(w: Watched, log: Log, j: nat, i: nat)
    requires WellFormed(w.frames) && LogSound(w, log) && j < i < |log| && log[j].Finished? && Keyed(log[i])
    requires AllCited(w, Keys(log[..j]))
    ensures log[i].Effect? && log[i].payload.Linked? && Exposed(w.frames, log[i].sequence) && Straggling(w.frames)
  {
    NothingAfterTheEnd(w, log, j, i);
    SoundAt(w, log, j);
    SoundAt(w, log, i);
    assert log[..i][..j] == log[..j];
    KeysPrefix(log[..i], j);
    LinkHasText(w, log, i);
  }

  /**
   The terminal event closes the response.  Before it stand all started, text and tool-call effects and every citation
   batch that is not exposed; after it comes nothing of the response but exposed citation batches.
   */
  lemma {:induction false} CompleteAtTheEnd(w: Watched, n: nat, steps: seq<Step>, j: nat)
    requires WellFormed(w.frames)
    requires var log := Exec(w, n, steps).log; j < |log| && log[j].Finished?
    ensures var log := Exec(w, n, steps).log;
            && Written(log[..j]) == Due(w.frames)
            && Spelled(log[..j]) == Deltas(w.frames)
            && AllCited(w, Keys(log[..j]))
            && (forall i :: j < i < |log| && Keyed(log[i]) ==>
                  log[i].Effect? && log[i].payload.Linked? && Exposed(w.frames, log[i].sequence))
  {
    var log := Exec(w, n, steps).log;
    SoundAt(w, log, j);
    AllBeforeTheEnd(w, log[..j]);
    RunCites(w, n, steps);
    forall i | j < i < |log| && Keyed(log[i])
      ensures log[i].Effect? && log[i].payload.Linked? && Exposed(w.frames, log[i].sequence)
    {
      OnlyExposedFollows(w, log, j, i);
    }
  }

  // ---------------------------------------------------------------- safe resume

  /**
   Safe resume: no runtime's safe sequence passes a started, non-empty text or tool-call frame
   that is missing from the log; while the turn is still running it passes no usage frame, and no unwritten citation
   batch but a skippable one.
   */
  lemma {:induction false} SafeResume(w: Watched, n: nat, steps: seq<Step>, i: nat, t: nat)
    requires WellFormed(w.frames) && i < n
    requires t <= Exec(w, n, steps).runtimes[i].safe
    ensures t < |w.frames|
    ensures Lasting(w.frames[t]) ==> t in Keys(Exec(w, n, steps).log)
    ensures w.frames[t].Usage? ==> TurnOver(w, Exec(w, n, steps).log)
    ensures w.frames[t].Citations? && !Skippable(w.frames, t) ==>
              t in Keys(Exec(w, n, steps).log) || TurnOver(w, Exec(w, n, steps).log)
  {
    var s := Exec(w, n, steps);
    assert RuntimeOk(w, s.log, s.runtimes[i]);
    if w.frames[t].Citations? && !Skippable(w.frames, t) { SafeResumeOfCitations(w, n, steps, i, t); }
  }

  // ---------------------------------------------------------------- agreement

  lemma {:induction false} CarrierNamesFirstText(w: Watched, log: Log, i: nat)
    requires LogSound(w, log) && i < |log| && Carries(log[i])
    ensures TextId(log) == Some(log[i].payload.message)
  {
    SoundAt(w, log, i);
    TextIdSnoc(log[..i], log[i]);
    assert log == (log[..i] + [log[i]]) + log[i + 1..];
    TextIdGrows(log[..i] + [log[i]], log[i + 1..]);
  }

  lemma {:induction false} CompletionNamesText(w: Watched, log: Log, i: nat, j: nat)
    requires WellFormed(w.frames) && LogSound(w, log) && i < |log| && j < |log| && IsText(log[i])
    requires log[j].Finished? && log[j].outcome.Completed?
    ensures log[j].output == [log[i].payload.message]
  {
    if j < i {
      NothingAfterTheEnd(w, log, j, i);
    } else {
      assert log[..j][i] == log[i];
      SoundAt(w, log, j);
      CarrierNamesFirstText(w, log[..j], i);
    }
  }

  /** However many ids the runtimes invent, the turn has one message, and its completion names it. */
  lemma {:induction false} OneMessage(w: Watched, n: nat, steps: seq<Step>, i: nat, j: nat)
    requires WellFormed(w.frames)
    requires var log := Exec(w, n, steps).log; i < |log| && j < |log| && Carries(log[i])
    ensures var log := Exec(w, n, steps).log;
            && (Carries(log[j]) ==> log[j].payload.message == log[i].payload.message)
            && (log[j].Finished? && log[j].outcome.Completed? && IsText(log[i]) ==>
                  log[j].output == [log[i].payload.message])
  {
    var log := Exec(w, n, steps).log;
    CarrierNamesFirstText(w, log, i);
    if Carries(log[j]) {
      CarrierNamesFirstText(w, log, j);
    }
    if log[j].Finished? && log[j].outcome.Completed? && IsText(log[i]) {
      CompletionNamesText(w, log, i, j);
    }
  }

  /** Observed responses end a turn at most once, and never a turn that is already over. */
  lemma {:induction false} OneEnding(w: Watched, n: nat, steps: seq<Step>, i: nat, j: nat)
    requires WellFormed(w.frames)
    requires var log := Exec(w, n, steps).log; i < j < |log| && Ends(w, log[i])
    ensures !Exec(w, n, steps).log[j].Finished?
  {
    var log := Exec(w, n, steps).log;
    SoundAt(w, log, j);
    assert log[..j][i] == log[i];
  }

  predicate EndsTurn(w: Watched, e: Event, u: nat) { e == Settled(u) || (e.Finished? && u == w.turn) }

  lemma {:induction false} ActiveUntilEnded(w: Watched, log: Log, i: nat)
    requires LogSound(w, log) && i < |log| && log[i].Admitted?
    requires forall k :: i < k < |log| ==> !EndsTurn(w, log[k], log[i].turn)
    ensures ActiveTurn(w, log) == Some(log[i].turn)
  {
    if i < |log| - 1 {
      var init := log[..|log| - 1];
      assert forall k :: i < k < |init| ==> init[k] == log[k];
      ActiveUntilEnded(w, init, i);
    }
  }

  /** Turns do not overlap: a turn is admitted only after every earlier one has ended. */
  lemma {:induction false} AdmittedAlone(w: Watched, n: nat, steps: seq<Step>, i: nat, j: nat)
    requires WellFormed(w.frames)
    requires var log := Exec(w, n, steps).log; i < j < |log| && log[i].Admitted? && log[j].Admitted?
    ensures var log := Exec(w, n, steps).log;
            exists k :: i < k < j && EndsTurn(w, log[k], log[i].turn)
  {
    var log := Exec(w, n, steps).log;
    SoundAt(w, log, j);
    if !exists k :: i < k < j && EndsTurn(w, log[k], log[i].turn) {
      assert forall k :: i < k < |log[..j]| ==> log[..j][k] == log[k];
      ActiveUntilEnded(w, log[..j], i);
    }
  }

  // ---------------------------------------------------------------- resume points

  /** Stored resume points never run ahead of the log that holds them and never go back. */
  lemma {:induction false} CheckpointsAdvance(w: Watched, n: nat, steps: seq<Step>, i: nat, j: nat)
    requires WellFormed(w.frames)
    requires var log := Exec(w, n, steps).log;
             i < j < |log| && CheckpointOf(log[i]).Some? && CheckpointOf(log[j]).Some?
    ensures var log := Exec(w, n, steps).log;
            CheckpointOf(log[i]).value.revision <= CheckpointOf(log[j]).value.revision <= j + 1
  {
    var log := Exec(w, n, steps).log;
    SoundAt(w, log, i);
    SoundAt(w, log, j);
  }

  /**
   While the turn runs and the store is not behind the remembered metadata, a resume point is refused only for being
   malformed or beyond the durable revision: the "conflicts with the prior durable point" refusals never fire.
   */
  lemma {:induction false} CheckpointNeverConflicts(w: Watched, n: nat, steps: seq<Step>, i: nat, raw: RawPoint,
                                                    durable: nat)
    requires WellFormed(w.frames) && i < n
    requires var s := Exec(w, n, steps);
             durable >= s.runtimes[i].known && !TurnOver(w, s.log[..s.runtimes[i].known])
    ensures var r := Exec(w, n, steps).runtimes[i];
            Validate(raw, r.checkpoint, durable).Refused? <==>
              raw.Malformed? || (raw.Given? && (durable == 0 || raw.point.revision > durable))
  {
    var s := Exec(w, n, steps);
    var r := s.runtimes[i];
    assert RuntimeOk(w, s.log, r);
    if r.checkpoint.Some? {
      var j :| 0 <= j < r.known && j < |s.log| && CheckpointOf(s.log[j]) == r.checkpoint;
      SoundAt(w, s.log, j);
      assert !Ends(w, s.log[..r.known][j]);
    }
  }

  // ---------------------------------------------------------------- replayed frames

  /**
   A new observation answers a frame below its start as a duplicate, with one exception:
   it refuses exactly those stale frames whose effect is not durable as far as it knows.
   When it is up to date these are the empty texts, and citations that were never written.
   */
  lemma {:induction false} StaleReplay(w: Watched, n: nat, steps: seq<Step>, i: nat, k: nat)
    requires WellFormed(w.frames) && i < n
    requires var s := Exec(w, n, steps);
             k <= s.runtimes[i].safe && s.runtimes[i].view == |s.log| && !TurnOver(w, s.log)
    ensures var s := Exec(w, n, steps);
            var r := s.runtimes[i];
            Judge(Begin(s.log, r), r.identified, Keys(s.log), k, w.frames[k]).Rejected? <==>
              w.frames[k] == Text("") || (w.frames[k].Citations? && k !in Keys(s.log))
  {
    var s := Exec(w, n, steps);
    assert RuntimeOk(w, s.log, s.runtimes[i]);
    if k in Keys(s.log) {
      var j := KeyAt(s.log, k);
      SoundAt(w, s.log, j);
    }
  }
}
