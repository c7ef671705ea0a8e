/**
 Runs that reach the exceptions: how a batch of citations is passed by the safe sequence, how one follows the terminal
 event, and how a replayed frame is refused.  Each lemma returns the steps of the run.
 */
module ProjectionRuns {
  import opened Options
  import opened Projection
  import opened ProjectionInvariant
  import opened ProjectionCitations

  function PendKeys(pending: seq<(nat, nat)>): set<nat> { set i | 0 <= i < |pending| :: pending[i].0 }

  /** An up-to-date runtime between two batches, about to read frame `m`. */
  predicate Ready(log: Log, r: Runtime, m: nat) {
    && r.view == r.known == |log| && r.observation.Some?
    && (r.identified || (m == 0 && Keys(log) == {}))
    && var o := r.observation.value;
       && o.expected == m && o.drafts == [] && o.mark.None? && o.attempts == 0
       && !o.flushing && !o.failing && !o.last
  }

  predicate Aware(log: Log, o: Observation) { TextId(log).Some? ==> o.message.Some? }

  predicate Tidy(o: Observation) { o.message.Some? ==> o.pending == [] }

  /** What reading and persisting frame `m` does to the log and to its reader. */
  ghost predicate Proceeded(w: Watched, log: Log, r: Runtime, m: nat, after: Log, next: Runtime)
    requires Ready(log, r, m) && m < |w.frames|
  {
    && Ready(after, next, m + 1) && log <= after
    && var f, o, p := w.frames[m], r.observation.value, next.observation.value;
       && Keys(after) <= Keys(log) + {m} + (if Words(f) then PendKeys(o.pending) else {})
       && PendKeys(p.pending) <= PendKeys(o.pending) + {m}
       && (!Words(f) ==> PendKeys(o.pending) <= PendKeys(p.pending) && TextId(after) == TextId(log))
       && (m in Keys(log) || !Lasting(f) ==>
             o.message.None? ==> after == log && p.message.None?)
       && (f.Citations? && m !in Keys(log) && o.message.None? ==> m in PendKeys(p.pending))
       && (Aware(log, o) && Tidy(o) ==> Aware(after, p) && Tidy(p))
       && (TextId(after).None? && o.message.None? && !Words(f) ==> p.message.None?)
       && p.unsafe == (o.unsafe || f.Usage?)
       && (Lasting(f) && m !in Keys(log) && !o.unsafe ==> next.safe == m && Marked(after, m))
       && next.safe >= -1
       && (!TurnOver(w, log) ==> !TurnOver(w, after))
  }

  /** The log holds a resume-safe effect of the frame. */
  predicate Marked(log: Log, m: nat) {
    exists j :: 0 <= j < |log| && log[j].Effect? && log[j].resumeSafe && log[j].sequence == m
  }

  lemma {:induction false} PendKeysAdd(pending: seq<(nat, nat)>, k: nat, b: nat)
    ensures PendKeys(pending + [(k, b)]) == PendKeys(pending) + {k}
  {
    var more := pending + [(k, b)];
    assert more[|pending|].0 == k;
    forall x | x in PendKeys(pending) ensures x in PendKeys(more) {
      var i :| 0 <= i < |pending| && pending[i].0 == x;
      assert more[i].0 == x;
    }
  }

  // ---------------------------------------------------------------- delivering one frame

  /** A frame that is already durable. */
  lemma {:induction false} DeliverKnown(w: Watched, log: Log, r: Runtime, m: nat, x: nat)
    requires Ready(log, r, m) && m < |w.frames| && m in Keys(log) && -1 <= r.safe
    ensures var o := r.observation.value;
            Act(w, log, r, Deliver(m, x)) == (log, r.(observation := Some(Advance(o, Duplicate, m, w.frames[m]))))
  {
    assert log[..r.known] == log;
  }

  lemma {:induction false} NewIsAccepted(w: Watched, log: Log, r: Runtime, m: nat)
    requires WellFormed(w.frames) && Ready(log, r, m) && m < |w.frames| && m !in Keys(log)
    requires ObservationOk(w, log, r.observation.value)
    ensures Judge(r.observation.value, r.identified, Keys(log), m, w.frames[m]).Accepted?
  {}

  lemma {:induction false} DeliveryIsReceived(w: Watched, log: Log, r: Runtime, m: nat, x: nat)
    requires Ready(log, r, m) && m < |w.frames| && -1 <= r.safe
    ensures Placed(log, r) && log[..r.known] == log
    ensures Act(w, log, r, Deliver(m, x)) == (log, Receive(log, r, r.observation.value, m, w.frames[m], x))
  {}

  /** A frame that is new. */
  lemma {:induction false} DeliverNew(w: Watched, log: Log, r: Runtime, m: nat, x: nat)
    requires WellFormed(w.frames) && Ready(log, r, m) && m < |w.frames| && m !in Keys(log) && -1 <= r.safe
    requires ObservationOk(w, log, r.observation.value)
    ensures var o, f := r.observation.value, w.frames[m];
            Act(w, log, r, Deliver(m, x)) ==
              (log, r.(identified := true, observation := Some(Draft(Advance(o, Accepted, m, f), m, f, x))))
  {
    NewIsAccepted(w, log, r, m);
    DeliveryIsReceived(w, log, r, m, x);
  }

  lemma {:induction false} CutDrafts(w: Watched, log: Log, r: Runtime)
    requires Placed(log, r) && -1 <= r.safe && r.observation.Some?
    requires r.observation.value.drafts != [] && !r.observation.value.flushing
    ensures Act(w, log, r, Cut) == (log, r.(observation := Some(r.observation.value.(flushing := true))))
  {}

  lemma {:induction false} FlushDrafts(w: Watched, log: Log, r: Runtime, o: Observation, out: Log)
    requires r.view == r.known == |log| && -1 <= r.safe && r.observation == Some(o) && o.flushing && o.attempts == 0
    requires out == Outgoing(Keys(log), TextId(log), o.drafts) && out != []
    ensures Act(w, log, r, Flush(0)) == (log + out, Settle(log + out, Learn(log + out, r, |log + out|), o))
  {
    assert log[..r.known] == log && log[..r.view] == log;
  }

  // ---------------------------------------------------------------- reading on

  lemma {:induction false} OutgoingHas(keys: set<nat>, id: Option<nat>, drafts: Log, j: nat) returns (i: nat)
    requires j < |drafts| && !(Keyed(drafts[j]) && drafts[j].sequence in keys)
    ensures i < |Outgoing(keys, id, drafts)| && Outgoing(keys, id, drafts)[i] == Rebind(id, drafts[j])
  {
    var init := drafts[..|drafts| - 1];
    if j < |init| {
      i := OutgoingHas(keys, id, init, j);
    } else {
      i := |Outgoing(keys, id, init)|;
    }
  }

  /** Effects do not end a turn. */
  lemma {:induction false} EffectsGoOn(w: Watched, log: Log, out: Log)
    requires !TurnOver(w, log) && forall i :: 0 <= i < |out| ==> out[i].Effect?
    ensures !TurnOver(w, log + out)
  {
    forall j | 0 <= j < |log + out| ensures !Ends(w, (log + out)[j]) {
      if j < |log| { assert (log + out)[j] == log[j]; }
    }
  }

  /** The effects that a batch of drafts appends to an up-to-date log. */
  lemma {:induction false} OutIsEffects(w: Watched, log: Log, n: nat, id: Option<nat>, drafts: Log)
    requires DraftsOk(w, Keys(log), n, drafts)
    ensures forall i :: 0 <= i < |Outgoing(Keys(log), id, drafts)| ==> Outgoing(Keys(log), id, drafts)[i].Effect?
  {
    forall i | 0 <= i < |Outgoing(Keys(log), id, drafts)| ensures Outgoing(Keys(log), id, drafts)[i].Effect? {
      var j := OutgoingAt(Keys(log), id, drafts, i);
      DraftAt(w, Keys(log), n, drafts, j);
    }
  }

  /** The log after a flush: what it holds, and that the first draft is there with its mark. */
  ghost predicate Flushes(w: Watched, log: Log, o: Observation, m: nat, after: Log)
    requires o.drafts != [] && o.drafts[0].Effect?
  {
    && log <= after && Keys(after) == Keys(log) + Keys(o.drafts)
    && (!TurnOver(w, log) ==> !TurnOver(w, after))
    && (o.drafts[0].resumeSafe ==> Marked(after, m))
    && (TextId(o.drafts).None? ==> TextId(after) == TextId(log))
    && (TextId(o.drafts).Some? ==> TextId(after).Some?)
  }

  lemma {:induction false} FlushedLog(w: Watched, log: Log, o: Observation, m: nat) returns (out: Log)
    requires LogSound(w, log) && ObservationOk(w, log, o) && o.drafts != [] && m !in Keys(log)
    requires o.drafts[0].Effect? && o.drafts[0].sequence == m
    ensures out == Outgoing(Keys(log), TextId(log), o.drafts) && out != [] && Flushes(w, log, o, m, log + out)
  {
    out := Outgoing(Keys(log), TextId(log), o.drafts);
    OutgoingOk(w, log, o.expected, o.message, o.drafts);
    OutIsEffects(w, log, o.expected, TextId(log), o.drafts);
    if !TurnOver(w, log) { EffectsGoOn(w, log, out); }
    var i := OutgoingHas(Keys(log), TextId(log), o.drafts, 0);
    assert (log + out)[|log| + i] == out[i];
    TextIdGrows(log, out);
  }

  /** The reader after its flush. */
  lemma {:induction false} SettledReader(log: Log, r: Runtime, o: Observation, all: Log)
    requires r.view == r.known == |log| && log <= all && -1 <= r.safe && r.identified && !o.failing && |log| < |all|
    ensures var next := Settle(all, Learn(all, r, |all|), o);
            && next.view == next.known == |all| && next.identified && next.safe >= -1
            && (o.mark.Some? ==> next.safe == o.mark.value)
            && next.observation ==
               Some(o.(message := if TextId(all).Some? then TextId(all) else o.message, drafts := [],
                       mark := None, flushing := false, attempts := 0))
  {
    MaxSafeSpec(all[|log|..|all|]);
    assert all[..|all|] == all;
  }

  // ---------------------------------------------------------------- steps of a run

  predicate Mints(step: Step, x: nat) { !step.World? && step.action.Deliver? && step.action.minted == x }

  /**
   What the code's own order of calls allows: a turn is admitted once and before a runtime that has seen its admission
   observes it (src/runtime.ts:600-630), and no message id is minted twice.
   */
  predicate Permitted(w: Watched, s: System, before: seq<Step>, step: Step)
    requires Sane(s)
  {
    step.World? || step.i >= |s.runtimes|
    || (match step.action
        case Observe => Admitted(w.turn) in s.log[..s.runtimes[step.i].view]
        case Deliver(_, x) => forall k :: 0 <= k < |before| ==> !Mints(before[k], x)
        case Admit(u, _) => Admitted(u) !in s.log
        case _ => true)
  }

  ghost predicate Possible(w: Watched, n: nat, steps: seq<Step>)
    requires WellFormed(w.frames)
  {
    steps == []
    || var before := steps[..|steps| - 1];
       Possible(w, n, before) && Permitted(w, Exec(w, n, before), before, steps[|steps| - 1])
  }

  /** Whoever observes the turn, and whatever of its response is in the log, comes after the admission. */
  ghost predicate Introduced(w: Watched, s: System) {
    && (forall i :: 0 <= i < |s.runtimes| && s.runtimes[i].observation.Some? ==> Admitted(w.turn) in s.log)
    && (forall j :: 0 <= j < |s.log| && Keyed(s.log[j]) ==> Admitted(w.turn) in s.log[..j])
  }

  /** Only an observation writes of the response, and only `Observe` begins one. */
  lemma {:induction false} ActSpeaks(w: Watched, log: Log, r: Runtime, a: Action)
    requires Placed(log, r) && -1 <= r.safe && r.observation.None?
    ensures Act(w, log, r, a).1.observation.Some? ==> a.Observe?
    ensures forall j :: |log| <= j < |Act(w, log, r, a).0| ==> !Keyed(Act(w, log, r, a).0[j])
  {}

  lemma {:induction false} IntroducedGrows(w: Watched, s: System, log: Log, rs: seq<Runtime>)
    requires Introduced(w, s) && s.log <= log && |rs| == |s.runtimes|
    requires Admitted(w.turn) in s.log || forall j :: |s.log| <= j < |log| ==> !Keyed(log[j])
    requires Admitted(w.turn) in s.log || forall i :: 0 <= i < |rs| ==> rs[i].observation.None?
    ensures Introduced(w, System(log, rs))
  {
    if Admitted(w.turn) in s.log {
      var k :| 0 <= k < |s.log| && s.log[k] == Admitted(w.turn);
      assert log[k] == Admitted(w.turn);
    }
    forall j | 0 <= j < |log| && Keyed(log[j]) ensures Admitted(w.turn) in log[..j] {
      if j < |s.log| {
        assert log[..j] == s.log[..j];
      } else {
        var k :| 0 <= k < |s.log| && s.log[k] == Admitted(w.turn);
        assert log[..j][k] == Admitted(w.turn);
      }
    }
  }

  lemma {:induction false} NextIntroduces(w: Watched, s: System, before: seq<Step>, step: Step)
    requires Invariant(w, s) && Sane(s) && Introduced(w, s) && Permitted(w, s, before, step)
    ensures Introduced(w, Next(w, s, step))
  {
    var next := Next(w, s, step);
    NextOk(w, s, step);
    if Admitted(w.turn) !in s.log && !step.World? && step.i < |s.runtimes| {
      ActSpeaks(w, s.log, s.runtimes[step.i], step.action);
    }
    IntroducedGrows(w, s, next.log, next.runtimes);
  }

  /** In every possible run the turn is admitted before anything of its response is in the log. */
  lemma {:induction false} AdmittedFirst(w: Watched, n: nat, steps: seq<Step>)
    requires WellFormed(w.frames) && Possible(w, n, steps)
    ensures Introduced(w, Exec(w, n, steps))
  {
    if steps != [] {
      var before := steps[..|steps| - 1];
      AdmittedFirst(w, n, before);
      NextIntroduces(w, Exec(w, n, before), before, steps[|steps| - 1]);
    }
  }

  /** A message id that the run has not minted. */
  function Unminted(steps: seq<Step>): nat {
    if steps == [] then 0
    else
      var earlier, last := Unminted(steps[..|steps| - 1]), steps[|steps| - 1];
      if !last.World? && last.action.Deliver? && last.action.minted >= earlier then last.action.minted + 1 else earlier
  }

  lemma {:induction false} UnmintedIsNew(steps: seq<Step>, k: nat)
    requires k < |steps|
    ensures !Mints(steps[k], Unminted(steps)) && (Mints(steps[k], 0) ==> Unminted(steps) > 0)
    ensures !steps[k].World? && steps[k].action.Deliver? ==> steps[k].action.minted < Unminted(steps)
  {
    if k < |steps| - 1 { UnmintedIsNew(steps[..|steps| - 1], k); }
  }

  ghost predicate Reached(w: Watched, n: nat, steps: seq<Step>, s: System) {
    WellFormed(w.frames) && Exec(w, n, steps) == s && Possible(w, n, steps)
  }

  lemma {:induction false} Reach(w: Watched, n: nat, steps: seq<Step>, s: System, step: Step)
    requires Reached(w, n, steps, s) && Sane(s) && Permitted(w, s, steps, step)
    ensures Reached(w, n, steps + [step], Next(w, s, step))
  {
    var all := steps + [step];
    assert all[..|all| - 1] == steps;
  }

  predicate Look(open: bool) { open }

  /** The run so far stands at `s`.  `Look(true)` opens the definition, which proofs about longer runs keep closed. */
  ghost predicate At(w: Watched, n: nat, steps: seq<Step>, s: System) {
    && WellFormed(w.frames) && Admitted(w.turn) in s.log
    && forall open {:trigger Look(open)} :: Look(open) ==> Reached(w, n, steps, s)
  }

  lemma {:induction false} Open(w: Watched, n: nat, steps: seq<Step>, s: System)
    requires At(w, n, steps, s)
    ensures Exec(w, n, steps) == s && Possible(w, n, steps)
  {
    assert Look(true);
  }

  /** One runtime acts; the others stay as they are. */
  lemma {:induction false} Did(w: Watched, n: nat, steps: seq<Step>, s: System, i: nat, a: Action, log: Log, r: Runtime)
    requires At(w, n, steps, s) && i < n == |s.runtimes|
    requires Sane(s) && Act(w, s.log, s.runtimes[i], a) == (log, r) && s.log <= log
    requires !a.Admit? && (a.Deliver? ==> a.minted == Unminted(steps))
    requires a.Observe? ==> Admitted(w.turn) in s.log[..s.runtimes[i].view]
    ensures At(w, n, steps + [Local(i, a)], System(log, s.runtimes[i := r]))
  {
    Open(w, n, steps, s);
    if a.Deliver? {
      forall k | 0 <= k < |steps| ensures !Mints(steps[k], a.minted) { UnmintedIsNew(steps, k); }
    }
    Reach(w, n, steps, s, Local(i, a));
  }

  lemma {:induction false} AtOk(w: Watched, n: nat, steps: seq<Step>, s: System, i: nat)
    requires At(w, n, steps, s) && i < n
    ensures |s.runtimes| == n && LogSound(w, s.log) && RuntimeOk(w, s.log, s.runtimes[i]) && Sane(s)
  {
    Open(w, n, steps, s);
  }

  lemma {:induction false} KnownRun(w: Watched, n: nat, steps: seq<Step>, i: nat, m: nat, log: Log, rs: seq<Runtime>)
    returns (next: Runtime)
    requires At(w, n, steps, System(log, rs)) && i < n == |rs| && Ready(log, rs[i], m) && m < |w.frames|
             && m in Keys(log)
    ensures At(w, n, steps + [Local(i, Deliver(m, Unminted(steps)))], System(log, rs[i := next]))
    ensures Proceeded(w, log, rs[i], m, log, next)
  {
    AtOk(w, n, steps, System(log, rs), i);
    DeliverKnown(w, log, rs[i], m, Unminted(steps));
    DurableIsMatched(w, log, m);
    next := rs[i].(observation := Some(Advance(rs[i].observation.value, Duplicate, m, w.frames[m])));
    Did(w, n, steps, System(log, rs), i, Deliver(m, Unminted(steps)), log, next);
  }

  lemma {:induction false} SilentRun(w: Watched, n: nat, steps: seq<Step>, i: nat, m: nat, log: Log, rs: seq<Runtime>)
    returns (next: Runtime)
    requires At(w, n, steps, System(log, rs)) && i < n == |rs| && Ready(log, rs[i], m)
    requires m < |w.frames| && m !in Keys(log) && !w.frames[m].Done?
    requires Added(rs[i].observation.value, m, w.frames[m], Unminted(steps)) == []
    ensures At(w, n, steps + [Local(i, Deliver(m, Unminted(steps)))], System(log, rs[i := next]))
    ensures Proceeded(w, log, rs[i], m, log, next)
  {
    AtOk(w, n, steps, System(log, rs), i);
    var o, f := rs[i].observation.value, w.frames[m];
    DeliverNew(w, log, rs[i], m, Unminted(steps));
    next := rs[i].(identified := true, observation := Some(Draft(Advance(o, Accepted, m, f), m, f, Unminted(steps))));
    Did(w, n, steps, System(log, rs), i, Deliver(m, Unminted(steps)), log, next);
    SilentProceeds(w, log, rs[i], m, Unminted(steps), next);
  }

  lemma {:induction false} SilentProceeds(w: Watched, log: Log, r: Runtime, m: nat, x: nat, next: Runtime)
    requires WellFormed(w.frames) && RuntimeOk(w, log, r) && Ready(log, r, m)
    requires m < |w.frames| && m !in Keys(log) && !w.frames[m].Done?
    requires Added(r.observation.value, m, w.frames[m], x) == []
    requires next == r.(identified := true,
               observation := Some(Draft(Advance(r.observation.value, Accepted, m, w.frames[m]), m, w.frames[m], x)))
    ensures Proceeded(w, log, r, m, log, next)
  {
    var o, f := r.observation.value, w.frames[m];
    AdvanceThenDraft(o, m, f, x);
    assert o.drafts + [] == [];
    if f.Citations? { PendKeysAdd(o.pending, m, f.batch); }
  }

  lemma {:induction false} LinkKeys(m: nat, pending: seq<(nat, nat)>)
    ensures Keys(LinksFor(m, pending)) == PendKeys(pending)
    decreases |pending|
  {
    if pending != [] {
      var init, last := pending[..|pending| - 1], pending[|pending| - 1];
      LinkKeys(m, init);
      assert LinksFor(m, pending)[..|pending| - 1] == LinksFor(m, init);
      PendKeysAdd(init, last.0, last.1);
      assert pending == init + [(last.0, last.1)];
    }
  }

  lemma {:induction false} OneDraft(e: Event)
    requires e.Effect?
    ensures Keys([e]) == {e.sequence} && TextId([e]) == if IsText(e) then Some(e.payload.message) else None
  {
    assert [e][..0] == [];
  }

  lemma {:induction false} WordsDrafts(e: Event, m: nat, pending: seq<(nat, nat)>)
    requires IsText(e)
    ensures Keys([e] + LinksFor(m, pending)) == {e.sequence} + PendKeys(pending)
    ensures TextId([e] + LinksFor(m, pending)).Some?
  {
    OneDraft(e);
    KeysSplit([e], LinksFor(m, pending));
    LinkKeys(m, pending);
    TextIdGrows([e], LinksFor(m, pending));
  }

  /** The keys and the text of what a frame drafts. */
  lemma {:induction false} AddedKeys(o: Observation, m: nat, f: Frame, x: nat)
    requires Added(o, m, f, x) != []
    ensures Added(o, m, f, x)[0].Effect? && Added(o, m, f, x)[0].sequence == m
    ensures Added(o, m, f, x)[0].resumeSafe == !o.unsafe
    ensures Keys(Added(o, m, f, x)) == {m} + (if Words(f) then PendKeys(o.pending) else {})
    ensures TextId(Added(o, m, f, x)).Some? <==> Words(f)
  {
    var e := Added(o, m, f, x)[0];
    if Words(f) {
      WordsDrafts(e, if o.message.Some? then o.message.value else x, o.pending);
    } else {
      assert Added(o, m, f, x) == [e];
      OneDraft(e);
    }
  }

  /** What waits after a drafting frame: all of it, or nothing after a text. */
  lemma {:induction false} PendingDrafted(o: Observation, m: nat, f: Frame, x: nat)
    requires Added(o, m, f, x) != []
    ensures PendingAfter(o, m, f) == if Words(f) then [] else o.pending
  {}

  /** The message id after a flush, against the one before the frame. */
  lemma {:induction false} MessageSettled(log: Log, o: Observation, f: Frame, x: nat, after: Log, p: Observation)
    requires TextId(log).Some? ==> TextId(after).Some?
    requires if Words(f) then TextId(after).Some? else TextId(after) == TextId(log)
    requires p.message == if TextId(after).Some? then TextId(after) else MessageAfter(o, f, x)
    requires p.pending == if Words(f) then [] else o.pending
    ensures Aware(log, o) && Tidy(o) ==> Aware(after, p) && Tidy(p)
    ensures TextId(after).None? && o.message.None? && !Words(f) ==> p.message.None?
  {}

  lemma {:induction false} SettledObservation(
    w: Watched, log: Log, o: Observation, m: nat, x: nat, after: Log, p: Observation, drafted: Observation)
    requires m < |w.frames| && o.drafts == [] && Added(o, m, w.frames[m], x) != []
    requires drafted.drafts == Added(o, m, w.frames[m], x) && drafted.drafts[0].Effect?
    requires Flushes(w, log, drafted, m, after)
    requires p.message == if TextId(after).Some? then TextId(after) else MessageAfter(o, w.frames[m], x)
    requires p.pending == PendingAfter(o, m, w.frames[m])
    ensures Keys(after) <= Keys(log) + {m} + (if Words(w.frames[m]) then PendKeys(o.pending) else {})
    ensures PendKeys(p.pending) <= PendKeys(o.pending) + {m}
    ensures !Words(w.frames[m]) ==> p.pending == o.pending && TextId(after) == TextId(log)
    ensures Aware(log, o) && Tidy(o) ==> Aware(after, p) && Tidy(p)
    ensures TextId(after).None? && o.message.None? && !Words(w.frames[m]) ==> p.message.None?
    ensures !o.unsafe ==> Marked(after, m)
  {
    var f := w.frames[m];
    AddedKeys(o, m, f, x);
    PendingDrafted(o, m, f, x);
    TextIdGrows(log, after[|log|..]);
    assert after == log + after[|log|..];
    MessageSettled(log, o, f, x, after, p);
  }

  /** The state after a drafting frame has been read, cut and flushed. */
  ghost predicate Settled(w: Watched, log: Log, drafted: Observation, m: nat, after: Log, next: Runtime)
    requires drafted.drafts != [] && drafted.drafts[0].Effect?
  {
    && Flushes(w, log, drafted, m, after)
    && next.view == next.known == |after| && next.identified && next.safe >= -1
    && (drafted.mark.Some? ==> next.safe == drafted.mark.value)
    && next.observation == Some(drafted.(message := if TextId(after).Some? then TextId(after) else drafted.message,
                                         drafts := [], mark := None, flushing := false, attempts := 0))
  }

  /** The observation with the frame's drafts. */
  predicate IsDraft(w: Watched, log: Log, r: Runtime, m: nat, x: nat, drafted: Observation)
    requires Ready(log, r, m) && m < |w.frames|
  {
    var o, f := r.observation.value, w.frames[m];
    && drafted == Draft(Advance(o, Accepted, m, f), m, f, x) && ObservationOk(w, log, drafted)
    && drafted.drafts == Added(o, m, f, x) && drafted.drafts != [] && drafted.drafts[0].Effect?
    && drafted.drafts[0].sequence == m && drafted.drafts[0].resumeSafe == !o.unsafe
    && drafted.expected == m + 1 && !drafted.last && !drafted.flushing && !drafted.failing
    && drafted.attempts == 0 && drafted.unsafe == (o.unsafe || f.Usage?)
    && drafted.message == MessageAfter(o, f, x) && drafted.pending == PendingAfter(o, m, f)
    && drafted.mark == if o.unsafe then None else Some(m)
  }

  lemma {:induction false} Drafted(w: Watched, log: Log, r: Runtime, m: nat, x: nat) returns (drafted: Observation)
    requires WellFormed(w.frames) && LogSound(w, log) && RuntimeOk(w, log, r) && Ready(log, r, m)
    requires m < |w.frames| && m !in Keys(log) && !w.frames[m].Done?
    requires Added(r.observation.value, m, w.frames[m], x) != []
    ensures IsDraft(w, log, r, m, x, drafted)
  {
    var o, f := r.observation.value, w.frames[m];
    drafted := Draft(Advance(o, Accepted, m, f), m, f, x);
    AdvanceThenDraft(o, m, f, x);
    AddedKeys(o, m, f, x);
    assert o.drafts + Added(o, m, f, x) == Added(o, m, f, x);
    AcceptedOk(w, log, o, x);
  }

  /** The flush of a batch that was cut off. */
  lemma {:induction false} FlushCut(w: Watched, log: Log, cut: Runtime, drafted: Observation, m: nat)
    returns (after: Log, next: Runtime)
    requires LogSound(w, log) && ObservationOk(w, log, drafted) && m !in Keys(log)
    requires drafted.drafts != [] && drafted.drafts[0].Effect? && drafted.drafts[0].sequence == m
    requires !drafted.failing && drafted.attempts == 0 && cut.identified && -1 <= cut.safe
    requires cut.view == cut.known == |log| && cut.observation == Some(drafted.(flushing := true))
    ensures Act(w, log, cut, Flush(0)) == (after, next) && Settled(w, log, drafted, m, after, next)
  {
    var flushing := drafted.(flushing := true);
    var out := FlushedLog(w, log, drafted, m);
    FlushDrafts(w, log, cut, flushing, out);
    after := log + out;
    next := Settle(after, Learn(after, cut, |after|), flushing);
    SettledReader(log, cut, flushing, after);
  }

  lemma {:induction false} DraftRun(w: Watched, n: nat, steps: seq<Step>, i: nat, m: nat, log: Log, rs: seq<Runtime>)
    returns (read: Runtime, drafted: Observation)
    requires At(w, n, steps, System(log, rs)) && i < n == |rs| && Ready(log, rs[i], m)
    requires m < |w.frames| && m !in Keys(log) && !w.frames[m].Done?
    requires Added(rs[i].observation.value, m, w.frames[m], Unminted(steps)) != []
    ensures At(w, n, steps + [Local(i, Deliver(m, Unminted(steps)))], System(log, rs[i := read]))
    ensures read == rs[i].(identified := true, observation := Some(drafted))
    ensures IsDraft(w, log, rs[i], m, Unminted(steps), drafted)
  {
    AtOk(w, n, steps, System(log, rs), i);
    drafted := Drafted(w, log, rs[i], m, Unminted(steps));
    DeliverNew(w, log, rs[i], m, Unminted(steps));
    read := rs[i].(identified := true, observation := Some(drafted));
    Did(w, n, steps, System(log, rs), i, Deliver(m, Unminted(steps)), log, read);
  }

  lemma {:induction false} CutRun(w: Watched, n: nat, steps: seq<Step>, i: nat, log: Log, rs: seq<Runtime>)
    returns (cut: Runtime)
    requires At(w, n, steps, System(log, rs)) && i < n == |rs| && rs[i].observation.Some?
    requires rs[i].observation.value.drafts != [] && !rs[i].observation.value.flushing
    ensures At(w, n, steps + [Local(i, Cut)], System(log, rs[i := cut]))
    ensures cut == rs[i].(observation := Some(rs[i].observation.value.(flushing := true)))
  {
    AtOk(w, n, steps, System(log, rs), i);
    CutDrafts(w, log, rs[i]);
    cut := rs[i].(observation := Some(rs[i].observation.value.(flushing := true)));
    Did(w, n, steps, System(log, rs), i, Cut, log, cut);
  }

  lemma {:induction false} FlushRun(w: Watched, n: nat, steps: seq<Step>, i: nat, m: nat, log: Log, rs: seq<Runtime>,
                                    drafted: Observation)
    returns (after: Log, next: Runtime)
    requires At(w, n, steps, System(log, rs)) && i < n == |rs| && ObservationOk(w, log, drafted) && m !in Keys(log)
    requires drafted.drafts != [] && drafted.drafts[0].Effect? && drafted.drafts[0].sequence == m
    requires !drafted.failing && drafted.attempts == 0 && rs[i].identified
    requires rs[i].view == rs[i].known == |log| && rs[i].observation == Some(drafted.(flushing := true))
    ensures At(w, n, steps + [Local(i, Flush(0))], System(after, rs[i := next]))
    ensures Settled(w, log, drafted, m, after, next)
  {
    AtOk(w, n, steps, System(log, rs), i);
    after, next := FlushCut(w, log, rs[i], drafted, m);
    Did(w, n, steps, System(log, rs), i, Flush(0), after, next);
  }

  lemma {:induction false} DraftProceeds(
    w: Watched, log: Log, r: Runtime, m: nat, x: nat, drafted: Observation, after: Log, next: Runtime)
    requires Ready(log, r, m) && m < |w.frames| && m !in Keys(log) && IsDraft(w, log, r, m, x, drafted)
    requires Settled(w, log, drafted, m, after, next)
    ensures Proceeded(w, log, r, m, after, next)
  {
    SettledObservation(w, log, r.observation.value, m, x, after, next.observation.value, drafted);
    SilentOrLasting(r.observation.value, m, w.frames[m], x);
  }

  /** A frame that drafts something is lasting, or is a batch of citations for a known message. */
  lemma {:induction false} SilentOrLasting(o: Observation, m: nat, f: Frame, x: nat)
    ensures Added(o, m, f, x) != [] ==> Lasting(f) || (f.Citations? && o.message.Some?)
  {}

  /** A reader that is up to date gets past any frame but the last. */
  lemma {:induction false} Proceed(w: Watched, n: nat, steps: seq<Step>, i: nat, m: nat, log: Log, rs: seq<Runtime>)
    returns (more: seq<Step>, after: Log, next: Runtime)
    requires At(w, n, steps, System(log, rs)) && i < n == |rs| && Ready(log, rs[i], m)
    requires m < |w.frames| && !w.frames[m].Done?
    ensures At(w, n, steps + more, System(after, rs[i := next])) && Proceeded(w, log, rs[i], m, after, next)
  {
    if m in Keys(log) {
      next := KnownRun(w, n, steps, i, m, log, rs);
      more, after := [Local(i, Deliver(m, Unminted(steps)))], log;
    } else if Added(rs[i].observation.value, m, w.frames[m], Unminted(steps)) == [] {
      next := SilentRun(w, n, steps, i, m, log, rs);
      more, after := [Local(i, Deliver(m, Unminted(steps)))], log;
    } else {
      more, after, next := ProceedDraft(w, n, steps, i, m, log, rs);
    }
  }

  /** Reading a frame that drafts something, and cutting the batch off. */
  lemma {:induction false} HoldDraft(w: Watched, n: nat, steps: seq<Step>, i: nat, m: nat, log: Log, rs: seq<Runtime>)
    returns (more: seq<Step>, cut: Runtime, drafted: Observation)
    requires At(w, n, steps, System(log, rs)) && i < n == |rs| && Ready(log, rs[i], m)
    requires m < |w.frames| && m !in Keys(log) && !w.frames[m].Done?
    requires Added(rs[i].observation.value, m, w.frames[m], Unminted(steps)) != []
    ensures At(w, n, steps + more, System(log, rs[i := cut])) && IsDraft(w, log, rs[i], m, Unminted(steps), drafted)
    ensures cut == rs[i].(identified := true, observation := Some(drafted.(flushing := true)))
  {
    var read;
    read, drafted := DraftRun(w, n, steps, i, m, log, rs);
    var s1 := steps + [Local(i, Deliver(m, Unminted(steps)))];
    cut := CutRun(w, n, s1, i, log, rs[i := read]);
    more := [Local(i, Deliver(m, Unminted(steps))), Local(i, Cut)];
    Twice(rs, i, read, cut);
    Thrice(steps, Local(i, Deliver(m, Unminted(steps))), Local(i, Cut));
  }

  lemma {:induction false} SetFirst<T>(a: T, b: T, c: T)
    ensures [a, b][0 := c] == [c, b]
  {}

  lemma {:induction false} SetSecond<T>(a: T, b: T, c: T)
    ensures [a, b][1 := c] == [a, c]
  {}

  lemma {:induction false} Twice<T>(s: seq<T>, i: nat, a: T, b: T)
    requires i < |s|
    ensures s[i := a][i := b] == s[i := b]
  {}

  lemma {:induction false} Thrice<T>(s: seq<T>, a: T, b: T)
    ensures s + [a] + [b] == s + [a, b]
  {}

  lemma {:induction false} Append<T>(s: seq<T>, a: seq<T>, b: seq<T>)
    ensures s + a + b == s + (a + b)
  {}

  lemma {:induction false} ProceedDraft(
    w: Watched, n: nat, steps: seq<Step>, i: nat, m: nat, log: Log, rs: seq<Runtime>)
    returns (more: seq<Step>, after: Log, next: Runtime)
    requires At(w, n, steps, System(log, rs)) && i < n == |rs| && Ready(log, rs[i], m)
    requires m < |w.frames| && m !in Keys(log) && !w.frames[m].Done?
    requires Added(rs[i].observation.value, m, w.frames[m], Unminted(steps)) != []
    ensures At(w, n, steps + more, System(after, rs[i := next])) && Proceeded(w, log, rs[i], m, after, next)
  {
    var held, cut, drafted := HoldDraft(w, n, steps, i, m, log, rs);
    after, next := FlushRun(w, n, steps + held, i, m, log, rs[i := cut], drafted);
    more := held + [Local(i, Flush(0))];
    Append(steps, held, [Local(i, Flush(0))]);
    Twice(rs, i, cut, next);
    DraftProceeds(w, log, rs[i], m, Unminted(steps), drafted, after, next);
  }

  // ---------------------------------------------------------------- whole stretches

  /** The batch is not in the log, and reading on will not write it. */
  predicate Spared(w: Watched, keys: set<nat>, o: Observation, c: nat) {
    c !in keys && (c !in PendKeys(o.pending) || NoWords(w.frames, c, |w.frames|))
  }

  /** What reading the frames from `a` up to `b` does. */
  ghost predicate Course(w: Watched, log: Log, o: Observation, a: nat, after: Log, p: Observation, b: nat) {
    && log <= after && (!TurnOver(w, log) ==> !TurnOver(w, after))
    && (forall k :: k in Keys(after) ==> k in Keys(log) || k < b)
    && (forall c: nat {:trigger Spared(w, Keys(after), p, c)} ::
          c < a && Spared(w, Keys(log), o, c) ==> Spared(w, Keys(after), p, c))
    && (Aware(log, o) && Tidy(o) ==> Aware(after, p) && Tidy(p))
    && (NoUsage(w.frames, b) && !o.unsafe ==> !p.unsafe)
    && (NoWords(w.frames, a - 1, b) ==> Wordless(log, o, after, p))
  }

  /** Without a text nothing that waits is written, and no message comes up where there is none. */
  predicate Wordless(log: Log, o: Observation, after: Log, p: Observation) {
    && TextId(after) == TextId(log) && PendKeys(o.pending) <= PendKeys(p.pending)
    && (TextId(log).None? && o.message.None? ==> p.message.None?)
  }

  lemma {:induction false} CourseNone(w: Watched, log: Log, o: Observation, a: nat)
    ensures Course(w, log, o, a, log, o, a)
  {}

  lemma {:induction false} CourseOne(w: Watched, log: Log, r: Runtime, m: nat, after: Log, next: Runtime)
    requires RuntimeOk(w, log, r) && Ready(log, r, m) && m < |w.frames| && Proceeded(w, log, r, m, after, next)
    ensures Course(w, log, r.observation.value, m, after, next.observation.value, m + 1)
  {
    var o, p := r.observation.value, next.observation.value;
    forall k | k in Keys(after) ensures k in Keys(log) || k < m + 1 {
      if k in PendKeys(o.pending) { assert PendingOk(w, m, Keys(o.drafts), o.pending); }
    }
    forall c: nat | c < m && Spared(w, Keys(log), o, c) ensures Spared(w, Keys(after), p, c) {
      if Words(w.frames[m]) { assert !NoWords(w.frames, c, |w.frames|); }
    }
    if NoWords(w.frames, m - 1, m + 1) { assert !Words(w.frames[m]); }
    if NoUsage(w.frames, m + 1) { assert !w.frames[m].Usage?; }
  }

  lemma {:induction false} CourseThen(w: Watched, l0: Log, o0: Observation, a: nat, l1: Log, o1: Observation, b: nat,
                                      l2: Log, o2: Observation, c: nat)
    requires a <= b <= c && Course(w, l0, o0, a, l1, o1, b) && Course(w, l1, o1, b, l2, o2, c)
    ensures Course(w, l0, o0, a, l2, o2, c)
  {
    forall k | k in Keys(l2) ensures k in Keys(l0) || k < c {
      if k in Keys(l1) {}
    }
    forall d: nat | d < a && Spared(w, Keys(l0), o0, d) ensures Spared(w, Keys(l2), o2, d) {
      assert Spared(w, Keys(l1), o1, d);
    }
    if NoUsage(w.frames, c) { assert NoUsage(w.frames, b); }
    if NoWords(w.frames, a - 1, c) { assert NoWords(w.frames, a - 1, b) && NoWords(w.frames, b - 1, c); }
  }

  /** Reading on to frame `b`, persisting as it goes. */
  lemma {:induction false} ReadTo(
    w: Watched, n: nat, steps: seq<Step>, i: nat, a: nat, b: nat, log: Log, rs: seq<Runtime>)
    returns (more: seq<Step>, after: Log, next: Runtime)
    requires At(w, n, steps, System(log, rs)) && i < n == |rs| && Ready(log, rs[i], a)
    requires a <= b <= |w.frames| && forall m :: a <= m < b ==> !w.frames[m].Done?
    ensures At(w, n, steps + more, System(after, rs[i := next])) && Ready(after, next, b)
    ensures Course(w, log, rs[i].observation.value, a, after, next.observation.value, b)
    decreases b - a
  {
    if a == b {
      more, after, next := [], log, rs[i];
      assert steps + [] == steps && rs[i := next] == rs;
      CourseNone(w, log, rs[i].observation.value, a);
    } else {
      var first, mid, r := Proceed(w, n, steps, i, a, log, rs);
      AtOk(w, n, steps, System(log, rs), i);
      CourseOne(w, log, rs[i], a, mid, r);
      var rest;
      rest, after, next := ReadTo(w, n, steps + first, i, a + 1, b, mid, rs[i := r]);
      more := first + rest;
      Append(steps, first, rest);
      Twice(rs, i, r, next);
      CourseThen(w, log, rs[i].observation.value, a, mid, r.observation.value, a + 1, after, next.observation.value, b);
    }
  }

  /** Reading over frames that are durable or leave nothing to write: the log stays, and no message comes up. */
  lemma {:induction false} SkimTo(
    w: Watched, n: nat, steps: seq<Step>, i: nat, a: nat, b: nat, log: Log, rs: seq<Runtime>)
    returns (more: seq<Step>, next: Runtime)
    requires At(w, n, steps, System(log, rs)) && i < n == |rs| && Ready(log, rs[i], a) && a <= b <= |w.frames|
    requires rs[i].observation.value.message.None?
    requires forall m :: a <= m < b ==> !w.frames[m].Done? && (m in Keys(log) || !Lasting(w.frames[m]))
    ensures At(w, n, steps + more, System(log, rs[i := next])) && Ready(log, next, b)
    ensures next.observation.value.message.None?
    ensures NoUsage(w.frames, b) && !rs[i].observation.value.unsafe ==> !next.observation.value.unsafe
    decreases b - a
  {
    if a == b {
      more, next := [], rs[i];
      assert steps + [] == steps && rs[i := next] == rs;
    } else {
      var first, mid, r := Proceed(w, n, steps, i, a, log, rs);
      var rest;
      rest, next := SkimTo(w, n, steps + first, i, a + 1, b, log, rs[i := r]);
      more := first + rest;
      Append(steps, first, rest);
      Twice(rs, i, r, next);
      if NoUsage(w.frames, b) { assert !w.frames[a].Usage?; }
    }
  }

  // ---------------------------------------------------------------- other steps

  lemma {:induction false} ObserveRun(w: Watched, n: nat, steps: seq<Step>, i: nat, log: Log, rs: seq<Runtime>)
    returns (next: Runtime)
    requires At(w, n, steps, System(log, rs)) && i < n == |rs| && rs[i].observation.None?
    requires rs[i].view <= |log| && Admitted(w.turn) in log[..rs[i].view]
    ensures At(w, n, steps + [Local(i, Observe)], System(log, rs[i := next]))
    ensures Placed(log, rs[i]) && -1 <= rs[i].safe && next == rs[i].(observation := Some(Begin(log, rs[i])))
  {
    AtOk(w, n, steps, System(log, rs), i);
    next := rs[i].(observation := Some(Begin(log, rs[i])));
    Did(w, n, steps, System(log, rs), i, Observe, log, next);
  }

  /** A runtime that is not gathering a batch catches up. */
  lemma {:induction false} SyncRun(w: Watched, n: nat, steps: seq<Step>, i: nat, log: Log, rs: seq<Runtime>)
    returns (next: Runtime)
    requires At(w, n, steps, System(log, rs)) && i < n == |rs| && !Gathering(rs[i])
    ensures At(w, n, steps + [Local(i, Sync(|log|))], System(log, rs[i := next]))
    ensures Placed(log, rs[i]) && next == Learn(log, rs[i], |log|)
  {
    AtOk(w, n, steps, System(log, rs), i);
    next := Learn(log, rs[i], |log|);
    Did(w, n, steps, System(log, rs), i, Sync(|log|), log, next);
  }

  lemma {:induction false} AbandonRun(w: Watched, n: nat, steps: seq<Step>, i: nat, log: Log, rs: seq<Runtime>)
    returns (next: Runtime)
    requires At(w, n, steps, System(log, rs)) && i < n == |rs| && rs[i].observation.Some?
    ensures At(w, n, steps + [Local(i, Abandon)], System(log, rs[i := next]))
    ensures next == rs[i].(observation := None)
  {
    AtOk(w, n, steps, System(log, rs), i);
    next := rs[i].(observation := None);
    Did(w, n, steps, System(log, rs), i, Abandon, log, next);
  }

  /** The last frame is read. */
  lemma {:induction false} LastRun(w: Watched, n: nat, steps: seq<Step>, i: nat, d: nat, log: Log, rs: seq<Runtime>)
    returns (read: Runtime, last: Observation)
    requires At(w, n, steps, System(log, rs)) && i < n == |rs| && Ready(log, rs[i], d)
    requires d == |w.frames| - 1 && w.frames[d].Done? && d !in Keys(log)
    ensures At(w, n, steps + [Local(i, Deliver(d, Unminted(steps)))], System(log, rs[i := read]))
    ensures read == rs[i].(identified := true, observation := Some(last))
    ensures last == Draft(Advance(rs[i].observation.value, Accepted, d, w.frames[d]), d, w.frames[d], Unminted(steps))
  {
    AtOk(w, n, steps, System(log, rs), i);
    DeliverNew(w, log, rs[i], d, Unminted(steps));
    last := Draft(Advance(rs[i].observation.value, Accepted, d, w.frames[d]), d, w.frames[d], Unminted(steps));
    read := rs[i].(identified := true, observation := Some(last));
    Did(w, n, steps, System(log, rs), i, Deliver(d, Unminted(steps)), log, read);
  }

  /** The last frame, and the terminal event. */
  lemma {:induction false} EndRun(w: Watched, n: nat, steps: seq<Step>, i: nat, d: nat, log: Log, rs: seq<Runtime>)
    returns (more: seq<Step>, done: Event, next: Runtime)
    requires At(w, n, steps, System(log, rs)) && i < n == |rs| && Ready(log, rs[i], d)
    requires d == |w.frames| - 1 && w.frames[d].Done? && d !in Keys(log) && !TurnOver(w, log)
    requires w.frames[d].outcome.Completed? ==> rs[i].observation.value.pending == []
    ensures At(w, n, steps + more, System(log + [done], rs[i := next])) && done.Finished?
  {
    var read, last := LastRun(w, n, steps, i, d, log, rs);
    LastFrame(rs[i].observation.value, d, w.frames[d], Unminted(steps));
    done, next := FinishRun(w, n, steps + [Local(i, Deliver(d, Unminted(steps)))], i, log, rs[i := read], last);
    more := [Local(i, Deliver(d, Unminted(steps))), Local(i, Finish(0, Empty))];
    Thrice(steps, Local(i, Deliver(d, Unminted(steps))), Local(i, Finish(0, Empty)));
    Twice(rs, i, read, next);
  }

  lemma {:induction false} LastFrame(o: Observation, d: nat, f: Frame, x: nat)
    requires o.expected == d && o.drafts == [] && f.Done? && o.attempts == 0 && !o.flushing
    ensures var last := Draft(Advance(o, Accepted, d, f), d, f, x);
            && last.drafts == [] && last.last && last.attempts == 0 && !last.flushing
            && (f.outcome.Completed? && o.pending == [] ==> last.pending == [])
  {}

  lemma {:induction false} FinishRun(w: Watched, n: nat, steps: seq<Step>, i: nat, log: Log, rs: seq<Runtime>,
                                     o: Observation)
    returns (done: Event, next: Runtime)
    requires At(w, n, steps, System(log, rs)) && i < n == |rs| && rs[i].observation == Some(o)
    requires rs[i].view == rs[i].known == |log| && !TurnOver(w, log) && w.frames[|w.frames| - 1].Done?
    requires o.drafts == [] && o.last && o.attempts == 0 && !o.flushing
    requires w.frames[|w.frames| - 1].outcome.Completed? ==> o.pending == []
    ensures At(w, n, steps + [Local(i, Finish(0, Empty))], System(log + [done], rs[i := next])) && done.Finished?
  {
    AtOk(w, n, steps, System(log, rs), i);
    assert log[..rs[i].view] == log;
    var (all, r) := FinishTurn(w, log, rs[i], o, 0, Empty);
    done, next := all[|log|], r;
    Did(w, n, steps, System(log, rs), i, Finish(0, Empty), log + [done], next);
  }

  // ---------------------------------------------------------------- a late batch of citations

  /** All that is left of a held batch of drafts is citations, one of them not durable. */
  predicate OnlyLinksLeft(keys: set<nat>, drafts: Log, c: nat) {
    && (forall j :: 0 <= j < |drafts| ==>
          drafts[j].Effect? && (drafts[j].payload.Linked? || drafts[j].sequence in keys))
    && (exists j :: 0 <= j < |drafts| && drafts[j].Effect? && drafts[j].payload.Linked? && drafts[j].sequence == c)
    && c !in keys
  }

  lemma {:induction false} LinksGoOut(keys: set<nat>, id: Option<nat>, drafts: Log, c: nat) returns (i: nat)
    requires OnlyLinksLeft(keys, drafts, c)
    ensures var out := Outgoing(keys, id, drafts);
            && i < |out| && out[i].Effect? && out[i].sequence == c
            && (forall k :: 0 <= k < |out| ==> out[k].Effect? && out[k].payload.Linked?)
  {
    var j :| 0 <= j < |drafts| && drafts[j].Effect? && drafts[j].payload.Linked? && drafts[j].sequence == c;
    i := OutgoingHas(keys, id, drafts, j);
    var out := Outgoing(keys, id, drafts);
    forall k | 0 <= k < |out| ensures out[k].Effect? && out[k].payload.Linked? { LeftIsLinked(keys, id, drafts, k); }
  }

  lemma {:induction false} LeftIsLinked(keys: set<nat>, id: Option<nat>, drafts: Log, k: nat)
    requires forall j :: 0 <= j < |drafts| ==>
               drafts[j].Effect? && (drafts[j].payload.Linked? || drafts[j].sequence in keys)
    requires k < |Outgoing(keys, id, drafts)|
    ensures Outgoing(keys, id, drafts)[k].Effect? && Outgoing(keys, id, drafts)[k].payload.Linked?
  {
    var last := |drafts| - 1;
    if k < |Outgoing(keys, id, drafts[..last])| { LeftIsLinked(keys, id, drafts[..last], k); }
  }

  /** The holder of a batch meets a conflict, catches up, and appends what is left. */
  lemma {:induction false} ConflictRun(w: Watched, n: nat, steps: seq<Step>, i: nat, log: Log, rs: seq<Runtime>,
                                       o: Observation, c: nat)
    returns (next: Runtime)
    requires At(w, n, steps, System(log, rs)) && i < n == |rs| && rs[i].observation == Some(o)
    requires o.flushing && o.attempts == 0 && rs[i].view < |log|
    requires exists j :: 0 <= j < |o.drafts| && o.drafts[j].Effect? && o.drafts[j].sequence == c
    requires c !in Keys(log)
    ensures At(w, n, steps + [Local(i, Flush(|log|))], System(log, rs[i := next]))
    ensures next.view == next.known == |log| && next.safe >= -1 && next.observation == Some(o.(attempts := 1))
  {
    AtOk(w, n, steps, System(log, rs), i);
    var r := rs[i];
    KeysPrefix(log, r.known);
    var j :| 0 <= j < |o.drafts| && o.drafts[j].Effect? && o.drafts[j].sequence == c;
    var k := OutgoingHas(Keys(log[..r.known]), TextId(log[..r.view]), o.drafts, j);
    MaxSafeSpec(log[r.view..|log|]);
    next := Learn(log, r, |log|).(observation := Some(o.(attempts := 1)));
    Did(w, n, steps, System(log, rs), i, Flush(|log|), log, next);
  }

  lemma {:induction false} StraggleRun(w: Watched, n: nat, steps: seq<Step>, i: nat, log: Log, rs: seq<Runtime>,
                                       o: Observation, c: nat)
    returns (out: Log, k: nat, next: Runtime)
    requires At(w, n, steps, System(log, rs)) && i < n == |rs| && rs[i].observation == Some(o)
    requires o.flushing && o.attempts == 1 && rs[i].view == rs[i].known == |log|
             && OnlyLinksLeft(Keys(log), o.drafts, c)
    ensures At(w, n, steps + [Local(i, Flush(0))], System(log + out, rs[i := next]))
    ensures k < |out| && out[k].Effect? && out[k].sequence == c
  {
    AtOk(w, n, steps, System(log, rs), i);
    assert log[..rs[i].view] == log && log[..rs[i].known] == log;
    out := Outgoing(Keys(log), TextId(log), o.drafts);
    k := LinksGoOut(Keys(log), TextId(log), o.drafts, c);
    var (all, r) := FlushBatch(w, log, rs[i], o, 0);
    next := r;
    Did(w, n, steps, System(log, rs), i, Flush(0), log + out, next);
  }

  lemma {:induction false} LateRun(w: Watched, n: nat, steps: seq<Step>, i: nat, log: Log, rs: seq<Runtime>,
                                   o: Observation, c: nat)
    returns (more: seq<Step>, after: Log, k: nat, all: seq<Runtime>)
    requires At(w, n, steps, System(log, rs)) && i < n == |rs| && rs[i].observation == Some(o)
    requires o.flushing && o.attempts == 0 && rs[i].view < |log| && OnlyLinksLeft(Keys(log), o.drafts, c)
    ensures At(w, n, steps + more, System(after, all)) && log <= after
    ensures |log| <= k < |after| && after[k].Effect? && after[k].sequence == c
  {
    var caught := ConflictRun(w, n, steps, i, log, rs, o, c);
    var s1 := steps + [Local(i, Flush(|log|))];
    var out, j, next := StraggleRun(w, n, s1, i, log, rs[i := caught], o.(attempts := 1), c);
    more := [Local(i, Flush(|log|)), Local(i, Flush(0))];
    Thrice(steps, Local(i, Flush(|log|)), Local(i, Flush(0)));
    after, k, all := log + out, |log| + j, rs[i := caught][i := next];
  }
}
