/**
 Turn projection over a shared event log (src/runtime.ts).

 Several runtimes read one provider response, frame by frame, and append its
 effects to one conversation log by compare-and-swap.  Each remembers a prefix of
 the log, skips frames it knows to be durable, rebases after a conflict, may lose
 the reply of a successful append, may crash and rehydrate, and resumes after its
 "safe" sequence.  A run is a sequence of steps; `Exec` gives the state after it.
 */
module Projection {
  import opened Options

  datatype Outcome = Completed | Cancelled | Failed

  datatype Frame =
    | Started
    | Text(delta: string)
    | ToolCall(call: nat)
    | Citations(batch: nat)
    | Usage
    | Done(outcome: Outcome)

  /** The observed turn and its one response; frame `i` has sequence `i`. */
  datatype Watched = Watched(turn: nat, frames: seq<Frame>)

  /** What the protocol promises of a whole response (src/protocol.ts:1306-1408). */
  predicate WellFormed(frames: seq<Frame>) {
    && |frames| > 0
    && frames[0].Started?
    && (forall i :: 0 < i < |frames| ==> !frames[i].Started?)
    && (forall i :: 0 <= i < |frames| - 1 ==> !frames[i].Done?)
  }

  /** Frames whose effect must reach the log before anything later does. */
  predicate Lasting(f: Frame) {
    f.Started? || f.ToolCall? || (f.Text? && f.delta != "")
  }

  datatype Payload =
    | Running
    | Appended(message: nat, text: string)
    | Requested(call: nat)
    | Linked(message: nat, batch: nat)

  /** A transport resume point (src/runtime.ts:2950-2998). */
  datatype Point = Point(event: nat, cursor: nat, revision: nat)

  datatype Event =
    | Admitted(turn: nat)
    | Settled(turn: nat)
    | Effect(sequence: nat, resumeSafe: bool, payload: Payload)
    | Finished(sequence: nat, outcome: Outcome, output: seq<nat>, checkpoint: Option<Point>)
    | Checkpointed(point: Point)
    | Foreign

  type Log = seq<Event>

  predicate Keyed(e: Event) { e.Effect? || e.Finished? }

  /** The sequences of the frames that the log holds (src/runtime.ts:2750-2752). */
  function Keys(log: Log): set<nat> {
    if log == [] then {}
    else
      var e := log[|log| - 1];
      Keys(log[..|log| - 1]) + (if Keyed(e) then {e.sequence} else {})
  }

  predicate IsText(e: Event) { e.Effect? && e.payload.Appended? }

  /** Events that speak of the assistant message. */
  predicate Carries(e: Event) { e.Effect? && (e.payload.Appended? || e.payload.Linked?) }

  /** The streamed assistant message of the turn: the id of its first text event. */
  function TextId(log: Log): Option<nat> {
    if log == [] then None
    else
      var earlier := TextId(log[..|log| - 1]);
      var e := log[|log| - 1];
      if earlier.Some? then earlier
      else if IsText(e) then Some(e.payload.message) else None
  }

  predicate Ends(w: Watched, e: Event) { e.Finished? || e == Settled(w.turn) }

  predicate TurnOver(w: Watched, log: Log) {
    exists j :: 0 <= j < |log| && Ends(w, log[j])
  }

  function ActiveTurn(w: Watched, log: Log): Option<nat> {
    if log == [] then None
    else
      var earlier := ActiveTurn(w, log[..|log| - 1]);
      match log[|log| - 1]
      case Admitted(u) => Some(u)
      case Settled(u) => if earlier == Some(u) then None else earlier
      case Finished(_, _, _, _) => if earlier == Some(w.turn) then None else earlier
      case _ => earlier
  }

  function CheckpointOf(e: Event): Option<Point> {
    match e
    case Checkpointed(p) => Some(p)
    case Finished(_, _, _, c) => c
    case _ => None
  }

  function LastCheckpoint(log: Log): Option<Point> {
    if log == [] then None
    else
      var c := CheckpointOf(log[|log| - 1]);
      if c.Some? then c else LastCheckpoint(log[..|log| - 1])
  }

  /** The highest resume-safe sequence among the events, or -1 (src/runtime.ts:2761-2763). */
  function MaxSafe(events: Log): int {
    if events == [] then -1
    else
      var rest := MaxSafe(events[..|events| - 1]);
      var s := SafeOf(events[|events| - 1]);
      if s > rest then s else rest
  }

  function SafeOf(e: Event): int {
    match e
    case Effect(s, safe, _) => if safe then s else -1
    case Finished(s, _, _, _) => s
    case _ => -1
  }

  // ---------------------------------------------------------------- one observation

  /** `FrameState` with the batch being gathered (src/runtime.ts:339-353, 727-790). */
  datatype Observation = Observation(
    expected: nat,
    live: set<nat>,
    unsafe: bool,
    message: Option<nat>,
    pending: seq<(nat, nat)>,
    last: bool,
    drafts: Log,
    mark: Option<nat>,
    flushing: bool,
    failing: bool,
    attempts: nat)

  datatype Disposition = Accepted | Duplicate | Rejected

  /** `acceptFrame` (src/runtime.ts:2385-2438) on the frame with sequence `k`. */
  function Judge(o: Observation, identified: bool, keys: set<nat>, k: nat, f: Frame): Disposition {
    var known := k in keys || k in o.live;
    if k < o.expected then (if known then Duplicate else Rejected)
    else if k != o.expected then Rejected
    else if o.last then Rejected
    else if known then Duplicate
    else if !identified && !(f.Started? && k == 0) then Rejected
    else if f.Started? && k != 0 then Rejected
    else Accepted
  }

  function Advance(o: Observation, d: Disposition, k: nat, f: Frame): Observation {
    if d.Rejected? || k < o.expected then o
    else o.(expected := o.expected + 1, live := o.live + {k},
            last := if d.Accepted? then f.Done? else o.last)
  }

  function LinksFor(message: nat, pending: seq<(nat, nat)>): Log {
    seq(|pending|, i requires 0 <= i < |pending| =>
      Effect(pending[i].0, false, Linked(message, pending[i].1)))
  }

  function MessageAfter(o: Observation, f: Frame, minted: nat): Option<nat> {
    if f.Text? && f.delta != "" && o.message.None? then Some(minted) else o.message
  }

  function PendingAfter(o: Observation, k: nat, f: Frame): seq<(nat, nat)> {
    match f
    case Text(d) => if d == "" then o.pending else []
    case Citations(b) => if o.message.None? then o.pending + [(k, b)] else o.pending
    case Done(outcome) => if outcome.Completed? then o.pending else []
    case _ => o.pending
  }

  /** The drafts that a frame adds. */
  function Added(o: Observation, k: nat, f: Frame, minted: nat): Log {
    match f
    case Started => [Effect(k, !o.unsafe, Running)]
    case ToolCall(c) => [Effect(k, !o.unsafe, Requested(c))]
    case Text(d) =>
      if d == "" then []
      else
        var m := if o.message.Some? then o.message.value else minted;
        [Effect(k, !o.unsafe, Appended(m, d))] + LinksFor(m, o.pending)
    case Citations(b) => if o.message.None? then [] else [Effect(k, !o.unsafe, Linked(o.message.value, b))]
    case _ => []
  }

  /** `draftsForNonterminalFrame` and the batch's safe sequence (src/runtime.ts:770-775, 2238-2322). */
  function Draft(o: Observation, k: nat, f: Frame, minted: nat): Observation {
    var added := Added(o, k, f, minted);
    o.(message := MessageAfter(o, f, minted),
       pending := PendingAfter(o, k, f),
       unsafe := o.unsafe || f.Usage?,
       drafts := o.drafts + added,
       mark := if added != [] && !o.unsafe then Some(k) else o.mark)
  }

  /** The id rebinding of `persistFrameDrafts` (src/runtime.ts:575-587). */
  function Rebind(id: Option<nat>, e: Event): Event {
    if id.Some? && e.Effect? && e.payload.Appended? then e.(payload := Appended(id.value, e.payload.text))
    else if id.Some? && e.Effect? && e.payload.Linked? then e.(payload := Linked(id.value, e.payload.batch))
    else e
  }

  /** Drafts that are still missing from the remembered log, rebound (src/runtime.ts:560-588). */
  function Outgoing(keys: set<nat>, id: Option<nat>, drafts: Log): Log {
    if drafts == [] then []
    else
      var e := drafts[|drafts| - 1];
      Outgoing(keys, id, drafts[..|drafts| - 1]) +
      (if Keyed(e) && e.sequence in keys then [] else [Rebind(id, e)])
  }

  // ---------------------------------------------------------------- runtimes and steps

  /**
   `view` is the revision of the local store and `known` the revision up to which frame keys are remembered, which
   is ahead of the store after a start from a projection checkpoint (src/runtime.ts:445-459).  `safe` is -1 for an
   absent safe sequence.
   */
  datatype Runtime = Runtime(
    view: nat,
    known: nat,
    safe: int,
    identified: bool,
    checkpoint: Option<Point>,
    observation: Option<Observation>)

  datatype System = System(log: Log, runtimes: seq<Runtime>)

  datatype RawPoint = Empty | Malformed | Given(point: Point)
  datatype Verdict = Refused | Absent | Valid(point: Point)

  /** `validatedObservationCheckpoint` (src/runtime.ts:2950-2998). */
  function Validate(raw: RawPoint, current: Option<Point>, durable: nat): Verdict {
    match raw
    case Empty => Absent
    case Malformed => Refused
    case Given(p) =>
      if durable == 0 || p.revision > durable then Refused
      else if current.Some? && (durable < current.value.revision ||
                                (durable == current.value.revision &&
                                 (p.event != current.value.event || p.cursor != current.value.cursor))) then Refused
      else Valid(p.(revision := durable))
  }

  datatype Action =
    | Observe
    | Deliver(k: nat, minted: nat)
    | Spoil
    | Cut
    | Flush(to: nat)
    | Sync(to: nat)
    | Crash(to: nat, known: nat)
    | Abandon
    | Finish(to: nat, raw: RawPoint)
    | Park(to: nat, raw: RawPoint)
    | Admit(u: nat, to: nat)

  /** `Lost` is an action whose append commits although its reply never arrives. */
  datatype Step = Local(i: nat, action: Action) | Lost(i: nat, action: Action) | World(event: Event)

  predicate Placed(log: Log, r: Runtime) { r.view <= r.known <= |log| }

  /** Applying log entries up to `to`, with `rememberRuntimeMetadata` for each (src/runtime.ts:2728-2765). */
  function Learn(log: Log, r: Runtime, to: nat): Runtime
    requires Placed(log, r)
  {
    if to <= r.view || to > |log| then r
    else
      var news := log[r.view..to];
      var point := LastCheckpoint(news);
      r.(view := to,
         known := if to > r.known then to else r.known,
         safe := if MaxSafe(news) > r.safe then MaxSafe(news) else r.safe,
         identified := r.identified || Keys(news) != {},
         checkpoint := if point.Some? then point else r.checkpoint)
  }

  const NEW := Runtime(0, 0, -1, false, None, None)

  /** A new process: metadata from the whole log as it was read, the store perhaps only from an earlier revision. */
  function Rehydrate(log: Log, to: nat, known: nat): Runtime
    requires to <= known <= |log|
  {
    Learn(log, NEW, known).(view := to)
  }

  /** Starting `observeTransport` from the remembered protocol state (src/runtime.ts:720-752). */
  function Begin(log: Log, r: Runtime): Observation
    requires Placed(log, r) && -1 <= r.safe
  {
    Observation(r.safe + 1, {}, false, TextId(log[..r.view]), [], false, [], None, false, false, 0)
  }

  /** A rejected frame ends the observation once the valid prefix is flushed (src/runtime.ts:778-793). */
  function Fail(r: Runtime, o: Observation): Runtime {
    if o.drafts == [] then r.(observation := None)
    else r.(observation := Some(o.(flushing := true, failing := true)))
  }

  function Receive(log: Log, r: Runtime, o: Observation, k: nat, f: Frame, minted: nat): Runtime
    requires Placed(log, r)
  {
    var d := Judge(o, r.identified, Keys(log[..r.known]), k, f);
    var next := Advance(o, d, k, f);
    if d.Rejected? then Fail(r, o)
    else if d.Duplicate? then r.(observation := Some(next))
    else r.(identified := true, observation := Some(Draft(next, k, f, minted)))
  }

  /** Rebased drafts may be appended only to the still active turn (src/runtime.ts:1977-2004). */
  predicate Compatible(w: Watched, seen: Log, events: Log) {
    (exists i :: 0 <= i < |events| && !(events[i].Effect? && events[i].payload.Linked?)) ==>
      !TurnOver(w, seen) && ActiveTurn(w, seen) == Some(w.turn)
  }

  /** After a successful persist of the batch (src/runtime.ts:779-784). */
  function Settle(log: Log, r: Runtime, o: Observation): Runtime
    requires Placed(log, r)
  {
    var id := TextId(log[..r.view]);
    r.(safe := if o.mark.Some? then o.mark.value else r.safe,
       observation := if o.failing then None
                      else Some(o.(message := if id.Some? then id else o.message, drafts := [], mark := None,
                                   flushing := false, attempts := 0)))
  }

  /** A conflict: catch up and try again, at most twice (src/runtime.ts:540-561). */
  function Conflict(log: Log, r: Runtime, o: Observation, to: nat): Runtime
    requires Placed(log, r)
  {
    if o.attempts >= 2 then r.(observation := None)
    else Learn(log, r, to).(observation := Some(o.(attempts := o.attempts + 1)))
  }

  function FlushBatch(w: Watched, log: Log, r: Runtime, o: Observation, to: nat): (Log, Runtime)
    requires Placed(log, r)
  {
    var seen := log[..r.view];
    var events := Outgoing(Keys(log[..r.known]), TextId(seen), o.drafts);
    if events == [] then (log, Settle(log, r, o))
    else if o.attempts > 0 && !Compatible(w, seen, events) then (log, r.(observation := None))
    else if r.view == |log| then
      (log + events, Settle(log + events, Learn(log + events, r, |log + events|), o))
    else (log, Conflict(log, r, o, to))
  }

  /** Persisting the terminal frame (src/runtime.ts:904-948). */
  function FinishTurn(w: Watched, log: Log, r: Runtime, o: Observation, to: nat, raw: RawPoint): (Log, Runtime)
    requires Placed(log, r) && |w.frames| > 0 && w.frames[|w.frames| - 1].Done?
  {
    var seen := log[..r.view];
    var s := |w.frames| - 1;
    var outcome := w.frames[s].outcome;
    var id := if TextId(seen).Some? then TextId(seen) else o.message;
    var current := r.checkpoint;
    var verdict := Validate(raw, current, r.view + 1);
    var point := if verdict.Valid? && Some(verdict.point) != current then Some(verdict.point) else None;
    var output := if outcome.Completed? && id.Some? then [id.value] else [];
    var done := Finished(s, outcome, output, point);
    if TurnOver(w, seen) then (log, r.(safe := s, observation := None))
    else if outcome.Completed? && o.pending != [] then (log, r.(observation := None))
    else if verdict.Refused? then (log, r.(observation := None))
    else if o.attempts > 0 && ActiveTurn(w, seen) != Some(w.turn) then (log, r.(observation := None))
    else if r.view == |log| then
      (log + [done], Learn(log + [done], r, |log| + 1).(safe := s, observation := None))
    else (log, Conflict(log, r, o, to))
  }

  /** A disconnected observation stores its checkpoint (src/runtime.ts:836-884). */
  function ParkTurn(w: Watched, log: Log, r: Runtime, o: Observation, to: nat, raw: RawPoint): (Log, Runtime)
    requires Placed(log, r)
  {
    var seen := log[..r.view];
    var current := r.checkpoint;
    var verdict := Validate(raw, current, r.view);
    if o.pending != [] || !verdict.Valid? || Some(verdict.point) == current || TurnOver(w, seen)
    then (log, r.(observation := None))
    else if o.attempts > 0 && ActiveTurn(w, seen) != Some(w.turn) then (log, r.(observation := None))
    else if r.view == |log| then
      (log + [Checkpointed(verdict.point)],
          Learn(log + [Checkpointed(verdict.point)], r, |log| + 1).(observation := None))
    else (log, Conflict(log, r, o, to))
  }

  /** `persistAdmittedTurn` (src/runtime.ts:600-630). */
  function AdmitTurn(w: Watched, log: Log, r: Runtime, u: nat, to: nat): (Log, Runtime)
    requires Placed(log, r)
  {
    if ActiveTurn(w, log[..r.view]).Some? then (log, r)
    else if r.view == |log| then (log + [Admitted(u)], Learn(log + [Admitted(u)], r, |log| + 1))
    else (log, Learn(log, r, to))
  }

  /** Frames of one batch are read without a pause, so the runtime does nothing else meanwhile. */
  predicate Gathering(r: Runtime) {
    r.observation.Some? && r.observation.value.drafts != [] && !r.observation.value.flushing
  }

  /** Only texts share a batch (src/stream-batches.ts:14-29). */
  predicate Joins(o: Observation, f: Frame) {
    o.drafts == [] || (f.Text? && IsText(o.drafts[0]))
  }

  /** One step of one runtime; a step that its state does not allow changes nothing. */
  function Act(w: Watched, log: Log, r: Runtime, a: Action): (Log, Runtime)
    requires Placed(log, r) && -1 <= r.safe
  {
    match a
    case Sync(to) => if Gathering(r) then (log, r) else (log, Learn(log, r, to))
    case Crash(to, known) => if to <= known <= |log| then (log, Rehydrate(log, to, known)) else (log, r)
    case Admit(u, to) => if Gathering(r) then (log, r) else AdmitTurn(w, log, r, u, to)
    case Observe => if r.observation.Some? then (log, r) else (log, r.(observation := Some(Begin(log, r))))
    case _ => if r.observation.None? then (log, r) else During(w, log, r, r.observation.value, a)
  }

  function During(w: Watched, log: Log, r: Runtime, o: Observation, a: Action): (Log, Runtime)
    requires Placed(log, r)
  {
    if o.flushing then
      match a
      case Abandon => (log, r.(observation := None))
      case Flush(to) => FlushBatch(w, log, r, o, to)
      case _ => (log, r)
    else
      match a
      case Abandon => (log, r.(observation := None))
      case Deliver(k, minted) =>
        if k < |w.frames| && Joins(o, w.frames[k]) then (log, Receive(log, r, o, k, w.frames[k], minted)) else (log, r)
      case Spoil => (log, Fail(r, o))
      case Cut => if o.drafts == [] then (log, r) else (log, r.(observation := Some(o.(flushing := true))))
      case Finish(to, raw) =>
        if o.drafts == [] && o.last && |w.frames| > 0 && w.frames[|w.frames| - 1].Done?
        then FinishTurn(w, log, r, o, to, raw) else (log, r)
      case Park(to, raw) => if o.drafts == [] && !o.last then ParkTurn(w, log, r, o, to, raw) else (log, r)
      case _ => (log, r)
  }

  /** Events the model leaves to others: unrelated ones, and any turn ended outside an observation. */
  predicate Outside(e: Event) { e.Foreign? || e.Settled? }

  predicate Sane(s: System) {
    forall i :: 0 <= i < |s.runtimes| ==> Placed(s.log, s.runtimes[i]) && -1 <= s.runtimes[i].safe
  }

  /** Without the reply nothing is learned, and the error ends the observation unless it was an admission's. */
  function Unanswered(r: Runtime, e: Event): Runtime { if e.Admitted? then r else r.(observation := None) }

  function Next(w: Watched, s: System, step: Step): System
    requires Sane(s)
  {
    match step
    case World(e) => if Outside(e) then s.(log := s.log + [e]) else s
    case Local(i, a) =>
      if i >= |s.runtimes| then s
      else
        var (log, r) := Act(w, s.log, s.runtimes[i], a);
        System(log, s.runtimes[i := r])
    case Lost(i, a) =>
      if i >= |s.runtimes| then s
      else
        var log := Act(w, s.log, s.runtimes[i], a).0;
        if |log| <= |s.log| then s else System(log, s.runtimes[i := Unanswered(s.runtimes[i], log[|s.log|])])
  }

  function Initial(n: nat): System {
    System([], seq(n, _ => NEW))
  }
}
