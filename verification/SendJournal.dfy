/**
 * Sending a message through a write-ahead journal (src/client/application-session.ts with
 * src/browser/indexeddb-pending-store.ts): any number of tabs, one shared journal and one server,
 * with requests that may arrive late, replies that may be lost, tabs that may stop at any step, and
 * conversations that are permanently deleted at any moment.
 */
module SendJournal {
  import opened Options

  datatype Submission = Submission(conversation: nat, id: nat)

  datatype Request = Admit(s: Submission) | Start(s: Submission)
  datatype Reply = Rejected | Accepted | Refused

  /** Where a tab stands in `submit` or `initialize`. */
  datatype Phase =
    | Idle
    | Prepared(s: Submission)
    | Retained(s: Submission)
    | Admitting(s: Submission, n: nat)
    | TurnedDown(s: Submission)
    | Confirmed(s: Submission)
    | Cleaned(s: Submission)
    | Starting(s: Submission, n: nat)
    | Checking(s: Submission)
    | Finished(s: Submission)
    | Recovering(s: Submission)
    | Settling(s: Submission)

  /** What the server knows; a rejected submission may later be admitted only if rejections are not final. */
  datatype Server = Server(
    final: bool,
    admitted: set<Submission>,
    rejected: set<Submission>,
    started: set<Submission>,
    settled: set<Submission>,
    deleted: set<nat>)

  /**
   * `journal` has one row per conversation and `erased` is the store of tombstones; `journalled` and
   * `cleaned` record what ever happened.
   */
  datatype State = State(
    tabs: map<nat, Phase>,
    journal: map<nat, Submission>,
    erased: set<nat>,
    requests: seq<Request>,
    replies: map<nat, Reply>,
    server: Server,
    journalled: set<Submission>,
    cleaned: set<Submission>)

  datatype Action =
    | Prepare(t: nat, s: Submission)
    | Retain(t: nat)
    | Ask(t: nat)
    | Hear(t: nat)
    | Clean(t: nat)
    | Proceed(t: nat)
    | See(t: nat, ended: bool)
    | StartHeard(t: nat, denied: bool)
    | Check(t: nat)
    | Acknowledge(t: nat)
    | Recover(t: nat, c: nat)
    | Notice(t: nat)
    | Fail(t: nat)
    | Process(n: nat, accept: bool)
    | Settle(s: Submission)
    | Delete(c: nat)
    | Erase(c: nat)

  function PhaseOf(st: State, t: nat): Phase { if t in st.tabs then st.tabs[t] else Idle }

  function To(st: State, t: nat, p: Phase): State { st.(tabs := st.tabs[t := p]) }

  predicate Holds(st: State, s: Submission) { s.conversation in st.journal && st.journal[s.conversation] == s }

  /** A turn whose execution ended, or that the server has started. */
  predicate Begun(server: Server, s: Submission) { s in server.started || s in server.settled }

  /** No tombstone and no other message stands in the way. */
  predicate Free(st: State, s: Submission) {
    s.conversation !in st.erased && (s.conversation in st.journal ==> st.journal[s.conversation] == s)
  }

  /** `retain`: the exact value or an error (src/browser/indexeddb-pending-store.ts:75-89). */
  function DoRetain(st: State, t: nat, s: Submission): State {
    if !Free(st, s) then To(st, t, Idle)
    else To(st.(journal := st.journal[s.conversation := s], journalled := st.journalled + {s}), t, Retained(s))
  }

  /** `eraseConversation`: the row goes and a tombstone stays (src/browser/indexeddb-pending-store.ts:90-107). */
  function DoErase(st: State, c: nat): State {
    st.(journal := st.journal - {c}, erased := st.erased + {c})
  }

  /** `acknowledge`: only the exact value goes (src/browser/indexeddb-pending-store.ts:108-114). */
  function Removed(st: State, s: Submission): State {
    if Holds(st, s) then st.(journal := st.journal - {s.conversation}) else st
  }

  function Send(st: State, t: nat, r: Request, p: Phase): State { To(st.(requests := st.requests + [r]), t, p) }

  function ReplyTo(st: State, p: Phase): Option<Reply> {
    if (p.Admitting? || p.Starting?) && p.n in st.replies then Some(st.replies[p.n]) else None
  }

  /** The server handles request `n`; it certifies a rejection only of what it has not admitted. */
  function Handle(st: State, n: nat, accept: bool): State
    requires n < |st.requests|
  {
    var s, server := st.requests[n].s, st.server;
    if st.requests[n].Admit? then
      if s in server.admitted || (accept && !(server.final && s in server.rejected)) then
        st.(server := server.(admitted := server.admitted + {s}), replies := st.replies[n := Accepted])
      else st.(server := server.(rejected := server.rejected + {s}), replies := st.replies[n := Rejected])
    else if accept && s in server.admitted then
      st.(server := server.(started := server.started + {s}), replies := st.replies[n := Accepted])
    else st.(replies := st.replies[n := Refused])
  }

  /** One step of a tab (src/client/application-session.ts:193-209, 493-572). */
  function TabStep(st: State, a: Action, t: nat): State {
    var p := PhaseOf(st, t);
    match a
    case Prepare(_, s) => if p.Idle? then To(st, t, Prepared(s)) else st
    case Retain(_) => if p.Prepared? then DoRetain(st, t, p.s) else st
    case Ask(_) => if p.Retained? then Send(st, t, Admit(p.s), Admitting(p.s, |st.requests|)) else st
    case Hear(_) =>
      var reply := ReplyTo(st, p);
      if !p.Admitting? || reply.None? then st
      else if reply.value == Rejected then To(st, t, TurnedDown(p.s))
      else if reply.value == Accepted then To(st, t, Confirmed(p.s))
      else st
    case Clean(_) => if p.Confirmed? || p.Settling? then st.(cleaned := st.cleaned + {p.s}) else st
    case Proceed(_) =>
      if p.Confirmed? then To(st, t, Cleaned(p.s))
      else if p.Settling? then To(st, t, Finished(p.s))
      else st
    case See(_, ended) =>
      if !p.Cleaned? then st
      else if !ended then Send(st, t, Start(p.s), Starting(p.s, |st.requests|))
      else if Begun(st.server, p.s) then To(st, t, Finished(p.s))
      else st
    case StartHeard(_, denied) =>
      var reply := ReplyTo(st, p);
      if !p.Starting? || reply.None? then st
      else if reply.value == Accepted then To(st, t, Finished(p.s))
      else To(st, t, if denied then Checking(p.s) else Idle)
    case Check(_) => if p.Checking? && p.s in st.server.settled then To(st, t, Finished(p.s)) else st
    case Acknowledge(_) => if p.TurnedDown? || p.Finished? then To(Removed(st, p.s), t, Idle) else st
    case Recover(_, c) => if p.Idle? && c in st.journal then To(st, t, Recovering(st.journal[c])) else st
    case Notice(_) => if p.Recovering? && p.s in st.server.settled then To(st, t, Settling(p.s)) else st
    case Fail(_) => To(st, t, Idle)
    case _ => st
  }

  /** Steps that no tab takes inside `submit` or `initialize`. */
  predicate Outside(a: Action) { a.Process? || a.Settle? || a.Delete? || a.Erase? }

  function TabOf(a: Action): nat { if Outside(a) then 0 else a.t }

  /** The local erasure follows a permanent deletion that the server confirmed (src/client/bootstrap.ts:215-243). */
  function Next(st: State, a: Action): State {
    match a
    case Process(n, accept) => if n < |st.requests| && n !in st.replies then Handle(st, n, accept) else st
    case Settle(s) =>
      if s in st.server.admitted then st.(server := st.server.(settled := st.server.settled + {s})) else st
    case Delete(c) => st.(server := st.server.(deleted := st.server.deleted + {c}))
    case Erase(c) => if c in st.server.deleted then DoErase(st, c) else st
    case _ => TabStep(st, a, a.t)
  }

  function Initial(final: bool): State {
    State(map[], map[], {}, [], map[], Server(final, {}, {}, {}, {}, {}), {}, {})
  }

  function Exec(final: bool, actions: seq<Action>): State {
    if actions == [] then Initial(final) else Next(Exec(final, actions[..|actions| - 1]), actions[|actions| - 1])
  }

  // ---------------------------------------------------------------- the invariant

  predicate PhaseOk(st: State, p: Phase) {
    match p
    case Idle => true
    case Prepared(_) => true
    case Retained(s) => s in st.journalled
    case Admitting(s, n) => n < |st.requests| && st.requests[n] == Admit(s)
    case TurnedDown(s) => s in st.server.rejected
    case Confirmed(s) => s in st.server.admitted
    case Cleaned(s) => s in st.server.admitted
    case Starting(s, n) => s in st.server.admitted && n < |st.requests| && st.requests[n] == Start(s)
    case Checking(s) => s in st.server.admitted
    case Finished(s) => Begun(st.server, s)
    case Recovering(s) => s in st.journalled
    case Settling(s) => s in st.server.settled
  }

  predicate ReplyOk(st: State, n: nat, reply: Reply) {
    && n < |st.requests|
    && var r := st.requests[n];
       match reply
       case Rejected => r.Admit? && r.s in st.server.rejected
       case Accepted => if r.Admit? then r.s in st.server.admitted else r.s in st.server.started
       case Refused => r.Start?
  }

  /** Nothing that was journalled is lost: it is still there, or erased, or rejected, or started, or settled. */
  predicate Accounted(st: State, s: Submission) {
    Holds(st, s) || s.conversation in st.erased || s in st.server.rejected || Begun(st.server, s)
  }

  ghost predicate Invariant(st: State) {
    && (forall t :: t in st.tabs ==> PhaseOk(st, st.tabs[t]))
    && (forall n :: n in st.replies ==> ReplyOk(st, n, st.replies[n]))
    && (forall i :: 0 <= i < |st.requests| ==> st.requests[i].s in st.journalled)
    && (forall s :: s in st.journalled ==> Accounted(st, s))
    && (forall c :: c in st.journal ==> st.journal[c].conversation == c && st.journal[c] in st.journalled)
    && st.erased !! st.journal.Keys && st.erased <= st.server.deleted
    && st.server.admitted <= st.journalled
    && st.server.started <= st.server.admitted && st.server.settled <= st.server.admitted
    && st.cleaned <= st.server.admitted
    && (st.server.final ==> st.server.admitted !! st.server.rejected)
  }

  /** The state after a step has all that the state before it had, except perhaps a journal row. */
  predicate Grows(st: State, after: State) {
    && st.requests <= after.requests && st.journalled <= after.journalled
    && st.server.admitted <= after.server.admitted && st.server.rejected <= after.server.rejected
    && st.server.started <= after.server.started && st.server.settled <= after.server.settled
    && st.server.final == after.server.final
    && st.erased <= after.erased && st.server.deleted <= after.server.deleted
  }

  lemma {:induction false} StillOk(st: State, after: State, p: Phase)
    requires PhaseOk(st, p) && Grows(st, after)
    ensures PhaseOk(after, p)
  {}

  lemma {:induction false} ToOk(st: State, t: nat, p: Phase)
    requires Invariant(st) && PhaseOk(st, p)
    ensures Invariant(To(st, t, p))
  {
    var after := To(st, t, p);
    forall u | u in after.tabs ensures PhaseOk(after, after.tabs[u]) {
      if u != t { StillOk(st, after, st.tabs[u]); } else { StillOk(st, after, p); }
    }
  }

  lemma {:induction false} PhaseIsOk(st: State, t: nat)
    requires Invariant(st)
    ensures PhaseOk(st, PhaseOf(st, t))
  {}

  lemma {:induction false} PhasesStillOk(st: State, after: State)
    requires Invariant(st) && Grows(st, after) && after.tabs == st.tabs
    ensures forall t :: t in after.tabs ==> PhaseOk(after, after.tabs[t])
  {
    forall t | t in after.tabs ensures PhaseOk(after, after.tabs[t]) { StillOk(st, after, st.tabs[t]); }
  }

  lemma {:induction false} SendOk(st: State, r: Request)
    requires Invariant(st) && r.s in st.journalled
    ensures Invariant(st.(requests := st.requests + [r]))
  {
    var after := st.(requests := st.requests + [r]);
    PhasesStillOk(st, after);
    forall n | n in after.replies ensures ReplyOk(after, n, after.replies[n]) { assert ReplyOk(st, n, st.replies[n]); }
    forall s | s in after.journalled ensures Accounted(after, s) { assert Accounted(st, s); }
  }

  lemma {:induction false} RetainOk(st: State, s: Submission)
    requires Invariant(st) && Free(st, s)
    ensures Invariant(st.(journal := st.journal[s.conversation := s], journalled := st.journalled + {s}))
  {
    var after := st.(journal := st.journal[s.conversation := s], journalled := st.journalled + {s});
    PhasesStillOk(st, after);
    forall n | n in after.replies ensures ReplyOk(after, n, after.replies[n]) { assert ReplyOk(st, n, st.replies[n]); }
    forall r | r in after.journalled ensures Accounted(after, r) { if r != s { assert Accounted(st, r); } }
  }

  lemma {:induction false} EraseOk(st: State, c: nat)
    requires Invariant(st) && c in st.server.deleted
    ensures Invariant(DoErase(st, c))
  {
    var after := DoErase(st, c);
    PhasesStillOk(st, after);
    forall n | n in after.replies ensures ReplyOk(after, n, after.replies[n]) { assert ReplyOk(st, n, st.replies[n]); }
    forall r | r in after.journalled ensures Accounted(after, r) { assert Accounted(st, r); }
  }

  lemma {:induction false} RemovedOk(st: State, s: Submission)
    requires Invariant(st) && (s in st.server.rejected || Begun(st.server, s))
    ensures Invariant(Removed(st, s)) && Grows(st, Removed(st, s))
  {
    var after := Removed(st, s);
    PhasesStillOk(st, after);
    forall n | n in after.replies ensures ReplyOk(after, n, after.replies[n]) { assert ReplyOk(st, n, st.replies[n]); }
    forall r | r in after.journalled ensures Accounted(after, r) { assert Accounted(st, r); }
  }

  lemma {:induction false} CleanOk(st: State, s: Submission)
    requires Invariant(st) && s in st.server.admitted
    ensures Invariant(st.(cleaned := st.cleaned + {s}))
  {
    var after := st.(cleaned := st.cleaned + {s});
    PhasesStillOk(st, after);
    forall n | n in after.replies ensures ReplyOk(after, n, after.replies[n]) { assert ReplyOk(st, n, st.replies[n]); }
    forall r | r in after.journalled ensures Accounted(after, r) { assert Accounted(st, r); }
  }

  /** The server learns more: every fact the tabs and replies rest on stays true. */
  lemma {:induction false} ServerOk(st: State, after: State)
    requires Invariant(st) && Grows(st, after) && after == st.(server := after.server, replies := after.replies)
    requires after.server.admitted <= st.journalled
    requires after.server.started <= after.server.admitted && after.server.settled <= after.server.admitted
    requires after.server.final ==> after.server.admitted !! after.server.rejected
    requires forall n :: n in after.replies && n !in st.replies ==> ReplyOk(after, n, after.replies[n])
    requires forall n :: n in st.replies ==> n in after.replies && after.replies[n] == st.replies[n]
    ensures Invariant(after)
  {
    PhasesStillOk(st, after);
    forall n | n in after.replies ensures ReplyOk(after, n, after.replies[n]) {
      if n in st.replies { assert ReplyOk(st, n, st.replies[n]); }
    }
    forall r | r in after.journalled ensures Accounted(after, r) { assert Accounted(st, r); }
  }

  lemma {:induction false} HandleOk(st: State, n: nat, accept: bool)
    requires Invariant(st) && n < |st.requests| && n !in st.replies
    ensures Invariant(Handle(st, n, accept))
  {
    assert st.requests[n].s in st.journalled;
    ServerOk(st, Handle(st, n, accept));
  }

  lemma {:induction false} SettleOk(st: State, s: Submission)
    requires Invariant(st) && s in st.server.admitted
    ensures Invariant(st.(server := st.server.(settled := st.server.settled + {s})))
  {
    ServerOk(st, st.(server := st.server.(settled := st.server.settled + {s})));
  }

  lemma {:induction false} SendStepOk(st: State, t: nat, r: Request, p: Phase)
    requires Invariant(st) && r.s in st.journalled && PhaseOk(st.(requests := st.requests + [r]), p)
    ensures Invariant(Send(st, t, r, p))
  {
    SendOk(st, r);
    ToOk(st.(requests := st.requests + [r]), t, p);
  }

  lemma {:induction false} HearOk(st: State, t: nat)
    requires Invariant(st)
    ensures Invariant(TabStep(st, Hear(t), t))
  {
    var p := PhaseOf(st, t);
    PhaseIsOk(st, t);
    if p.Admitting? && p.n in st.replies {
      assert ReplyOk(st, p.n, st.replies[p.n]);
      if st.replies[p.n] == Rejected { ToOk(st, t, TurnedDown(p.s)); }
      if st.replies[p.n] == Accepted { ToOk(st, t, Confirmed(p.s)); }
    }
  }

  lemma {:induction false} StartHeardOk(st: State, t: nat, denied: bool)
    requires Invariant(st)
    ensures Invariant(TabStep(st, StartHeard(t, denied), t))
  {
    var p := PhaseOf(st, t);
    PhaseIsOk(st, t);
    if p.Starting? && p.n in st.replies {
      assert ReplyOk(st, p.n, st.replies[p.n]);
      ToOk(st, t, if st.replies[p.n] == Accepted then Finished(p.s) else if denied then Checking(p.s) else Idle);
    }
  }

  lemma {:induction false} SeeOk(st: State, t: nat, ended: bool)
    requires Invariant(st)
    ensures Invariant(TabStep(st, See(t, ended), t))
  {
    var p := PhaseOf(st, t);
    PhaseIsOk(st, t);
    if p.Cleaned? {
      if !ended {
        SendStepOk(st, t, Start(p.s), Starting(p.s, |st.requests|));
      } else if Begun(st.server, p.s) {
        ToOk(st, t, Finished(p.s));
      }
    }
  }

  lemma {:induction false} JournalStepOk(st: State, a: Action, t: nat)
    requires Invariant(st) && (a.Retain? || a.Ask? || a.Acknowledge? || a.Recover?)
    ensures Invariant(TabStep(st, a, t))
  {
    var p := PhaseOf(st, t);
    PhaseIsOk(st, t);
    if a.Retain? && p.Prepared? {
      if Free(st, p.s) {
        var kept := st.(journal := st.journal[p.s.conversation := p.s], journalled := st.journalled + {p.s});
        RetainOk(st, p.s);
        ToOk(kept, t, Retained(p.s));
      } else {
        ToOk(st, t, Idle);
      }
    }
    if a.Ask? && p.Retained? { SendStepOk(st, t, Admit(p.s), Admitting(p.s, |st.requests|)); }
    if a.Acknowledge? && (p.TurnedDown? || p.Finished?) {
      RemovedOk(st, p.s);
      ToOk(Removed(st, p.s), t, Idle);
    }
    if a.Recover? && p.Idle? && a.c in st.journal { ToOk(st, t, Recovering(st.journal[a.c])); }
  }

  lemma {:induction false} PlainStepOk(st: State, a: Action, t: nat)
    requires Invariant(st) && (a.Prepare? || a.Clean? || a.Proceed? || a.Check? || a.Notice? || a.Fail?)
    ensures Invariant(TabStep(st, a, t))
  {
    var p := PhaseOf(st, t);
    PhaseIsOk(st, t);
    if a.Prepare? && p.Idle? { ToOk(st, t, Prepared(a.s)); }
    if a.Clean? && (p.Confirmed? || p.Settling?) { CleanOk(st, p.s); }
    if a.Proceed? && p.Confirmed? { ToOk(st, t, Cleaned(p.s)); }
    if a.Proceed? && p.Settling? { ToOk(st, t, Finished(p.s)); }
    if a.Check? && p.Checking? && p.s in st.server.settled { ToOk(st, t, Finished(p.s)); }
    if a.Notice? && p.Recovering? && p.s in st.server.settled { ToOk(st, t, Settling(p.s)); }
    if a.Fail? { ToOk(st, t, Idle); }
  }

  lemma {:induction false} NextOk(st: State, a: Action)
    requires Invariant(st)
    ensures Invariant(Next(st, a))
  {
    match a
    case Process(n, accept) => if n < |st.requests| && n !in st.replies { HandleOk(st, n, accept); }
    case Settle(s) => if s in st.server.admitted { SettleOk(st, s); }
    case Delete(c) => ServerOk(st, Next(st, a));
    case Erase(c) => if c in st.server.deleted { EraseOk(st, c); }
    case Hear(t) => HearOk(st, t);
    case StartHeard(t, denied) => StartHeardOk(st, t, denied);
    case See(t, ended) => SeeOk(st, t, ended);
    case Retain(t) => JournalStepOk(st, a, t);
    case Ask(t) => JournalStepOk(st, a, t);
    case Acknowledge(t) => JournalStepOk(st, a, t);
    case Recover(t, _) => JournalStepOk(st, a, t);
    case _ => PlainStepOk(st, a, a.t);
  }

  lemma {:induction false} NextKeepsServerKind(st: State, a: Action)
    ensures Next(st, a).server.final == st.server.final
  {}

  lemma {:induction false} ExecOk(final: bool, actions: seq<Action>)
    ensures Invariant(Exec(final, actions)) && Exec(final, actions).server.final == final
  {
    if actions != [] {
      ExecOk(final, actions[..|actions| - 1]);
      NextOk(Exec(final, actions[..|actions| - 1]), actions[|actions| - 1]);
      NextKeepsServerKind(Exec(final, actions[..|actions| - 1]), actions[|actions| - 1]);
    }
  }

  // ---------------------------------------------------------------- what it gives

  /** A turn that a lost tab would leave behind: admitted, not started and not settled. */
  predicate Unstarted(st: State, s: Submission) { s in st.server.admitted && !Begun(st.server, s) }

  /** Every unstarted turn of a conversation that is not erased is still in the journal. */
  ghost predicate Safe(st: State) {
    forall s :: Unstarted(st, s) && s.conversation !in st.erased ==> Holds(st, s)
  }

  /** Every unstarted turn is still in the journal. */
  ghost predicate StrictlySafe(st: State) { forall s :: Unstarted(st, s) ==> Holds(st, s) }

  /** In every run: requests follow the journal, and only admitted submissions have their drafts cleaned. */
  lemma {:induction false} WriteAhead(final: bool, actions: seq<Action>)
    ensures var st := Exec(final, actions);
            && (forall i :: 0 <= i < |st.requests| ==> st.requests[i].s in st.journalled)
            && st.cleaned <= st.server.admitted <= st.journalled
  {
    ExecOk(final, actions);
  }

  /**
   * With final rejections, in every run: the journal holds exactly those unstarted turns whose
   * conversation is not erased, and an erased conversation is one the server has deleted.
   */
  lemma {:induction false} CrashSafe(actions: seq<Action>)
    ensures var st := Exec(true, actions);
            && Safe(st)
            && (forall s :: Unstarted(st, s) ==> (Holds(st, s) <==> s.conversation !in st.erased))
            && st.erased <= st.server.deleted
  {
    ExecOk(true, actions);
    var st := Exec(true, actions);
    forall s | Unstarted(st, s) ensures Holds(st, s) <==> s.conversation !in st.erased { assert Accounted(st, s); }
  }

  /**
   * A row leaves only by an acknowledgement of a certified rejection, an accepted start or a settled turn,
   * or by the erasure of its conversation once the server has deleted it; it is never overwritten.
   */
  lemma {:induction false} RowsLeaveForAReason(final: bool, actions: seq<Action>, a: Action, s: Submission)
    requires Holds(Exec(final, actions), s) && !Holds(Next(Exec(final, actions), a), s)
    ensures var st := Exec(final, actions);
            && s.conversation !in Next(st, a).journal
            && (|| (a.Acknowledge? && (s in st.server.rejected || Begun(st.server, s)))
                || (a == Erase(s.conversation) && s.conversation in st.server.deleted))
  {
    var st := Exec(final, actions);
    ExecOk(final, actions);
    PhaseIsOk(st, TabOf(a));
  }

  /** An erased conversation stays without a row, whatever the tabs that were inside `submit` do later. */
  lemma {:induction false} ErasedForGood(final: bool, before: seq<Action>, later: seq<Action>, c: nat)
    requires c in Exec(final, before).erased
    ensures var st := Exec(final, before + later);
            c in st.erased && c !in st.journal
    decreases |later|
  {
    var all := before + later;
    ExecOk(final, all);
    if later == [] {
      assert all == before;
    } else {
      var less, a := later[..|later| - 1], later[|later| - 1];
      assert all[..|all| - 1] == before + less && all[|all| - 1] == a;
      ErasedForGood(final, before, less, c);
      NextKeepsTombstones(Exec(final, before + less), a);
    }
  }

  lemma {:induction false} NextKeepsTombstones(st: State, a: Action)
    ensures st.erased <= Next(st, a).erased
    ensures !a.Erase? ==> Next(st, a).erased == st.erased
  {}

  /** A draft is cleaned only while its submission is admitted, and an admission is requested only after `retain`. */
  lemma {:induction false} StepsWaitTheirTurn(final: bool, actions: seq<Action>, a: Action)
    ensures var st, after := Exec(final, actions), Next(Exec(final, actions), a);
            && (forall s :: s in after.cleaned && s !in st.cleaned ==> s in st.server.admitted)
            && (|after.requests| > |st.requests| ==> after.requests[|st.requests|].s in st.journalled)
  {
    var st := Exec(final, actions);
    ExecOk(final, actions);
    PhaseIsOk(st, TabOf(a));
  }

  // A tab asks twice; the second request is rejected and the row removed; then the first one arrives.

  function Try(s: Submission): seq<Action> { [Prepare(0, s), Retain(0), Ask(0)] }

  function Turned(): seq<Action> { [Process(1, false), Hear(0), Acknowledge(0), Process(0, true)] }

  function RunOn(st: State, actions: seq<Action>): State
    decreases |actions|
  {
    if actions == [] then st else RunOn(Next(st, actions[0]), actions[1..])
  }

  lemma {:induction false} ExecThenRun(final: bool, before: seq<Action>, actions: seq<Action>)
    ensures Exec(final, before + actions) == RunOn(Exec(final, before), actions)
    decreases |actions|
  {
    if actions == [] {
      assert before + actions == before;
    } else {
      var next := before + [actions[0]];
      assert next[..|next| - 1] == before && next + actions[1..] == before + actions;
      ExecThenRun(final, next, actions[1..]);
    }
  }

  lemma {:induction false} TryRun(st: State, s: Submission)
    requires PhaseOf(st, 0).Idle? && Free(st, s)
    ensures var after := RunOn(st, Try(s));
            && PhaseOf(after, 0) == Admitting(s, |st.requests|) && after.requests == st.requests + [Admit(s)]
            && Holds(after, s) && after.erased == st.erased
            && after.server == st.server && after.replies == st.replies
  {
    var a, b := Next(st, Prepare(0, s)), Next(Next(st, Prepare(0, s)), Retain(0));
    assert b.requests == st.requests && PhaseOf(b, 0) == Retained(s);
    var acts := Try(s);
    assert acts[1..][1..] == [Ask(0)] && acts[1..][1..][1..] == [];
    assert RunOn(st, acts) == RunOn(a, acts[1..]) == RunOn(b, acts[1..][1..]);
    assert RunOn(b, [Ask(0)]) == RunOn(Next(b, Ask(0)), [Ask(0)][1..]) == Next(b, Ask(0));
  }

  lemma {:induction false} RunOnFour(st: State, a: Action, b: Action, c: Action, d: Action)
    ensures RunOn(st, [a, b, c, d]) == Next(Next(Next(Next(st, a), b), c), d)
  {
    assert [a, b, c, d][1..] == [b, c, d] && [b, c, d][1..] == [c, d] && [c, d][1..] == [d] && [d][1..] == [];
    var one := Next(st, a);
    var two := Next(one, b);
    assert RunOn(st, [a, b, c, d]) == RunOn(one, [b, c, d]) == RunOn(two, [c, d]);
    assert RunOn(two, [c, d]) == RunOn(Next(two, c), [d]) == RunOn(Next(Next(two, c), d), []);
  }

  lemma {:induction false} TurnedRun(st: State, s: Submission)
    requires st.requests == [Admit(s), Admit(s)] && st.replies == map[] && PhaseOf(st, 0) == Admitting(s, 1)
    requires Holds(st, s) && st.erased == {} && st.server == Server(false, {}, {}, {}, {}, {})
    ensures !Safe(RunOn(st, Turned()))
  {
    RunOnFour(st, Process(1, false), Hear(0), Acknowledge(0), Process(0, true));
    var a := Next(st, Process(1, false));
    assert a.replies == map[1 := Rejected] && PhaseOf(a, 0) == Admitting(s, 1);
    var b := Next(a, Hear(0));
    assert b == To(a, 0, TurnedDown(s));
    var c := Next(b, Acknowledge(0));
    assert c == To(Removed(b, s), 0, Idle);
    var d := Next(c, Process(0, true));
    assert d == Handle(c, 0, true);
    assert Unstarted(d, s) && s.conversation !in d.erased && !Holds(d, s);
  }

  /** A first try that the tab abandons once its request is sent. */
  lemma {:induction false} Abandoned(s: Submission)
    ensures var st := Exec(false, Try(s) + [Fail(0)]);
            && st.requests == [Admit(s)] && st.replies == map[] && PhaseOf(st, 0).Idle?
            && Holds(st, s) && st.erased == {} && st.server == Server(false, {}, {}, {}, {}, {})
  {
    TryRun(Exec(false, []), s);
    ExecThenRun(false, [], Try(s));
    assert [] + Try(s) == Try(s);
    var one := Exec(false, Try(s));
    ExecThenRun(false, Try(s), [Fail(0)]);
    assert [Fail(0)][1..] == [];
    assert RunOn(one, [Fail(0)]) == Next(one, Fail(0)) == To(one, 0, Idle);
  }

  lemma {:induction false} LateAdmission(s: Submission)
    ensures !Safe(Exec(false, Try(s) + [Fail(0)] + Try(s) + Turned()))
  {
    var first := Try(s) + [Fail(0)];
    Abandoned(s);
    TryRun(Exec(false, first), s);
    ExecThenRun(false, first, Try(s));
    var three := Exec(false, first + Try(s));
    assert three.requests == [Admit(s), Admit(s)];
    TurnedRun(three, s);
    ExecThenRun(false, first + Try(s), Turned());
  }

  // A tab's request is admitted; before it starts the turn, another tab deletes the conversation.

  function Deleted(c: nat): seq<Action> { [Process(0, true), Hear(0), Delete(c), Erase(c)] }

  lemma {:induction false} DeletedRun(st: State, s: Submission)
    requires st.requests == [Admit(s)] && st.replies == map[] && PhaseOf(st, 0) == Admitting(s, 0)
    requires st.server == Server(true, {}, {}, {}, {}, {})
    ensures !StrictlySafe(RunOn(st, Deleted(s.conversation)))
  {
    var c := s.conversation;
    RunOnFour(st, Process(0, true), Hear(0), Delete(c), Erase(c));
    var one := Next(st, Process(0, true));
    assert one == Handle(st, 0, true) && Unstarted(one, s);
    var two := Next(one, Hear(0));
    assert two == To(one, 0, Confirmed(s));
    var three := Next(two, Delete(c));
    assert three.server == two.server.(deleted := {c});
    var four := Next(three, Erase(c));
    assert four == DoErase(three, c);
    assert Unstarted(four, s) && !Holds(four, s);
  }

  lemma {:induction false} ErasedWhileAdmitted(s: Submission)
    ensures !StrictlySafe(Exec(true, Try(s) + Deleted(s.conversation)))
  {
    var start := Exec(true, []);
    TryRun(start, s);
    ExecThenRun(true, [], Try(s));
    assert [] + Try(s) == Try(s);
    var st := Exec(true, Try(s));
    assert st.requests == [Admit(s)];
    DeletedRun(st, s);
    ExecThenRun(true, Try(s), Deleted(s.conversation));
  }

  ghost predicate AlwaysSafe(final: bool) { forall actions :: Safe(Exec(final, actions)) }

  /** Crash safety rests on one promise of the server: that a rejection is authoritative on replay. */
  lemma {:induction false} SafeIffRejectionsAreFinal(final: bool)
    ensures AlwaysSafe(final) <==> final
  {
    if final {
      forall actions ensures Safe(Exec(final, actions)) { CrashSafe(actions); }
    } else {
      LateAdmission(Submission(0, 0));
    }
  }

  predicate Erasing(actions: seq<Action>) { exists i :: 0 <= i < |actions| && actions[i].Erase? }

  ghost predicate AlwaysStrictlySafe(final: bool, erasing: bool) {
    forall actions :: (Erasing(actions) ==> erasing) ==> StrictlySafe(Exec(final, actions))
  }

  lemma {:induction false} NoTombstones(final: bool, actions: seq<Action>)
    requires !Erasing(actions)
    ensures Exec(final, actions).erased == {}
  {
    if actions != [] {
      var before, a := actions[..|actions| - 1], actions[|actions| - 1];
      forall i | 0 <= i < |before| ensures !before[i].Erase? { assert before[i] == actions[i]; }
      NoTombstones(final, before);
      NextKeepsTombstones(Exec(final, before), a);
    }
  }

  /** No unstarted turn at all is ever lost exactly when rejections are final and conversations are never erased. */
  lemma {:induction false} StrictlySafeIff(final: bool, erasing: bool)
    ensures AlwaysStrictlySafe(final, erasing) <==> final && !erasing
  {
    var s := Submission(0, 0);
    if !final {
      var actions := Try(s) + [Fail(0)] + Try(s) + Turned();
      LateAdmission(s);
      assert !Erasing(actions) && !StrictlySafe(Exec(final, actions));
    } else if erasing {
      ErasedWhileAdmitted(s);
    } else {
      forall actions | Erasing(actions) ==> erasing ensures StrictlySafe(Exec(final, actions)) {
        CrashSafe(actions);
        NoTombstones(final, actions);
      }
    }
  }

  // ---------------------------------------------------------------- a send comes to its end

  /** The journal is as before, except that it no longer holds the submission. */
  ghost predicate Released(st: State, after: State, s: Submission) {
    && !Holds(after, s)
    && (forall c :: c in after.journal ==> c in st.journal && after.journal[c] == st.journal[c])
    && (forall c :: c in st.journal && st.journal[c] != s ==> c in after.journal)
  }

  /** An acknowledgement lets the tab go and takes exactly its submission out of the journal. */
  lemma {:induction false} AcknowledgeReleases(st: State, t: nat)
    requires PhaseOf(st, t).Finished? || PhaseOf(st, t).TurnedDown?
    ensures var after := Next(st, Acknowledge(t));
            && PhaseOf(after, t).Idle? && Released(st, after, PhaseOf(st, t).s)
            && after.server == st.server && after.erased == st.erased && after.requests == st.requests
  {}

  lemma {:induction false} RunOnSplit(st: State, a: seq<Action>, b: seq<Action>)
    ensures RunOn(st, a + b) == RunOn(RunOn(st, a), b)
    decreases |a|
  {
    if a == [] {
      assert a + b == b;
    } else {
      assert (a + b)[0] == a[0] && (a + b)[1..] == a[1..] + b;
      RunOnSplit(Next(st, a[0]), a[1..], b);
    }
  }

  /** A send: it is offered, heard to be admitted and cleaned, started and acknowledged. */
  function Offer(t: nat, s: Submission): seq<Action> { [Prepare(t, s), Retain(t), Ask(t)] }

  function Confirmation(t: nat, n: nat): seq<Action> { [Process(n, true), Hear(t), Clean(t), Proceed(t)] }

  function Launch(t: nat, n: nat): seq<Action> {
    [See(t, false), Process(n, true), StartHeard(t, false), Acknowledge(t)]
  }

  function Refusal(t: nat, n: nat): seq<Action> { [Process(n, false), Hear(t), Acknowledge(t), Fail(t)] }

  function Reload(t: nat, c: nat): seq<Action> { [Recover(t, c), Notice(t), Clean(t), Proceed(t)] }

  lemma {:induction false} RunOnThree(st: State, a: Action, b: Action, c: Action)
    ensures RunOn(st, [a, b, c]) == Next(Next(Next(st, a), b), c)
  {
    assert [a, b, c][1..] == [b, c] && [b, c][1..] == [c] && [c][1..] == [];
    assert RunOn(st, [a, b, c]) == RunOn(Next(st, a), [b, c]) == RunOn(Next(Next(st, a), b), [c]);
    assert RunOn(Next(Next(st, a), b), [c]) == RunOn(Next(Next(Next(st, a), b), c), []);
  }

  lemma {:induction false} OfferRun(st: State, t: nat, s: Submission)
    requires PhaseOf(st, t).Idle? && Free(st, s)
    ensures RunOn(st, Offer(t, s)) ==
            To(st.(journal := st.journal[s.conversation := s], journalled := st.journalled + {s},
                   requests := st.requests + [Admit(s)]), t, Admitting(s, |st.requests|))
  {
    RunOnThree(st, Prepare(t, s), Retain(t), Ask(t));
    var a := Next(st, Prepare(t, s));
    assert a == To(st, t, Prepared(s)) && Free(a, s);
    var b := Next(a, Retain(t));
    assert b.tabs[t] == Retained(s) && b.requests == st.requests;
    var c := Next(b, Ask(t));
    assert c.tabs == st.tabs[t := Admitting(s, |st.requests|)];
  }

  /** The server may admit the submission: its rejection is not final. */
  predicate Admissible(server: Server, s: Submission) {
    s in server.admitted || !(server.final && s in server.rejected)
  }

  lemma {:induction false} ConfirmationRun(st: State, t: nat, s: Submission, n: nat)
    requires PhaseOf(st, t) == Admitting(s, n) && n < |st.requests| && st.requests[n] == Admit(s) && n !in st.replies
    requires Admissible(st.server, s)
    ensures var after := RunOn(st, Confirmation(t, n));
            && PhaseOf(after, t) == Cleaned(s) && s in after.cleaned && s in after.server.admitted
            && after.journal == st.journal && after.erased == st.erased && after.requests == st.requests
            && after.replies == st.replies[n := Accepted]
  {
    RunOnFour(st, Process(n, true), Hear(t), Clean(t), Proceed(t));
    var a := Next(st, Process(n, true));
    assert a == Handle(st, n, true) && a.replies == st.replies[n := Accepted];
    var b := Next(a, Hear(t));
    assert b == To(a, t, Confirmed(s));
    var c := Next(b, Clean(t));
    assert c == b.(cleaned := b.cleaned + {s});
    assert Next(c, Proceed(t)) == To(c, t, Cleaned(s));
  }

  /** The start is requested, handled and heard. */
  lemma {:induction false} StartIsHeard(st: State, t: nat, s: Submission) returns (heard: State)
    requires PhaseOf(st, t) == Cleaned(s) && s in st.server.admitted && |st.requests| !in st.replies
    ensures var n := |st.requests|;
            heard == Next(Next(Next(st, See(t, false)), Process(n, true)), StartHeard(t, false))
    ensures PhaseOf(heard, t) == Finished(s) && s in heard.server.started && heard.cleaned == st.cleaned
    ensures heard.journal == st.journal && heard.erased == st.erased && heard.server.admitted == st.server.admitted
  {
    var n := |st.requests|;
    var a := Next(st, See(t, false));
    assert a == Send(st, t, Start(s), Starting(s, n)) && a.requests[n] == Start(s);
    var b := Next(a, Process(n, true));
    assert b == Handle(a, n, true) && b.replies == a.replies[n := Accepted];
    heard := Next(b, StartHeard(t, false));
    assert heard == To(b, t, Finished(s));
  }

  lemma {:induction false} LaunchRun(st: State, t: nat, s: Submission)
    requires PhaseOf(st, t) == Cleaned(s) && s in st.server.admitted && |st.requests| !in st.replies
    ensures var after := RunOn(st, Launch(t, |st.requests|));
            && PhaseOf(after, t).Idle? && s in after.server.started && after.cleaned == st.cleaned
            && Released(st, after, s) && after.erased == st.erased
            && after.server.admitted == st.server.admitted
  {
    var n := |st.requests|;
    RunOnFour(st, See(t, false), Process(n, true), StartHeard(t, false), Acknowledge(t));
    var heard := StartIsHeard(st, t, s);
    AcknowledgeReleases(heard, t);
  }

  /** Another submission of the conversation can be retained now. */
  predicate Open(st: State, c: nat) { c !in st.erased && c !in st.journal }

  lemma {:induction false} NoReplyYet(final: bool, before: seq<Action>, n: nat)
    requires n >= |Exec(final, before).requests|
    ensures n !in Exec(final, before).replies
  {
    var st := Exec(final, before);
    ExecOk(final, before);
    forall k | k in st.replies ensures k < |st.requests| { assert ReplyOk(st, k, st.replies[k]); }
  }

  /**
   * A send that is answered comes to its end from every reachable state, be it a first try or the retry of a
   * journalled message: the turn starts, its draft is cleaned, and the conversation can take another message.
   */
  lemma {:induction false} SendCompletes(final: bool, before: seq<Action>, t: nat, s: Submission)
    requires var st := Exec(final, before); PhaseOf(st, t).Idle? && Admissible(st.server, s)
    requires var st := Exec(final, before); Open(st, s.conversation) || Holds(st, s)
    ensures var n := |Exec(final, before).requests|;
            var after := RunOn(Exec(final, before), Offer(t, s) + (Confirmation(t, n) + Launch(t, n + 1)));
            && s in after.server.admitted && s in after.server.started && s in after.cleaned
            && PhaseOf(after, t).Idle? && Open(after, s.conversation)
  {
    var st := Exec(final, before);
    var n := |st.requests|;
    NoReplyYet(final, before, n);
    NoReplyYet(final, before, n + 1);
    ExecOk(final, before);
    OfferRun(st, t, s);
    var asked := RunOn(st, Offer(t, s));
    ConfirmationRun(asked, t, s, n);
    var heard := RunOn(asked, Confirmation(t, n));
    LaunchRun(heard, t, s);
    RunOnSplit(st, Offer(t, s), Confirmation(t, n) + Launch(t, n + 1));
    RunOnSplit(asked, Confirmation(t, n), Launch(t, n + 1));
    ReleasedIsOpen(heard, RunOn(heard, Launch(t, n + 1)), s);
  }

  lemma {:induction false} ReleasedIsOpen(st: State, after: State, s: Submission)
    requires Holds(st, s) && s.conversation !in st.erased && Released(st, after, s) && after.erased == st.erased
    ensures Open(after, s.conversation)
  {}

  lemma {:induction false} RefusalRun(st: State, t: nat, s: Submission, n: nat)
    requires PhaseOf(st, t) == Admitting(s, n) && n < |st.requests| && st.requests[n] == Admit(s) && n !in st.replies
    requires s !in st.server.admitted
    ensures var after := RunOn(st, Refusal(t, n));
            && PhaseOf(after, t).Idle? && s in after.server.rejected && after.cleaned == st.cleaned
            && Released(st, after, s) && after.erased == st.erased
  {
    RunOnFour(st, Process(n, false), Hear(t), Acknowledge(t), Fail(t));
    var a := Next(st, Process(n, false));
    assert a == Handle(st, n, false) && a.replies == st.replies[n := Rejected];
    var b := Next(a, Hear(t));
    assert b == To(a, t, TurnedDown(s));
    AcknowledgeReleases(b, t);
    var c := Next(b, Acknowledge(t));
    assert Next(c, Fail(t)) == To(c, t, Idle);
  }

  /** A certified rejection releases the message, keeps its draft and frees the conversation. */
  lemma {:induction false} RejectionReleases(final: bool, before: seq<Action>, t: nat, s: Submission)
    requires var st := Exec(final, before); PhaseOf(st, t).Idle? && s !in st.server.admitted
    requires var st := Exec(final, before); Open(st, s.conversation) || Holds(st, s)
    ensures var st := Exec(final, before);
            var after := RunOn(st, Offer(t, s) + Refusal(t, |st.requests|));
            && s in after.server.rejected && after.cleaned == st.cleaned
            && PhaseOf(after, t).Idle? && Open(after, s.conversation)
  {
    var st := Exec(final, before);
    var n := |st.requests|;
    NoReplyYet(final, before, n);
    ExecOk(final, before);
    OfferRun(st, t, s);
    var asked := RunOn(st, Offer(t, s));
    RunOnSplit(st, Offer(t, s), Refusal(t, n));
    RefusalRun(asked, t, s, n);
    ReleasedIsOpen(asked, RunOn(asked, Refusal(t, n)), s);
  }

  /** After a reload a settled turn's draft is cleaned and its message released. */
  lemma {:induction false} RecoveryReleases(st: State, t: nat, c: nat)
    requires PhaseOf(st, t).Idle? && c in st.journal && st.journal[c].conversation == c
    requires st.journal[c] in st.server.settled && c !in st.erased
    ensures var after := Next(RunOn(st, Reload(t, c)), Acknowledge(t));
            st.journal[c] in after.cleaned && PhaseOf(after, t).Idle? && Open(after, c)
  {
    var s := st.journal[c];
    RunOnFour(st, Recover(t, c), Notice(t), Clean(t), Proceed(t));
    var a := Next(st, Recover(t, c));
    assert a == To(st, t, Recovering(s));
    var b := Next(a, Notice(t));
    assert b == To(a, t, Settling(s));
    var d := Next(b, Clean(t));
    assert d == b.(cleaned := b.cleaned + {s});
    var e := Next(d, Proceed(t));
    assert e == To(d, t, Finished(s));
    AcknowledgeReleases(e, t);
  }

  /** From every reachable state a journalled message whose turn settles is released by the next reload. */
  lemma {:induction false} SettledIsRecovered(final: bool, before: seq<Action>, t: nat, c: nat)
    requires var st := Exec(final, before);
             PhaseOf(st, t).Idle? && c in st.journal && st.journal[c] in st.server.admitted
    ensures var st := Exec(final, before);
            var after := Next(RunOn(Next(st, Settle(st.journal[c])), Reload(t, c)), Acknowledge(t));
            st.journal[c] in after.cleaned && PhaseOf(after, t).Idle? && Open(after, c)
  {
    ExecOk(final, before);
    var st := Exec(final, before);
    RecoveryReleases(Next(st, Settle(st.journal[c])), t, c);
  }

  /** A start that is denied releases the message if the turn turns out to be settled, and otherwise keeps it. */
  lemma {:induction false} DeniedStart(st: State, t: nat, denied: bool)
    requires PhaseOf(st, t).Starting? && PhaseOf(st, t).n in st.replies && st.replies[PhaseOf(st, t).n] != Accepted
    ensures var s := PhaseOf(st, t).s;
            var heard := Next(st, StartHeard(t, denied));
            var checked := Next(heard, Check(t));
            && heard.journal == checked.journal == st.journal
            && (!denied ==> PhaseOf(heard, t).Idle?)
            && (denied && s in st.server.settled ==> Released(st, Next(checked, Acknowledge(t)), s))
            && (denied && s !in st.server.settled ==> Next(checked, Acknowledge(t)).journal == st.journal)
  {
    var heard := Next(st, StartHeard(t, denied));
    var checked := Next(heard, Check(t));
    if denied && PhaseOf(st, t).s in st.server.settled { AcknowledgeReleases(checked, t); }
  }

  /** A turn that is seen to have begun already is not started again, and its message is released. */
  lemma {:induction false} SeenToHaveBegun(st: State, t: nat)
    requires PhaseOf(st, t).Cleaned? && Begun(st.server, PhaseOf(st, t).s)
    ensures var after := Next(Next(st, See(t, true)), Acknowledge(t));
            Released(st, after, PhaseOf(st, t).s) && after.requests == st.requests && PhaseOf(after, t).Idle?
  {
    AcknowledgeReleases(Next(st, See(t, true)), t);
  }

  /** A tab that is sending or recovering takes up nothing else before it is done. */
  lemma {:induction false} BusyTabWaits(st: State, t: nat, s: Submission, c: nat)
    requires !PhaseOf(st, t).Idle?
    ensures Next(st, Prepare(t, s)) == st && Next(st, Recover(t, c)) == st
  {}

  /** A second message of the conversation is not retained, and the first one stays. */
  lemma {:induction false} SecondIsRefused(st: State, t: nat)
    requires PhaseOf(st, t).Prepared? && PhaseOf(st, t).s.conversation in st.journal
    requires st.journal[PhaseOf(st, t).s.conversation] != PhaseOf(st, t).s
    ensures var after := Next(st, Retain(t));
            after.journal == st.journal && after.journalled == st.journalled && PhaseOf(after, t).Idle?
  {}
}
