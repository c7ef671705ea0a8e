/** The workspace that owns every reservation and both upload slots (src/attachments/draft-workspace.ts). */
module DraftWorkspace {
  import opened Options
  import opened Workspace

  ghost predicate Counted(retained: map<Key, nat>, holders: seq<Holder>, size: Sizes) {
    Matches(retained, Held(holders)) && Within(retained.Keys, size)
  }

  lemma {:induction false} CountedFits(retained: map<Key, nat>, holders: seq<Holder>, size: Sizes)
    requires Counted(retained, holders, size)
    ensures Within(Support(Held(holders)), size) && retained.Keys == Support(Held(holders))
  {
    MatchesSupport(retained, Held(holders));
  }

  /** One more holder of files that are all held already. */
  method AddHolder(retained: map<Key, nat>, holders: seq<Holder>, size: Sizes, h: Holder)
    returns (after: Option<map<Key, nat>>)
    requires Counted(retained, holders, size) && multiset(Files(h)) <= Held(holders)
    ensures after.Some? && Counted(after.value, holders + [h], size)
  {
    CountedFits(retained, holders, size);
    ReHoldFits(Held(holders), Files(h), size);
    Append(holders, h);
    assert Held(holders) - multiset([]) + multiset(Files(h)) == Held(holders + [h]);
    after := Replace(retained, size, [], Files(h), Held(holders));
  }

  /** A holder gives its files back and goes. */
  method DropHolder(retained: map<Key, nat>, holders: seq<Holder>, size: Sizes, j: nat)
    returns (after: Option<map<Key, nat>>)
    requires Counted(retained, holders, size) && j < |holders|
    ensures after.Some? && Counted(after.value, holders[..j] + holders[j + 1..], size)
  {
    CountedFits(retained, holders, size);
    RemoveHeld(holders, j);
    ReleaseFits(Held(holders), Files(holders[j]), size);
    assert Held(holders) - multiset(Files(holders[j])) + multiset([]) == Held(holders[..j] + holders[j + 1..]);
    after := Replace(retained, size, Files(holders[j]), [], Held(holders));
  }

  /** A holder changes its files, if the limits allow it. */
  method SwapHolder(retained: map<Key, nat>, holders: seq<Holder>, size: Sizes, j: nat, h: Holder)
    returns (after: Option<map<Key, nat>>)
    requires Counted(retained, holders, size) && j < |holders|
    ensures after.Some? <==> Within(Support(Held(holders[j := h])), size)
    ensures after.Some? ==> Counted(after.value, holders[j := h], size)
  {
    UpdateHeld(holders, j, h);
    after := Replace(retained, size, Files(holders[j]), Files(h), Held(holders));
  }

  /** A file with a count is held by someone. */
  lemma {:induction false} RetainedIsHeld(retained: map<Key, nat>, holders: seq<Holder>, size: Sizes, file: Key)
    requires Counted(retained, holders, size) && file in retained
    ensures multiset([file]) <= Held(holders)
  {
    assert Times(Held(holders), file) > 0;
    assert multiset([file]) == multiset{file};
  }

  class AttachmentDraftWorkspace {
    const size: Sizes
    var retained: map<Key, nat>
    var holders: seq<Holder>
    var active: nat
    var waiters: seq<nat>
    var nextTicket: nat
    var closed: bool

    /** Counts are holds, limits hold, at most two uploads run, and one waits only while both slots are taken. */
    ghost predicate Valid() reads this {
      && Counted(retained, holders, size) && Semaphore(holders, active, waiters, nextTicket)
      && (waiters != [] ==> active == SLOTS)
    }

    constructor (size: Sizes)
      ensures Valid() && holders == [] && !closed
    {
      this.size, retained, holders := size, map[], [];
      active, waiters, nextTicket, closed := 0, [], 0, false;
    }

    /** A controller starts without files (src/attachments/draft-workspace.ts:62-78). */
    method Open() returns (ok: bool)
      requires Valid()
      modifies this`holders
      ensures Valid() && ok == !closed
      ensures holders == if ok then old(holders) + [Controller([])] else old(holders)
    {
      if closed { return false; }
      NothingHeld(holders);
      NoUploadJoins(holders, active, waiters, nextTicket, Controller([]));
      holders := holders + [Controller([])];
      ok := true;
    }

    /** The reservation of `adopt` (src/attachments/draft-workspace.ts:152-158): exact, and all of it or nothing. */
    method Adopt(i: nat, files: seq<Key>) returns (ok: bool)
      requires Valid() && i < |holders| && holders[i].Controller?
      modifies this`retained, this`holders
      ensures Valid()
      ensures ok <==> Within(Support(Held(old(holders)[i := Controller(files)])), size)
      ensures ok ==> holders == old(holders)[i := Controller(files)]
      ensures !ok ==> holders == old(holders) && retained == old(retained)
    {
      var after := SwapHolder(retained, holders, size, i, Controller(files));
      if after.None? { return false; }
      NoUploadChanges(holders, active, waiters, nextTicket, i, Controller(files));
      retained, holders := after.value, holders[i := Controller(files)];
      ok := true;
    }

    /** The failure path of `adopt` (src/attachments/draft-workspace.ts:172-175): all is as it was before. */
    method AdoptAndUndo(i: nat, files: seq<Key>) returns (ok: bool)
      requires Valid() && i < |holders| && holders[i].Controller?
      modifies this`retained, this`holders
      ensures Valid() && holders == old(holders) && retained == old(retained)
    {
      var previous := holders[i].files;
      ghost var before := holders;
      CountedFits(retained, holders, size);
      ok := Adopt(i, files);
      if ok {
        UndoHeld(before, i, files, size);
        var undone := Adopt(i, previous);
        assert undone && holders == before;
      }
      MatchesOnce(old(retained), retained, Held(holders));
    }

    /** A save holds the controller's files while it is written (src/attachments/draft-workspace.ts:264-266). */
    method BeginSave(i: nat) returns (ok: bool)
      requires Valid() && i < |holders| && holders[i].Controller?
      modifies this`retained, this`holders
      ensures Valid() && ok && holders == old(holders) + [Save(old(holders)[i].files)]
    {
      var save := Save(holders[i].files);
      HeldByOne(holders, i);
      NoUploadJoins(holders, active, waiters, nextTicket, save);
      var after := AddHolder(retained, holders, size, save);
      if after.None? { return false; }
      retained, holders := after.value, holders + [save];
      ok := true;
    }

    /** The end of a save or of a controller (src/attachments/draft-workspace.ts:273, 284). */
    method Release(j: nat) returns (ok: bool)
      requires Valid() && j < |holders| && !holders[j].Upload?
      modifies this`retained, this`holders
      ensures Valid() && ok && holders == old(holders)[..j] + old(holders)[j + 1..]
    {
      var after := DropHolder(retained, holders, size, j);
      if after.None? { return false; }
      Leaves(holders, active, waiters, nextTicket, j);
      retained, holders := after.value, holders[..j] + holders[j + 1..];
      ok := true;
    }

    /** The start of an upload (src/attachments/draft-workspace.ts:30-52): it holds its file and enters or waits. */
    method BeginUpload(file: Key, aborted: bool) returns (ticket: Option<nat>)
      requires Valid()
      modifies this`retained, this`holders, this`active, this`waiters, this`nextTicket
      ensures Valid()
      ensures ticket.Some? <==> !closed && file in old(retained)
      ensures ticket.None? ==> holders == old(holders)
      ensures ticket.Some? ==>
                && ticket.value == old(nextTicket) && |holders| == |old(holders)| + 1 && old(holders) <= holders
                && var upload := holders[|old(holders)|];
                   && upload.Upload? && upload.file == file && upload.ticket == ticket.value
                   && (upload.phase == Rejected <==> aborted)
                   && (upload.phase == Running <==> !aborted && old(active) < 2)
                   && (upload.phase == Waiting <==> !aborted && old(active) == 2)
      ensures ticket.Some? && !aborted && old(active) == SLOTS ==> waiters == old(waiters) + [ticket.value]
      ensures ticket.None? || aborted || old(active) < SLOTS ==> waiters == old(waiters)
    {
      if closed || file !in retained { return None; }
      ticket := Some(nextTicket);
      var ok := Hold(Upload(file, nextTicket, Admission(aborted, active)));
      if !ok { return None; }
    }

    /** The upload's hold, and its slot or its place in the queue. */
    method Hold(upload: Holder) returns (ok: bool)
      requires Valid() && upload.Upload? && upload.file in retained && upload.ticket == nextTicket
      requires upload.phase == Rejected || upload.phase == Admission(false, active)
      modifies this`retained, this`holders, this`active, this`waiters, this`nextTicket
      ensures Valid() && ok && holders == old(holders) + [upload]
      ensures waiters == if upload.phase == Waiting then old(waiters) + [upload.ticket] else old(waiters)
    {
      var after, all, running, queue, next := JoinQueue(retained, size, holders, active, waiters, nextTicket, upload);
      if after.None? { return false; }
      retained, holders, active, waiters, nextTicket := after.value, all, running, queue, next;
      ok := true;
    }

    /** An abort while waiting (src/attachments/draft-workspace.ts:38-43). */
    method Abort(k: nat)
      requires Valid() && k < |waiters|
      modifies this`holders, this`waiters
      ensures Valid() && waiters == old(waiters)[..k] + old(waiters)[k + 1..] && active == old(active)
      ensures Held(holders) == Held(old(holders))
    {
      Enters(holders, active, waiters, nextTicket, k, Rejected);
      var i := IndexOf(holders, waiters[k]);
      Rephased(retained, holders, size, i, Rejected);
      holders := holders[i := holders[i].(phase := Rejected)];
      waiters := waiters[..k] + waiters[k + 1..];
    }

    /**
     * The end of an upload (src/attachments/draft-workspace.ts:55-59): its hold and its slot go, and the
     * waiters at the head of the queue enter, in their order.
     */
    method EndUpload(j: nat) returns (ok: bool)
      requires Valid() && j < |holders| && holders[j].Upload? && holders[j].phase != Waiting
      modifies this`retained, this`holders, this`active, this`waiters
      ensures Valid() && ok
      ensures Ended(old(holders), old(active), old(waiters), j, closed, holders, waiters)
    {
      var after, all, running, queue := LeaveQueue(retained, size, closed, holders, active, waiters, nextTicket, j);
      retained, holders, active, waiters := after, all, running, queue;
      ok := true;
    }

    /**
     * `dispose` (src/attachments/draft-workspace.ts:107-117): no upload or controller begins any more, every
     * waiter is turned away, and what is still held is held by saves and by uploads that have not ended.
     */
    method Dispose()
      requires Valid()
      modifies this`retained, this`holders, this`waiters, this`closed
      ensures Valid() && closed
      ensures old(closed) ==> holders == old(holders) && waiters == old(waiters)
      ensures !old(closed) ==> waiters == [] && forall j :: 0 <= j < |holders| ==> !holders[j].Controller?
    {
      if closed { return; }
      closed := true;
      while waiters != []
        invariant Valid() && closed
        decreases |waiters|
      {
        Abort(0);
      }
      var j := 0;
      while j < |holders|
        invariant Valid() && closed && waiters == [] && 0 <= j <= |holders|
        invariant forall i :: 0 <= i < j ==> !holders[i].Controller?
        decreases |holders| - j
      {
        if holders[j].Controller? {
          var ok := Release(j);
        } else {
          j := j + 1;
        }
      }
    }
  }

  /** Going back to the files that a controller held before is always within the limits. */
  lemma {:induction false} UndoHeld(holders: seq<Holder>, i: nat, files: seq<Key>, size: Sizes)
    requires i < |holders| && holders[i].Controller? && Within(Support(Held(holders)), size)
    ensures var now := holders[i := Controller(files)];
            now[i := Controller(holders[i].files)] == holders
            && Within(Support(Held(now[i := Controller(holders[i].files)])), size)
  {
    var now, previous := holders[i := Controller(files)], holders[i].files;
    UpdateHeld(holders, i, Controller(files));
    UpdateHeld(now, i, Controller(previous));
    UndoFits(Held(holders), previous, files, size);
  }

  /** How many waiters enter, or are turned away once the workspace is closed. */
  function Entering(closed: bool, running: nat, waiting: nat): nat {
    if running >= SLOTS then 0
    else if closed || waiting <= SLOTS - running then waiting
    else SLOTS - running
  }

  /** The uploads with these tickets get a slot or are turned away. */
  function LetIn(holders: seq<Holder>, tickets: seq<nat>, phase: Phase): seq<Holder> {
    if tickets == [] then holders
    else
      var before := LetIn(holders, tickets[..|tickets| - 1], phase);
      var i := IndexOf(before, tickets[|tickets| - 1]);
      if i < |before| then before[i := before[i].(phase := phase)] else before
  }

  /** The waiters at the head of the queue enter in their order, as many as there are free slots. */
  predicate Entered(
    all: seq<Holder>, running: nat, queue: seq<nat>, closed: bool, holders: seq<Holder>, waiters: seq<nat>) {
    var n := Entering(closed, running, |queue|);
    holders == LetIn(all, queue[..n], if closed then Rejected else Running) && waiters == queue[n..]
  }

  predicate Peek(open: bool) { open }

  /**
   * The holder is gone and so is its slot, and the waiters at the head of the queue have entered.
   * `Peek(true)` opens the definition.
   */
  ghost predicate Ended(
    all: seq<Holder>, running: nat, queue: seq<nat>, j: nat, closed: bool, holders: seq<Holder>, waiters: seq<nat>) {
    forall open {:trigger Peek(open)} :: Peek(open) ==>
      && j < |all| && Slots(all[j]) <= running
      && var rest := all[..j] + all[j + 1..];
         Held(holders) == Held(rest) && Entered(rest, running - Slots(all[j]), queue, closed, holders, waiters)
  }

  /** Exactly those uploads change, and only in their phase. */
  lemma {:induction false} LetInOnly(holders: seq<Holder>, tickets: seq<nat>, phase: Phase, nextTicket: nat, i: nat)
    requires Unique(holders, nextTicket) && i < |holders|
    ensures |LetIn(holders, tickets, phase)| == |holders| && Unique(LetIn(holders, tickets, phase), nextTicket)
    ensures LetIn(holders, tickets, phase)[i] ==
            if holders[i].Upload? && holders[i].ticket in tickets then holders[i].(phase := phase) else holders[i]
  {
    if tickets != [] {
      var init, t := tickets[..|tickets| - 1], tickets[|tickets| - 1];
      assert tickets == init + [t];
      forall k: nat | k < |holders|
        ensures |LetIn(holders, init, phase)| == |holders| && Unique(LetIn(holders, init, phase), nextTicket)
        ensures LetIn(holders, init, phase)[k] ==
                if holders[k].Upload? && holders[k].ticket in init then holders[k].(phase := phase) else holders[k]
      {
        LetInOnly(holders, init, phase, nextTicket, k);
      }
    }
  }

  /** First come, first served: nobody overtakes in the queue, and nobody else's phase changes. */
  lemma {:induction false} FirstServed(
    all: seq<Holder>, running: nat, queue: seq<nat>, j: nat, closed: bool, holders: seq<Holder>, waiters: seq<nat>,
    nextTicket: nat, k: nat)
    requires Ended(all, running, queue, j, closed, holders, waiters) && Semaphore(all, running, queue, nextTicket)
    requires j < |all| && !(all[j].Upload? && all[j].phase == Waiting) && k < |all| && k != j
    ensures |holders| == |all| - 1 && |waiters| <= |queue| && waiters == queue[|queue| - |waiters|..]
    ensures var phase, entered := if closed then Rejected else Running, queue[..|queue| - |waiters|];
            holders[if k < j then k else k - 1] ==
            if all[k].Upload? && all[k].ticket in entered then all[k].(phase := phase) else all[k]
  {
    var m := if k < j then k else k - 1;
    EndedOpens(all, running, queue, j, closed, holders, waiters, nextTicket);
    WithoutOne(all, j, k);
    ServedFrom(all[..j] + all[j + 1..], running - Slots(all[j]), queue, closed, holders, waiters, nextTicket, m);
  }

  lemma {:induction false} WithoutOne(all: seq<Holder>, j: nat, k: nat)
    requires j < |all| && k < |all| && k != j
    ensures (all[..j] + all[j + 1..])[if k < j then k else k - 1] == all[k]
  {}

  lemma {:induction false} EndedOpens(
    all: seq<Holder>, running: nat, queue: seq<nat>, j: nat, closed: bool, holders: seq<Holder>, waiters: seq<nat>,
    nextTicket: nat)
    requires Ended(all, running, queue, j, closed, holders, waiters) && Semaphore(all, running, queue, nextTicket)
    requires j < |all| && !(all[j].Upload? && all[j].phase == Waiting)
    ensures Slots(all[j]) <= running && Unique(all[..j] + all[j + 1..], nextTicket)
    ensures Entered(all[..j] + all[j + 1..], running - Slots(all[j]), queue, closed, holders, waiters)
  {
    assert Look(true) && Peek(true);
    QueueRemove(all, queue, j, nextTicket);
  }

  lemma {:induction false} ServedFrom(
    rest: seq<Holder>, running: nat, queue: seq<nat>, closed: bool, holders: seq<Holder>, waiters: seq<nat>,
    nextTicket: nat, m: nat)
    requires Entered(rest, running, queue, closed, holders, waiters) && Unique(rest, nextTicket) && m < |rest|
    ensures |holders| == |rest| && |waiters| <= |queue| && waiters == queue[|queue| - |waiters|..]
    ensures var phase, entered := if closed then Rejected else Running, queue[..|queue| - |waiters|];
            holders[m] == if rest[m].Upload? && rest[m].ticket in entered then rest[m].(phase := phase) else rest[m]
  {
    var n := Entering(closed, running, |queue|);
    LetInOnly(rest, queue[..n], if closed then Rejected else Running, nextTicket, m);
  }

  /** The hold and the slot of an upload that ended go, and waiters enter. */
  method LeaveQueue(
    retained: map<Key, nat>, size: Sizes, closed: bool, holders: seq<Holder>, active: nat, waiters: seq<nat>,
    nextTicket: nat, j: nat)
    returns (after: map<Key, nat>, all: seq<Holder>, running: nat, queue: seq<nat>)
    requires Counted(retained, holders, size) && Semaphore(holders, active, waiters, nextTicket)
    requires j < |holders| && holders[j].Upload? && holders[j].phase != Waiting
    ensures Counted(after, all, size) && Semaphore(all, running, queue, nextTicket)
    ensures queue != [] ==> running == SLOTS
    ensures Ended(holders, active, waiters, j, closed, all, queue)
  {
    Leaves(holders, active, waiters, nextTicket, j);
    var dropped := DropHolder(retained, holders, size, j);
    after := dropped.value;
    all, running := holders[..j] + holders[j + 1..], active - Slots(holders[j]);
    all, running, queue := Admit(after, size, closed, all, running, waiters, nextTicket);
  }

  /** The loop that lets waiters in; after closing, each of them is turned away instead. */
  method Admit(
    retained: map<Key, nat>, size: Sizes, closed: bool, all: seq<Holder>, running: nat, queue: seq<nat>,
    nextTicket: nat)
    returns (holders: seq<Holder>, active: nat, waiters: seq<nat>)
    requires Counted(retained, all, size) && Semaphore(all, running, queue, nextTicket)
    ensures Counted(retained, holders, size) && Semaphore(holders, active, waiters, nextTicket)
    ensures waiters != [] ==> active == SLOTS
    ensures Held(holders) == Held(all) && Entered(all, running, queue, closed, holders, waiters)
  {
    holders, active, waiters := all, running, queue;
    ghost var n := 0;
    while active < SLOTS && |waiters| > 0
      invariant Counted(retained, holders, size) && Semaphore(holders, active, waiters, nextTicket)
      invariant Held(holders) == Held(all) && Progress(all, running, queue, closed, n, holders, active, waiters)
      decreases |waiters|
    {
      ProgressGoesOn(all, running, queue, closed, n, holders, active, waiters);
      holders, active, waiters := AdmitOne(retained, size, closed, holders, active, waiters, nextTicket);
      n := n + 1;
    }
    ProgressEnds(all, running, queue, closed, n, holders, active, waiters);
  }

  /** `n` waiters have entered. */
  ghost predicate Progress(
    all: seq<Holder>, running: nat, queue: seq<nat>, closed: bool, n: nat, holders: seq<Holder>, active: nat,
    waiters: seq<nat>) {
    && n <= |queue| && waiters == queue[n..] && active == running + (if closed then 0 else n)
    && (n > 0 ==> running < SLOTS)
    && holders == LetIn(all, queue[..n], if closed then Rejected else Running)
  }

  lemma {:induction false} ProgressGoesOn(
    all: seq<Holder>, running: nat, queue: seq<nat>, closed: bool, n: nat, holders: seq<Holder>, active: nat,
    waiters: seq<nat>)
    requires Progress(all, running, queue, closed, n, holders, active, waiters)
    requires waiters != [] && active < SLOTS
    ensures Progress(all, running, queue, closed, n + 1, Head(holders, waiters, closed),
                     if closed then active else active + 1, waiters[1..])
  {
    assert queue[..n + 1][..n] == queue[..n];
    assert waiters[0] == queue[n];
  }

  lemma {:induction false} ProgressEnds(
    all: seq<Holder>, running: nat, queue: seq<nat>, closed: bool, n: nat, holders: seq<Holder>, active: nat,
    waiters: seq<nat>)
    requires Progress(all, running, queue, closed, n, holders, active, waiters)
    requires active <= SLOTS && (active == SLOTS || waiters == [])
    ensures Entered(all, running, queue, closed, holders, waiters)
  {
    assert n == Entering(closed, running, |queue|);
  }

  /** The first waiter gets a slot or is turned away. */
  function Head(holders: seq<Holder>, waiters: seq<nat>, closed: bool): seq<Holder>
    requires waiters != []
  {
    var i := IndexOf(holders, waiters[0]);
    if i < |holders| then holders[i := holders[i].(phase := if closed then Rejected else Running)] else holders
  }

  method AdmitOne(
    retained: map<Key, nat>, size: Sizes, closed: bool, all: seq<Holder>, running: nat, queue: seq<nat>,
    nextTicket: nat)
    returns (holders: seq<Holder>, active: nat, waiters: seq<nat>)
    requires Counted(retained, all, size) && Semaphore(all, running, queue, nextTicket)
    requires running < SLOTS && queue != []
    ensures Counted(retained, holders, size) && Semaphore(holders, active, waiters, nextTicket)
    ensures Held(holders) == Held(all) && holders == Head(all, queue, closed)
    ensures active == (if closed then running else running + 1) && waiters == queue[1..]
  {
    HeadKeepsSlots(all, running, queue, nextTicket, closed);
    HeadKeepsHolds(retained, all, size, queue, closed);
    holders, waiters := Head(all, queue, closed), queue[1..];
    active := if closed then running else running + 1;
  }

  lemma {:induction false} HeadKeepsSlots(
    all: seq<Holder>, running: nat, queue: seq<nat>, nextTicket: nat, closed: bool)
    requires Semaphore(all, running, queue, nextTicket) && running < SLOTS && queue != []
    ensures Semaphore(Head(all, queue, closed), if closed then running else running + 1, queue[1..], nextTicket)
  {
    Enters(all, running, queue, nextTicket, 0, if closed then Rejected else Running);
    assert queue[..0] + queue[1..] == queue[1..];
  }

  lemma {:induction false} HeadKeepsHolds(
    retained: map<Key, nat>, all: seq<Holder>, size: Sizes, queue: seq<nat>, closed: bool)
    requires Counted(retained, all, size) && queue != []
    ensures Counted(retained, Head(all, queue, closed), size) && Held(Head(all, queue, closed)) == Held(all)
  {
    var i := IndexOf(all, queue[0]);
    if i < |all| { Rephased(retained, all, size, i, if closed then Rejected else Running); }
  }

  /** The hold and the place in the queue of a new upload. */
  method JoinQueue(
    retained: map<Key, nat>, size: Sizes, holders: seq<Holder>, active: nat, waiters: seq<nat>, nextTicket: nat,
    upload: Holder)
    returns (after: Option<map<Key, nat>>, all: seq<Holder>, running: nat, queue: seq<nat>, next: nat)
    requires Counted(retained, holders, size) && Semaphore(holders, active, waiters, nextTicket)
    requires upload.Upload? && upload.ticket == nextTicket && upload.file in retained
    requires waiters != [] ==> active == SLOTS
    requires (upload.phase == Running ==> active < SLOTS) && (upload.phase == Waiting ==> active == SLOTS)
    ensures after.Some? && Counted(after.value, all, size) && Semaphore(all, running, queue, next)
    ensures queue != [] ==> running == SLOTS
    ensures all == holders + [upload]
    ensures queue == if upload.phase == Waiting then waiters + [upload.ticket] else waiters
  {
    RetainedIsHeld(retained, holders, size, upload.file);
    Joined(holders, active, waiters, nextTicket, upload);
    all, running, next := holders + [upload], active + Slots(upload), nextTicket + 1;
    queue := if upload.phase == Waiting then waiters + [nextTicket] else waiters;
    after := AddHolder(retained, holders, size, upload);
  }

  function Admission(aborted: bool, active: nat): Phase {
    if aborted then Rejected else if active < SLOTS then Running else Waiting
  }

  lemma {:induction false} Joined(holders: seq<Holder>, active: nat, waiters: seq<nat>, nextTicket: nat, h: Holder)
    requires Semaphore(holders, active, waiters, nextTicket) && h.Upload? && h.ticket == nextTicket
    requires h.phase == Running ==> active < SLOTS
    ensures Semaphore(holders + [h], active + Slots(h), if h.phase == Waiting then waiters + [nextTicket] else waiters,
                      nextTicket + 1)
  {
    assert Look(true);
    Append(holders, h);
    if h.phase == Waiting { QueueJoin(holders, waiters, h, nextTicket); } else { QueueAppend(holders, waiters, h); }
  }

  lemma {:induction false} NothingHeld(holders: seq<Holder>)
    ensures Held(holders + [Controller([])]) == Held(holders)
  {
    Append(holders, Controller([]));
    assert multiset(Files(Controller([]))) == multiset{};
  }

  lemma {:induction false} HeldByOne(holders: seq<Holder>, i: nat)
    requires i < |holders|
    ensures multiset(Files(holders[i])) <= Held(holders)
  {
    UpdateHeld(holders, i, holders[i]);
  }

  lemma {:induction false} NoUploadJoins(
    holders: seq<Holder>, active: nat, waiters: seq<nat>, nextTicket: nat, h: Holder)
    requires Semaphore(holders, active, waiters, nextTicket) && !h.Upload?
    ensures Semaphore(holders + [h], active, waiters, nextTicket)
  {
    assert Look(true);
    Append(holders, h);
    QueueAppend(holders, waiters, h);
  }

  lemma {:induction false} NoUploadChanges(
    holders: seq<Holder>, active: nat, waiters: seq<nat>, nextTicket: nat, i: nat, h: Holder)
    requires Semaphore(holders, active, waiters, nextTicket) && i < |holders| && !holders[i].Upload? && !h.Upload?
    ensures Semaphore(holders[i := h], active, waiters, nextTicket)
  {
    assert Look(true);
    UpdateActive(holders, i, h);
    QueueUpdate(holders, waiters, i, h, nextTicket);
  }

  lemma {:induction false} Leaves(holders: seq<Holder>, active: nat, waiters: seq<nat>, nextTicket: nat, j: nat)
    requires Semaphore(holders, active, waiters, nextTicket) && j < |holders|
    requires !(holders[j].Upload? && holders[j].phase == Waiting)
    ensures Slots(holders[j]) <= active
    ensures Semaphore(holders[..j] + holders[j + 1..], active - Slots(holders[j]), waiters, nextTicket)
  {
    assert Look(true);
    UpdateActive(holders, j, holders[j]);
    RemoveActive(holders, j);
    QueueRemove(holders, waiters, j, nextTicket);
  }

  /** A waiter leaves the queue for a slot, or because it is turned away. */
  lemma {:induction false} Enters(
    holders: seq<Holder>, active: nat, waiters: seq<nat>, nextTicket: nat, k: nat, phase: Phase)
    requires Semaphore(holders, active, waiters, nextTicket) && k < |waiters| && phase != Waiting
    requires phase == Running ==> active < SLOTS
    ensures IndexOf(holders, waiters[k]) < |holders|
    ensures var i := IndexOf(holders, waiters[k]);
            Semaphore(holders[i := holders[i].(phase := phase)], if phase == Running then active + 1 else active,
                      waiters[..k] + waiters[k + 1..], nextTicket)
  {
    assert Look(true);
    QueueLeave(holders, waiters, k, phase, nextTicket);
    var i := IndexOf(holders, waiters[k]);
    UpdateActive(holders, i, holders[i].(phase := phase));
  }

  /** A waiting upload that gets a slot or is turned away keeps its hold. */
  lemma {:induction false} Rephased(retained: map<Key, nat>, holders: seq<Holder>, size: Sizes, i: nat, phase: Phase)
    requires Counted(retained, holders, size) && i < |holders| && holders[i].Upload?
    ensures Counted(retained, holders[i := holders[i].(phase := phase)], size)
    ensures Held(holders[i := holders[i].(phase := phase)]) == Held(holders)
  {
    var h := holders[i].(phase := phase);
    UpdateHeld(holders, i, h);
    var f := multiset(Files(holders[i]));
    assert f == multiset(Files(h));
    assert Held(holders) - f + f == Held(holders);
  }
}
