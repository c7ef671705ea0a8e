/** The attachment upload queue (src/attachments/uploader.ts). */
module Uploader {
  import opened Options

  datatype Kind = Image | Document
  datatype Status = Queued | Uploading | Ready(reference: nat) | Failed(retryable: bool) | Cancelled

  datatype Item = Item(
    id: nat,
    fingerprint: nat,
    kind: Kind,
    size: nat,
    status: Status,
    attempt: nat,
    uploaded: nat,
    held: bool,
    retained: bool,
    token: nat)

  /** One call of the adapter that has not settled yet. */
  datatype Run = Run(id: nat, token: nat)

  datatype Outcome = Uploaded(reference: nat) | Broke(retryable: bool)

  // ---------------------------------------------------------------- the queue as a value

  /** The entry with an id, or the number of entries. */
  function Find(items: seq<Item>, id: nat): (i: nat)
    ensures i <= |items| && (i < |items| ==> items[i].id == id)
    ensures i == |items| ==> forall k :: 0 <= k < |items| ==> items[k].id != id
  {
    if items == [] then 0
    else if items[0].id == id then 0
    else
      var i := Find(items[1..], id);
      assert items == [items[0]] + items[1..];
      i + 1
  }

  predicate Waiting(it: Item) { it.status == Queued && !it.held }

  /** How many entries the pump may still start. */
  function Waits(items: seq<Item>): nat {
    if items == [] then 0 else Waits(items[..|items| - 1]) + if Waiting(items[|items| - 1]) then 1 else 0
  }

  function NextWaiting(items: seq<Item>): (i: nat)
    ensures i <= |items| && (i < |items| ==> Waiting(items[i]))
    ensures forall k :: 0 <= k < i ==> !Waiting(items[k])
  {
    if items == [] then 0
    else if Waiting(items[0]) then 0
    else
      var i := NextWaiting(items[1..]);
      assert items == [items[0]] + items[1..];
      i + 1
  }

  lemma {:induction false} WaitsUpdate(items: seq<Item>, i: nat, it: Item)
    requires i < |items|
    ensures Waits(items[i := it]) ==
            Waits(items) - (if Waiting(items[i]) then 1 else 0) + (if Waiting(it) then 1 else 0)
  {
    var init := items[..|items| - 1];
    if i < |items| - 1 {
      WaitsUpdate(init, i, it);
      assert items[i := it][..|items| - 1] == init[i := it];
    } else {
      assert items[i := it][..|items| - 1] == init;
    }
  }

  /** Whatever may still be sent keeps its source, and progress never passes the size. */
  predicate ItemOk(it: Item) {
    && (it.status == Queued || it.status == Uploading || it.status == Failed(true) ==> it.retained)
    && it.uploaded <= it.size
  }

  predicate RunsKnown(items: seq<Item>, runs: set<Run>, nextId: nat) {
    && (forall r :: r in runs ==> r.id < nextId)
    && (forall i :: 0 <= i < |items| ==> NoLaterRun(items[i], runs))
  }

  predicate NoLaterRun(it: Item, runs: set<Run>) {
    forall r {:trigger r in runs} :: r in runs && r.id == it.id ==> r.token <= it.token
  }

  /** An uploading entry's current attempt is running. */
  predicate Running(it: Item, runs: set<Run>) { it.status == Uploading ==> Run(it.id, it.token) in runs }

  predicate Good(items: seq<Item>, runs: set<Run>, nextId: nat) {
    && (forall i :: 0 <= i < |items| ==> items[i].id < nextId && ItemOk(items[i]) && Running(items[i], runs))
    && (forall i, j :: 0 <= i < j < |items| ==>
          items[i].id != items[j].id && items[i].fingerprint != items[j].fingerprint)
    && RunsKnown(items, runs, nextId)
  }

  /** No unheld queued entry waits while a slot is free. */
  predicate Saturated(items: seq<Item>, active: nat, concurrency: nat) {
    active == concurrency || forall i :: 0 <= i < |items| ==> !Waiting(items[i])
  }

  lemma {:induction false} UpdateGood(items: seq<Item>, runs: set<Run>, nextId: nat, i: nat, it: Item)
    requires Good(items, runs, nextId) && i < |items|
    requires it.id == items[i].id && it.fingerprint == items[i].fingerprint && it.token >= items[i].token
    requires ItemOk(it) && Running(it, runs)
    ensures Good(items[i := it], runs, nextId)
  {
    assert NoLaterRun(items[i], runs);
    assert NoLaterRun(it, runs);
  }

  function Without(items: seq<Item>, i: nat): seq<Item>
    requires i < |items|
  {
    items[..i] + items[i + 1..]
  }

  lemma {:induction false} RemoveGood(items: seq<Item>, runs: set<Run>, nextId: nat, i: nat)
    requires Good(items, runs, nextId) && i < |items|
    ensures Good(Without(items, i), runs, nextId)
  {
    var rest := Without(items, i);
    assert forall k :: 0 <= k < |rest| ==> rest[k] == if k < i then items[k] else items[k + 1];
  }

  /** A new attempt: its token is later than that of every running call for the entry. */
  lemma {:induction false} BeginGood(items: seq<Item>, runs: set<Run>, nextId: nat, i: nat, it: Item)
    requires Good(items, runs, nextId) && i < |items| && ItemOk(it)
    requires it.id == items[i].id && it.fingerprint == items[i].fingerprint && it.token == items[i].token + 1
    ensures Run(it.id, it.token) !in runs
    ensures Good(items[i := it], runs + {Run(it.id, it.token)}, nextId)
  {
    assert NoLaterRun(items[i], runs);
    var more := runs + {Run(it.id, it.token)};
    assert NoLaterRun(it, more);
    forall k | 0 <= k < |items| && k != i ensures NoLaterRun(items[k], more) && Running(items[k], more) {
      assert NoLaterRun(items[k], runs);
    }
  }

  /** A call that settles: no entry still rests on it. */
  lemma {:induction false} EndGood(items: seq<Item>, runs: set<Run>, nextId: nat, r: Run)
    requires Good(items, runs, nextId) && r in runs
    requires forall i :: 0 <= i < |items| && items[i].status == Uploading ==> Run(items[i].id, items[i].token) != r
    ensures Good(items, runs - {r}, nextId)
  {
    forall i | 0 <= i < |items| ensures NoLaterRun(items[i], runs - {r}) && Running(items[i], runs - {r}) {
      assert NoLaterRun(items[i], runs);
    }
  }

  lemma {:induction false} AddGood(items: seq<Item>, runs: set<Run>, nextId: nat, it: Item)
    requires Good(items, runs, nextId) && it.id == nextId && ItemOk(it) && it.status != Uploading
    requires forall k :: 0 <= k < |items| ==> items[k].fingerprint != it.fingerprint
    ensures Good(items + [it], runs, nextId + 1)
  {
    assert NoLaterRun(it, runs);
  }

  function Same(items: seq<Item>, kind: Kind): nat {
    if items == [] then 0 else Same(items[..|items| - 1], kind) + if items[|items| - 1].kind == kind then 1 else 0
  }

  function OfKind(items: seq<Item>, kind: Kind): set<int> { set i | 0 <= i < |items| && items[i].kind == kind }

  lemma {:induction false} OfKindSnoc(items: seq<Item>, kind: Kind)
    requires items != []
    ensures var last := |items| - 1;
            OfKind(items, kind) == OfKind(items[..last], kind) + (if items[last].kind == kind then {last} else {})
  {}

  /** It is the number of entries of that kind. */
  lemma {:induction false} SameCounts(items: seq<Item>, kind: Kind)
    ensures Same(items, kind) == |OfKind(items, kind)|
  {
    if items != [] {
      SameCounts(items[..|items| - 1], kind);
      OfKindSnoc(items, kind);
      assert |items| - 1 !in OfKind(items[..|items| - 1], kind);
    }
  }

  /** The entry that a fingerprint already has, if any. */
  function Known(items: seq<Item>, fingerprint: nat): (i: nat)
    ensures i <= |items| && (i < |items| ==> items[i].fingerprint == fingerprint)
    ensures i == |items| ==> forall k :: 0 <= k < |items| ==> items[k].fingerprint != fingerprint
  {
    if items == [] then 0
    else if items[0].fingerprint == fingerprint then 0
    else
      var i := Known(items[1..], fingerprint);
      assert items == [items[0]] + items[1..];
      i + 1
  }

  class AttachmentUploader {
    const concurrency: nat
    const maxImages: nat
    const maxDocuments: nat

    var items: seq<Item>
    var runs: set<Run>
    var activeCount: nat
    var nextId: nat
    var disposed: bool

    predicate Sound() reads this {
      Good(items, runs, nextId) && activeCount == |runs| <= concurrency && (disposed ==> items == [])
    }

    /** What holds between any two calls or callbacks. */
    predicate Valid() reads this { Sound() && (disposed || Saturated(items, activeCount, concurrency)) }

    constructor (concurrency: nat, maxImages: nat, maxDocuments: nat)
      requires concurrency >= 1
      ensures Valid() && items == [] && !disposed
    {
      this.concurrency, this.maxImages, this.maxDocuments := concurrency, maxImages, maxDocuments;
      items, runs, activeCount, nextId, disposed := [], {}, 0, 1, false;
    }

    /** `#pump` (src/attachments/uploader.ts:506-515); it ends because every waiting entry still has its source. */
    method Pump()
      requires Sound()
      modifies this`items, this`runs, this`activeCount
      ensures Valid()
      ensures disposed ==> items == old(items) && runs == old(runs)
      ensures AllPumped(old(items), items) && old(runs) <= runs
    {
      if disposed { return; }
      while activeCount < concurrency
        invariant Sound()
        invariant AllPumped(old(items), items) && old(runs) <= runs
        decreases Waits(items)
      {
        var i := NextWaiting(items);
        if i == |items| { return; }
        ghost var before := items;
        Begin(i);
        PumpedOneMore(old(items), before, items, i);
      }
    }

    /** The synchronous part of `#upload` (src/attachments/uploader.ts:517-530). */
    method Begin(i: nat)
      requires Sound() && i < |items| && activeCount < concurrency && Waiting(items[i])
      modifies this`items, this`runs, this`activeCount
      ensures Sound() && |items| == |old(items)|
      ensures items == old(items)[i := items[i]] && Started(old(items)[i], items[i])
      ensures runs == old(runs) + {Run(items[i].id, items[i].token)} && activeCount == old(activeCount) + 1
      ensures Waits(items) < Waits(old(items))
    {
      var it := items[i];
      if !it.retained { return; }
      var begun := Begun(it);
      BeginGood(items, runs, nextId, i, begun);
      WaitsUpdate(items, i, begun);
      runs := runs + {Run(begun.id, begun.token)};
      activeCount := activeCount + 1;
      items := items[i := begun];
    }

    /** `enqueue` (src/attachments/uploader.ts:327-373); none stands for a refused selection. */
    method Enqueue(
      fingerprint: nat, kind: Kind, size: nat, defer: bool, reference: Option<nat>) returns (r: Option<nat>)
      requires Valid()
      modifies this`items, this`runs, this`activeCount, this`nextId
      ensures Valid()
      ensures disposed ==> r.None? && items == old(items)
      ensures !disposed && Known(old(items), fingerprint) < |old(items)| ==>
                items == old(items) && r == Some(old(items)[Known(old(items), fingerprint)].id)
      ensures r.None? <==>
                || disposed
                || (&& Known(old(items), fingerprint) == |old(items)|
                    && Same(old(items), kind) >= (if kind == Image then maxImages else maxDocuments))
      ensures r.None? ==> items == old(items)
      ensures r.Some? && !(Known(old(items), fingerprint) < |old(items)|) ==>
                && r.value == old(nextId) && |items| == |old(items)| + 1
                && Joined(old(items), items)
                && New(items[|old(items)|], r.value, fingerprint, kind, size, defer, reference)
    {
      if disposed { return None; }
      var k := Known(items, fingerprint);
      if k < |items| { return Some(items[k].id); }
      if Same(items, kind) >= (if kind == Image then maxImages else maxDocuments) { return None; }
      var it := Selected(nextId, fingerprint, kind, size, defer, reference);
      AddGood(items, runs, nextId, it);
      ghost var was := items;
      r := Some(nextId);
      items, nextId := items + [it], nextId + 1;
      Pump();
      SelectedIsNew(was, it, items, defer, reference);
    }

    /** One entry changes, then the pump runs: the shape of every command on an entry. */
    method Change(i: nat, it: Item)
      requires Sound() && i < |items| && it.status != Uploading && ItemOk(it)
      requires it.id == items[i].id && it.fingerprint == items[i].fingerprint && it.token >= items[i].token
      modifies this`items, this`runs, this`activeCount
      ensures Valid() && AllPumped(old(items)[i := it], items)
    {
      UpdateGood(items, runs, nextId, i, it);
      items := items[i := it];
      Pump();
    }

    /** `start` (src/attachments/uploader.ts:376-383). */
    method Start(id: nat) returns (ok: bool)
      requires Valid()
      modifies this`items, this`runs, this`activeCount
      ensures Valid()
      ensures var i := Find(old(items), id);
              && (ok <==> !disposed && i < |old(items)| && old(items)[i].held && old(items)[i].status == Queued)
              && (!ok ==> items == old(items))
              && (ok ==>
                    && OthersPumped(old(items), items, i)
                    && SameFile(old(items)[i], items[i]) && !items[i].held && items[i].retained
                    && (items[i].status == Uploading || (items[i].status == Queued && activeCount == concurrency)))
    {
      var i := Find(items, id);
      if disposed || i == |items| || !items[i].held || items[i].status != Queued { return false; }
      Change(i, items[i].(held := false));
      ok := true;
    }

    /** `restoreReady` (src/attachments/uploader.ts:386-397). */
    method RestoreReady(id: nat, reference: nat) returns (ok: bool)
      requires Valid()
      modifies this`items, this`runs, this`activeCount
      ensures Valid()
      ensures var i := Find(old(items), id);
              && (ok <==> !disposed && i < |old(items)|)
              && (!ok ==> items == old(items))
              && (ok ==>
                    && OthersPumped(old(items), items, i)
                    && SameFile(old(items)[i], items[i]) && items[i].attempt == old(items)[i].attempt
                    && items[i].status == Ready(reference) && items[i].uploaded == items[i].size
                    && !items[i].retained && !items[i].held
                    && items[i].token > old(items)[i].token)
    {
      var i := Find(items, id);
      if disposed || i == |items| { return false; }
      Change(i, Restored(items[i], reference));
      ok := true;
    }

    /** `cancel` (src/attachments/uploader.ts:399-416). */
    method Cancel(id: nat) returns (ok: bool)
      requires Valid()
      modifies this`items, this`runs, this`activeCount
      ensures Valid()
      ensures var i := Find(old(items), id);
              && (ok <==>
                    && !disposed && i < |old(items)|
                    && (old(items)[i].status == Queued || old(items)[i].status == Uploading))
              && (!ok ==> items == old(items))
              && (ok ==>
                    && OthersPumped(old(items), items, i)
                    && SameFile(old(items)[i], items[i]) && items[i].attempt == old(items)[i].attempt
                    && items[i].status == Cancelled && items[i].uploaded == old(items)[i].uploaded
                    && !items[i].retained && items[i].token > old(items)[i].token)
    {
      var i := Find(items, id);
      if disposed || i == |items| || (items[i].status != Queued && items[i].status != Uploading) { return false; }
      Change(i, Dropped(items[i]));
      ok := true;
    }

    /** `retry` (src/attachments/uploader.ts:418-438). */
    method Retry(id: nat) returns (ok: bool)
      requires Valid()
      modifies this`items, this`runs, this`activeCount
      ensures Valid()
      ensures var i := Find(old(items), id);
              && (ok <==> !disposed && i < |old(items)| && old(items)[i].status == Failed(true))
              && (!ok ==> items == old(items))
              && (ok ==>
                    && OthersPumped(old(items), items, i)
                    && SameFile(old(items)[i], items[i]) && items[i].uploaded == 0 && items[i].retained
                    && (items[i].status == Queued ==> items[i].attempt == old(items)[i].attempt)
                    && (items[i].status != Queued ==>
                          items[i].status == Uploading && items[i].attempt == old(items)[i].attempt + 1))
    {
      var i := Find(items, id);
      if disposed || i == |items| || items[i].status != Failed(true) { return false; }
      Change(i, items[i].(status := Queued, uploaded := 0));
      ok := true;
    }

    /** `remove` (src/attachments/uploader.ts:440-450); a running call of the entry keeps its slot until it settles. */
    method Remove(id: nat) returns (ok: bool)
      requires Valid()
      modifies this`items, this`runs, this`activeCount
      ensures Valid()
      ensures var i := Find(old(items), id);
              && (ok <==> !disposed && i < |old(items)|)
              && (!ok ==> items == old(items))
              && (ok ==> AllPumped(Without(old(items), i), items))
      ensures ok ==> Absent(items, id)
    {
      var i := Find(items, id);
      if disposed || i == |items| { return false; }
      ghost var was, before := items, runs;
      RemoveAt(i);
      RemovedIsGone(was, items, before, nextId, i, id);
      ok := true;
    }

    method RemoveAt(i: nat)
      requires Valid() && i < |items|
      modifies this`items, this`runs, this`activeCount
      ensures Valid() && AllPumped(Without(old(items), i), items)
    {
      RemoveGood(items, runs, nextId, i);
      items := Without(items, i);
      Pump();
    }

    /** `reportProgress` (src/attachments/uploader.ts:533-554): only the running attempt, and never backwards. */
    method ReportProgress(run: Run, uploaded: int, total: int)
      requires Valid()
      modifies this`items
      ensures Valid()
      ensures disposed ==> items == old(items)
      ensures |items| == |old(items)|
      ensures !disposed ==> forall k :: 0 <= k < |items| ==>
                items[k] == (if IsCurrent(old(items)[k], run) && Advances(old(items)[k], uploaded, total)
                             then old(items)[k].(uploaded := uploaded) else old(items)[k])
    {
      var i := Find(items, run.id);
      if disposed || i == |items| || items[i].token != run.token || items[i].status != Uploading { return; }
      if total != items[i].size || uploaded < items[i].uploaded || uploaded > items[i].size { return; }
      UpdateGood(items, runs, nextId, i, items[i].(uploaded := uploaded));
      items := items[i := items[i].(uploaded := uploaded)];
    }

    /** The end of `#upload` (src/attachments/uploader.ts:556-610): an earlier attempt only gives its slot back. */
    method Settle(run: Run, outcome: Outcome)
      requires Valid() && run in runs
      modifies this`items, this`runs, this`activeCount
      ensures Valid()
      ensures disposed ==> items == old(items)
      ensures !disposed ==> SettledBy(old(items), items, run, outcome)
    {
      ghost var was, before := items, runs;
      SettleGood(items, runs, nextId, run, outcome);
      items := AfterSettling(items, run, outcome);
      runs := runs - {run};
      activeCount := activeCount - 1;
      Pump();
      if !disposed { SettledIsEnded(was, items, before, nextId, run, outcome); }
    }

    /** `dispose` (src/attachments/uploader.ts:466-475). */
    method Dispose()
      requires Valid()
      modifies this`items, this`disposed
      ensures Valid() && disposed && (!old(disposed) ==> items == [])
    {
      if disposed { return; }
      disposed, items := true, [];
    }
  }

  function Begun(it: Item): Item { it.(token := it.token + 1, attempt := it.attempt + 1, status := Uploading) }

  /** The selected file is the same. */
  predicate SameFile(was: Item, now: Item) {
    now.id == was.id && now.fingerprint == was.fingerprint && now.kind == was.kind && now.size == was.size
  }

  /** A waiting entry has started its next attempt. */
  predicate Started(was: Item, now: Item) {
    && SameFile(was, now)
    && was.status == Queued && !was.held && !now.held && was.retained && now.retained
    && now.status == Uploading && now.attempt == was.attempt + 1 && now.token == was.token + 1
    && now.uploaded == was.uploaded
  }

  predicate KeptOrStarted(was: Item, now: Item) { now == was || Started(was, now) }

  /** A selected entry: ready with a known reference, otherwise queued or, unless it is held, already uploading. */
  predicate New(
    it: Item, id: nat, fingerprint: nat, kind: Kind, size: nat, defer: bool, reference: Option<nat>) {
    && it.id == id && it.fingerprint == fingerprint && it.kind == kind && it.size == size && it.held == defer
    && (reference.Some? ==>
          it.status == Ready(reference.value) && it.uploaded == size && !it.retained && it.attempt == 0)
    && (reference.None? ==>
          && it.retained && it.uploaded == 0
          && ((it.status == Queued && it.attempt == 0) || (it.status == Uploading && it.attempt == 1 && !defer)))
  }

  /** The current attempt has ended with this outcome; nothing else about the entry changed. */
  predicate Ended(was: Item, outcome: Outcome, now: Item) {
    && SameFile(was, now) && now.attempt == was.attempt && now.token == was.token && now.held == was.held
    && match outcome
       case Uploaded(reference) => now.status == Ready(reference) && now.uploaded == now.size && !now.retained
       case Broke(retryable) =>
         now.status == Failed(retryable) && now.uploaded == was.uploaded && now.retained == retryable
  }

  /** The entries are the same, except that some waiting ones, first come first served, have started an attempt. */
  predicate AllPumped(was: seq<Item>, now: seq<Item>) {
    && |was| == |now|
    && (forall k :: 0 <= k < |now| ==> KeptOrStarted(was[k], now[k]))
    && (forall j, k :: 0 <= j < k < |now| && now[k] != was[k] && Waiting(was[j]) ==> now[j] != was[j])
  }

  /** One entry more; the others are as before or newly started. */
  predicate Joined(was: seq<Item>, now: seq<Item>) {
    |now| == |was| + 1 && forall k :: 0 <= k < |was| ==> KeptOrStarted(was[k], now[k])
  }

  lemma {:induction false} SelectedIsNew(
    was: seq<Item>, it: Item, now: seq<Item>, defer: bool, reference: Option<nat>)
    requires AllPumped(was + [it], now)
    requires it == Selected(it.id, it.fingerprint, it.kind, it.size, defer, reference)
    ensures Joined(was, now) && New(now[|was|], it.id, it.fingerprint, it.kind, it.size, defer, reference)
  {
    forall k | 0 <= k < |was| ensures KeptOrStarted(was[k], now[k]) { assert (was + [it])[k] == was[k]; }
    assert KeptOrStarted((was + [it])[|was|], now[|was|]);
  }

  predicate Absent(items: seq<Item>, id: nat) { forall k :: 0 <= k < |items| ==> items[k].id != id }

  lemma {:induction false} RemovedIsGone(
    was: seq<Item>, now: seq<Item>, runs: set<Run>, nextId: nat, i: nat, id: nat)
    requires i < |was| && was[i].id == id && AllPumped(Without(was, i), now) && Good(was, runs, nextId)
    ensures Absent(now, id)
  {
    forall k | 0 <= k < |now| ensures now[k].id != id {
      assert Without(was, i)[k] == was[if k < i then k else k + 1];
    }
  }

  lemma {:induction false} PumpedOneMore(was: seq<Item>, before: seq<Item>, now: seq<Item>, i: nat)
    requires AllPumped(was, before) && i < |before| == |now| && now == before[i := now[i]] && Started(before[i], now[i])
    requires forall k :: 0 <= k < i ==> !Waiting(before[k])
    ensures AllPumped(was, now)
  {
    assert before[i] == was[i];
    forall j, k | 0 <= j < k < |now| && now[k] != was[k] && Waiting(was[j]) ensures now[j] != was[j] {
      if k == i { assert !Waiting(before[j]); }
    }
  }

  /** Every other entry is as before or newly started. */
  predicate OthersPumped(was: seq<Item>, now: seq<Item>, i: nat) {
    && |was| == |now| && (forall k :: 0 <= k < |now| && k != i ==> KeptOrStarted(was[k], now[k]))
    && (forall j, k :: 0 <= j < k < |now| && j != i && k != i && now[k] != was[k] && Waiting(was[j]) ==>
          now[j] != was[j])
  }

  function Selected(id: nat, fingerprint: nat, kind: Kind, size: nat, defer: bool, reference: Option<nat>): Item {
    if reference.None? then Item(id, fingerprint, kind, size, Queued, 0, 0, defer, true, 0)
    else Item(id, fingerprint, kind, size, Ready(reference.value), 0, size, defer, false, 0)
  }

  function Restored(it: Item, reference: nat): Item {
    it.(token := it.token + 1, retained := false, held := false, status := Ready(reference), uploaded := it.size)
  }

  function Dropped(it: Item): Item { it.(status := Cancelled, token := it.token + 1, retained := false) }

  function Settled(it: Item, outcome: Outcome): Item {
    match outcome
    case Uploaded(reference) => it.(status := Ready(reference), uploaded := it.size, retained := false)
    case Broke(retryable) => it.(status := Failed(retryable), retained := retryable && it.retained)
  }

  /** The run is the current attempt of the entry. */
  predicate IsCurrent(it: Item, run: Run) { it.id == run.id && it.token == run.token && it.status == Uploading }

  /** A progress report of the right total that does not go backwards. */
  predicate Advances(it: Item, uploaded: int, total: int) { it.uploaded <= uploaded <= it.size && total == it.size }

  /** The run is not the current attempt of any entry. */
  predicate Stale(items: seq<Item>, run: Run) {
    var i := Find(items, run.id);
    i == |items| || items[i].token != run.token || items[i].status != Uploading
  }

  function AfterSettling(items: seq<Item>, run: Run, outcome: Outcome): seq<Item> {
    var i := Find(items, run.id);
    if Stale(items, run) then items else items[i := Settled(items[i], outcome)]
  }

  /** The entry whose current attempt the run is has ended with the outcome; an earlier attempt changes no entry. */
  predicate SettledBy(was: seq<Item>, now: seq<Item>, run: Run, outcome: Outcome) {
    && |now| == |was|
    && ((forall k :: 0 <= k < |was| ==> !IsCurrent(was[k], run)) ==> AllPumped(was, now))
    && (forall k :: 0 <= k < |was| && IsCurrent(was[k], run) ==>
          OthersPumped(was, now, k) && Ended(was[k], outcome, now[k]))
  }

  lemma {:induction false} SettledIsEnded(
    was: seq<Item>, now: seq<Item>, runs: set<Run>, nextId: nat, run: Run, outcome: Outcome)
    requires Good(was, runs, nextId) && AllPumped(AfterSettling(was, run, outcome), now)
    ensures SettledBy(was, now, run, outcome)
  {
    forall k | 0 <= k < |was| && IsCurrent(was[k], run)
      ensures OthersPumped(was, now, k) && Ended(was[k], outcome, now[k])
    {
      assert Find(was, run.id) == k;
      assert ItemOk(was[k]);
    }
  }

  lemma {:induction false} SettleGood(items: seq<Item>, runs: set<Run>, nextId: nat, run: Run, outcome: Outcome)
    requires Good(items, runs, nextId) && run in runs
    ensures Good(AfterSettling(items, run, outcome), runs - {run}, nextId)
  {
    var i := Find(items, run.id);
    var after := AfterSettling(items, run, outcome);
    if !Stale(items, run) { UpdateGood(items, runs, nextId, i, Settled(items[i], outcome)); }
    forall k | 0 <= k < |after| && after[k].status == Uploading ensures Run(after[k].id, after[k].token) != run {
      if k != i && i < |items| { assert items[k].id != items[i].id; }
    }
    EndGood(after, runs, nextId, run);
  }
}
