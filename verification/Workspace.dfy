/** Reservations of draft files and the two-slot upload semaphore (src/attachments/draft-workspace.ts). */
module Workspace {
  import opened Options
  import opened AttachmentDrafts

  /** A file of a conversation; its identity fixes its bytes. */
  datatype Key = Key(conversation: nat, id: nat)

  type Sizes = Key -> nat

  datatype Phase = Waiting | Running | Rejected

  /** Whoever holds files: a conversation's controller, a save in flight, an upload in flight. */
  datatype Holder = Controller(files: seq<Key>) | Save(files: seq<Key>) | Upload(file: Key, ticket: nat, phase: Phase)

  function Files(h: Holder): seq<Key> { if h.Upload? then [h.file] else h.files }

  /** Everything held, with multiplicity. */
  function Held(holders: seq<Holder>): multiset<Key> {
    if holders == [] then multiset{} else Held(holders[..|holders| - 1]) + multiset(Files(holders[|holders| - 1]))
  }

  function Slots(h: Holder): nat { if h.Upload? && h.phase == Running then 1 else 0 }

  /** Uploads that really run. */
  function Active(holders: seq<Holder>): nat {
    if holders == [] then 0 else Active(holders[..|holders| - 1]) + Slots(holders[|holders| - 1])
  }

  function TimesIn(h: Holder, k: Key): nat { multiset(Files(h))[k] }

  /** How often all holders together hold a file. */
  function TimesHeld(holders: seq<Holder>, k: Key): nat {
    if holders == [] then 0 else TimesHeld(holders[..|holders| - 1], k) + TimesIn(holders[|holders| - 1], k)
  }

  lemma {:induction false} HeldTimes(holders: seq<Holder>, k: Key)
    ensures Held(holders)[k] == TimesHeld(holders, k)
  {
    if holders != [] { HeldTimes(holders[..|holders| - 1], k); }
  }

  lemma {:induction false} UpdateTimes(holders: seq<Holder>, i: nat, h: Holder, k: Key)
    requires i < |holders|
    ensures TimesHeld(holders[i := h], k) + TimesIn(holders[i], k) == TimesHeld(holders, k) + TimesIn(h, k)
    ensures TimesIn(holders[i], k) <= TimesHeld(holders, k)
  {
    var init := holders[..|holders| - 1];
    if i < |holders| - 1 {
      UpdateTimes(init, i, h, k);
      assert holders[i := h][..|holders| - 1] == init[i := h];
    } else {
      assert holders[i := h][..|holders| - 1] == init;
    }
  }

  lemma {:induction false} UpdateHeld(holders: seq<Holder>, i: nat, h: Holder)
    requires i < |holders|
    ensures multiset(Files(holders[i])) <= Held(holders)
    ensures Held(holders[i := h]) == Held(holders) - multiset(Files(holders[i])) + multiset(Files(h))
  {
    forall k
      ensures multiset(Files(holders[i]))[k] <= Held(holders)[k]
      ensures Held(holders[i := h])[k] == (Held(holders) - multiset(Files(holders[i])) + multiset(Files(h)))[k]
    {
      UpdateTimes(holders, i, h, k);
      HeldTimes(holders, k);
      HeldTimes(holders[i := h], k);
    }
  }

  lemma {:induction false} UpdateActive(holders: seq<Holder>, i: nat, h: Holder)
    requires i < |holders|
    ensures Active(holders[i := h]) == Active(holders) - Slots(holders[i]) + Slots(h)
    ensures Slots(holders[i]) <= Active(holders)
  {
    var init := holders[..|holders| - 1];
    if i < |holders| - 1 {
      UpdateActive(init, i, h);
      assert holders[i := h][..|holders| - 1] == init[i := h];
    } else {
      assert holders[i := h][..|holders| - 1] == init;
    }
  }

  lemma {:induction false} Append(holders: seq<Holder>, h: Holder)
    ensures Held(holders + [h]) == Held(holders) + multiset(Files(h))
    ensures Active(holders + [h]) == Active(holders) + Slots(h)
  {
    assert (holders + [h])[..|holders|] == holders;
  }

  lemma {:induction false} JoinTimes(a: seq<Holder>, b: seq<Holder>, k: Key)
    ensures TimesHeld(a + b, k) == TimesHeld(a, k) + TimesHeld(b, k)
    decreases |b|
  {
    if b == [] {
      assert a + b == a;
    } else {
      JoinTimes(a, b[..|b| - 1], k);
      assert (a + b)[..|a + b| - 1] == a + b[..|b| - 1];
    }
  }

  lemma {:induction false} OneTimes(h: Holder, k: Key)
    ensures TimesHeld([h], k) == TimesIn(h, k)
  {
    assert [h][..0] == [];
  }

  lemma {:induction false} SplitTimes(a: seq<Holder>, h: Holder, b: seq<Holder>, k: Key)
    ensures TimesHeld(a + [h] + b, k) == TimesHeld(a + b, k) + TimesIn(h, k)
  {
    JoinTimes(a, b, k);
    JoinTimes(a, [h], k);
    JoinTimes(a + [h], b, k);
    OneTimes(h, k);
  }

  lemma {:induction false} SplitHeld(a: seq<Holder>, h: Holder, b: seq<Holder>)
    ensures Held(a + [h] + b) == Held(a + b) + multiset(Files(h))
  {
    forall k ensures Held(a + [h] + b)[k] == (Held(a + b) + multiset(Files(h)))[k] {
      SplitTimes(a, h, b, k);
      HeldTimes(a + [h] + b, k);
      HeldTimes(a + b, k);
    }
  }

  lemma {:induction false} TakeOut<T>(a: multiset<T>, b: multiset<T>, rest: multiset<T>)
    requires a == rest + b
    ensures b <= a && a - b == rest
  {}

  lemma {:induction false} Pieces<T>(s: seq<T>, i: nat)
    requires i < |s|
    ensures s == s[..i] + [s[i]] + s[i + 1..]
  {}

  lemma {:induction false} TakeOutHeld(all: seq<Holder>, a: seq<Holder>, h: Holder, b: seq<Holder>)
    requires all == a + [h] + b
    ensures multiset(Files(h)) <= Held(all) && Held(a + b) == Held(all) - multiset(Files(h))
  {
    SplitHeld(a, h, b);
    TakeOut(Held(all), multiset(Files(h)), Held(a + b));
  }

  lemma {:induction false} RemoveHeld(holders: seq<Holder>, i: nat)
    requires i < |holders|
    ensures multiset(Files(holders[i])) <= Held(holders)
    ensures Held(holders[..i] + holders[i + 1..]) == Held(holders) - multiset(Files(holders[i]))
  {
    Pieces(holders, i);
    TakeOutHeld(holders, holders[..i], holders[i], holders[i + 1..]);
  }

  lemma {:induction false} RemoveActive(holders: seq<Holder>, i: nat)
    requires i < |holders|
    ensures Active(holders[..i] + holders[i + 1..]) == Active(holders) - Slots(holders[i])
  {
    var init := holders[..|holders| - 1];
    if i < |holders| - 1 {
      RemoveActive(init, i);
      var rest := holders[..i] + holders[i + 1..];
      assert rest[..|rest| - 1] == init[..i] + init[i + 1..];
    } else {
      assert holders[..i] + holders[i + 1..] == init;
    }
  }

  // ---------------------------------------------------------------- the ledger

  /** The retained counts are exactly the multiplicities. */
  ghost predicate Matches(retained: map<Key, nat>, held: multiset<Key>) {
    forall k {:trigger Times(held, k)} ::
      (k in retained <==> Times(held, k) > 0) && (k in retained ==> retained[k] == Times(held, k))
  }

  /** How often a file is held. */
  function Times(held: multiset<Key>, k: Key): nat { held[k] }

  ghost function Total(keys: set<Key>, size: Sizes): nat {
    if keys == {} then 0
    else
      var k :| k in keys;
      size(k) + Total(keys - {k}, size)
  }

  lemma {:induction false} TotalOf(keys: set<Key>, size: Sizes, k: Key)
    requires k in keys
    ensures Total(keys, size) == size(k) + Total(keys - {k}, size)
  {
    var j :| j in keys && Total(keys, size) == size(j) + Total(keys - {j}, size);
    if j != k {
      TotalOf(keys - {j}, size, k);
      TotalOf(keys - {k}, size, j);
      assert keys - {j} - {k} == keys - {k} - {j};
    }
  }

  lemma {:induction false} TotalSubset(less: set<Key>, keys: set<Key>, size: Sizes)
    requires less <= keys
    ensures Total(less, size) <= Total(keys, size)
  {
    if less != {} {
      var k :| k in less;
      TotalOf(less, size, k);
      TotalOf(keys, size, k);
      TotalSubset(less - {k}, keys - {k}, size);
    }
  }

  function Conversations(keys: set<Key>): set<nat> { set k | k in keys :: k.conversation }

  ghost predicate Within(keys: set<Key>, size: Sizes) {
    |keys| <= FILES && Total(keys, size) <= FILE_BYTES && |Conversations(keys)| <= CONVERSATIONS
  }

  lemma {:induction false} SubsetSize<T>(a: set<T>, b: set<T>)
    requires a <= b
    ensures |a| <= |b|
  {
    assert b == a + (b - a);
  }

  /** Fewer files are never over a limit. */
  lemma {:induction false} WithinSubset(less: set<Key>, keys: set<Key>, size: Sizes)
    requires less <= keys && Within(keys, size)
    ensures Within(less, size)
  {
    SubsetSize(less, keys);
    TotalSubset(less, keys, size);
    SubsetSize(Conversations(less), Conversations(keys));
  }

  /** The files that have at least one hold. */
  ghost function Support(held: multiset<Key>): set<Key> { set k | k in held }

  lemma {:induction false} MatchesSupport(retained: map<Key, nat>, held: multiset<Key>)
    requires Matches(retained, held)
    ensures retained.Keys == Support(held)
  {
    forall k ensures k in retained <==> k in Support(held) { assert k in retained <==> Times(held, k) > 0; }
  }

  /** There is one way to count. */
  lemma {:induction false} MatchesOnce(a: map<Key, nat>, b: map<Key, nat>, held: multiset<Key>)
    requires Matches(a, held) && Matches(b, held)
    ensures a == b
  {
    MatchesSupport(a, held);
    MatchesSupport(b, held);
    forall k | k in a ensures a[k] == b[k] { assert a[k] == Times(held, k); }
  }

  /** One hold less, as the first loop of `replace` counts it. */
  function Less(values: map<Key, nat>, k: Key): map<Key, nat> {
    if k !in values then values
    else if values[k] <= 1 then values - {k} else values[k := values[k] - 1]
  }

  function More(values: map<Key, nat>, k: Key): map<Key, nat> { values[k := if k in values then values[k] + 1 else 1] }

  lemma {:induction false} LessMatches(values: map<Key, nat>, held: multiset<Key>, k: Key)
    requires Matches(values, held) && held[k] > 0
    ensures Matches(Less(values, k), held - multiset{k})
  {
    var after, rest := Less(values, k), held - multiset{k};
    forall j ensures (j in after <==> Times(rest, j) > 0) && (j in after ==> after[j] == Times(rest, j)) {
      assert j in values <==> Times(held, j) > 0;
      assert k in values <==> Times(held, k) > 0;
    }
  }

  lemma {:induction false} MoreMatches(values: map<Key, nat>, held: multiset<Key>, k: Key)
    requires Matches(values, held)
    ensures Matches(More(values, k), held + multiset{k})
  {
    var after, rest := More(values, k), held + multiset{k};
    forall j ensures (j in after <==> Times(rest, j) > 0) && (j in after ==> after[j] == Times(rest, j)) {
      assert j in values <==> Times(held, j) > 0;
      assert k in values <==> Times(held, k) > 0;
    }
  }

  method Decrement(values: map<Key, nat>, previous: seq<Key>, ghost held: multiset<Key>) returns (after: map<Key, nat>)
    requires Matches(values, held) && multiset(previous) <= held
    ensures Matches(after, held - multiset(previous))
  {
    after := values;
    var i := 0;
    assert held - multiset(previous[..0]) == held;
    while i < |previous|
      invariant 0 <= i <= |previous| && Matches(after, held - multiset(previous[..i]))
    {
      ghost var done := multiset(previous[..i]);
      assert previous[..i + 1] == previous[..i] + [previous[i]];
      assert previous == previous[..i + 1] + previous[i + 1..];
      assert multiset(previous) == done + multiset{previous[i]} + multiset(previous[i + 1..]);
      assert (held - done)[previous[i]] > 0;
      LessMatches(after, held - done, previous[i]);
      assert held - done - multiset{previous[i]} == held - multiset(previous[..i + 1]);
      after := Less(after, previous[i]);
      i := i + 1;
    }
    assert previous[..i] == previous;
  }

  method Increment(values: map<Key, nat>, next: seq<Key>, ghost held: multiset<Key>) returns (after: map<Key, nat>)
    requires Matches(values, held)
    ensures Matches(after, held + multiset(next))
  {
    after := values;
    var i := 0;
    assert held + multiset(next[..0]) == held;
    while i < |next|
      invariant 0 <= i <= |next| && Matches(after, held + multiset(next[..i]))
    {
      assert next[..i + 1] == next[..i] + [next[i]];
      MoreMatches(after, held + multiset(next[..i]), next[i]);
      assert held + multiset(next[..i]) + multiset{next[i]} == held + multiset(next[..i + 1]);
      after := More(after, next[i]);
      i := i + 1;
    }
    assert next[..i] == next;
  }

  /** `replace` (src/attachments/draft-workspace.ts:81-98): all of it or nothing. */
  method Replace(retained: map<Key, nat>, size: Sizes, previous: seq<Key>, next: seq<Key>, ghost held: multiset<Key>)
    returns (after: Option<map<Key, nat>>)
    requires Matches(retained, held) && multiset(previous) <= held
    ensures after.Some? <==> Within(Support(held - multiset(previous) + multiset(next)), size)
    ensures after.Some? ==>
              Matches(after.value, held - multiset(previous) + multiset(next)) && Within(after.value.Keys, size)
  {
    var values := Decrement(retained, previous, held);
    values := Increment(values, next, held - multiset(previous));
    MatchesSupport(values, held - multiset(previous) + multiset(next));
    var bytes := SumSizes(values.Keys, size);
    if |values| > FILES || bytes > FILE_BYTES || |Conversations(values.Keys)| > CONVERSATIONS { return None; }
    after := Some(values);
  }

  method SumSizes(keys: set<Key>, size: Sizes) returns (bytes: nat)
    ensures bytes == Total(keys, size)
  {
    bytes := 0;
    var rest := keys;
    while rest != {}
      invariant bytes + Total(rest, size) == Total(keys, size)
      decreases |rest|
    {
      var k :| k in rest;
      TotalOf(rest, size, k);
      bytes, rest := bytes + size(k), rest - {k};
    }
  }

  /** Giving holds back never breaks a limit. */
  lemma {:induction false} ReleaseFits(held: multiset<Key>, previous: seq<Key>, size: Sizes)
    requires Within(Support(held), size)
    ensures Within(Support(held - multiset(previous) + multiset([])), size)
  {
    assert held - multiset(previous) + multiset([]) == held - multiset(previous);
    WithinSubset(Support(held - multiset(previous)), Support(held), size);
  }

  /** Neither does holding again what is already held. */
  lemma {:induction false} ReHoldFits(held: multiset<Key>, files: seq<Key>, size: Sizes)
    requires Within(Support(held), size) && multiset(files) <= held
    ensures Within(Support(held - multiset([]) + multiset(files)), size)
  {
    assert held - multiset([]) + multiset(files) == held + multiset(files);
    forall k | k in held + multiset(files) ensures k in held {
      if k in multiset(files) { assert multiset(files)[k] <= held[k]; }
    }
    assert Support(held + multiset(files)) == Support(held);
  }

  /** Taking a replacement back restores exactly what was held before, so it never breaks a limit. */
  lemma {:induction false} UndoFits(held: multiset<Key>, previous: seq<Key>, next: seq<Key>, size: Sizes)
    requires Within(Support(held), size) && multiset(previous) <= held
    ensures var now := held - multiset(previous) + multiset(next);
            && multiset(next) <= now && now - multiset(next) + multiset(previous) == held
            && Within(Support(now - multiset(next) + multiset(previous)), size)
  {
    var now := held - multiset(previous) + multiset(next);
    assert now - multiset(next) == held - multiset(previous);
  }

  // ---------------------------------------------------------------- the two slots

  const SLOTS := 2

  /** The upload with a ticket, or the number of holders. */
  function IndexOf(holders: seq<Holder>, ticket: nat): (i: nat)
    ensures i <= |holders| && (i < |holders| ==> holders[i].Upload? && holders[i].ticket == ticket)
    ensures i == |holders| ==> forall k :: 0 <= k < |holders| && holders[k].Upload? ==> holders[k].ticket != ticket
  {
    if holders == [] then 0
    else if holders[0].Upload? && holders[0].ticket == ticket then 0
    else
      var i := IndexOf(holders[1..], ticket);
      assert holders == [holders[0]] + holders[1..];
      i + 1
  }

  predicate Waits(holders: seq<Holder>, ticket: nat) {
    exists i :: 0 <= i < |holders| && holders[i].Upload? && holders[i].ticket == ticket && holders[i].phase == Waiting
  }

  predicate Unique(holders: seq<Holder>, nextTicket: nat) {
    && (forall i :: 0 <= i < |holders| && holders[i].Upload? ==> holders[i].ticket < nextTicket)
    && (forall i, j :: 0 <= i < j < |holders| && holders[i].Upload? && holders[j].Upload? ==>
          holders[i].ticket != holders[j].ticket)
  }

  /** The queue holds exactly the waiting uploads, each once. */
  predicate Queue(holders: seq<Holder>, waiters: seq<nat>) {
    && (forall i, j :: 0 <= i < j < |waiters| ==> waiters[i] != waiters[j])
    && (forall t {:trigger t in waiters} :: t in waiters ==> Waits(holders, t))
    && (forall i :: 0 <= i < |holders| && holders[i].Upload? && holders[i].phase == Waiting ==>
          holders[i].ticket in waiters)
  }

  predicate Look(open: bool) { open }

  /**
   * Tickets are unique, the queue holds the waiting uploads and the count is that of the running ones.
   * `Look(true)` opens the definition, which the methods keep closed.
   */
  ghost predicate Semaphore(holders: seq<Holder>, active: nat, waiters: seq<nat>, nextTicket: nat) {
    && active <= SLOTS
    && forall open {:trigger Look(open)} :: Look(open) ==>
         Unique(holders, nextTicket) && Queue(holders, waiters) && active == Active(holders)
  }

  /** An upload other than a waiting one joins: the queue is as before. */
  lemma {:induction false} QueueAppend(holders: seq<Holder>, waiters: seq<nat>, h: Holder)
    requires Queue(holders, waiters) && !(h.Upload? && h.phase == Waiting)
    ensures Queue(holders + [h], waiters)
  {
    forall t | t in waiters ensures Waits(holders + [h], t) {
      var i :| 0 <= i < |holders| && holders[i].Upload? && holders[i].ticket == t && holders[i].phase == Waiting;
      assert (holders + [h])[i] == holders[i];
    }
  }

  lemma {:induction false} QueueJoin(holders: seq<Holder>, waiters: seq<nat>, h: Holder, nextTicket: nat)
    requires Queue(holders, waiters) && Unique(holders, nextTicket)
    requires h.Upload? && h.phase == Waiting && h.ticket == nextTicket
    ensures Queue(holders + [h], waiters + [h.ticket])
  {
    var all, queue := holders + [h], waiters + [h.ticket];
    forall t | t in queue ensures Waits(all, t) {
      if t in waiters {
        var i :| 0 <= i < |holders| && holders[i].Upload? && holders[i].ticket == t && holders[i].phase == Waiting;
        assert all[i] == holders[i];
      } else {
        assert all[|holders|] == h;
      }
    }
    forall i | 0 <= i < |waiters| ensures waiters[i] != nextTicket {
      assert waiters[i] in waiters;
    }
  }

  /** A waiting upload leaves the queue, for a slot or for good. */
  lemma {:induction false} QueueLeave(holders: seq<Holder>, waiters: seq<nat>, k: nat, phase: Phase, nextTicket: nat)
    requires Queue(holders, waiters) && Unique(holders, nextTicket) && k < |waiters| && phase != Waiting
    ensures IndexOf(holders, waiters[k]) < |holders|
    ensures var i := IndexOf(holders, waiters[k]);
            && Slots(holders[i]) == 0
            && Queue(holders[i := holders[i].(phase := phase)], waiters[..k] + waiters[k + 1..])
            && Unique(holders[i := holders[i].(phase := phase)], nextTicket)
  {
    var t := waiters[k];
    assert t in waiters;
    var w :| 0 <= w < |holders| && holders[w].Upload? && holders[w].ticket == t && holders[w].phase == Waiting;
    var i := IndexOf(holders, t);
    assert i == w;
    var after, rest := holders[i := holders[i].(phase := phase)], waiters[..k] + waiters[k + 1..];
    forall u | u in rest ensures Waits(after, u) {
      assert u in waiters && u != t;
      var m :| 0 <= m < |holders| && holders[m].Upload? && holders[m].ticket == u && holders[m].phase == Waiting;
      assert after[m] == holders[m];
    }
    forall m | 0 <= m < |after| && after[m].Upload? && after[m].phase == Waiting ensures after[m].ticket in rest {
      assert after[m] == holders[m] && holders[m].ticket in waiters && holders[m].ticket != t;
      var q :| 0 <= q < |waiters| && waiters[q] == holders[m].ticket;
      assert rest[if q < k then q else q - 1] == waiters[q];
    }
  }

  /** A holder that does not wait changes or goes: the queue is as before. */
  lemma {:induction false} QueueRemove(holders: seq<Holder>, waiters: seq<nat>, j: nat, nextTicket: nat)
    requires Queue(holders, waiters) && Unique(holders, nextTicket) && j < |holders|
    requires !(holders[j].Upload? && holders[j].phase == Waiting)
    ensures Queue(holders[..j] + holders[j + 1..], waiters) && Unique(holders[..j] + holders[j + 1..], nextTicket)
  {
    var rest := holders[..j] + holders[j + 1..];
    assert forall k :: 0 <= k < |rest| ==> rest[k] == holders[if k < j then k else k + 1];
    forall t | t in waiters ensures Waits(rest, t) {
      var i :| 0 <= i < |holders| && holders[i].Upload? && holders[i].ticket == t && holders[i].phase == Waiting;
      assert rest[if i < j then i else i - 1] == holders[i];
    }
  }

  lemma {:induction false} QueueUpdate(holders: seq<Holder>, waiters: seq<nat>, j: nat, h: Holder, nextTicket: nat)
    requires Queue(holders, waiters) && Unique(holders, nextTicket)
    requires j < |holders| && !holders[j].Upload? && !h.Upload?
    ensures Queue(holders[j := h], waiters) && Unique(holders[j := h], nextTicket)
  {
    forall t | t in waiters ensures Waits(holders[j := h], t) {
      var i :| 0 <= i < |holders| && holders[i].Upload? && holders[i].ticket == t && holders[i].phase == Waiting;
      assert holders[j := h][i] == holders[i];
    }
  }
}
