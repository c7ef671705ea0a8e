/** Reading the stored log page by page, and bringing a runtime's projection up to date with it. */
module CatchUp {
  import opened Options
  import opened EventStore

  datatype After = Beginning | Revision(revision: nat) | Cursor(conversation: nat, revision: nat)

  datatype Page =
    | RangeError
    | CursorNotFound
    | Page(entries: seq<Event>, next: Option<(nat, nat)>, latest: Option<nat>, hasMore: bool)

  /** What is left of a conversation's log after a revision. */
  function Rest(log: seq<Event>, after: nat): seq<Event> { if after <= |log| then log[after..] else [] }

  /** The row with the smallest revision above the bound, as a cursor over the primary key finds it. */
  function NextRow(rows: Rows, c: nat, bound: nat): Option<Event> {
    if rows == [] then None
    else
      var earlier, e := NextRow(rows[..|rows| - 1], c, bound), rows[|rows| - 1];
      if e.conversation != c || e.revision <= bound then earlier
      else if earlier.Some? && earlier.value.revision < e.revision then earlier else Some(e)
  }

  lemma {:induction false} NextRowIsNext(rows: Rows, c: nat, bound: nat)
    requires forall i :: 0 <= i < |OfConversation(rows, c)| ==> OfConversation(rows, c)[i].revision == i + 1
    ensures NextRow(rows, c, bound) ==
              if bound < |OfConversation(rows, c)| then Some(OfConversation(rows, c)[bound]) else None
  {
    if rows != [] {
      var init, all := rows[..|rows| - 1], OfConversation(rows, c);
      assert forall i :: 0 <= i < |OfConversation(init, c)| ==> OfConversation(init, c)[i] == all[i];
      NextRowIsNext(init, c, bound);
      if rows[|rows| - 1].conversation == c {
        assert all[|all| - 1] == rows[|rows| - 1];
      }
    }
  }

  lemma {:induction false} CursorRow(rows: Rows, c: nat, r: nat)
    requires Sound(rows)
    ensures (exists i :: 0 <= i < |rows| && rows[i].conversation == c && rows[i].revision == r) <==>
              1 <= r <= |OfConversation(rows, c)|
  {
    if i :| 0 <= i < |rows| && rows[i].conversation == c && rows[i].revision == r {
      var k := OfConversationMember(rows, i);
    }
    if 1 <= r <= |OfConversation(rows, c)| {
      var i := RowOf(rows, c, r - 1);
    }
  }

  lemma {:induction false} RowOf(rows: Rows, c: nat, k: nat) returns (i: nat)
    requires k < |OfConversation(rows, c)|
    ensures i < |rows| && rows[i] == OfConversation(rows, c)[k] && rows[i].conversation == c
  {
    var init := rows[..|rows| - 1];
    if k < |OfConversation(init, c)| {
      i := RowOf(init, c, k);
    } else {
      i := |rows| - 1;
    }
  }

  /** Where a page starts; none when the cursor names no row of the conversation. */
  function StartOf(log: seq<Event>, c: nat, after: After): Option<nat> {
    match after
    case Beginning => Some(0)
    case Revision(r) => Some(r)
    case Cursor(d, r) => if d == c && 1 <= r <= |log| then Some(r) else None
  }

  predicate IsPage(log: seq<Event>, c: nat, from: nat, limit: Option<nat>, page: Page) {
    var rest := Rest(log, from);
    && page.Page?
    && page.hasMore == (limit.Some? && limit.value < |rest|)
    && page.entries == (if limit.Some? && limit.value < |rest| then rest[..limit.value] else rest)
    && page.next == (if page.entries == [] then None else Some((c, page.entries[|page.entries| - 1].revision)))
    && page.latest == (if log == [] then None else Some(|log|))
  }

  class EventTable {
    var rows: Rows

    constructor ()
      ensures rows == []
    {
      rows := [];
    }

    /** `append` (src/browser/indexeddb-event-store.ts:110-185): every effect waits for the transaction to commit. */
    method Append(input: Input) returns (reply: Reply)
      requires Sound(rows) && Facts(input.events)
      modifies this
      ensures (rows, reply) == Appending(old(rows), input)
      ensures Sound(rows) && old(rows) <= rows && Means(old(rows), input, rows, reply)
    {
      AppendKeepsSound(rows, input);
      AnswersAreExact(rows, input);
      var latest := Latest(rows, input.conversation);
      var valid := ValidateAppend(input);
      if !valid { return Invalid; }
      var clash, found := FindMatches(rows, input.events);
      if clash { return IdempotencyConflict; }
      if |found| > 0 {
        if |found| != |input.events| { return IdempotencyConflict; }
        var whole := CompleteRetry(input, found);
        if !whole { return IdempotencyConflict; }
        return Idempotent(found, if latest.Some? then latest.value else 0);
      }
      if input.expected != latest { return RevisionConflict; }
      NeverCollides(rows, input);
      AppendedIsSound(rows, input);
      var added := AddAll(rows, input.events);
      if added.None? { return ConstraintError; }
      rows := added.value;
      reply := Appended(Copies(input.events), input.events[|input.events| - 1].revision);
    }

    /** `read` (src/browser/indexeddb-event-store.ts:187-253): one page, found by walking the primary key. */
    method Read(c: nat, after: After, limit: Option<nat>) returns (page: Page)
      requires Sound(rows)
      ensures page == RangeError <==> limit == Some(0)
      ensures page == CursorNotFound <==> limit != Some(0) && StartOf(OfConversation(rows, c), c, after) == None
      ensures page.Page? ==>
                IsPage(OfConversation(rows, c), c, StartOf(OfConversation(rows, c), c, after).value, limit, page)
    {
      if limit == Some(0) { return RangeError; }
      LatestIsCount(rows, c);
      var latest, from := Latest(rows, c), 0;
      if after.Cursor? {
        CursorRow(rows, after.conversation, after.revision);
        var known := exists i ::
          && 0 <= i < |rows|
          && rows[i].conversation == after.conversation && rows[i].revision == after.revision;
        if !known || after.conversation != c { return CursorNotFound; }
        from := after.revision;
      } else if after.Revision? {
        from := after.revision;
      }
      var found := ReadRows(rows, c, from, if limit.Some? then Some(limit.value + 1) else None);
      page := Cut(OfConversation(rows, c), c, from, limit, found, latest);
    }
  }

  /** A page out of the rows found, which go at most one beyond the limit. */
  method Cut(ghost log: seq<Event>, c: nat, ghost from: nat, limit: Option<nat>, found: seq<Event>, latest: Option<nat>)
    returns (page: Page)
    requires limit != Some(0) && latest == (if log == [] then None else Some(|log|))
    requires var rest := Rest(log, from);
             found == if limit.Some? && limit.value + 1 < |rest| then rest[..limit.value + 1] else rest
    ensures IsPage(log, c, from, limit, page)
  {
    var more := limit.Some? && |found| > limit.value;
    var entries := if more then found[..limit.value] else found;
    page := Page(entries, if entries == [] then None else Some((c, entries[|entries| - 1].revision)), latest, more);
  }

  /** The rows that the events of a batch already match, or that one of them clashes. */
  method FindMatches(rows: Rows, events: seq<Event>) returns (clash: bool, found: seq<Event>)
    ensures clash <==> exists i :: 0 <= i < |events| && Match(rows, events[i]).Clash?
    ensures !clash && |events| > 0 ==>
              && (|found| == 0 <==> AllUnknown(rows, events))
              && (|found| == |events| <==> AllStored(rows, events))
              && (AllStored(rows, events) ==> found == Matched(rows, events))
  {
    found := [];
    var i := 0;
    while i < |events|
      invariant 0 <= i <= |events| && |found| <= i
      invariant forall k :: 0 <= k < i ==> !Match(rows, events[k]).Clash?
      invariant |found| == i ==> forall k :: 0 <= k < i ==> Match(rows, events[k]) == Stored(found[k])
      invariant 0 < |found| ==> exists k :: 0 <= k < i && Match(rows, events[k]).Stored?
      invariant |found| < i ==> exists k :: 0 <= k < i && Match(rows, events[k]).Unknown?
      invariant |found| == 0 ==> forall k :: 0 <= k < i ==> Match(rows, events[k]).Unknown?
    {
      var m := Match(rows, events[i]);
      if m.Clash? { return true, []; }
      if m.Stored? { found := found + [m.row]; }
      i := i + 1;
    }
    clash := false;
  }

  /** Adds the copies one by one; the transaction aborts at the first that meets an existing key. */
  method AddAll(rows: Rows, events: seq<Event>) returns (table: Option<Rows>)
    requires Sound(rows + Copies(events))
    ensures table == Some(rows + Copies(events))
  {
    ghost var all := rows + Copies(events);
    assert |all| == |rows| + |events|;
    var grown, j := rows, 0;
    while j < |events|
      invariant 0 <= j <= |events| && grown == all[..|rows| + j]
    {
      RowsNeverMeet(all, |rows| + j);
      if Collides(grown, Copy(events[j])) { return None; }
      grown := grown + [Copy(events[j])];
      j := j + 1;
    }
    assert grown == all;
    table := Some(grown);
  }

  /** `readRows` (src/browser/indexeddb-event-store.ts:643-663): a cursor walk up to a maximum. */
  method ReadRows(rows: Rows, c: nat, from: nat, maximum: Option<nat>) returns (found: seq<Event>)
    requires Sound(rows)
    ensures var rest := Rest(OfConversation(rows, c), from);
            found == if maximum.Some? && maximum.value < |rest| then rest[..maximum.value] else rest
  {
    ghost var rest := Rest(OfConversation(rows, c), from);
    found := [];
    NextRowIsNext(rows, c, from);
    var row := NextRow(rows, c, from);
    while row.Some? && !(maximum.Some? && |found| >= maximum.value)
      invariant found <= rest && (maximum.Some? ==> |found| <= maximum.value)
      invariant row == if |found| < |rest| then Some(rest[|found|]) else None
      decreases |rest| - |found|
    {
      found := found + [row.value];
      NextRowIsNext(rows, c, row.value.revision);
      row := NextRow(rows, c, row.value.revision);
    }
  }

  function Ids(events: seq<Event>): set<nat> {
    if events == [] then {} else Ids(events[..|events| - 1]) + {events[|events| - 1].id}
  }

  function Mutations(events: seq<Event>): set<nat> {
    if events == [] then {}
    else
      var m := events[|events| - 1].mutation;
      Mutations(events[..|events| - 1]) + (if m.Some? then {m.value} else {})
  }

  lemma {:induction false} IdsSpec(events: seq<Event>, id: nat)
    ensures id in Ids(events) <==> exists k :: 0 <= k < |events| && events[k].id == id
  {
    if events != [] { IdsSpec(events[..|events| - 1], id); }
  }

  lemma {:induction false} MutationsSpec(events: seq<Event>, m: nat)
    ensures m in Mutations(events) <==> exists k :: 0 <= k < |events| && events[k].mutation == Some(m)
  {
    if events != [] { MutationsSpec(events[..|events| - 1], m); }
  }

  predicate InSequence(input: Input, i: nat)
    requires i <= |input.events|
  {
    forall k :: 0 <= k < i ==>
      input.events[k].conversation == input.conversation && input.events[k].revision == FirstRevision(input) + k
  }

  predicate IdsDiffer(events: seq<Event>) { forall i, j :: 0 <= i < j < |events| ==> events[i].id != events[j].id }

  predicate MutationsDiffer(events: seq<Event>) {
    forall i, j :: 0 <= i < j < |events| && events[i].mutation.Some? ==> events[i].mutation != events[j].mutation
  }

  lemma {:induction false} IdsStep(events: seq<Event>, e: Event)
    requires IdsDiffer(events)
    ensures IdsDiffer(events + [e]) <==> e.id !in Ids(events)
  {
    IdsSpec(events, e.id);
    if k :| 0 <= k < |events| && events[k].id == e.id {
      assert (events + [e])[k] == events[k] && (events + [e])[|events|] == e;
    }
  }

  lemma {:induction false} MutationsStep(events: seq<Event>, e: Event)
    requires MutationsDiffer(events)
    ensures MutationsDiffer(events + [e]) <==> !(e.mutation.Some? && e.mutation.value in Mutations(events))
  {
    if e.mutation.Some? {
      MutationsSpec(events, e.mutation.value);
      if k :| 0 <= k < |events| && events[k].mutation == e.mutation {
        assert (events + [e])[k] == events[k] && (events + [e])[|events|] == e;
      }
    }
  }

  lemma {:induction false} DifferPrefix(events: seq<Event>, i: nat)
    requires i <= |events|
    ensures IdsDiffer(events) ==> IdsDiffer(events[..i])
    ensures MutationsDiffer(events) ==> MutationsDiffer(events[..i])
  {}

  lemma {:induction false} ValidIsAll(input: Input)
    ensures ValidAppend(input) <==>
              |input.events| > 0 && InSequence(input, |input.events|) && IdsDiffer(input.events)
                  && MutationsDiffer(input.events)
  {}

  /** What the loop has checked and gathered of the first `i` events. */
  predicate Checked(input: Input, i: nat, ids: set<nat>, mutations: set<nat>)
    requires i <= |input.events|
  {
    && InSequence(input, i) && IdsDiffer(input.events[..i]) && MutationsDiffer(input.events[..i])
    && ids == Ids(input.events[..i]) && mutations == Mutations(input.events[..i])
  }

  method CheckEvent(input: Input, i: nat, ids: set<nat>, mutations: set<nat>)
    returns (ok: bool, nextIds: set<nat>, nextMutations: set<nat>)
    requires i < |input.events| && Checked(input, i, ids, mutations)
    ensures ok ==> Checked(input, i + 1, nextIds, nextMutations)
    ensures !ok ==> !ValidAppend(input)
  {
    var e := input.events[i];
    nextIds, nextMutations := ids, mutations;
    assert input.events[..i + 1] == input.events[..i] + [e] && input.events[..i + 1][..i] == input.events[..i];
    ValidIsAll(input);
    DifferPrefix(input.events, i + 1);
    IdsStep(input.events[..i], e);
    MutationsStep(input.events[..i], e);
    if e.conversation != input.conversation || e.revision != FirstRevision(input) + i { return false, ids, mutations; }
    if e.id in ids { return false, ids, mutations; }
    nextIds := ids + {e.id};
    if e.mutation.Some? {
      if e.mutation.value in mutations { return false, ids, mutations; }
      nextMutations := mutations + {e.mutation.value};
    }
    ok := true;
  }

  /** `validateAppend` (src/browser/indexeddb-event-store.ts:698-759) with its sets of seen identifiers. */
  method ValidateAppend(input: Input) returns (ok: bool)
    ensures ok == ValidAppend(input)
  {
    if |input.events| == 0 { return false; }
    var ids: set<nat>, mutations: set<nat>, i := {}, {}, 0;
    while i < |input.events|
      invariant 0 <= i <= |input.events| && Checked(input, i, ids, mutations)
    {
      ok, ids, mutations := CheckEvent(input, i, ids, mutations);
      if !ok { return; }
      i := i + 1;
    }
    assert input.events[..i] == input.events;
    ValidIsAll(input);
    ok := true;
  }

  method CompleteRetry(input: Input, found: seq<Event>) returns (ok: bool)
    ensures ok == OneBatch(input, found)
  {
    var i := 0;
    while i < |found|
      invariant 0 <= i <= |found|
      invariant forall k :: 0 <= k < i ==>
                  found[k].conversation == input.conversation && found[k].revision == FirstRevision(input) + k
    {
      if found[i].conversation != input.conversation || found[i].revision != FirstRevision(input) + i { return false; }
      i := i + 1;
    }
    ok := true;
  }

  // ---------------------------------------------------------------- catching up

  /** What a projection holds: any left fold over the log, with the revision it has reached. */
  function Fold<S>(step: (S, Event) -> S, start: S, log: seq<Event>): S {
    if log == [] then start else step(Fold(step, start, log[..|log| - 1]), log[|log| - 1])
  }

  lemma {:induction false} FoldSplit<S>(step: (S, Event) -> S, start: S, a: seq<Event>, b: seq<Event>)
    ensures Fold(step, start, a + b) == Fold(step, Fold(step, start, a), b)
    decreases |b|
  {
    if b == [] {
      assert a + b == a;
    } else {
      FoldSplit(step, start, a, b[..|b| - 1]);
      assert (a + b)[..|a + b| - 1] == a + b[..|b| - 1];
    }
  }

  datatype Outcome = CaughtUp | CorruptEvent | RevisionGap

  datatype Projection<S> = Projection(revision: Option<nat>, state: S)

  function Reached(r: Option<nat>): nat { if r.Some? then r.value else 0 }

  /** The projection is the fold of a prefix of the conversation's log. */
  predicate Follows<S(==)>(step: (S, Event) -> S, start: S, log: seq<Event>, p: Projection<S>) {
    && Reached(p.revision) <= |log|
    && (p.revision.Some? ==> p.revision.value > 0)
    && p.state == Fold(step, start, log[..Reached(p.revision)])
  }

  /** The checks that catch-up makes on one page, entry by entry. */
  method CheckPage(c: nat, entries: seq<Event>, revision: Option<nat>) returns (outcome: Outcome, reached: Option<nat>)
    ensures outcome == CaughtUp <==>
              forall i :: 0 <= i < |entries| ==>
                entries[i].conversation == c && entries[i].revision == Reached(revision) + i + 1
    ensures outcome == CaughtUp ==> reached == if entries == [] then revision else Some(Reached(revision) + |entries|)
  {
    reached := revision;
    var i := 0;
    while i < |entries|
      invariant 0 <= i <= |entries|
      invariant forall k :: 0 <= k < i ==>
                  entries[k].conversation == c && entries[k].revision == Reached(revision) + k + 1
      invariant reached == if i == 0 then revision else Some(Reached(revision) + i)
    {
      if entries[i].conversation != c { return CorruptEvent, reached; }
      if entries[i].revision != Reached(reached) + 1 { return RevisionGap, reached; }
      reached := Some(entries[i].revision);
      i := i + 1;
    }
    outcome := CaughtUp;
  }

  method ApplyEvents<S>(step: (S, Event) -> S, state: S, events: seq<Event>) returns (r: S)
    ensures r == Fold(step, state, events)
  {
    r := state;
    var i := 0;
    while i < |events|
      invariant 0 <= i <= |events| && r == Fold(step, state, events[..i])
    {
      assert events[..i + 1][..i] == events[..i];
      r := step(r, events[i]);
      i := i + 1;
    }
    assert events[..i] == events;
  }

  /** Whatever other writers append before the next page. */
  method Others(table: EventTable, inputs: seq<Input>)
    requires Sound(table.rows) && Parsed(inputs)
    modifies table
    ensures table.rows == Run(old(table.rows), inputs)
    ensures Sound(table.rows) && old(table.rows) <= table.rows
  {
    var i := 0;
    while i < |inputs|
      invariant 0 <= i <= |inputs| && table.rows == Run(old(table.rows), inputs[..i])
      invariant Sound(table.rows) && old(table.rows) <= table.rows
    {
      assert inputs[..i + 1][..i] == inputs[..i];
      var reply := table.Append(inputs[i]);
      i := i + 1;
    }
    assert inputs[..i] == inputs;
  }

  lemma {:induction false} LogGrows(rows: Rows, after: Rows, c: nat)
    requires rows <= after
    ensures OfConversation(rows, c) <= OfConversation(after, c)
  {
    assert after == rows + after[|rows|..];
    OfConversationSplit(rows, after[|rows|..], c);
  }

  lemma {:induction false} LogIsOfConversation(rows: Rows, c: nat)
    ensures forall i :: 0 <= i < |OfConversation(rows, c)| ==> OfConversation(rows, c)[i].conversation == c
  {
    if rows != [] { LogIsOfConversation(rows[..|rows| - 1], c); }
  }

  predicate Numbered(log: seq<Event>, c: nat, from: nat) {
    forall i :: 0 <= i < |log| ==> log[i].conversation == c && log[i].revision == from + i + 1
  }

  /** A page after a revision is the next piece of the log, and its cursor is the revision it ends at. */
  lemma {:induction false} PageIsPiece(log: seq<Event>, c: nat, from: nat, limit: nat, page: Page)
    requires from <= |log| && limit > 0 && IsPage(log, c, from, Some(limit), page) && Numbered(log, c, 0)
    ensures Numbered(page.entries, c, from) && Piece(log, c, from, page)
  {
    assert Rest(log, from) == log[from..];
  }

  lemma {:induction false} Extended<S>(
    step: (S, Event) -> S, start: S, was: seq<Event>, log: seq<Event>, p: Projection<S>)
    requires was <= log && Follows(step, start, was, p)
    ensures Follows(step, start, log, p)
  {
    assert log[..Reached(p.revision)] == was[..Reached(p.revision)];
  }

  lemma {:induction false} FoldOn<S>(
    step: (S, Event) -> S, start: S, log: seq<Event>, p: Projection<S>, entries: seq<Event>)
    requires Follows(step, start, log, p) && Reached(p.revision) + |entries| <= |log|
    requires entries == log[Reached(p.revision)..Reached(p.revision) + |entries|]
    ensures Fold(step, p.state, entries) == Fold(step, start, log[..Reached(p.revision) + |entries|])
  {
    var r := Reached(p.revision);
    assert log[..r + |entries|] == log[..r] + entries;
    FoldSplit(step, start, log[..r], entries);
  }

  /** The page after `from` of a conversation's log, in terms of that log. */
  predicate Piece(log: seq<Event>, c: nat, from: nat, page: Page) {
    && page.Page? && from + |page.entries| <= |log|
    && page.entries == log[from..from + |page.entries|]
    && (page.hasMore <==> from + |page.entries| < |log|)
    && (page.hasMore ==> page.next == Some((c, from + |page.entries|)) && |page.entries| > 0)
    && page.latest == (if log == [] then None else Some(|log|))
  }

  method Fetch(
    table: EventTable, c: nat, limit: nat, cursor: Option<(nat, nat)>, revision: Option<nat>) returns (page: Page)
    requires Sound(table.rows) && limit > 0 && Reached(revision) <= |OfConversation(table.rows, c)|
    requires cursor.Some? ==> revision.Some? && revision.value > 0 && cursor.value == (c, revision.value)
    ensures Piece(OfConversation(table.rows, c), c, Reached(revision), page)
    ensures Numbered(page.entries, c, Reached(revision))
  {
    LogIsOfConversation(table.rows, c);
    var from := if cursor.Some? then Cursor(cursor.value.0, cursor.value.1)
                else if revision.None? then Beginning else Revision(revision.value);
    page := table.Read(c, from, Some(limit));
    PageIsPiece(OfConversation(table.rows, c), c, Reached(revision), limit, page);
  }

  /** The rest of one turn of the catch-up loop; `more` holds the cursor to go on from. */
  method ProjectPage<S(==)>(ghost log: seq<Event>, c: nat, step: (S, Event) -> S, ghost start: S, page: Page,
                            projection: Projection<S>)
    returns (outcome: Outcome, more: Option<(nat, nat)>, after: Projection<S>)
    requires Follows(step, start, log, projection) && Piece(log, c, Reached(projection.revision), page)
    requires Numbered(page.entries, c, Reached(projection.revision))
    ensures outcome == CaughtUp && Follows(step, start, log, after)
    ensures more.None? ==> Reached(after.revision) == |log|
    ensures more.Some? ==> after.revision.Some? && more.value == (c, after.revision.value)
    ensures more.Some? ==> Reached(projection.revision) < Reached(after.revision)
    ensures Reached(projection.revision) <= Reached(after.revision)
  {
    after, more := projection, None;
    var checked, reached := CheckPage(c, page.entries, after.revision);
    if checked != CaughtUp { return checked, more, after; }
    if page.entries != [] {
      FoldOn(step, start, log, projection, page.entries);
      var next := ApplyEvents(step, after.state, page.entries);
      after := Projection(reached, next);
    }
    if !page.hasMore {
      if page.latest != after.revision { return RevisionGap, more, after; }
      return CaughtUp, more, after;
    }
    if page.entries == [] || page.next.None? || page.next.value != (c, Reached(reached)) {
      return CorruptEvent, more, after;
    }
    return CaughtUp, page.next, after;
  }

  /** Other writers' appends leave a projection following the log. */
  method OthersFirst<S(==)>(
    table: EventTable, inputs: seq<Input>, c: nat, step: (S, Event) -> S, ghost start: S, ghost p: Projection<S>)
    requires Sound(table.rows) && Parsed(inputs) && Follows(step, start, OfConversation(table.rows, c), p)
    modifies table
    ensures Sound(table.rows) && old(table.rows) <= table.rows && Follows(step, start, OfConversation(table.rows, c), p)
  {
    ghost var was := table.rows;
    Others(table, inputs);
    LogGrows(was, table.rows, c);
    Extended(step, start, OfConversation(was, c), OfConversation(table.rows, c), p);
  }

  /**
   * `catchUpRuntimeStore` (src/runtime.ts:2798-2912), with `others[k]` appended by other writers before page k.
   * It always ends caught up: the projection is the fold of the whole log, which has the log it started from as a
   * prefix, and no gap or corruption is ever reported and no cursor is lost. A fold that lists the events it is given
   * says the same of the entries read: exactly the missing piece, in order, none twice.
   */
  method CatchUpStore<S(==)>(table: EventTable, c: nat, limit: nat, step: (S, Event) -> S, ghost start: S,
                             projection: Projection<S>, others: seq<seq<Input>>)
    returns (outcome: Outcome, after: Projection<S>)
    requires Sound(table.rows) && limit > 0 && forall k :: 0 <= k < |others| ==> Parsed(others[k])
    requires Follows(step, start, OfConversation(table.rows, c), projection)
    modifies table
    ensures outcome == CaughtUp
    ensures Sound(table.rows) && old(table.rows) <= table.rows
    ensures Reached(after.revision) == |OfConversation(table.rows, c)|
    ensures after.state == Fold(step, start, OfConversation(table.rows, c))
  {
    after := projection;
    var cursor: Option<(nat, nat)>, k := None, 0;
    while true
      invariant 0 <= k <= |others|
      invariant Sound(table.rows) && old(table.rows) <= table.rows
      invariant Follows(step, start, OfConversation(table.rows, c), after)
      invariant At(cursor, c, after.revision)
      decreases |others| - k, |OfConversation(table.rows, c)| - Reached(after.revision)
    {
      if k < |others| {
        OthersFirst(table, others[k], c, step, start, after);
        k := k + 1;
      }
      outcome, cursor, after := Round(table, c, limit, step, start, cursor, after);
      if outcome != CaughtUp || cursor.None? { return; }
    }
  }

  /** A cursor stands at the revision that the projection has reached. */
  predicate At(cursor: Option<(nat, nat)>, c: nat, revision: Option<nat>) {
    cursor.Some? ==> revision.Some? && revision.value > 0 && cursor.value == (c, revision.value)
  }

  /** One turn of the loop: a page is read, checked and projected. */
  method Round<S(==)>(
    table: EventTable, c: nat, limit: nat, step: (S, Event) -> S, ghost start: S, cursor: Option<(nat, nat)>,
    projection: Projection<S>)
    returns (outcome: Outcome, more: Option<(nat, nat)>, after: Projection<S>)
    requires Sound(table.rows) && limit > 0 && At(cursor, c, projection.revision)
    requires Follows(step, start, OfConversation(table.rows, c), projection)
    ensures outcome == CaughtUp && Follows(step, start, OfConversation(table.rows, c), after)
            && At(more, c, after.revision)
    ensures more.None? ==> Reached(after.revision) == |OfConversation(table.rows, c)|
    ensures more.None? ==> after.state == Fold(step, start, OfConversation(table.rows, c))
    ensures more.Some? ==> Reached(projection.revision) < Reached(after.revision)
  {
    ghost var log := OfConversation(table.rows, c);
    var page := Fetch(table, c, limit, cursor, projection.revision);
    outcome, more, after := ProjectPage(log, c, step, start, page, projection);
    assert more.None? ==> log[..Reached(after.revision)] == log;
  }
}
