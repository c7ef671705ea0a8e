/** The browser's durable event store (src/browser/indexeddb-event-store.ts). */
module EventStore {
  import opened Options
  import opened JsonText
  import opened JsonEquality

  /** An event; `fact` holds the version, actor, source, metadata and payload that a retry compares. */
  datatype Event = Event(conversation: nat, revision: nat, id: nat, mutation: Option<nat>, stamp: nat, fact: Json)

  datatype Input = Input(conversation: nat, expected: Option<nat>, events: seq<Event>)

  datatype Reply =
    | Invalid
    | IdempotencyConflict
    | RevisionConflict
    | ConstraintError
    | Appended(entries: seq<Event>, latest: nat)
    | Idempotent(entries: seq<Event>, latest: nat)

  /** The rows of the table, in the order they were added. */
  type Rows = seq<Event>

  function OfConversation(rows: Rows, c: nat): Rows {
    if rows == [] then []
    else
      var e := rows[|rows| - 1];
      OfConversation(rows[..|rows| - 1], c) + (if e.conversation == c then [e] else [])
  }

  /** The largest stored revision of the conversation (src/browser/indexeddb-event-store.ts:612-627). */
  function Latest(rows: Rows, c: nat): Option<nat> {
    if rows == [] then None
    else
      var earlier := Latest(rows[..|rows| - 1], c);
      var e := rows[|rows| - 1];
      if e.conversation != c then earlier
      else if earlier.Some? && earlier.value > e.revision then earlier else Some(e.revision)
  }

  function ById(rows: Rows, id: nat): Option<Event> {
    if rows == [] then None
    else if rows[|rows| - 1].id == id then Some(rows[|rows| - 1]) else ById(rows[..|rows| - 1], id)
  }

  function ByMutation(rows: Rows, m: Option<nat>): Option<Event> {
    if m.None? || rows == [] then None
    else if rows[|rows| - 1].mutation == m then Some(rows[|rows| - 1]) else ByMutation(rows[..|rows| - 1], m)
  }

  predicate SameKey(a: Event, b: Event) { a.conversation == b.conversation && a.revision == b.revision }

  predicate SameEvent(stored: Event, e: Event) {
    stored.(fact := e.fact) == e && JsonEqual(stored.fact, e.fact)
  }

  predicate SameMutation(stored: Event, e: Event) {
    && stored.mutation.Some? && stored.mutation == e.mutation
    && stored.conversation == e.conversation && JsonEqual(stored.fact, e.fact)
  }

  datatype Lookup = Clash | Unknown | Stored(row: Event)

  /** `findIdempotentMatch` (src/browser/indexeddb-event-store.ts:665-696). */
  function Match(rows: Rows, e: Event): Lookup {
    var byId, byMutation := ById(rows, e.id), ByMutation(rows, e.mutation);
    if byId.Some? && byMutation.Some? && !SameKey(byId.value, byMutation.value) then Clash
    else if byId.Some? && !SameEvent(byId.value, e) then Clash
    else if byMutation.Some? && !SameMutation(byMutation.value, e) then Clash
    else if byId.Some? then Stored(byId.value)
    else if byMutation.Some? then Stored(byMutation.value)
    else Unknown
  }

  function FirstRevision(input: Input): nat { (if input.expected.Some? then input.expected.value else 0) + 1 }

  /** `validateAppend` (src/browser/indexeddb-event-store.ts:698-759). */
  predicate ValidAppend(input: Input) {
    && |input.events| > 0
    && (forall i :: 0 <= i < |input.events| ==>
          input.events[i].conversation == input.conversation && input.events[i].revision == FirstRevision(input) + i)
    && (forall i, j :: 0 <= i < j < |input.events| ==> input.events[i].id != input.events[j].id)
    && (forall i, j :: 0 <= i < j < |input.events| && input.events[i].mutation.Some? ==>
          input.events[i].mutation != input.events[j].mutation)
  }

  /** `store.add` under the primary key and the unique indexes. */
  predicate Collides(rows: Rows, e: Event) {
    exists i :: 0 <= i < |rows| &&
      (SameKey(rows[i], e) || rows[i].id == e.id || (e.mutation.Some? && rows[i].mutation == e.mutation))
  }

  function Copy(e: Event): Event { e.(fact := Clone(e.fact)) }

  function Copies(events: seq<Event>): seq<Event> { seq(|events|, i requires 0 <= i < |events| => Copy(events[i])) }

  predicate AllUnknown(rows: Rows, events: seq<Event>) {
    forall i :: 0 <= i < |events| ==> Match(rows, events[i]).Unknown?
  }

  predicate AllStored(rows: Rows, events: seq<Event>) {
    forall i :: 0 <= i < |events| ==> Match(rows, events[i]).Stored?
  }

  function Matched(rows: Rows, events: seq<Event>): seq<Event>
    requires AllStored(rows, events)
  {
    seq(|events|, i requires 0 <= i < |events| => Match(rows, events[i]).row)
  }

  /** `validateCompleteRetry` (src/browser/indexeddb-event-store.ts:761-781). */
  predicate OneBatch(input: Input, found: seq<Event>) {
    forall i :: 0 <= i < |found| ==>
      found[i].conversation == input.conversation && found[i].revision == FirstRevision(input) + i
  }

  /** `append` (src/browser/indexeddb-event-store.ts:110-185): the reply, and the rows after it. */
  function Appending(rows: Rows, input: Input): (Rows, Reply) {
    var latest := Latest(rows, input.conversation);
    if !ValidAppend(input) then (rows, Invalid)
    else if exists i :: 0 <= i < |input.events| && Match(rows, input.events[i]).Clash? then (rows, IdempotencyConflict)
    else if AllUnknown(rows, input.events) then
      if input.expected != latest then (rows, RevisionConflict)
      else if exists i :: 0 <= i < |input.events| && Collides(rows, input.events[i]) then (rows, ConstraintError)
      else (rows + Copies(input.events), Appended(Copies(input.events), FirstRevision(input) + |input.events| - 1))
    else if AllStored(rows, input.events) && OneBatch(input, Matched(rows, input.events)) then
      (rows, Idempotent(Matched(rows, input.events), if latest.Some? then latest.value else 0))
    else (rows, IdempotencyConflict)
  }

  // ---------------------------------------------------------------- soundness

  predicate Facts(events: seq<Event>) { forall i :: 0 <= i < |events| ==> Valid(events[i].fact) }

  /** Revisions are exactly 1..n in each conversation, and ids and mutation ids are unique. */
  ghost predicate Sound(rows: Rows) {
    && Facts(rows)
    && (forall i, j {:trigger rows[i].id, rows[j].id} :: 0 <= i < j < |rows| ==> rows[i].id != rows[j].id)
    && (forall i, j {:trigger rows[i].mutation, rows[j].mutation} ::
          0 <= i < j < |rows| && rows[i].mutation.Some? ==> rows[i].mutation != rows[j].mutation)
    && (forall c, i :: 0 <= i < |OfConversation(rows, c)| ==> OfConversation(rows, c)[i].revision == i + 1)
  }

  lemma {:induction false} OfConversationSplit(a: Rows, b: Rows, c: nat)
    ensures OfConversation(a + b, c) == OfConversation(a, c) + OfConversation(b, c)
    decreases |b|
  {
    if b == [] {
      assert a + b == a;
    } else {
      OfConversationSplit(a, b[..|b| - 1], c);
      assert (a + b)[..|a + b| - 1] == a + b[..|b| - 1];
    }
  }

  lemma {:induction false} OfConversationAll(b: Rows, c: nat, d: nat)
    requires forall i :: 0 <= i < |b| ==> b[i].conversation == c
    ensures OfConversation(b, d) == if c == d then b else []
  {
    if b != [] {
      OfConversationAll(b[..|b| - 1], c, d);
    }
  }

  lemma {:induction false} OfConversationMember(rows: Rows, i: nat) returns (k: nat)
    requires i < |rows|
    ensures k < |OfConversation(rows, rows[i].conversation)| && OfConversation(rows, rows[i].conversation)[k] == rows[i]
  {
    if i == |rows| - 1 {
      k := |OfConversation(rows[..|rows| - 1], rows[i].conversation)|;
    } else {
      k := OfConversationMember(rows[..|rows| - 1], i);
    }
  }

  /** In a sound table the latest revision is the number of the conversation's rows. */
  lemma {:induction false} LatestIsCount(rows: Rows, c: nat)
    requires forall i :: 0 <= i < |OfConversation(rows, c)| ==> OfConversation(rows, c)[i].revision == i + 1
    ensures Latest(rows, c) == if |OfConversation(rows, c)| == 0 then None else Some(|OfConversation(rows, c)|)
  {
    if rows != [] {
      var init, all := rows[..|rows| - 1], OfConversation(rows, c);
      assert forall i :: 0 <= i < |OfConversation(init, c)| ==> OfConversation(init, c)[i] == all[i];
      LatestIsCount(init, c);
      if rows[|rows| - 1].conversation == c {
        assert all[|all| - 1] == rows[|rows| - 1];
      }
    }
  }

  lemma {:induction false} ByIdSpec(rows: Rows, id: nat)
    ensures ById(rows, id).None? <==> forall i :: 0 <= i < |rows| ==> rows[i].id != id
    ensures ById(rows, id).Some? ==> ById(rows, id).value in rows && ById(rows, id).value.id == id
  {
    if rows != [] {
      ByIdSpec(rows[..|rows| - 1], id);
    }
  }

  lemma {:induction false} ByMutationSpec(rows: Rows, m: Option<nat>)
    ensures ByMutation(rows, m).None? <==> m.None? || forall i :: 0 <= i < |rows| ==> rows[i].mutation != m
    ensures ByMutation(rows, m).Some? ==> ByMutation(rows, m).value in rows && ByMutation(rows, m).value.mutation == m
  {
    if rows != [] && m.Some? {
      ByMutationSpec(rows[..|rows| - 1], m);
    }
  }

  lemma {:induction false} UnknownIsNew(rows: Rows, e: Event, i: nat)
    requires Match(rows, e).Unknown? && i < |rows|
    ensures rows[i].id != e.id && (e.mutation.Some? ==> rows[i].mutation != e.mutation)
  {
    ByIdSpec(rows, e.id);
    ByMutationSpec(rows, e.mutation);
  }

  /** Adding rows never meets an existing key, so the constraint error cannot happen. */
  lemma {:induction false} NeverCollides(rows: Rows, input: Input)
    requires Sound(rows)
    ensures !Appending(rows, input).1.ConstraintError?
  {
    if ValidAppend(input) && AllUnknown(rows, input.events) && input.expected == Latest(rows, input.conversation) {
      forall k, i | 0 <= k < |input.events| && 0 <= i < |rows|
        ensures !SameKey(rows[i], input.events[k]) && rows[i].id != input.events[k].id
        ensures input.events[k].mutation.Some? ==> rows[i].mutation != input.events[k].mutation
      {
        UnknownIsNew(rows, input.events[k], i);
        LatestIsCount(rows, rows[i].conversation);
        var j := OfConversationMember(rows, i);
      }
    }
  }

  /** In a sound table no row meets the keys of a later one. */
  lemma {:induction false} RowsNeverMeet(all: Rows, k: nat)
    requires Sound(all) && k < |all|
    ensures !Collides(all[..k], all[k])
  {
    forall i | 0 <= i < k ensures !SameKey(all[i], all[k]) {
      if SameKey(all[i], all[k]) { KeysAreUnique(all, all[i], all[k]); }
    }
  }

  /** Every append keeps the table sound, and one that fails changes nothing. */
  lemma {:induction false} AppendKeepsSound(rows: Rows, input: Input)
    requires Sound(rows) && Facts(input.events)
    ensures Sound(Appending(rows, input).0)
    ensures !Appending(rows, input).1.Appended? ==> Appending(rows, input).0 == rows
    ensures Appending(rows, input).1.Appended? ==>
              Appending(rows, input).0 == rows + Appending(rows, input).1.entries
                  && Appending(rows, input).1.entries == Copies(input.events)
  {
    if Appending(rows, input).1.Appended? {
      AppendedIsSound(rows, input);
    }
  }

  lemma {:induction false} CopiesAreValid(events: seq<Event>)
    requires Facts(events)
    ensures Facts(Copies(events))
  {
    forall i | 0 <= i < |events| ensures Valid(Copies(events)[i].fact) { CloneIsEqual(events[i].fact); }
  }

  lemma {:induction false} CopiesAreNew(rows: Rows, input: Input, i: nat, j: nat)
    requires ValidAppend(input) && AllUnknown(rows, input.events) && i < j < |rows| + |input.events|
    requires forall k, l :: 0 <= k < l < |rows| ==> rows[k].id != rows[l].id
    requires forall k, l :: 0 <= k < l < |rows| && rows[k].mutation.Some? ==> rows[k].mutation != rows[l].mutation
    ensures var all := rows + Copies(input.events);
            all[i].id != all[j].id && (all[i].mutation.Some? ==> all[i].mutation != all[j].mutation)
  {
    if i < |rows| <= j { UnknownIsNew(rows, input.events[j - |rows|], i); }
  }

  lemma {:induction false} CopiesLog(rows: Rows, input: Input, c: nat)
    requires ValidAppend(input)
    ensures OfConversation(rows + Copies(input.events), c) ==
              OfConversation(rows, c) + if c == input.conversation then Copies(input.events) else []
  {
    OfConversationSplit(rows, Copies(input.events), c);
    OfConversationAll(Copies(input.events), input.conversation, c);
  }

  lemma {:induction false} CopiesAreNumbered(rows: Rows, input: Input, c: nat)
    requires ValidAppend(input) && input.expected == Latest(rows, input.conversation)
    requires forall i :: 0 <= i < |OfConversation(rows, c)| ==> OfConversation(rows, c)[i].revision == i + 1
    ensures var log := OfConversation(rows + Copies(input.events), c);
            forall i :: 0 <= i < |log| ==> log[i].revision == i + 1
  {
    CopiesLog(rows, input, c);
    LatestIsCount(rows, c);
  }

  lemma {:induction false} AppendedIsSound(rows: Rows, input: Input)
    requires Sound(rows) && Facts(input.events) && ValidAppend(input) && AllUnknown(rows, input.events)
    requires input.expected == Latest(rows, input.conversation)
    ensures Sound(rows + Copies(input.events))
  {
    var all := rows + Copies(input.events);
    CopiesAreValid(input.events);
    forall i, j | 0 <= i < j < |all|
      ensures all[i].id != all[j].id && (all[i].mutation.Some? ==> all[i].mutation != all[j].mutation)
    {
      CopiesAreNew(rows, input, i, j);
    }
    forall c, i | 0 <= i < |OfConversation(all, c)| ensures OfConversation(all, c)[i].revision == i + 1 {
      CopiesAreNumbered(rows, input, c);
    }
  }

  // ---------------------------------------------------------------- which answer a writer gets

  /** Neither the event's id nor its mutation id is stored. */
  predicate Fresh(rows: Rows, e: Event) {
    forall i :: 0 <= i < |rows| ==> rows[i].id != e.id && (e.mutation.Some? ==> rows[i].mutation != e.mutation)
  }

  /** The row holds the very event. */
  predicate Holds(row: Event, e: Event) {
    && row.id == e.id && row.conversation == e.conversation && row.revision == e.revision
    && row.mutation == e.mutation && row.stamp == e.stamp && JsonEqual(row.fact, e.fact)
  }

  /** The row answers a retry of the event: it holds it, or holds its mutation while its id is new. */
  predicate Answers(rows: Rows, row: Event, e: Event) {
    && row in rows
    && (|| Holds(row, e)
        || (&& (forall i :: 0 <= i < |rows| ==> rows[i].id != e.id)
            && e.mutation.Some? && row.mutation == e.mutation && row.conversation == e.conversation
            && JsonEqual(row.fact, e.fact)))
  }

  lemma {:induction false} FreshIsUnknown(rows: Rows, e: Event)
    ensures Match(rows, e).Unknown? <==> Fresh(rows, e)
  {
    ByIdSpec(rows, e.id);
    ByMutationSpec(rows, e.mutation);
  }

  lemma {:induction false} StoredAnswers(rows: Rows, e: Event)
    requires Sound(rows)
    ensures Match(rows, e).Stored? ==> Answers(rows, Match(rows, e).row, e)
  {
    ByIdSpec(rows, e.id);
    ByMutationSpec(rows, e.mutation);
  }

  lemma {:induction false} AnswerIsStored(rows: Rows, row: Event, e: Event)
    requires Sound(rows) && Answers(rows, row, e)
    ensures Match(rows, e) == Stored(row)
  {
    var i :| 0 <= i < |rows| && rows[i] == row;
    StoredIsFound(rows, i);
    ByIdSpec(rows, e.id);
    ByMutationSpec(rows, e.mutation);
  }

  function Length(rows: Rows, c: nat): Option<nat> {
    if OfConversation(rows, c) == [] then None else Some(|OfConversation(rows, c)|)
  }

  /** The events continue the log after the expected revision, with all ids and all mutation ids different. */
  predicate Continues(input: Input) {
    var from := if input.expected.Some? then input.expected.value else 0;
    && input.events != []
    && (forall i :: 0 <= i < |input.events| ==>
          input.events[i].conversation == input.conversation && input.events[i].revision == from + i + 1)
    && (forall i, j :: 0 <= i < j < |input.events| ==>
          && input.events[i].id != input.events[j].id
          && (input.events[i].mutation.Some? ==> input.events[i].mutation != input.events[j].mutation))
  }

  predicate AllFresh(rows: Rows, events: seq<Event>) { forall i :: 0 <= i < |events| ==> Fresh(rows, events[i]) }

  /** Every event of the batch is answered by a row at the revision that the batch gives it. */
  predicate AllAnswered(rows: Rows, input: Input, found: seq<Event>) {
    && |found| == |input.events|
    && forall i :: 0 <= i < |found| ==>
         && Answers(rows, found[i], input.events[i])
         && found[i].conversation == input.conversation && found[i].revision == input.events[i].revision
  }

  /** The stored forms of the events. */
  predicate AllHeld(entries: seq<Event>, events: seq<Event>) {
    |entries| == |events| && forall i :: 0 <= i < |events| ==> Holds(entries[i], events[i])
  }

  /** What each answer of an append means, for the batch, the rows before and the rows after. */
  ghost predicate Means(rows: Rows, input: Input, after: Rows, reply: Reply) {
    var length := |OfConversation(rows, input.conversation)|;
    && (reply.Invalid? <==> !Continues(input))
    && (reply.RevisionConflict? <==>
          Continues(input) && AllFresh(rows, input.events) && input.expected != Length(rows, input.conversation))
    && (reply.Appended? <==>
          Continues(input) && AllFresh(rows, input.events) && input.expected == Length(rows, input.conversation))
    && (reply.Idempotent? <==> Continues(input) && exists found :: AllAnswered(rows, input, found))
    && !reply.ConstraintError?
    && (reply.Appended? ==>
          && after == rows + reply.entries && AllHeld(reply.entries, input.events)
          && reply.latest == length + |input.events|)
    && (reply.Idempotent? ==> AllAnswered(rows, input, reply.entries) && reply.latest == length)
    && (!reply.Appended? ==> after == rows)
  }

  lemma {:induction false} ContinuesIsValid(input: Input)
    ensures ValidAppend(input) <==> Continues(input)
  {}

  lemma {:induction false} AllFreshIsUnknown(rows: Rows, events: seq<Event>)
    ensures AllUnknown(rows, events) <==> AllFresh(rows, events)
  {
    forall i | 0 <= i < |events| ensures Match(rows, events[i]).Unknown? <==> Fresh(rows, events[i]) {
      FreshIsUnknown(rows, events[i]);
    }
  }

  lemma {:induction false} AnsweredIsStored(rows: Rows, input: Input, found: seq<Event>)
    requires Sound(rows) && AllAnswered(rows, input, found) && ValidAppend(input)
    ensures AllStored(rows, input.events) && Matched(rows, input.events) == found && OneBatch(input, found)
  {
    forall i | 0 <= i < |found| ensures Match(rows, input.events[i]) == Stored(found[i]) {
      AnswerIsStored(rows, found[i], input.events[i]);
    }
  }

  lemma {:induction false} StoredIsAnswered(rows: Rows, input: Input)
    requires Sound(rows) && ValidAppend(input) && AllStored(rows, input.events)
    requires OneBatch(input, Matched(rows, input.events))
    ensures AllAnswered(rows, input, Matched(rows, input.events))
  {
    forall i | 0 <= i < |input.events|
      ensures Answers(rows, Matched(rows, input.events)[i], input.events[i])
    {
      StoredAnswers(rows, input.events[i]);
    }
  }

  lemma {:induction false} CopiesAreHeld(events: seq<Event>)
    requires Facts(events)
    ensures AllHeld(Copies(events), events)
  {
    forall i | 0 <= i < |events| ensures Holds(Copies(events)[i], events[i]) {
      CloneIsEqual(events[i].fact);
    }
  }

  lemma {:induction false} IdempotentMeans(rows: Rows, input: Input)
    requires Sound(rows)
    ensures Appending(rows, input).1.Idempotent? <==>
              Continues(input) && exists found :: AllAnswered(rows, input, found)
    ensures Appending(rows, input).1.Idempotent? ==> AllAnswered(rows, input, Appending(rows, input).1.entries)
  {
    ContinuesIsValid(input);
    if Appending(rows, input).1.Idempotent? { StoredIsAnswered(rows, input); }
    if found :| AllAnswered(rows, input, found) {
      if ValidAppend(input) {
        AnsweredIsStored(rows, input, found);
        assert Match(rows, input.events[0]).Stored?;
      }
    }
  }

  lemma {:induction false} FreshMeans(rows: Rows, input: Input)
    requires Sound(rows)
    ensures Appending(rows, input).1.RevisionConflict? <==>
              Continues(input) && AllFresh(rows, input.events) && input.expected != Length(rows, input.conversation)
    ensures Appending(rows, input).1.Appended? <==>
              Continues(input) && AllFresh(rows, input.events) && input.expected == Length(rows, input.conversation)
  {
    ContinuesIsValid(input);
    AllFreshIsUnknown(rows, input.events);
    LatestIsCount(rows, input.conversation);
    NeverCollides(rows, input);
  }

  /** Every answer has its exact condition, in terms of the conversation's log and of the stored ids and mutations. */
  lemma {:induction false} AnswersAreExact(rows: Rows, input: Input)
    requires Sound(rows) && Facts(input.events)
    ensures Means(rows, input, Appending(rows, input).0, Appending(rows, input).1)
  {
    FreshMeans(rows, input);
    IdempotentMeans(rows, input);
    ContinuesIsValid(input);
    NeverCollides(rows, input);
    LatestIsCount(rows, input.conversation);
    CopiesAreHeld(input.events);
    if Appending(rows, input).1.Idempotent? { StoredIsHere(rows, rows, input); }
  }

  // ---------------------------------------------------------------- repeating an append

  function Run(rows: Rows, inputs: seq<Input>): Rows {
    if inputs == [] then rows else Appending(Run(rows, inputs[..|inputs| - 1]), inputs[|inputs| - 1]).0
  }

  predicate Parsed(inputs: seq<Input>) { forall k :: 0 <= k < |inputs| ==> Facts(inputs[k].events) }

  /** Every run keeps the table sound and only ever adds rows at its end. */
  lemma {:induction false} RunIsSound(rows: Rows, inputs: seq<Input>)
    requires Sound(rows) && Parsed(inputs)
    ensures Sound(Run(rows, inputs)) && rows <= Run(rows, inputs)
  {
    if inputs != [] {
      var init := inputs[..|inputs| - 1];
      RunIsSound(rows, init);
      AppendKeepsSound(Run(rows, init), inputs[|inputs| - 1]);
    }
  }

  lemma {:induction false} StoredIsFound(rows: Rows, i: nat)
    requires Sound(rows) && i < |rows|
    ensures ById(rows, rows[i].id) == Some(rows[i])
    ensures rows[i].mutation.Some? ==> ByMutation(rows, rows[i].mutation) == Some(rows[i])
  {
    ByIdSpec(rows, rows[i].id);
    ByMutationSpec(rows, rows[i].mutation);
  }

  lemma {:induction false} CopyMatches(rows: Rows, i: nat, e: Event)
    requires Sound(rows) && i < |rows| && Valid(e.fact) && rows[i] == Copy(e)
    ensures Match(rows, e) == Stored(rows[i])
  {
    StoredIsFound(rows, i);
    CloneIsEqual(e.fact);
  }

  lemma {:induction false} CopiesMatch(rows: Rows, events: seq<Event>, after: Rows)
    requires Facts(events) && Sound(after) && rows + Copies(events) <= after
    ensures AllStored(after, events) && Matched(after, events) == Copies(events)
  {
    forall i | 0 <= i < |events| ensures Match(after, events[i]) == Stored(Copies(events)[i]) {
      assert after[|rows| + i] == (rows + Copies(events))[|rows| + i] == Copies(events)[i];
      CopyMatches(after, |rows| + i, events[i]);
    }
  }

  /** A batch that was appended is, at any later time, an unchanged idempotent success with its first entries. */
  lemma {:induction false} RepeatAppended(rows: Rows, input: Input, after: Rows)
    requires Sound(rows) && Facts(input.events) && Appending(rows, input).1.Appended?
    requires Sound(after) && Appending(rows, input).0 <= after
    ensures Appending(after, input) ==
              (after, Idempotent(Appending(rows, input).1.entries, |OfConversation(after, input.conversation)|))
  {
    CopiesMatch(rows, input.events, after);
    assert Match(after, input.events[0]).Stored?;
    LatestIsCount(after, input.conversation);
    var k := OfConversationMember(after, |rows|);
  }

  /** Every event id of the batch that matched no row then still matches none. */
  predicate IdsStillFree(rows: Rows, after: Rows, events: seq<Event>) {
    forall i :: 0 <= i < |events| && ById(rows, events[i].id).None? ==> ById(after, events[i].id).None?
  }

  lemma {:induction false} MatchLater(rows: Rows, after: Rows, e: Event)
    requires Sound(rows) && Sound(after) && rows <= after && Match(rows, e).Stored?
    ensures (ById(rows, e.id).None? ==> ById(after, e.id).None?) ==> Match(after, e) == Match(rows, e)
    ensures !(ById(rows, e.id).None? ==> ById(after, e.id).None?) ==> Match(after, e).Clash?
  {
    var row := Match(rows, e).row;
    ByIdSpec(rows, e.id);
    ByMutationSpec(rows, e.mutation);
    var k :| 0 <= k < |rows| && rows[k] == row;
    assert after[k] == row;
    StoredIsFound(after, k);
    StoredIsFound(rows, k);
    ByIdSpec(after, e.id);
    if ById(rows, e.id).None? && ById(after, e.id).Some? {
      var other := ById(after, e.id).value;
      assert row.mutation.Some? && row.mutation == e.mutation;
      assert row.id != e.id;
      if SameKey(row, other) { KeysAreUnique(after, row, other); }
    }
  }

  lemma {:induction false} KeysAreUnique(rows: Rows, a: Event, b: Event)
    requires Sound(rows) && a in rows && b in rows && SameKey(a, b)
    ensures a == b
  {
    var i :| 0 <= i < |rows| && rows[i] == a;
    var j :| 0 <= j < |rows| && rows[j] == b;
    var k := OfConversationMember(rows, i);
    var l := OfConversationMember(rows, j);
  }

  /**
   * A retry that was answered from storage is answered the same way later exactly when no event id it brought
   * along unmatched has meanwhile been stored for another event.
   */
  lemma {:induction false} RepeatIdempotent(rows: Rows, input: Input, after: Rows)
    requires Sound(rows) && Appending(rows, input).1.Idempotent? && Sound(after) && rows <= after
    ensures Appending(after, input).0 == after
    ensures IdsStillFree(rows, after, input.events) <==>
              Appending(after, input).1 ==
                Idempotent(Appending(rows, input).1.entries, |OfConversation(after, input.conversation)|)
    ensures !IdsStillFree(rows, after, input.events) ==> Appending(after, input).1 == IdempotencyConflict
  {
    forall i | 0 <= i < |input.events|
      ensures (ById(rows, input.events[i].id).None? ==> ById(after, input.events[i].id).None?)
                ==> Match(after, input.events[i]) == Match(rows, input.events[i])
      ensures ById(rows, input.events[i].id).None? && ById(after, input.events[i].id).Some? ==>
                Match(after, input.events[i]).Clash?
    {
      MatchLater(rows, after, input.events[i]);
    }
    if IdsStillFree(rows, after, input.events) {
      assert Match(after, input.events[0]).Stored?;
      assert Matched(after, input.events) == Matched(rows, input.events);
      LatestIsCount(after, input.conversation);
      StoredIsHere(rows, after, input);
    }
  }

  lemma {:induction false} StoredIsHere(rows: Rows, after: Rows, input: Input)
    requires Appending(rows, input).1.Idempotent? && rows <= after
    ensures OfConversation(after, input.conversation) != []
  {
    var row := Matched(rows, input.events)[0];
    ByIdSpec(rows, input.events[0].id);
    ByMutationSpec(rows, input.events[0].mutation);
    var k :| 0 <= k < |rows| && rows[k] == row;
    var j := OfConversationMember(after, k);
  }

  /** Over a whole run: whatever happens in between, the first success repeats. */
  lemma {:induction false} AppendsAreRepeatable(before: seq<Input>, input: Input, between: seq<Input>)
    requires Parsed(before) && Facts(input.events) && Parsed(between)
    requires Appending(Run([], before), input).1.Appended?
    ensures var done := Appending(Run([], before), input);
            var now := Run(done.0, between);
            Appending(now, input) == (now, Idempotent(done.1.entries, |OfConversation(now, input.conversation)|))
  {
    RunIsSound([], before);
    AppendKeepsSound(Run([], before), input);
    RunIsSound(Appending(Run([], before), input).0, between);
    RepeatAppended(Run([], before), input, Run(Appending(Run([], before), input).0, between));
  }

  lemma {:induction false} AppendOne(rows: Rows, input: Input, e: Event)
    requires Sound(rows) && input.events == [e] && e.conversation == input.conversation
             && e.revision == FirstRevision(input)
    requires Match(rows, e).Unknown? && input.expected == Latest(rows, input.conversation)
    ensures Appending(rows, input).0 == rows + [Copy(e)] && Appending(rows, input).1.Appended?
  {
    assert Copies([e]) == [Copy(e)];
    NeverCollides(rows, input);
  }

  lemma {:induction false} RetryOne(rows: Rows, input: Input, e: Event)
    requires input.events == [e] && e.conversation == input.conversation && e.revision == FirstRevision(input)
    requires Match(rows, e).Stored? && SameKey(Match(rows, e).row, e)
    ensures Appending(rows, input).0 == rows && Appending(rows, input).1.Idempotent?
  {
    assert Match(rows, input.events[0]).Stored?;
    assert Matched(rows, input.events) == [Match(rows, e).row];
  }

  lemma {:induction false} MutationFound(row: Event, e: Event)
    requires row.id != e.id && SameMutation(row, e)
    ensures Match([row], e) == Stored(row)
  {
    assert [row][..0] == [];
    assert ById([row], e.id) == ById([], e.id) == None;
  }

  lemma {:induction false} NothingFound(row: Event, e: Event)
    requires row.id != e.id && e.mutation.None?
    ensures Match([row], e).Unknown?
  {
    assert [row][..0] == [];
    assert ById([row], e.id) == ById([], e.id) == None;
  }

  lemma {:induction false} RunOfOne(first: Input, e: Event)
    requires first.events == [e] && first.expected == None && e.revision == 1 && e.conversation == first.conversation
    requires Valid(e.fact) && Clone(e.fact) == e.fact
    ensures Run([], [first]) == [e] && Sound([e])
  {
    assert [first][..0] == [];
    assert Run([], []) == [];
    assert Copy(e) == e;
    AppendOne([], first, e);
    AppendKeepsSound([], first);
    assert [] + [e] == [e];
  }

  lemma {:induction false} RunOfThree(first: Input, retry: Input, other: Input)
    ensures Run([], [first, retry, other]) == Appending(Appending(Run([], [first]), retry).0, other).0
  {
    assert [first, retry, other][..2] == [first, retry] && [first, retry][..1] == [first];
  }

  /** The exception is real: a mutation retried under a new event id, which another event then takes. */
  lemma {:induction false} RetriedIdTaken(first: Input, e1: Event, retry: Input, e2: Event, other: Input, e3: Event)
    requires e1 == Event(1, 1, 10, Some(5), 0, Null) && first == Input(1, None, [e1])
    requires e2 == Event(1, 1, 11, Some(5), 0, Null) && retry == Input(1, None, [e2])
    requires e3 == Event(2, 1, 11, None, 0, Null) && other == Input(2, None, [e3])
    ensures Appending(Run([], [first]), retry).1.Idempotent?
    ensures Appending(Run([], [first, retry, other]), retry).1 == IdempotencyConflict
  {
    RunOfOne(first, e1);
    MutationFound(e1, e2);
    RetryOne([e1], retry, e2);
    NothingFound(e1, e3);
    LatestIsCount([e1], 2);
    AppendOne([e1], other, e3);
    RunOfThree(first, retry, other);
    AppendKeepsSound([e1], other);
    IdIsTaken(e1, retry, e2, Copy(e3));
  }

  lemma {:induction false} IdIsTaken(e1: Event, retry: Input, e2: Event, e3: Event)
    requires Sound([e1]) && Sound([e1] + [e3]) && retry.events == [e2] && e2.id == e3.id && e1.id != e2.id
    requires Appending([e1], retry).1.Idempotent?
    ensures Appending([e1] + [e3], retry).1 == IdempotencyConflict
  {
    StoredIsFound([e1] + [e3], 1);
    ByIdSpec([e1], e2.id);
    RepeatIdempotent([e1], retry, [e1] + [e3]);
    assert ById([e1], retry.events[0].id).None? && ById([e1] + [e3], retry.events[0].id).Some?;
  }
}
