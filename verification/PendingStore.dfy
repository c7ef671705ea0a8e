/** The browser's store of unsent work (src/browser/indexeddb-pending-store.ts), one method per transaction. */
module PendingStore {
  import opened Options
  import opened Tables
  import opened AttachmentDrafts
  import opened SplitStorage
  import opened JsonText
  import DraftText
  import Utf8

  const ROWS := 32
  const PENDING_BYTES := 4 * 1024 * 1024
  const DRAFT_BYTES := 512 * 1024

  datatype TextDraft = TextDraft(version: nat, text: Units)
  datatype Position = Position(place: nat, updatedAt: int)
  datatype Retaining = Retained | RetainDeleted | Different | Full
  datatype Drafting = DraftSaved(draft: Option<TextDraft>) | DraftDeleted | DraftTooLong | DraftConflict | DraftsFull
  datatype Discarding = Removed | Absent | Changed
  datatype Reading = NoDraft | Found(draft: Draft) | InvalidRow | Unavailable

  // ---------------------------------------------------------------- pruning positions

  predicate OlderOrSame(a: Row<Position>, b: Row<Position>) {
    a.value.updatedAt < b.value.updatedAt
        || (a.value.updatedAt == b.value.updatedAt && a.conversation <= b.conversation)
  }

  function InsertByAge(row: Row<Position>, t: Table<Position>): Table<Position> {
    if t == [] || OlderOrSame(row, t[0]) then [row] + t else [t[0]] + InsertByAge(row, t[1..])
  }

  function ByAge(t: Table<Position>): Table<Position> { if t == [] then [] else InsertByAge(t[0], ByAge(t[1..])) }

  lemma {:induction false} InsertByAgeSpec(row: Row<Position>, t: Table<Position>)
    ensures multiset(InsertByAge(row, t)) == multiset(t) + multiset{row}
    ensures |InsertByAge(row, t)| == |t| + 1
    ensures t != [] ==> InsertByAge(row, t)[0] == if OlderOrSame(row, t[0]) then row else t[0]
    ensures t == [] ==> InsertByAge(row, t) == [row]
  {
    if t != [] && !OlderOrSame(row, t[0]) {
      InsertByAgeSpec(row, t[1..]);
      assert t == [t[0]] + t[1..];
    }
  }

  /** Sorting keeps the rows, and the first is the oldest. */
  lemma {:induction false} ByAgeSpec(t: Table<Position>)
    ensures multiset(ByAge(t)) == multiset(t) && |ByAge(t)| == |t|
    ensures forall i :: 0 <= i < |t| ==> OlderOrSame(ByAge(t)[0], t[i])
  {
    if t != [] {
      ByAgeSpec(t[1..]);
      InsertByAgeSpec(t[0], ByAge(t[1..]));
      assert t == [t[0]] + t[1..];
      forall i | 0 <= i < |t| ensures OlderOrSame(ByAge(t)[0], t[i]) {
        if i > 0 { assert t[i] == t[1..][i - 1]; }
      }
    }
  }

  predicate PendingRow(row: Row<Units>) { row.bytes == Utf8.Length(row.value) }

  predicate DraftRowOk(row: Row<TextDraft>) {
    row.bytes == Utf8.Length(row.value.text) && row.value.text != [] && row.bytes <= DraftText.TEXT_BYTES
  }

  predicate PendingOk(t: Table<Units>) {
    Distinct(t) && All(t, PendingRow) && |t| <= ROWS && Bytes(t) <= PENDING_BYTES
  }

  predicate DraftsOk(t: Table<TextDraft>) {
    Distinct(t) && All(t, DraftRowOk) && |t| <= ROWS && Bytes(t) <= DRAFT_BYTES
  }

  predicate PositionsOk(t: Table<Position>) { Distinct(t) && |t| <= ROWS }

  /** No erased conversation has a row. */
  ghost predicate Gone<T>(t: Table<T>, deleted: set<nat>) {
    forall c {:trigger c in deleted} :: c in deleted ==> Get(t, c).None?
  }

  lemma {:induction false} GonePut<T>(t: Table<T>, row: Row<T>, deleted: set<nat>)
    requires Gone(t, deleted) && row.conversation !in deleted
    ensures Gone(Put(t, row), deleted)
  {
    forall c | c in deleted ensures Get(Put(t, row), c).None? { GetPut(t, row, c); }
  }

  lemma {:induction false} GoneWithout<T>(t: Table<T>, c: nat, deleted: set<nat>)
    requires Gone(t, deleted)
    ensures Gone(Without(t, c), deleted) && Gone(Without(t, c), deleted + {c})
  {
    forall d | d in deleted + {c} ensures Get(Without(t, c), d).None? { GetWithout(t, c, d); }
  }

  lemma {:induction false} PendingWithout(t: Table<Units>, c: nat)
    requires PendingOk(t)
    ensures PendingOk(Without(t, c))
  {
    WithoutDistinct(t, c);
    AllWithout(t, PendingRow, c);
  }

  lemma {:induction false} DraftsWithout(t: Table<TextDraft>, c: nat)
    requires DraftsOk(t)
    ensures DraftsOk(Without(t, c))
  {
    WithoutDistinct(t, c);
    AllWithout(t, DraftRowOk, c);
  }

  function TextVersion(row: Option<Row<TextDraft>>): Option<nat> {
    if row.None? then None else Some(row.value.value.version)
  }

  function FileVersion(row: Option<Row<FileRow>>): Option<nat> {
    if row.None? then None else Some(row.value.value.version)
  }

  /** No erased conversation has a row in any store. */
  ghost predicate NothingOf(
    deleted: set<nat>, pending: Table<Units>, drafts: Table<TextDraft>, positions: Table<Position>,
    files: Table<FileRow>) {
    Gone(pending, deleted) && Gone(drafts, deleted) && Gone(positions, deleted) && Gone(files, deleted)
  }

  lemma {:induction false} NothingOfErased(
    deleted: set<nat>, pending: Table<Units>, drafts: Table<TextDraft>, positions: Table<Position>,
    files: Table<FileRow>, c: nat)
    requires NothingOf(deleted, pending, drafts, positions, files)
    ensures NothingOf(deleted + {c}, Without(pending, c), Without(drafts, c), Without(positions, c), Without(files, c))
  {
    GoneWithout(pending, c, deleted);
    GoneWithout(drafts, c, deleted);
    GoneWithout(positions, c, deleted);
    GoneWithout(files, c, deleted);
  }

  class PendingStore {
    var pending: Table<Units>
    var drafts: Table<TextDraft>
    var positions: Table<Position>
    var deleted: set<nat>
    var files: Table<FileRow>
    var blobs: Blobs

    /** Every budget holds, and an erased conversation has no row in any store. */
    ghost predicate Valid() reads this {
      && PendingOk(pending) && DraftsOk(drafts) && PositionsOk(positions) && FilesOk(files, blobs)
      && NothingOf(deleted, pending, drafts, positions, files)
    }

    /** What the attachment rows stand for. */
    function Plain(): Memory reads this { Memory(Joined(files, blobs), deleted) }

    constructor ()
      ensures Valid() && Plain() == Memory([], {}) && pending == [] && drafts == [] && positions == []
    {
      pending, drafts, positions, deleted, files, blobs := [], [], [], {}, [], map[];
    }

    /** `retain` (src/browser/indexeddb-pending-store.ts:75-87). */
    method Retain(c: nat, json: Units) returns (r: Retaining)
      requires Valid()
      modifies this`pending
      ensures Valid()
      ensures r == RetainDeleted <==> c in deleted
      ensures r == Different <==> Get(old(pending), c).Some? && Get(old(pending), c).value.value != json
      ensures r == Full <==>
                && c !in deleted && Get(old(pending), c).None?
                && (|old(pending)| == ROWS || Bytes(old(pending)) + Utf8.Length(json) > PENDING_BYTES)
      ensures r == Retained ==> Get(pending, c).Some? && Get(pending, c).value.value == json
      ensures r != Retained || Get(old(pending), c).Some? ==> pending == old(pending)
      ensures forall d :: d != c ==> Get(pending, d) == Get(old(pending), d)
    {
      if c in deleted { assert Get(pending, c).None?; return RetainDeleted; }
      var saved := Get(pending, c);
      if saved.Some? { return if saved.value.value != json then Different else Retained; }
      var rows := FirstRows(pending, ROWS + 1);
      var row := Row(c, Utf8.Length(json), 1, json);
      GetSpec(pending, c);
      var conversations, _, bytes := Others(rows, c);
      if conversations >= ROWS || row.bytes + bytes > PENDING_BYTES { return Full; }
      PutDistinct(pending, row);
      AllPut(pending, PendingRow, row);
      GonePut(pending, row, deleted);
      forall d: nat ensures Get(Put(pending, row), d) == if row.conversation == d then Some(row) else Get(pending, d) {
        GetPut(pending, row, d);
      }
      pending := Put(pending, row);
      r := Retained;
    }

    /** `acknowledge` (src/browser/indexeddb-pending-store.ts:108-114): only the exact submission goes. */
    method Acknowledge(c: nat, json: Units)
      requires Valid()
      modifies this`pending
      ensures Valid()
      ensures Get(old(pending), c).Some? && Get(old(pending), c).value.value == json ==>
                pending == Without(old(pending), c)
      ensures !(Get(old(pending), c).Some? && Get(old(pending), c).value.value == json) ==> pending == old(pending)
    {
      var saved := Get(pending, c);
      if saved.Some? && saved.value.value == json {
        PendingWithout(pending, c);
        GoneWithout(pending, c, deleted);
        pending := Without(pending, c);
      }
    }

    /** `writeDraft` (src/browser/indexeddb-pending-store.ts:140-154). */
    method WriteDraft(c: nat, text: Units, expected: Option<nat>, uuid: nat) returns (r: Drafting)
      requires Valid()
      modifies this`drafts
      ensures Valid()
      ensures r == DraftTooLong <==> Utf8.Length(text) > DraftText.TEXT_BYTES
      ensures r == DraftDeleted <==> r != DraftTooLong && c in deleted
      ensures r == DraftConflict <==> r != DraftTooLong && c !in deleted && TextVersion(Get(old(drafts), c)) != expected
      ensures r == DraftsFull ==> text != []
      ensures !r.DraftSaved? ==> drafts == old(drafts)
      ensures r.DraftSaved? ==> r.draft == (if text == [] then None else Some(TextDraft(uuid, text)))
      ensures r.DraftSaved? && text == [] ==> drafts == Without(old(drafts), c)
      ensures r.DraftSaved? && text != [] ==>
                drafts == Put(old(drafts), Row(c, Utf8.Length(text), 1, TextDraft(uuid, text)))
      ensures r == DraftsFull ==> !DraftsOk(Put(old(drafts), Row(c, Utf8.Length(text), 1, TextDraft(uuid, text))))
    {
      DraftText.QuickTestIsExact(text);
      if DraftText.DraftTextBytes(text).None? { return DraftTooLong; }
      if c in deleted { return DraftDeleted; }
      var saved := Get(drafts, c);
      if TextVersion(saved) != expected { return DraftConflict; }
      WithoutDistinct(drafts, c);
      if text == [] {
        DraftsWithout(drafts, c);
        GoneWithout(drafts, c, deleted);
        drafts := Without(drafts, c);
        return DraftSaved(None);
      }
      var row := Row(c, Utf8.Length(text), 1, TextDraft(uuid, text));
      PutDistinct(drafts, row);
      var rows := FirstRows(drafts, ROWS + 1);
      var _, _, bytes := Others(rows, c);
      if (saved.None? && |rows| >= ROWS) || row.bytes + bytes > DRAFT_BYTES { return DraftsFull; }
      AllPut(drafts, DraftRowOk, row);
      GonePut(drafts, row, deleted);
      drafts := Put(drafts, row);
      r := DraftSaved(Some(TextDraft(uuid, text)));
    }

    /** `discardDraftVersion` (src/browser/indexeddb-pending-store.ts:155-162). */
    method DiscardDraftVersion(c: nat, version: nat) returns (r: Discarding)
      requires Valid()
      modifies this`drafts
      ensures Valid()
      ensures r == Absent <==> Get(old(drafts), c).None?
      ensures r == Removed <==> TextVersion(Get(old(drafts), c)) == Some(version)
      ensures drafts == if r == Removed then Without(old(drafts), c) else old(drafts)
    {
      var saved := Get(drafts, c);
      if saved.None? { return Absent; }
      if saved.value.value.version != version { return Changed; }
      DraftsWithout(drafts, c);
      GoneWithout(drafts, c, deleted);
      drafts := Without(drafts, c);
      r := Removed;
    }

    /**
     * `writePosition` (src/browser/indexeddb-pending-store.ts:169-179): a new row may push out the oldest
     * other one.
     */
    method WritePosition(c: nat, place: nat, now: int) returns (written: bool)
      requires Valid()
      modifies this`positions
      ensures Valid()
      ensures written <==> c !in deleted
      ensures !written ==> positions == old(positions)
      ensures written ==> Get(positions, c) == Some(Row(c, 0, 1, Position(place, now)))
      ensures written ==> OldestGone(old(positions), Row(c, 0, 1, Position(place, now)), positions)
    {
      if c in deleted { return false; }
      positions := PutPosition(positions, deleted, Row(c, 0, 1, Position(place, now)));
      written := true;
    }

    /** `eraseConversation` (src/browser/indexeddb-pending-store.ts:90-107). */
    method EraseConversation(c: nat)
      requires Valid()
      modifies this
      ensures Valid()
      ensures c in deleted && Plain() == Erase(old(Plain()), c)
      ensures pending == Without(old(pending), c) && drafts == Without(old(drafts), c)
              && positions == Without(old(positions), c)
    {
      NothingOfErased(deleted, pending, drafts, positions, files, c);
      var messages, texts, places := EraseRows(pending, drafts, positions, c);
      var rows, sources := EraseFiles(files, blobs, c);
      pending, drafts, positions, files, blobs, deleted := messages, texts, places, rows, sources, deleted + {c};
    }

    /**
     * `readAttachmentDraft` (src/browser/indexeddb-pending-store.ts:181-198): never an invalid row or missing
     * bytes.
     */
    method ReadAttachmentDraft(c: nat) returns (r: Reading)
      requires Valid()
      ensures Get(Plain().drafts, c).None? <==> r == NoDraft
      ensures Get(Plain().drafts, c).Some? ==> r == Found(Get(Plain().drafts, c).value.value)
    {
      JoinedGet(files, blobs, c);
      RowOfOk(files, c);
      var row := Get(files, c);
      if row.None? { return NoDraft; }
      var metas := row.value.value.files;
      var parsed := ParseFiles(metas, c);
      if parsed != Parses || row.value.count != |metas| || row.value.bytes != Size(metas) { return InvalidRow; }
      BlobsOf(files, blobs, c);
      var read := Gather(c, metas, blobs);
      if read.None? { return Unavailable; }
      r := Found(Draft(row.value.value.version, read.value));
    }

    /**
     * `writeAttachmentDraft` (src/browser/indexeddb-pending-store.ts:200-235). If reusing an identity means the same
     * source, the outcome and the readable files are those of the plain store.
     */
    method WriteAttachmentDraft(c: nat, input: seq<File>, expected: Option<nat>, uuid: nat) returns (r: Saving)
      requires Valid()
      modifies this`files, this`blobs
      ensures Valid()
      ensures !r.Saved? ==> files == old(files) && blobs == old(blobs)
      ensures Honest(input) && SameSources(MetasOf(Get(old(files), c)), old(blobs), c, input) ==>
                var (after, expectation) := Write(old(Plain()), c, input, expected, uuid);
                && Plain() == after && (r.Saved? <==> expectation.Saved?) && (c !in deleted ==> r == expectation)
      ensures !Honest(input) ==> !r.Saved?
    {
      var metas := Metas(input);
      MetasSpec(input);
      var parsed := ParseFiles(metas, c);
      if parsed != Parses { return Unparsed(parsed); }
      if !Honest(input) { return WrongBytes; }
      if SameSources(MetasOf(Get(files, c)), blobs, c, input) {
        PlainOutcome(files, blobs, deleted, c, input, expected, uuid);
      }
      var rows, sources;
      r, rows, sources := ReplaceFiles(files, blobs, deleted, c, input, metas, expected, uuid);
      files, blobs := rows, sources;
    }

    /**
     * `discardAcceptedFiles` (src/browser/indexeddb-pending-store.ts:236-252): as in the plain store, without
     * reading a blob.
     */
    method DiscardAcceptedFiles(c: nat, ids: seq<nat>, uuid: nat) returns (r: Cleanup)
      requires Valid()
      modifies this`files, this`blobs
      ensures Valid()
      ensures (Plain(), r) == Discard(old(Plain()), c, ids, uuid)
    {
      var rows, sources;
      r, rows, sources := DiscardFiles(files, blobs, deleted, c, ids, uuid);
      files, blobs := rows, sources;
    }
  }

  /** The transaction of `writeAttachmentDraft` on its two tables. */
  method ReplaceFiles(
    files: Table<FileRow>, blobs: Blobs, deleted: set<nat>, c: nat, input: seq<File>, metas: seq<Meta>,
    expected: Option<nat>, uuid: nat)
    returns (r: Saving, rows: Table<FileRow>, sources: Blobs)
    requires FilesOk(files, blobs) && Gone(files, deleted)
    requires metas == Metas(input) && Parse(metas, c) == Parses && Honest(input)
    ensures FilesOk(rows, sources) && Gone(rows, deleted)
    ensures var refusal := Refusal(files, deleted, c, metas, expected);
            && (refusal.Some? ==> r == refusal.value && rows == files && sources == blobs)
            && (refusal.None? ==> r == Saved(if input == [] then None else Some(Draft(uuid, input))))
            && (refusal.None? && input == [] ==> Joined(rows, sources) == Without(Joined(files, blobs), c))
            && (refusal.None? && input != [] && SameSources(MetasOf(Get(files, c)), blobs, c, input) ==>
                  Joined(rows, sources) == Put(Joined(files, blobs), DraftRow(c, Draft(uuid, input))))
  {
    rows, sources := files, blobs;
    if c in deleted { return Deleted, rows, sources; }
    MetasSpec(input);
    var row := Get(files, c);
    if FileVersion(row) != expected { return Conflict, rows, sources; }
    var fits := CheckBudget(files, c, |input|, Size(metas));
    if !fits { return Capacity, rows, sources; }
    var prior := MetasOf(row);
    BlobsOf(files, blobs, c);
    var problem, after := MoveBlobs(prior, input, metas, c, blobs);
    if problem.Some? { return problem.value, rows, sources; }
    if input == [] {
      RemoveFiles(files, blobs, c, after);
      GoneWithout(files, c, deleted);
      return Saved(None), Without(files, c), after;
    }
    InPlace(files, blobs, deleted, c, input, after, uuid);
    return Saved(Some(Draft(uuid, input))), Put(files, FileRowOf(c, uuid, metas)), after;
  }

  /** The budget of a write; reading one row past the limit is reading all rows. */
  method CheckBudget(files: Table<FileRow>, c: nat, count: nat, bytes: nat) returns (fits: bool)
    requires Budgeted(files)
    ensures fits == Fits(Without(files, c), count, bytes)
  {
    var conversations, items, total := Others(FirstRows(files, CONVERSATIONS + 1), c);
    fits := !(
      || conversations + (if count > 0 then 1 else 0) > CONVERSATIONS
      || items + count > FILES || total + bytes > FILE_BYTES);
  }

  /** The blob rows follow the selection: unkept ones go, new ones come, saved ones stay. */
  method MoveBlobs(prior: seq<Meta>, input: seq<File>, metas: seq<Meta>, c: nat, blobs: Blobs)
    returns (problem: Option<Saving>, after: Blobs)
    requires BlobsFor(blobs, c, prior) && metas == Metas(input) && Walk(metas, c) == Parses && |metas| == |input|
    requires Sized(prior, c, blobs) && Honest(input)
    ensures problem == if AllUnchanged(prior, metas) then None else Some(IdentityChanged)
    ensures problem.None? ==> SameElsewhere(blobs, after, c) && BlobsFor(after, c, metas) && Sized(metas, c, after)
    ensures problem.None? ==> forall k :: 0 <= k < |input| ==>
              Lookup(after, c, metas[k].id) ==
                  if Has(prior, metas[k].id) then Lookup(blobs, c, metas[k].id) else input[k].source
  {
    var kept := DeleteUnretained(prior, metas, c, blobs);
    problem, after := AddSources(prior, input, metas, c, kept);
    if problem.None? {
      Elsewhere(blobs, kept, after, c);
      SourcesInPlace(prior, metas, input, c, blobs, kept, after);
      SavedSizes(c, prior, blobs, input, after);
    }
  }

  lemma {:induction false} InPlace(
    files: Table<FileRow>, blobs: Blobs, deleted: set<nat>, c: nat, input: seq<File>, after: Blobs, uuid: nat)
    requires FilesOk(files, blobs) && Gone(files, deleted) && c !in deleted
    requires input != [] && Parse(Metas(input), c) == Parses && |Metas(input)| == |input|
    requires Fits(Without(files, c), |input|, Size(Metas(input)))
    requires SameElsewhere(blobs, after, c) && BlobsFor(after, c, Metas(input)) && Sized(Metas(input), c, after)
    requires var prior, metas := MetasOf(Get(files, c)), Metas(input);
             forall k :: 0 <= k < |input| ==>
               Lookup(after, c, metas[k].id) ==
                   if Has(prior, metas[k].id) then Lookup(blobs, c, metas[k].id) else input[k].source
    ensures FilesOk(Put(files, FileRowOf(c, uuid, Metas(input))), after)
    ensures Gone(Put(files, FileRowOf(c, uuid, Metas(input))), deleted)
    ensures SameSources(MetasOf(Get(files, c)), blobs, c, input) ==>
              Joined(Put(files, FileRowOf(c, uuid, Metas(input))), after) ==
                  Put(Joined(files, blobs), DraftRow(c, Draft(uuid, input)))
  {
    var next := FileRowOf(c, uuid, Metas(input));
    MetasSpec(input);
    PutFiles(files, blobs, next, after);
    GonePut(files, next, deleted);
    if SameSources(MetasOf(Get(files, c)), blobs, c, input) { JoinsToFiles(c, input, after); }
  }

  /** The transaction of `discardAcceptedFiles` on its two tables. */
  method DiscardFiles(files: Table<FileRow>, blobs: Blobs, deleted: set<nat>, c: nat, ids: seq<nat>, uuid: nat)
    returns (r: Cleanup, rows: Table<FileRow>, sources: Blobs)
    requires FilesOk(files, blobs) && Gone(files, deleted)
    ensures FilesOk(rows, sources) && Gone(rows, deleted)
    ensures (Memory(Joined(rows, sources), deleted), r) == Discard(Memory(Joined(files, blobs), deleted), c, ids, uuid)
  {
    rows, sources := files, blobs;
    if !ValidIds(ids) { return InvalidIds, rows, sources; }
    var accepted := set id | id in ids;
    JoinedGet(files, blobs, c);
    RowOfOk(files, c);
    var row := Get(files, c);
    if row.None? { return Cleaned(None, None), rows, sources; }
    var prior, version := row.value.value.files, row.value.value.version;
    var parsed := ParseFiles(prior, c);
    if parsed != Parses { return Corrupt, rows, sources; }
    var rest := Kept(prior, accepted);
    KeptJoin(c, prior, accepted, blobs, blobs);
    JoinSpec(c, prior, blobs);
    JoinSpec(c, rest, blobs);
    if |rest| == |prior| { return Cleaned(Some(version), Some(version)), rows, sources; }
    BlobsOf(files, blobs, c);
    var after := DeleteAccepted(prior, accepted, c, blobs);
    if rest == [] {
      RemoveFiles(files, blobs, c, after);
      GoneWithout(files, c, deleted);
      return Cleaned(Some(version), None), Without(files, c), after;
    }
    KeptInPlace(files, blobs, deleted, c, accepted, after, uuid);
    KeptJoin(c, prior, accepted, blobs, after);
    return Cleaned(Some(version), Some(uuid)), Put(files, FileRowOf(c, uuid, rest)), after;
  }

  lemma {:induction false} KeptInPlace(
    files: Table<FileRow>, blobs: Blobs, deleted: set<nat>, c: nat, ids: set<nat>, after: Blobs, uuid: nat)
    requires FilesOk(files, blobs) && Gone(files, deleted) && Get(files, c).Some?
    requires Kept(MetasOf(Get(files, c)), ids) != []
    requires SameElsewhere(blobs, after, c) && BlobsFor(after, c, Kept(MetasOf(Get(files, c)), ids))
    requires forall id: nat :: id !in ids ==> Lookup(after, c, id) == Lookup(blobs, c, id)
    ensures var next := FileRowOf(c, uuid, Kept(MetasOf(Get(files, c)), ids));
            && FilesOk(Put(files, next), after) && Gone(Put(files, next), deleted)
            && Joined(Put(files, next), after) ==
                 Put(Joined(files, blobs), DraftRow(c, Draft(uuid, Join(c, next.value.files, after))))
  {
    var prior := MetasOf(Get(files, c));
    var rest := Kept(prior, ids);
    var next := FileRowOf(c, uuid, rest);
    RowOfOk(files, c);
    BlobsOf(files, blobs, c);
    KeptRow(c, uuid, prior, ids);
    KeptSized(c, prior, ids, blobs, after);
    KeptFits(files, c, rest, ids);
    PutFiles(files, blobs, next, after);
    assert c !in deleted by { assert Get(files, c).Some?; }
    GonePut(files, next, deleted);
    JoinSpec(c, rest, after);
  }

  /** The row is written; if there are then too many, the oldest other one goes. */
  ghost predicate OldestGone(was: Table<Position>, row: Row<Position>, after: Table<Position>) {
    var others := Without(was, row.conversation);
    if |others| < ROWS then after == Put(was, row)
    else exists gone :: gone in others && Oldest(gone, others) && after == Without(Put(was, row), gone.conversation)
  }

  predicate Oldest(row: Row<Position>, others: Table<Position>) {
    forall i :: 0 <= i < |others| ==> OlderOrSame(row, others[i])
  }

  method PutPosition(was: Table<Position>, deleted: set<nat>, row: Row<Position>) returns (positions: Table<Position>)
    requires PositionsOk(was) && Gone(was, deleted) && row.conversation !in deleted
    ensures PositionsOk(positions) && Gone(positions, deleted)
    ensures Get(positions, row.conversation) == Some(row) && OldestGone(was, row, positions)
  {
    var c := row.conversation;
    GonePut(was, row, deleted);
    WithoutDistinct(was, c);
    PutDistinct(was, row);
    GetPut(was, row, c);
    positions := Put(was, row);
    var others := ByAge(Without(positions, c));
    WithoutLast(was, row);
    ByAgeSpec(Without(positions, c));
    if |positions| > ROWS {
      var gone := others[0];
      assert gone in multiset(others);
      WithoutAvoids(was, c, gone);
      WithoutDistinct(positions, gone.conversation);
      GoneWithout(positions, gone.conversation, deleted);
      GetWithout(positions, gone.conversation, c);
      MemberIsFound(positions, gone);
      assert Oldest(gone, Without(was, c));
      positions := Without(positions, gone.conversation);
    }
  }

  /** An erased conversation has no row in any content store, blobs included. */
  lemma {:induction false} NoResurrection(
    deleted: set<nat>, pending: Table<Units>, drafts: Table<TextDraft>, positions: Table<Position>,
    files: Table<FileRow>, blobs: Blobs, c: nat)
    requires NothingOf(deleted, pending, drafts, positions, files) && FilesOk(files, blobs) && c in deleted
    ensures Get(pending, c).None? && Get(drafts, c).None? && Get(positions, c).None? && Get(files, c).None?
    ensures forall k :: k in blobs ==> k.0 != c
  {
    forall k | k in blobs ensures k.0 != c {
      assert k == (k.0, k.1);
      assert (k.0, k.1) in blobs <==> Has(MetasOf(Get(files, k.0)), k.1);
    }
  }

  /** Reads every blob of a selection, checking its size. */
  method Gather(c: nat, metas: seq<Meta>, blobs: Blobs) returns (read: Option<seq<File>>)
    ensures read.Some? <==> BlobsPresent(c, metas, blobs)
    ensures read.Some? ==> read.value == Join(c, metas, blobs)
  {
    var found, i := [], 0;
    while i < |metas|
      invariant 0 <= i <= |metas| && found == Join(c, metas[..i], blobs) && BlobsPresent(c, metas[..i], blobs)
    {
      assert metas[..i + 1][..i] == metas[..i];
      var id := metas[i].id;
      if (c, id) !in blobs || blobs[(c, id)].size != metas[i].selection.size { return None; }
      found := found + [File(metas[i], blobs[(c, id)])];
      i := i + 1;
    }
    assert metas[..i] == metas;
    read := Some(found);
  }

  predicate BlobsPresent(c: nat, metas: seq<Meta>, blobs: Blobs) {
    forall i :: 0 <= i < |metas| ==>
        (c, metas[i].id) in blobs && blobs[(c, metas[i].id)].size == metas[i].selection.size
  }

  /** What the blob invariant says of one conversation. */
  lemma {:induction false} BlobsOf(t: Table<FileRow>, blobs: Blobs, c: nat)
    requires FilesOk(t, blobs)
    ensures BlobsFor(blobs, c, MetasOf(Get(t, c))) && Sized(MetasOf(Get(t, c)), c, blobs)
    ensures BlobsPresent(c, MetasOf(Get(t, c)), blobs)
  {
    var metas := MetasOf(Get(t, c));
    assert Sized(metas, c, blobs);
    forall i | 0 <= i < |metas| ensures (c, metas[i].id) in blobs {
      HasSpec(metas, metas[i].id);
    }
  }

  lemma {:induction false} Elsewhere(blobs: Blobs, kept: Blobs, after: Blobs, c: nat)
    requires SameElsewhere(blobs, kept, c) && SameElsewhere(kept, after, c)
    ensures SameElsewhere(blobs, after, c)
  {
    forall d: nat, id: nat | d != c
      ensures ((d, id) in after <==> (d, id) in blobs) && ((d, id) in blobs ==> after[(d, id)] == blobs[(d, id)])
    {
      assert (d, id) in kept <==> (d, id) in blobs;
    }
  }

  /** After both loops each file's blob is the saved one if there was one, else the new source. */
  lemma {:induction false} SourcesInPlace(
    prior: seq<Meta>, metas: seq<Meta>, input: seq<File>, c: nat, blobs: Blobs, kept: Blobs, after: Blobs)
    requires metas == Metas(input) && |metas| == |input| && BlobsFor(blobs, c, prior)
    requires OnlyKept(prior, metas, c, kept)
    requires forall id: nat {:trigger (c, id) in kept} :: (c, id) in kept ==> kept[(c, id)] == Lookup(blobs, c, id)
    requires AllPlaced(prior, input, metas, c, kept, after, |input|)
    ensures BlobsFor(after, c, metas)
    ensures forall k :: 0 <= k < |input| ==>
              Lookup(after, c, metas[k].id) ==
                  if Has(prior, metas[k].id) then Lookup(blobs, c, metas[k].id) else input[k].source
  {
    MetasSpec(input);
    assert metas[..|input|] == metas;
    forall k | 0 <= k < |input|
      ensures Lookup(after, c, metas[k].id) ==
              if Has(prior, metas[k].id) then Lookup(blobs, c, metas[k].id) else input[k].source
    {
      HasSpec(metas, metas[k].id);
      assert Placed(prior, input[k], c, kept, after);
      assert (c, metas[k].id) in kept <==> Has(prior, metas[k].id) && Has(metas, metas[k].id);
    }
    forall id: nat ensures (c, id) in after <==> Has(metas, id) {
      assert (c, id) in kept <==> Has(prior, id) && Has(metas, id);
    }
  }

  /** Why the transaction refuses a parsed selection, if it does. */
  function Refusal(
    t: Table<FileRow>, deleted: set<nat>, c: nat, metas: seq<Meta>, expected: Option<nat>): Option<Saving> {
    if c in deleted then Some(Deleted)
    else if FileVersion(Get(t, c)) != expected then Some(Conflict)
    else if !Fits(Without(t, c), |metas|, Size(metas)) then Some(Capacity)
    else if !AllUnchanged(MetasOf(Get(t, c)), metas) then Some(IdentityChanged)
    else None
  }

  /** The plain store decides as the split one does. */
  lemma {:induction false} PlainOutcome(
    t: Table<FileRow>, blobs: Blobs, deleted: set<nat>, c: nat, input: seq<File>, expected: Option<nat>, uuid: nat)
    requires RowsOk(t) && Parse(Metas(input), c) == Parses && SameSources(MetasOf(Get(t, c)), blobs, c, input)
    ensures var m, refusal := Memory(Joined(t, blobs), deleted), Refusal(t, deleted, c, Metas(input), expected);
            Write(m, c, input, expected, uuid) ==
              if refusal.Some? then (m, refusal.value)
              else if input == [] then (m.(drafts := Without(m.drafts, c)), Saved(None))
              else (m.(drafts := Put(m.drafts, DraftRow(c, Draft(uuid, input)))), Saved(Some(Draft(uuid, input))))
  {
    MetasSpec(input);
    SameFits(t, blobs, c, |input|, Size(Metas(input)));
    SameOld(t, blobs, c);
    SameIdentities(c, MetasOf(Get(t, c)), blobs, input);
  }

  lemma {:induction false} SameOld(t: Table<FileRow>, blobs: Blobs, c: nat)
    requires RowsOk(t)
    ensures DraftVersion(Get(Joined(t, blobs), c)) == FileVersion(Get(t, c))
    ensures OldFiles(Get(Joined(t, blobs), c)) == Join(c, MetasOf(Get(t, c)), blobs)
    ensures Walk(MetasOf(Get(t, c)), c) == Parses
  {
    JoinedGet(t, blobs, c);
    RowOfOk(t, c);
  }

  lemma {:induction false} SameFits(t: Table<FileRow>, blobs: Blobs, c: nat, count: nat, bytes: nat)
    ensures Fits(Without(Joined(t, blobs), c), count, bytes) <==> Fits(Without(t, c), count, bytes)
  {
    JoinedWithout(t, blobs, c);
    JoinedTotals(Without(t, c), blobs);
  }

  lemma {:induction false} KeptFits(t: Table<FileRow>, c: nat, rest: seq<Meta>, ids: set<nat>)
    requires Distinct(t) && RowsOk(t) && Budgeted(t) && Get(t, c).Some? && rest == Kept(MetasOf(Get(t, c)), ids)
    ensures Fits(Without(t, c), |rest|, Size(rest))
  {
    RowOfOk(t, c);
    WithoutDistinct(t, c);
    KeptMembers(MetasOf(Get(t, c)), ids);
  }

  method EraseRows(pending: Table<Units>, drafts: Table<TextDraft>, positions: Table<Position>, c: nat)
    returns (messages: Table<Units>, texts: Table<TextDraft>, places: Table<Position>)
    requires PendingOk(pending) && DraftsOk(drafts) && PositionsOk(positions)
    ensures messages == Without(pending, c) && texts == Without(drafts, c) && places == Without(positions, c)
    ensures PendingOk(messages) && DraftsOk(texts) && PositionsOk(places)
  {
    PendingWithout(pending, c);
    DraftsWithout(drafts, c);
    PositionsWithout(positions, c);
    messages, texts, places := Without(pending, c), Without(drafts, c), Without(positions, c);
  }

  /** Erasing a conversation's metadata row, and its blob rows by a cursor over them. */
  method EraseFiles(files: Table<FileRow>, blobs: Blobs, c: nat) returns (rows: Table<FileRow>, sources: Blobs)
    requires FilesOk(files, blobs)
    ensures rows == Without(files, c) && FilesOk(rows, sources)
            && Joined(rows, sources) == Without(Joined(files, blobs), c)
  {
    rows, sources := Without(files, c), map k | k in blobs && k.0 != c :: blobs[k];
    RemoveFiles(files, blobs, c, sources);
  }

  lemma {:induction false} PositionsWithout(t: Table<Position>, c: nat)
    requires PositionsOk(t)
    ensures PositionsOk(Without(t, c))
  {
    WithoutDistinct(t, c);
  }

  lemma {:induction false} WithoutLast<T>(t: Table<T>, row: Row<T>)
    ensures Without(Put(t, row), row.conversation) == Without(t, row.conversation)
  {
    var w := Without(t, row.conversation);
    assert (w + [row])[..|w|] == w;
    GetWithout(t, row.conversation, row.conversation);
    GetSpec(w, row.conversation);
  }

  lemma {:induction false} WithoutAvoids<T>(t: Table<T>, c: nat, row: Row<T>)
    requires row in Without(t, c)
    ensures row.conversation != c && row in t
  {
    if t != [] {
      var init := t[..|t| - 1];
      assert t == init + [t[|t| - 1]];
      if row in Without(init, c) { WithoutAvoids(init, c, row); }
    }
  }

  lemma {:induction false} MemberIsFound<T>(t: Table<T>, row: Row<T>)
    requires row in t
    ensures Get(t, row.conversation).Some?
  {
    var init := t[..|t| - 1];
    if t[|t| - 1].conversation != row.conversation {
      assert t == init + [t[|t| - 1]];
      MemberIsFound(init, row);
    }
  }
}
