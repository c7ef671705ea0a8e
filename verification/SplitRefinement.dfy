/** Every run of attachment operations looks the same on the split store and on the plain one. */
module SplitRefinement {
  import opened Options
  import opened Tables
  import opened AttachmentDrafts
  import opened SplitStorage
  import opened PendingStore

  datatype Operation =
    | WriteOp(c: nat, files: seq<File>, expected: Option<nat>, uuid: nat)
    | DiscardOp(c: nat, ids: seq<nat>, uuid: nat)
    | EraseOp(c: nat)
    | ReadOp(c: nat)

  /** What a caller sees: whether a write succeeded and what it saved, a cleanup's versions, the files read. */
  datatype Seen =
    | Wrote(saved: bool, draft: Option<Draft>)
    | Discarded(cleanup: Cleanup)
    | Erased
    | Read(draft: Option<Draft>)
    | Failed

  /** A conversation's file identity names one source for ever. */
  type Sources = (nat, nat) -> Source

  predicate FilesFrom(files: seq<File>, c: nat, source: Sources) {
    forall i :: 0 <= i < |files| ==> files[i].source == source(c, files[i].meta.id)
  }

  predicate Faithful(op: Operation, source: Sources) {
    op.WriteOp? ==> Honest(op.files) && FilesFrom(op.files, op.c, source)
  }

  ghost predicate AllFrom(m: Memory, source: Sources) {
    forall c: nat {:trigger OldFiles(Get(m.drafts, c))} :: FilesFrom(OldFiles(Get(m.drafts, c)), c, source)
  }

  function Outcome(r: Saving): Seen { Wrote(r.Saved?, if r.Saved? then r.draft else None) }

  /** One operation on the plain store. */
  function Perform(m: Memory, op: Operation): (Memory, Seen) {
    match op
    case WriteOp(c, files, expected, uuid) =>
      var (after, r) := Write(m, c, files, expected, uuid);
      (after, Outcome(r))
    case DiscardOp(c, ids, uuid) =>
      var (after, r) := Discard(m, c, ids, uuid);
      (after, Discarded(r))
    case EraseOp(c) => (Erase(m, c), Erased)
    case ReadOp(c) => (m, Read(if Get(m.drafts, c).Some? then Some(Get(m.drafts, c).value.value) else None))
  }

  function Run(m: Memory, ops: seq<Operation>): Memory {
    if ops == [] then m else Perform(Run(m, ops[..|ops| - 1]), ops[|ops| - 1]).0
  }

  function Views(m: Memory, ops: seq<Operation>): seq<Seen> {
    if ops == [] then []
    else Views(m, ops[..|ops| - 1]) + [Perform(Run(m, ops[..|ops| - 1]), ops[|ops| - 1]).1]
  }

  lemma {:induction false} KeptFrom(files: seq<File>, ids: set<nat>, c: nat, source: Sources)
    requires FilesFrom(files, c, source)
    ensures FilesFrom(KeptFiles(files, ids), c, source)
  {
    if files != [] { KeptFrom(files[..|files| - 1], ids, c, source); }
  }

  lemma {:induction false} PutFrom(m: Memory, c: nat, draft: Draft, source: Sources)
    requires AllFrom(m, source) && FilesFrom(draft.files, c, source)
    ensures AllFrom(m.(drafts := Put(m.drafts, DraftRow(c, draft))), source)
  {
    var row := DraftRow(c, draft);
    forall d: nat ensures FilesFrom(OldFiles(Get(Put(m.drafts, row), d)), d, source) {
      GetPut(m.drafts, row, d);
      assert FilesFrom(OldFiles(Get(m.drafts, d)), d, source);
    }
  }

  lemma {:induction false} WithoutFrom(m: Memory, c: nat, deleted: set<nat>, source: Sources)
    requires AllFrom(m, source)
    ensures AllFrom(Memory(Without(m.drafts, c), deleted), source)
  {
    forall d: nat ensures FilesFrom(OldFiles(Get(Without(m.drafts, c), d)), d, source) {
      GetWithout(m.drafts, c, d);
      assert FilesFrom(OldFiles(Get(m.drafts, d)), d, source);
    }
  }

  /** Faithful operations leave every stored file with the source of its identity. */
  lemma {:induction false} PerformFrom(m: Memory, op: Operation, source: Sources)
    requires AllFrom(m, source) && Faithful(op, source)
    ensures AllFrom(Perform(m, op).0, source)
  {
    match op
    case WriteOp(c, files, expected, uuid) =>
      WithoutFrom(m, c, m.deleted, source);
      PutFrom(m, c, Draft(uuid, files), source);
    case DiscardOp(c, ids, uuid) =>
      WithoutFrom(m, c, m.deleted, source);
      assert FilesFrom(OldFiles(Get(m.drafts, c)), c, source);
      KeptFrom(OldFiles(Get(m.drafts, c)), (set id | id in ids), c, source);
      PutFrom(m, c, Draft(uuid, KeptFiles(OldFiles(Get(m.drafts, c)), (set id | id in ids))), source);
    case EraseOp(c) =>
      WithoutFrom(m, c, m.deleted + {c}, source);
    case ReadOp(c) =>
  }

  lemma {:induction false} SourcesAgree(
    t: Table<FileRow>, blobs: Blobs, deleted: set<nat>, c: nat, files: seq<File>, source: Sources)
    requires RowsOk(t) && AllFrom(Memory(Joined(t, blobs), deleted), source) && FilesFrom(files, c, source)
    ensures SameSources(MetasOf(Get(t, c)), blobs, c, files)
  {
    var prior := MetasOf(Get(t, c));
    JoinedGet(t, blobs, c);
    RowOfOk(t, c);
    JoinSpec(c, prior, blobs);
    assert FilesFrom(OldFiles(Get(Joined(t, blobs), c)), c, source);
    assert OldFiles(Get(Joined(t, blobs), c)) == Join(c, prior, blobs);
    forall k | 0 <= k < |files| && Has(prior, files[k].meta.id)
      ensures Lookup(blobs, c, files[k].meta.id) == files[k].source
    {
      HasSpec(prior, files[k].meta.id);
      var i :| 0 <= i < |prior| && prior[i].id == files[k].meta.id;
      assert Join(c, prior, blobs)[i] == File(prior[i], Lookup(blobs, c, prior[i].id));
    }
  }

  /** One operation on the split store is that operation on the plain one. */
  method OnSplit(store: PendingStore, op: Operation, ghost source: Sources) returns (seen: Seen)
    requires store.Valid() && AllFrom(store.Plain(), source) && Faithful(op, source)
    modifies store
    ensures store.Valid()
    ensures (store.Plain(), seen) == Perform(old(store.Plain()), op)
  {
    match op
    case WriteOp(c, files, expected, uuid) =>
      SourcesAgree(store.files, store.blobs, store.deleted, c, files, source);
      var r := store.WriteAttachmentDraft(c, files, expected, uuid);
      seen := Outcome(r);
    case DiscardOp(c, ids, uuid) =>
      var r := store.DiscardAcceptedFiles(c, ids, uuid);
      seen := Discarded(r);
    case EraseOp(c) =>
      store.EraseConversation(c);
      seen := Erased;
    case ReadOp(c) =>
      var r := store.ReadAttachmentDraft(c);
      seen := if r.NoDraft? then Read(None) else if r.Found? then Read(Some(r.draft)) else Failed;
  }

  /** The replies of a whole run on the split store are those of the plain one. */
  method RunSplit(ops: seq<Operation>, ghost source: Sources) returns (seen: seq<Seen>)
    requires forall i :: 0 <= i < |ops| ==> Faithful(ops[i], source)
    ensures seen == Views(Memory([], {}), ops)
  {
    var store := new PendingStore();
    ghost var start := Memory([], {});
    seen := [];
    var i := 0;
    while i < |ops|
      invariant 0 <= i <= |ops| && store.Valid() && fresh(store)
      invariant store.Plain() == Run(start, ops[..i]) && AllFrom(store.Plain(), source)
      invariant seen == Views(start, ops[..i])
    {
      assert ops[..i + 1][..i] == ops[..i];
      PerformFrom(store.Plain(), ops[i], source);
      var one := OnSplit(store, ops[i], source);
      seen := seen + [one];
      i := i + 1;
    }
    assert ops[..i] == ops;
  }

  /** The in-memory store gives the same replies on every run, whatever the sources. */
  method RunInMemory(ops: seq<Operation>) returns (seen: seq<Seen>)
    ensures seen == Views(Memory([], {}), ops)
  {
    var store := new InMemoryStore();
    ghost var start := Memory([], {});
    seen := [];
    var i := 0;
    while i < |ops|
      invariant 0 <= i <= |ops| && fresh(store)
      invariant store.State() == Run(start, ops[..i]) && seen == Views(start, ops[..i])
    {
      assert ops[..i + 1][..i] == ops[..i];
      var one: Seen;
      match ops[i] {
        case WriteOp(c, files, expected, uuid) =>
          var r := store.WriteAttachmentDraft(c, files, expected, uuid);
          one := Outcome(r);
        case DiscardOp(c, ids, uuid) =>
          var r := store.DiscardAcceptedFiles(c, ids, uuid);
          one := Discarded(r);
        case EraseOp(c) =>
          store.EraseConversation(c);
          one := Erased;
        case ReadOp(c) =>
          var draft := Get(store.drafts, c);
          one := Read(if draft.Some? then Some(draft.value.value) else None);
      }
      seen := seen + [one];
      i := i + 1;
    }
    assert ops[..i] == ops;
  }
}
