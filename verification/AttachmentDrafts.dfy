/** Draft attachments and the plain store that specifies them (src/attachments/draft-store.ts). */
module AttachmentDrafts {
  import opened Options
  import opened Tables

  const CONVERSATIONS := 32
  const FILES := 64
  const FILE_BYTES := 64 * 1024 * 1024

  /** `proper` is the verdict of the field validators on identity, metadata and reference. */
  datatype Selection = Selection(conversation: nat, key: nat, fingerprint: nat, size: nat, about: nat, proper: bool)
  datatype Meta = Meta(id: nat, selection: Selection, reference: Option<nat>)
  datatype Source = Source(size: nat, body: nat)
  datatype File = File(meta: Meta, source: Source)

  datatype Draft = Draft(version: nat, files: seq<File>)

  datatype Parsed = Parses | Malformed | TooLarge

  datatype Saving =
    | Deleted
    | Unparsed(parsed: Parsed)
    | WrongBytes
    | Conflict
    | Capacity
    | IdentityChanged
    | ConstraintError
    | Saved(draft: Option<Draft>)

  datatype Cleanup = InvalidIds | Corrupt | Cleaned(previous: Option<nat>, version: Option<nat>)

  function Metas(files: seq<File>): seq<Meta> {
    if files == [] then [] else Metas(files[..|files| - 1]) + [files[|files| - 1].meta]
  }

  function Size(files: seq<Meta>): nat {
    if files == [] then 0 else Size(files[..|files| - 1]) + files[|files| - 1].selection.size
  }

  predicate Has(files: seq<Meta>, id: nat) {
    files != [] && (files[|files| - 1].id == id || Has(files[..|files| - 1], id))
  }

  lemma {:induction false} HasSpec(files: seq<Meta>, id: nat)
    ensures Has(files, id) <==> exists i :: 0 <= i < |files| && files[i].id == id
  {
    if files != [] { HasSpec(files[..|files| - 1], id); }
  }

  /** The saved file with an identity, as a map built from the files gives it. */
  function FindMeta(files: seq<Meta>, id: nat): Option<Meta> {
    if files == [] then None
    else if files[|files| - 1].id == id then Some(files[|files| - 1]) else FindMeta(files[..|files| - 1], id)
  }

  lemma {:induction false} FindMetaSpec(files: seq<Meta>, id: nat)
    ensures FindMeta(files, id).Some? <==> Has(files, id)
    ensures FindMeta(files, id).Some? ==> FindMeta(files, id).value in files && FindMeta(files, id).value.id == id
  {
    if files != [] { FindMetaSpec(files[..|files| - 1], id); }
  }

  /** Two files share an identity, an upload key or a fingerprint. */
  predicate Twin(a: Meta, b: Meta) {
    a.id == b.id || a.selection.key == b.selection.key || a.selection.fingerprint == b.selection.fingerprint
  }

  predicate HasTwin(files: seq<Meta>, f: Meta) { exists i :: 0 <= i < |files| && Twin(files[i], f) }

  /** The first problem that walking the files meets. */
  function Walk(files: seq<Meta>, c: nat): Parsed {
    if files == [] then Parses
    else
      var earlier, f := Walk(files[..|files| - 1], c), files[|files| - 1];
      if earlier != Parses then earlier
      else if !f.selection.proper || f.selection.conversation != c then Malformed
      else if HasTwin(files[..|files| - 1], f) then Malformed
      else if Size(files) > FILE_BYTES then TooLarge
      else Parses
  }

  function Parse(files: seq<Meta>, c: nat): Parsed { if |files| > FILES then TooLarge else Walk(files, c) }

  /** `parseAttachmentDraftFiles` (src/attachments/draft-store.ts:73-85), with its sets and its counter. */
  method ParseFiles(files: seq<Meta>, c: nat) returns (parsed: Parsed)
    ensures parsed == Parse(files, c)
  {
    if |files| > FILES { return TooLarge; }
    var ids: set<nat>, keys: set<nat>, fingerprints: set<nat>, bytes, i := {}, {}, {}, 0, 0;
    while i < |files|
      invariant 0 <= i <= |files| && Walk(files[..i], c) == Parses && bytes == Size(files[..i])
      invariant ids == set k | 0 <= k < i :: files[k].id
      invariant keys == set k | 0 <= k < i :: files[k].selection.key
      invariant fingerprints == set k | 0 <= k < i :: files[k].selection.fingerprint
    {
      var f := files[i];
      WalkPrefix(files, i + 1, c);
      assert files[..i + 1][..i] == files[..i];
      if !f.selection.proper || f.selection.conversation != c { return Malformed; }
      if f.id in ids || f.selection.key in keys || f.selection.fingerprint in fingerprints {
        assert HasTwin(files[..i], f);
        return Malformed;
      }
      assert !HasTwin(files[..i], f);
      ids, keys, fingerprints := ids + {f.id}, keys + {f.selection.key}, fingerprints + {f.selection.fingerprint};
      bytes := bytes + f.selection.size;
      if bytes > FILE_BYTES { return TooLarge; }
      i := i + 1;
    }
    assert files[..i] == files;
    parsed := Parses;
  }

  lemma {:induction false} WalkPrefix(files: seq<Meta>, i: nat, c: nat)
    requires i <= |files|
    ensures Walk(files[..i], c) != Parses ==> Walk(files, c) == Walk(files[..i], c)
    decreases |files| - i
  {
    if i < |files| {
      assert files[..i + 1][..i] == files[..i];
      WalkPrefix(files, i + 1, c);
    } else {
      assert files[..i] == files;
    }
  }

  lemma {:induction false} ParsedIdsDiffer(files: seq<Meta>, c: nat, i: nat, j: nat)
    requires Walk(files, c) == Parses && i < j < |files|
    ensures files[i].id != files[j].id
  {
    if j == |files| - 1 {
      assert !Twin(files[..|files| - 1][i], files[j]);
    } else {
      ParsedIdsDiffer(files[..|files| - 1], c, i, j);
    }
  }

  /** The files whose identity is not in a set. */
  function Kept(files: seq<Meta>, ids: set<nat>): seq<Meta> {
    if files == [] then []
    else Kept(files[..|files| - 1], ids) + (if files[|files| - 1].id in ids then [] else [files[|files| - 1]])
  }

  function KeptFiles(files: seq<File>, ids: set<nat>): seq<File> {
    if files == [] then []
    else KeptFiles(files[..|files| - 1], ids) + (if files[|files| - 1].meta.id in ids then [] else [files[|files| - 1]])
  }

  lemma {:induction false} KeptMembers(files: seq<Meta>, ids: set<nat>)
    ensures |Kept(files, ids)| <= |files| && Size(Kept(files, ids)) <= Size(files)
    ensures forall m :: m in Kept(files, ids) <==> m in files && m.id !in ids
  {
    if files != [] {
      var init, last := files[..|files| - 1], files[|files| - 1];
      KeptMembers(init, ids);
      assert files == init + [last];
      var k := Kept(init, ids);
      assert (k + [last])[..|k|] == k;
      assert k + [] == k;
    }
  }

  lemma {:induction false} NoNewTwin(files: seq<Meta>, ids: set<nat>, f: Meta)
    requires !HasTwin(files, f)
    ensures !HasTwin(Kept(files, ids), f)
  {
    KeptMembers(files, ids);
    var k := Kept(files, ids);
    forall i | 0 <= i < |k| ensures !Twin(k[i], f) {
      assert k[i] in k;
      var j :| 0 <= j < |files| && files[j] == k[i];
    }
  }

  /** Part of an acceptable selection is acceptable. */
  lemma {:induction false} KeptParses(files: seq<Meta>, ids: set<nat>, c: nat)
    requires Walk(files, c) == Parses
    ensures Walk(Kept(files, ids), c) == Parses
  {
    if files != [] {
      var init, last := files[..|files| - 1], files[|files| - 1];
      KeptParses(init, ids, c);
      var k := Kept(init, ids);
      if last.id in ids {
        assert k + [] == k;
      } else {
        assert (k + [last])[..|k|] == k;
        NoNewTwin(init, ids, last);
        KeptMembers(init, ids);
      }
    }
  }

  lemma {:induction false} MetasSpec(files: seq<File>)
    ensures |Metas(files)| == |files| && forall i :: 0 <= i < |files| ==> Metas(files)[i] == files[i].meta
  {
    if files != [] { MetasSpec(files[..|files| - 1]); }
  }

  // ---------------------------------------------------------------- the plain store

  /** The store as one map from conversations to drafts, and the erased conversations. */
  datatype Memory = Memory(drafts: Table<Draft>, deleted: set<nat>)

  function DraftRow(c: nat, draft: Draft): Row<Draft> {
    Row(c, Size(Metas(draft.files)), |draft.files|, draft)
  }

  function DraftVersion(row: Option<Row<Draft>>): Option<nat> {
    if row.None? then None else Some(row.value.value.version)
  }

  /** Whether writing `count` files of `bytes` beside the other rows stays within the budgets. */
  predicate Fits<T>(others: Table<T>, count: nat, bytes: nat) {
    && |others| + (if count > 0 then 1 else 0) <= CONVERSATIONS
    && Count(others) + count <= FILES
    && Bytes(others) + bytes <= FILE_BYTES
  }

  function Find(files: seq<File>, id: nat): Option<File> {
    if files == [] then None else if files[0].meta.id == id then Some(files[0]) else Find(files[1..], id)
  }

  lemma {:induction false} FindSpec(files: seq<File>, id: nat)
    ensures Find(files, id).None? <==> forall i :: 0 <= i < |files| ==> files[i].meta.id != id
    ensures Find(files, id).Some? ==> Find(files, id).value in files && Find(files, id).value.meta.id == id
  {
    if files != [] {
      FindSpec(files[1..], id);
      assert files == [files[0]] + files[1..];
    }
  }

  function OldFiles(row: Option<Row<Draft>>): seq<File> { if row.None? then [] else row.value.value.files }

  /** A saved file may only gain a reference. */
  predicate Unchanged(saved: Meta, next: Meta) {
    saved.selection == next.selection && (saved.reference.Some? ==> saved.reference == next.reference)
  }

  predicate SameFile(prior: seq<File>, f: File) {
    var saved := Find(prior, f.meta.id);
    saved.Some? ==> saved.value.source == f.source && Unchanged(saved.value.meta, f.meta)
  }

  predicate AllSame(prior: seq<File>, files: seq<File>) { forall i :: 0 <= i < |files| ==> SameFile(prior, files[i]) }

  /** `writeAttachmentDraft` of the in-memory store (src/attachments/draft-store.ts:93-111). */
  function Write(m: Memory, c: nat, files: seq<File>, expected: Option<nat>, uuid: nat): (Memory, Saving) {
    var prior, others := Get(m.drafts, c), Without(m.drafts, c);
    if c in m.deleted then (m, Deleted)
    else if Parse(Metas(files), c) != Parses then (m, Unparsed(Parse(Metas(files), c)))
    else if DraftVersion(prior) != expected then (m, Conflict)
    else if !Fits(others, |files|, Size(Metas(files))) then (m, Capacity)
    else if !AllSame(OldFiles(prior), files) then (m, IdentityChanged)
    else if files == [] then (m.(drafts := others), Saved(None))
    else (m.(drafts := Put(m.drafts, DraftRow(c, Draft(uuid, files)))), Saved(Some(Draft(uuid, files))))
  }

  function Erase(m: Memory, c: nat): Memory { Memory(Without(m.drafts, c), m.deleted + {c}) }

  predicate ValidIds(ids: seq<nat>) { |ids| <= FILES && forall i, j :: 0 <= i < j < |ids| ==> ids[i] != ids[j] }

  /** `discardAcceptedFiles` of the in-memory store (src/attachments/draft-store.ts:113-123). */
  function Discard(m: Memory, c: nat, ids: seq<nat>, uuid: nat): (Memory, Cleanup) {
    var prior := Get(m.drafts, c);
    if !ValidIds(ids) then (m, InvalidIds)
    else if prior.None? then (m, Cleaned(None, None))
    else
      var version, files := Some(prior.value.value.version), KeptFiles(prior.value.value.files, set id | id in ids);
      if |files| == |prior.value.value.files| then (m, Cleaned(version, version))
      else if files == [] then (m.(drafts := Without(m.drafts, c)), Cleaned(version, None))
      else (m.(drafts := Put(m.drafts, DraftRow(c, Draft(uuid, files)))), Cleaned(version, Some(uuid)))
  }

  /** The in-memory store itself, with its map, its set and its loops. */
  class InMemoryStore {
    var drafts: Table<Draft>
    var deleted: set<nat>

    constructor ()
      ensures State() == Memory([], {})
    {
      drafts, deleted := [], {};
    }

    function State(): Memory reads this { Memory(drafts, deleted) }

    method WriteAttachmentDraft(c: nat, files: seq<File>, expected: Option<nat>, uuid: nat) returns (r: Saving)
      modifies this
      ensures (State(), r) == Write(old(State()), c, files, expected, uuid)
    {
      if c in deleted { return Deleted; }
      var parsed := ParseFiles(Metas(files), c);
      if parsed != Parses { return Unparsed(parsed); }
      var prior := Get(drafts, c);
      if DraftVersion(prior) != expected { return Conflict; }
      var conversations, count, bytes := Others(drafts, c);
      if || conversations + (if |files| > 0 then 1 else 0) > CONVERSATIONS
         || count + |files| > FILES || bytes + Size(Metas(files)) > FILE_BYTES
      {
        return Capacity;
      }
      var i := 0;
      while i < |files|
        invariant 0 <= i <= |files| && forall k :: 0 <= k < i ==> SameFile(OldFiles(prior), files[k])
      {
        if !SameFile(OldFiles(prior), files[i]) { return IdentityChanged; }
        i := i + 1;
      }
      if files == [] {
        drafts := Without(drafts, c);
        return Saved(None);
      }
      drafts := Put(drafts, DraftRow(c, Draft(uuid, files)));
      r := Saved(Some(Draft(uuid, files)));
    }

    method EraseConversation(c: nat)
      modifies this
      ensures State() == Erase(old(State()), c)
    {
      deleted := deleted + {c};
      drafts := Without(drafts, c);
    }

    method DiscardAcceptedFiles(c: nat, ids: seq<nat>, uuid: nat) returns (r: Cleanup)
      modifies this
      ensures (State(), r) == Discard(old(State()), c, ids, uuid)
    {
      if !ValidIds(ids) { return InvalidIds; }
      var prior := Get(drafts, c);
      if prior.None? { return Cleaned(None, None); }
      var draft := prior.value.value;
      var files := KeptFiles(draft.files, set id | id in ids);
      if |files| == |draft.files| { return Cleaned(Some(draft.version), Some(draft.version)); }
      if files != [] {
        drafts := Put(drafts, DraftRow(c, Draft(uuid, files)));
        return Cleaned(Some(draft.version), Some(uuid));
      }
      drafts := Without(drafts, c);
      r := Cleaned(Some(draft.version), None);
    }
  }
}
