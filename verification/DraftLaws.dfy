/** What each answer of the plain attachment store means (src/attachments/draft-store.ts:73-123). */
module DraftLaws {
  import opened Options
  import opened Tables
  import opened AttachmentDrafts
  import SplitRefinement

  /** The saved draft of a conversation. */
  function SavedDraft(m: Memory, c: nat): Option<Draft> {
    if Get(m.drafts, c).Some? then Some(Get(m.drafts, c).value.value) else None
  }

  function VersionOf(d: Option<Draft>): Option<nat> { if d.Some? then Some(d.value.version) else None }

  /** Every conversation but one reads as before. */
  ghost predicate OthersKept(m: Memory, after: Memory, c: nat) {
    forall d :: d != c ==> SavedDraft(after, d) == SavedDraft(m, d)
  }

  lemma {:induction false} PutReads(m: Memory, c: nat, draft: Draft)
    ensures var after := m.(drafts := Put(m.drafts, DraftRow(c, draft)));
            && SavedDraft(after, c) == Some(draft) && OthersKept(m, after, c)
            && Get(after.drafts, c) == Some(DraftRow(c, draft))
  {
    forall d ensures Get(Put(m.drafts, DraftRow(c, draft)), d) ==
                     if d == c then Some(DraftRow(c, draft)) else Get(m.drafts, d)
    {
      GetPut(m.drafts, DraftRow(c, draft), d);
    }
  }

  lemma {:induction false} WithoutReads(m: Memory, c: nat, deleted: set<nat>)
    ensures var after := Memory(Without(m.drafts, c), deleted);
            SavedDraft(after, c) == None && OthersKept(m, after, c)
  {
    forall d ensures Get(Without(m.drafts, c), d) == if d == c then None else Get(m.drafts, d) {
      GetWithout(m.drafts, c, d);
    }
  }

  // ---------------------------------------------------------------- acceptable selections

  lemma {:induction false} SizeAdds(a: seq<Meta>, b: seq<Meta>)
    ensures Size(a + b) == Size(a) + Size(b) && Size([]) == 0
    ensures |b| == 1 ==> Size(b) == b[0].selection.size
    decreases |b|
  {
    if b == [] {
      assert a + b == a;
    } else {
      SizeAdds(a, b[..|b| - 1]);
      assert (a + b)[..|a + b| - 1] == a + b[..|b| - 1];
      if |b| == 1 { assert b[..0] == []; }
    }
  }

  /** A proper file of the conversation. */
  predicate Belongs(f: Meta, c: nat) { f.selection.proper && f.selection.conversation == c }

  /** No two files share an identity, an upload key or a fingerprint. */
  predicate AllDiffer(files: seq<Meta>) {
    forall i, j :: 0 <= i < j < |files| ==>
      && files[i].id != files[j].id && files[i].selection.key != files[j].selection.key
      && files[i].selection.fingerprint != files[j].selection.fingerprint
  }

  predicate WellFormed(files: seq<Meta>, c: nat) {
    (forall i :: 0 <= i < |files| ==> Belongs(files[i], c)) && AllDiffer(files)
  }

  predicate Acceptable(files: seq<Meta>, c: nat) {
    |files| <= FILES && WellFormed(files, c) && Size(files) <= FILE_BYTES
  }

  lemma {:induction false} SizeGrows(files: seq<Meta>, i: nat)
    requires i <= |files|
    ensures Size(files[..i]) <= Size(files)
  {
    SizeAdds(files[..i], files[i..]);
    assert files == files[..i] + files[i..];
  }

  lemma {:induction false} WalkIsAcceptable(files: seq<Meta>, c: nat)
    ensures Walk(files, c) == Parses <==> WellFormed(files, c) && Size(files) <= FILE_BYTES
  {
    if files != [] {
      var last := |files| - 1;
      WalkIsAcceptable(files[..last], c);
      SizeGrows(files, last);
      if WellFormed(files, c) {
        assert !HasTwin(files[..last], files[last]);
      }
      if Walk(files, c) == Parses {
        forall i, j | 0 <= i < j < |files| ensures !Twin(files[i], files[j]) {
          if j == last {
            assert !Twin(files[..last][i], files[last]);
          } else {
            assert files[i] == files[..last][i] && files[j] == files[..last][j];
          }
        }
        forall i | 0 <= i < |files| ensures Belongs(files[i], c) {
          if i < last { assert files[i] == files[..last][i]; }
        }
      }
    }
  }

  lemma {:induction false} FirstProblem(files: seq<Meta>, c: nat) returns (k: nat)
    requires Walk(files, c) != Parses
    ensures k < |files| && Walk(files[..k], c) == Parses
    ensures Walk(files, c) == Walk(files[..k + 1], c) != Parses
  {
    var last := |files| - 1;
    if Walk(files[..last], c) == Parses {
      k := last;
      assert files[..k + 1] == files;
    } else {
      k := FirstProblem(files[..last], c);
      assert files[..last][..k] == files[..k] && files[..last][..k + 1] == files[..k + 1];
    }
  }

  /** The verdict: too many files, or the first file that is foreign, improper or repeated, or goes over the bytes. */
  lemma {:induction false} VerdictIsExact(files: seq<Meta>, c: nat) returns (k: nat)
    ensures Parse(files, c) == Parses <==> Acceptable(files, c)
    ensures |files| > FILES ==> Parse(files, c) == TooLarge
    ensures |files| <= FILES && !Acceptable(files, c) ==>
              && k < |files| && Acceptable(files[..k], c) && !Acceptable(files[..k + 1], c)
              && Parse(files, c) == if WellFormed(files[..k + 1], c) then TooLarge else Malformed
  {
    WalkIsAcceptable(files, c);
    k := 0;
    if |files| <= FILES && Walk(files, c) != Parses {
      k := FirstProblem(files, c);
      WalkIsAcceptable(files[..k], c);
      WalkIsAcceptable(files[..k + 1], c);
      var some := files[..k + 1];
      assert some[..k] == files[..k];
      if WellFormed(some, c) { assert !HasTwin(some[..k], some[k]) && Belongs(some[k], c); }
      if Belongs(some[k], c) && !HasTwin(some[..k], some[k]) { NoTwinDiffers(some, c); }
    }
  }

  lemma {:induction false} NoTwinDiffers(some: seq<Meta>, c: nat)
    requires some != [] && Belongs(some[|some| - 1], c) && !HasTwin(some[..|some| - 1], some[|some| - 1])
    requires WellFormed(some[..|some| - 1], c)
    ensures WellFormed(some, c)
  {
    var k := |some| - 1;
    forall i, j | 0 <= i < j < |some| ensures !Twin(some[i], some[j]) {
      if j == k {
        assert !Twin(some[..k][i], some[k]);
      } else {
        assert some[i] == some[..k][i] && some[j] == some[..k][j];
      }
    }
    forall i | 0 <= i < |some| ensures Belongs(some[i], c) {
      if i < k { assert some[i] == some[..k][i]; }
    }
  }

  // ---------------------------------------------------------------- writing

  /** A file whose identity is saved keeps its source and what describes it; a reference may only be added. */
  predicate KeepsIdentity(saved: seq<File>, f: File) {
    forall i :: 0 <= i < |saved| && saved[i].meta.id == f.meta.id ==>
      && saved[i].source == f.source && saved[i].meta.selection == f.meta.selection
      && (saved[i].meta.reference.None? || saved[i].meta.reference == f.meta.reference)
  }

  predicate KeepsIdentities(saved: seq<File>, files: seq<File>) {
    forall j :: 0 <= j < |files| ==> KeepsIdentity(saved, files[j])
  }

  predicate IdsDiffer(files: seq<File>) { forall i, j :: 0 <= i < j < |files| ==> files[i].meta.id != files[j].meta.id }

  function FilesOf(d: Option<Draft>): seq<File> { if d.Some? then d.value.files else [] }

  lemma {:induction false} SameFileIsKept(saved: seq<File>, f: File)
    requires IdsDiffer(saved)
    ensures SameFile(saved, f) <==> KeepsIdentity(saved, f)
  {
    FindSpec(saved, f.meta.id);
    var found := Find(saved, f.meta.id);
    if found.Some? {
      var i :| 0 <= i < |saved| && saved[i] == found.value;
      assert forall k :: 0 <= k < |saved| && saved[k].meta.id == f.meta.id ==> k == i;
    }
  }

  lemma {:induction false} SameIsKept(saved: seq<File>, files: seq<File>)
    requires IdsDiffer(saved)
    ensures AllSame(saved, files) <==> KeepsIdentities(saved, files)
  {
    forall j | 0 <= j < |files| ensures SameFile(saved, files[j]) <==> KeepsIdentity(saved, files[j]) {
      SameFileIsKept(saved, files[j]);
    }
  }

  /** The write passes the checks before the budgets: not erased, acceptable and against the current version. */
  predicate Timely(m: Memory, c: nat, files: seq<File>, expected: Option<nat>) {
    c !in m.deleted && Acceptable(Metas(files), c) && VersionOf(SavedDraft(m, c)) == expected
  }

  /** The other conversations' files and these stay within the budgets. */
  predicate HasRoom(m: Memory, c: nat, files: seq<File>) {
    var others := Without(m.drafts, c);
    && |others| + (if files == [] then 0 else 1) <= CONVERSATIONS
    && Count(others) + |files| <= FILES && Bytes(others) + Size(Metas(files)) <= FILE_BYTES
  }

  /** When each answer of a write is given. */
  ghost predicate WriteMeans(m: Memory, c: nat, files: seq<File>, expected: Option<nat>, r: Saving) {
    var kept := KeepsIdentities(FilesOf(SavedDraft(m, c)), files);
    && (r.Deleted? <==> c in m.deleted)
    && (r.Unparsed? <==> c !in m.deleted && !Acceptable(Metas(files), c))
    && (r.Conflict? <==>
          c !in m.deleted && Acceptable(Metas(files), c) && VersionOf(SavedDraft(m, c)) != expected)
    && (r.Capacity? <==> Timely(m, c, files, expected) && !HasRoom(m, c, files))
    && (r.IdentityChanged? <==> Timely(m, c, files, expected) && HasRoom(m, c, files) && !kept)
    && (r.Saved? <==> Timely(m, c, files, expected) && HasRoom(m, c, files) && kept)
  }

  /** What a write leaves: the files under their new version, counted exactly, and everything else as it was. */
  ghost predicate WriteLeaves(m: Memory, c: nat, files: seq<File>, uuid: nat, after: Memory, r: Saving) {
    && (r.Saved? ==>
          && r.draft == (if files == [] then None else Some(Draft(uuid, files)))
          && SavedDraft(after, c) == r.draft && after.deleted == m.deleted && OthersKept(m, after, c)
          && (files != [] ==> Get(after.drafts, c) == Some(Row(c, Size(Metas(files)), |files|, Draft(uuid, files)))))
    && (!r.Saved? ==> after == m)
  }

  /** Every answer of a write has its exact condition. */
  lemma {:induction false} WritesAreExact(m: Memory, c: nat, files: seq<File>, expected: Option<nat>, uuid: nat)
    requires IdsDiffer(FilesOf(SavedDraft(m, c)))
    ensures WriteMeans(m, c, files, expected, Write(m, c, files, expected, uuid).1)
  {
    var k := VerdictIsExact(Metas(files), c);
    SameIsKept(FilesOf(SavedDraft(m, c)), files);
    ChecksInOrder(m, c, files, expected, uuid);
  }

  lemma {:induction false} ChecksInOrder(m: Memory, c: nat, files: seq<File>, expected: Option<nat>, uuid: nat)
    requires Parse(Metas(files), c) == Parses <==> Acceptable(Metas(files), c)
    requires AllSame(FilesOf(SavedDraft(m, c)), files) <==> KeepsIdentities(FilesOf(SavedDraft(m, c)), files)
    ensures WriteMeans(m, c, files, expected, Write(m, c, files, expected, uuid).1)
  {
    assert OldFiles(Get(m.drafts, c)) == FilesOf(SavedDraft(m, c));
    assert DraftVersion(Get(m.drafts, c)) == VersionOf(SavedDraft(m, c));
    assert HasRoom(m, c, files) <==> Fits(Without(m.drafts, c), |files|, Size(Metas(files)));
  }

  lemma {:induction false} WritesLeave(m: Memory, c: nat, files: seq<File>, expected: Option<nat>, uuid: nat)
    ensures var (after, r) := Write(m, c, files, expected, uuid);
            WriteLeaves(m, c, files, uuid, after, r)
  {
    PutReads(m, c, Draft(uuid, files));
    WithoutReads(m, c, m.deleted);
  }

  // ---------------------------------------------------------------- discarding what was accepted

  /** The part's files appear in the whole in the same order. */
  ghost predicate InOrder(files: seq<File>, part: seq<File>) {
    forall i, j {:trigger part[i], part[j]} :: 0 <= i < j < |part| ==> Ordered(files, part[i], part[j])
  }

  ghost predicate Ordered(files: seq<File>, f: File, g: File) {
    exists a, b {:trigger files[a], files[b]} :: 0 <= a < b < |files| && files[a] == f && files[b] == g
  }

  /** Exactly the files whose identity is not named, in their order. */
  ghost predicate Remaining(files: seq<File>, ids: seq<nat>, rest: seq<File>) {
    (forall f :: f in rest <==> f in files && f.meta.id !in ids) && InOrder(files, rest)
  }

  lemma {:induction false} KeptFilesMembers(files: seq<File>, ids: set<nat>)
    ensures forall f :: f in KeptFiles(files, ids) <==> f in files && f.meta.id !in ids
  {
    if files != [] {
      var init, f := files[..|files| - 1], files[|files| - 1];
      KeptFilesMembers(init, ids);
      assert files == init + [f];
    }
  }

  lemma {:induction false} OrderedLater(init: seq<File>, last: File, f: File, g: File)
    ensures Ordered(init, f, g) ==> Ordered(init + [last], f, g)
    ensures f in init ==> Ordered(init + [last], f, last)
  {
    var all := init + [last];
    if Ordered(init, f, g) {
      var a, b :| 0 <= a < b < |init| && init[a] == f && init[b] == g;
      assert all[a] == f && all[b] == g;
    }
    if f in init {
      var a :| 0 <= a < |init| && init[a] == f;
      assert all[a] == f && all[|init|] == last;
    }
  }

  lemma {:induction false} KeptFilesInOrder(files: seq<File>, ids: set<nat>)
    ensures InOrder(files, KeptFiles(files, ids))
  {
    if files != [] {
      var init, f := files[..|files| - 1], files[|files| - 1];
      KeptFilesInOrder(init, ids);
      KeptFilesMembers(init, ids);
      assert files == init + [f];
      var some, rest := KeptFiles(init, ids), KeptFiles(files, ids);
      forall i, j | 0 <= i < j < |rest| ensures Ordered(files, rest[i], rest[j]) {
        assert rest[i] == some[i] && some[i] in init;
        OrderedLater(init, f, rest[i], rest[j]);
        if j < |some| { assert rest[j] == some[j]; } else { assert rest[j] == f; }
      }
    }
  }

  lemma {:induction false} AllButLast(files: seq<File>, ids: set<nat>)
    requires files != []
    ensures (forall f :: f in files ==> f.meta.id !in ids) <==>
              && (forall f :: f in files[..|files| - 1] ==> f.meta.id !in ids)
              && files[|files| - 1].meta.id !in ids
  {
    assert files == files[..|files| - 1] + [files[|files| - 1]];
  }

  lemma {:induction false} KeptFilesAll(files: seq<File>, ids: set<nat>)
    ensures |KeptFiles(files, ids)| <= |files|
    ensures |KeptFiles(files, ids)| == |files| <==> forall f :: f in files ==> f.meta.id !in ids
    ensures |KeptFiles(files, ids)| == |files| ==> KeptFiles(files, ids) == files
  {
    if files != [] {
      var init, f := files[..|files| - 1], files[|files| - 1];
      KeptFilesAll(init, ids);
      AllButLast(files, ids);
      assert files == init + [f];
    }
  }

  lemma {:induction false} KeptIsRemaining(files: seq<File>, ids: set<nat>, named: seq<nat>)
    requires ids == set id | id in named
    ensures Remaining(files, named, KeptFiles(files, ids))
  {
    KeptFilesMembers(files, ids);
    KeptFilesInOrder(files, ids);
  }

  /** What each answer of a cleanup means: both versions, and exactly the named files gone. */
  ghost predicate DiscardMeans(m: Memory, c: nat, ids: seq<nat>, uuid: nat, after: Memory, r: Cleanup) {
    var files, left := FilesOf(SavedDraft(m, c)), FilesOf(SavedDraft(after, c));
    && (r.InvalidIds? <==> |ids| > FILES || exists i, j :: 0 <= i < j < |ids| && ids[i] == ids[j])
    && !r.Corrupt? && after.deleted == m.deleted && OthersKept(m, after, c)
    && (r.InvalidIds? ==> after == m)
    && (r.Cleaned? ==>
          && r.previous == VersionOf(SavedDraft(m, c)) && r.version == VersionOf(SavedDraft(after, c))
          && Remaining(files, ids, left)
          && (if forall f :: f in files ==> f.meta.id !in ids then after == m
              else r.version == if left == [] then None else Some(uuid)))
  }

  lemma {:induction false} NothingDiscarded(m: Memory, c: nat, ids: seq<nat>, uuid: nat, r: Cleanup)
    requires r == (if !ValidIds(ids) then InvalidIds
                   else Cleaned(VersionOf(SavedDraft(m, c)), VersionOf(SavedDraft(m, c))))
    requires ValidIds(ids) ==> forall f :: f in FilesOf(SavedDraft(m, c)) ==> f.meta.id !in ids
    ensures DiscardMeans(m, c, ids, uuid, m, r)
  {
    var files := FilesOf(SavedDraft(m, c));
    if ValidIds(ids) {
      KeptFilesAll(files, set id | id in ids);
      KeptIsRemaining(files, (set id | id in ids), ids);
    }
  }

  lemma {:induction false} SomeDiscarded(
    m: Memory, c: nat, ids: seq<nat>, uuid: nat, after: Memory, rest: seq<File>)
    requires ValidIds(ids) && SavedDraft(m, c).Some? && Remaining(FilesOf(SavedDraft(m, c)), ids, rest)
    requires after.deleted == m.deleted && OthersKept(m, after, c)
    requires SavedDraft(after, c) == if rest == [] then None else Some(Draft(uuid, rest))
    requires exists f :: f in FilesOf(SavedDraft(m, c)) && f.meta.id in ids
    ensures DiscardMeans(m, c, ids, uuid, after,
                         Cleaned(VersionOf(SavedDraft(m, c)), if rest == [] then None else Some(uuid)))
  {}

  /** Every answer of a cleanup has its exact meaning. */
  lemma {:induction false} DiscardsAreExact(m: Memory, c: nat, ids: seq<nat>, uuid: nat)
    ensures DiscardMeans(m, c, ids, uuid, Discard(m, c, ids, uuid).0, Discard(m, c, ids, uuid).1)
  {
    var files := FilesOf(SavedDraft(m, c));
    var named := set id | id in ids;
    var rest := KeptFiles(files, named);
    var (after, r) := Discard(m, c, ids, uuid);
    KeptFilesAll(files, named);
    if !ValidIds(ids) || |rest| == |files| {
      assert after == m;
      NothingDiscarded(m, c, ids, uuid, r);
    } else {
      KeptIsRemaining(files, named, ids);
      PutReads(m, c, Draft(uuid, rest));
      WithoutReads(m, c, m.deleted);
      SomeDiscarded(m, c, ids, uuid, after, rest);
    }
  }

  /** An erased conversation has no draft, takes none, and leaves the others alone. */
  lemma {:induction false} EraseIsFinal(m: Memory, c: nat, files: seq<File>, expected: Option<nat>, uuid: nat)
    ensures var after := Erase(m, c);
            && SavedDraft(after, c).None? && OthersKept(m, after, c) && after.deleted == m.deleted + {c}
            && Write(after, c, files, expected, uuid) == (after, Deleted)
  {
    WithoutReads(m, c, m.deleted + {c});
  }

  // ---------------------------------------------------------------- over whole runs

  lemma {:induction false} AcceptableDiffer(files: seq<File>, c: nat)
    requires Acceptable(Metas(files), c)
    ensures IdsDiffer(files)
  {
    MetasSpec(files);
    forall i, j | 0 <= i < j < |files| ensures files[i].meta.id != files[j].meta.id {
      assert Metas(files)[i].id != Metas(files)[j].id;
    }
  }

  lemma {:induction false} PartDiffers(files: seq<File>, part: seq<File>)
    requires IdsDiffer(files) && InOrder(files, part)
    ensures IdsDiffer(part)
  {
    forall i, j | 0 <= i < j < |part| ensures part[i].meta.id != part[j].meta.id {
      assert Ordered(files, part[i], part[j]);
    }
  }

  lemma {:induction false} PerformDiffers(m: Memory, op: SplitRefinement.Operation, c: nat)
    requires IdsDiffer(FilesOf(SavedDraft(m, c))) && IdsDiffer(FilesOf(SavedDraft(m, op.c)))
    ensures IdsDiffer(FilesOf(SavedDraft(SplitRefinement.Perform(m, op).0, c)))
  {
    match op
    case WriteOp(d, files, expected, uuid) =>
      WritesAreExact(m, d, files, expected, uuid);
      WritesLeave(m, d, files, expected, uuid);
      if Write(m, d, files, expected, uuid).1.Saved? { AcceptableDiffer(files, d); }
    case DiscardOp(d, ids, uuid) =>
      DiscardsAreExact(m, d, ids, uuid);
      if Discard(m, d, ids, uuid).1.Cleaned? {
        PartDiffers(FilesOf(SavedDraft(m, d)), FilesOf(SavedDraft(Discard(m, d, ids, uuid).0, d)));
      }
    case EraseOp(d) => EraseIsFinal(m, d, [], None, 0);
    case ReadOp(_) =>
  }

  /** In every run the saved files of a conversation have different identities, so every write's answer is exact. */
  lemma {:induction false} RunWritesAreExact(
    ops: seq<SplitRefinement.Operation>, c: nat, files: seq<File>, expected: Option<nat>, uuid: nat)
    ensures var m := SplitRefinement.Run(Memory([], {}), ops);
            && IdsDiffer(FilesOf(SavedDraft(m, c)))
            && WriteMeans(m, c, files, expected, Write(m, c, files, expected, uuid).1)
  {
    RunDiffers(ops, c);
    WritesAreExact(SplitRefinement.Run(Memory([], {}), ops), c, files, expected, uuid);
  }

  lemma {:induction false} RunDiffers(ops: seq<SplitRefinement.Operation>, c: nat)
    ensures IdsDiffer(FilesOf(SavedDraft(SplitRefinement.Run(Memory([], {}), ops), c)))
  {
    if ops != [] {
      var before, op := ops[..|ops| - 1], ops[|ops| - 1];
      RunDiffers(before, c);
      RunDiffers(before, op.c);
      PerformDiffers(SplitRefinement.Run(Memory([], {}), before), op, c);
    }
  }
}
