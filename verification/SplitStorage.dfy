/** Attachment drafts as metadata rows and separate blob rows (src/browser/indexeddb-pending-store.ts). */
module SplitStorage {
  import opened Options
  import opened Tables
  import opened AttachmentDrafts

  datatype FileRow = FileRow(version: nat, files: seq<Meta>)

  type Blobs = map<(nat, nat), Source>

  // ---------------------------------------------------------------- split attachment rows

  function FileRowOf(c: nat, version: nat, files: seq<Meta>): Row<FileRow> {
    Row(c, Size(files), |files|, FileRow(version, files))
  }

  function MetasOf(row: Option<Row<FileRow>>): seq<Meta> { if row.None? then [] else row.value.value.files }

  function Lookup(blobs: Blobs, c: nat, id: nat): Source { if (c, id) in blobs then blobs[(c, id)] else Source(0, 0) }

  /** The files of a row with their bytes put back. */
  function Join(c: nat, files: seq<Meta>, blobs: Blobs): seq<File> {
    if files == [] then []
    else
      var f := files[|files| - 1];
      Join(c, files[..|files| - 1], blobs) + [File(f, Lookup(blobs, c, f.id))]
  }

  /** The plain map that the metadata rows and the blob rows stand for. */
  function Joined(t: Table<FileRow>, blobs: Blobs): Table<Draft> {
    if t == [] then []
    else
      var r := t[|t| - 1];
      Joined(t[..|t| - 1], blobs)
      + [Row(r.conversation, r.bytes, r.count, Draft(r.value.version, Join(r.conversation, r.value.files, blobs)))]
  }

  function JoinedRow(row: Option<Row<FileRow>>, blobs: Blobs): Option<Row<Draft>> {
    if row.None? then None
    else
      var r := row.value;
      Some(Row(r.conversation, r.bytes, r.count, Draft(r.value.version, Join(r.conversation, r.value.files, blobs))))
  }

  /** A row holds an acceptable, non-empty selection and counts it correctly. */
  predicate RowOk(row: Row<FileRow>) {
    && row.value.files != [] && Parse(row.value.files, row.conversation) == Parses
    && row == FileRowOf(row.conversation, row.value.version, row.value.files)
  }

  predicate RowsOk(t: Table<FileRow>) { t == [] || (RowsOk(t[..|t| - 1]) && RowOk(t[|t| - 1])) }

  /** The blob rows are exactly those of the files in the metadata rows. */
  ghost predicate BlobsExact(t: Table<FileRow>, blobs: Blobs) {
    forall c: nat, id: nat {:trigger (c, id) in blobs} :: (c, id) in blobs <==> Has(MetasOf(Get(t, c)), id)
  }

  predicate Sized(files: seq<Meta>, c: nat, blobs: Blobs) {
    forall i :: 0 <= i < |files| ==> Lookup(blobs, c, files[i].id).size == files[i].selection.size
  }

  ghost predicate AllSized(t: Table<FileRow>, blobs: Blobs) {
    forall c: nat {:trigger Sized(MetasOf(Get(t, c)), c, blobs)} :: Sized(MetasOf(Get(t, c)), c, blobs)
  }

  predicate Budgeted<T>(t: Table<T>) {
    |t| <= CONVERSATIONS && Count(t) <= FILES && Bytes(t) <= FILE_BYTES
  }

  ghost predicate FilesOk(t: Table<FileRow>, blobs: Blobs) {
    Distinct(t) && RowsOk(t) && Budgeted(t) && BlobsExact(t, blobs) && AllSized(t, blobs)
  }

  lemma {:induction false} RowOfOk(t: Table<FileRow>, c: nat)
    requires RowsOk(t)
    ensures Get(t, c).Some? ==> RowOk(Get(t, c).value) && Get(t, c).value.conversation == c
  {
    if t != [] { RowOfOk(t[..|t| - 1], c); }
  }

  lemma {:induction false} WithoutRowsOk(t: Table<FileRow>, c: nat)
    requires RowsOk(t)
    ensures RowsOk(Without(t, c))
  {
    if t != [] {
      WithoutRowsOk(t[..|t| - 1], c);
      var w := Without(t[..|t| - 1], c);
      assert (w + [t[|t| - 1]])[..|w|] == w;
    }
  }

  lemma {:induction false} PutRowsOk(t: Table<FileRow>, row: Row<FileRow>)
    requires RowsOk(t) && RowOk(row)
    ensures RowsOk(Put(t, row))
  {
    WithoutRowsOk(t, row.conversation);
    var w := Without(t, row.conversation);
    assert (w + [row])[..|w|] == w;
  }

  lemma {:induction false} JoinedGet(t: Table<FileRow>, blobs: Blobs, c: nat)
    ensures Get(Joined(t, blobs), c) == JoinedRow(Get(t, c), blobs)
  {
    if t != [] {
      JoinedGet(t[..|t| - 1], blobs, c);
      assert Joined(t, blobs)[..|Joined(t, blobs)| - 1] == Joined(t[..|t| - 1], blobs);
    }
  }

  lemma {:induction false} JoinedWithout(t: Table<FileRow>, blobs: Blobs, c: nat)
    ensures Joined(Without(t, c), blobs) == Without(Joined(t, blobs), c)
  {
    if t != [] {
      var init, last := t[..|t| - 1], t[|t| - 1];
      JoinedWithout(init, blobs, c);
      assert Joined(t, blobs)[..|Joined(t, blobs)| - 1] == Joined(init, blobs);
      var w := Without(init, c);
      assert (w + [last])[..|w|] == w;
    }
  }

  lemma {:induction false} JoinedTotals(t: Table<FileRow>, blobs: Blobs)
    ensures |Joined(t, blobs)| == |t| && Count(Joined(t, blobs)) == Count(t) && Bytes(Joined(t, blobs)) == Bytes(t)
  {
    if t != [] {
      JoinedTotals(t[..|t| - 1], blobs);
      assert Joined(t, blobs)[..|Joined(t, blobs)| - 1] == Joined(t[..|t| - 1], blobs);
    }
  }

  lemma {:induction false} JoinSpec(c: nat, files: seq<Meta>, blobs: Blobs)
    ensures |Join(c, files, blobs)| == |files| && Metas(Join(c, files, blobs)) == files
    ensures forall i :: 0 <= i < |files| ==> Join(c, files, blobs)[i] == File(files[i], Lookup(blobs, c, files[i].id))
  {
    if files != [] {
      JoinSpec(c, files[..|files| - 1], blobs);
      assert Join(c, files, blobs)[..|files| - 1] == Join(c, files[..|files| - 1], blobs);
    }
  }

  /** The blobs of every other conversation are the same. */
  ghost predicate SameElsewhere(blobs: Blobs, after: Blobs, c: nat) {
    forall d: nat, id: nat {:trigger (d, id) in after} {:trigger (d, id) in blobs} ::
      d != c ==> ((d, id) in after <==> (d, id) in blobs) && ((d, id) in blobs ==> after[(d, id)] == blobs[(d, id)])
  }

  lemma {:induction false} JoinSame(c: nat, files: seq<Meta>, blobs: Blobs, after: Blobs)
    requires forall i :: 0 <= i < |files| ==> Lookup(after, c, files[i].id) == Lookup(blobs, c, files[i].id)
    ensures Join(c, files, after) == Join(c, files, blobs)
  {
    if files != [] { JoinSame(c, files[..|files| - 1], blobs, after); }
  }

  lemma {:induction false} JoinedSame(t: Table<FileRow>, blobs: Blobs, after: Blobs, c: nat)
    requires Get(t, c).None? && SameElsewhere(blobs, after, c)
    ensures Joined(t, after) == Joined(t, blobs)
  {
    if t != [] {
      var r := t[|t| - 1];
      JoinedSame(t[..|t| - 1], blobs, after, c);
      forall i | 0 <= i < |r.value.files|
        ensures Lookup(after, r.conversation, r.value.files[i].id) == Lookup(blobs, r.conversation, r.value.files[i].id)
      {
        assert (r.conversation, r.value.files[i].id) in after <==> (r.conversation, r.value.files[i].id) in blobs;
      }
      JoinSame(r.conversation, r.value.files, blobs, after);
    }
  }

  /** The blobs of a conversation are exactly those of the given files. */
  ghost predicate BlobsFor(blobs: Blobs, c: nat, files: seq<Meta>) {
    forall id: nat {:trigger (c, id) in blobs} :: (c, id) in blobs <==> Has(files, id)
  }

  /** Replacing one conversation's row, or removing it, with its blobs in place. */
  lemma {:induction false} ReplaceBlobs(t: Table<FileRow>, blobs: Blobs, c: nat, next: Table<FileRow>, after: Blobs)
    requires BlobsExact(t, blobs) && AllSized(t, blobs) && SameElsewhere(blobs, after, c)
    requires forall d: nat {:trigger Get(next, d)} :: d != c ==> Get(next, d) == Get(t, d)
    requires BlobsFor(after, c, MetasOf(Get(next, c))) && Sized(MetasOf(Get(next, c)), c, after)
    ensures BlobsExact(next, after) && AllSized(next, after)
  {
    forall d: nat, id: nat ensures (d, id) in after <==> Has(MetasOf(Get(next, d)), id) {
      if d != c { assert (d, id) in blobs <==> Has(MetasOf(Get(t, d)), id); }
    }
    forall d: nat ensures Sized(MetasOf(Get(next, d)), d, after) {
      if d != c { SizedSame(MetasOf(Get(t, d)), d, blobs, after, c); }
    }
  }

  lemma {:induction false} PutFiles(t: Table<FileRow>, blobs: Blobs, row: Row<FileRow>, after: Blobs)
    requires FilesOk(t, blobs) && RowOk(row) && SameElsewhere(blobs, after, row.conversation)
    requires BlobsFor(after, row.conversation, row.value.files) && Sized(row.value.files, row.conversation, after)
    requires Fits(Without(t, row.conversation), row.count, row.bytes)
    ensures FilesOk(Put(t, row), after)
    ensures Joined(Put(t, row), after) == Put(Joined(t, blobs), JoinedRow(Some(row), after).value)
  {
    PutDistinct(t, row);
    PutRowsOk(t, row);
    forall d: nat ensures Get(Put(t, row), d) == if row.conversation == d then Some(row) else Get(t, d) {
      GetPut(t, row, d);
    }
    ReplaceBlobs(t, blobs, row.conversation, Put(t, row), after);
    JoinedPut(t, blobs, row, after);
  }

  lemma {:induction false} SizedSame(files: seq<Meta>, d: nat, blobs: Blobs, after: Blobs, c: nat)
    requires Sized(files, d, blobs) && SameElsewhere(blobs, after, c) && d != c
    ensures Sized(files, d, after)
  {
    forall i | 0 <= i < |files| ensures Lookup(after, d, files[i].id) == Lookup(blobs, d, files[i].id) {
      assert (d, files[i].id) in after <==> (d, files[i].id) in blobs;
    }
  }

  lemma {:induction false} JoinedPut(t: Table<FileRow>, blobs: Blobs, row: Row<FileRow>, after: Blobs)
    requires SameElsewhere(blobs, after, row.conversation)
    ensures Joined(Put(t, row), after) == Put(Joined(t, blobs), JoinedRow(Some(row), after).value)
  {
    var w := Without(t, row.conversation);
    GetWithout(t, row.conversation, row.conversation);
    JoinedSame(w, blobs, after, row.conversation);
    JoinedWithout(t, blobs, row.conversation);
    assert (w + [row])[..|w|] == w;
  }

  lemma {:induction false} RemoveFiles(t: Table<FileRow>, blobs: Blobs, c: nat, after: Blobs)
    requires FilesOk(t, blobs) && SameElsewhere(blobs, after, c) && BlobsFor(after, c, [])
    ensures FilesOk(Without(t, c), after)
    ensures Joined(Without(t, c), after) == Without(Joined(t, blobs), c)
  {
    WithoutDistinct(t, c);
    WithoutRowsOk(t, c);
    forall d: nat ensures Get(Without(t, c), d) == if c == d then None else Get(t, d) {
      GetWithout(t, c, d);
    }
    ReplaceBlobs(t, blobs, c, Without(t, c), after);
    JoinedSame(Without(t, c), blobs, after, c);
    JoinedWithout(t, blobs, c);
  }

  // ---------------------------------------------------------------- moving blobs

  /** A conversation's blobs are those of the saved files that the new selection keeps. */
  ghost predicate OnlyKept(prior: seq<Meta>, metas: seq<Meta>, c: nat, blobs: Blobs) {
    forall id: nat {:trigger (c, id) in blobs} :: (c, id) in blobs <==> Has(prior, id) && Has(metas, id)
  }

  lemma {:induction false} SavedHasBlob(prior: seq<Meta>, metas: seq<Meta>, c: nat, blobs: Blobs, i: nat)
    requires OnlyKept(prior, metas, c, blobs) && i < |metas|
    ensures (c, metas[i].id) in blobs <==> Has(prior, metas[i].id)
  {
    HasSpec(metas, metas[i].id);
  }

  lemma {:induction false} NonePlaced(prior: seq<Meta>, files: seq<File>, metas: seq<Meta>, c: nat, blobs: Blobs)
    requires |files| == |metas|
    ensures AllPlaced(prior, files, metas, c, blobs, blobs, 0)
  {}

  /** The blobs of files that the new selection does not keep are deleted. */
  method DeleteUnretained(prior: seq<Meta>, metas: seq<Meta>, c: nat, blobs: Blobs) returns (after: Blobs)
    requires BlobsFor(blobs, c, prior)
    ensures SameElsewhere(blobs, after, c)
    ensures OnlyKept(prior, metas, c, after)
    ensures forall id: nat {:trigger (c, id) in after} :: (c, id) in after ==> after[(c, id)] == Lookup(blobs, c, id)
  {
    after := blobs;
    var i := 0;
    while i < |prior|
      invariant 0 <= i <= |prior| && SameElsewhere(blobs, after, c)
      invariant forall id: nat {:trigger (c, id) in after} ::
                  (c, id) in after <==> (c, id) in blobs && (Has(prior[..i], id) ==> Has(metas, id))
      invariant forall id: nat {:trigger (c, id) in after} :: (c, id) in after ==>
                  after[(c, id)] == Lookup(blobs, c, id)
    {
      assert prior[..i + 1][..i] == prior[..i];
      if !Has(metas, prior[i].id) { after := after - {(c, prior[i].id)}; }
      i := i + 1;
    }
    assert prior[..i] == prior;
  }

  /** The first `i` files are in place: a saved one by its old blob, a new one by its source. */
  ghost predicate AllPlaced(
    prior: seq<Meta>, files: seq<File>, metas: seq<Meta>, c: nat, blobs: Blobs, after: Blobs, i: nat)
    requires i <= |files| == |metas|
  {
    && SameElsewhere(blobs, after, c)
    && (forall id: nat {:trigger (c, id) in after} :: (c, id) in after <==> (c, id) in blobs || Has(metas[..i], id))
    && (forall id: nat {:trigger (c, id) in blobs} :: (c, id) in blobs ==> after[(c, id)] == blobs[(c, id)])
    && (forall k :: 0 <= k < i ==> Placed(prior, files[k], c, blobs, after))
  }

  predicate Placed(prior: seq<Meta>, f: File, c: nat, blobs: Blobs, after: Blobs) {
    Lookup(after, c, f.meta.id) == if Has(prior, f.meta.id) then Lookup(blobs, c, f.meta.id) else f.source
  }

  lemma {:induction false} KeepSaved(
    prior: seq<Meta>, files: seq<File>, metas: seq<Meta>, c: nat, blobs: Blobs, after: Blobs, i: nat)
    requires i < |files| == |metas| && metas[i] == files[i].meta && AllPlaced(prior, files, metas, c, blobs, after, i)
    requires Has(prior, metas[i].id) && (c, metas[i].id) in blobs
    ensures AllPlaced(prior, files, metas, c, blobs, after, i + 1)
  {
    assert metas[..i + 1][..i] == metas[..i];
  }

  lemma {:induction false} PlaceNew(
    prior: seq<Meta>, files: seq<File>, metas: seq<Meta>, c: nat, blobs: Blobs, after: Blobs, i: nat)
    requires i < |files| == |metas| && (forall k :: 0 <= k < |files| ==> metas[k] == files[k].meta)
    requires AllPlaced(prior, files, metas, c, blobs, after, i)
    requires !Has(prior, metas[i].id) && (c, metas[i].id) !in blobs && Walk(metas, c) == Parses
    ensures (c, metas[i].id) !in after
    ensures AllPlaced(prior, files, metas, c, blobs, after[(c, metas[i].id) := files[i].source], i + 1)
  {
    forall k | 0 <= k < i ensures metas[k].id != metas[i].id { ParsedIdsDiffer(metas, c, k, i); }
    HasSpec(metas[..i], metas[i].id);
    assert metas[..i + 1][..i] == metas[..i];
    var more := after[(c, metas[i].id) := files[i].source];
    forall k | 0 <= k < i + 1 ensures Placed(prior, files[k], c, blobs, more) {
      if k < i { assert Placed(prior, files[k], c, blobs, after); }
    }
  }

  /** One file: an unchanged saved one stays as it is, a new one gets a blob row, which never collides. */
  method AddSource(prior: seq<Meta>, files: seq<File>, metas: seq<Meta>, c: nat, blobs: Blobs, before: Blobs, i: nat)
    returns (problem: Option<Saving>, after: Blobs)
    requires i < |files| == |metas| && (forall k :: 0 <= k < |files| ==> metas[k] == files[k].meta)
    requires Walk(metas, c) == Parses && ((c, metas[i].id) in blobs <==> Has(prior, metas[i].id))
    requires AllPlaced(prior, files, metas, c, blobs, before, i)
    ensures problem == if KeepsIdentity(prior, metas[i]) then None else Some(IdentityChanged)
    ensures problem.None? ==> AllPlaced(prior, files, metas, c, blobs, after, i + 1)
  {
    var f := files[i];
    problem, after := None, before;
    FindMetaSpec(prior, f.meta.id);
    var saved := FindMeta(prior, f.meta.id);
    if saved.Some? {
      if !Unchanged(saved.value, f.meta) { return Some(IdentityChanged), before; }
      KeepSaved(prior, files, metas, c, blobs, before, i);
    } else {
      PlaceNew(prior, files, metas, c, blobs, before, i);
      if (c, f.meta.id) in before { return Some(ConstraintError), before; }
      after := before[(c, f.meta.id) := f.source];
    }
  }

  /** Every file is either an unchanged saved one or gets a new blob row. */
  method AddSources(prior: seq<Meta>, files: seq<File>, metas: seq<Meta>, c: nat, blobs: Blobs)
    returns (problem: Option<Saving>, after: Blobs)
    requires metas == Metas(files) && Walk(metas, c) == Parses
    requires OnlyKept(prior, metas, c, blobs)
    ensures problem.None? || problem == Some(IdentityChanged)
    ensures problem.None? <==> AllUnchanged(prior, metas)
    ensures problem.None? ==> |metas| == |files| && AllPlaced(prior, files, metas, c, blobs, after, |files|)
  {
    MetasSpec(files);
    NonePlaced(prior, files, metas, c, blobs);
    problem, after := None, blobs;
    var i := 0;
    while i < |files|
      invariant 0 <= i <= |files| && AllPlaced(prior, files, metas, c, blobs, after, i)
      invariant forall k :: 0 <= k < i ==> KeepsIdentity(prior, metas[k])
    {
      SavedHasBlob(prior, metas, c, blobs, i);
      problem, after := AddSource(prior, files, metas, c, blobs, after, i);
      if problem.Some? { return; }
      i := i + 1;
    }
    problem := None;
  }

  predicate KeepsIdentity(prior: seq<Meta>, m: Meta) {
    FindMeta(prior, m.id).Some? ==> Unchanged(FindMeta(prior, m.id).value, m)
  }

  predicate AllUnchanged(prior: seq<Meta>, metas: seq<Meta>) {
    forall k :: 0 <= k < |metas| ==> KeepsIdentity(prior, metas[k])
  }

  // ---------------------------------------------------------------- the same draft, split and whole

  /** Reusing a file's identity means the same source. */
  predicate SameSources(prior: seq<Meta>, blobs: Blobs, c: nat, files: seq<File>) {
    forall k :: 0 <= k < |files| && Has(prior, files[k].meta.id) ==>
        Lookup(blobs, c, files[k].meta.id) == files[k].source
  }

  predicate Honest(files: seq<File>) {
    forall k :: 0 <= k < |files| ==> files[k].source.size == files[k].meta.selection.size
  }

  lemma {:induction false} SameId(prior: seq<Meta>, c: nat, a: Meta, b: Meta)
    requires Walk(prior, c) == Parses && a in prior && b in prior && a.id == b.id
    ensures a == b
  {
    var i :| 0 <= i < |prior| && prior[i] == a;
    var j :| 0 <= j < |prior| && prior[j] == b;
    if i < j { ParsedIdsDiffer(prior, c, i, j); }
    if j < i { ParsedIdsDiffer(prior, c, j, i); }
  }

  lemma {:induction false} InJoined(c: nat, prior: seq<Meta>, blobs: Blobs, f: File)
    requires f in Join(c, prior, blobs)
    ensures f.meta in prior && f.source == Lookup(blobs, c, f.meta.id)
  {
    JoinSpec(c, prior, blobs);
  }

  lemma {:induction false} FindJoined(c: nat, prior: seq<Meta>, blobs: Blobs, id: nat)
    requires Walk(prior, c) == Parses
    ensures Find(Join(c, prior, blobs), id) ==
              if FindMeta(prior, id).Some? then Some(File(FindMeta(prior, id).value, Lookup(blobs, c, id))) else None
  {
    var found := Find(Join(c, prior, blobs), id);
    FindSpec(Join(c, prior, blobs), id);
    FindMetaSpec(prior, id);
    HasSpec(prior, id);
    if found.Some? {
      InJoined(c, prior, blobs, found.value);
      assert Has(prior, id);
      SameId(prior, c, found.value.meta, FindMeta(prior, id).value);
    } else {
      JoinSpec(c, prior, blobs);
      assert forall i :: 0 <= i < |prior| ==> prior[i].id == Join(c, prior, blobs)[i].meta.id;
    }
  }

  lemma {:induction false} SameIdentities(c: nat, prior: seq<Meta>, blobs: Blobs, files: seq<File>)
    requires Walk(prior, c) == Parses && SameSources(prior, blobs, c, files)
    ensures AllUnchanged(prior, Metas(files)) <==> AllSame(Join(c, prior, blobs), files)
  {
    MetasSpec(files);
    forall i | 0 <= i < |files|
      ensures SameFile(Join(c, prior, blobs), files[i]) <==> KeepsIdentity(prior, Metas(files)[i])
    {
      FindJoined(c, prior, blobs, files[i].meta.id);
      FindMetaSpec(prior, files[i].meta.id);
    }
  }

  /** With its blobs in place the saved selection reads back as the files that were written. */
  lemma {:induction false} JoinsToFiles(c: nat, files: seq<File>, blobs: Blobs)
    requires |Metas(files)| == |files|
    requires forall k :: 0 <= k < |files| ==>
               Lookup(blobs, c, Metas(files)[k].id) == files[k].source
    ensures Join(c, Metas(files), blobs) == files
  {
    MetasSpec(files);
    JoinSpec(c, Metas(files), blobs);
  }

  lemma {:induction false} SavedSizes(c: nat, prior: seq<Meta>, blobs: Blobs, files: seq<File>, after: Blobs)
    requires Sized(prior, c, blobs) && Honest(files) && AllUnchanged(prior, Metas(files)) && |Metas(files)| == |files|
    requires forall k :: 0 <= k < |files| ==>
              Lookup(after, c, Metas(files)[k].id) ==
                  if Has(prior, Metas(files)[k].id) then Lookup(blobs, c, Metas(files)[k].id) else files[k].source
    ensures Sized(Metas(files), c, after)
  {
    MetasSpec(files);
    forall k | 0 <= k < |files| ensures Lookup(after, c, Metas(files)[k].id).size == Metas(files)[k].selection.size {
      var m := Metas(files)[k];
      FindMetaSpec(prior, m.id);
      if Has(prior, m.id) {
        assert KeepsIdentity(prior, m);
        var j :| 0 <= j < |prior| && prior[j] == FindMeta(prior, m.id).value;
      }
    }
  }

  // ---------------------------------------------------------------- cleaning up accepted files

  lemma {:induction false} KeptJoin(c: nat, files: seq<Meta>, ids: set<nat>, blobs: Blobs, after: Blobs)
    requires forall id: nat :: id !in ids ==> Lookup(after, c, id) == Lookup(blobs, c, id)
    ensures KeptFiles(Join(c, files, blobs), ids) == Join(c, Kept(files, ids), after)
  {
    if files != [] {
      var init, last := files[..|files| - 1], files[|files| - 1];
      KeptJoin(c, init, ids, blobs, after);
      var k := Kept(init, ids);
      assert (k + [last])[..|k|] == k && k + [] == k;
      assert Join(c, files, blobs)[..|Join(c, files, blobs)| - 1] == Join(c, init, blobs);
    }
  }

  lemma {:induction false} KeptHas(files: seq<Meta>, ids: set<nat>, id: nat)
    ensures Has(Kept(files, ids), id) <==> Has(files, id) && id !in ids
  {
    KeptMembers(files, ids);
    HasSpec(files, id);
    HasSpec(Kept(files, ids), id);
    if Has(files, id) && id !in ids {
      var i :| 0 <= i < |files| && files[i].id == id;
      assert files[i] in Kept(files, ids);
    }
  }

  /** The blobs of accepted files are deleted one by one. */
  method DeleteAccepted(prior: seq<Meta>, ids: set<nat>, c: nat, blobs: Blobs) returns (after: Blobs)
    requires BlobsFor(blobs, c, prior)
    ensures SameElsewhere(blobs, after, c) && BlobsFor(after, c, Kept(prior, ids))
    ensures forall id: nat :: id !in ids ==> Lookup(after, c, id) == Lookup(blobs, c, id)
  {
    after := blobs;
    var i := 0;
    while i < |prior|
      invariant 0 <= i <= |prior| && SameElsewhere(blobs, after, c)
      invariant forall id: nat {:trigger (c, id) in after} ::
                  (c, id) in after <==> (c, id) in blobs && !(Has(prior[..i], id) && id in ids)
      invariant forall id: nat {:trigger (c, id) in after} :: (c, id) in after ==> after[(c, id)] == blobs[(c, id)]
    {
      assert prior[..i + 1][..i] == prior[..i];
      if prior[i].id in ids { after := after - {(c, prior[i].id)}; }
      i := i + 1;
    }
    assert prior[..i] == prior;
    forall id: nat ensures Has(Kept(prior, ids), id) <==> Has(prior, id) && id !in ids { KeptHas(prior, ids, id); }
  }

  lemma {:induction false} KeptRow(c: nat, version: nat, files: seq<Meta>, ids: set<nat>)
    requires Parse(files, c) == Parses && Kept(files, ids) != []
    ensures RowOk(FileRowOf(c, version, Kept(files, ids)))
  {
    KeptParses(files, ids, c);
    KeptMembers(files, ids);
  }

  lemma {:induction false} KeptSized(c: nat, files: seq<Meta>, ids: set<nat>, blobs: Blobs, after: Blobs)
    requires Sized(files, c, blobs) && forall id: nat :: id !in ids ==> Lookup(after, c, id) == Lookup(blobs, c, id)
    ensures Sized(Kept(files, ids), c, after)
  {
    KeptMembers(files, ids);
    var kept := Kept(files, ids);
    forall i | 0 <= i < |kept| ensures Lookup(after, c, kept[i].id).size == kept[i].selection.size {
      assert kept[i] in kept;
      var j :| 0 <= j < |files| && files[j] == kept[i];
    }
  }
}
