/** Merging by identity and revision (src/client/display-window.ts:157-162), for any two overlapping parts. */
module WindowMerge {
  import opened DisplayWindow

  /** The newest form of its message; of two equally new ones the later. */
  ghost predicate Newest(records: seq<Record>, m: Record) {
    exists k :: 0 <= k < |records| && records[k] == m && Prevails(records, k)
  }

  predicate Prevails(records: seq<Record>, k: nat)
    requires k < |records|
  {
    forall j :: 0 <= j < |records| && records[j].place == records[k].place ==>
      if j <= k then records[j].revision <= records[k].revision else records[j].revision < records[k].revision
  }

  predicate PlacesDiffer(records: seq<Record>) {
    forall i, j :: 0 <= i < j < |records| ==> records[i].place != records[j].place
  }

  /** The order in which the messages first appear. */
  predicate InFirstOrder(records: seq<Record>, merged: seq<Record>) {
    forall i, j :: 0 <= i < j < |merged| ==>
      IndexOf(records, merged[i].place) < IndexOf(records, merged[j].place)
  }

  lemma {:induction false} IndexOfSnoc(records: seq<Record>, r: Record, p: nat)
    ensures Holds(records, p) ==> IndexOf(records + [r], p) == IndexOf(records, p)
    ensures !Holds(records, p) ==> IndexOf(records + [r], p) == if r.place == p then |records| else |records| + 1
  {
    if records != [] && records[0].place != p {
      IndexOfSnoc(records[1..], r, p);
      assert (records + [r])[1..] == records[1..] + [r];
    } else if records == [] {
      assert [r][1..] == [];
    }
  }

  lemma {:induction false} NewestSnoc(records: seq<Record>, r: Record, m: Record)
    requires Newest(records, m) && (m.place == r.place ==> r.revision < m.revision)
    ensures Newest(records + [r], m)
  {
    var k :| 0 <= k < |records| && records[k] == m && Prevails(records, k);
    assert (records + [r])[k] == m && Prevails(records + [r], k);
  }

  lemma {:induction false} LastIsNewest(records: seq<Record>, r: Record)
    requires forall j :: 0 <= j < |records| && records[j].place == r.place ==> records[j].revision <= r.revision
    ensures Newest(records + [r], r)
  {
    assert (records + [r])[|records|] == r && Prevails(records + [r], |records|);
  }

  ghost predicate AllNewest(records: seq<Record>, merged: seq<Record>) {
    forall i :: 0 <= i < |merged| ==> Newest(records, merged[i])
  }

  predicate AllHeld(records: seq<Record>, merged: seq<Record>) {
    forall j :: 0 <= j < |records| ==> Holds(merged, records[j].place)
  }

  /** What merging has to give. */
  ghost predicate Merges(records: seq<Record>, merged: seq<Record>) {
    PlacesDiffer(merged) && AllNewest(records, merged) && AllHeld(records, merged) && InFirstOrder(records, merged)
  }

  lemma {:induction false} IsThere(records: seq<Record>, m: Record)
    requires Newest(records, m)
    ensures Holds(records, m.place)
  {
    var k :| 0 <= k < |records| && records[k] == m && Prevails(records, k);
  }

  lemma {:induction false} NotThere(records: seq<Record>, merged: seq<Record>, p: nat)
    requires AllHeld(records, merged) && !Holds(merged, p)
    ensures !Holds(records, p) && forall j :: 0 <= j < |records| ==> records[j].place != p
  {
    forall j | 0 <= j < |records| ensures records[j].place != p { assert Holds(merged, records[j].place); }
  }

  /** The places of the merged records keep their order when a record is added behind. */
  lemma {:induction false} OrderSnoc(records: seq<Record>, merged: seq<Record>, r: Record)
    requires AllNewest(records, merged) && InFirstOrder(records, merged)
    ensures InFirstOrder(records + [r], merged)
    ensures !Holds(records, r.place) ==> InFirstOrder(records + [r], merged + [r])
  {
    var all := records + [r];
    forall i | 0 <= i < |merged|
      ensures IndexOf(all, merged[i].place) == IndexOf(records, merged[i].place) < |records|
    {
      IsThere(records, merged[i]);
      IndexOfSnoc(records, r, merged[i].place);
    }
    IndexOfSnoc(records, r, r.place);
  }

  lemma {:induction false} HeldSnoc(records: seq<Record>, merged: seq<Record>, r: Record)
    requires AllHeld(records, merged)
    ensures AllHeld(records + [r], merged + [r])
  {
    var all := records + [r];
    forall j | 0 <= j < |all| ensures Holds(merged + [r], all[j].place) {
      IndexOfSnoc(merged, r, all[j].place);
      if j < |records| { assert all[j] == records[j] && Holds(merged, records[j].place); }
    }
  }

  lemma {:induction false} AppendMerges(records: seq<Record>, merged: seq<Record>, r: Record)
    requires Merges(records, merged) && !Holds(merged, r.place)
    ensures Merges(records + [r], merged + [r])
  {
    var more := merged + [r];
    NotThere(records, merged, r.place);
    LastIsNewest(records, r);
    forall i | 0 <= i < |more| ensures Newest(records + [r], more[i]) {
      if i < |merged| {
        IsThere(records, merged[i]);
        NewestSnoc(records, r, merged[i]);
      }
    }
    HeldSnoc(records, merged, r);
    OrderSnoc(records, merged, r);
  }

  lemma {:induction false} NoneNewer(records: seq<Record>, m: Record, r: Record)
    requires Newest(records, m) && m.place == r.place && m.revision <= r.revision
    ensures Newest(records + [r], r)
  {
    var k :| 0 <= k < |records| && records[k] == m && Prevails(records, k);
    LastIsNewest(records, r);
  }

  lemma {:induction false} UpdateNewest(records: seq<Record>, merged: seq<Record>, r: Record, i: nat)
    requires AllNewest(records, merged) && PlacesDiffer(merged) && i < |merged| && merged[i].place == r.place
    ensures merged[i].revision <= r.revision ==> AllNewest(records + [r], merged[i := r])
    ensures merged[i].revision > r.revision ==> AllNewest(records + [r], merged)
  {
    if merged[i].revision <= r.revision { NoneNewer(records, merged[i], r); }
    forall j | 0 <= j < |merged| && (j != i || merged[i].revision > r.revision)
      ensures Newest(records + [r], merged[j])
    {
      if j != i { assert merged[j].place != r.place; }
      NewestSnoc(records, r, merged[j]);
    }
  }

  lemma {:induction false} SamePlaces(records: seq<Record>, merged: seq<Record>, next: seq<Record>)
    requires |merged| == |next| && forall j :: 0 <= j < |merged| ==> next[j].place == merged[j].place
    ensures PlacesDiffer(merged) ==> PlacesDiffer(next)
    ensures AllHeld(records, merged) ==> AllHeld(records, next)
    ensures InFirstOrder(records, merged) ==> InFirstOrder(records, next)
  {
    forall p | Holds(merged, p) ensures Holds(next, p) { assert next[IndexOf(merged, p)].place == p; }
  }

  lemma {:induction false} UpdateMerges(records: seq<Record>, merged: seq<Record>, r: Record, i: nat)
    requires Merges(records, merged) && i < |merged| && merged[i].place == r.place
    ensures Merges(records + [r], if merged[i].revision <= r.revision then merged[i := r] else merged)
  {
    UpdateNewest(records, merged, r, i);
    OrderSnoc(records, merged, r);
    HeldAgain(records, merged, r, i);
    SamePlaces(records + [r], merged, merged[i := r]);
  }

  lemma {:induction false} HeldAgain(records: seq<Record>, merged: seq<Record>, r: Record, i: nat)
    requires AllHeld(records, merged) && i < |merged| && merged[i].place == r.place
    ensures AllHeld(records + [r], merged)
  {
    var all := records + [r];
    forall j | 0 <= j < |all| ensures Holds(merged, all[j].place) {
      if j < |records| { assert all[j] == records[j]; } else { assert merged[i].place == all[j].place; }
    }
  }

  lemma {:induction false} UpsertMerges(records: seq<Record>, merged: seq<Record>, r: Record)
    requires Merges(records, merged)
    ensures Merges(records + [r], Upsert(merged, r))
  {
    if Holds(merged, r.place) {
      UpdateMerges(records, merged, r, IndexOf(merged, r.place));
    } else {
      AppendMerges(records, merged, r);
    }
  }

  /** Merging gives every message once, in its newest form and at its first place, whatever the parts have in common. */
  lemma {:induction false} MergeIsExact(records: seq<Record>)
    ensures Merges(records, Merge(records))
  {
    if records != [] {
      MergeIsExact(records[..|records| - 1]);
      UpsertMerges(records[..|records| - 1], Merge(records[..|records| - 1]), records[|records| - 1]);
      assert records == records[..|records| - 1] + [records[|records| - 1]];
    }
  }
}
