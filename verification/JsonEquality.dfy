/**
 The repository's separately written notions of "the same JSON value": `canonicalJson`
 (src/provider-context.ts:727-732) and `stableRuntimeJson` (src/runtime.ts:2107-2118), which agree
 on JSON values and are `Canonical` here; `jsonValuesEqual` (src/json-equality.ts:2-15); and
 `jsonEqual` (src/browser/indexeddb-event-store.ts:816-841).
 */
module JsonEquality {
  import opened JsonText

  // ---------------------------------------------------------------- key order

  /** Code-unit order of strings, as `Array.prototype.sort` compares them. */
  predicate Before(a: Units, b: Units) {
    if a == [] || b == [] then a == [] && b != []
    else if a[0] != b[0] then a[0] < b[0] else Before(a[1..], b[1..])
  }

  lemma {:induction false} BeforeTotal(a: Units, b: Units)
    ensures a == b ==> !Before(a, b) && !Before(b, a)
    ensures a != b ==> (Before(a, b) <==> !Before(b, a))
  {
    if a != [] && b != [] && a[0] == b[0] {
      BeforeTotal(a[1..], b[1..]);
      assert a == [a[0]] + a[1..] && b == [b[0]] + b[1..];
    }
  }

  /** One key ends where the other goes on, or has the smaller unit where they first differ. */
  predicate Precedes(a: Units, b: Units, i: nat) {
    i <= |a| && i < |b| && a[..i] == b[..i] && (i == |a| || a[i] < b[i])
  }

  /** Keys are ordered by their UTF-16 units, as `sort` orders strings. */
  lemma {:induction false} BeforeIsLexicographic(a: Units, b: Units)
    ensures Before(a, b) <==> exists i :: Precedes(a, b, i)
  {
    if a != [] && b != [] && a[0] == b[0] {
      BeforeIsLexicographic(a[1..], b[1..]);
      if i: nat :| Precedes(a[1..], b[1..], i) {
        assert a[..i + 1] == [a[0]] + a[1..][..i] && b[..i + 1] == [b[0]] + b[1..][..i];
        assert Precedes(a, b, i + 1);
      }
      if i: nat :| Precedes(a, b, i) {
        assert i > 0;
        assert a[1..][..i - 1] == a[..i][1..] && b[1..][..i - 1] == b[..i][1..];
        assert Precedes(a[1..], b[1..], i - 1);
      }
    } else if a == [] && b != [] {
      assert Precedes(a, b, 0);
    } else if a != [] && b != [] {
      if a[0] < b[0] { assert Precedes(a, b, 0); }
      if i: nat :| Precedes(a, b, i) {
        if i > 0 { assert a[..i][0] == b[..i][0]; }
      }
    }
  }

  lemma {:induction false} BeforeTransitive(a: Units, b: Units, c: Units)
    requires Before(a, b) && Before(b, c)
    ensures Before(a, c)
  {
    if a != [] && a[0] == b[0] && b[0] == c[0] {
      BeforeTransitive(a[1..], b[1..], c[1..]);
    }
  }

  function Insert<T>(e: (Units, T), sorted: seq<(Units, T)>): seq<(Units, T)> {
    if sorted == [] then [e]
    else if Before(sorted[0].0, e.0) then [sorted[0]] + Insert(e, sorted[1..])
    else [e] + sorted
  }

  /** The entries in key order. */
  function Sort<T>(entries: seq<(Units, T)>): seq<(Units, T)> {
    if entries == [] then [] else Insert(entries[0], Sort(entries[1..]))
  }

  predicate Sorted<T>(entries: seq<(Units, T)>) {
    forall i, j :: 0 <= i < j < |entries| ==> Before(entries[i].0, entries[j].0)
  }

  predicate DistinctKeys<T>(entries: seq<(Units, T)>) {
    forall i, j :: 0 <= i < j < |entries| ==> entries[i].0 != entries[j].0
  }

  lemma {:induction false} InsertMembers<T(!new)>(e: (Units, T), s: seq<(Units, T)>)
    ensures |Insert(e, s)| == |s| + 1
    ensures forall x: (Units, T) :: x in Insert(e, s) <==> x == e || x in s
  {
    if s != [] {
      InsertMembers(e, s[1..]);
      assert s == [s[0]] + s[1..];
    }
  }

  lemma {:induction false} SortMembers<T(!new)>(s: seq<(Units, T)>)
    ensures |Sort(s)| == |s|
    ensures forall x: (Units, T) :: x in Sort(s) <==> x in s
  {
    if s != [] {
      SortMembers(s[1..]);
      InsertMembers(s[0], Sort(s[1..]));
      assert s == [s[0]] + s[1..];
    }
  }

  lemma {:induction false} InsertSorted<T(!new)>(e: (Units, T), s: seq<(Units, T)>)
    requires Sorted(s) && forall x :: x in s ==> x.0 != e.0
    ensures Sorted(Insert(e, s))
  {
    if s != [] {
      BeforeTotal(s[0].0, e.0);
      if Before(s[0].0, e.0) {
        InsertSorted(e, s[1..]);
        InsertMembers(e, s[1..]);
        forall x: (Units, T) | x in Insert(e, s[1..]) ensures Before(s[0].0, x.0) {
          if x != e {
            InsertMembers(e, s[1..]);
            assert x in s[1..];
            var i :| 0 <= i < |s[1..]| && s[1..][i] == x;
            assert s[1 + i] == x;
          }
        }
        HeadFirst(s[0], Insert(e, s[1..]));
      } else {
        forall x | x in s ensures Before(e.0, x.0) {
          if x != s[0] {
            BeforeTransitive(e.0, s[0].0, x.0);
          }
        }
        HeadFirst(e, s);
      }
    }
  }

  lemma {:induction false} HeadFirst<T(!new)>(e: (Units, T), s: seq<(Units, T)>)
    requires Sorted(s) && forall x :: x in s ==> Before(e.0, x.0)
    ensures Sorted([e] + s)
  {
  }

  lemma {:induction false} SortSorts<T(!new)>(s: seq<(Units, T)>)
    requires DistinctKeys(s)
    ensures Sorted(Sort(s))
  {
    if s != [] {
      SortSorts(s[1..]);
      SortMembers(s[1..]);
      forall x: (Units, T) | x in Sort(s[1..]) ensures x.0 != s[0].0 {
        SortMembers(s[1..]);
        assert x in s[1..];
        var i :| 0 <= i < |s[1..]| && s[1..][i] == x;
        assert s[1 + i] == x;
      }
      InsertSorted(s[0], Sort(s[1..]));
    }
  }

  /** In key order there is only one way to list a set of entries. */
  lemma {:induction false} SortedUnique<T(!new)>(s: seq<(Units, T)>, t: seq<(Units, T)>)
    requires Sorted(s) && Sorted(t) && forall x :: x in s <==> x in t
    ensures s == t
    decreases |s|
  {
    assert t != [] ==> t[0] in t;
    if s != [] {
      assert s[0] in t;
      assert t[0] in s;
      BeforeTotal(s[0].0, t[0].0);
      var i :| 0 <= i < |t| && t[i] == s[0];
      var j :| 0 <= j < |s| && s[j] == t[0];
      assert s[0] == t[0];
      forall x ensures x in s[1..] <==> x in t[1..] {
        TailMember(s, x);
        TailMember(t, x);
      }
      SortedUnique(s[1..], t[1..]);
      assert s == [s[0]] + s[1..] && t == [t[0]] + t[1..];
    }
  }

  lemma {:induction false} TailMember<T(!new)>(s: seq<(Units, T)>, x: (Units, T))
    requires Sorted(s) && s != []
    ensures x in s[1..] <==> x in s && x != s[0]
  {
    BeforeTotal(x.0, x.0);
    if x in s && x != s[0] {
      var i :| 0 <= i < |s| && s[i] == x;
      assert s[1..][i - 1] == x;
    }
  }

  function MapValues<A, B>(g: A -> B, s: seq<(Units, A)>): seq<(Units, B)> {
    seq(|s|, i requires 0 <= i < |s| => (s[i].0, g(s[i].1)))
  }

  lemma {:induction false} InsertMap<A, B>(g: A -> B, e: (Units, A), s: seq<(Units, A)>)
    ensures Insert((e.0, g(e.1)), MapValues(g, s)) == MapValues(g, Insert(e, s))
  {
    if s != [] {
      InsertMap(g, e, s[1..]);
      assert MapValues(g, s)[1..] == MapValues(g, s[1..]);
    }
  }

  /** Sorting by key does not look at the values. */
  lemma {:induction false} SortMap<A, B>(g: A -> B, s: seq<(Units, A)>)
    ensures Sort(MapValues(g, s)) == MapValues(g, Sort(s))
  {
    if s != [] {
      SortMap(g, s[1..]);
      assert MapValues(g, s)[1..] == MapValues(g, s[1..]);
      InsertMap(g, s[0], Sort(s[1..]));
    }
  }

  // ---------------------------------------------------------------- the source's functions

  /** JSON values proper: ECMAScript numbers, and objects that hold each key once. */
  predicate Valid(v: Json)
    decreases v
  {
    match v
    case Num(t) => NumberText(t)
    case Arr(items) => forall i :: 0 <= i < |items| ==> Valid(items[i])
    case Obj(fields) => DistinctKeys(fields) && forall i :: 0 <= i < |fields| ==> Valid(fields[i].1)
    case _ => true
  }

  function Join(texts: seq<Units>): Units {
    if texts == [] then []
    else texts[0] + (if |texts| == 1 then [] else [COMMA] + Join(texts[1..]))
  }

  function EntryTexts(entries: seq<(Units, Units)>): seq<Units> {
    seq(|entries|, i requires 0 <= i < |entries| => Quote(entries[i].0) + [COLON] + entries[i].1)
  }

  /** `canonicalJson` and `stableRuntimeJson`. */
  function Canonical(v: Json): Units
    decreases v
  {
    match v
    case Arr(items) =>
      [0x5B] + Join(seq(|items|, i requires 0 <= i < |items| => Canonical(items[i]))) + [0x5D]
    case Obj(fields) =>
      [0x7B]
      + Join(EntryTexts(Sort(seq(|fields|, i requires 0 <= i < |fields| => (fields[i].0, Canonical(fields[i].1))))))
      + [0x7D]
    case _ => Text(v)
  }

  /** The position of a key, or the length of the list. */
  function Find(fields: seq<(Units, Json)>, key: Units): (i: nat)
    ensures i <= |fields|
    ensures i < |fields| ==> fields[i].0 == key
    ensures i == |fields| ==> forall j :: 0 <= j < |fields| ==> fields[j].0 != key
  {
    if fields == [] then 0 else if fields[0].0 == key then 0 else 1 + Find(fields[1..], key)
  }

  /** `jsonEqual`: strict equality of atoms, so zero equals negative zero. */
  predicate JsonEqual(v: Json, w: Json)
    decreases v
  {
    match v
    case Num(t) => (w.Num? && t == w.text) || (w.NegZero? && t == ZERO)
    case NegZero => w.NegZero? || (w.Num? && w.text == ZERO)
    case Arr(items) =>
      w.Arr? && |items| == |w.items| && forall i :: 0 <= i < |items| ==> JsonEqual(items[i], w.items[i])
    case Obj(fields) =>
      w.Obj? && |fields| == |w.fields| &&
      forall i :: 0 <= i < |fields| ==>
        var j := Find(w.fields, fields[i].0);
        j < |w.fields| && JsonEqual(fields[i].1, w.fields[j].1)
    case _ => v == w
  }

  /** `jsonValuesEqual`: `Object.is` on atoms, sorted keys on objects. */
  predicate ValuesEqual(v: Json, w: Json)
    decreases v
  {
    match v
    case Arr(items) =>
      w.Arr? && |items| == |w.items| && forall i :: 0 <= i < |items| ==> ValuesEqual(items[i], w.items[i])
    case Obj(fields) =>
      w.Obj? &&
      var left, right := Sort(fields), Sort(w.fields);
      |left| == |right| &&
      forall i :: 0 <= i < |left| ==>
        left[i].0 == right[i].0 &&
        var j, k := Find(fields, left[i].0), Find(w.fields, left[i].0);
        j < |fields| && k < |w.fields| && ValuesEqual(fields[j].1, w.fields[k].1)
    case _ => v == w
  }

  // ---------------------------------------------------------------- the reference: a normal form

  /** Keys in order at every level; with `collapse`, negative zero as zero. */
  function Normal(v: Json, collapse: bool): Json
    decreases v
  {
    match v
    case NegZero => if collapse then Num(ZERO) else NegZero
    case Arr(items) => Arr(seq(|items|, i requires 0 <= i < |items| => Normal(items[i], collapse)))
    case Obj(fields) => Obj(Sort(NormalFields(v, collapse)))
    case _ => v
  }

  function NormalFields(v: Json, collapse: bool): seq<(Units, Json)>
    requires v.Obj?
    decreases v, 0
  {
    seq(|v.fields|, i requires 0 <= i < |v.fields| => (v.fields[i].0, Normal(v.fields[i].1, collapse)))
  }

  lemma {:induction false} NormalFieldsIsMap(v: Json, collapse: bool)
    requires v.Obj?
    ensures NormalFields(v, collapse) == MapValues((x: Json) => Normal(x, collapse), v.fields)
  {
  }

  lemma {:induction false} NormalFieldsDistinct(v: Json, collapse: bool)
    requires v.Obj? && DistinctKeys(v.fields)
    ensures DistinctKeys(NormalFields(v, collapse))
  {
  }

  lemma {:induction false} ItemsTextIsJoin(items: seq<Json>)
    ensures ItemsText(items) == Join(seq(|items|, i requires 0 <= i < |items| => Text(items[i])))
  {
    if items != [] {
      var texts := seq(|items|, i requires 0 <= i < |items| => Text(items[i]));
      ItemsTextIsJoin(items[1..]);
      assert texts[1..] == seq(|items[1..]|, i requires 0 <= i < |items[1..]| => Text(items[1..][i]));
    }
  }

  lemma {:induction false} FieldsTextIsJoin(fields: seq<(Units, Json)>)
    ensures FieldsText(fields) == Join(EntryTexts(MapValues((x: Json) => Text(x), fields)))
  {
    if fields != [] {
      var texts := EntryTexts(MapValues((x: Json) => Text(x), fields));
      FieldsTextIsJoin(fields[1..]);
      assert texts[1..] == EntryTexts(MapValues((x: Json) => Text(x), fields[1..]));
    }
  }

  lemma {:induction false} NormalObjectIsPlain(v: Json)
    requires v.Obj? && forall i :: 0 <= i < |v.fields| ==> Plain(Normal(v.fields[i].1, true))
    ensures Plain(Normal(v, true))
  {
    var sorted := Sort(NormalFields(v, true));
    SortMembers(NormalFields(v, true));
    forall i | 0 <= i < |sorted| ensures Plain(sorted[i].1) {
      assert sorted[i] in sorted;
      var j :| 0 <= j < |v.fields| && NormalFields(v, true)[j] == sorted[i];
    }
  }

  /** The canonical text is the text of the normal form. */
  lemma {:induction false} CanonicalIsText(v: Json)
    requires Valid(v)
    ensures Canonical(v) == Text(Normal(v, true)) && Plain(Normal(v, true))
    decreases v
  {
    match v
    case Arr(items) =>
      forall i | 0 <= i < |items|
        ensures Canonical(items[i]) == Text(Normal(items[i], true)) && Plain(Normal(items[i], true))
      {
        CanonicalIsText(items[i]);
      }
      var ns := Normal(v, true).items;
      ItemsTextIsJoin(ns);
      assert seq(|items|, i requires 0 <= i < |items| => Canonical(items[i])) ==
             seq(|ns|, i requires 0 <= i < |ns| => Text(ns[i]));
    case Obj(fields) =>
      forall i | 0 <= i < |fields|
        ensures Canonical(fields[i].1) == Text(Normal(fields[i].1, true)) && Plain(Normal(fields[i].1, true))
      {
        CanonicalIsText(fields[i].1);
      }
      NormalObjectIsPlain(v);
      CanonicalObject(v);
    case _ =>
  }

  lemma {:induction false} CanonicalObject(v: Json)
    requires v.Obj? && forall i :: 0 <= i < |v.fields| ==> Canonical(v.fields[i].1) == Text(Normal(v.fields[i].1, true))
    ensures Canonical(v) == Text(Normal(v, true))
  {
    var ns := NormalFields(v, true);
    var texts := seq(|v.fields|, i requires 0 <= i < |v.fields| => (v.fields[i].0, Canonical(v.fields[i].1)));
    assert texts == MapValues((x: Json) => Text(x), ns);
    SortMap((x: Json) => Text(x), ns);
    FieldsTextIsJoin(Sort(ns));
  }

  // ---------------------------------------------------------------- equality is equality of normal forms

  lemma {:induction false} MembersOfEqualCount<T(!new)>(s: seq<(Units, T)>, t: seq<(Units, T)>)
    requires DistinctKeys(s) && DistinctKeys(t) && |s| == |t| && forall x :: x in s ==> x in t
    ensures forall x: (Units, T) :: x in t ==> x in s
    decreases |s|
  {
    if s != [] {
      var e := s[|s| - 1];
      assert e in t;
      var k :| 0 <= k < |t| && t[k] == e;
      var s', t' := s[..|s| - 1], t[..k] + t[k + 1..];
      forall x | x in s' ensures x in t' {
        var i :| 0 <= i < |s'| && s'[i] == x;
        assert s[i] == x && x != e;
        assert x in t;
        var j :| 0 <= j < |t| && t[j] == x;
        assert x == if j < k then t'[j] else t'[j - 1];
      }
      MembersOfEqualCount(s', t');
      forall x | x in t ensures x in s {
        var j :| 0 <= j < |t| && t[j] == x;
        if j != k {
          assert x == if j < k then t'[j] else t'[j - 1];
          assert x in t';
          assert x in s';
        }
      }
    }
  }

  ghost predicate Included(a: seq<(Units, Json)>, b: seq<(Units, Json)>) { forall x :: x in a ==> x in b }

  lemma {:induction false} IncludedIsEqual(a: seq<(Units, Json)>, b: seq<(Units, Json)>)
    requires DistinctKeys(a) && DistinctKeys(b) && |a| == |b| && Included(a, b)
    ensures Sort(a) == Sort(b)
  {
    MembersOfEqualCount(a, b);
    SortMembers(a);
    SortMembers(b);
    SortSorts(a);
    SortSorts(b);
    SortedUnique(Sort(a), Sort(b));
  }

  lemma {:induction false} EqualIsIncluded(a: seq<(Units, Json)>, b: seq<(Units, Json)>)
    requires Sort(a) == Sort(b)
    ensures |a| == |b| && Included(a, b)
  {
    SortMembers(a);
    SortMembers(b);
    forall x | x in a ensures x in b {
      assert x in Sort(a);
    }
  }

  /** Objects have equal normal forms exactly when each entry of one is an entry of the other. */
  lemma {:induction false} NormalObjects(v: Json, w: Json, collapse: bool)
    requires v.Obj? && w.Obj? && DistinctKeys(v.fields) && DistinctKeys(w.fields)
    ensures Normal(v, collapse) == Normal(w, collapse) <==>
            |v.fields| == |w.fields| && Included(NormalFields(v, collapse), NormalFields(w, collapse))
  {
    var a, b := NormalFields(v, collapse), NormalFields(w, collapse);
    NormalFieldsDistinct(v, collapse);
    NormalFieldsDistinct(w, collapse);
    if |a| == |b| && Included(a, b) { IncludedIsEqual(a, b); }
    if Sort(a) == Sort(b) { EqualIsIncluded(a, b); }
  }

  lemma {:induction false} FindKey(fields: seq<(Units, Json)>, i: nat)
    requires DistinctKeys(fields) && i < |fields|
    ensures Find(fields, fields[i].0) == i
  {
    var j := Find(fields, fields[i].0);
    assert j < |fields| && fields[j].0 == fields[i].0;
  }

  /** An entry of one normal object is an entry of another exactly when the key is found with an equal value. */
  lemma {:induction false} NormalEntry(v: Json, w: Json, collapse: bool, i: nat)
    requires v.Obj? && w.Obj? && DistinctKeys(w.fields) && i < |v.fields|
    ensures var j := Find(w.fields, v.fields[i].0);
            NormalFields(v, collapse)[i] in NormalFields(w, collapse) <==>
            j < |w.fields| && Normal(v.fields[i].1, collapse) == Normal(w.fields[j].1, collapse)
  {
    var x := NormalFields(v, collapse)[i];
    var j := Find(w.fields, v.fields[i].0);
    if x in NormalFields(w, collapse) {
      var k :| 0 <= k < |w.fields| && NormalFields(w, collapse)[k] == x;
      FindKey(w.fields, k);
    }
    if j < |w.fields| && Normal(v.fields[i].1, collapse) == Normal(w.fields[j].1, collapse) {
      assert NormalFields(w, collapse)[j] == x;
    }
  }

  predicate EntryFound(v: Json, w: Json, collapse: bool, i: nat)
    requires v.Obj? && w.Obj? && i < |v.fields|
  {
    var j := Find(w.fields, v.fields[i].0);
    j < |w.fields| && Normal(v.fields[i].1, collapse) == Normal(w.fields[j].1, collapse)
  }

  predicate AllFound(v: Json, w: Json, collapse: bool)
    requires v.Obj? && w.Obj?
  {
    forall i :: 0 <= i < |v.fields| ==> EntryFound(v, w, collapse, i)
  }

  lemma {:induction false} AllEntries(v: Json, w: Json, collapse: bool)
    requires v.Obj? && w.Obj? && DistinctKeys(w.fields)
    ensures Included(NormalFields(v, collapse), NormalFields(w, collapse)) <==> AllFound(v, w, collapse)
  {
    var a, b := NormalFields(v, collapse), NormalFields(w, collapse);
    forall i | 0 <= i < |v.fields| ensures a[i] in b <==> EntryFound(v, w, collapse, i) {
      NormalEntry(v, w, collapse, i);
    }
    IncludedByIndex(a, b);
  }

  lemma {:induction false} IncludedByIndex(a: seq<(Units, Json)>, b: seq<(Units, Json)>)
    ensures Included(a, b) <==> forall i :: 0 <= i < |a| ==> a[i] in b
  {}

  /** Entries that are equal one by one make an equal object. */
  lemma {:induction false} EntriesAreEqual(v: Json, w: Json)
    requires v.Obj? && w.Obj? && |v.fields| == |w.fields|
    requires forall i, j :: 0 <= i < |v.fields| && 0 <= j < |w.fields| ==>
               (JsonEqual(v.fields[i].1, w.fields[j].1) <==> Normal(v.fields[i].1, true) == Normal(w.fields[j].1, true))
    ensures JsonEqual(v, w) <==> AllFound(v, w, true)
  {
    forall i | 0 <= i < |v.fields|
      ensures EntryFound(v, w, true, i) <==>
              var j := Find(w.fields, v.fields[i].0);
              j < |w.fields| && JsonEqual(v.fields[i].1, w.fields[j].1)
    {}
  }

  /** `jsonEqual` holds exactly when the collapsed normal forms are equal. */
  lemma {:induction false} JsonEqualIsNormal(v: Json, w: Json)
    requires Valid(v) && Valid(w)
    ensures JsonEqual(v, w) <==> Normal(v, true) == Normal(w, true)
    decreases v
  {
    if v.Arr? && w.Arr? && |v.items| == |w.items| {
      forall i | 0 <= i < |v.items|
        ensures JsonEqual(v.items[i], w.items[i]) <==> Normal(v.items[i], true) == Normal(w.items[i], true)
      {
        JsonEqualIsNormal(v.items[i], w.items[i]);
      }
      var a, b := Normal(v, true).items, Normal(w, true).items;
      assert forall i :: 0 <= i < |v.items| ==> a[i] == Normal(v.items[i], true) && b[i] == Normal(w.items[i], true);
      assert a == b <==> forall i :: 0 <= i < |v.items| ==> a[i] == b[i];
    } else if v.Obj? && w.Obj? {
      forall i, j | 0 <= i < |v.fields| && 0 <= j < |w.fields|
        ensures JsonEqual(v.fields[i].1, w.fields[j].1) <==> Normal(v.fields[i].1, true) == Normal(w.fields[j].1, true)
      {
        JsonEqualIsNormal(v.fields[i].1, w.fields[j].1);
      }
      NormalObjects(v, w, true);
      AllEntries(v, w, true);
      if |v.fields| == |w.fields| { EntriesAreEqual(v, w); }
    } else {
      NormalKinds(v, w, true);
    }
  }

  lemma {:induction false} NormalKinds(v: Json, w: Json, collapse: bool)
    requires !(v.Obj? && w.Obj?) && !(v.Arr? && w.Arr? && |v.items| == |w.items|)
    ensures Normal(v, collapse) == Normal(w, collapse) ==>
              (v == w || (collapse && (v.NegZero? || w.NegZero?)))
  {
    if v.Arr? && w.Arr? {
      assert |Normal(v, collapse).items| == |v.items| && |Normal(w, collapse).items| == |w.items|;
    }
  }

  /** `jsonValuesEqual` holds exactly when the normal forms that keep negative zero are equal. */
  lemma {:induction false} ValuesEqualIsNormal(v: Json, w: Json)
    requires Valid(v) && Valid(w)
    ensures ValuesEqual(v, w) <==> Normal(v, false) == Normal(w, false)
    decreases v
  {
    if v.Arr? && w.Arr? && |v.items| == |w.items| {
      forall i | 0 <= i < |v.items|
        ensures ValuesEqual(v.items[i], w.items[i]) <==> Normal(v.items[i], false) == Normal(w.items[i], false)
      {
        ValuesEqualIsNormal(v.items[i], w.items[i]);
      }
      var a, b := Normal(v, false).items, Normal(w, false).items;
      assert forall i :: 0 <= i < |v.items| ==> a[i] == Normal(v.items[i], false) && b[i] == Normal(w.items[i], false);
      assert a == b <==> forall i :: 0 <= i < |v.items| ==> a[i] == b[i];
    } else if v.Obj? && w.Obj? {
      forall i, j | 0 <= i < |v.fields| && 0 <= j < |w.fields|
        ensures ValuesEqual(v.fields[i].1, w.fields[j].1) <==>
                  Normal(v.fields[i].1, false) == Normal(w.fields[j].1, false)
      {
        ValuesEqualIsNormal(v.fields[i].1, w.fields[j].1);
      }
      SortedEntries(v);
      SortedEntries(w);
      SortedObjects(v, w);
    } else {
      NormalKinds(v, w, false);
    }
  }

  /** Looking up a sorted key gives the sorted entry's own value. */
  lemma {:induction false} SortedEntries(v: Json)
    requires v.Obj? && DistinctKeys(v.fields)
    ensures |Sort(v.fields)| == |v.fields|
    ensures forall i :: 0 <= i < |v.fields| ==>
              var j := Find(v.fields, Sort(v.fields)[i].0);
              j < |v.fields| && v.fields[j] == Sort(v.fields)[i]
  {
    SortMembers(v.fields);
    forall i | 0 <= i < |v.fields|
      ensures var j := Find(v.fields, Sort(v.fields)[i].0);
              j < |v.fields| && v.fields[j] == Sort(v.fields)[i]
    {
      assert Sort(v.fields)[i] in Sort(v.fields);
      var k :| 0 <= k < |v.fields| && v.fields[k] == Sort(v.fields)[i];
      FindKey(v.fields, k);
    }
  }

  lemma {:induction false} SortedObjects(v: Json, w: Json)
    requires v.Obj? && w.Obj?
    requires |Sort(v.fields)| == |v.fields| && |Sort(w.fields)| == |w.fields|
    ensures Normal(v, false) == Normal(w, false) <==>
            |v.fields| == |w.fields| &&
            forall i :: 0 <= i < |v.fields| ==>
              Sort(v.fields)[i].0 == Sort(w.fields)[i].0 &&
              Normal(Sort(v.fields)[i].1, false) == Normal(Sort(w.fields)[i].1, false)
  {
    var g := (x: Json) => Normal(x, false);
    NormalFieldsIsMap(v, false);
    NormalFieldsIsMap(w, false);
    SortMap(g, v.fields);
    SortMap(g, w.fields);
    var a, b := MapValues(g, Sort(v.fields)), MapValues(g, Sort(w.fields));
    assert Normal(v, false) == Obj(a) && Normal(w, false) == Obj(b);
    assert forall i :: 0 <= i < |a| ==> a[i] == (Sort(v.fields)[i].0, Normal(Sort(v.fields)[i].1, false));
    assert forall i :: 0 <= i < |b| ==> b[i] == (Sort(w.fields)[i].0, Normal(Sort(w.fields)[i].1, false));
    assert |a| == |b| ==> (a == b <==> forall i :: 0 <= i < |a| ==> a[i] == b[i]);
  }

  // ---------------------------------------------------------------- what the repository relies on

  /** Canonical text is exact for `jsonEqual`, whatever the key order. */
  lemma {:induction false} CanonicalIffJsonEqual(v: Json, w: Json)
    requires Valid(v) && Valid(w)
    ensures Canonical(v) == Canonical(w) <==> JsonEqual(v, w)
  {
    CanonicalIsText(v);
    CanonicalIsText(w);
    JsonEqualIsNormal(v, w);
    if Canonical(v) == Canonical(w) {
      TextInjective(Normal(v, true), Normal(w, true));
    }
  }

  predicate NoNegZero(v: Json)
    decreases v
  {
    match v
    case NegZero => false
    case Arr(items) => forall i :: 0 <= i < |items| ==> NoNegZero(items[i])
    case Obj(fields) => forall i :: 0 <= i < |fields| ==> NoNegZero(fields[i].1)
    case _ => true
  }

  lemma {:induction false} NormalWithoutNegZero(v: Json)
    requires NoNegZero(v)
    ensures Normal(v, true) == Normal(v, false)
    decreases v
  {
    match v
    case Arr(items) =>
      forall i | 0 <= i < |items| ensures Normal(items[i], true) == Normal(items[i], false) {
        NormalWithoutNegZero(items[i]);
      }
    case Obj(fields) =>
      forall i | 0 <= i < |fields| ensures Normal(fields[i].1, true) == Normal(fields[i].1, false) {
        NormalWithoutNegZero(fields[i].1);
      }
      assert NormalFields(v, true) == NormalFields(v, false);
    case _ =>
  }

  /** Without negative zero the canonical text is exact for `jsonValuesEqual` too, so all three notions agree. */
  lemma {:induction false} CanonicalIffValuesEqual(v: Json, w: Json)
    requires Valid(v) && Valid(w) && NoNegZero(v) && NoNegZero(w)
    ensures Canonical(v) == Canonical(w) <==> ValuesEqual(v, w)
    ensures JsonEqual(v, w) <==> ValuesEqual(v, w)
  {
    CanonicalIffJsonEqual(v, w);
    JsonEqualIsNormal(v, w);
    ValuesEqualIsNormal(v, w);
    NormalWithoutNegZero(v);
    NormalWithoutNegZero(w);
  }

  /** Both relations are equivalences. */
  lemma {:induction false} EqualityIsEquivalence(u: Json, v: Json, w: Json)
    requires Valid(u) && Valid(v) && Valid(w)
    ensures JsonEqual(u, u) && (JsonEqual(u, v) ==> JsonEqual(v, u))
    ensures JsonEqual(u, v) && JsonEqual(v, w) ==> JsonEqual(u, w)
    ensures ValuesEqual(u, u) && (ValuesEqual(u, v) ==> ValuesEqual(v, u))
    ensures ValuesEqual(u, v) && ValuesEqual(v, w) ==> ValuesEqual(u, w)
  {
    JsonEqualIsNormal(u, u); JsonEqualIsNormal(u, v); JsonEqualIsNormal(v, u);
    JsonEqualIsNormal(v, w); JsonEqualIsNormal(u, w);
    ValuesEqualIsNormal(u, u); ValuesEqualIsNormal(u, v); ValuesEqualIsNormal(v, u);
    ValuesEqualIsNormal(v, w); ValuesEqualIsNormal(u, w);
  }

  /** Reordering an object's keys changes neither its text nor what it equals. */
  lemma {:induction false} KeyOrderIsIgnored(v: Json, w: Json)
    requires v.Obj? && w.Obj? && Valid(v) && Valid(w) && |v.fields| == |w.fields|
    requires forall x :: x in v.fields ==> x in w.fields
    ensures Canonical(v) == Canonical(w) && JsonEqual(v, w) && ValuesEqual(v, w)
  {
    MembersOfEqualCount(v.fields, w.fields);
    SortMembers(v.fields);
    SortMembers(w.fields);
    SortSorts(v.fields);
    SortSorts(w.fields);
    SortedUnique(Sort(v.fields), Sort(w.fields));
    SortedObjects(v, w);
    ValuesEqualIsNormal(v, w);
    SameUnderCollapse(v, w);
    JsonEqualIsNormal(v, w);
    CanonicalIffJsonEqual(v, w);
  }

  lemma {:induction false} SameUnderCollapse(v: Json, w: Json)
    requires v.Obj? && w.Obj? && Sort(v.fields) == Sort(w.fields)
    ensures Normal(v, true) == Normal(w, true)
  {
    var g := (x: Json) => Normal(x, true);
    NormalFieldsIsMap(v, true);
    NormalFieldsIsMap(w, true);
    SortMap(g, v.fields);
    SortMap(g, w.fields);
  }

  // ---------------------------------------------------------------- the exception: zero

  predicate HasZero(v: Json)
    decreases v
  {
    match v
    case NegZero => true
    case Num(t) => t == ZERO
    case Arr(items) => exists i :: 0 <= i < |items| && HasZero(items[i])
    case Obj(fields) => exists i :: 0 <= i < |fields| && HasZero(fields[i].1)
    case _ => false
  }

  /** The same value with the sign of every zero changed. */
  function Flip(v: Json): Json
    decreases v
  {
    match v
    case NegZero => Num(ZERO)
    case Num(t) => if t == ZERO then NegZero else v
    case Arr(items) => Arr(seq(|items|, i requires 0 <= i < |items| => Flip(items[i])))
    case Obj(fields) => Obj(seq(|fields|, i requires 0 <= i < |fields| => (fields[i].0, Flip(fields[i].1))))
    case _ => v
  }

  lemma {:induction false} FlipChanges(v: Json)
    ensures HasZero(v) ==> Flip(v) != v
    decreases v
  {
    if v.Arr? && HasZero(v) {
      var i :| 0 <= i < |v.items| && HasZero(v.items[i]);
      FlipChanges(v.items[i]);
      assert Flip(v).items[i] == Flip(v.items[i]);
    }
    if v.Obj? && HasZero(v) {
      var i :| 0 <= i < |v.fields| && HasZero(v.fields[i].1);
      FlipChanges(v.fields[i].1);
      assert Flip(v).fields[i].1 == Flip(v.fields[i].1);
    }
  }

  lemma {:induction false} FlipValid(v: Json)
    requires Valid(v)
    ensures Valid(Flip(v))
    decreases v
  {
    match v
    case Arr(items) => forall i | 0 <= i < |items| ensures Valid(Flip(items[i])) { FlipValid(items[i]); }
    case Obj(fields) => forall i | 0 <= i < |fields| ensures Valid(Flip(fields[i].1)) { FlipValid(fields[i].1); }
    case _ =>
  }

  /** Changing the signs of zeros is lost by the collapsed normal form and kept by the other. */
  lemma {:induction false} FlipNormal(v: Json)
    ensures Normal(Flip(v), true) == Normal(v, true)
    ensures Normal(Flip(v), false) == Flip(Normal(v, false))
    decreases v
  {
    match v
    case Arr(items) =>
      forall i | 0 <= i < |items|
        ensures Normal(Flip(items[i]), true) == Normal(items[i], true)
        ensures Normal(Flip(items[i]), false) == Flip(Normal(items[i], false))
      {
        FlipNormal(items[i]);
      }
    case Obj(fields) =>
      forall i | 0 <= i < |fields|
        ensures Normal(Flip(fields[i].1), true) == Normal(fields[i].1, true)
        ensures Normal(Flip(fields[i].1), false) == Flip(Normal(fields[i].1, false))
      {
        FlipNormal(fields[i].1);
      }
      FlipObject(v);
    case _ =>
  }

  lemma {:induction false} FlipObject(v: Json)
    requires v.Obj?
    requires forall i :: 0 <= i < |v.fields| ==>
               Normal(Flip(v.fields[i].1), true) == Normal(v.fields[i].1, true) &&
               Normal(Flip(v.fields[i].1), false) == Flip(Normal(v.fields[i].1, false))
    ensures Normal(Flip(v), true) == Normal(v, true)
    ensures Normal(Flip(v), false) == Flip(Normal(v, false))
  {
    assert NormalFields(Flip(v), true) == NormalFields(v, true);
    var g := (x: Json) => Flip(x);
    assert NormalFields(Flip(v), false) == MapValues(g, NormalFields(v, false));
    SortMap(g, NormalFields(v, false));
    assert Flip(Normal(v, false)) == Obj(MapValues(g, Sort(NormalFields(v, false))));
  }

  lemma {:induction false} NormalKeepsZeros(v: Json, collapse: bool)
    ensures HasZero(Normal(v, collapse)) <==> HasZero(v)
    decreases v
  {
    match v
    case Arr(items) =>
      forall i | 0 <= i < |items| ensures HasZero(Normal(items[i], collapse)) <==> HasZero(items[i]) {
        NormalKeepsZeros(items[i], collapse);
      }
      var ns := Normal(v, collapse).items;
      assert forall i :: 0 <= i < |items| ==> ns[i] == Normal(items[i], collapse);
    case Obj(fields) =>
      forall i | 0 <= i < |fields| ensures HasZero(Normal(fields[i].1, collapse)) <==> HasZero(fields[i].1) {
        NormalKeepsZeros(fields[i].1, collapse);
      }
      NormalObjectZeros(v, collapse);
    case _ =>
  }

  lemma {:induction false} NormalObjectZeros(v: Json, collapse: bool)
    requires v.Obj?
    requires forall i :: 0 <= i < |v.fields| ==> (HasZero(Normal(v.fields[i].1, collapse)) <==> HasZero(v.fields[i].1))
    ensures HasZero(Normal(v, collapse)) <==> HasZero(v)
  {
    var ns := NormalFields(v, collapse);
    SortMembers(ns);
    if HasZero(v) {
      var i :| 0 <= i < |v.fields| && HasZero(v.fields[i].1);
      assert ns[i] in Sort(ns);
      var j :| 0 <= j < |Sort(ns)| && Sort(ns)[j] == ns[i];
    }
    if HasZero(Normal(v, collapse)) {
      var j :| 0 <= j < |Sort(ns)| && HasZero(Sort(ns)[j].1);
      assert Sort(ns)[j] in ns;
      var i :| 0 <= i < |ns| && ns[i] == Sort(ns)[j];
    }
  }

  lemma {:induction false} ZeroFree(v: Json)
    requires !HasZero(v)
    ensures NoNegZero(v)
    decreases v
  {
    match v
    case Arr(items) => forall i | 0 <= i < |items| ensures NoNegZero(items[i]) { ZeroFree(items[i]); }
    case Obj(fields) => forall i | 0 <= i < |fields| ensures NoNegZero(fields[i].1) { ZeroFree(fields[i].1); }
    case _ =>
  }

  /** Equal canonical text guarantees `jsonValuesEqual` for a value exactly when the value holds no zero. */
  lemma {:induction false} ZeroIsTheException(v: Json)
    requires Valid(v)
    ensures (forall w :: Valid(w) && Canonical(v) == Canonical(w) ==> ValuesEqual(v, w)) <==> !HasZero(v)
  {
    if HasZero(v) {
      FlipValid(v);
      FlipNormal(v);
      CanonicalIsText(v);
      CanonicalIsText(Flip(v));
      NormalKeepsZeros(v, false);
      FlipChanges(Normal(v, false));
      ValuesEqualIsNormal(v, Flip(v));
      assert Canonical(v) == Canonical(Flip(v)) && !ValuesEqual(v, Flip(v));
    } else {
      forall w | Valid(w) && Canonical(v) == Canonical(w) ensures ValuesEqual(v, w) {
        ZeroFreeTextIsExact(v, w);
      }
    }
  }

  lemma {:induction false} ZeroFreeTextIsExact(v: Json, w: Json)
    requires Valid(v) && Valid(w) && !HasZero(v) && Canonical(v) == Canonical(w)
    ensures ValuesEqual(v, w)
  {
    CanonicalIffJsonEqual(v, w);
    JsonEqualIsNormal(v, w);
    NormalKeepsZeros(v, true);
    NormalKeepsZeros(w, true);
    ZeroFree(v);
    ZeroFree(w);
    CanonicalIffValuesEqual(v, w);
  }

  // ---------------------------------------------------------------- stored copies

  /** `JSON.parse(JSON.stringify(v))`: the same value, except that negative zero comes back as zero. */
  function Clone(v: Json): Json
    decreases v
  {
    match v
    case NegZero => Num(ZERO)
    case Arr(items) => Arr(seq(|items|, i requires 0 <= i < |items| => Clone(items[i])))
    case Obj(fields) => Obj(seq(|fields|, i requires 0 <= i < |fields| => (fields[i].0, Clone(fields[i].1))))
    case _ => v
  }

  lemma {:induction false} CloneNormal(v: Json)
    requires Valid(v)
    ensures Valid(Clone(v)) && Normal(Clone(v), true) == Normal(v, true)
    decreases v
  {
    match v
    case Arr(items) =>
      forall i | 0 <= i < |items|
        ensures Valid(Clone(items[i])) && Normal(Clone(items[i]), true) == Normal(items[i], true)
      {
        CloneNormal(items[i]);
      }
    case Obj(fields) =>
      forall i | 0 <= i < |fields|
        ensures Valid(Clone(fields[i].1)) && Normal(Clone(fields[i].1), true) == Normal(fields[i].1, true)
      {
        CloneNormal(fields[i].1);
      }
      assert NormalFields(Clone(v), true) == NormalFields(v, true);
    case _ =>
  }

  /** A stored copy always counts as equal to the value it was made from, even with negative zero. */
  lemma {:induction false} CloneIsEqual(v: Json)
    requires Valid(v)
    ensures Valid(Clone(v)) && JsonEqual(Clone(v), v)
  {
    CloneNormal(v);
    JsonEqualIsNormal(Clone(v), v);
  }
}
