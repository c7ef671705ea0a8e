/** One object store of a scope: at most one row per conversation. */
module Tables {
  import opened Options

  /** A row with the bytes it is charged for and the number of items it holds. */
  datatype Row<T> = Row(conversation: nat, bytes: nat, count: nat, value: T)
  type Table<T> = seq<Row<T>>

  function Get<T>(t: Table<T>, c: nat): Option<Row<T>> {
    if t == [] then None
    else if t[|t| - 1].conversation == c then Some(t[|t| - 1]) else Get(t[..|t| - 1], c)
  }

  /** No conversation has two rows. */
  predicate Distinct<T>(t: Table<T>) {
    t == [] || (Distinct(t[..|t| - 1]) && Get(t[..|t| - 1], t[|t| - 1].conversation).None?)
  }

  function Without<T>(t: Table<T>, c: nat): Table<T> {
    if t == [] then []
    else if t[|t| - 1].conversation == c then Without(t[..|t| - 1], c)
    else Without(t[..|t| - 1], c) + [t[|t| - 1]]
  }

  /** `put`; the order of rows, which no budget depends on, is the order of their last write. */
  function Put<T>(t: Table<T>, row: Row<T>): Table<T> { Without(t, row.conversation) + [row] }

  function Bytes<T>(t: Table<T>): nat {
    if t == [] then 0 else Bytes(t[..|t| - 1]) + t[|t| - 1].bytes
  }

  function Count<T>(t: Table<T>): nat {
    if t == [] then 0 else Count(t[..|t| - 1]) + t[|t| - 1].count
  }

  /** `getAll` with a limit. */
  function FirstRows<T>(t: Table<T>, limit: nat): Table<T> { if |t| <= limit then t else t[..limit] }

  lemma {:induction false} GetSpec<T>(t: Table<T>, c: nat)
    ensures Get(t, c).None? ==> Without(t, c) == t
    ensures Get(t, c).Some? ==> Get(t, c).value.conversation == c
  {
    if t != [] {
      GetSpec(t[..|t| - 1], c);
      assert t == t[..|t| - 1] + [t[|t| - 1]];
    }
  }

  /** Writing or deleting one conversation's row leaves every other row readable as before. */
  lemma {:induction false} GetWithout<T>(t: Table<T>, c: nat, d: nat)
    ensures Get(Without(t, c), d) == if c == d then None else Get(t, d)
  {
    if t != [] {
      var init, last := t[..|t| - 1], t[|t| - 1];
      GetWithout(init, c, d);
      var w := Without(init, c);
      assert (w + [last])[..|w|] == w;
    }
  }

  lemma {:induction false} GetPut<T>(t: Table<T>, row: Row<T>, d: nat)
    ensures Get(Put(t, row), d) == if row.conversation == d then Some(row) else Get(t, d)
  {
    GetWithout(t, row.conversation, d);
    var w := Without(t, row.conversation);
    assert (w + [row])[..|w|] == w;
  }

  lemma {:induction false} WithoutDistinct<T>(t: Table<T>, c: nat)
    requires Distinct(t)
    ensures Distinct(Without(t, c))
    ensures Bytes(Without(t, c)) == Bytes(t) - (if Get(t, c).Some? then Get(t, c).value.bytes else 0)
    ensures Count(Without(t, c)) == Count(t) - (if Get(t, c).Some? then Get(t, c).value.count else 0)
    ensures |Without(t, c)| == |t| - (if Get(t, c).Some? then 1 else 0)
  {
    if t != [] {
      var init, last := t[..|t| - 1], t[|t| - 1];
      WithoutDistinct(init, c);
      if last.conversation == c {
        GetSpec(init, c);
      } else {
        GetWithout(init, c, last.conversation);
        var w := Without(init, c);
        assert (w + [last])[..|w|] == w;
      }
    }
  }

  lemma {:induction false} PutDistinct<T>(t: Table<T>, row: Row<T>)
    requires Distinct(t)
    ensures Distinct(Put(t, row))
    ensures Bytes(Put(t, row)) == Bytes(Without(t, row.conversation)) + row.bytes
    ensures Count(Put(t, row)) == Count(Without(t, row.conversation)) + row.count
    ensures |Put(t, row)| == |Without(t, row.conversation)| + 1
  {
    WithoutDistinct(t, row.conversation);
    GetWithout(t, row.conversation, row.conversation);
    var w := Without(t, row.conversation);
    assert (w + [row])[..|w|] == w;
  }

  predicate All<T(!new)>(t: Table<T>, p: Row<T> -> bool) { t == [] || (All(t[..|t| - 1], p) && p(t[|t| - 1])) }

  lemma {:induction false} AllWithout<T(!new)>(t: Table<T>, p: Row<T> -> bool, c: nat)
    requires All(t, p)
    ensures All(Without(t, c), p)
  {
    if t != [] {
      AllWithout(t[..|t| - 1], p, c);
      var w := Without(t[..|t| - 1], c);
      assert (w + [t[|t| - 1]])[..|w|] == w;
    }
  }

  lemma {:induction false} AllPut<T(!new)>(t: Table<T>, p: Row<T> -> bool, row: Row<T>)
    requires All(t, p) && p(row)
    ensures All(Put(t, row), p)
  {
    AllWithout(t, p, row.conversation);
    var w := Without(t, row.conversation);
    assert (w + [row])[..|w|] == w;
  }

  /** The rows other than one conversation's, their items and their bytes, added up as the stores do. */
  method Others<T>(rows: Table<T>, c: nat) returns (conversations: nat, items: nat, bytes: nat)
    ensures conversations == |Without(rows, c)| && items == Count(Without(rows, c)) && bytes == Bytes(Without(rows, c))
  {
    conversations, items, bytes := 0, 0, 0;
    var i := 0;
    while i < |rows|
      invariant 0 <= i <= |rows| && conversations == |Without(rows[..i], c)|
      invariant items == Count(Without(rows[..i], c)) && bytes == Bytes(Without(rows[..i], c))
    {
      var w := Without(rows[..i], c);
      assert rows[..i + 1][..i] == rows[..i];
      assert (w + [rows[i]])[..|w|] == w;
      if rows[i].conversation != c {
        conversations, items, bytes := conversations + 1, items + rows[i].count, bytes + rows[i].bytes;
      }
      i := i + 1;
    }
    assert rows[..i] == rows;
  }
}
