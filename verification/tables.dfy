/**
 * A table is a sequence of rows, each an id and the record's fields. These
 * are the list operations the in-memory store of the test suite performs on
 * each of its four lists (tests/test_crud.py), written once for every table.
 */
module Tables {
  import opened Wrappers

  datatype Row<T> = Row(id: int, fields: T)

  function Ids<T(==)>(t: seq<Row<T>>): set<int> {
    set r | r in t :: r.id
  }

  /** Ids strictly increase along the table: they are unique, and listing the
      table lists it in ascending id order. */
  ghost predicate Ascending<T>(t: seq<Row<T>>) {
    forall i, j :: 0 <= i < j < |t| ==> t[i].id < t[j].id
  }

  /** `next((r for r in t if r["id"] == id), None)`: the first row with that id. */
  function Find<T(==)>(t: seq<Row<T>>, id: int): (r: Option<Row<T>>)
    ensures r.Some? <==> id in Ids(t)
    ensures r.Some? ==> r.value in t && r.value.id == id
  {
    if t == [] then None
    else if t[0].id == id then Some(t[0])
    else
      assert Ids(t) == {t[0].id} + Ids(t[1..]) by { assert t == [t[0]] + t[1..]; }
      Find(t[1..], id)
  }

  /** In a table with unique ids, the row found is the only row with that id. */
  lemma FindUnique<T>(t: seq<Row<T>>, r: Row<T>)
    requires Ascending(t) && r in t
    ensures Find(t, r.id) == Some(r)
  {
    var found := Find(t, r.id).value;
    var i :| 0 <= i < |t| && t[i] == r;
    var j :| 0 <= j < |t| && t[j] == found;
    assert i == j;
  }

  /** `max(r["id"] for r in t)` */
  function MaxId<T(==)>(t: seq<Row<T>>): (m: int)
    requires t != []
    ensures m in Ids(t)
    ensures forall r :: r in t ==> r.id <= m
  {
    if |t| == 1 then t[0].id
    else
      var rest := MaxId(t[1..]);
      assert forall r :: r in t ==> r == t[0] || r in t[1..];
      if t[0].id >= rest then t[0].id else rest
  }

  /** `next_id`: one more than the largest id, or 1 for an empty table. */
  function NextId<T(==)>(t: seq<Row<T>>): (n: int)
    ensures t == [] ==> n == 1
    ensures t != [] ==> n - 1 in Ids(t)
    ensures forall r :: r in t ==> r.id < n
  {
    if t == [] then 1 else MaxId(t) + 1
  }

  /** The id `next_id` hands out is not yet taken. */
  lemma NextIdFresh<T>(t: seq<Row<T>>)
    ensures NextId(t) !in Ids(t)
  {
  }

  /** Appending a row under the next id keeps the ids ascending and adds exactly that id. */
  lemma AppendNext<T>(t: seq<Row<T>>, f: T)
    requires Ascending(t)
    ensures Ascending(t + [Row(NextId(t), f)])
    ensures Ids(t + [Row(NextId(t), f)]) == Ids(t) + {NextId(t)}
  {
    var u := t + [Row(NextId(t), f)];
    forall i, j | 0 <= i < j < |u| ensures u[i].id < u[j].id {
      if j == |t| {
        assert u[i] in t;
      }
    }
    assert forall r :: r in u <==> r in t || r == Row(NextId(t), f);
  }

  /** Looking up the id just handed out finds the row just appended. */
  lemma FindAppended<T>(t: seq<Row<T>>, f: T)
    ensures Find(t + [Row(NextId(t), f)], NextId(t)) == Some(Row(NextId(t), f))
  {
    var n := NextId(t);
    var u := t + [Row(n, f)];
    assert Row(n, f) in u;
    var x := Find(u, n).value;
    assert x in t || x == Row(n, f);
  }

  /** `[r for r in t if keep(r)]`: the rows that pass, in their original order. */
  function Where<T(==,!new)>(t: seq<Row<T>>, keep: Row<T> -> bool): (r: seq<Row<T>>)
    ensures |r| <= |t|
    ensures forall x :: x in r <==> x in t && keep(x)
    ensures Ascending(t) ==> Ascending(r)
  {
    if t == [] then []
    else
      var rest := Where(t[1..], keep);
      assert forall x :: x in t <==> x == t[0] || x in t[1..];
      if keep(t[0]) then
        assert Ascending(t) ==> forall x :: x in rest ==> t[0].id < x.id;
        [t[0]] + rest
      else rest
  }

  /** The filter keeps every passing row as often as it occurs and drops
      every other row. */
  lemma {:induction false} WhereCounts<T(!new)>(t: seq<Row<T>>, keep: Row<T> -> bool)
    ensures forall x :: multiset(Where(t, keep))[x] == if keep(x) then multiset(t)[x] else 0
  {
    if t != [] {
      WhereCounts(t[1..], keep);
      assert t == [t[0]] + t[1..];
      assert multiset(t) == multiset{t[0]} + multiset(t[1..]);
    }
  }

  /** `t[:] = [r for r in t if r["id"] != id]` */
  function Remove<T(==,!new)>(t: seq<Row<T>>, id: int): (r: seq<Row<T>>)
    ensures forall x :: x in r <==> x in t && x.id != id
    ensures Ids(r) == Ids(t) - {id}
    ensures Ascending(t) ==> Ascending(r)
  {
    var r := Where(t, (x: Row<T>) => x.id != id);
    assert forall k :: k in Ids(r) <==> k in Ids(t) && k != id by {
      forall k ensures k in Ids(r) <==> k in Ids(t) && k != id {
        if k in Ids(t) && k != id {
          var x :| x in t && x.id == k;
          assert x in r;
        }
      }
    }
    r
  }

  /** `item.update(fields)` on the row with that id: the table keeps its
      length and the id at every position, the row with that id now carries
      the new fields, and every row with another id is kept. */
  function Update<T(==,!new)>(t: seq<Row<T>>, id: int, f: T): (r: seq<Row<T>>)
    ensures |r| == |t| && forall i :: 0 <= i < |t| ==> r[i].id == t[i].id
    ensures Ids(r) == Ids(t)
    ensures Ascending(t) ==> Ascending(r)
    ensures forall x :: x in r <==> (x in t && x.id != id) || (x == Row(id, f) && id in Ids(t))
  {
    var r := seq(|t|, i requires 0 <= i < |t| => if t[i].id == id then Row(id, f) else t[i]);
    assert forall x :: x in r <==> (x in t && x.id != id) || (x == Row(id, f) && id in Ids(t)) by {
      forall x ensures x in r <==> (x in t && x.id != id) || (x == Row(id, f) && id in Ids(t)) {
        if x in r {
          var i :| 0 <= i < |r| && r[i] == x;
          assert t[i] in t;
        }
        if x in t && x.id != id {
          var i :| 0 <= i < |t| && t[i] == x;
          assert r[i] == x;
        }
        if x == Row(id, f) && id in Ids(t) {
          var y :| y in t && y.id == id;
          var i :| 0 <= i < |t| && t[i] == y;
          assert r[i] == x;
        }
      }
    }
    assert Ids(r) == Ids(t) by {
      forall k ensures k in Ids(r) <==> k in Ids(t) {
        if k in Ids(t) {
          var x :| x in t && x.id == k;
          var i :| 0 <= i < |t| && t[i] == x;
          assert r[i] in r;
        }
        if k in Ids(r) {
          var x :| x in r && x.id == k;
          var i :| 0 <= i < |r| && r[i] == x;
          assert t[i] in t;
        }
      }
    }
    r
  }

  /** Position by position, the row with that id is replaced and every other row is kept. */
  lemma UpdateAt<T(!new)>(t: seq<Row<T>>, id: int, f: T, i: int)
    requires 0 <= i < |t|
    ensures Update(t, id, f)[i] == if t[i].id == id then Row(id, f) else t[i]
  {
  }

  /** After an update, the row with that id reads back with the new fields,
      and every other id reads back as before. */
  lemma UpdateThenFind<T(!new)>(t: seq<Row<T>>, id: int, f: T, other: int)
    requires Ascending(t) && id in Ids(t)
    ensures Find(Update(t, id, f), id) == Some(Row(id, f))
    ensures other != id ==> Find(Update(t, id, f), other) == Find(t, other)
  {
    var u := Update(t, id, f);
    var x :| x in t && x.id == id;
    var i :| 0 <= i < |t| && t[i] == x;
    UpdateAt(t, id, f, i);
    FindUnique(u, Row(id, f));
    if other != id && other in Ids(t) {
      var y := Find(t, other).value;
      var j :| 0 <= j < |t| && t[j] == y;
      UpdateAt(t, id, f, j);
      FindUnique(u, y);
    }
  }

  /** A table with unique ids that holds exactly one row is that row alone. */
  lemma AscendingSingleton<T>(t: seq<Row<T>>, r: Row<T>)
    requires Ascending(t)
    requires forall x :: x in t <==> x == r
    ensures t == [r]
  {
    assert r in t;
    assert t[0] in t;
    var last := |t| - 1;
    assert t[last] in t;
    assert t[last].id == t[0].id;
  }

  /** A sequence is empty exactly when nothing is in it. */
  lemma Empty<T>(t: seq<T>)
    ensures t == [] <==> forall x :: x !in t
  {
    if t != [] {
      assert t[0] in t;
    }
  }

  /** A table with ascending ids is fixed by the rows it holds: two such
      tables with the same members are the same sequence. So `Where`, which
      keeps ids ascending and keeps exactly the rows that pass, lists them in
      the order the table does. */
  lemma {:induction false} AscendingSameMembers<T>(a: seq<Row<T>>, b: seq<Row<T>>)
    requires Ascending(a) && Ascending(b)
    requires forall x :: x in a <==> x in b
    ensures a == b
  {
    if a == [] || b == [] {
      Empty(a);
      Empty(b);
    } else {
      assert a[0] in b && b[0] in a;
      var i :| 0 <= i < |a| && a[i] == b[0];
      var j :| 0 <= j < |b| && b[j] == a[0];
      assert a[0].id <= a[i].id == b[0].id <= b[j].id == a[0].id;
      assert i == 0;
      forall x ensures x in a[1..] <==> x in b[1..] {
        assert x in a[1..] <==> x in a && x != a[0];
        assert x in b[1..] <==> x in b && x != b[0];
      }
      AscendingSameMembers(a[1..], b[1..]);
      assert a == [a[0]] + a[1..] && b == [b[0]] + b[1..];
    }
  }

  lemma {:induction false} WhereKeepsAll<T(!new)>(t: seq<Row<T>>, keep: Row<T> -> bool)
    requires forall x :: x in t ==> keep(x)
    ensures Where(t, keep) == t
  {
    if t != [] {
      assert t[0] in t;
      assert forall x :: x in t[1..] ==> x in t;
      WhereKeepsAll(t[1..], keep);
      assert Where(t, keep) == [t[0]] + Where(t[1..], keep);
      assert [t[0]] + t[1..] == t;
    }
  }

  lemma {:induction false} WhereDropsLast<T(!new)>(t: seq<Row<T>>, x: Row<T>, keep: Row<T> -> bool)
    requires !keep(x)
    ensures Where(t + [x], keep) == Where(t, keep)
  {
    if t == [] {
      assert [] + [x] == [x];
      assert [x][1..] == [];
    } else {
      assert (t + [x])[0] == t[0];
      assert (t + [x])[1..] == t[1..] + [x];
      WhereDropsLast(t[1..], x, keep);
    }
  }

  /** Removing the row just appended under the next id gives back the table
      as it was before the append. */
  lemma RemoveAppended<T(!new)>(t: seq<Row<T>>, f: T)
    ensures Remove(t + [Row(NextId(t), f)], NextId(t)) == t
  {
    var n := NextId(t);
    var keep := (x: Row<T>) => x.id != n;
    WhereDropsLast(t, Row(n, f), keep);
    WhereKeepsAll(t, keep);
  }

  /** Updating the row just appended under the next id replaces only its fields. */
  lemma UpdateAppended<T(!new)>(t: seq<Row<T>>, f: T, g: T)
    ensures Update(t + [Row(NextId(t), f)], NextId(t), g) == t + [Row(NextId(t), g)]
  {
    var n := NextId(t);
    var u := Update(t + [Row(n, f)], n, g);
    forall i | 0 <= i < |t| ensures u[i] == t[i] {
      assert t[i] in t;
      UpdateAt(t + [Row(n, f)], n, g, i);
    }
    UpdateAt(t + [Row(n, f)], n, g, |t|);
  }
}
