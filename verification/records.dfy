/** One table of the embedded store (`db.table(name)`): records carry an
    auto-incremented primary key (`++id`) and are kept in primary-key order,
    which is the order `toArray()` returns them in. */
module Records {

  datatype Row<T> = Row(id: int, data: T)

  /** Primary keys strictly increase along the table (so no key occurs twice). */
  predicate IncreasingIds<T>(rows: seq<Row<T>>) {
    forall i, j :: 0 <= i < j < |rows| ==> rows[i].id < rows[j].id
  }

  predicate HasId<T(==)>(rows: seq<Row<T>>, id: int) {
    exists x :: x in rows && x.id == id
  }

  /** `rows.filter((r) => r.id !== id)`: the rows with another key, in their order. */
  function RemoveId<T(==)>(rows: seq<Row<T>>, id: int): (r: seq<Row<T>>)
    ensures |r| <= |rows|
    ensures forall x :: x in r ==> x in rows && x.id != id
    ensures forall x :: x in rows && x.id != id ==> x in r
  {
    if rows == [] then []
    else
      assert rows == [rows[0]] + rows[1..];
      if rows[0].id == id then RemoveId(rows[1..], id)
      else [rows[0]] + RemoveId(rows[1..], id)
  }

  /** Deleting a key the table does not hold changes nothing. */
  lemma {:induction false} RemoveIdAbsent<T>(rows: seq<Row<T>>, id: int)
    requires !HasId(rows, id)
    ensures RemoveId(rows, id) == rows
  {
    if rows != [] {
      assert rows[0] in rows;
      assert !HasId(rows[1..], id) by {
        forall x | x in rows[1..] ensures x.id != id {
          assert x in rows;
        }
      }
      RemoveIdAbsent(rows[1..], id);
      assert rows == [rows[0]] + rows[1..];
    }
  }

  /** Deleting keeps the primary-key order. */
  lemma {:induction false} RemoveIdKeepsOrder<T>(rows: seq<Row<T>>, id: int)
    requires IncreasingIds(rows)
    ensures IncreasingIds(RemoveId(rows, id))
  {
    if rows != [] {
      var rest := RemoveId(rows[1..], id);
      RemoveIdKeepsOrder(rows[1..], id);
      forall x | x in rest ensures rows[0].id < x.id {
        var i :| 0 <= i < |rows[1..]| && rows[1..][i] == x;
        assert rows[i + 1] == x;
      }
      IncreasingCons(rows[0], rest);
    }
  }

  lemma IncreasingCons<T>(x: Row<T>, rest: seq<Row<T>>)
    requires IncreasingIds(rest) && forall y :: y in rest ==> x.id < y.id
    ensures IncreasingIds([x] + rest)
  {
    forall i, j | 0 <= i < j < |[x] + rest| ensures ([x] + rest)[i].id < ([x] + rest)[j].id {
      assert ([x] + rest)[j] == rest[j - 1] && rest[j - 1] in rest;
      assert i == 0 || ([x] + rest)[i] == rest[i - 1];
    }
  }

  /** Removing a key distributes over concatenation: the kept rows stay in order. */
  lemma {:induction false} RemoveIdAppend<T>(a: seq<Row<T>>, b: seq<Row<T>>, id: int)
    ensures RemoveId(a + b, id) == RemoveId(a, id) + RemoveId(b, id)
  {
    if a == [] {
      assert a + b == b;
    } else {
      assert (a + b)[0] == a[0] && (a + b)[1..] == a[1..] + b;
      RemoveIdAppend(a[1..], b, id);
    }
  }

  /** `rows.map((r) => r.id === id ? { ...data, id } : r)`: the row(s) with key `id`
      get the new data, every other row is unchanged. */
  function ReplaceId<T>(rows: seq<Row<T>>, id: int, data: T): (r: seq<Row<T>>)
    ensures |r| == |rows|
    ensures forall k :: 0 <= k < |rows| ==> r[k] == if rows[k].id == id then Row(id, data) else rows[k]
  {
    if rows == [] then []
    else [if rows[0].id == id then Row(id, data) else rows[0]] + ReplaceId(rows[1..], id, data)
  }

  /** Replacing data never changes which keys the table holds. */
  lemma ReplaceIdKeepsIds<T>(rows: seq<Row<T>>, id: int, data: T)
    ensures forall k :: 0 <= k < |rows| ==> ReplaceId(rows, id, data)[k].id == rows[k].id
    ensures IncreasingIds(rows) ==> IncreasingIds(ReplaceId(rows, id, data))
  {
  }

  /** A table: rows in primary-key order and the key generator (`++id`, first key 1). */
  class Table<T(==)> {
    var rows: seq<Row<T>>
    var nextId: int

    ghost predicate Valid()
      reads this
    {
      && IncreasingIds(rows)
      && 1 <= nextId
      && forall k :: 0 <= k < |rows| ==> 1 <= rows[k].id < nextId
    }

    constructor ()
      ensures Valid() && rows == [] && nextId == 1
    {
      rows := [];
      nextId := 1;
    }

    /** `add(data)`: stores a record under a fresh key and returns that key. */
    method Add(data: T) returns (id: int)
      requires Valid()
      modifies this
      ensures Valid()
      ensures id == old(nextId) && !HasId(old(rows), id) && 1 <= id
      ensures rows == old(rows) + [Row(id, data)]
      ensures nextId == id + 1
    {
      id := nextId;
      rows := rows + [Row(id, data)];
      nextId := nextId + 1;
    }

    /** `update(id, data)`: the record with that key takes the new data; returns how many were updated. */
    method Update(id: int, data: T) returns (count: nat)
      requires Valid()
      modifies this`rows
      ensures Valid()
      ensures rows == ReplaceId(old(rows), id, data)
      ensures count == if HasId(old(rows), id) then 1 else 0
    {
      ReplaceIdKeepsIds(rows, id, data);
      count := if HasId(rows, id) then 1 else 0;
      rows := ReplaceId(rows, id, data);
    }

    /** `delete(id)`: removes the record with that key; deleting a missing key changes nothing. */
    method Delete(id: int)
      requires Valid()
      modifies this`rows
      ensures Valid()
      ensures rows == RemoveId(old(rows), id)
    {
      RemoveIdKeepsOrder(rows, id);
      rows := RemoveId(rows, id);
    }

    /** `clear()`: empties the table; the key generator is not reset. */
    method Clear()
      requires Valid()
      modifies this`rows
      ensures Valid() && rows == []
    {
      rows := [];
    }

    /** `toArray()`: every record, in primary-key order. */
    method ToArray() returns (all: seq<Row<T>>)
      requires Valid()
      ensures all == rows && IncreasingIds(all)
    {
      all := rows;
    }
  }
}
