/** ORDER BY: a stable sort by a strict order. Rows that tie keep their table order. */
module Sorting {
  /** after(a, b): a must stand behind b. */
  ghost predicate IsOrder<T(!new)>(after: (T, T) -> bool) {
    && (forall a, b :: after(a, b) ==> !after(b, a))
    && (forall a, b, c :: !after(a, b) && !after(b, c) ==> !after(a, c))
  }

  ghost predicate InOrder<T>(after: (T, T) -> bool, rows: seq<T>) {
    forall i, j :: 0 <= i < j < |rows| ==> !after(rows[i], rows[j])
  }

  function Inserted<T>(after: (T, T) -> bool, x: T, rows: seq<T>): seq<T> {
    if rows == [] || !after(rows[|rows| - 1], x) then rows + [x]
    else Inserted(after, x, rows[..|rows| - 1]) + [rows[|rows| - 1]]
  }

  function Sorted<T>(after: (T, T) -> bool, rows: seq<T>): seq<T> {
    if rows == [] then [] else Inserted(after, rows[|rows| - 1], Sorted(after, rows[..|rows| - 1]))
  }

  lemma {:induction false} InsertedKeepsRows<T>(after: (T, T) -> bool, x: T, rows: seq<T>)
    ensures forall y :: y in Inserted(after, x, rows) <==> y == x || y in rows
  {
    if rows != [] && after(rows[|rows| - 1], x) {
      InsertedKeepsRows(after, x, rows[..|rows| - 1]);
      assert rows == rows[..|rows| - 1] + [rows[|rows| - 1]];
    }
  }

  lemma {:induction false} SortedKeepsRows<T>(after: (T, T) -> bool, rows: seq<T>)
    ensures forall y :: y in Sorted(after, rows) <==> y in rows
  {
    if rows == [] {
    } else {
      SortedKeepsRows(after, rows[..|rows| - 1]);
      InsertedKeepsRows(after, rows[|rows| - 1], Sorted(after, rows[..|rows| - 1]));
      assert rows == rows[..|rows| - 1] + [rows[|rows| - 1]];
    }
  }

  lemma {:induction false} InsertedInOrder<T(!new)>(after: (T, T) -> bool, x: T, rows: seq<T>)
    requires IsOrder(after) && InOrder(after, rows)
    ensures InOrder(after, Inserted(after, x, rows))
  {
    if rows == [] {
    } else {
      var n := |rows| - 1;
      if after(rows[n], x) {
        var front := Inserted(after, x, rows[..n]);
        InsertedInOrder(after, x, rows[..n]);
        InsertedKeepsRows(after, x, rows[..n]);
        forall i | 0 <= i < |front|
          ensures !after(front[i], rows[n])
        {
          assert front[i] in front;
        }
      } else {
        forall i | 0 <= i <= n
          ensures !after(rows[i], x)
        {
          assert i < n ==> !after(rows[i], rows[n]);
        }
      }
    }
  }

  /** The sorted rows are the same rows, in order. */
  lemma {:induction false} SortedInOrder<T(!new)>(after: (T, T) -> bool, rows: seq<T>)
    requires IsOrder(after)
    ensures InOrder(after, Sorted(after, rows))
    ensures forall y :: y in Sorted(after, rows) <==> y in rows
  {
    SortedKeepsRows(after, rows);
    if rows == [] {
    } else {
      SortedInOrder(after, rows[..|rows| - 1]);
      InsertedInOrder(after, rows[|rows| - 1], Sorted(after, rows[..|rows| - 1]));
    }
  }
}
