/** Table rows held as sequences: totals over them.
    Every query the engine runs is one of these folds, and every statement is an
    append or a replacement at one position. */
module Rows {

  datatype Option<+T> = None | Some(value: T)

  datatype Result<+T, +E> = Ok(value: T) | Err(error: E)

  /** SELECT SUM(f) over the rows of a table. */
  function Sum<T>(f: T -> int, rows: seq<T>): int {
    if rows == [] then 0 else Sum(f, rows[..|rows| - 1]) + f(rows[|rows| - 1])
  }

  lemma SumAppend<T>(f: T -> int, rows: seq<T>, row: T)
    ensures Sum(f, rows + [row]) == Sum(f, rows) + f(row)
  {
    assert (rows + [row])[..|rows|] == rows;
  }

  lemma {:induction false} SumConcat<T>(f: T -> int, a: seq<T>, b: seq<T>)
    ensures Sum(f, a + b) == Sum(f, a) + Sum(f, b)
  {
    if b == [] {
      assert a + b == a;
    } else {
      var front, last := b[..|b| - 1], b[|b| - 1];
      assert a + b == (a + front) + [last];
      SumAppend(f, a + front, last);
      SumConcat(f, a, front);
    }
  }

  lemma {:induction false} SumUpdate<T>(f: T -> int, rows: seq<T>, i: nat, row: T)
    requires i < |rows|
    ensures Sum(f, rows[i := row]) == Sum(f, rows) - f(rows[i]) + f(row)
  {
    var n := |rows| - 1;
    if i == n {
      assert rows[i := row][..n] == rows[..n];
    } else {
      assert rows[i := row][..n] == rows[..n][i := row];
      SumUpdate(f, rows[..n], i, row);
    }
  }

  /** Row by row comparison lifts to totals. */
  lemma {:induction false} SumMonotone<T>(f: T -> int, g: T -> int, rows: seq<T>)
    requires forall i :: 0 <= i < |rows| ==> f(rows[i]) <= g(rows[i])
    ensures Sum(f, rows) <= Sum(g, rows)
  {
    if rows != [] {
      SumMonotone(f, g, rows[..|rows| - 1]);
    }
  }

  lemma {:induction false} SumEqual<T>(f: T -> int, g: T -> int, rows: seq<T>)
    requires forall i :: 0 <= i < |rows| ==> f(rows[i]) == g(rows[i])
    ensures Sum(f, rows) == Sum(g, rows)
  {
    SumMonotone(f, g, rows);
    SumMonotone(g, f, rows);
  }

  /** A total of nonnegative terms is at least any one of them. */
  lemma {:induction false} SumAtLeast<T>(f: T -> int, rows: seq<T>, i: nat)
    requires forall k :: 0 <= k < |rows| ==> 0 <= f(rows[k])
    requires i < |rows|
    ensures f(rows[i]) <= Sum(f, rows)
  {
    if i < |rows| - 1 {
      SumAtLeast(f, rows[..|rows| - 1], i);
    } else {
      SumNonnegative(f, rows[..|rows| - 1]);
    }
  }

  lemma {:induction false} SumNonnegative<T>(f: T -> int, rows: seq<T>)
    requires forall k :: 0 <= k < |rows| ==> 0 <= f(rows[k])
    ensures 0 <= Sum(f, rows)
  {
    if rows != [] {
      SumNonnegative(f, rows[..|rows| - 1]);
    }
  }

  /** A positive total of nonnegative terms has a positive term. */
  lemma {:induction false} SumWitness<T>(f: T -> int, rows: seq<T>) returns (i: nat)
    requires 0 < Sum(f, rows)
    ensures i < |rows| && 0 < f(rows[i])
  {
    i := |rows| - 1;
    if f(rows[i]) <= 0 {
      i := SumWitness(f, rows[..i]);
    }
  }

  lemma {:induction false} SumAdd<T>(f: T -> int, g: T -> int, h: T -> int, rows: seq<T>)
    requires forall i :: 0 <= i < |rows| ==> h(rows[i]) == f(rows[i]) + g(rows[i])
    ensures Sum(h, rows) == Sum(f, rows) + Sum(g, rows)
  {
    if rows != [] {
      SumAdd(f, g, h, rows[..|rows| - 1]);
    }
  }

  lemma {:induction false} SumZero<T>(f: T -> int, rows: seq<T>)
    requires forall i :: 0 <= i < |rows| ==> f(rows[i]) == 0
    ensures Sum(f, rows) == 0
  {
    if rows != [] {
      SumZero(f, rows[..|rows| - 1]);
    }
  }

  /** Rows that weigh the same one by one have the same total. */
  lemma {:induction false} SumPointwise<T>(f: T -> int, a: seq<T>, b: seq<T>)
    requires |a| == |b| && forall i :: 0 <= i < |a| ==> f(a[i]) == f(b[i])
    ensures Sum(f, a) == Sum(f, b)
  {
    if a != [] {
      SumPointwise(f, a[..|a| - 1], b[..|b| - 1]);
    }
  }

  /** The same, for rows of two tables. */
  lemma {:induction false} SumAcross<T, U>(f: T -> int, g: U -> int, a: seq<T>, b: seq<U>)
    requires |a| == |b| && forall i :: 0 <= i < |a| ==> f(a[i]) == g(b[i])
    ensures Sum(f, a) == Sum(g, b)
  {
    if a != [] {
      SumAcross(f, g, a[..|a| - 1], b[..|b| - 1]);
    }
  }

  lemma WithoutLast<T>(front: seq<T>, x: T)
    ensures multiset(front + [x]) - multiset{x} == multiset(front)
  {
  }

  lemma WithoutMiddle<T>(left: seq<T>, x: T, right: seq<T>)
    ensures multiset(left + [x] + right) - multiset{x} == multiset(left + right)
  {
  }

  lemma SumMiddle<T>(f: T -> int, left: seq<T>, x: T, right: seq<T>)
    ensures Sum(f, left + [x] + right) == Sum(f, left + right) + f(x)
  {
    SumConcat(f, left, right);
    SumConcat(f, left + [x], right);
    SumAppend(f, left, x);
  }

  /** A total does not depend on the order of the rows. */
  lemma {:induction false} SumPermutation<T>(f: T -> int, a: seq<T>, b: seq<T>)
    requires multiset(a) == multiset(b)
    ensures Sum(f, a) == Sum(f, b)
    decreases |a|
  {
    if a == [] {
      assert |multiset(b)| == 0;
    } else {
      var front, x := a[..|a| - 1], a[|a| - 1];
      assert a == front + [x];
      assert x in multiset(b);
      var i :| 0 <= i < |b| && b[i] == x;
      var left, right := b[..i], b[i + 1..];
      assert b == left + [x] + right;
      WithoutLast(front, x);
      WithoutMiddle(left, x, right);
      SumPermutation(f, front, left + right);
      SumMiddle(f, left, x, right);
    }
  }

  /** f, applied n times. */
  function Iterate<T>(f: T -> T, x: T, n: nat): T { if n == 0 then x else f(Iterate(f, x, n - 1)) }

  lemma {:induction false} IterateAdds<T>(f: T -> T, x: T, m: nat, n: nat)
    ensures Iterate(f, x, m + n) == Iterate(f, Iterate(f, x, m), n)
  {
    if n > 0 {
      IterateAdds(f, x, m, n - 1);
    }
  }
}
