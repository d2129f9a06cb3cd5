/** Helpers shared by every route: optional values, and the row-counting and
    row-selection primitives that the database queries are built from. */
module Common {

  datatype Option<T> = None | Some(value: T) {
    /** The value, or `default` when absent (the source's `x || default` on a nullable column). */
    function GetOr(default: T): T {
      match this
      case Some(v) => v
      case None => default
    }
  }

  /** A JavaScript string is truthy when it is present and not empty. */
  predicate Truthy(s: Option<string>) {
    s.Some? && s.value != ""
  }

  /** Number of rows satisfying `p`. */
  function CountWhere<T>(rows: seq<T>, p: T -> bool): (n: nat)
    ensures n <= |rows|
  {
    if rows == [] then 0
    else CountWhere(rows[..|rows| - 1], p) + (if p(rows[|rows| - 1]) then 1 else 0)
  }

  /** Sum of `f` over the rows satisfying `p`. */
  function SumWhere<T>(rows: seq<T>, p: T -> bool, f: T -> int): int
  {
    if rows == [] then 0
    else SumWhere(rows[..|rows| - 1], p, f) + (if p(rows[|rows| - 1]) then f(rows[|rows| - 1]) else 0)
  }

  /** The rows satisfying `p`, in table order (a `.filter` or a `select ... where`). */
  function Filter<T>(rows: seq<T>, p: T -> bool): (r: seq<T>)
    ensures |r| == CountWhere(rows, p)
    ensures forall i :: 0 <= i < |r| ==> p(r[i])
  {
    if rows == [] then []
    else Filter(rows[..|rows| - 1], p) + (if p(rows[|rows| - 1]) then [rows[|rows| - 1]] else [])
  }

  /** The filtered rows are exactly the rows satisfying `p`. */
  lemma {:induction false} FilterMembers<T>(rows: seq<T>, p: T -> bool)
    ensures forall i :: 0 <= i < |Filter(rows, p)| ==> Filter(rows, p)[i] in rows
    ensures forall i :: 0 <= i < |rows| && p(rows[i]) ==> rows[i] in Filter(rows, p)
  {
    if rows != [] {
      var init := rows[..|rows| - 1];
      FilterMembers(init, p);
      assert forall i :: 0 <= i < |init| ==> init[i] == rows[i];
    }
  }

  /** The first index at or after `from` whose element satisfies `p`
      (what `.find` looks for), or None when there is none. */
  function FirstFrom<T>(s: seq<T>, p: T -> bool, from: nat): (r: Option<nat>)
    decreases |s| - from
    ensures r.Some? ==> from <= r.value < |s| && p(s[r.value])
    ensures r.Some? ==> forall c :: from <= c < r.value ==> !p(s[c])
    ensures r.None? ==> forall c :: from <= c < |s| ==> !p(s[c])
  {
    if from >= |s| then None
    else if p(s[from]) then Some(from)
    else FirstFrom(s, p, from + 1)
  }

  /** What a `.single()` query yields: the index of the only matching row,
      or None when no row or more than one row matches. */
  function Single<T>(rows: seq<T>, p: T -> bool): (r: Option<nat>)
    ensures r.Some? <==> CountWhere(rows, p) == 1
    ensures r.Some? ==> r.value < |rows| && p(rows[r.value])
    ensures r.Some? ==> forall k :: 0 <= k < |rows| && k != r.value ==> !p(rows[k])
  {
    if CountWhere(rows, p) == 1 then Some(IndexOfOnly(rows, p)) else None
  }

  /** The index of the one row satisfying `p`. */
  function IndexOfOnly<T>(rows: seq<T>, p: T -> bool): (k: nat)
    requires CountWhere(rows, p) == 1
    ensures k < |rows| && p(rows[k])
    ensures forall i :: 0 <= i < |rows| && i != k ==> !p(rows[i])
  {
    var last := |rows| - 1;
    if p(rows[last]) then
      CountZeroMeansNone(rows[..last], p);
      last
    else
      IndexOfOnly(rows[..last], p)
  }

  lemma {:induction false} CountZeroMeansNone<T>(rows: seq<T>, p: T -> bool)
    requires CountWhere(rows, p) == 0
    ensures forall i :: 0 <= i < |rows| ==> !p(rows[i])
  {
    if rows != [] {
      CountZeroMeansNone(rows[..|rows| - 1], p);
    }
  }

  lemma {:induction false} NoneMeansCountZero<T>(rows: seq<T>, p: T -> bool)
    requires forall i :: 0 <= i < |rows| ==> !p(rows[i])
    ensures CountWhere(rows, p) == 0
  {
    if rows != [] {
      NoneMeansCountZero(rows[..|rows| - 1], p);
    }
  }

  lemma {:induction false} CountPositive<T>(rows: seq<T>, p: T -> bool, k: nat)
    requires k < |rows| && p(rows[k])
    ensures CountWhere(rows, p) >= 1
  {
    if k < |rows| - 1 {
      CountPositive(rows[..|rows| - 1], p, k);
    }
  }

  /** No row is counted exactly when no row satisfies `p`. */
  lemma CountZeroIffNone<T>(rows: seq<T>, p: T -> bool)
    ensures CountWhere(rows, p) == 0 <==> forall i :: 0 <= i < |rows| ==> !p(rows[i])
  {
    if CountWhere(rows, p) == 0 {
      CountZeroMeansNone(rows, p);
    } else if forall i :: 0 <= i < |rows| ==> !p(rows[i]) {
      NoneMeansCountZero(rows, p);
    }
  }

  /** When at most one row matches, `.single()` misses exactly when no row matches. */
  lemma SingleMissMeansNone<T>(rows: seq<T>, p: T -> bool)
    requires CountWhere(rows, p) <= 1
    requires Single(rows, p).None?
    ensures CountWhere(rows, p) == 0
    ensures forall i :: 0 <= i < |rows| ==> !p(rows[i])
  {
    CountZeroMeansNone(rows, p);
  }

  lemma CountAppend<T>(rows: seq<T>, x: T, p: T -> bool)
    ensures CountWhere(rows + [x], p) == CountWhere(rows, p) + (if p(x) then 1 else 0)
  {
    assert (rows + [x])[..|rows|] == rows;
  }

  lemma SumAppend<T>(rows: seq<T>, x: T, p: T -> bool, f: T -> int)
    ensures SumWhere(rows + [x], p, f) == SumWhere(rows, p, f) + (if p(x) then f(x) else 0)
  {
    assert (rows + [x])[..|rows|] == rows;
  }

  /** Sums over a concatenation add up. */
  lemma {:induction false} SumConcat<T>(a: seq<T>, b: seq<T>, p: T -> bool, f: T -> int)
    ensures SumWhere(a + b, p, f) == SumWhere(a, p, f) + SumWhere(b, p, f)
  {
    if b != [] {
      var init := b[..|b| - 1];
      SumConcat(a, init, p, f);
      assert (a + b)[..|a + b| - 1] == a + init;
      assert (a + b)[|a + b| - 1] == b[|b| - 1];
    } else {
      assert a + b == a;
    }
  }

  /** A suffix sum is its first row's contribution plus the rest. */
  lemma SumFront<T>(rows: seq<T>, i: nat, p: T -> bool, f: T -> int)
    requires i < |rows|
    ensures SumWhere(rows[i..], p, f) == (if p(rows[i]) then f(rows[i]) else 0) + SumWhere(rows[i + 1..], p, f)
  {
    assert rows[i..] == [rows[i]] + rows[i + 1..];
    SumConcat([rows[i]], rows[i + 1..], p, f);
    assert [rows[i]][..0] == [];
  }

  lemma FilterAppend<T>(rows: seq<T>, x: T, p: T -> bool)
    ensures Filter(rows + [x], p) == Filter(rows, p) + (if p(x) then [x] else [])
  {
    assert (rows + [x])[..|rows|] == rows;
  }

  /** Replacing one row changes the count only by that row's own contribution. */
  lemma {:induction false} CountUpdate<T>(rows: seq<T>, k: nat, x: T, p: T -> bool)
    requires k < |rows|
    ensures CountWhere(rows[k := x], p)
         == CountWhere(rows, p) - (if p(rows[k]) then 1 else 0) + (if p(x) then 1 else 0)
  {
    var last := |rows| - 1;
    if k < last {
      CountUpdate(rows[..last], k, x, p);
      assert rows[k := x][..last] == rows[..last][k := x];
    } else {
      assert rows[k := x][..last] == rows[..last];
    }
  }

  /** Replacing one row changes the sum only by that row's own contribution. */
  lemma {:induction false} SumUpdate<T>(rows: seq<T>, k: nat, x: T, p: T -> bool, f: T -> int)
    requires k < |rows|
    ensures SumWhere(rows[k := x], p, f)
         == SumWhere(rows, p, f) - (if p(rows[k]) then f(rows[k]) else 0) + (if p(x) then f(x) else 0)
  {
    var last := |rows| - 1;
    if k < last {
      SumUpdate(rows[..last], k, x, p, f);
      assert rows[k := x][..last] == rows[..last][k := x];
    } else {
      assert rows[k := x][..last] == rows[..last];
    }
  }

  /** Rows on which two predicates agree are counted alike. */
  lemma {:induction false} CountSamePredicate<T>(rows: seq<T>, p: T -> bool, q: T -> bool)
    requires forall i :: 0 <= i < |rows| ==> p(rows[i]) == q(rows[i])
    ensures CountWhere(rows, p) == CountWhere(rows, q)
  {
    if rows != [] {
      CountSamePredicate(rows[..|rows| - 1], p, q);
    }
  }
}
