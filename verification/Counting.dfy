/** Counting the rows of a table that satisfy a condition, as `SELECT COUNT(*) ... WHERE` does. */
module Counting {
  function Count<T(!new)>(rows: seq<T>, p: T -> bool): nat {
    if rows == [] then 0
    else Count(rows[..|rows| - 1], p) + if p(rows[|rows| - 1]) then 1 else 0
  }

  lemma CountAppend<T(!new)>(rows: seq<T>, r: T, p: T -> bool)
    ensures Count(rows + [r], p) == Count(rows, p) + if p(r) then 1 else 0
  {
    assert (rows + [r])[..|rows|] == rows;
  }

  lemma {:induction false} CountUpdate<T(!new)>(rows: seq<T>, i: nat, r: T, p: T -> bool)
    requires i < |rows|
    ensures Count(rows[i := r], p) == Count(rows, p) - (if p(rows[i]) then 1 else 0) + if p(r) then 1 else 0
  {
    var last := |rows| - 1;
    if i == last {
      assert rows[i := r][..last] == rows[..last];
    } else {
      assert rows[i := r][..last] == rows[..last][i := r];
      CountUpdate(rows[..last], i, r, p);
    }
  }

  lemma {:induction false} CountAgree<T(!new)>(rows: seq<T>, p: T -> bool, q: T -> bool)
    requires forall i :: 0 <= i < |rows| ==> p(rows[i]) == q(rows[i])
    ensures Count(rows, p) == Count(rows, q)
  {
    if rows != [] {
      CountAgree(rows[..|rows| - 1], p, q);
    }
  }

  lemma {:induction false} CountNone<T(!new)>(rows: seq<T>, p: T -> bool)
    requires forall i :: 0 <= i < |rows| ==> !p(rows[i])
    ensures Count(rows, p) == 0
  {
    if rows != [] {
      CountNone(rows[..|rows| - 1], p);
    }
  }

  /** A count is the number of positions where the condition holds. */
  lemma {:induction false} CountIsSize<T(!new)>(rows: seq<T>, p: T -> bool, ids: set<nat>)
    requires forall i: nat :: i in ids <==> i < |rows| && p(rows[i])
    ensures Count(rows, p) == |ids|
  {
    if rows == [] {
      assert ids == {};
    } else {
      var last := |rows| - 1;
      CountIsSize(rows[..last], p, ids - {last});
      assert ids == if last in ids then ids - {last} + {last} else ids - {last};
    }
  }

  lemma {:induction false} CountBelow<S(!new), T(!new)>(a: seq<S>, p: S -> bool, b: seq<T>, q: T -> bool)
    requires |a| == |b| && forall i :: 0 <= i < |a| && p(a[i]) ==> q(b[i])
    ensures Count(a, p) <= Count(b, q)
  {
    if a != [] {
      CountBelow(a[..|a| - 1], p, b[..|b| - 1], q);
    }
  }
}
