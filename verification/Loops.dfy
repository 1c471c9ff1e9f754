/** Loops over table rows: which rows a query selects, and how far a job that goes through them one by one has got. */
module Loops {
  import opened Basics

  /** The rows that a query selects, in the order of the table. */
  function RowsWhere<A>(xs: seq<A>, p: A -> bool): (rows: seq<nat>)
    ensures Distinct(rows) && forall j :: 0 <= j < |rows| ==> rows[j] < |xs| && p(xs[rows[j]])
    ensures forall k :: 0 <= k < |xs| && p(xs[k]) ==> k in rows
    ensures forall i, j :: 0 <= i < j < |rows| ==> rows[i] < rows[j]
  {
    if xs == [] then []
    else
      var n := |xs| - 1;
      RowsWhere(xs[..n], p) + if p(xs[n]) then [n] else []
  }

  /** What a job may make of row k, changing x to y; the flag says that no write of it failed. */
  type Effect<!A> = (nat, A, A, bool) -> bool

  /** A failed write allows more. */
  ghost predicate Lenient<A(!new)>(effect: Effect<A>) {
    forall k, x, y :: effect(k, x, y, true) ==> effect(k, x, y, false)
  }

  /** The first n rows have been treated, and nothing else has changed. */
  ghost predicate Treated<A>(rows: seq<nat>, n: nat, xs: seq<A>, ys: seq<A>, effect: Effect<A>, smooth: bool) {
    && n <= |rows| && |xs| == |ys|
    && (forall k :: 0 <= k < |xs| && k !in rows[..n] ==> ys[k] == xs[k])
    && forall j :: 0 <= j < n ==> rows[j] < |xs| && effect(rows[j], xs[rows[j]], ys[rows[j]], smooth)
  }

  lemma NoneTreated<A>(rows: seq<nat>, xs: seq<A>, effect: Effect<A>, smooth: bool)
    ensures rows[..0] == [] && Treated(rows, 0, xs, xs, effect, smooth)
  {}

  /** The next row is still as it was. */
  lemma NextUntreated<A>(rows: seq<nat>, n: nat, xs: seq<A>, ys: seq<A>, effect: Effect<A>, smooth: bool)
    requires Treated(rows, n, xs, ys, effect, smooth) && n < |rows| && Distinct(rows) && rows[n] < |xs|
    ensures rows[n] !in rows[..n] && |xs| == |ys| && ys[rows[n]] == xs[rows[n]]
  {}

  lemma OneMoreTreated<A(!new)>(
    rows: seq<nat>, n: nat, xs: seq<A>, ys: seq<A>, zs: seq<A>, effect: Effect<A>,
    before: bool, step: bool, after: bool)
    requires Treated(rows, n, xs, ys, effect, before) && Lenient(effect) && (after ==> before && step)
    requires n < |rows| && Distinct(rows) && rows[n] < |xs| && |zs| == |ys|
    requires forall k :: 0 <= k < |ys| && k != rows[n] ==> zs[k] == ys[k]
    requires effect(rows[n], ys[rows[n]], zs[rows[n]], step)
    ensures Treated(rows, n + 1, xs, zs, effect, after)
  {
    assert rows[..n + 1] == rows[..n] + [rows[n]];
    assert rows[n] !in rows[..n];
    forall j | 0 <= j < n ensures zs[rows[j]] == ys[rows[j]] {}
  }

  /** At the end exactly the selected rows have been treated. */
  lemma AllTreated<A>(rows: seq<nat>, xs: seq<A>, ys: seq<A>, effect: Effect<A>, smooth: bool)
    requires Treated(rows, |rows|, xs, ys, effect, smooth)
    ensures |xs| == |ys| && forall k :: 0 <= k < |xs| ==>
              if k in rows then effect(k, xs[k], ys[k], smooth) else ys[k] == xs[k]
  {
    assert rows[..|rows|] == rows;
  }
}
