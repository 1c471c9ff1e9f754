/** Small vocabulary shared by every module: results, string case, sums and fault schedules. */
module Basics {

  datatype Option<+T> = None | Some(value: T)

  /** A byte of transaction or item data. */
  type Byte = b: int | 0 <= b < 256

  /** The first value that a Go uint64 cannot hold. */
  const UINT64: nat := 0x1_0000_0000_0000_0000

  /** strings.ToUpper and strings.ToLower on ASCII text. */
  function UpperChar(c: char): char {
    if 'a' <= c <= 'z' then ((c as int) - 32) as char else c
  }

  function LowerChar(c: char): char {
    if 'A' <= c <= 'Z' then ((c as int) + 32) as char else c
  }

  function ToUpper(s: string): string {
    seq(|s|, i requires 0 <= i < |s| => UpperChar(s[i]))
  }

  function ToLower(s: string): string {
    seq(|s|, i requires 0 <= i < |s| => LowerChar(s[i]))
  }

  /** The two cases of an ASCII letter become one under either function, and nothing but letters changes. */
  lemma CasesAgree(k: nat)
    requires k < 26
    ensures var low, up := ('a' as int + k) as char, ('A' as int + k) as char;
            UpperChar(low) == UpperChar(up) == up && LowerChar(low) == LowerChar(up) == low
  {}

  lemma OthersKept(c: char)
    ensures !('a' <= c <= 'z') ==> UpperChar(c) == c
    ensures !('A' <= c <= 'Z') ==> LowerChar(c) == c
  {}

  /** Case conversion goes letter by letter, a second time changes nothing, and the other case first makes none. */
  lemma CaseLaws(s: string)
    ensures |ToUpper(s)| == |ToLower(s)| == |s|
    ensures ToUpper(ToUpper(s)) == ToUpper(s) && ToLower(ToLower(s)) == ToLower(s)
    ensures ToUpper(ToLower(s)) == ToUpper(s) && ToLower(ToUpper(s)) == ToLower(s)
  {
    var up, low := ToUpper(s), ToLower(s);
    assert forall i :: 0 <= i < |s| ==> up[i] == UpperChar(s[i]) && low[i] == LowerChar(s[i]);
    assert forall c: char :: UpperChar(UpperChar(c)) == UpperChar(c) && LowerChar(LowerChar(c)) == LowerChar(c);
    assert forall c: char :: UpperChar(LowerChar(c)) == UpperChar(c) && LowerChar(UpperChar(c)) == LowerChar(c);
  }

  lemma CaseVectors()
    ensures ToUpper("ar-9z") == "AR-9Z" && ToLower("AR-9z") == "ar-9z"
  {}

  function Sum(xs: seq<int>): int {
    if xs == [] then 0 else Sum(xs[..|xs| - 1]) + xs[|xs| - 1]
  }

  lemma {:induction false} SumConcat(xs: seq<int>, ys: seq<int>)
    ensures Sum(xs + ys) == Sum(xs) + Sum(ys)
  {
    if ys == [] {
      assert xs + ys == xs;
    } else {
      SumConcat(xs, ys[..|ys| - 1]);
      assert (xs + ys)[..|xs + ys| - 1] == xs + ys[..|ys| - 1];
    }
  }

  predicate Distinct<T(==)>(xs: seq<T>) {
    forall i, j :: 0 <= i < j < |xs| ==> xs[i] != xs[j]
  }

  /** The actions of a state machine in the order they happened. */
  datatype Run<+A> = Begin | Then(before: Run<A>, act: A)

  /** Run t goes on from run r. */
  ghost predicate Extends<A>(r: Run<A>, t: Run<A>) {
    r == t || (t.Then? && Extends(r, t.before))
  }

  lemma {:induction false} ExtendsTransitive<A>(r: Run<A>, t: Run<A>, u: Run<A>)
    requires Extends(r, t) && Extends(t, u)
    ensures Extends(r, u)
  {
    if t != u {
      ExtendsTransitive(r, t, u.before);
    }
  }

  /** Run t goes on from run r with actions of one kind only. */
  ghost predicate ExtendsBy<A>(r: Run<A>, t: Run<A>, kind: A -> bool) {
    r == t || (t.Then? && kind(t.act) && ExtendsBy(r, t.before, kind))
  }

  lemma {:induction false} ExtendsByTransitive<A>(r: Run<A>, t: Run<A>, u: Run<A>, kind: A -> bool)
    requires ExtendsBy(r, t, kind) && ExtendsBy(t, u, kind)
    ensures ExtendsBy(r, u, kind)
  {
    if t != u {
      ExtendsByTransitive(r, t, u.before, kind);
    }
  }

  /** No write numbered from..to of a fault schedule fails. */
  ghost predicate Quiet(fault: nat -> bool, from: nat, to: nat) {
    forall n: nat :: from <= n < to ==> !fault(n)
  }

  lemma QuietSplit(fault: nat -> bool, from: nat, mid: nat, to: nat)
    requires from <= mid <= to
    ensures Quiet(fault, from, to) <==> Quiet(fault, from, mid) && Quiet(fault, mid, to)
  {}

  lemma NotQuiet(fault: nat -> bool, from: nat, to: nat)
    requires from < to && fault(from)
    ensures !Quiet(fault, from, to)
  {}
}
