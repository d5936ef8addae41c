/** Sequences: flattening, distinctness and sums. */
module Sequences {

  function Flatten<T>(parts: seq<seq<T>>): seq<T> {
    if parts == [] then [] else Flatten(parts[..|parts| - 1]) + parts[|parts| - 1]
  }

  ghost predicate Distinct<T>(s: seq<T>) {
    forall i, j :: 0 <= i < j < |s| ==> s[i] != s[j]
  }

  function Total<T>(s: seq<T>, f: T -> nat): nat {
    if s == [] then 0 else Total(s[..|s| - 1], f) + f(s[|s| - 1])
  }

  lemma {:induction false} TotalUpdate<T>(s: seq<T>, f: T -> nat, i: nat, x: T)
    requires i < |s|
    ensures Total(s[i := x], f) + f(s[i]) == Total(s, f) + f(x)
  {
    var n := |s| - 1;
    if i < n {
      TotalUpdate(s[..n], f, i, x);
      assert s[i := x][..n] == s[..n][i := x];
    } else {
      assert s[i := x][..n] == s[..n];
    }
  }

  lemma {:induction false} TotalMonotone<T>(s: seq<T>, f: T -> nat, g: T -> nat)
    requires forall i :: 0 <= i < |s| ==> f(s[i]) <= g(s[i])
    ensures Total(s, f) <= Total(s, g)
  {
    if s != [] {
      TotalMonotone(s[..|s| - 1], f, g);
    }
  }

  lemma {:induction false} TotalPart<T>(s: seq<T>, f: T -> nat, i: nat)
    requires i < |s|
    ensures f(s[i]) <= Total(s, f)
  {
    var n := |s| - 1;
    if i < n {
      TotalPart(s[..n], f, i);
    }
  }
}
