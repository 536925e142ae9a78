/** The value types and the two folds that several components share. */
module Foundations {

  datatype Option<+T> = None | Some(value: T)
  {
    function GetOr(default: T): T {
      match this
      case Some(v) => v
      case None => default
    }
  }

  /** One property of a partial record: absent, or present with its new value. */
  datatype Change<+T> = Keep | Set(to: T)
  {
    function Over(before: T): T {
      match this
      case Keep => before
      case Set(v) => v
    }
  }

  function Min(a: int, b: int): int { if a <= b then a else b }

  function Max(a: int, b: int): int { if a <= b then b else a }

  /** JavaScript's truth test on an optional string: absent and empty are both false. */
  predicate Truthy(s: Option<string>) { s.Some? && s.value != "" }

  function Elements<T(==)>(s: seq<T>): set<T> { set x | x in s }

  /** The sum of `f` over `s`. */
  function Sum<T>(f: T -> int, s: seq<T>): int {
    if s == [] then 0 else f(s[0]) + Sum(f, s[1..])
  }

  lemma {:induction false} SumUpdate<T>(f: T -> int, s: seq<T>, i: nat, x: T)
    requires i < |s|
    ensures Sum(f, s[i := x]) == Sum(f, s) - f(s[i]) + f(x)
  {
    if i == 0 {
      assert s[i := x][1..] == s[1..];
    } else {
      assert s[i := x][1..] == s[1..][i - 1 := x];
      SumUpdate(f, s[1..], i - 1, x);
    }
  }

  lemma {:induction false} SumAppend<T>(f: T -> int, s: seq<T>, x: T)
    ensures Sum(f, s + [x]) == Sum(f, s) + f(x)
  {
    if s == [] {
      assert s + [x] == [x];
    } else {
      assert (s + [x])[1..] == s[1..] + [x];
      SumAppend(f, s[1..], x);
    }
  }

  lemma {:induction false} SumZero<T>(f: T -> int, s: seq<T>)
    requires forall i | 0 <= i < |s| :: f(s[i]) == 0
    ensures Sum(f, s) == 0
  {
    if s != [] {
      SumZero(f, s[1..]);
    }
  }

  /** The multiset union of `f` over `s`. */
  ghost function Gather<T, U>(f: T -> multiset<U>, s: seq<T>): multiset<U> {
    if s == [] then multiset{} else f(s[0]) + Gather(f, s[1..])
  }

  lemma {:induction false} GatherUpdate<T, U>(f: T -> multiset<U>, s: seq<T>, i: nat, x: T)
    requires i < |s|
    ensures Gather(f, s[i := x]) + f(s[i]) == Gather(f, s) + f(x)
  {
    if i == 0 {
      assert s[i := x][1..] == s[1..];
    } else {
      assert s[i := x][1..] == s[1..][i - 1 := x];
      GatherUpdate(f, s[1..], i - 1, x);
      var before, after := Gather(f, s[1..]), Gather(f, s[1..][i - 1 := x]);
      assert s[1..][i - 1] == s[i];
      assert Gather(f, s[i := x]) == f(s[0]) + after;
      assert (f(s[0]) + after) + f(s[i]) == f(s[0]) + (after + f(s[i]));
      assert f(s[0]) + (before + f(x)) == (f(s[0]) + before) + f(x);
    }
  }

  lemma Cancel<U>(a: multiset<U>, b: multiset<U>, c: multiset<U>)
    requires a + c == b + c
    ensures a == b
  {
    assert (a + c) - c == a;
    assert (b + c) - c == b;
  }

  lemma {:induction false} GatherAppend<T, U>(f: T -> multiset<U>, s: seq<T>, x: T)
    ensures Gather(f, s + [x]) == Gather(f, s) + f(x)
  {
    if s == [] {
      assert s + [x] == [x];
    } else {
      assert (s + [x])[1..] == s[1..] + [x];
      GatherAppend(f, s[1..], x);
    }
  }

  lemma {:induction false} GatherEmpty<T, U>(f: T -> multiset<U>, s: seq<T>)
    requires forall i | 0 <= i < |s| :: f(s[i]) == multiset{}
    ensures Gather(f, s) == multiset{}
  {
    if s != [] {
      GatherEmpty(f, s[1..]);
    }
  }
}
