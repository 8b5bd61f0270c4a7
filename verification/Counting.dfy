/** Counting threads in a sequence and tokens in a map. */
module Counting {

  /** How many elements satisfy `p`. */
  function Count<T>(s: seq<T>, p: T -> bool): nat {
    if s == [] then 0 else Count(s[..|s| - 1], p) + if p(s[|s| - 1]) then 1 else 0
  }

  lemma {:induction false} CountUpdate<T>(s: seq<T>, p: T -> bool, i: nat, x: T)
    requires i < |s|
    ensures Count(s, p) >= if p(s[i]) then 1 else 0
    ensures Count(s[i := x], p) == Count(s, p) - (if p(s[i]) then 1 else 0) + if p(x) then 1 else 0
  {
    var n := |s| - 1;
    if i < n {
      assert s[i := x][..n] == s[..n][i := x];
      CountUpdate(s[..n], p, i, x);
    } else {
      assert s[i := x][..n] == s[..n];
    }
  }

  lemma {:induction false} CountNone<T>(s: seq<T>, p: T -> bool)
    requires forall i | 0 <= i < |s| :: !p(s[i])
    ensures Count(s, p) == 0
  {
    if s != [] {
      CountNone(s[..|s| - 1], p);
    }
  }

  lemma CountTwo<T>(s: seq<T>, p: T -> bool, i: nat, j: nat, other: T)
    requires i < |s| && j < |s| && i != j && p(s[i]) && p(s[j]) && !p(other)
    ensures Count(s, p) >= 2
  {
    CountUpdate(s, p, i, other);
    CountUpdate(s[i := other], p, j, other);
  }

  // ----- tokens, known by their identity

  /** The tokens of a map that satisfy `p`. */
  ghost function Having<T>(m: map<nat, T>, p: T -> bool): set<nat> {
    set id | id in m && p(m[id])
  }

  lemma HavingInsert<T>(m: map<nat, T>, p: T -> bool, id: nat, x: T)
    requires id !in m
    ensures |Having(m[id := x], p)| == |Having(m, p)| + if p(x) then 1 else 0
  {
    assert Having(m[id := x], p) == Having(m, p) + if p(x) then {id} else {};
  }

  lemma HavingRemove<T>(m: map<nat, T>, p: T -> bool, id: nat)
    requires id in m
    ensures |Having(m, p)| == |Having(m - {id}, p)| + if p(m[id]) then 1 else 0
  {
    assert Having(m, p) == Having(m - {id}, p) + if p(m[id]) then {id} else {};
  }

  lemma HavingReplace<T>(m: map<nat, T>, p: T -> bool, id: nat, x: T)
    requires id in m
    ensures |Having(m[id := x], p)| == |Having(m, p)| - (if p(m[id]) then 1 else 0) + if p(x) then 1 else 0
  {
    HavingRemove(m, p, id);
    HavingRemove(m[id := x], p, id);
    assert m[id := x] - {id} == m - {id};
  }

  lemma HavingNone<T>(m: map<nat, T>, p: T -> bool, id: nat)
    requires id in m && p(m[id])
    ensures |Having(m, p)| > 0
  {
    HavingRemove(m, p, id);
  }
}
