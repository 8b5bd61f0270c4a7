/** The double-ended filter of examples/iterators/map_and_filter.rs, over a finite source and a
    predicate that may answer any way its relation allows. */
module FilterIterator {
  import opened Linearizability

  // ----- the elements at the positions a predicate accepts

  /** The elements of s[lo..hi] whose position is kept, in order. */
  function Kept<T>(s: seq<T>, lo: nat, hi: nat, keep: seq<bool>): (r: seq<T>)
    requires lo <= hi <= |s| == |keep|
    ensures |r| <= hi - lo
  {
    if lo == hi then [] else Kept(s, lo, hi - 1, keep) + if keep[hi - 1] then [s[hi - 1]] else []
  }

  lemma {:induction false} KeptSplit<T>(s: seq<T>, lo: nat, mid: nat, hi: nat, keep: seq<bool>)
    requires lo <= mid <= hi <= |s| == |keep|
    ensures Kept(s, lo, hi, keep) == Kept(s, lo, mid, keep) + Kept(s, mid, hi, keep)
  {
    if mid < hi {
      KeptSplit(s, lo, mid, hi - 1, keep);
    }
  }

  lemma KeptHead<T>(s: seq<T>, lo: nat, hi: nat, keep: seq<bool>)
    requires lo < hi <= |s| == |keep|
    ensures Kept(s, lo, hi, keep) == (if keep[lo] then [s[lo]] else []) + Kept(s, lo + 1, hi, keep)
  {
    KeptSplit(s, lo, lo + 1, hi, keep);
    assert Kept(s, lo, lo, keep) == [];
  }

  lemma {:induction false} KeptLength<T, U>(s: seq<T>, t: seq<U>, lo: nat, hi: nat, keep: seq<bool>)
    requires lo <= hi <= |s| == |t| == |keep|
    ensures |Kept(s, lo, hi, keep)| == |Kept(t, lo, hi, keep)|
  {
    if lo < hi {
      KeptLength(s, t, lo, hi - 1, keep);
    }
  }

  /** A kept position is found at its rank, the number of kept positions before it, and at the
      same rank in every sequence filtered alike. */
  lemma KeptAtRank<T, U>(s: seq<T>, t: seq<U>, keep: seq<bool>, j: nat)
    requires |s| == |t| == |keep| && j < |s| && keep[j]
    ensures var k := |Kept(s, 0, j, keep)|;
            && k < |Kept(s, 0, |s|, keep)| == |Kept(t, 0, |t|, keep)|
            && Kept(s, 0, |s|, keep)[k] == s[j] && Kept(t, 0, |t|, keep)[k] == t[j]
  {
    KeptLength(s, t, 0, j, keep);
    KeptLength(s, t, 0, |s|, keep);
    KeptSplit(s, 0, j, |s|, keep);
    KeptHead(s, j, |s|, keep);
    KeptSplit(t, 0, j, |t|, keep);
    KeptHead(t, j, |t|, keep);
  }

  /** And every kept element comes from such a position. */
  lemma {:induction false} KeptWitness<T, U>(s: seq<T>, t: seq<U>, keep: seq<bool>, hi: nat, k: nat) returns (j: nat)
    requires hi <= |s| == |t| == |keep| && k < |Kept(s, 0, hi, keep)|
    ensures j < hi && keep[j] && k == |Kept(s, 0, j, keep)|
    ensures |Kept(t, 0, hi, keep)| == |Kept(s, 0, hi, keep)|
    ensures Kept(s, 0, hi, keep)[k] == s[j] && Kept(t, 0, hi, keep)[k] == t[j]
  {
    KeptLength(s, t, 0, hi, keep);
    KeptLength(s, t, 0, hi - 1, keep);
    if k == |Kept(s, 0, hi - 1, keep)| {
      j := hi - 1;
    } else {
      j := KeptWitness(s, t, keep, hi - 1, k);
    }
  }

  function Reversed<T>(s: seq<T>): seq<T> {
    if s == [] then [] else [s[|s| - 1]] + Reversed(s[..|s| - 1])
  }

  // ----- answers given so far

  /** What the predicate has answered at each position, if it was asked. */
  type Answers = seq<Option<bool>>

  /** `keep` is one way all positions may end up being answered. */
  ghost predicate Agrees(keep: seq<bool>, answers: Answers) {
    |keep| == |answers| && forall i | 0 <= i < |answers| && answers[i].Some? :: keep[i] == answers[i].value
  }

  /** No answer is ever taken back or asked for again. */
  ghost predicate Extends(now: Answers, before: Answers) {
    |now| == |before| && forall i | 0 <= i < |now| && before[i].Some? :: now[i] == before[i]
  }

  /** What both ends have produced is what has been accepted outside the window. */
  ghost predicate Describes<T>(source: seq<T>, lo: nat, hi: nat, answers: Answers, front: seq<T>, back: seq<T>) {
    && lo <= hi <= |source| == |answers|
    && (forall i | 0 <= i < |answers| :: answers[i].Some? <==> i < lo || hi <= i)
    && forall keep | Agrees(keep, answers) ::
         front == Kept(source, 0, lo, keep) && Reversed(back) == Kept(source, hi, |source|, keep)
  }

  function Just<T>(b: bool, x: T): seq<T> { if b then [x] else [] }

  lemma DescribesFront<T>(source: seq<T>, lo: nat, hi: nat, answers: Answers, front: seq<T>, back: seq<T>, b: bool)
    requires Describes(source, lo, hi, answers, front, back) && lo < hi
    ensures Describes(source, lo + 1, hi, answers[lo := Some(b)], front + Just(b, source[lo]), back)
  {
    var now := answers[lo := Some(b)];
    forall keep | Agrees(keep, now)
      ensures front + Just(b, source[lo]) == Kept(source, 0, lo + 1, keep)
              && Reversed(back) == Kept(source, hi, |source|, keep)
    {
      assert keep[lo] == now[lo].value && Agrees(keep, answers);
    }
  }

  lemma DescribesBack<T>(source: seq<T>, lo: nat, hi: nat, answers: Answers, front: seq<T>, back: seq<T>, b: bool)
    requires Describes(source, lo, hi, answers, front, back) && lo < hi
    ensures Describes(source, lo, hi - 1, answers[hi - 1 := Some(b)], front, back + Just(b, source[hi - 1]))
  {
    var at, now := hi - 1, answers[hi - 1 := Some(b)];
    assert (back + [source[at]])[..|back|] == back;
    forall keep | Agrees(keep, now)
      ensures front == Kept(source, 0, lo, keep)
              && Reversed(back + Just(b, source[at])) == Kept(source, at, |source|, keep)
    {
      assert keep[at] == now[at].value && Agrees(keep, answers);
      KeptHead(source, at, |source|, keep);
      assert !b ==> back + Just(b, source[at]) == back;
    }
  }

  /** Whatever the answers yet to come, the window that was is what was produced and the window
      that is. */
  ghost predicate Produces<T>(source: seq<T>, answers: Answers, was: (nat, nat), before: seq<T>, now: (nat, nat),
                              after: seq<T>)
  {
    && was.0 <= was.1 <= |source| == |answers| && now.0 <= now.1 <= |source|
    && forall keep | Agrees(keep, answers) ::
         Kept(source, was.0, was.1, keep) == before + Kept(source, now.0, now.1, keep) + after
  }

  /** At any time the elements produced in front, then the accepted part of the window, then those
      produced at the back, last first, are the accepted elements in source order. */
  lemma DescribesAll<T>(source: seq<T>, lo: nat, hi: nat, answers: Answers, front: seq<T>, back: seq<T>,
                       keep: seq<bool>)
    requires Describes(source, lo, hi, answers, front, back) && Agrees(keep, answers)
    ensures front + Kept(source, lo, hi, keep) + Reversed(back) == Kept(source, 0, |source|, keep)
  {
    KeptSplit(source, 0, lo, |source|, keep);
    KeptSplit(source, lo, hi, |source|, keep);
  }

  lemma Cancel<T>(front: seq<T>, a: seq<T>, b: seq<T>, back: seq<T>)
    requires front + a + back == front + b + back
    ensures a == b
  {
    assert |a| == |b|;
    assert a == (front + a + back)[|front|..|front| + |a|];
    assert b == (front + b + back)[|front|..|front| + |b|];
  }

  lemma ProducesFront<T>(source: seq<T>, lo: nat, hi: nat, answers: Answers, front: seq<T>, back: seq<T>,
                         lo': nat, now: Answers, out: seq<T>)
    requires Describes(source, lo, hi, answers, front, back) && Extends(now, answers)
    requires Describes(source, lo', hi, now, front + out, back)
    ensures Produces(source, now, (lo, hi), out, (lo', hi), [])
  {
    forall keep | Agrees(keep, now)
      ensures Kept(source, lo, hi, keep) == out + Kept(source, lo', hi, keep) + []
    {
      assert Agrees(keep, answers);
      DescribesAll(source, lo, hi, answers, front, back, keep);
      DescribesAll(source, lo', hi, now, front + out, back, keep);
      var joined := out + Kept(source, lo', hi, keep) + [];
      assert front + joined + Reversed(back) == front + out + Kept(source, lo', hi, keep) + Reversed(back);
      Cancel(front, Kept(source, lo, hi, keep), joined, Reversed(back));
    }
  }

  lemma {:induction false} ReversedAppend<T>(s: seq<T>, t: seq<T>)
    requires |t| <= 1
    ensures Reversed(s + t) == t + Reversed(s)
  {
    if t == [] {
      assert s + t == s;
    } else {
      assert (s + t)[..|s|] == s;
    }
  }

  lemma CancelBack<T>(front: seq<T>, a: seq<T>, b: seq<T>, out: seq<T>, back: seq<T>)
    requires front + a + back == front + b + (out + back)
    ensures a == b + out
  {
    var joined := front + (b + out) + back;
    assert joined == front + b + (out + back);
    assert joined == front + a + back;
    Cancel(front, a, b + out, back);
  }

  lemma ProducesBackFor<T>(source: seq<T>, lo: nat, hi: nat, answers: Answers, front: seq<T>, back: seq<T>,
                           hi': nat, now: Answers, out: seq<T>, keep: seq<bool>)
    requires Describes(source, lo, hi, answers, front, back) && Extends(now, answers) && |out| <= 1
    requires Describes(source, lo, hi', now, front, back + out) && Agrees(keep, now)
    ensures Kept(source, lo, hi, keep) == Kept(source, lo, hi', keep) + out
  {
    assert Agrees(keep, answers);
    DescribesAll(source, lo, hi, answers, front, back, keep);
    DescribesAll(source, lo, hi', now, front, back + out, keep);
    ReversedAppend(back, out);
    CancelBack(front, Kept(source, lo, hi, keep), Kept(source, lo, hi', keep), out, Reversed(back));
  }

  lemma ProducesBack<T>(source: seq<T>, lo: nat, hi: nat, answers: Answers, front: seq<T>, back: seq<T>,
                        hi': nat, now: Answers, out: seq<T>)
    requires Describes(source, lo, hi, answers, front, back) && Extends(now, answers) && |out| <= 1
    requires Describes(source, lo, hi', now, front, back + out)
    ensures Produces(source, now, (lo, hi), [], (lo, hi'), out)
  {
    forall keep | Agrees(keep, now)
      ensures Kept(source, lo, hi, keep) == [] + Kept(source, lo, hi', keep) + out
    {
      ProducesBackFor(source, lo, hi, answers, front, back, hi', now, out, keep);
    }
  }

  // ----- the iterator

  predicate Callable<T>(allows: (T, bool) -> bool, item: T) { allows(item, true) || allows(item, false) }

  /** The outputs are described, and every answer given is one the predicate may give. */
  ghost predicate Sound<T>(source: seq<T>, allows: (T, bool) -> bool, lo: nat, hi: nat, answers: Answers,
                                 front: seq<T>, back: seq<T>)
  {
    && Describes(source, lo, hi, answers, front, back)
    && (forall i | 0 <= i < |source| :: Callable(allows, source[i]))
    && (forall i | 0 <= i < |source| && answers[i].Some? :: allows(source[i], answers[i].value))
  }

  lemma ExtendsMore(c: Answers, b: Answers, a: Answers)
    requires Extends(c, b) && Extends(b, a)
    ensures Extends(c, a)
  {
  }

  lemma SoundFront<T>(source: seq<T>, allows: (T, bool) -> bool, lo: nat, hi: nat, answers: Answers,
                            front: seq<T>, back: seq<T>, b: bool, now: Answers, front': seq<T>)
    requires Sound(source, allows, lo, hi, answers, front, back) && lo < hi && allows(source[lo], b)
    requires now == answers[lo := Some(b)] && front' == front + Just(b, source[lo])
    ensures Sound(source, allows, lo + 1, hi, now, front', back) && Extends(now, answers)
  {
    DescribesFront(source, lo, hi, answers, front, back, b);
  }

  lemma SoundBack<T>(source: seq<T>, allows: (T, bool) -> bool, lo: nat, hi: nat, answers: Answers,
                           front: seq<T>, back: seq<T>, b: bool, now: Answers, back': seq<T>)
    requires Sound(source, allows, lo, hi, answers, front, back) && lo < hi && allows(source[hi - 1], b)
    requires now == answers[hi - 1 := Some(b)] && back' == back + Just(b, source[hi - 1])
    ensures Sound(source, allows, lo, hi - 1, now, front, back') && Extends(now, answers)
  {
    DescribesBack(source, lo, hi, answers, front, back, b);
  }

  lemma SoundProducesFront<T>(source: seq<T>, allows: (T, bool) -> bool, lo: nat, hi: nat, answers: Answers,
                              front: seq<T>, back: seq<T>, lo': nat, now: Answers, front': seq<T>, out: seq<T>)
    requires Sound(source, allows, lo, hi, answers, front, back) && Extends(now, answers)
    requires Sound(source, allows, lo', hi, now, front', back) && front' == front + out
    ensures Produces(source, now, (lo, hi), out, (lo', hi), [])
  {
    ProducesFront(source, lo, hi, answers, front, back, lo', now, out);
  }

  lemma SoundProducesBack<T>(source: seq<T>, allows: (T, bool) -> bool, lo: nat, hi: nat, answers: Answers,
                             front: seq<T>, back: seq<T>, hi': nat, now: Answers, back': seq<T>, out: seq<T>)
    requires Sound(source, allows, lo, hi, answers, front, back) && Extends(now, answers)
    requires Sound(source, allows, lo, hi', now, front, back') && back' == back + out && |out| <= 1
    ensures Produces(source, now, (lo, hi), [], (lo, hi'), out)
  {
    ProducesBack(source, lo, hi, answers, front, back, hi', now, out);
  }

  class Filter<T> {
    const source: seq<T>
    const allows: (T, bool) -> bool // the answers the predicate may give
    var lo: nat                     // the inner iterator has yet to produce source[lo..hi]
    var hi: nat
    ghost var answers: Answers
    ghost var front: seq<T>         // produced so far by Next
    ghost var back: seq<T>          // produced so far by NextBack

    ghost predicate Valid()
      reads this
    {
      Sound(source, allows, lo, hi, answers, front, back)
    }

    constructor (s: seq<T>, f: (T, bool) -> bool)
      requires forall i | 0 <= i < |s| :: Callable(f, s[i])
      ensures Valid() && source == s && allows == f && lo == 0 && hi == |s| && front == [] && back == []
    {
      source, allows, lo, hi := s, f, 0, |s|;
      answers, front, back := seq(|s|, i => None), [], [];
    }

    /** One call of the predicate. */
    method Test(item: T) returns (keep: bool)
      requires Callable(allows, item)
      ensures allows(item, keep)
    {
      keep :| allows(item, keep);
    }

    /** Produces the first accepted element of the window. */
    method Next() returns (r: Option<T>)
      requires Valid()
      modifies this
      ensures Valid() && Extends(answers, old(answers)) && old(lo) <= lo && hi == old(hi) && back == old(back)
      ensures front == old(front) + ToSeq(r) && (r.None? ==> lo == hi)
      ensures Produces(source, answers, (old(lo), old(hi)), ToSeq(r), (lo, hi), [])
    {
      r := None;
      while lo < hi
        invariant Valid() && Extends(answers, old(answers)) && old(lo) <= lo && hi == old(hi) && back == old(back)
        invariant front == old(front) && r.None?
      {
        var item := source[lo];
        var keep := Test(item);
        ghost var now, longer := answers[lo := Some(keep)], front + Just(keep, item);
        SoundFront(source, allows, lo, hi, answers, front, back, keep, now, longer);
        ExtendsMore(now, answers, old(answers));
        answers, front, lo := now, longer, lo + 1;
        if keep {
          r := Some(item);
          break;
        }
      }
      assert front == old(front) + ToSeq(r);
      SoundProducesFront(source, allows, old(lo), hi, old(answers), old(front), back, lo, answers, front, ToSeq(r));
    }

    /** Produces the last accepted element of the window. */
    method NextBack() returns (r: Option<T>)
      requires Valid()
      modifies this
      ensures Valid() && Extends(answers, old(answers)) && lo == old(lo) && hi <= old(hi) && front == old(front)
      ensures back == old(back) + ToSeq(r) && (r.None? ==> lo == hi)
      ensures Produces(source, answers, (old(lo), old(hi)), [], (lo, hi), ToSeq(r))
    {
      r := None;
      while lo < hi
        invariant Valid() && Extends(answers, old(answers)) && lo == old(lo) && hi <= old(hi) && front == old(front)
        invariant back == old(back) && r.None?
      {
        var item := source[hi - 1];
        var keep := Test(item);
        ghost var now, longer := answers[hi - 1 := Some(keep)], back + Just(keep, item);
        SoundBack(source, allows, lo, hi, answers, front, back, keep, now, longer);
        ExtendsMore(now, answers, old(answers));
        answers, back, hi := now, longer, hi - 1;
        if keep {
          r := Some(item);
          break;
        }
      }
      assert back == old(back) + ToSeq(r);
      SoundProducesBack(source, allows, lo, old(hi), old(answers), front, old(back), hi, answers, back, ToSeq(r));
    }
  }

  function ToSeq<T>(r: Option<T>): (s: seq<T>)
    ensures |s| <= 1
  {
    if r.Some? then [r.value] else []
  }

  datatype End = Front | Back

  /** What the calls at one end produced. */
  function From<T>(end: End, ends: seq<End>, outs: seq<Option<T>>): seq<T>
    requires |ends| == |outs|
  {
    if ends == [] then [] else
    var n := |ends| - 1;
    From(end, ends[..n], outs[..n]) + if ends[n] == end then ToSeq(outs[n]) else []
  }

  /** Any interleaving of calls at the two ends.  Positions are asked about exactly once, when they
      leave the window, and the answers are the predicate's. */
  method Drive<T>(source: seq<T>, allows: (T, bool) -> bool, ends: seq<End>)
    returns (outs: seq<Option<T>>, lo: nat, hi: nat, ghost answers: Answers)
    requires forall i | 0 <= i < |source| :: Callable(allows, source[i])
    ensures |outs| == |ends| && lo <= hi <= |source| == |answers|
    ensures forall i | 0 <= i < |source| :: answers[i].Some? <==> i < lo || hi <= i
    ensures forall i | 0 <= i < |source| && answers[i].Some? :: allows(source[i], answers[i].value)
    ensures forall keep | Agrees(keep, answers) ::
              From(Front, ends, outs) + Kept(source, lo, hi, keep) + Reversed(From(Back, ends, outs))
              == Kept(source, 0, |source|, keep)
    ensures None in outs ==> lo == hi
  {
    var it := new Filter(source, allows);
    outs := [];
    var i := 0;
    while i < |ends|
      invariant it.Valid() && fresh(it) && it.source == source && it.allows == allows
      invariant i <= |ends| && |outs| == i
      invariant it.front == From(Front, ends[..i], outs) && it.back == From(Back, ends[..i], outs)
      invariant None in outs ==> it.lo == it.hi
    {
      var r;
      if ends[i] == Front {
        r := it.Next();
      } else {
        r := it.NextBack();
      }
      assert ends[..i + 1][..i] == ends[..i] && (outs + [r])[..i] == outs;
      outs := outs + [r];
      i := i + 1;
    }
    assert ends[..i] == ends;
    lo, hi, answers := it.lo, it.hi, it.answers;
    forall keep | Agrees(keep, answers)
      ensures From(Front, ends, outs) + Kept(source, lo, hi, keep) + Reversed(From(Back, ends, outs)) ==
              Kept(source, 0, |source|, keep)
    {
      DescribesAll(source, lo, hi, answers, it.front, it.back, keep);
    }
  }
}
