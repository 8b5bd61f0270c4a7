/** Histories of concurrent operations and what it means for one to be linearizable
    with explicit commit points.

    A thread announces an operation with `Call`, takes effect at one `Commit`, and leaves
    with `Return`.  The commit of one thread's operation may be performed by another thread. */
module Linearizability {

  datatype Option<+T> = None | Some(value: T)

  datatype Event<O, R> =
    | Call(thread: nat, op: O)
    | Commit(thread: nat, op: O, res: R)
    | Return(thread: nat, res: R)

  /** Where one thread stands in its call; `Broken` is never left. */
  datatype Phase<O, R> = Out | Called(op: O) | Committed(op: O, res: R) | Broken

  function Advance<O(==), R(==)>(p: Phase<O, R>, e: Event<O, R>): Phase<O, R> {
    match e
    case Call(_, op) => if p.Out? then Called(op) else Broken
    case Commit(_, op, res) => if p == Called(op) then Committed(op, res) else Broken
    case Return(_, res) => if p.Committed? && p.res == res then Out else Broken
  }

  function PhaseOf<O(==), R(==)>(h: seq<Event<O, R>>, t: nat): Phase<O, R> {
    if h == [] then Out
    else
      var p := PhaseOf(h[..|h| - 1], t);
      if h[|h| - 1].thread == t then Advance(p, h[|h| - 1]) else p
  }

  /** Runs the committed operations in order on a sequential object.  `apply` answers `None`
      when the object could not have given the recorded result. */
  function Replay<S, O, R>(apply: (S, O, R) -> Option<S>, init: S, h: seq<Event<O, R>>): Option<S> {
    if h == [] then Some(init)
    else
      var before := Replay(apply, init, h[..|h| - 1]);
      match h[|h| - 1]
      case Commit(_, op, res) => if before.Some? then apply(before.value, op, res) else None
      case _ => before
  }

  /** The history is a legal run of the sequential object that ends in `now`, and every thread
      obeys call, commit, return. */
  ghost predicate Linearized<S, O, R>(apply: (S, O, R) -> Option<S>, init: S, h: seq<Event<O, R>>, now: S) {
    && Replay(apply, init, h) == Some(now)
    && forall t: nat :: PhaseOf(h, t) != Broken
  }

  lemma PhaseOfAppend<O, R>(h: seq<Event<O, R>>, e: Event<O, R>, t: nat)
    ensures PhaseOf(h + [e], t) == if e.thread == t then Advance(PhaseOf(h, t), e) else PhaseOf(h, t)
  {
  }

  /** A call or return by a thread in the right phase keeps a history linearized. */
  lemma ExtendQuiet<S, O, R>(apply: (S, O, R) -> Option<S>, init: S, h: seq<Event<O, R>>, now: S, e: Event<O, R>)
    requires Linearized(apply, init, h, now)
    requires !e.Commit? && Advance(PhaseOf(h, e.thread), e) != Broken
    ensures Linearized(apply, init, h + [e], now)
  {
  }

  /** A commit that the sequential object allows keeps a history linearized. */
  lemma ExtendCommit<S, O, R>(apply: (S, O, R) -> Option<S>, init: S, h: seq<Event<O, R>>, now: S,
                              e: Event<O, R>, next: S)
    requires Linearized(apply, init, h, now)
    requires e.Commit? && PhaseOf(h, e.thread) == Called(e.op)
    requires apply(now, e.op, e.res) == Some(next)
    ensures Linearized(apply, init, h + [e], next)
  {
  }

  lemma {:induction false} PrefixNotBroken<O, R>(h: seq<Event<O, R>>, t: nat, n: nat)
    requires n <= |h| && PhaseOf(h, t) != Broken
    ensures PhaseOf(h[..n], t) != Broken
  {
    if n < |h| {
      assert h[..|h| - 1][..n] == h[..n];
      PrefixNotBroken(h[..|h| - 1], t, n);
    } else {
      assert h[..n] == h;
    }
  }

  lemma PhaseStep<O, R>(h: seq<Event<O, R>>, t: nat, n: nat)
    requires n < |h|
    ensures PhaseOf(h[..n + 1], t) ==
            if h[n].thread == t then Advance(PhaseOf(h[..n], t), h[n]) else PhaseOf(h[..n], t)
  {
    assert h[..n + 1] == h[..n] + [h[n]];
    PhaseOfAppend(h[..n], h[n], t);
  }

  /** Thread `t` makes no return strictly between positions `i` and `n`. */
  ghost predicate StaysInside<O, R>(h: seq<Event<O, R>>, t: nat, i: nat, n: nat) {
    forall m | i < m < n && m < |h| :: !(h[m].Return? && h[m].thread == t)
  }

  ghost predicate CommitAt<O, R>(h: seq<Event<O, R>>, t: nat, k: nat) {
    k < |h| && h[k].Commit? && h[k].thread == t
  }

  /** Inside one call, the phase says exactly how many commits have happened. */
  lemma {:induction false} CallSoFar<O, R>(h: seq<Event<O, R>>, t: nat, i: nat, n: nat) returns (k: nat)
    requires i < n <= |h| && h[i].Call? && h[i].thread == t
    requires PhaseOf(h, t) != Broken && StaysInside(h, t, i, n)
    ensures PhaseOf(h[..n], t) == Called(h[i].op) ==> forall m | i < m < n :: !CommitAt(h, t, m)
    ensures PhaseOf(h[..n], t) != Called(h[i].op) ==>
              && i < k < n && CommitAt(h, t, k) && h[k].op == h[i].op
              && PhaseOf(h[..n], t) == Committed(h[i].op, h[k].res)
              && forall m | i < m < n && CommitAt(h, t, m) :: m == k
  {
    PrefixNotBroken(h, t, n);
    PrefixNotBroken(h, t, n - 1);
    PhaseStep(h, t, n - 1);
    if n == i + 1 {
      k := 0;
    } else {
      k := CallSoFar(h, t, i, n - 1);
      if h[n - 1].thread == t {
        assert !h[n - 1].Return?;
        if PhaseOf(h[..n - 1], t) == Called(h[i].op) {
          k := n - 1;
        }
      }
    }
  }

  /** Between a call and its return lies exactly one commit of that operation, and its result
      is the one returned. */
  lemma ExactlyOneCommit<O, R>(h: seq<Event<O, R>>, t: nat, i: nat, j: nat) returns (k: nat)
    requires i < j < |h| && h[i].Call? && h[i].thread == t && h[j].Return? && h[j].thread == t
    requires PhaseOf(h, t) != Broken && StaysInside(h, t, i, j)
    ensures i < k < j && h[k] == Commit(t, h[i].op, h[j].res)
    ensures forall m | i < m < j && CommitAt(h, t, m) :: m == k
  {
    k := CallSoFar(h, t, i, j);
    PrefixNotBroken(h, t, j + 1);
    PhaseStep(h, t, j);
  }

  lemma {:induction false} OpenCall<O, R>(h: seq<Event<O, R>>, t: nat, n: nat) returns (i: nat)
    requires n <= |h| && PhaseOf(h[..n], t).Called?
    ensures i < n && h[i] == Call(t, PhaseOf(h[..n], t).op) && StaysInside(h, t, i, n)
  {
    PhaseStep(h, t, n - 1);
    if h[n - 1].thread == t {
      i := n - 1;
    } else {
      i := OpenCall(h, t, n - 1);
    }
  }

  /** A commit never happens outside an open call of its own thread. */
  lemma CommitInsideCall<O, R>(h: seq<Event<O, R>>, t: nat, k: nat) returns (i: nat)
    requires CommitAt(h, t, k) && PhaseOf(h, t) != Broken
    ensures i < k && h[i] == Call(t, h[k].op) && StaysInside(h, t, i, k)
  {
    PrefixNotBroken(h, t, k + 1);
    PhaseStep(h, t, k);
    i := OpenCall(h, t, k);
  }

  /** Every recorded result is the one the sequential object gives at that commit. */
  lemma {:induction false} CommitIsLegal<S, O, R>(apply: (S, O, R) -> Option<S>, init: S, h: seq<Event<O, R>>, k: nat)
    requires Replay(apply, init, h).Some? && k < |h| && h[k].Commit?
    ensures Replay(apply, init, h[..k]).Some?
    ensures apply(Replay(apply, init, h[..k]).value, h[k].op, h[k].res).Some?
  {
    if k + 1 < |h| {
      assert h[..|h| - 1][..k] == h[..k];
      CommitIsLegal(apply, init, h[..|h| - 1], k);
    }
  }
}
