/** What holds in every run of any number of interleaved reads, deletes and inserts. */
module CuckooTheorems {
  import opened Linearizability
  import opened CuckooMatrix
  import opened CuckooThreads
  import opened CuckooInvariant
  import opened CuckooOwn
  import opened CuckooShared
  import opened CuckooPath

  ghost predicate Steps(s: State, s': State) {
    exists t: nat, dice :: Enabled(s, t, dice) && s' == Next(s, t, dice)
  }

  ghost predicate Run(h: nat, ops: seq<Op>, run: seq<State>) {
    && h >= 2 && |run| > 0 && run[0] == Init(h, ops)
    && forall i, j {:trigger Steps(run[i], run[j])} | 0 <= i < j < |run| && j == i + 1 :: Steps(run[i], run[j])
  }

  lemma InitInv(h: nat, ops: seq<Op>)
    requires h >= 2
    ensures Inv(Init(h, ops)) && AllTrailsOk(Init(h, ops))
  {
  }

  lemma StepsInv(s: State, s': State)
    requires Inv(s) && AllTrailsOk(s) && Steps(s, s')
    ensures Inv(s') && AllTrailsOk(s')
  {
    var t: nat, dice :| Enabled(s, t, dice) && s' == Next(s, t, dice);
    StepInv(s, t, dice);
    TrailStep(s, t, dice);
  }

  lemma {:induction false} RunInv(h: nat, ops: seq<Op>, run: seq<State>, i: nat)
    requires Run(h, ops, run) && i < |run|
    ensures Inv(run[i]) && AllTrailsOk(run[i])
  {
    if i == 0 {
      InitInv(h, ops);
    } else {
      RunInv(h, ops, run, i - 1);
      assert Steps(run[i - 1], run[i]);
      StepsInv(run[i - 1], run[i]);
    }
  }

  // ----- the table in memory and the map

  predicate WriteLocked(s: State, r: nat) {
    exists t | 0 <= t < |s.threads| ::
      RowLock(r) in s.threads[t].held && s.threads[t].held[RowLock(r)] == Exclusive
  }

  /** At every moment the rows in memory that are not write-locked belong to one map, the one the
      committed operations have produced: each pair they hold is in the map and in a home row of
      its key, no key is held twice, and a key with no write-locked home row is held exactly if it
      is in the map. */
  lemma MemoryRepresentsTheMap(h: nat, ops: seq<Op>, run: seq<State>, i: nat)
    requires Run(h, ops, run) && i < |run|
    ensures var s := run[i];
            && Shaped(s.cells) && Replay(Sequential, map[], s.history) == Some(s.abs)
            && (forall r: nat, c: nat, k: Key | Holds(s.cells, r, c, k) && !WriteLocked(s, r) ::
                  Home(k, |s.cells|, r) && k in s.abs && s.abs[k] == s.cells[r][c].value)
            && (forall r1: nat, c1: nat, r2: nat, c2: nat, k: Key |
                  Holds(s.cells, r1, c1, k) && Holds(s.cells, r2, c2, k)
                  && !WriteLocked(s, r1) && !WriteLocked(s, r2) :: r1 == r2 && c1 == c2)
            && (forall k: Key
                  | k in s.abs && !WriteLocked(s, Low(k, |s.cells|)) && !WriteLocked(s, High(k, |s.cells|)) ::
                  Stored(s.cells, k))
  {
    RunInv(h, ops, run, i);
    var s := run[i];
    forall r | 0 <= r < |s.cells| && !WriteLocked(s, r) ensures s.cells[r] == s.matrix[r] {
      UnlockedRowClean(s, r);
    }
    forall r: nat, c: nat, k: Key | Holds(s.cells, r, c, k) && !WriteLocked(s, r)
      ensures Holds(s.matrix, r, c, k)
    {
    }
    forall k: Key | k in s.abs && !WriteLocked(s, Low(k, |s.cells|)) && !WriteLocked(s, High(k, |s.cells|))
      ensures Stored(s.cells, k)
    {
      assert Stored(s.matrix, k);
      var r: nat, c: nat :| Holds(s.matrix, r, c, k);
      assert Holds(s.cells, r, c, k);
    }
  }

  lemma UnlockedRowClean(s: State, r: nat)
    requires Inv(s) && r < |s.cells| && !WriteLocked(s, r)
    ensures s.cells[r] == s.matrix[r]
  {
    forall t | 0 <= t < |s.threads| ensures r !in Dirty(s.threads[t]) {
      assert Local(s, t);
      if r in Dirty(s.threads[t]) {
        DirtyOwned(s.threads[t], |s.cells|, r);
      }
    }
  }

  /** A step changes the map at most at its own operation's key; a swing not at all. */
  lemma StepTouchesOnlyItsKey(s: State, t: nat, dice: Dice, k: Key)
    requires Inv(s) && Enabled(s, t, dice)
    requires k != s.threads[t].op.key || s.threads[t].op.Read? || Swinging(s.threads[t].pc)
    ensures var s' := Next(s, t, dice); (k in s'.abs <==> k in s.abs) && (k in s.abs ==> s'.abs[k] == s.abs[k])
  {
    DirtyStep(s, t, dice);
    HeldStep(s, t, dice);
    if Swinging(s.threads[t].pc) {
      SwingsDoNotCommit(s, t, dice);
    }
  }

  lemma SwingsDoNotCommit(s: State, t: nat, dice: Dice)
    requires Enabled(s, t, dice) && Swinging(s.threads[t].pc)
    ensures !Plan(s, t, dice).1.Change?
  {
  }

  // ----- linearizability

  /** Every run is linearizable: the committed operations, in commit order, are a legal run of a
      sequential map, and each operation commits only between its call and its return. */
  lemma EveryRunIsLinearizable(h: nat, ops: seq<Op>, run: seq<State>, i: nat)
    requires Run(h, ops, run) && i < |run|
    ensures Linearized(Sequential, map[], run[i].history, run[i].abs)
  {
    RunInv(h, ops, run, i);
  }

  /** A read that has returned gave exactly what the map held at its commit: the value found, or
      nothing only if the key was absent. */
  lemma ReadsAreAtomic(h: nat, ops: seq<Op>, run: seq<State>, i: nat, j: nat, t: nat) returns (c: nat)
    requires Run(h, ops, run)
    requires var log := run[|run| - 1].history;
             && i < j < |log| && log[i].Call? && log[i].thread == t && log[i].op.Read?
             && log[j].Return? && log[j].thread == t && StaysInside(log, t, i, j)
    ensures var log := run[|run| - 1].history;
            && i < c < j
            && Replay(Sequential, map[], log[..c]).Some?
            && var m := Replay(Sequential, map[], log[..c]).value;
               log[j].res == Got(if log[i].op.key in m then Some(m[log[i].op.key]) else None)
  {
    RunInv(h, ops, run, |run| - 1);
    var log := run[|run| - 1].history;
    c := ExactlyOneCommit(log, t, i, j);
    CommitIsLegal(Sequential, map[], log, c);
  }

  // ----- inserts

  /** `trail` is set only by executing a path. */
  ghost predicate TrailOk(th: Thread) {
    && (Hunting(th.pc) || th.pc.Evict? || th.pc.Ready? || th.pc.WantMain? || (th.pc.Unlock? && th.pc.then_.Fail?)
        ==> th.trail == [])
    && (!th.second && Retrying(th.(second := true)) ==> th.trail == [])
    && (th.outcome == Some(Inserted(false)) ==> th.trail == [] || Leaked(th))
  }

  ghost predicate AllTrailsOk(s: State) {
    forall t | 0 <= t < |s.threads| :: TrailOk(s.threads[t])
  }

  lemma SeekTrail(th: Thread, cells: Matrix, dice: Dice)
    requires |cells| >= 2 && TrailOk(th) && th.outcome.None? && (th.pc.SeekLow? || th.pc.SeekHigh?)
    ensures TrailOk(Work(th, cells, dice).0)
  {
    assert Work(th, cells, dice).0.trail == th.trail;
  }

  lemma RoomTrail(th: Thread, cells: Matrix, dice: Dice)
    requires |cells| >= 2 && TrailOk(th) && th.outcome.None? && (th.pc.RoomLow? || th.pc.RoomHigh?)
    requires th.pc.RoomHigh? && th.pc.i >= WIDTH && th.second ==> th.op.Insert? && !NoRepeat(th.trail)
    ensures TrailOk(Work(th, cells, dice).0)
  {
    assert Work(th, cells, dice).0.trail == th.trail;
  }

  lemma HuntTrail(th: Thread, cells: Matrix, dice: Dice)
    requires |cells| >= 2 && TrailOk(th) && th.outcome.None? && (th.pc.Evict? || th.pc.Probe?)
    ensures TrailOk(Work(th, cells, dice).0)
  {
  }

  lemma SwingTrail(th: Thread, cells: Matrix, dice: Dice)
    requires |cells| >= 2 && TrailOk(th) && th.outcome.None? && Swinging(th.pc) && !th.pc.Unlock?
    ensures TrailOk(Work(th, cells, dice).0)
  {
  }

  lemma EdgeTrail(th: Thread, cells: Matrix, dice: Dice)
    requires |cells| >= 2 && TrailOk(th) && (th.pc.Ready? || th.pc.Store?)
    ensures TrailOk(Work(th, cells, dice).0)
  {
  }

  lemma WorkTrail(s: State, t: nat, dice: Dice)
    requires Inv(s) && Enabled(s, t, dice) && TrailOk(s.threads[t])
    requires Target(s.threads[t], |s.cells|).None? && !s.threads[t].pc.Unlock?
    ensures TrailOk(Work(s.threads[t], s.cells, dice).0)
  {
    var th := s.threads[t];
    assert Local(s, t);
    if th.pc.Ready? || th.pc.Store? {
      EdgeTrail(th, s.cells, dice);
    } else if th.pc.SeekLow? || th.pc.SeekHigh? {
      SeekTrail(th, s.cells, dice);
    } else if th.pc.RoomLow? || th.pc.RoomHigh? {
      if th.pc.RoomHigh? && th.pc.i >= WIDTH && th.second {
        RetryFailsOnlyOnRepeat(s, t);
      }
      RoomTrail(th, s.cells, dice);
    } else if th.pc.Evict? || th.pc.Probe? {
      HuntTrail(th, s.cells, dice);
    } else {
      SwingTrail(th, s.cells, dice);
    }
  }

  lemma TakenTrail(th: Thread, h: nat)
    requires h >= 2 && TrailOk(th) && Target(th, h).Some?
    ensures TrailOk(Taken(th, h))
  {
  }

  lemma UnlockTrail(th: Thread)
    requires TrailOk(th) && th.pc.Unlock? && th.pc.todo != []
    ensures TrailOk(th.(pc := Unlock(th.pc.todo[1..], th.pc.then_), held := th.held - {th.pc.todo[0]}))
  {
  }

  lemma ReleasedTrail(th: Thread, h: nat)
    requires h >= 2 && TrailOk(th) && OutcomeOk(th) && th.pc.Unlock?
    ensures TrailOk(Released(th, h, th.pc.then_).0)
  {
  }

  lemma PlanTrail(s: State, t: nat, dice: Dice)
    requires Inv(s) && Enabled(s, t, dice) && TrailOk(s.threads[t])
    ensures TrailOk(Plan(s, t, dice).0)
  {
    var th := s.threads[t];
    assert Local(s, t);
    if Target(th, |s.cells|).Some? {
      TakenTrail(th, |s.cells|);
    } else if th.pc.Unlock? {
      if th.pc.todo == [] {
        ReleasedTrail(th, |s.cells|);
      } else {
        UnlockTrail(th);
      }
    } else {
      WorkTrail(s, t, dice);
    }
  }

  lemma TrailStep(s: State, t: nat, dice: Dice)
    requires Inv(s) && AllTrailsOk(s) && Enabled(s, t, dice)
    ensures AllTrailsOk(Next(s, t, dice))
  {
    PlanTrail(s, t, dice);
    assert Next(s, t, dice).threads == s.threads[t := Plan(s, t, dice).0];
  }

  /** While a path without repeated cells is executed, a swing succeeds if and only if the key it is
      to move is in the map at that moment: its target is always empty, and if the guard fails a
      delete of that very key has committed since the insert was called. */
  lemma SwingSucceedsIffInMap(h: nat, ops: seq<Op>, run: seq<State>, i: nat, t: nat)
    requires Run(h, ops, run) && i < |run| && t < |run[i].threads|
    requires run[i].threads[t].pc.CheckSwing? && NoRepeat(run[i].threads[t].trail)
    ensures var s, th := run[i], run[i].threads[t];
            && Peek(s.cells, th.free).Empty?
            && (KeyAt(s.cells, th.cur.place, th.cur.key) && Peek(s.cells, th.free).Empty? <==> th.cur.key in s.abs)
            && (th.cur.key !in s.abs ==> DeletedDuring(s.history, t, th.cur.key))
  {
    RunInv(h, ops, run, i);
    var s := run[i];
    var th := s.threads[t];
    assert Local(s, t);
    SwingRowsClean(s, t);
    assert Pending(th)[|th.path|] == th.cur;
    assert KeyAt(s.matrix, th.cur.place, th.cur.key) ==>
        Holds(s.matrix, th.cur.place.row, th.cur.place.col, th.cur.key);
  }

  /** When a path without repeated cells has been executed, its first cell, which is in a home row
      of the new key, is empty, and stays so until the insert itself fills it. */
  lemma ExecutedPathMakesRoom(h: nat, ops: seq<Op>, run: seq<State>, i: nat, t: nat)
    requires Run(h, ops, run) && i < |run| && t < |run[i].threads|
    requires Retrying(run[i].threads[t]) && NoRepeat(run[i].threads[t].trail)
    ensures var th := run[i].threads[t];
            && th.op.Insert? && th.trail != [] && |run[i].cells| >= 2
            && Home(th.op.key, |run[i].cells|, th.trail[0].row) && Peek(run[i].matrix, th.trail[0]).Empty?
  {
    RunInv(h, ops, run, i);
    assert Local(run[i], t);
  }

  /** No `unwrap` of an empty cell is ever executed. */
  lemma NeverPanics(h: nat, ops: seq<Op>, run: seq<State>, i: nat, t: nat)
    requires Run(h, ops, run) && i < |run| && t < |run[i].threads|
    ensures run[i].threads[t].pc != Panicked
  {
    RunInv(h, ops, run, i);
    assert Local(run[i], t);
  }

  // ----- deadlock

  function Wanted(s: State, t: nat): Option<(Lock, Mode)> {
    if |s.cells| >= 2 && t < |s.threads| then Target(s.threads[t], |s.cells|) else None
  }

  /** `t` is about to take a lock that `u` holds in a conflicting mode. */
  ghost predicate WaitsFor(s: State, t: nat, u: nat) {
    && t < |s.threads| && u < |s.threads| && t != u && Wanted(s, t).Some?
    && !Compatible(s.threads[u].held, Wanted(s, t).value.0, Wanted(s, t).value.1)
  }

  /** Locks are taken in strictly increasing order: the main lock, then rows. */
  lemma LockOrder(s: State, t: nat, l: Lock)
    requires Inv(s) && t < |s.threads| && Wanted(s, t).Some? && l in s.threads[t].held
    ensures l < Wanted(s, t).value.0
  {
    var th := s.threads[t];
    assert Local(s, t);
    if th.pc.WantSecond? {
      SwingRows(th, |s.cells|);
    }
  }

  predicate Shares(th: Thread) {
    th.op.Read? ==> forall l | l in th.held :: th.held[l] == Shared
  }

  lemma SharesStep(s: State, t: nat, dice: Dice)
    requires Inv(s) && Enabled(s, t, dice) && Shares(s.threads[t])
    ensures Shares(Plan(s, t, dice).0)
  {
    assert Local(s, t);
    HeldStep(s, t, dice);
  }

  lemma {:induction false} RunShares(h: nat, ops: seq<Op>, run: seq<State>, i: nat, t: nat)
    requires Run(h, ops, run) && i < |run| && t < |run[i].threads|
    ensures Shares(run[i].threads[t])
  {
    if i > 0 {
      RunInv(h, ops, run, i - 1);
      assert Steps(run[i - 1], run[i]);
      var u: nat, dice :| Enabled(run[i - 1], u, dice) && run[i] == Next(run[i - 1], u, dice);
      assert run[i].threads == run[i - 1].threads[u := Plan(run[i - 1], u, dice).0];
      RunShares(h, ops, run, i - 1, t);
      if t == u {
        SharesStep(run[i - 1], u, dice);
      }
    }
  }

  /** Nobody who takes a lock for reading ever waits for a read: neither another read nor an insert
      that looks for a free cell. */
  lemma ReadsBlockOnlyWriters(h: nat, ops: seq<Op>, run: seq<State>, i: nat, t: nat, u: nat)
    requires Run(h, ops, run) && i < |run| && WaitsFor(run[i], t, u) && run[i].threads[u].op.Read?
    ensures !run[i].threads[t].op.Read? && run[i].threads[t].pc != WantProbe
  {
    RunInv(h, ops, run, i);
    RunShares(h, ops, run, i, u);
    assert Local(run[i], t);
  }

  lemma {:induction false} Climb(s: State, ts: seq<nat>, i: nat)
    requires Inv(s) && i < |ts|
    requires forall j | 0 <= j < |ts| - 1 :: WaitsFor(s, ts[j], ts[j + 1])
    requires Wanted(s, ts[|ts| - 1]).Some?
    ensures Wanted(s, ts[0]).Some? && Wanted(s, ts[i]).Some?
    ensures Wanted(s, ts[i]).value.0 >= Wanted(s, ts[0]).value.0 + i
  {
    assert |ts| > 1 ==> WaitsFor(s, ts[0], ts[0 + 1]);
    if i > 0 {
      Climb(s, ts, i - 1);
      assert WaitsFor(s, ts[i - 1], ts[i - 1 + 1]);
      assert i < |ts| - 1 ==> WaitsFor(s, ts[i], ts[i + 1]);
      LockOrder(s, ts[i], Wanted(s, ts[i - 1]).value.0);
    }
  }

  /** No reachable state has a circle of operations each waiting for a lock the next one holds. */
  lemma NoWaitCycle(h: nat, ops: seq<Op>, run: seq<State>, i: nat, ts: seq<nat>)
    requires Run(h, ops, run) && i < |run| && |ts| > 0
    ensures !(&& (forall j | 0 <= j < |ts| - 1 :: WaitsFor(run[i], ts[j], ts[j + 1]))
              && WaitsFor(run[i], ts[|ts| - 1], ts[0]))
  {
    RunInv(h, ops, run, i);
    var s := run[i];
    if (forall j | 0 <= j < |ts| - 1 :: WaitsFor(s, ts[j], ts[j + 1])) && WaitsFor(s, ts[|ts| - 1], ts[0]) {
      Climb(s, ts, |ts| - 1);
      LockOrder(s, ts[0], Wanted(s, ts[|ts| - 1]).value.0);
      assert false;
    }
  }

  lemma {:induction false} HighestWaiter(s: State, n: nat) returns (t: nat)
    requires n <= |s.threads| && |s.cells| >= 2
    requires exists u :: 0 <= u < n && s.threads[u].pc != Done
    requires forall u | 0 <= u < n && s.threads[u].pc != Done :: Wanted(s, u).Some?
    ensures t < n && s.threads[t].pc != Done
    ensures forall u | 0 <= u < n && s.threads[u].pc != Done :: Wanted(s, u).value.0 <= Wanted(s, t).value.0
  {
    t := n - 1;
    if exists u :: 0 <= u < n - 1 && s.threads[u].pc != Done {
      var best := HighestWaiter(s, n - 1);
      if s.threads[n - 1].pc == Done || Wanted(s, n - 1).value.0 <= Wanted(s, best).value.0 {
        t := best;
      }
    }
  }

  /** Deadlock freedom: as long as every finished operation has released its locks, some
      unfinished operation can take its next step. */
  lemma SomeOperationCanStep(h: nat, ops: seq<Op>, run: seq<State>, i: nat) returns (t: nat, dice: Dice)
    requires Run(h, ops, run) && i < |run|
    requires exists u :: 0 <= u < |run[i].threads| && run[i].threads[u].pc != Done
    requires forall u | 0 <= u < |run[i].threads| && run[i].threads[u].pc == Done :: run[i].threads[u].held == map[]
    ensures Enabled(run[i], t, dice)
  {
    RunInv(h, ops, run, i);
    var s := run[i];
    dice := Dice(true, 0);
    forall u | 0 <= u < |s.threads| ensures s.threads[u].pc != Panicked {
      assert Local(s, u);
    }
    if u: nat :| u < |s.threads| && s.threads[u].pc != Done && Wanted(s, u).None? {
      t := u;
    } else {
      t := HighestWaiter(s, |s.threads|);
      var want := Wanted(s, t).value;
      forall u | 0 <= u < |s.threads| && u != t ensures Compatible(s.threads[u].held, want.0, want.1) {
        if want.0 in s.threads[u].held {
          LockOrder(s, u, want.0);
        }
      }
    }
  }

  lemma BlockedStep(s: State, s': State, t: nat, u: nat)
    requires WaitsFor(s, t, u) && s.threads[u].pc == Done && Steps(s, s')
    ensures WaitsFor(s', t, u) && s'.threads[t] == s.threads[t] && s'.threads[u] == s.threads[u]
  {
  }

  lemma BlockedNext(h: nat, ops: seq<Op>, run: seq<State>, i: nat, t: nat, u: nat)
    requires Run(h, ops, run) && i + 1 < |run| && WaitsFor(run[i], t, u) && run[i].threads[u].pc == Done
    ensures WaitsFor(run[i + 1], t, u)
    ensures run[i + 1].threads[t] == run[i].threads[t] && run[i + 1].threads[u] == run[i].threads[u]
  {
    assert Steps(run[i], run[i + 1]);
    BlockedStep(run[i], run[i + 1], t, u);
  }

  /** A lock left behind by a finished operation is never released: whoever waits for it waits
      in every later state. */
  lemma {:induction false} LeakBlocksForever(h: nat, ops: seq<Op>, run: seq<State>, i: nat, j: nat, t: nat, u: nat)
    requires Run(h, ops, run) && i <= j < |run|
    requires WaitsFor(run[i], t, u) && run[i].threads[u].pc == Done
    ensures WaitsFor(run[j], t, u)
    ensures run[j].threads[t] == run[i].threads[t] && run[j].threads[u] == run[i].threads[u]
    decreases j
  {
    if i < j {
      LeakBlocksForever(h, ops, run, i, j - 1, t, u);
      BlockedNext(h, ops, run, j - 1, t, u);
    }
  }
}
