/** Which locks an operation still holds when it has returned, and what that costs the others. */
module CuckooLeak {
  import opened Linearizability
  import opened CuckooMatrix
  import opened CuckooThreads
  import opened CuckooInvariant
  import opened CuckooOwn
  import opened CuckooTheorems

  /** The main lock and both home rows. */
  function AllLocks(th: Thread, h: nat): map<Lock, Mode>
    requires h >= 2
  {
    map[MAIN := Exclusive][LowLock(th, h) := Exclusive][HighLock(th, h) := Exclusive]
  }

  /** Only a failure after an executed path leaves with locks, and then with all of them. */
  ghost predicate ExitOk(th: Thread, h: nat)
    requires h >= 2
  {
    && (th.pc.Unlock? && th.pc.then_.LeaveHolding? ==>
          th.op.Insert? && th.outcome == Some(Inserted(false)) && th.trail != [] && th.held == AllLocks(th, h))
    && (th.pc.Store? ==> th.outcome != Some(Inserted(false)))
    && (th.pc.Unlock? && th.pc.then_.Leave? && th.outcome == Some(Inserted(false)) ==> th.trail == [])
    && (th.pc.Done? ==>
          if th.op.Insert? && th.outcome == Some(Inserted(false)) && th.trail != [] then th.held == AllLocks(th, h)
          else th.held == map[])
  }

  ghost predicate AllExitsOk(s: State)
    requires |s.cells| >= 2
  {
    forall t | 0 <= t < |s.threads| :: ExitOk(s.threads[t], |s.cells|) && SearchOk(s.threads[t], |s.cells|)
  }

  /** The search gave up: it looked at one row more than the table has, each the other home row of
      the entry before. */
  ghost predicate Exhausted(th: Thread, h: nat)
    requires h >= 2
  {
    |th.path| == h + 2 && Chain(th.path, h) && Home(th.op.key, h, th.path[0].place.row)
  }

  /** How long the path is, from the first victim to the failure of the search, which is the only
      failure without an executed path. */
  ghost predicate SearchOk(th: Thread, h: nat)
    requires h >= 2
  {
    && (Hunting(th.pc) ==> |th.path| + th.budget == h + 1)
    && (th.pc.Unlock? && th.pc.then_.Fail? ==> Exhausted(th, h))
    && (th.outcome == Some(Inserted(false)) && th.trail == [] ==> Exhausted(th, h))
    && (th.outcome.Some? ==> (th.op.Insert? <==> th.outcome.value.Inserted?))
  }

  /** The last exit of `insert`: both home rows are full at the second attempt. */
  predicate GivesUp(th: Thread) {
    th.pc.RoomHigh? && th.pc.i >= WIDTH && th.second
  }

  /** Apart from that exit no step of the work fails after the path or keeps the locks. */
  ghost predicate Harmless(th: Thread) {
    && !th.pc.Done? && (th.pc.Unlock? ==> !th.pc.then_.LeaveHolding?)
    && (th.pc.Store? || (th.pc.Unlock? && th.pc.then_.Leave?) ==> th.outcome != Some(Inserted(false)))
  }

  lemma SearchHarmless(th: Thread, cells: Matrix, dice: Dice)
    requires |cells| >= 2 && th.outcome.None? && !GivesUp(th)
    requires th.pc.SeekLow? || th.pc.SeekHigh? || th.pc.RoomLow? || th.pc.RoomHigh?
    ensures Harmless(Work(th, cells, dice).0)
  {
  }

  lemma OtherHarmless(th: Thread, cells: Matrix, dice: Dice)
    requires |cells| >= 2 && Harmless(th) && !th.pc.Unlock?
    requires !th.pc.SeekLow? && !th.pc.SeekHigh? && !th.pc.RoomLow? && !th.pc.RoomHigh?
    ensures Harmless(Work(th, cells, dice).0)
  {
  }

  lemma WorkExit(th: Thread, cells: Matrix, dice: Dice)
    requires |cells| >= 2 && OwnOk(th, |cells|) && ExitOk(th, |cells|) && !th.pc.Unlock? && !th.pc.Done?
    ensures ExitOk(Work(th, cells, dice).0, |cells|)
  {
    if th.pc.SeekLow? || th.pc.SeekHigh? || th.pc.RoomLow? || th.pc.RoomHigh? {
      if !GivesUp(th) {
        SearchHarmless(th, cells, dice);
      }
    } else {
      OtherHarmless(th, cells, dice);
    }
  }

  lemma ReleasedExit(th: Thread, h: nat)
    requires h >= 2 && OwnOk(th, h) && ExitOk(th, h) && TrailOk(th) && th.pc.Unlock? && th.pc.todo == []
    ensures ExitOk(Released(th, h, th.pc.then_).0, h)
  {
  }

  lemma SeekSearch(th: Thread, cells: Matrix, dice: Dice)
    requires |cells| >= 2 && OwnOk(th, |cells|) && SearchOk(th, |cells|)
    requires th.pc.SeekLow? || th.pc.SeekHigh?
    ensures SearchOk(Work(th, cells, dice).0, |cells|)
  {
  }

  lemma RoomSearch(th: Thread, cells: Matrix, dice: Dice)
    requires |cells| >= 2 && OwnOk(th, |cells|) && SearchOk(th, |cells|)
    requires th.pc.RoomLow? || th.pc.RoomHigh?
    ensures SearchOk(Work(th, cells, dice).0, |cells|)
  {
  }

  lemma HuntSearch(th: Thread, cells: Matrix, dice: Dice)
    requires |cells| >= 2 && OwnOk(th, |cells|) && SearchOk(th, |cells|) && (th.pc.Evict? || th.pc.Probe?)
    ensures SearchOk(Work(th, cells, dice).0, |cells|)
  {
  }

  lemma EdgeSearch(th: Thread, cells: Matrix, dice: Dice)
    requires |cells| >= 2 && OwnOk(th, |cells|) && SearchOk(th, |cells|) && (th.pc.Ready? || th.pc.Store?)
    ensures SearchOk(Work(th, cells, dice).0, |cells|)
  {
  }

  lemma SwingSearch(th: Thread, cells: Matrix, dice: Dice)
    requires |cells| >= 2 && OwnOk(th, |cells|) && SearchOk(th, |cells|) && Swinging(th.pc)
    requires !th.pc.Unlock?
    ensures SearchOk(Work(th, cells, dice).0, |cells|)
  {
    SwingGoesOn(th, cells, dice);
  }

  lemma SwingGoesOn(th: Thread, cells: Matrix, dice: Dice)
    requires |cells| >= 2 && Swinging(th.pc) && !th.pc.Unlock?
    ensures var th' := Work(th, cells, dice).0;
            && th'.outcome == th.outcome && th'.op == th.op && th'.trail == th.trail && !Hunting(th'.pc)
            && (th'.pc.Unlock? ==> th'.pc.then_.Swung?)
  {
  }

  lemma ExtendSearch(th: Thread, h: nat)
    requires h >= 2 && OwnOk(th, h) && SearchOk(th, h) && th.pc.Unlock? && th.pc.then_.Extend?
    ensures SearchOk(Released(th, h, th.pc.then_).0, h)
  {
    ChainGrows(th.path, Victim(Place(ProbeRow(th, h), th.pc.then_.col), th.pc.then_.key), h);
  }

  lemma ReleasedSearch(th: Thread, h: nat)
    requires h >= 2 && OwnOk(th, h) && SearchOk(th, h) && th.pc.Unlock? && th.pc.todo == []
    ensures SearchOk(Released(th, h, th.pc.then_).0, h)
  {
    if th.pc.then_.Extend? {
      ExtendSearch(th, h);
    }
  }

  lemma WorkSearch(th: Thread, cells: Matrix, dice: Dice)
    requires |cells| >= 2 && OwnOk(th, |cells|) && SearchOk(th, |cells|)
    requires Target(th, |cells|).None? && !th.pc.Unlock? && !th.pc.Done?
    ensures SearchOk(Work(th, cells, dice).0, |cells|)
  {
    if th.pc.SeekLow? || th.pc.SeekHigh? {
      SeekSearch(th, cells, dice);
    } else if th.pc.RoomLow? || th.pc.RoomHigh? {
      RoomSearch(th, cells, dice);
    } else if th.pc.Evict? || th.pc.Probe? {
      HuntSearch(th, cells, dice);
    } else if th.pc.Ready? || th.pc.Store? {
      EdgeSearch(th, cells, dice);
    } else {
      SwingSearch(th, cells, dice);
    }
  }

  lemma PlanSearch(s: State, t: nat, dice: Dice)
    requires Inv(s) && Enabled(s, t, dice) && SearchOk(s.threads[t], |s.cells|)
    ensures SearchOk(Plan(s, t, dice).0, |s.cells|)
  {
    var th := s.threads[t];
    assert Local(s, t);
    if Target(th, |s.cells|).None? {
      if th.pc.Unlock? {
        if th.pc.todo == [] {
          ReleasedSearch(th, |s.cells|);
        }
      } else {
        WorkSearch(th, s.cells, dice);
      }
    }
  }

  lemma PlanExit(s: State, t: nat, dice: Dice)
    requires Inv(s) && Enabled(s, t, dice) && TrailOk(s.threads[t]) && ExitOk(s.threads[t], |s.cells|)
    ensures ExitOk(Plan(s, t, dice).0, |s.cells|)
  {
    var th := s.threads[t];
    assert Local(s, t);
    if Target(th, |s.cells|).None? {
      if th.pc.Unlock? {
        if th.pc.todo == [] {
          ReleasedExit(th, |s.cells|);
        }
      } else {
        WorkExit(th, s.cells, dice);
      }
    }
  }

  lemma ExitStep(s: State, t: nat, dice: Dice)
    requires Inv(s) && AllTrailsOk(s) && AllExitsOk(s) && Enabled(s, t, dice)
    ensures AllExitsOk(Next(s, t, dice))
  {
    PlanExit(s, t, dice);
    PlanSearch(s, t, dice);
    assert Next(s, t, dice).threads == s.threads[t := Plan(s, t, dice).0];
  }

  lemma StepsExits(s: State, s': State)
    requires Inv(s) && AllTrailsOk(s) && AllExitsOk(s) && Steps(s, s')
    ensures |s'.cells| >= 2 && AllExitsOk(s')
  {
    var t: nat, dice :| Enabled(s, t, dice) && s' == Next(s, t, dice);
    ExitStep(s, t, dice);
  }

  lemma {:induction false} RunExits(h: nat, ops: seq<Op>, run: seq<State>, i: nat)
    requires Run(h, ops, run) && i < |run|
    ensures |run[i].cells| >= 2 && AllExitsOk(run[i])
  {
    if i > 0 {
      RunExits(h, ops, run, i - 1);
      RunInv(h, ops, run, i - 1);
      assert Steps(run[i - 1], run[i]);
      StepsExits(run[i - 1], run[i]);
    }
  }

  /** An operation that has returned still holds locks if and only if it is an insert that failed
      after executing a path; it then holds the main lock and both its home rows, and its path
      went through some cell twice.  So an insert that executed a path without repeated cells (the
      free cell included) succeeds, whatever runs at the same time.  The only other failure is
      that of a search which has looked at one row more than the table has. */
  lemma InsertOutcome(h: nat, ops: seq<Op>, run: seq<State>, i: nat, t: nat)
    requires Run(h, ops, run) && i < |run| && t < |run[i].threads| && run[i].threads[t].pc.Done?
    ensures var th := run[i].threads[t];
            && th.outcome.Some? && |run[i].cells| >= 2
            && (th.held != map[] <==> th.op.Insert? && th.outcome == Some(Inserted(false)) && th.trail != [])
            && (th.held != map[] ==> th.held == AllLocks(th, |run[i].cells|) && !NoRepeat(th.trail))
            && (th.op.Insert? ==>
                  th.outcome == Some(Inserted(true)) || th.held != map[] || Exhausted(th, |run[i].cells|))
  {
    RunInv(h, ops, run, i);
    RunExits(h, ops, run, i);
    assert Local(run[i], t);
    assert MAIN in AllLocks(run[i].threads[t], |run[i].cells|);
  }

  // ----- what the others lose

  /** An insert that has not taken the main lock yet, or a read or delete that has not taken the
      lock of its lower row, which is among the locks `kept`. */
  predicate ShutOut(th: Thread, h: nat, kept: map<Lock, Mode>)
    requires h >= 2
  {
    if th.op.Insert? then th.pc.Ready? || th.pc.WantMain?
    else (th.pc.Ready? || th.pc.WantLow?) && LowLock(th, h) in kept
  }

  lemma ShutOutStep(s: State, s': State, t: nat, u: nat)
    requires Steps(s, s') && t < |s.threads| && u < |s.threads| && t != u && s.threads[u].pc.Done?
    requires |s.cells| >= 2 && MAIN in s.threads[u].held
    requires forall l | l in s.threads[u].held :: s.threads[u].held[l] == Exclusive
    requires ShutOut(s.threads[t], |s.cells|, s.threads[u].held)
    ensures |s'.cells| == |s.cells| && |s'.threads| == |s.threads| && s'.threads[u] == s.threads[u]
    ensures ShutOut(s'.threads[t], |s.cells|, s.threads[u].held)
  {
    var x: nat, dice :| Enabled(s, x, dice) && s' == Next(s, x, dice);
    assert s'.threads == s.threads[x := Plan(s, x, dice).0] && |s'.cells| == |s.cells|;
  }

  /** After an insert has returned with its locks, no insert that has not yet taken the main lock
      ever finishes, and no read or delete that has yet to take the lower of its home rows, if that
      is one of the two rows kept. */
  lemma {:induction false} LeakShutsOut(h: nat, ops: seq<Op>, run: seq<State>, i: nat, j: nat, t: nat, u: nat)
    requires Run(h, ops, run) && i <= j < |run| && t < |run[i].threads| && u < |run[i].threads|
    requires run[i].threads[u].pc.Done? && run[i].threads[u].held != map[] && |run[i].cells| >= 2
    requires ShutOut(run[i].threads[t], |run[i].cells|, run[i].threads[u].held)
    ensures |run[j].cells| == |run[i].cells| && |run[j].threads| == |run[i].threads|
    ensures run[j].threads[u] == run[i].threads[u]
    ensures ShutOut(run[j].threads[t], |run[i].cells|, run[i].threads[u].held) && !run[j].threads[t].pc.Done?
    decreases j
  {
    if i < j {
      LeakShutsOut(h, ops, run, i, j - 1, t, u);
      InsertOutcome(h, ops, run, i, u);
      assert Steps(run[j - 1], run[j]);
      ShutOutStep(run[j - 1], run[j], t, u);
    }
  }
}
