/** Every operation of the hash table takes a bounded number of steps, so interleaved operations
    always come to an end. */
module CuckooProgress {
  import opened Linearizability
  import opened CuckooMatrix
  import opened CuckooThreads
  import opened CuckooInvariant
  import opened CuckooOwn
  import opened CuckooTheorems
  import opened CuckooLeak

  function Left(i: nat): nat {
    if i < WIDTH then WIDTH - i else 0
  }

  /** Steps left once the path is known: ten for each victim, then the retry. */
  function SwingRank(victims: nat): nat {
    31 + 10 * victims
  }

  /** Steps left while the path may still grow by `budget` victims. */
  function HuntRank(victims: nat, budget: nat): nat {
    SwingRank(victims + budget + 1) + 10 * budget
  }

  function EvictRank(h: nat): nat {
    HuntRank(1, h) + 13
  }

  function SeekRank(th: Thread, h: nat): nat {
    (if th.second then 0 else EvictRank(h))
    + match th.pc
      case WantLow => 30
      case SeekLow(i) => 25 + Left(i)
      case WantHigh => 24
      case SeekHigh(i) => 19 + Left(i)
      case RoomLow(i) => 14 + Left(i)
      case RoomHigh(i) => 9 + Left(i)
      case _ => 31
  }

  function UnlockRank(th: Thread, todo: seq<Lock>, then_: After): nat {
    match then_
    case Leave => |todo| + 1
    case LeaveHolding => |todo| + 1
    case Fail => |todo| + 2
    case Hunt => HuntRank(|th.path|, th.budget) + 10 + |todo|
    case Extend(_, _) => HuntRank(|th.path|, th.budget) + 1 + |todo|
    case Exploit(_) => HuntRank(|th.path|, th.budget) + 1 + |todo|
    case Swung => SwingRank(|th.path|) + 1 + |todo|
  }

  /** An upper bound on the steps the operation still has to take. */
  function Rank(th: Thread, h: nat): nat {
    match th.pc
    case Ready => EvictRank(h) + 32
    case WantMain => EvictRank(h) + 31
    case Evict => EvictRank(h)
    case Store(_, _, todo) => |todo| + 2
    case Unlock(todo, then_) => UnlockRank(th, todo, then_)
    case WantProbe => HuntRank(|th.path|, th.budget) + 9
    case Probe(i) => HuntRank(|th.path|, th.budget) + 4 + Left(i)
    case PopPath => SwingRank(|th.path|)
    case WantFirst => SwingRank(|th.path|) + 9
    case WantSecond => SwingRank(|th.path|) + 8
    case CheckSwing => SwingRank(|th.path|) + 7
    case ClearOld => SwingRank(|th.path|) + 6
    case FillNew(_) => SwingRank(|th.path|) + 5
    case Settle => SwingRank(|th.path|) + 4
    case Done => 0
    case Panicked => 0
    case _ => SeekRank(th, h)
  }

  lemma ReleasedRank(th: Thread, h: nat)
    requires h >= 2 && OutcomeOk(th) && th.pc.Unlock? && th.pc.todo == []
    ensures Rank(Released(th, h, th.pc.then_).0, h) < Rank(th, h)
  {
  }

  lemma SeekWorkRank(th: Thread, cells: Matrix, dice: Dice)
    requires |cells| >= 2 && (th.pc.SeekLow? || th.pc.SeekHigh?)
    ensures Rank(Work(th, cells, dice).0, |cells|) < Rank(th, |cells|)
  {
    var pc := Work(th, cells, dice).0.pc;
    assert pc.WantHigh? || pc.SeekLow? || pc.SeekHigh? || pc.Store? || pc.Unlock?
           || (pc == RoomLow(0) && th.op.Insert?);
  }

  lemma RoomWorkRank(th: Thread, cells: Matrix, dice: Dice)
    requires |cells| >= 2 && (th.pc.RoomLow? || th.pc.RoomHigh?) && th.op.Insert?
    ensures Rank(Work(th, cells, dice).0, |cells|) < Rank(th, |cells|)
  {
  }

  lemma SwingWorkRank(th: Thread, cells: Matrix, dice: Dice)
    requires |cells| >= 2 && (th.pc.PopPath? || th.pc.CheckSwing? || th.pc.ClearOld? || th.pc.FillNew? || th.pc.Settle?)
    ensures Rank(Work(th, cells, dice).0, |cells|) < Rank(th, |cells|)
  {
  }

  lemma EdgeWorkRank(th: Thread, cells: Matrix, dice: Dice)
    requires |cells| >= 2 && (th.pc.Ready? || th.pc.Store?)
    ensures Rank(Work(th, cells, dice).0, |cells|) < Rank(th, |cells|)
  {
  }

  lemma HuntWorkRank(th: Thread, cells: Matrix, dice: Dice)
    requires |cells| >= 2 && (th.pc.Evict? || th.pc.Probe?)
    ensures Rank(Work(th, cells, dice).0, |cells|) < Rank(th, |cells|)
  {
  }

  lemma TakeRank(th: Thread, h: nat)
    requires h >= 2 && Target(th, h).Some?
    ensures Rank(Taken(th, h), h) < Rank(th, h)
  {
  }

  lemma StepRank(s: State, t: nat, dice: Dice)
    requires Inv(s) && Enabled(s, t, dice)
    ensures Rank(Plan(s, t, dice).0, |s.cells|) < Rank(s.threads[t], |s.cells|)
  {
    var th := s.threads[t];
    assert Local(s, t);
    if Target(th, |s.cells|).Some? {
      TakeRank(th, |s.cells|);
    } else if th.pc.Unlock? {
      if th.pc.todo == [] {
        ReleasedRank(th, |s.cells|);
      }
    } else if th.pc.SeekLow? || th.pc.SeekHigh? {
      SeekWorkRank(th, s.cells, dice);
    } else if th.pc.RoomLow? || th.pc.RoomHigh? {
      RoomWorkRank(th, s.cells, dice);
    } else if Swinging(th.pc) {
      SwingWorkRank(th, s.cells, dice);
    } else if th.pc.Evict? || th.pc.Probe? {
      HuntWorkRank(th, s.cells, dice);
    } else {
      EdgeWorkRank(th, s.cells, dice);
    }
  }

  // ----- all operations together

  function Total(threads: seq<Thread>, h: nat): nat {
    if threads == [] then 0 else Total(threads[..|threads| - 1], h) + Rank(threads[|threads| - 1], h)
  }

  lemma {:induction false} TotalUpdate(threads: seq<Thread>, h: nat, t: nat, th: Thread)
    requires t < |threads|
    ensures Total(threads[t := th], h) == Total(threads, h) - Rank(threads[t], h) + Rank(th, h)
  {
    var n := |threads| - 1;
    if t < n {
      assert threads[t := th][..n] == threads[..n][t := th];
      TotalUpdate(threads[..n], h, t, th);
    } else {
      assert threads[t := th][..n] == threads[..n];
    }
  }

  lemma {:induction false} TotalAtStart(threads: seq<Thread>, h: nat)
    requires forall t | 0 <= t < |threads| :: threads[t].pc == Ready
    ensures Total(threads, h) == |threads| * (EvictRank(h) + 32)
  {
    if threads != [] {
      TotalAtStart(threads[..|threads| - 1], h);
    }
  }

  lemma TotalStep(s: State, s': State)
    requires Inv(s) && Steps(s, s')
    ensures |s'.cells| == |s.cells| && Total(s'.threads, |s.cells|) < Total(s.threads, |s.cells|)
  {
    var t: nat, dice :| Enabled(s, t, dice) && s' == Next(s, t, dice);
    var th := Plan(s, t, dice).0;
    assert s'.threads == s.threads[t := th] && |s'.cells| == |s.cells|;
    StepRank(s, t, dice);
    TotalUpdate(s.threads, |s.cells|, t, th);
  }

  lemma TotalNext(h: nat, ops: seq<Op>, run: seq<State>, i: nat, j: nat)
    requires Run(h, ops, run) && i < j < |run| && j == i + 1
    ensures |run[j].cells| == |run[i].cells|
    ensures Total(run[j].threads, |run[i].cells|) < Total(run[i].threads, |run[i].cells|)
  {
    RunInv(h, ops, run, i);
    assert Steps(run[i], run[j]);
    TotalStep(run[i], run[j]);
  }

  lemma {:induction false} TotalFalls(h: nat, ops: seq<Op>, run: seq<State>, i: nat)
    requires Run(h, ops, run) && i < |run|
    ensures |run[i].cells| == h && Total(run[i].threads, h) + i <= Total(run[0].threads, h)
  {
    if i > 0 {
      TotalFalls(h, ops, run, i - 1);
      TotalNext(h, ops, run, i - 1, i);
    }
  }

  /** No run is longer than a bound that depends only on the table's height and the number of
      operations: nothing loops for ever, not even the path search. */
  lemma RunsAreBounded(h: nat, ops: seq<Op>, run: seq<State>)
    requires Run(h, ops, run)
    ensures |run| <= 1 + |ops| * (20 * h + 96)
  {
    TotalFalls(h, ops, run, |run| - 1);
    TotalAtStart(run[0].threads, h);
    assert EvictRank(h) + 32 == 20 * h + 96;
  }

  ghost predicate Stuck(s: State) {
    forall t: nat, dice: Dice :: !Enabled(s, t, dice)
  }

  /** In a run that cannot be continued every operation has finished, unless a finished insert has
      kept its locks: one that failed after a path through some cell twice. */
  lemma MaximalRunsFinishEveryOperation(h: nat, ops: seq<Op>, run: seq<State>)
    requires Run(h, ops, run)
    requires Stuck(run[|run| - 1])
    ensures var s := run[|run| - 1];
            || (forall t | 0 <= t < |s.threads| :: s.threads[t].pc == Done)
            || (exists u | 0 <= u < |s.threads| ::
                  s.threads[u].pc == Done && s.threads[u].held != map[]
                  && s.threads[u].outcome == Some(Inserted(false)) && !NoRepeat(s.threads[u].trail))
  {
    var s := run[|run| - 1];
    if exists t :: 0 <= t < |s.threads| && s.threads[t].pc != Done {
      if forall u | 0 <= u < |s.threads| && s.threads[u].pc == Done :: s.threads[u].held == map[] {
        var t, dice := SomeOperationCanStep(h, ops, run, |run| - 1);
        assert false;
      } else {
        var u :| 0 <= u < |s.threads| && s.threads[u].pc == Done && s.threads[u].held != map[];
        InsertOutcome(h, ops, run, |run| - 1, u);
      }
    }
  }
}
