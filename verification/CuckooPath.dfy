/** The cuckoo path of one operation, and the step lemma for the whole invariant. */
module CuckooPath {
  import opened CuckooMatrix
  import opened CuckooThreads
  import opened CuckooInvariant
  import opened CuckooOwn
  import opened CuckooShared
  import opened CuckooSteps

  // ----- what the table looks like along the path after the operation's own step

  lemma SameLive(m: Matrix, th: Thread, th': Thread, gone: iset<Key>)
    requires |m| >= 2 && PathLive(m, th, gone)
    requires th' == th.(pc := th'.pc, held := th'.held, outcome := th'.outcome)
    requires Hunting(th'.pc) ==> Hunting(th.pc)
    requires Swinging(th'.pc) ==> Swinging(th.pc) && (th.pc.PopPath? <==> th'.pc.PopPath?)
                                  && (th.pc.Unlock? <==> th'.pc.Unlock?)
    requires Retrying(th') ==> Retrying(th)
    requires th'.pc.Unlock? && (th'.pc.then_.Extend? || th'.pc.then_.Exploit?) ==>
               th.pc.Unlock? && th.pc.then_ == th'.pc.then_
    ensures PathLive(m, th', gone)
  {
  }

  lemma LockStepLive(m: Matrix, th: Thread, gone: iset<Key>)
    requires |m| >= 2 && PathLive(m, th, gone) && OwnOk(th, |m|)
    ensures Target(th, |m|).Some? ==> PathLive(m, Taken(th, |m|), gone)
    ensures th.pc.Unlock? && th.pc.todo != [] ==>
              PathLive(m, th.(pc := Unlock(th.pc.todo[1..], th.pc.then_), held := th.held - {th.pc.todo[0]}), gone)
  {
    if Target(th, |m|).Some? {
      SameLive(m, th, Taken(th, |m|), gone);
    } else if th.pc.Unlock? && th.pc.todo != [] {
      SameLive(m, th, th.(pc := Unlock(th.pc.todo[1..], th.pc.then_), held := th.held - {th.pc.todo[0]}), gone);
    }
  }

  lemma ExtendLive(m: Matrix, th: Thread, gone: iset<Key>)
    requires |m| >= 2 && PathLive(m, th, gone) && th.pc.Unlock? && th.pc.then_.Extend?
    ensures PathLive(m, Released(th, |m|, th.pc.then_).0, gone)
  {
  }

  lemma ExploitLive(m: Matrix, th: Thread, gone: iset<Key>)
    requires |m| >= 2 && PathLive(m, th, gone) && th.pc.Unlock? && th.pc.then_.Exploit?
    ensures PathLive(m, Released(th, |m|, th.pc.then_).0, gone)
  {
  }

  lemma SwungLive(m: Matrix, th: Thread, gone: iset<Key>)
    requires |m| >= 2 && PathLive(m, th, gone) && th.pc.Unlock? && th.pc.then_.Swung?
    ensures PathLive(m, Released(th, |m|, th.pc.then_).0, gone)
  {
  }

  lemma ReleasedLive(m: Matrix, th: Thread, gone: iset<Key>)
    requires |m| >= 2 && PathLive(m, th, gone) && th.pc.Unlock? && OwnOk(th, |m|)
    ensures PathLive(m, Released(th, |m|, th.pc.then_).0, gone)
  {
    match th.pc.then_
    case Extend(_, _) => ExtendLive(m, th, gone);
    case Exploit(_) => ExploitLive(m, th, gone);
    case Swung => SwungLive(m, th, gone);
    case _ => SameLive(m, th, Released(th, |m|, th.pc.then_).0, gone);
  }

  lemma PopLive(m: Matrix, th: Thread, gone: iset<Key>)
    requires |m| >= 2 && PathLive(m, th, gone) && th.pc.PopPath? && PathOk(th, |m|)
    ensures th.path == [] ==> PathLive(m, th.(pc := WantLow, second := true), gone)
    ensures th.path != [] ==>
              PathLive(m, th.(pc := WantFirst, cur := th.path[|th.path| - 1], path := th.path[..|th.path| - 1]), gone)
  {
  }

  /** The entry seen under a read lock is the first of the path or the next one. */
  lemma ProbeLive(cells: Matrix, m: Matrix, th: Thread, dice: Dice, gone: iset<Key>)
    requires Shaped(cells) && Shaped(m) && |cells| == |m| && th.pc.Probe? && PathLive(m, th, gone)
    requires cells[ProbeRow(th, |m|)] == m[ProbeRow(th, |m|)]
    ensures PathLive(m, ProbeStep(th, cells, th.pc.i, dice).0, gone)
  {
    var th' := ProbeStep(th, cells, th.pc.i, dice).0;
    match th'.pc
    case Probe(_) => SameLive(m, th, th', gone);
    case Unlock(_, then_) => ProbeEndLive(m, th, then_, gone);
    case _ => OffPathLive(m, th', gone);
  }

  lemma ProbeEndLive(m: Matrix, th: Thread, then_: After, gone: iset<Key>)
    requires |m| >= 2 && th.pc.Probe? && PathLive(m, th, gone)
    requires match then_
             case Exploit(c) => Peek(m, Place(ProbeRow(th, |m|), c)).Empty?
             case Extend(c, k) => KeyAt(m, Place(ProbeRow(th, |m|), c), k)
             case _ => false
    ensures PathLive(m, th.(pc := Unlock([RowLock(ProbeRow(th, |m|))], then_)), gone)
  {
    assert ProbeRow(th.(pc := Unlock([RowLock(ProbeRow(th, |m|))], then_)), |m|) == ProbeRow(th, |m|);
  }

  lemma StartLive(cells: Matrix, m: Matrix, th: Thread, dice: Dice, gone: iset<Key>)
    requires Shaped(cells) && Shaped(m) && |cells| == |m| && th.pc.Evict? && dice.col < WIDTH
    requires cells[Low(th.op.key, |m|)] == m[Low(th.op.key, |m|)]
    requires cells[High(th.op.key, |m|)] == m[High(th.op.key, |m|)]
    ensures PathLive(m, StartPath(th, cells, dice).0, gone)
  {
  }

  /** A swing whose guard fails leaves an empty cell behind all the same: on a path without
      repetition the guard can only fail because the victim has been deleted. */
  lemma CheckFailedLive(cells: Matrix, m: Matrix, th: Thread, gone: iset<Key>)
    requires |m| >= 2 && |cells| == |m| && th.pc.CheckSwing? && PathLive(m, th, gone)
    requires Peek(cells, th.cur.place) == Peek(m, th.cur.place) && Peek(cells, th.free) == Peek(m, th.free)
    requires !(KeyAt(cells, th.cur.place, th.cur.key) && Peek(cells, th.free).Empty?)
    ensures PathLive(m, th.(pc := Unlock(SwingLocks(th), Swung)), gone)
  {
    if NoRepeat(th.trail) {
      assert Pending(th)[|th.path|] == th.cur;
      assert forall i | 0 <= i < |th.path| :: Pending(th)[i] == th.path[i];
    }
  }

  lemma TrailPlaces(th: Thread, h: nat, i: nat)
    requires h >= 2 && PathOk(th, h) && Swinging(th.pc) && !th.pc.PopPath? && NoRepeat(th.trail)
    requires i < |th.path|
    ensures th.path[i].place != th.cur.place && th.path[i].place != th.free
  {
    var full := Pending(th);
    var n := |th.path|;
    assert full[n] == th.cur && full[i] == th.path[i];
    var tr := th.trail[..n + 2];
    assert tr[i] == th.path[i].place && tr[n] == th.cur.place && tr[n + 1] == th.free;
    assert th.trail[i] == tr[i] && th.trail[n] == tr[n] && th.trail[n + 1] == tr[n + 1];
  }

  lemma SettleLive(m: Matrix, th: Thread, gone: iset<Key>)
    requires Shaped(m) && th.pc.Settle? && PathLive(m, th, gone) && PathOk(th, |m|) && SwingGuard(m, th)
    ensures var m' := MatrixAfter(m, Move(th.cur.place, th.free));
            PathLive(m', th.(pc := Unlock(SwingLocks(th), Swung)), gone)
  {
    var m' := Poke(Poke(m, th.cur.place, Empty), th.free, Peek(m, th.cur.place));
    assert Peek(m', th.cur.place).Empty?;
    if NoRepeat(th.trail) {
      forall i | 0 <= i < |th.path| ensures Alive(m', th.path[i], gone) {
        TrailPlaces(th, |m|, i);
        assert Pending(th)[i] == th.path[i];
        assert Alive(m, th.path[i], gone);
      }
    }
  }

  lemma KeyNext(th: Thread, cells: Matrix, dice: Dice)
    requires |cells| >= 2 && (th.pc.SeekLow? || th.pc.SeekHigh?)
    ensures var (th', e) := Work(th, cells, dice);
            && !e.Move? && th' == th.(pc := th'.pc, outcome := th'.outcome) && !Hunting(th'.pc) && !Swinging(th'.pc)
            && (OnPath(th') ==> e.Quiet? && Retrying(th))
  {
  }

  lemma RoomNext(th: Thread, cells: Matrix, dice: Dice)
    requires |cells| >= 2 && (th.pc.RoomLow? || th.pc.RoomHigh?)
    ensures var (th', e) := Work(th, cells, dice);
            && !e.Move? && th' == th.(pc := th'.pc, outcome := th'.outcome) && !Hunting(th'.pc) && !Swinging(th'.pc)
            && (OnPath(th') ==> e.Quiet? && Retrying(th))
  {
  }

  lemma SeekNext(th: Thread, cells: Matrix, dice: Dice)
    requires |cells| >= 2
    requires th.pc.SeekLow? || th.pc.SeekHigh? || th.pc.RoomLow? || th.pc.RoomHigh? || th.pc.Ready? || th.pc.Store?
    ensures var (th', e) := Work(th, cells, dice);
            && !e.Move?
            && th' == th.(pc := th'.pc, outcome := th'.outcome)
            && !Hunting(th'.pc) && !Swinging(th'.pc)
            && (OnPath(th') && !th.pc.Ready? ==> e.Quiet? && Retrying(th))
  {
    if th.pc.SeekLow? || th.pc.SeekHigh? {
      KeyNext(th, cells, dice);
    } else if th.pc.RoomLow? || th.pc.RoomHigh? {
      RoomNext(th, cells, dice);
    }
  }

  /** Looking for the key or for room: the path only matters while nothing is committed. */
  lemma SeekLive(cells: Matrix, m: Matrix, th: Thread, dice: Dice, gone: iset<Key>)
    requires |cells| >= 2 && |m| == |cells| && PathLive(m, th, gone) && OwnOk(th, |m|)
    requires th.pc.SeekLow? || th.pc.SeekHigh? || th.pc.RoomLow? || th.pc.RoomHigh? || th.pc.Ready? || th.pc.Store?
    ensures var (th', e) := Work(th, cells, dice); PathLive(MatrixAfter(m, e), th', gone)
  {
    var (th', e) := Work(th, cells, dice);
    SeekNext(th, cells, dice);
    if OnPath(th') {
      SameLive(m, th, th', gone);
    } else {
      OffPathLive(MatrixAfter(m, e), th', gone);
    }
  }

  lemma SwingLive(cells: Matrix, m: Matrix, th: Thread, dice: Dice, gone: iset<Key>)
    requires |cells| >= 2 && |m| == |cells| && PathLive(m, th, gone)
    requires th.pc.CheckSwing? || th.pc.ClearOld? || th.pc.FillNew?
    requires th.pc.CheckSwing? ==>
               Peek(cells, th.cur.place) == Peek(m, th.cur.place) && Peek(cells, th.free) == Peek(m, th.free)
    ensures var (th', e) := Work(th, cells, dice); PathLive(MatrixAfter(m, e), th', gone)
  {
    var th' := Work(th, cells, dice).0;
    if th'.pc.Unlock? {
      CheckFailedLive(cells, m, th, gone);
    } else {
      SameLive(m, th, th', gone);
    }
  }

  /** Choosing the next victim under a lock on its row. */
  lemma ChooseLive(s: State, t: nat, dice: Dice)
    requires Inv(s) && Enabled(s, t, dice)
    requires s.threads[t].pc.Probe? || s.threads[t].pc.Evict?
    ensures var (th', e) := Work(s.threads[t], s.cells, dice); e.Quiet? && PathLive(s.matrix, th', GoneKeys(s, t))
  {
    var th := s.threads[t];
    assert Local(s, t);
    if th.pc.Probe? {
      ProbeRowClean(s, t);
      ProbeLive(s.cells, s.matrix, th, dice, GoneKeys(s, t));
    } else {
      HomeRowsClean(s, t);
      StartLive(s.cells, s.matrix, th, dice, GoneKeys(s, t));
    }
  }

  lemma QuietRelease(th: Thread, h: nat)
    requires h >= 2 && th.pc.Unlock?
    ensures var e := Released(th, h, th.pc.then_).1; !e.Change? && !e.Move?
  {
  }

  lemma UnlockLive(m: Matrix, cells: Matrix, th: Thread, dice: Dice, gone: iset<Key>)
    requires Shaped(m) && |cells| == |m| && PathLive(m, th, gone) && OwnOk(th, |m|)
    requires th.pc.Unlock? && th.pc.todo == []
    ensures var (th', e) := Work(th, cells, dice); PathLive(MatrixAfter(m, e), th', gone)
  {
    QuietRelease(th, |m|);
    ReleasedLive(m, th, gone);
  }

  lemma MovePathLive(m: Matrix, cells: Matrix, th: Thread, dice: Dice, gone: iset<Key>)
    requires Shaped(m) && |cells| == |m| && PathLive(m, th, gone) && OwnOk(th, |m|)
    requires th.pc.PopPath? || (th.pc.Settle? && SwingGuard(m, th))
    ensures var (th', e) := Work(th, cells, dice); PathLive(MatrixAfter(m, e), th', gone)
  {
    if th.pc.PopPath? {
      PopLive(m, th, gone);
    } else {
      assert Work(th, cells, dice) == (th.(pc := Unlock(SwingLocks(th), Swung)), Move(th.cur.place, th.free));
      SettleLive(m, th, gone);
    }
  }

  lemma WorkLive(s: State, t: nat, dice: Dice)
    requires Inv(s) && Enabled(s, t, dice)
    requires Target(s.threads[t], |s.cells|).None? && !(s.threads[t].pc.Unlock? && s.threads[t].pc.todo != [])
    ensures var (th', e) := Work(s.threads[t], s.cells, dice); PathLive(MatrixAfter(s.matrix, e), th', GoneKeys(s, t))
  {
    var th := s.threads[t];
    assert Local(s, t);
    if th.pc.Unlock? {
      UnlockLive(s.matrix, s.cells, th, dice, GoneKeys(s, t));
    } else if th.pc.PopPath? || th.pc.Settle? {
      MovePathLive(s.matrix, s.cells, th, dice, GoneKeys(s, t));
    } else if th.pc.Probe? || th.pc.Evict? {
      ChooseLive(s, t, dice);
    } else if th.pc.CheckSwing? || th.pc.ClearOld? || th.pc.FillNew? {
      if th.pc.CheckSwing? {
        SwingRowsClean(s, t);
      }
      SwingLive(s.cells, s.matrix, th, dice, GoneKeys(s, t));
    } else {
      SeekLive(s.cells, s.matrix, th, dice, GoneKeys(s, t));
    }
  }

  lemma OwnLive(s: State, t: nat, dice: Dice)
    requires Inv(s) && Enabled(s, t, dice)
    ensures var (th', e) := Plan(s, t, dice); PathLive(MatrixAfter(s.matrix, e), th', GoneKeys(s, t))
  {
    var th := s.threads[t];
    assert Local(s, t);
    if Target(th, |s.cells|).Some? || (th.pc.Unlock? && th.pc.todo != []) {
      LockStepLive(s.matrix, th, GoneKeys(s, t));
    } else {
      WorkLive(s, t, dice);
    }
  }

  lemma ChangeEndsPath(s: State, t: nat, dice: Dice)
    requires Enabled(s, t, dice) && Plan(s, t, dice).1.Change?
    ensures !OnPath(Plan(s, t, dice).0)
  {
  }

  lemma OwnLiveNext(s: State, t: nat, dice: Dice)
    requires Inv(s) && Enabled(s, t, dice)
    ensures var s' := Next(s, t, dice); PathLive(s'.matrix, Plan(s, t, dice).0, GoneKeys(s', t))
  {
    var s' := Next(s, t, dice);
    var (th', e) := Plan(s, t, dice);
    if e.Change? {
      ChangeEndsPath(s, t, dice);
      OffPathLive(s'.matrix, th', GoneKeys(s', t));
    } else {
      OwnLive(s, t, dice);
      GoneGrows(s, s', t);
      LiveFrame(s'.matrix, s'.matrix, th', GoneKeys(s, t), GoneKeys(s', t));
    }
  }

  // ----- the operation's own variables

  /** A retry finds no room only if the path went through some cell twice. */
  lemma RetryFailsOnlyOnRepeat(s: State, t: nat)
    requires Inv(s) && t < |s.threads|
    requires var th := s.threads[t]; th.pc.RoomHigh? && th.pc.i >= WIDTH && th.second
    ensures !NoRepeat(s.threads[t].trail)
  {
    var th, h := s.threads[t], |s.cells|;
    assert Local(s, t);
    HomeRowsClean(s, t);
    var p := th.trail[0];
    assert p.row == Low(th.op.key, h) || p.row == High(th.op.key, h);
    assert s.cells[p.row][p.col].Full?;
  }

  lemma SeekVariables(s: State, t: nat, dice: Dice)
    requires Inv(s) && Enabled(s, t, dice)
    requires var pc := s.threads[t].pc; pc.SeekLow? || pc.SeekHigh? || pc.RoomLow? || pc.RoomHigh?
    ensures OwnOk(Work(s.threads[t], s.cells, dice).0, |s.cells|)
  {
    var th := s.threads[t];
    assert Local(s, t);
    match th.pc
    case SeekLow(_) => SeekLowOwn(th, s.cells, dice);
    case SeekHigh(_) => SeekHighOwn(th, s.cells, dice);
    case RoomLow(_) => RoomLowOwn(th, s.cells, dice);
    case RoomHigh(i) =>
      if i >= WIDTH && th.second {
        RetryFailsOnlyOnRepeat(s, t);
      }
      RoomHighOwn(th, s.cells, dice);
  }

  lemma PathVariables(s: State, t: nat, dice: Dice)
    requires Inv(s) && Enabled(s, t, dice)
    requires var pc := s.threads[t].pc; (pc.Unlock? && pc.todo == []) || pc.Evict? || pc.Probe? || pc.PopPath?
    ensures OwnOk(Work(s.threads[t], s.cells, dice).0, |s.cells|)
  {
    var th := s.threads[t];
    assert Local(s, t);
    match th.pc
    case Unlock(_, _) => ReleasedOwn(th, |s.cells|);
    case Evict => EvictOwn(s, t, dice);
    case Probe(_) => ProbeOwnIn(s, t, dice);
    case PopPath => PopOwn(th, s.cells, dice);
  }

  lemma OwnVariables(s: State, t: nat, dice: Dice)
    requires Inv(s) && Enabled(s, t, dice)
    ensures OwnOk(Plan(s, t, dice).0, |s.cells|)
  {
    var th, h := s.threads[t], |s.cells|;
    assert Local(s, t);
    if Target(th, h).Some? {
      TakeOwn(th, h);
    } else if th.pc.Unlock? && th.pc.todo != [] {
      ReleaseOwn(th, h);
    } else if th.pc.SeekLow? || th.pc.SeekHigh? || th.pc.RoomLow? || th.pc.RoomHigh? {
      SeekVariables(s, t, dice);
    } else if th.pc.Unlock? || th.pc.Evict? || th.pc.Probe? || th.pc.PopPath? {
      PathVariables(s, t, dice);
    } else if th.pc.Ready? || th.pc.Store? {
      EdgeOwn(th, s.cells, dice);
    } else {
      SwingOwn(th, s.cells, dice);
    }
  }

  lemma ReleasedOwn(th: Thread, h: nat)
    requires h >= 2 && OwnOk(th, h) && th.pc.Unlock? && th.pc.todo == []
    ensures OwnOk(Released(th, h, th.pc.then_).0, h)
  {
    match th.pc.then_
    case Extend(_, _) => ExtendOwn(th, h);
    case Exploit(_) => ExploitOwn(th, h);
    case Swung => SwungOwn(th, h);
    case _ => OtherReleasedOwn(th, h);
  }

  lemma EvictOwn(s: State, t: nat, dice: Dice)
    requires Inv(s) && Enabled(s, t, dice) && s.threads[t].pc.Evict?
    ensures OwnOk(StartPath(s.threads[t], s.cells, dice).0, |s.cells|)
  {
    assert Local(s, t);
    HomeRowsClean(s, t);
    forall r: nat, c: nat, k: Key | Holds(s.cells, r, c, k) && Home(s.threads[t].op.key, |s.cells|, r)
      ensures Home(k, |s.cells|, r)
    {
      assert Holds(s.matrix, r, c, k);
    }
    StartPathOwn(s.threads[t], s.cells, dice);
  }

  lemma ProbeOwnIn(s: State, t: nat, dice: Dice)
    requires Inv(s) && Enabled(s, t, dice) && s.threads[t].pc.Probe?
    ensures OwnOk(ProbeStep(s.threads[t], s.cells, s.threads[t].pc.i, dice).0, |s.cells|)
  {
    var th := s.threads[t];
    assert Local(s, t);
    ProbeRowClean(s, t);
    var row := ProbeRow(th, |s.cells|);
    forall c: nat, k: Key | Holds(s.cells, row, c, k) ensures Home(k, |s.cells|, row) {
      assert Holds(s.matrix, row, c, k);
    }
    ProbeOwn(th, s.cells, dice);
  }

  // ----- the invariant

  lemma StepInv(s: State, t: nat, dice: Dice)
    requires Inv(s) && Enabled(s, t, dice)
    ensures Inv(Next(s, t, dice))
  {
    var s' := Next(s, t, dice);
    var (th, e) := Plan(s, t, dice);
    assert Local(s, t);
    HeldStep(s, t, dice);
    PlanJustified(s, t, dice);
    TablesStep(s, t, th, e);
    ExclusionStep(s, t, dice);
    CleanStep(s, t, dice);
    HistoryStep(s, t, dice);
    OwnVariables(s, t, dice);
    OwnRows(s, t, dice);
    OwnLiveNext(s, t, dice);
    forall u | 0 <= u < |s'.threads| ensures Local(s', u) {
      if u != t {
        OthersStep(s, t, dice, u);
      }
    }
  }
}
