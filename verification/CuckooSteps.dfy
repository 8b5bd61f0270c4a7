/** Every step of every operation keeps the invariant, for itself and for all the others. */
module CuckooSteps {
  import opened Linearizability
  import opened CuckooMatrix
  import opened CuckooThreads
  import opened CuckooInvariant
  import opened CuckooOwn
  import opened CuckooShared

  // ----- the other operations

  lemma NotOwned(s: State, t: nat, u: nat, r: nat)
    requires Exclusion(s) && t < |s.threads| && u < |s.threads| && t != u
    requires RowLock(r) in s.threads[u].held
    ensures !Owns(s.threads[t], r)
  {
  }

  lemma RowsFrame(s: State, s': State, th: Thread)
    requires TablesOk(s) && Shaped(s'.cells) && Shaped(s'.matrix) && |s'.cells| == |s'.matrix| == |s.cells|
    requires OwnOk(th, |s.cells|) && RowsOk(s.cells, s.matrix, th)
    requires forall r | 0 <= r < |s.cells| && RowLock(r) in th.held ::
               s'.cells[r] == s.cells[r] && s'.matrix[r] == s.matrix[r]
    ensures RowsOk(s'.cells, s'.matrix, th)
  {
    var h := |s.cells|;
    if th.pc.ClearOld? || th.pc.FillNew? || th.pc.Settle? {
      SwingRows(th, h);
      assert RowLock(th.cur.place.row) in th.held && RowLock(th.free.row) in th.held;
    }
  }

  /** A cell is as it was, or a key that has gone has left it. */
  ghost predicate Emptied(m: Matrix, m': Matrix, p: Place, gone: iset<Key>) {
    || Peek(m', p) == Peek(m, p)
    || (Peek(m', p).Empty? && Peek(m, p).Full? && Peek(m, p).key in gone)
  }

  lemma AliveFrame(m: Matrix, m': Matrix, v: Victim, gone: iset<Key>, gone': iset<Key>)
    requires gone <= gone' && Emptied(m, m', v.place, gone') && Alive(m, v, gone)
    ensures Alive(m', v, gone')
  {
  }

  lemma LiveFrame(m: Matrix, m': Matrix, th: Thread, gone: iset<Key>, gone': iset<Key>)
    requires |m| >= 2 && |m'| == |m| && PathLive(m, th, gone) && gone <= gone'
    requires forall p :: Emptied(m, m', p, gone')
    ensures PathLive(m', th, gone')
  {
    forall v | Alive(m, v, gone) ensures Alive(m', v, gone') {
      AliveFrame(m, m', v, gone, gone');
    }
    forall p | Peek(m, p).Empty? ensures Peek(m', p).Empty? {
      assert Emptied(m, m', p, gone');
    }
  }

  predicate OnPath(th: Thread) {
    Hunting(th.pc) || Swinging(th.pc) || Retrying(th)
  }

  lemma OnPathHoldsMain(th: Thread, h: nat)
    requires h >= 2 && HeldOk(th, h) && OnPath(th) && (Retrying(th) ==> th.op.Insert?)
    ensures HoldsMain(th)
  {
  }

  /** What has gone stays gone while no key is added. */
  lemma GoneGrows(s: State, s': State, u: nat)
    requires s.history <= s'.history && s'.abs.Keys <= s.abs.Keys
    ensures GoneKeys(s, u) <= GoneKeys(s', u)
  {
    forall k | k in GoneKeys(s, u) ensures DeletedDuring(s'.history, u, k) {
      var i: nat, j: nat :| i < j < |s.history| && s.history[i].Call? && s.history[i].thread == u
                            && s.history[j].Commit? && s.history[j].op == Delete(k);
      assert s'.history[i] == s.history[i] && s'.history[j] == s.history[j];
    }
  }

  /** An operation on its path has been called and has not committed. */
  lemma OnPathCalled(s: State, u: nat) returns (i: nat)
    requires Inv(s) && u < |s.threads| && OnPath(s.threads[u])
    ensures i < |s.history| && s.history[i].Call? && s.history[i].thread == u
  {
    assert Local(s, u);
    assert PhaseOf(s.history, u) == ExpectedPhase(s, u);
    assert s.history[..|s.history|] == s.history;
    i := OpenCall(s.history, u, |s.history|);
  }

  /** To an operation on its path, a step without the main lock can only make a key go. */
  lemma OnlyGone(s: State, t: nat, th: Thread, e: Effect, u: nat, p: Place)
    requires Inv(s) && t < |s.threads| && Justified(s, t, e) && th.op == s.threads[t].op
    requires MAIN !in s.threads[t].held && u < |s.threads| && OnPath(s.threads[u])
    ensures var s' := Apply(s, t, th, e); Emptied(s.matrix, s'.matrix, p, GoneKeys(s', u))
  {
    var s' := Apply(s, t, th, e);
    OnlyDeletes(s, t, th, e, p);
    if Peek(s'.matrix, p) != Peek(s.matrix, p) {
      var i := OnPathCalled(s, u);
      var j := |s.history|;
      assert s'.history[i] == s.history[i] && s'.history[j] == Commit(t, th.op, e.result);
      assert DeletedDuring(s'.history, u, th.op.key);
    }
  }

  lemma OthersLive(s: State, t: nat, dice: Dice, u: nat)
    requires Inv(s) && Enabled(s, t, dice) && u < |s.threads| && u != t
    ensures var s' := Next(s, t, dice); PathLive(s'.matrix, s.threads[u], GoneKeys(s', u))
  {
    var s' := Next(s, t, dice);
    var (th, e) := Plan(s, t, dice);
    var other := s.threads[u];
    assert Local(s, u);
    if OnPath(other) {
      HeldStep(s, t, dice);
      PlanJustified(s, t, dice);
      OnPathHoldsMain(other, |s.cells|);
      assert Compatible(s.threads[t].held, MAIN, Exclusive);
      OnlyShrinks(s, t, th, e);
      GoneGrows(s, s', u);
      forall p ensures Emptied(s.matrix, s'.matrix, p, GoneKeys(s', u)) {
        OnlyGone(s, t, th, e, u, p);
      }
      LiveFrame(s.matrix, s'.matrix, other, GoneKeys(s, u), GoneKeys(s', u));
    } else {
      OffPathLive(s'.matrix, other, GoneKeys(s', u));
    }
  }

  lemma OffPathLive(m: Matrix, th: Thread, gone: iset<Key>)
    requires |m| >= 2 && !OnPath(th)
    ensures PathLive(m, th, gone)
  {
  }

  lemma OthersStep(s: State, t: nat, dice: Dice, u: nat)
    requires Inv(s) && Enabled(s, t, dice) && u < |s.threads| && u != t
    requires TablesOk(Next(s, t, dice))
    ensures Local(Next(s, t, dice), u)
  {
    var s' := Next(s, t, dice);
    var (th, e) := Plan(s, t, dice);
    var other := s.threads[u];
    HeldStep(s, t, dice);
    PlanJustified(s, t, dice);
    assert s'.threads[u] == other;
    assert Local(s, u);
    forall r | 0 <= r < |s.cells| && RowLock(r) in other.held
      ensures s'.cells[r] == s.cells[r] && s'.matrix[r] == s.matrix[r]
    {
      NotOwned(s, t, u, r);
      RowFrame(s, t, th, e, r);
    }
    RowsFrame(s, s', other);
    OthersLive(s, t, dice, u);
  }

  // ----- the operation itself: its rows

  /** Right after a commit the row in memory is one cell behind the token. */
  lemma CommitRows(cells: Matrix, matrix: Matrix, th: Thread, p: Place, x: Cell, todo: seq<Lock>)
    requires Shaped(cells) && Shaped(matrix) && |cells| == |matrix|
    requires InTable(p, |cells|) && cells[p.row] == matrix[p.row] && th.pc == Store(p, x, todo)
    ensures RowsOk(cells, Poke(matrix, p, x), th)
  {
  }

  lemma SeekLowRows(cells: Matrix, matrix: Matrix, th: Thread, dice: Dice)
    requires Shaped(cells) && Shaped(matrix) && |cells| == |matrix|
    requires th.pc.SeekLow? && RowsOk(cells, matrix, th) && Work(th, cells, dice).1 == Quiet
    ensures RowsOk(cells, matrix, Work(th, cells, dice).0)
  {
    var i := th.pc.i;
    assert Work(th, cells, dice).0 == th.(pc := if i >= WIDTH then WantHigh else SeekLow(i + 1));
  }

  lemma SeekHighRows(cells: Matrix, matrix: Matrix, th: Thread, dice: Dice)
    requires Shaped(cells) && Shaped(matrix) && |cells| == |matrix|
    requires th.pc.SeekHigh? && RowsOk(cells, matrix, th) && Work(th, cells, dice).1 == Quiet
    ensures RowsOk(cells, matrix, Work(th, cells, dice).0)
  {
    var i := th.pc.i;
    assert Work(th, cells, dice).0 == th.(pc := if i >= WIDTH then RoomLow(0) else SeekHigh(i + 1));
  }

  lemma RoomLowRows(cells: Matrix, matrix: Matrix, th: Thread, dice: Dice)
    requires Shaped(cells) && Shaped(matrix) && |cells| == |matrix| && th.op.Insert?
    requires th.pc.RoomLow? && RowsOk(cells, matrix, th) && Work(th, cells, dice).1 == Quiet
    ensures RowsOk(cells, matrix, Work(th, cells, dice).0)
  {
  }

  lemma RoomHighRows(cells: Matrix, matrix: Matrix, th: Thread, dice: Dice)
    requires Shaped(cells) && Shaped(matrix) && |cells| == |matrix| && th.op.Insert?
    requires th.pc.RoomHigh? && RowsOk(cells, matrix, th) && Work(th, cells, dice).1 == Quiet
    ensures RowsOk(cells, matrix, Work(th, cells, dice).0)
  {
  }

  /** Program counters that promise nothing about any row. */
  predicate Rowless(pc: Pc) {
    && !pc.SeekLow? && !pc.SeekHigh? && !pc.WantHigh? && !pc.RoomLow? && !pc.RoomHigh? && !pc.Evict?
    && !pc.Store? && !pc.Probe? && !pc.ClearOld? && !pc.FillNew? && !pc.Settle?
  }

  lemma RowlessRows(cells: Matrix, matrix: Matrix, th: Thread)
    requires Shaped(cells) && Shaped(matrix) && |cells| == |matrix| && Rowless(th.pc)
    ensures RowsOk(cells, matrix, th)
  {
  }

  lemma ProbeRows(cells: Matrix, matrix: Matrix, th: Thread, dice: Dice)
    requires Shaped(cells) && Shaped(matrix) && |cells| == |matrix|
    requires th.pc.Probe? && RowsOk(cells, matrix, th)
    ensures RowsOk(cells, matrix, ProbeStep(th, cells, th.pc.i, dice).0)
  {
    var th' := ProbeStep(th, cells, th.pc.i, dice).0;
    assert ProbeRow(th', |cells|) == ProbeRow(th, |cells|);
    if th'.pc.Probe? {
      assert cells[ProbeRow(th, |cells|)][th.pc.i].Full?;
    } else {
      RowlessRows(cells, matrix, th');
    }
  }

  /** What a commit found in a home row stores. */
  lemma SeekCommit(th: Thread, cells: Matrix, dice: Dice)
    requires |cells| >= 2 && (th.pc.SeekLow? || th.pc.SeekHigh? || th.pc.RoomLow? || th.pc.RoomHigh?)
    ensures var (th', e) := Work(th, cells, dice);
            && !e.Write? && !e.Move? && !e.Enter? && !e.Exit?
            && (e.Change? ==> th'.pc.Store? && th'.pc.place == e.place && th'.pc.cell == e.cell
                              && (e.place.row == Low(th.op.key, |cells|)
                                  || (!th.pc.SeekLow? && e.place.row == High(th.op.key, |cells|))))
            && (e.Decide? ==> th'.pc.Unlock?)
  {
  }

  lemma SeekingRows(s: State, t: nat, dice: Dice)
    requires Inv(s) && Enabled(s, t, dice) && TablesOk(Next(s, t, dice))
    requires var pc := s.threads[t].pc; pc.SeekLow? || pc.SeekHigh? || pc.RoomLow? || pc.RoomHigh?
    ensures var s' := Next(s, t, dice);
            RowsOk(s'.cells, s'.matrix, Work(s.threads[t], s.cells, dice).0)
  {
    var th := s.threads[t];
    assert Local(s, t);
    var (th', e) := Work(th, s.cells, dice);
    assert Plan(s, t, dice) == (th', e);
    SeekCommit(th, s.cells, dice);
    PlanJustified(s, t, dice);
    if e.Change? {
      if th.pc.SeekLow? { LowRowClean(s, t); } else { HomeRowsClean(s, t); }
      CommitRows(s.cells, s.matrix, th', e.place, e.cell, th'.pc.todo);
    } else if e.Quiet? {
      match th.pc
      case SeekLow(_) => SeekLowRows(s.cells, s.matrix, th, dice);
      case SeekHigh(_) => SeekHighRows(s.cells, s.matrix, th, dice);
      case RoomLow(_) => RoomLowRows(s.cells, s.matrix, th, dice);
      case RoomHigh(_) => RoomHighRows(s.cells, s.matrix, th, dice);
    }
  }

  lemma CheckSwingRows(cells: Matrix, matrix: Matrix, th: Thread)
    requires Shaped(cells) && Shaped(matrix) && |cells| == |matrix|
    requires th.pc.CheckSwing? && OwnOk(th, |cells|)
    requires cells[th.cur.place.row] == matrix[th.cur.place.row] && cells[th.free.row] == matrix[th.free.row]
    requires KeyAt(cells, th.cur.place, th.cur.key) && Peek(cells, th.free).Empty?
    ensures RowsOk(cells, matrix, th.(pc := ClearOld))
  {
    SwingRows(th, |cells|);
  }

  lemma ClearOldRows(cells: Matrix, matrix: Matrix, th: Thread)
    requires Shaped(cells) && Shaped(matrix) && |cells| == |matrix|
    requires th.pc.ClearOld? && RowsOk(cells, matrix, th)
    requires cells[th.cur.place.row] == matrix[th.cur.place.row]
    ensures RowsOk(Poke(cells, th.cur.place, Empty), matrix, th.(pc := FillNew(Peek(cells, th.cur.place))))
  {
  }

  lemma FillNewRows(cells: Matrix, matrix: Matrix, th: Thread)
    requires Shaped(cells) && Shaped(matrix) && |cells| == |matrix|
    requires th.pc.FillNew? && RowsOk(cells, matrix, th)
    requires cells[th.free.row] == matrix[th.free.row]
    ensures RowsOk(Poke(cells, th.free, th.pc.moved), matrix, th.(pc := Settle))
  {
  }

  lemma FillStepRows(s: State, t: nat)
    requires Inv(s) && t < |s.threads| && s.threads[t].pc.FillNew?
    ensures var th := s.threads[t];
            && Shaped(Poke(s.cells, th.free, th.pc.moved))
            && RowsOk(Poke(s.cells, th.free, th.pc.moved), s.matrix, th.(pc := Settle))
  {
    var th := s.threads[t];
    assert Local(s, t);
    SwingRows(th, |s.cells|);
    LockedRowClean(s, t, th.free.row);
    FillNewRows(s.cells, s.matrix, th);
  }

  lemma CheckStepRows(s: State, t: nat, dice: Dice)
    requires Inv(s) && t < |s.threads| && s.threads[t].pc.CheckSwing?
    ensures RowsOk(s.cells, s.matrix, Work(s.threads[t], s.cells, dice).0)
  {
    var th := s.threads[t];
    assert Local(s, t);
    SwingRowsClean(s, t);
    if KeyAt(s.cells, th.cur.place, th.cur.key) && Peek(s.cells, th.free).Empty? {
      CheckSwingRows(s.cells, s.matrix, th);
    } else {
      RowlessRows(s.cells, s.matrix, th.(pc := Unlock(SwingLocks(th), Swung)));
    }
  }

  lemma SwingStepRows(s: State, t: nat, dice: Dice)
    requires Inv(s) && Enabled(s, t, dice) && TablesOk(Next(s, t, dice))
    requires s.threads[t].pc.CheckSwing? || s.threads[t].pc.ClearOld? || s.threads[t].pc.FillNew?
    ensures var s' := Next(s, t, dice);
            RowsOk(s'.cells, s'.matrix, Work(s.threads[t], s.cells, dice).0)
  {
    var th := s.threads[t];
    match th.pc
    case FillNew(_) => FillStepRows(s, t);
    case CheckSwing => CheckStepRows(s, t, dice);
    case ClearOld =>
      assert Local(s, t);
      SwingRowsClean(s, t);
      ClearOldRows(s.cells, s.matrix, th);
  }

  lemma TakeRows(cells: Matrix, matrix: Matrix, th: Thread)
    requires Shaped(cells) && Shaped(matrix) && |cells| == |matrix|
    requires RowsOk(cells, matrix, th) && Target(th, |cells|).Some?
    ensures RowsOk(cells, matrix, Taken(th, |cells|))
  {
  }

  lemma ReleasedIsRowless(th: Thread, h: nat, then_: After)
    requires h >= 2 && Rowless(th.pc)
    ensures Rowless(Released(th, h, then_).0.pc)
  {
  }

  /** The steps that neither take a lock nor look at a row end where no row matters. */
  lemma PlainIsRowless(s: State, t: nat, dice: Dice)
    requires Enabled(s, t, dice) && Target(s.threads[t], |s.cells|).None?
    requires var pc := s.threads[t].pc;
             pc.Ready? || pc.Store? || pc.Unlock? || pc.Evict? || pc.PopPath? || pc.Settle?
    ensures Rowless(Plan(s, t, dice).0.pc)
  {
    if s.threads[t].pc.Unlock? {
      ReleasedIsRowless(s.threads[t], |s.cells|, s.threads[t].pc.then_);
    }
  }

  lemma OwnRows(s: State, t: nat, dice: Dice)
    requires Inv(s) && Enabled(s, t, dice) && TablesOk(Next(s, t, dice))
    ensures RowsOk(Next(s, t, dice).cells, Next(s, t, dice).matrix, Plan(s, t, dice).0)
  {
    assert Local(s, t);
    var pc := s.threads[t].pc;
    if pc.SeekLow? || pc.SeekHigh? || pc.RoomLow? || pc.RoomHigh? {
      SeekingRows(s, t, dice);
    } else if pc.CheckSwing? || pc.ClearOld? || pc.FillNew? {
      SwingStepRows(s, t, dice);
    } else if pc.Probe? {
      assert Plan(s, t, dice) == ProbeStep(s.threads[t], s.cells, pc.i, dice);
      ProbeRows(s.cells, s.matrix, s.threads[t], dice);
    } else {
      var th' := Plan(s, t, dice).0;
      if Target(s.threads[t], |s.cells|).Some? {
        TakeRows(s.cells, s.matrix, s.threads[t]);
      } else {
        PlainIsRowless(s, t, dice);
        RowlessRows(Next(s, t, dice).cells, Next(s, t, dice).matrix, th');
      }
    }
  }
}
