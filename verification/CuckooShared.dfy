/** What a step does to the shared table: it writes only rows it holds exclusively, and it
    changes the map only as the committed operation should. */
module CuckooShared {
  import opened Linearizability
  import opened CuckooMatrix
  import opened CuckooThreads
  import opened CuckooInvariant
  import opened CuckooOwn

  ghost predicate Owns(th: Thread, row: nat) {
    RowLock(row) in th.held && th.held[RowLock(row)] == Exclusive
  }

  lemma DirtyOwned(th: Thread, h: nat, r: nat)
    requires h >= 2 && HeldOk(th, h) && r in Dirty(th)
    ensures Owns(th, r)
  {
  }

  /** A row locked by an operation, in either mode, is the same in memory and in the tokens
      unless that operation itself is writing it. */
  lemma LockedRowClean(s: State, t: nat, r: nat)
    requires Inv(s) && t < |s.threads| && r < |s.cells|
    requires RowLock(r) in s.threads[t].held && r !in Dirty(s.threads[t])
    ensures s.cells[r] == s.matrix[r]
  {
    assert Local(s, t);
    forall u | 0 <= u < |s.threads| ensures r !in Dirty(s.threads[u]) {
      if u != t && r in Dirty(s.threads[u]) {
        assert Local(s, u);
        DirtyOwned(s.threads[u], |s.cells|, r);
      }
    }
  }

  /** The two home rows of an operation that has locked them both. */
  lemma HomeRowsClean(s: State, t: nat)
    requires Inv(s) && t < |s.threads|
    requires var pc := s.threads[t].pc; pc.SeekHigh? || pc.RoomLow? || pc.RoomHigh? || pc.Evict?
    ensures var k, h := s.threads[t].op.key, |s.cells|;
            s.cells[Low(k, h)] == s.matrix[Low(k, h)] && s.cells[High(k, h)] == s.matrix[High(k, h)]
  {
    assert Local(s, t);
    var k, h := s.threads[t].op.key, |s.cells|;
    LockedRowClean(s, t, Low(k, h));
    LockedRowClean(s, t, High(k, h));
  }

  lemma LowRowClean(s: State, t: nat)
    requires Inv(s) && t < |s.threads| && s.threads[t].pc.SeekLow?
    ensures var k, h := s.threads[t].op.key, |s.cells|; s.cells[Low(k, h)] == s.matrix[Low(k, h)]
  {
    assert Local(s, t);
    LockedRowClean(s, t, Low(s.threads[t].op.key, |s.cells|));
  }

  lemma ProbeRowClean(s: State, t: nat)
    requires Inv(s) && t < |s.threads| && s.threads[t].pc.Probe?
    ensures var r := ProbeRow(s.threads[t], |s.cells|); s.cells[r] == s.matrix[r]
  {
    assert Local(s, t);
    LockedRowClean(s, t, ProbeRow(s.threads[t], |s.cells|));
  }

  lemma SwingRowsClean(s: State, t: nat)
    requires Inv(s) && t < |s.threads| && (s.threads[t].pc.CheckSwing? || s.threads[t].pc.ClearOld?)
    ensures var th := s.threads[t];
            && InTable(th.cur.place, |s.cells|) && InTable(th.free, |s.cells|)
            && s.cells[th.cur.place.row] == s.matrix[th.cur.place.row]
            && s.cells[th.free.row] == s.matrix[th.free.row]
  {
    assert Local(s, t);
    var th := s.threads[t];
    SwingRows(th, |s.cells|);
    LockedRowClean(s, t, th.cur.place.row);
    LockedRowClean(s, t, th.free.row);
  }

  // ----- every effect is justified

  /** What an effect needs in order to be correct. */
  ghost predicate Justified(s: State, t: nat, e: Effect)
    requires TablesOk(s) && t < |s.threads|
  {
    var th := s.threads[t];
    match e
    case Decide(res) => Sequential(s.abs, th.op, res) == Some(s.abs)
    case Change(p, x, res) =>
      && InTable(p, |s.matrix|) && Owns(th, p.row) && (if x.Full? then HoldsMain(th) else th.op.Delete?)
      && Represents(Poke(s.matrix, p, x), MapAfter(th.op, s.abs))
      && Sequential(s.abs, th.op, res) == Some(MapAfter(th.op, s.abs))
    case Write(p, x) => Owns(th, p.row)
    case Move(p, q) =>
      && Owns(th, p.row) && Owns(th, q.row) && HoldsMain(th)
      && Represents(Poke(Poke(s.matrix, p, Empty), q, Peek(s.matrix, p)), s.abs)
    case _ => true
  }

  lemma AtKeyJustified(s: State, t: nat, p: Place, both: bool)
    requires Inv(s) && t < |s.threads| && InTable(p, |s.cells|)
    requires KeyAt(s.matrix, p, s.threads[t].op.key)
    requires !s.threads[t].op.Read? ==> Owns(s.threads[t], p.row)
    requires s.threads[t].op.Insert? ==> HoldsMain(s.threads[t])
    ensures Justified(s, t, AtKey(s.threads[t], |s.cells|, p, Peek(s.matrix, p), both).1)
  {
    var th := s.threads[t];
    assert Holds(s.matrix, p.row, p.col, th.op.key);
    match th.op
    case Read(k) =>
    case Delete(k) => DeleteKey(s.matrix, s.abs, k, p.row, p.col);
    case Insert(k, v) => UpdateKey(s.matrix, s.abs, k, v, p.row, p.col);
  }

  lemma AtRoomJustified(s: State, t: nat, p: Place)
    requires Inv(s) && t < |s.threads| && HoldsMain(s.threads[t]) && Owns(s.threads[t], p.row)
    requires InTable(p, |s.cells|) && Home(s.threads[t].op.key, |s.cells|, p.row) && Peek(s.matrix, p).Empty?
    requires var k, h := s.threads[t].op.key, |s.cells|;
             NotInRow(s.matrix[Low(k, h)], k) && NotInRow(s.matrix[High(k, h)], k)
    ensures Justified(s, t, AtRoom(s.threads[t], |s.cells|, p).1)
  {
    var th := s.threads[t];
    InsertKey(s.matrix, s.abs, th.op.key, th.op.value, p.row, p.col);
  }

  lemma NotFoundJustified(s: State, t: nat)
    requires Inv(s) && t < |s.threads| && s.threads[t].pc.SeekHigh? && s.threads[t].pc.i >= WIDTH
    ensures Justified(s, t, NotFound(s.threads[t], |s.cells|).1)
  {
    assert Local(s, t);
    HomeRowsClean(s, t);
    QueryNone(s.matrix, s.abs, s.threads[t].op.key);
    assert s.abs - {s.threads[t].op.key} == s.abs;
  }

  lemma SeekJustified(s: State, t: nat, dice: Dice)
    requires Inv(s) && Enabled(s, t, dice) && (s.threads[t].pc.SeekLow? || s.threads[t].pc.SeekHigh?)
    ensures Justified(s, t, Work(s.threads[t], s.cells, dice).1)
  {
    var th, h := s.threads[t], |s.cells|;
    assert Local(s, t);
    if th.pc.i < WIDTH {
      var low := th.pc.SeekLow?;
      var p := Place(if low then Low(th.op.key, h) else High(th.op.key, h), th.pc.i);
      if low {
        LowRowClean(s, t);
      } else {
        HomeRowsClean(s, t);
      }
      if KeyAt(s.cells, p, th.op.key) {
        AtKeyJustified(s, t, p, !low);
      }
    } else if th.pc.SeekHigh? {
      NotFoundJustified(s, t);
    }
  }

  lemma RoomJustified(s: State, t: nat, dice: Dice)
    requires Inv(s) && Enabled(s, t, dice) && (s.threads[t].pc.RoomLow? || s.threads[t].pc.RoomHigh?)
    ensures Justified(s, t, Work(s.threads[t], s.cells, dice).1)
  {
    var th, h := s.threads[t], |s.cells|;
    assert Local(s, t);
    HomeRowsClean(s, t);
    if th.pc.i < WIDTH {
      var p := Place(if th.pc.RoomLow? then Low(th.op.key, h) else High(th.op.key, h), th.pc.i);
      if Peek(s.cells, p).Empty? {
        AtRoomJustified(s, t, p);
      }
    }
  }

  lemma PokesAreMoved(m: Matrix, p: Place, q: Place)
    requires Shaped(m) && InTable(p, |m|) && InTable(q, |m|)
    ensures Poke(Poke(m, p, Empty), q, Peek(m, p)) == Moved(m, p, q)
  {
  }

  lemma SettleRepresents(m: Matrix, abs: Map, th: Thread)
    requires Represents(m, abs) && SwingGuard(m, th)
    ensures Represents(Poke(Poke(m, th.cur.place, Empty), th.free, Peek(m, th.cur.place)), abs)
  {
    Swing(m, abs, th.cur.key, th.cur.place, th.free);
    PokesAreMoved(m, th.cur.place, th.free);
  }

  lemma SettleJustified(s: State, t: nat, dice: Dice)
    requires Inv(s) && Enabled(s, t, dice) && s.threads[t].pc.Settle?
    ensures Justified(s, t, Move(s.threads[t].cur.place, s.threads[t].free))
  {
    assert Local(s, t);
    SettleRepresents(s.matrix, s.abs, s.threads[t]);
    SwingOwns(s.threads[t], |s.cells|);
  }

  lemma SwingOwns(th: Thread, h: nat)
    requires h >= 2 && HeldOk(th, h) && (th.pc.ClearOld? || th.pc.FillNew? || th.pc.Settle?)
    ensures Owns(th, th.cur.place.row) && Owns(th, th.free.row) && HoldsMain(th)
  {
  }

  lemma WriteJustified(s: State, t: nat, dice: Dice)
    requires Inv(s) && Enabled(s, t, dice)
    requires s.threads[t].pc.Store? || s.threads[t].pc.ClearOld? || s.threads[t].pc.FillNew?
    ensures Justified(s, t, Plan(s, t, dice).1)
  {
    assert Local(s, t);
    if !s.threads[t].pc.Store? {
      SwingOwns(s.threads[t], |s.cells|);
    }
  }

  lemma ReleasedJustified(s: State, t: nat, dice: Dice)
    requires Inv(s) && Enabled(s, t, dice) && s.threads[t].pc.Unlock?
    ensures Justified(s, t, Plan(s, t, dice).1)
  {
    assert Local(s, t);
    assert HeldOk(s.threads[t], |s.cells|);
  }

  lemma QuietJustified(s: State, t: nat, dice: Dice)
    requires Inv(s) && Enabled(s, t, dice)
    requires var pc := s.threads[t].pc;
             || pc.Ready? || pc.Evict? || pc.Probe? || pc.PopPath? || pc.CheckSwing?
             || Target(s.threads[t], |s.cells|).Some?
    ensures Justified(s, t, Plan(s, t, dice).1)
  {
  }

  lemma PlanJustified(s: State, t: nat, dice: Dice)
    requires Inv(s) && Enabled(s, t, dice)
    ensures Justified(s, t, Plan(s, t, dice).1)
  {
    var th := s.threads[t];
    assert Local(s, t);
    match th.pc
    case SeekLow(_) => SeekJustified(s, t, dice);
    case SeekHigh(_) => SeekJustified(s, t, dice);
    case RoomLow(_) => RoomJustified(s, t, dice);
    case RoomHigh(_) => RoomJustified(s, t, dice);
    case Settle => SettleJustified(s, t, dice);
    case Store(_, _, _) => WriteJustified(s, t, dice);
    case ClearOld => WriteJustified(s, t, dice);
    case FillNew(_) => WriteJustified(s, t, dice);
    case Unlock(_, _) => ReleasedJustified(s, t, dice);
    case _ => QuietJustified(s, t, dice);
  }

  // ----- tables, history, exclusion

  lemma TablesStep(s: State, t: nat, th: Thread, e: Effect)
    requires Inv(s) && t < |s.threads| && Justified(s, t, e) && th.op == s.threads[t].op
    ensures TablesOk(Apply(s, t, th, e))
  {
  }

  /** A row the operation does not hold exclusively is left alone. */
  lemma RowFrame(s: State, t: nat, th: Thread, e: Effect, r: nat)
    requires Inv(s) && t < |s.threads| && Justified(s, t, e) && th.op == s.threads[t].op
    requires r < |s.cells| && !Owns(s.threads[t], r)
    ensures var s' := Apply(s, t, th, e);
            && |s'.cells| == |s.cells| && |s'.matrix| == |s.matrix|
            && s'.cells[r] == s.cells[r] && s'.matrix[r] == s.matrix[r]
  {
  }

  /** If emptying a cell takes one key out of the map, it was that key's cell. */
  lemma EmptiedKey(m: Matrix, abs: Map, p: Place, k: Key)
    requires Represents(m, abs) && InTable(p, |m|) && Represents(Poke(m, p, Empty), abs - {k})
    ensures Peek(m, p).Full? ==> Peek(m, p).key == k
  {
    if Peek(m, p).Full? && Peek(m, p).key != k {
      var m', k1 := Poke(m, p, Empty), Peek(m, p).key;
      assert Holds(m, p.row, p.col, k1) && Stored(m', k1);
      var r: nat, c: nat :| Holds(m', r, c, k1);
      assert Holds(m, r, c, k1);
      assert false;
    }
  }

  /** Without the main lock a step changes a cell only by committing the delete of its key. */
  lemma OnlyDeletes(s: State, t: nat, th: Thread, e: Effect, p: Place)
    requires Inv(s) && t < |s.threads| && Justified(s, t, e) && th.op == s.threads[t].op
    requires MAIN !in s.threads[t].held
    ensures var s' := Apply(s, t, th, e);
            || Peek(s'.matrix, p) == Peek(s.matrix, p)
            || (e.Change? && Peek(s'.matrix, p).Empty? && Peek(s.matrix, p).Full?
                && th.op == Delete(Peek(s.matrix, p).key) && Peek(s.matrix, p).key !in s'.abs)
  {
    if e.Change? && e.place == p {
      EmptiedKey(s.matrix, s.abs, p, th.op.key);
    }
  }

  lemma OnlyShrinks(s: State, t: nat, th: Thread, e: Effect)
    requires Inv(s) && t < |s.threads| && Justified(s, t, e) && th.op == s.threads[t].op
    requires MAIN !in s.threads[t].held
    ensures Apply(s, t, th, e).abs.Keys <= s.abs.Keys
  {
  }

  lemma WorkHeld(th: Thread, cells: Matrix, dice: Dice)
    requires |cells| >= 2
    ensures var th' := Work(th, cells, dice).0; th'.op == th.op && th'.held == th.held
  {
    if th.pc.Unlock? {
      ReleasedHeld(th, |cells|, th.pc.then_);
    } else if th.pc.SeekLow? || th.pc.SeekHigh? || th.pc.RoomLow? || th.pc.RoomHigh? {
      SeekHeld(th, cells, dice);
    }
  }

  lemma SeekHeld(th: Thread, cells: Matrix, dice: Dice)
    requires |cells| >= 2 && (th.pc.SeekLow? || th.pc.SeekHigh? || th.pc.RoomLow? || th.pc.RoomHigh?)
    ensures var th' := Work(th, cells, dice).0; th'.op == th.op && th'.held == th.held
  {
  }

  lemma ReleasedHeld(th: Thread, h: nat, then_: After)
    requires h >= 2
    ensures var th' := Released(th, h, then_).0; th'.op == th.op && th'.held == th.held
  {
  }

  lemma HeldStep(s: State, t: nat, dice: Dice)
    requires Enabled(s, t, dice)
    ensures var th, th' := s.threads[t], Plan(s, t, dice).0;
            var want := Target(th, |s.cells|);
            && th'.op == th.op
            && if want.Some? then th'.held == th.held[want.value.0 := want.value.1]
               else forall l | l in th'.held :: l in th.held && th'.held[l] == th.held[l]
  {
    var th := s.threads[t];
    if Target(th, |s.cells|).None? && !(th.pc.Unlock? && th.pc.todo != []) {
      WorkHeld(th, s.cells, dice);
    }
  }

  lemma ExclusionUpdate(s: State, s': State, t: nat)
    requires Exclusion(s) && t < |s.threads| && |s'.threads| == |s.threads|
    requires s'.threads == s.threads[t := s'.threads[t]]
    requires forall u, l | 0 <= u < |s.threads| && u != t && l in s'.threads[t].held ::
               Compatible(s.threads[u].held, l, s'.threads[t].held[l])
    ensures Exclusion(s')
  {
  }

  lemma ExclusionStep(s: State, t: nat, dice: Dice)
    requires Exclusion(s) && Enabled(s, t, dice)
    ensures Exclusion(Next(s, t, dice))
  {
    var s' := Next(s, t, dice);
    HeldStep(s, t, dice);
    assert s'.threads == s.threads[t := Plan(s, t, dice).0];
    forall u, l | 0 <= u < |s.threads| && u != t && l in s'.threads[t].held
      ensures Compatible(s.threads[u].held, l, s'.threads[t].held[l])
    {
    }
    ExclusionUpdate(s, s', t);
  }

  /** An effect is logged exactly when the operation enters, commits or leaves. */
  lemma WorkOutcome(th: Thread, cells: Matrix, dice: Dice)
    requires |cells| >= 2 && OutcomeOk(th) && th.pc != Done
    ensures var (th', e) := Work(th, cells, dice);
            match e
            case Enter => th.pc.Ready? && !th'.pc.Ready? && !th'.pc.Done? && th'.outcome.None?
            case Exit(res) => !th.pc.Ready? && th.outcome == Some(res) && th'.pc.Done?
            case Decide(res) =>
              !th.pc.Ready? && th.outcome.None? && th'.outcome == Some(res) && !th'.pc.Ready? && !th'.pc.Done?
            case Change(_, _, res) =>
              !th.pc.Ready? && th.outcome.None? && th'.outcome == Some(res) && !th'.pc.Ready? && !th'.pc.Done?
            case _ => !th.pc.Ready? && th'.outcome == th.outcome && !th'.pc.Ready? && !th'.pc.Done?
  {
  }

  /** A step logs what its own operation's new variables say. */
  lemma PhaseStepOk(s: State, t: nat, dice: Dice)
    requires Enabled(s, t, dice) && OutcomeOk(s.threads[t])
    ensures var s' := Next(s, t, dice);
            var now, next := ExpectedPhase(s, t), ExpectedPhase(s', t);
            match Plan(s, t, dice).1
            case Enter => now == Out && next == Called(s.threads[t].op)
            case Exit(res) => now == Committed(s.threads[t].op, res) && next == Out
            case Decide(res) => now == Called(s.threads[t].op) && next == Committed(s.threads[t].op, res)
            case Change(_, _, res) => now == Called(s.threads[t].op) && next == Committed(s.threads[t].op, res)
            case _ => now == next
  {
    var th := s.threads[t];
    HeldStep(s, t, dice);
    assert Next(s, t, dice).threads[t] == Plan(s, t, dice).0;
    if Target(th, |s.cells|).None? && !(th.pc.Unlock? && th.pc.todo != []) {
      WorkOutcome(th, s.cells, dice);
    }
  }

  lemma SameLog(s: State, s': State)
    requires HistoryOk(s) && s'.history == s.history && s'.abs == s.abs
    requires forall u: nat :: ExpectedPhase(s', u) == ExpectedPhase(s, u)
    ensures HistoryOk(s')
  {
  }

  lemma LongerLog(s: State, s': State, ev: Event<Op, Outcome>)
    requires HistoryOk(s) && s'.history == s.history + [ev]
    requires forall u: nat | u != ev.thread :: ExpectedPhase(s', u) == ExpectedPhase(s, u)
    requires Advance(ExpectedPhase(s, ev.thread), ev) == ExpectedPhase(s', ev.thread) != Broken
    requires if ev.Commit? then Sequential(s.abs, ev.op, ev.res) == Some(s'.abs) else s'.abs == s.abs
    ensures HistoryOk(s')
  {
    assert PhaseOf(s.history, ev.thread) == ExpectedPhase(s, ev.thread);
    if ev.Commit? {
      ExtendCommit(Sequential, map[], s.history, s.abs, ev, s'.abs);
    } else {
      ExtendQuiet(Sequential, map[], s.history, s.abs, ev);
    }
    forall u: nat ensures PhaseOf(s'.history, u) == ExpectedPhase(s', u) {
      PhaseOfAppend(s.history, ev, u);
      assert PhaseOf(s.history, u) == ExpectedPhase(s, u);
    }
  }

  lemma HistoryStep(s: State, t: nat, dice: Dice)
    requires HistoryOk(s) && TablesOk(s) && Enabled(s, t, dice)
    requires OutcomeOk(s.threads[t]) && Justified(s, t, Plan(s, t, dice).1)
    ensures HistoryOk(Next(s, t, dice))
  {
    var s' := Next(s, t, dice);
    HeldStep(s, t, dice);
    PhaseStepOk(s, t, dice);
    match Plan(s, t, dice).1
    case Enter => LongerLog(s, s', Call(t, s.threads[t].op));
    case Exit(res) => LongerLog(s, s', Return(t, res));
    case Decide(res) => LongerLog(s, s', Commit(t, s.threads[t].op, res));
    case Change(_, _, res) => LongerLog(s, s', Commit(t, s.threads[t].op, res));
    case _ => SameLog(s, s');
  }

  // ----- memory and tokens

  lemma SeekDirty(th: Thread, cells: Matrix, dice: Dice)
    requires |cells| >= 2 && (th.pc.SeekLow? || th.pc.SeekHigh? || th.pc.RoomLow? || th.pc.RoomHigh?)
    ensures var (th', e) := Work(th, cells, dice);
            !e.Write? && !e.Move? && Dirty(th') == if e.Change? then {e.place.row} else {}
  {
  }

  lemma ReleasedClean(th: Thread, h: nat, then_: After)
    requires h >= 2 && th.pc.Unlock?
    ensures var (th', e) := Released(th, h, then_);
            !e.Change? && !e.Write? && !e.Move? && Dirty(th') == {}
  {
  }

  /** Which steps touch the table, and which rows they leave dirty. */
  lemma DirtyStep(s: State, t: nat, dice: Dice)
    requires Enabled(s, t, dice)
    ensures var th := s.threads[t];
            var (th', e) := Plan(s, t, dice);
            match e
            case Change(p, x, _) => Dirty(th) == {} && Dirty(th') == {p.row}
            case Write(p, x) =>
              || (th.pc.Store? && p == th.pc.place && x == th.pc.cell && Dirty(th') == {})
              || (th.pc.ClearOld? && p == th.cur.place && Dirty(th') == {p.row})
              || (th.pc.FillNew? && p == th.free && Dirty(th') == {th.cur.place.row, p.row})
            case Move(p, q) => th.pc.Settle? && p == th.cur.place && q == th.free && Dirty(th') == {}
            case _ => Dirty(th) == {} && Dirty(th') == {}
  {
    var th := s.threads[t];
    if th.pc.SeekLow? || th.pc.SeekHigh? || th.pc.RoomLow? || th.pc.RoomHigh? {
      SeekDirty(th, s.cells, dice);
    } else if th.pc.Unlock? {
      ReleasedClean(th, |s.cells|, th.pc.then_);
    }
  }

  lemma SettleAgrees(s: State, t: nat, r: nat)
    requires Inv(s) && t < |s.threads| && r < |s.cells| && s.threads[t].pc.Settle?
    requires r in Dirty(s.threads[t]) || s.cells[r] == s.matrix[r]
    ensures var th := s.threads[t];
            var m := Poke(Poke(s.matrix, th.cur.place, Empty), th.free, Peek(s.matrix, th.cur.place));
            |m| == |s.matrix| && s.cells[r] == m[r]
  {
    assert Local(s, t);
    assert SwingGuard(s.matrix, s.threads[t]);
  }

  /** A row the operation leaves clean agrees in memory and tokens. */
  lemma RowAgrees(s: State, t: nat, dice: Dice, r: nat)
    requires Inv(s) && Enabled(s, t, dice) && r < |s.cells|
    requires r in Dirty(s.threads[t]) || s.cells[r] == s.matrix[r]
    requires r !in Dirty(Plan(s, t, dice).0)
    ensures |Next(s, t, dice).cells| == |s.cells| == |Next(s, t, dice).matrix|
    ensures Next(s, t, dice).cells[r] == Next(s, t, dice).matrix[r]
  {
    var e := Plan(s, t, dice).1;
    DirtyStep(s, t, dice);
    if e.Move? {
      SettleAgrees(s, t, r);
    } else if e.Write? {
      assert Local(s, t);
    }
  }

  lemma CleanStep(s: State, t: nat, dice: Dice)
    requires Inv(s) && Enabled(s, t, dice)
    ensures var s' := Next(s, t, dice); |s'.cells| == |s'.matrix| && Clean(s')
  {
    var s' := Next(s, t, dice);
    forall r | 0 <= r < |s'.cells| && (forall u | 0 <= u < |s'.threads| :: r !in Dirty(s'.threads[u]))
      ensures s'.cells[r] == s'.matrix[r]
    {
      assert s'.threads[t] == Plan(s, t, dice).0;
      forall u | 0 <= u < |s.threads| && u != t ensures r !in Dirty(s.threads[u]) {
        assert s'.threads[u] == s.threads[u];
      }
      RowAgrees(s, t, dice, r);
    }
  }
}
