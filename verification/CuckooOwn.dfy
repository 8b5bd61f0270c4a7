/** What a step does to the variables of the operation that takes it. */
module CuckooOwn {
  import opened CuckooMatrix
  import opened CuckooThreads
  import opened CuckooInvariant

  lemma CoversTail(held: map<Lock, Mode>, todo: seq<Lock>, spare: set<Lock>)
    requires Covers(held, todo, spare) && todo != []
    ensures Covers(held - {todo[0]}, todo[1..], spare)
  {
  }

  function Taken(th: Thread, h: nat): Thread
    requires h >= 2 && Target(th, h).Some?
  {
    th.(pc := Granted(th.pc), held := th.held[Target(th, h).value.0 := Target(th, h).value.1])
  }

  lemma TakeHeld(th: Thread, h: nat)
    requires h >= 2 && HeldOk(th, h) && Target(th, h).Some?
    ensures HeldOk(Taken(th, h), h)
  {
  }

  /** The path is not affected by a step that leaves its variables and its stage alone. */
  lemma SamePath(th: Thread, th': Thread, h: nat)
    requires h >= 2 && PathOk(th, h)
    requires th' == th.(pc := th'.pc, held := th'.held, outcome := th'.outcome)
    requires Hunting(th'.pc) ==> Hunting(th.pc)
    requires Swinging(th'.pc) ==> Swinging(th.pc) && (th.pc.PopPath? <==> th'.pc.PopPath?)
    requires Retrying(th') ==> Retrying(th)
    requires th'.pc.Unlock? && (th'.pc.then_.Extend? || th'.pc.then_.Exploit?) ==>
               th.pc.Unlock? && th.pc.then_ == th'.pc.then_
    ensures PathOk(th', h)
  {
    assert Swinging(th'.pc) ==> Pending(th') == Pending(th);
    assert ProbeRow(th', h) == ProbeRow(th, h);
  }

  lemma TakeOwn(th: Thread, h: nat)
    requires h >= 2 && OwnOk(th, h) && Target(th, h).Some?
    ensures OwnOk(Taken(th, h), h)
  {
    TakeHeld(th, h);
    SamePath(th, Taken(th, h), h);
  }

  lemma ReleaseOwn(th: Thread, h: nat)
    requires h >= 2 && OwnOk(th, h) && th.pc.Unlock? && th.pc.todo != []
    ensures OwnOk(th.(pc := Unlock(th.pc.todo[1..], th.pc.then_), held := th.held - {th.pc.todo[0]}), h)
  {
    var th' := th.(pc := Unlock(th.pc.todo[1..], th.pc.then_), held := th.held - {th.pc.todo[0]});
    var spare := if th.pc.then_.Leave? || th.pc.then_.Fail? then {} else {MAIN};
    CoversTail(th.held, th.pc.todo, spare);
    SamePath(th, th', h);
  }

  lemma TodoCovers(th: Thread, h: nat, both: bool)
    requires h >= 2
    requires if both then th.held == Base(th.op)[LowLock(th, h) := SeekMode(th.op)][HighLock(th, h) := SeekMode(th.op)]
             else th.held == Base(th.op)[LowLock(th, h) := SeekMode(th.op)]
    ensures Covers(th.held, Todo(th, h, both), {})
  {
  }

  /** Program counters to which the path does not matter. */
  predicate Pathless(th: Thread) {
    !Hunting(th.pc) && !Swinging(th.pc) && !Retrying(th)
  }

  lemma AtKeyOwn(th: Thread, h: nat, p: Place, x: Cell, both: bool)
    requires h >= 2 && x.Full? && Covers(th.held, Todo(th, h, both), {})
    requires !th.op.Read? ==> RowLock(p.row) in th.held && th.held[RowLock(p.row)] == Exclusive
    ensures OwnOk(AtKey(th, h, p, x, both).0, h)
  {
    assert Pathless(AtKey(th, h, p, x, both).0);
  }

  lemma NotFoundOwn(th: Thread, h: nat)
    requires h >= 2 && OwnOk(th, h) && th.pc.SeekHigh?
    ensures OwnOk(NotFound(th, h).0, h)
  {
    TodoCovers(th, h, true);
    SamePath(th, NotFound(th, h).0, h);
  }

  lemma AtRoomOwn(th: Thread, h: nat, p: Place)
    requires h >= 2 && th.op.Insert? && Covers(th.held, Todo(th, h, true), {})
    requires RowLock(p.row) in th.held && th.held[RowLock(p.row)] == Exclusive
    ensures OwnOk(AtRoom(th, h, p).0, h)
  {
  }

  /** With no room left a second time, the operation leaves with its locks held. */
  lemma NoRoomOwn(th: Thread, h: nat)
    requires h >= 2 && OwnOk(th, h) && th.pc.RoomHigh? && (th.second ==> !NoRepeat(th.trail))
    ensures OwnOk(NoRoom(th).0, h)
  {
    assert Pathless(NoRoom(th).0);
  }

  lemma SeekLowOwn(th: Thread, cells: Matrix, dice: Dice)
    requires Shaped(cells) && OwnOk(th, |cells|) && th.pc.SeekLow?
    ensures OwnOk(Work(th, cells, dice).0, |cells|)
  {
    var i, h := th.pc.i, |cells|;
    var p := Place(Low(th.op.key, h), i);
    if i < WIDTH && KeyAt(cells, p, th.op.key) {
      TodoCovers(th, h, false);
      AtKeyOwn(th, h, p, Peek(cells, p), false);
    } else {
      SamePath(th, Work(th, cells, dice).0, h);
    }
  }

  lemma SeekHighOwn(th: Thread, cells: Matrix, dice: Dice)
    requires Shaped(cells) && OwnOk(th, |cells|) && th.pc.SeekHigh?
    ensures OwnOk(Work(th, cells, dice).0, |cells|)
  {
    var i, h := th.pc.i, |cells|;
    var p := Place(High(th.op.key, h), i);
    if i >= WIDTH {
      NotFoundOwn(th, h);
    } else if KeyAt(cells, p, th.op.key) {
      TodoCovers(th, h, true);
      AtKeyOwn(th, h, p, Peek(cells, p), true);
    } else {
      SamePath(th, Work(th, cells, dice).0, h);
    }
  }

  lemma RoomLowOwn(th: Thread, cells: Matrix, dice: Dice)
    requires Shaped(cells) && OwnOk(th, |cells|) && th.pc.RoomLow?
    ensures OwnOk(Work(th, cells, dice).0, |cells|)
  {
    var i, h := th.pc.i, |cells|;
    var p := Place(Low(th.op.key, h), i);
    if i < WIDTH && Peek(cells, p).Empty? {
      TodoCovers(th, h, true);
      AtRoomOwn(th, h, p);
    } else {
      SamePath(th, Work(th, cells, dice).0, h);
    }
  }

  lemma RoomHighOwn(th: Thread, cells: Matrix, dice: Dice)
    requires Shaped(cells) && OwnOk(th, |cells|) && th.pc.RoomHigh?
    requires th.pc.i >= WIDTH && th.second ==> !NoRepeat(th.trail)
    ensures OwnOk(Work(th, cells, dice).0, |cells|)
  {
    var i, h := th.pc.i, |cells|;
    var p := Place(High(th.op.key, h), i);
    if i >= WIDTH {
      NoRoomOwn(th, h);
    } else if Peek(cells, p).Empty? {
      TodoCovers(th, h, true);
      AtRoomOwn(th, h, p);
    } else {
      SamePath(th, Work(th, cells, dice).0, h);
    }
  }

  lemma EdgeOwn(th: Thread, cells: Matrix, dice: Dice)
    requires Shaped(cells) && OwnOk(th, |cells|) && (th.pc.Ready? || th.pc.Store?)
    ensures OwnOk(Work(th, cells, dice).0, |cells|)
  {
    SamePath(th, Work(th, cells, dice).0, |cells|);
  }

  lemma PairCovers(held: map<Lock, Mode>, a: Lock, b: Lock, spare: set<Lock>)
    requires a != b && a !in spare && b !in spare && held.Keys == {a, b} + spare
    ensures Covers(held, [a, b], spare)
  {
  }

  lemma OneCovers(held: map<Lock, Mode>, a: Lock, spare: set<Lock>)
    requires a !in spare && held.Keys == {a} + spare
    ensures Covers(held, [a], spare)
  {
  }

  lemma StartPathOwn(th: Thread, cells: Matrix, dice: Dice)
    requires Shaped(cells) && OwnOk(th, |cells|) && th.pc.Evict? && dice.col < WIDTH
    requires FullBefore(cells[Low(th.op.key, |cells|)], WIDTH) && FullBefore(cells[High(th.op.key, |cells|)], WIDTH)
    requires forall r: nat, c: nat, k: Key :: Holds(cells, r, c, k) && Home(th.op.key, |cells|, r) ==>
             Home(k, |cells|, r)
    ensures OwnOk(StartPath(th, cells, dice).0, |cells|)
  {
    var h := |cells|;
    var p := Place(if dice.first then Hash1(th.op.key, h) else Hash2(th.op.key, h), dice.col);
    assert Home(th.op.key, h, p.row);
    assert cells[p.row][p.col].Full?;
    assert Holds(cells, p.row, p.col, Peek(cells, p).key);
    PairCovers(th.held, LowLock(th, h), HighLock(th, h), {MAIN});
    assert GoodVictim(Victim(p, Peek(cells, p).key), h);
  }

  lemma ProbeRoomOwn(th: Thread, h: nat, then_: After)
    requires h >= 2 && OwnOk(th, h) && th.pc.Probe?
    requires match then_
             case Exploit(c) => c < WIDTH
             case Extend(c, k) => GoodVictim(Victim(Place(ProbeRow(th, h), c), k), h)
             case _ => false
    ensures OwnOk(th.(pc := Unlock([RowLock(ProbeRow(th, h))], then_)), h)
  {
    OneCovers(th.held, RowLock(ProbeRow(th, h)), {MAIN});
    assert ProbeRow(th.(pc := Unlock([RowLock(ProbeRow(th, h))], then_)), h) == ProbeRow(th, h);
  }

  lemma ProbeOwn(th: Thread, cells: Matrix, dice: Dice)
    requires Shaped(cells) && OwnOk(th, |cells|) && th.pc.Probe? && dice.col < WIDTH
    requires FullBefore(cells[ProbeRow(th, |cells|)], if th.pc.i < WIDTH then th.pc.i else WIDTH)
    requires forall c: nat, k: Key :: Holds(cells, ProbeRow(th, |cells|), c, k) ==>
             Home(k, |cells|, ProbeRow(th, |cells|))
    ensures OwnOk(ProbeStep(th, cells, th.pc.i, dice).0, |cells|)
  {
    var h, i := |cells|, th.pc.i;
    var row := ProbeRow(th, h);
    if i >= WIDTH {
      var x := cells[row][dice.col];
      assert x.Full? && Holds(cells, row, dice.col, x.key);
      ProbeRoomOwn(th, h, Extend(dice.col, x.key));
    } else if Peek(cells, Place(row, i)).Empty? {
      ProbeRoomOwn(th, h, Exploit(i));
    } else {
      SamePath(th, th.(pc := Probe(i + 1)), h);
    }
  }

  lemma ChainGrows(path: seq<Victim>, v: Victim, h: nat)
    requires h >= 2 && Chain(path, h) && path != [] && GoodVictim(v, h)
    requires v.place.row == OtherHome(path[|path| - 1].key, h, path[|path| - 1].place.row)
    ensures Chain(path + [v], h)
  {
  }

  /** Giving up: the main lock is still to be released. */
  lemma GiveUpOwn(th: Thread, h: nat)
    requires h >= 2 && th.op.Insert? && th.held == map[MAIN := Exclusive] && th.outcome.None?
    requires th.pc == Unlock([MAIN], Fail)
    ensures OwnOk(th, h)
  {
    OneCovers(th.held, MAIN, {});
  }

  lemma HuntOnOwn(th: Thread, h: nat)
    requires h >= 2 && th.op.Insert? && th.held == map[MAIN := Exclusive] && th.outcome.None? && th.pc == WantProbe
    requires th.path != [] && Chain(th.path, h) && Home(th.op.key, h, th.path[0].place.row)
    ensures OwnOk(th, h)
  {
  }

  lemma ExtendOwn(th: Thread, h: nat)
    requires h >= 2 && OwnOk(th, h) && th.pc.Unlock? && th.pc.todo == [] && th.pc.then_.Extend?
    ensures OwnOk(Released(th, h, th.pc.then_).0, h)
  {
    var th' := Released(th, h, th.pc.then_).0;
    assert th.held == map[MAIN := Exclusive];
    if th.budget == 0 {
      GiveUpOwn(th', h);
    } else {
      ChainGrows(th.path, Victim(Place(ProbeRow(th, h), th.pc.then_.col), th.pc.then_.key), h);
      HuntOnOwn(th', h);
    }
  }

  lemma ExploitOwn(th: Thread, h: nat)
    requires h >= 2 && OwnOk(th, h) && th.pc.Unlock? && th.pc.todo == [] && th.pc.then_.Exploit?
    ensures OwnOk(Released(th, h, th.pc.then_).0, h)
  {
  }

  lemma PoppingOwn(th: Thread, h: nat)
    requires h >= 2 && th.op.Insert? && th.held == map[MAIN := Exclusive] && th.outcome.None? && th.pc == PopPath
    requires SwingPath(th, h)
    ensures OwnOk(th, h)
  {
  }

  lemma ChainShrinks(path: seq<Victim>, v: Victim, h: nat)
    requires h >= 2 && Chain(path + [v], h)
    ensures Chain(path, h)
    ensures path != [] ==> v.place.row == OtherHome(path[|path| - 1].key, h, path[|path| - 1].place.row)
  {
    var full := path + [v];
    assert forall i | 0 <= i < |path| :: full[i] == path[i];
    assert path != [] ==> full[|path| - 1 + 1] == v;
  }

  lemma SwungOwn(th: Thread, h: nat)
    requires h >= 2 && OwnOk(th, h) && th.pc.Unlock? && th.pc.todo == [] && th.pc.then_.Swung?
    ensures OwnOk(Released(th, h, th.pc.then_).0, h)
  {
    var th' := Released(th, h, th.pc.then_).0;
    assert th.held == map[MAIN := Exclusive];
    SwingRows(th, h);
    ChainShrinks(th.path, th.cur, h);
    assert th'.trail[..|th.path| + 1] == Places(th.path) + [th.cur.place] by {
      assert th.trail[..|th.path| + 2][..|th.path| + 1] == th.trail[..|th.path| + 1];
    }
    PoppingOwn(th', h);
  }

  lemma OtherReleasedOwn(th: Thread, h: nat)
    requires h >= 2 && OwnOk(th, h) && th.pc.Unlock? && th.pc.todo == []
    requires th.pc.then_.Leave? || th.pc.then_.LeaveHolding? || th.pc.then_.Hunt? || th.pc.then_.Fail?
    ensures OwnOk(Released(th, h, th.pc.then_).0, h)
  {
    SamePath(th, Released(th, h, th.pc.then_).0, h);
  }

  lemma PopLastOwn(th: Thread, h: nat)
    requires h >= 2 && OwnOk(th, h) && th.pc.PopPath? && th.path == []
    ensures OwnOk(th.(pc := WantLow, second := true), h)
  {
    assert th.trail[..1] == [th.free];
    assert th.trail[0] == th.trail[..1][0];
  }

  lemma PopNextOwn(th: Thread, h: nat)
    requires h >= 2 && OwnOk(th, h) && th.pc.PopPath? && th.path != []
    ensures OwnOk(th.(pc := WantFirst, cur := th.path[|th.path| - 1], path := th.path[..|th.path| - 1]), h)
  {
    var th' := th.(pc := WantFirst, cur := th.path[|th.path| - 1], path := th.path[..|th.path| - 1]);
    assert Pending(th') == th.path;
  }

  lemma PopOwn(th: Thread, cells: Matrix, dice: Dice)
    requires Shaped(cells) && OwnOk(th, |cells|) && th.pc.PopPath?
    ensures OwnOk(Work(th, cells, dice).0, |cells|)
  {
    if th.path == [] {
      PopLastOwn(th, |cells|);
    } else {
      PopNextOwn(th, |cells|);
    }
  }

  /** The victim in hand and the free cell lie in its two home rows. */
  lemma SwingRows(th: Thread, h: nat)
    requires h >= 2 && PathOk(th, h) && Swinging(th.pc) && !th.pc.PopPath?
    ensures GoodVictim(th.cur, h) && InTable(th.free, h)
    ensures th.cur.place.row != th.free.row && Home(th.cur.key, h, th.free.row)
  {
  }

  lemma SwingDoneOwn(th: Thread, h: nat)
    requires h >= 2 && OwnOk(th, h) && th.held == SwingHeld(th) && (th.pc.CheckSwing? || th.pc.Settle?)
    ensures OwnOk(th.(pc := Unlock(SwingLocks(th), Swung)), h)
  {
    SwingRows(th, h);
    PairCovers(th.held, RowLock(FirstRow(th)), RowLock(SecondRow(th)), {MAIN});
    SamePath(th, th.(pc := Unlock(SwingLocks(th), Swung)), h);
  }

  lemma SwingOnOwn(th: Thread, h: nat, pc: Pc)
    requires h >= 2 && OwnOk(th, h) && (th.pc.CheckSwing? || th.pc.ClearOld? || th.pc.FillNew?)
    requires pc.ClearOld? || pc.FillNew? || pc.Settle?
    ensures OwnOk(th.(pc := pc), h)
  {
    assert SwingHeld(th.(pc := pc)) == SwingHeld(th) && Pending(th.(pc := pc)) == Pending(th);
    SwingingOwn(th.(pc := pc), h);
  }

  lemma SwingingOwn(th: Thread, h: nat)
    requires h >= 2 && th.op.Insert? && th.held == SwingHeld(th) && th.outcome.None? && SwingPath(th, h)
    requires th.pc.ClearOld? || th.pc.FillNew? || th.pc.Settle?
    ensures OwnOk(th, h)
  {
  }

  lemma SwingOwn(th: Thread, cells: Matrix, dice: Dice)
    requires Shaped(cells) && OwnOk(th, |cells|)
    requires th.pc.CheckSwing? || th.pc.ClearOld? || th.pc.FillNew? || th.pc.Settle?
    ensures OwnOk(Work(th, cells, dice).0, |cells|)
  {
    var th' := Work(th, cells, dice).0;
    assert th' == th.(pc := th'.pc);
    if th'.pc.Unlock? {
      SwingDoneOwn(th, |cells|);
    } else {
      SwingOnOwn(th, |cells|, th'.pc);
    }
  }
}
