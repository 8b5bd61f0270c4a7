/** An insert of the hash table that meets full rows, from beginning to end, alone, and as part of a run. */
module CuckooLoneInsert {
  import opened Linearizability
  import opened CuckooMatrix
  import opened CuckooThreads
  import opened CuckooInvariant
  import opened CuckooShared
  import opened CuckooSequential
  import opened CuckooTheorems
  import opened CuckooLeak
  import opened CuckooAlone

  // ----- the second attempt, and the insert as a whole

  lemma KeyIsAbsent(m: Matrix, abs: Map, k: Key)
    requires Represents(m, abs) && k !in abs
    ensures NotInRow(m[Low(k, |m|)], k) && NotInRow(m[High(k, |m|)], k)
  {
    forall r: nat, i: nat | r < |m| && i < WIDTH && m[r][i].Full? ensures m[r][i].key != k {
      assert Holds(m, r, i, m[r][i].key);
    }
  }

  lemma Absent(c: Config, abs: Map)
    requires Represents(c.cells, abs) && c.th.op.Insert? && c.th.op.key !in abs
    ensures Misses(c)
  {
    KeyIsAbsent(c.cells, abs, c.th.op.key);
  }

  lemma {:induction false} FirstRoom(row: Row, n: nat) returns (i: nat)
    requires n <= |row| == WIDTH && FullBefore(row, n) && !FullBefore(row, WIDTH)
    ensures i < WIDTH && FullBefore(row, i) && row[i].Empty?
    decreases WIDTH - n
  {
    if row[n].Empty? {
      i := n;
    } else {
      i := FirstRoom(row, n + 1);
    }
  }

  lemma SomeRoom(c: Config) returns (p: Place)
    requires Shaped(c.cells) && !HomesFull(c.cells, c.th.op.key)
    ensures RoomAt(c, p)
  {
    var lo, hi := Low(c.th.op.key, |c.cells|), High(c.th.op.key, |c.cells|);
    if FullBefore(c.cells[lo], WIDTH) {
      var i := FirstRoom(c.cells[hi], 0);
      p := Place(hi, i);
    } else {
      var i := FirstRoom(c.cells[lo], 0);
      p := Place(lo, i);
    }
  }

  lemma Stores(c: Config) returns (p: Place)
    requires Misses(c) && c.th.pc == RoomLow(0) && c.th.held == AllLocks(c.th, |c.cells|)
             && !HomesFull(c.cells, c.th.op.key)
    ensures RoomAt(c, p) && Goes(c, Completed(c, p))
  {
    p := SomeRoom(c);
    if p.row == Low(c.th.op.key, |c.cells|) {
      PlaceLow(c, p);
    } else {
      PlaceHigh(c, p);
    }
    Leaves(c, c, p);
  }

  function Failed(c: Config): Config {
    c.(th := c.th.(pc := Done, outcome := Some(Inserted(false))))
  }

  /** The last exit: both home rows are full once more, and no lock is released. */
  lemma GivingUp(c: Config)
    requires Misses(c) && c.th.pc == RoomLow(0) && HomesFull(c.cells, c.th.op.key) && c.th.second
    ensures Goes(c, Failed(c))
  {
    LowFull(c, WIDTH);
    ThenNoRoom(c, At(c, RoomHigh(WIDTH)));
    ThenFailed(c, NoRoomLeft(c));
  }

  lemma ThenFailed(c: Config, d: Config)
    requires |d.cells| == |c.cells| >= 2 && Goes(c, d) && d.th.pc == Unlock([], LeaveHolding)
    requires d.th.outcome == Some(Inserted(false))
    ensures Goes(c, Failed(d))
  {
    ThenTo(c, d, ANY, Failed(d));
  }

  function NoRoomLeft(c: Config): Config {
    c.(th := c.th.(pc := Unlock([], LeaveHolding), outcome := Some(Inserted(false))))
  }

  lemma ThenNoRoom(c: Config, d: Config)
    requires |d.cells| == |c.cells| >= 2 && Goes(c, d) && d.th.pc == RoomHigh(WIDTH) && d.th.second
    ensures Goes(c, NoRoomLeft(d))
  {
    ThenTo(c, d, ANY, NoRoomLeft(d));
  }

  lemma Retries(c: Config) returns (d: Config)
    requires Misses(c) && c.th.pc == PopPath && c.th.path == [] && c.th.held == map[MAIN := Exclusive]
    ensures Goes(c, d) && d.th.pc == Done && d.th.op == c.th.op && d.th.trail == c.th.trail
    ensures d.th.outcome == Some(Inserted(!HomesFull(c.cells, c.th.op.key)))
    ensures if HomesFull(c.cells, c.th.op.key)
            then d.th.held == AllLocks(c.th, |c.cells|) && d.cells == c.cells
            else d.th.held == map[]
  {
    var c1 := c.(th := c.th.(pc := WantLow, second := true));
    GoesNowhere(c);
    ThenTo(c, c, ANY, c1);
    Search(c1);
    var c2 := Searched(c1);
    GoesOn(c, c1, c2);
    if HomesFull(c.cells, c.th.op.key) {
      GivingUp(c2);
      d := Failed(c2);
    } else {
      var p := Stores(c2);
      d := Completed(c2, p);
    }
    GoesOn(c, c2, d);
  }

  function FirstHunt(c: Config, v: Victim): Config {
    Hunted(c, [v], |c.cells|)
  }

  lemma FirstAttempt(c: Config, dice: Dice, v: Victim)
    requires Misses(c) && c.th == NewThread(c.th.op) && HomesFull(c.cells, c.th.op.key) && dice.col < WIDTH
    requires v.place == FirstPlace(c.th.op, |c.cells|, dice) && KeyAt(c.cells, v.place, v.key)
    ensures Goes(c, FirstHunt(c, v))
  {
    var c1 := c.(th := c.th.(pc := WantLow, held := map[MAIN := Exclusive]));
    Started(c);
    Search(c1);
    GoesOn(c, c1, Searched(c1));
    Evicts(Searched(c1), dice, v);
    GoesOn(c, Searched(c1), Hunted(Searched(c1), [v], |c.cells|));
    assert Hunted(Searched(c1), [v], |c.cells|) == FirstHunt(c, v);
  }

  lemma FindsRoom(c: Config, free: Place)
    requires Shaped(c.cells) && c.th.path != [] && Searchable(c.cells, c.th.path, free)
    requires c.th.pc == WantProbe && c.th.held == map[MAIN := Exclusive]
    ensures Goes(c, Executing(c, free))
  {
    assert ProbeRow(c.th, |c.cells|) == free.row;
    Exploits(c, free.col);
  }

  lemma SearchPath(c: Config, path: seq<Victim>, free: Place)
    requires Shaped(c.cells) && Searchable(c.cells, path, free) && 0 < |path| <= |c.cells| + 1
    requires c.th.pc == WantProbe && c.th.held == map[MAIN := Exclusive]
    requires c.th.path == [path[0]] && c.th.budget == |c.cells|
    ensures Goes(c, Executing(Hunted(c, path, |c.cells| + 1 - |path|), free))
  {
    var d := Hunted(c, path, |c.cells| + 1 - |path|);
    assert path[..1] == [path[0]];
    Follows(c, path, free, 1);
    FindsRoom(d, free);
    GoesOn(c, d, Executing(d, free));
  }

  /** The first attempt and the search, up to the first swing. */
  function ReadyToSwing(c: Config, path: seq<Victim>, free: Place): Config
    requires path != [] && |path| <= |c.cells| + 1
  {
    Executing(Hunted(FirstHunt(c, path[0]), path, |c.cells| + 1 - |path|), free)
  }

  lemma FindsPath(c: Config, dice: Dice, path: seq<Victim>, free: Place)
    requires Misses(c) && c.th == NewThread(c.th.op) && HomesFull(c.cells, c.th.op.key) && dice.col < WIDTH
    requires Searchable(c.cells, path, free) && 0 < |path| <= |c.cells| + 1
    requires path[0].place == FirstPlace(c.th.op, |c.cells|, dice)
    ensures Goes(c, ReadyToSwing(c, path, free))
  {
    FirstAttempt(c, dice, path[0]);
    var c1 := FirstHunt(c, path[0]);
    SearchPath(c1, path, free);
    GoesOn(c, c1, ReadyToSwing(c, path, free));
  }

  /** And the execution. */
  lemma Cuckoo(c: Config, dice: Dice, path: seq<Victim>, free: Place) returns (d: Config)
    requires Misses(c) && c.th == NewThread(c.th.op) && HomesFull(c.cells, c.th.op.key) && dice.col < WIDTH
    requires Searchable(c.cells, path, free) && 0 < |path| <= |c.cells| + 1
    requires path[0].place == FirstPlace(c.th.op, |c.cells|, dice)
    ensures Goes(c, d) && (forall v | v in path :: InTable(v.place, |c.cells|))
    ensures d.cells == Executed(c.cells, path, free) && d.th.op == c.th.op && d.th.trail == Trail(path, free)
    ensures d.th.pc == PopPath && d.th.path == [] && d.th.held == map[MAIN := Exclusive]
  {
    FindsPath(c, dice, path, free);
    d := Executes(ReadyToSwing(c, path, free));
    GoesOn(c, ReadyToSwing(c, path, free), d);
  }

  /** An insert that meets two full home rows and nobody else executes any path its search may
      return, and then fails if and only if the executed path has left both home rows full; it
      fails with the main lock and both row locks held. */
  lemma LoneInsert(c: Config, abs: Map, dice: Dice, path: seq<Victim>, free: Place) returns (d: Config)
    requires Represents(c.cells, abs) && c.th == NewThread(c.th.op) && c.th.op.Insert? && c.th.op.key !in abs
    requires HomesFull(c.cells, c.th.op.key) && dice.col < WIDTH
    requires Searchable(c.cells, path, free) && 0 < |path| <= |c.cells| + 1
    requires path[0].place == FirstPlace(c.th.op, |c.cells|, dice)
    ensures Goes(c, d) && d.th.pc == Done && d.th.op == c.th.op && d.th.trail == Trail(path, free)
    ensures forall v | v in path :: InTable(v.place, |c.cells|)
    ensures var m, h := Executed(c.cells, path, free), |c.cells|;
            && d.th.outcome == Some(Inserted(!HomesFull(m, c.th.op.key)))
            && (d.th.outcome == Some(Inserted(false)) ==> d.th.held == AllLocks(d.th, h) && d.cells == m)
            && (d.th.outcome == Some(Inserted(true)) ==> d.th.held == map[])
  {
    Absent(c, abs);
    var e := Cuckoo(c, dice, path, free);
    ExecutedRepresents(c.cells, abs, path, free);
    Absent(e, abs);
    d := Retries(e);
    GoesOn(c, e, d);
  }

  // ----- in a run

  ghost predicate Reached(h: nat, ops: seq<Op>, s: State) {
    exists run :: Run(h, ops, run) && run[|run| - 1] == s
  }

  /** Nobody else holds a lock, or only the main lock while `t` does not insert. */
  predicate Unhindered(s: State, t: nat) {
    t < |s.threads| &&
    forall u | 0 <= u < |s.threads| && u != t ::
      s.threads[u].held == map[] || (s.threads[u].held.Keys == {MAIN} && !s.threads[t].op.Insert?)
  }

  lemma ExtendRun(h: nat, ops: seq<Op>, s: State, t: nat, dice: Dice)
    requires Reached(h, ops, s) && Enabled(s, t, dice)
    ensures Reached(h, ops, Next(s, t, dice))
  {
    var run :| Run(h, ops, run) && run[|run| - 1] == s;
    var longer := run + [Next(s, t, dice)];
    forall i | 0 <= i < |longer| - 1 ensures Steps(longer[i], longer[i + 1]) {
      if i < |run| - 1 {
        assert Steps(run[i], run[i + 1]);
      }
    }
    assert Run(h, ops, longer) && longer[|longer| - 1] == Next(s, t, dice);
  }

  lemma NotBlocked(h: nat, ops: seq<Op>, s: State, t: nat, dice: Dice)
    requires Reached(h, ops, s) && Unhindered(s, t) && dice.col < WIDTH && |s.cells| >= 2
    requires !s.threads[t].pc.Done? && !s.threads[t].pc.Panicked?
    ensures Enabled(s, t, dice)
  {
    var run :| Run(h, ops, run) && run[|run| - 1] == s;
    RunInv(h, ops, run, |run| - 1);
    assert Local(s, t);
  }

  lemma AloneIsNext(h: nat, ops: seq<Op>, s: State, t: nat, dice: Dice) returns (s': State)
    requires Reached(h, ops, s) && Unhindered(s, t) && dice.col < WIDTH && |s.cells| >= 2
    ensures Reached(h, ops, s') && Unhindered(s', t)
    ensures var d := Alone(Config(s.cells, s.threads[t]), dice);
            s'.cells == d.cells && s'.threads == s.threads[t := d.th]
  {
    if s.threads[t].pc.Done? || s.threads[t].pc.Panicked? {
      s' := s;
    } else {
      NotBlocked(h, ops, s, t, dice);
      ExtendRun(h, ops, s, t, dice);
      HeldStep(s, t, dice);
      s' := Next(s, t, dice);
    }
  }

  lemma {:induction false} Lift(h: nat, ops: seq<Op>, s: State, t: nat, dices: seq<Dice>) returns (s': State)
    requires Reached(h, ops, s) && Unhindered(s, t) && |s.cells| >= 2 && InRange(dices)
    ensures Reached(h, ops, s') && Unhindered(s', t)
    ensures var d := Many(Config(s.cells, s.threads[t]), dices);
            s'.cells == d.cells && s'.threads == s.threads[t := d.th]
  {
    if dices == [] {
      s' := s;
    } else {
      var n := |dices| - 1;
      var m := Lift(h, ops, s, t, dices[..n]);
      s' := AloneIsNext(h, ops, m, t, dices[n]);
    }
  }

  /** What an operation does alone is part of a run. */
  lemma Reaches(h: nat, ops: seq<Op>, s: State, t: nat, d: Config) returns (s': State)
    requires Reached(h, ops, s) && Unhindered(s, t) && Goes(Config(s.cells, s.threads[t]), d)
    ensures Reached(h, ops, s') && s'.cells == d.cells && s'.threads == s.threads[t := d.th]
  {
    var dices :| InRange(dices) && Many(Config(s.cells, s.threads[t]), dices) == d;
    s' := Lift(h, ops, s, t, dices);
  }

  /** A table on which the insert `op` alone, choosing `path`, makes no room for itself. */
  ghost predicate Leaky(m: Matrix, abs: Map, op: Op, dice: Dice, path: seq<Victim>, free: Place) {
    && Represents(m, abs) && op.Insert? && op.key !in abs
    && HomesFull(m, op.key)
    && Searchable(m, path, free) && 0 < |path| <= |m| + 1 && dice.col < WIDTH
    && path[0].place == FirstPlace(op, |m|, dice)
    && (forall v | v in path :: InTable(v.place, |m|))
    && HomesFull(Executed(m, path, free), op.key)
  }

  /** In a run an insert that fails alone, in spite of a free cell, keeps its locks for good. */
  lemma LoneLeak(h: nat, ops: seq<Op>, s: State, t: nat, abs: Map, dice: Dice, path: seq<Victim>, free: Place)
    returns (s': State)
    requires Reached(h, ops, s) && Unhindered(s, t) && s.threads[t] == NewThread(s.threads[t].op)
    requires Leaky(s.cells, abs, s.threads[t].op, dice, path, free)
    ensures Reached(h, ops, s') && |s'.threads| == |s.threads|
    ensures var th := s'.threads[t];
            && th.pc == Done && th.outcome == Some(Inserted(false)) && th.op == s.threads[t].op
            && th.trail == Trail(path, free) && th.held == AllLocks(th, |s.cells|)
  {
    var d := LoneInsert(Config(s.cells, s.threads[t]), abs, dice, path, free);
    s' := Reaches(h, ops, s, t, d);
  }
}
