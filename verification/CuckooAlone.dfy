/** What an operation of the hash table does, step by step, while no other operation holds a lock
    it needs, and what an insert does then as a whole. */
module CuckooAlone {
  import opened Linearizability
  import opened CuckooMatrix
  import opened CuckooThreads
  import opened CuckooInvariant
  import opened CuckooOwn
  import opened CuckooLeak
  import opened CuckooSequential

  /** The rows in memory and the variables of the operation. */
  datatype Config = Config(cells: Matrix, th: Thread)

  function Alone(c: Config, dice: Dice): (c': Config)
    requires |c.cells| >= 2
    ensures |c'.cells| == |c.cells|
  {
    var th, h := c.th, |c.cells|;
    if th.pc.Done? || th.pc.Panicked? then c
    else if Target(th, h).Some? then c.(th := Taken(th, h))
    else if th.pc.Unlock? && th.pc.todo != [] then
      c.(th := th.(pc := Unlock(th.pc.todo[1..], th.pc.then_), held := th.held - {th.pc.todo[0]}))
    else
      var (th', e) := Work(th, c.cells, dice);
      Config(if e.Write? then Poke(c.cells, e.place, e.cell) else c.cells, th')
  }

  function Many(c: Config, dices: seq<Dice>): (c': Config)
    requires |c.cells| >= 2
    ensures |c'.cells| == |c.cells|
  {
    if dices == [] then c else Alone(Many(c, dices[..|dices| - 1]), dices[|dices| - 1])
  }

  predicate InRange(dices: seq<Dice>) {
    forall i | 0 <= i < |dices| :: dices[i].col < WIDTH
  }

  /** Some steps, with some random choices, lead from `c` to `d`. */
  ghost predicate Goes(c: Config, d: Config) {
    |c.cells| >= 2 && exists dices :: InRange(dices) && Many(c, dices) == d
  }

  lemma GoesNowhere(c: Config)
    requires |c.cells| >= 2
    ensures Goes(c, c)
  {
    assert InRange([]) && Many(c, []) == c;
  }

  /** One step more. */
  lemma Then(c: Config, d: Config, dice: Dice)
    requires Goes(c, d) && dice.col < WIDTH
    ensures |d.cells| == |c.cells| && Goes(c, Alone(d, dice))
  {
    var dices :| InRange(dices) && Many(c, dices) == d;
    assert (dices + [dice])[..|dices|] == dices;
    assert InRange(dices + [dice]) && Many(c, dices + [dice]) == Alone(d, dice);
  }

  lemma {:induction false} ManyMore(c: Config, a: seq<Dice>, b: seq<Dice>)
    requires |c.cells| >= 2
    ensures Many(c, a + b) == Many(Many(c, a), b)
  {
    if b == [] {
      assert a + b == a;
    } else {
      assert (a + b)[..|a + b| - 1] == a + b[..|b| - 1];
      ManyMore(c, a, b[..|b| - 1]);
    }
  }

  lemma GoesOn(c: Config, d: Config, e: Config)
    requires Goes(c, d) && Goes(d, e)
    ensures Goes(c, e)
  {
    var a :| InRange(a) && Many(c, a) == d;
    var b :| InRange(b) && Many(d, b) == e;
    ManyMore(c, a, b);
    assert InRange(a + b) && Many(c, a + b) == e;
  }

  const ANY: Dice := Dice(true, 0)

  function At(c: Config, pc: Pc): Config {
    c.(th := c.th.(pc := pc))
  }

  lemma ThenTo(c: Config, d: Config, dice: Dice, e: Config)
    requires Goes(c, d) && dice.col < WIDTH && |d.cells| == |c.cells| && Alone(d, dice) == e
    ensures Goes(c, e)
  {
    Then(c, d, dice);
  }

  /** A step that only moves the program counter. */
  lemma Moves(c: Config, pc: Pc)
    requires |c.cells| >= 2 && Alone(c, ANY) == At(c, pc)
    ensures Goes(c, At(c, pc))
  {
    GoesNowhere(c);
    Then(c, c, ANY);
  }

  lemma Takes(c: Config, d: Config)
    requires Goes(c, d) && |d.cells| == |c.cells| && Target(d.th, |d.cells|).Some?
    ensures Goes(c, d.(th := Taken(d.th, |d.cells|)))
  {
    ThenTo(c, d, ANY, d.(th := Taken(d.th, |d.cells|)));
  }

  /** All the locks of an `Unlock` are released, one by one. */
  lemma {:induction false} Releases(c: Config, d: Config)
    requires Goes(c, d) && |d.cells| == |c.cells| && d.th.pc.Unlock?
    ensures Goes(c, d.(th := d.th.(pc := Unlock([], d.th.pc.then_), held := d.th.held - (set l | l in d.th.pc.todo))))
    decreases if d.th.pc.Unlock? then |d.th.pc.todo| else 0
  {
    var all := set l | l in d.th.pc.todo;
    if d.th.pc.todo == [] {
      assert d.th.held - all == d.th.held;
    } else {
      var todo := d.th.pc.todo;
      var e := d.(th := d.th.(pc := Unlock(todo[1..], d.th.pc.then_), held := d.th.held - {todo[0]}));
      ThenTo(c, d, ANY, e);
      Releases(c, e);
      assert todo == [todo[0]] + todo[1..];
      assert d.th.held - {todo[0]} - (set l | l in todo[1..]) == d.th.held - all;
    }
  }

  // ----- the loops over one row

  lemma {:induction false} SeekLowTo(c: Config, i: nat, n: nat)
    requires |c.cells| >= 2 && c.th.pc == SeekLow(i) && i <= n <= WIDTH
    requires |c.cells[Low(c.th.op.key, |c.cells|)]| == WIDTH
             && NotBefore(c.cells[Low(c.th.op.key, |c.cells|)], c.th.op.key, n)
    ensures Goes(c, At(c, SeekLow(n)))
    decreases n - i
  {
    if i == n {
      GoesNowhere(c);
    } else {
      Moves(c, SeekLow(i + 1));
      SeekLowTo(At(c, SeekLow(i + 1)), i + 1, n);
      GoesOn(c, At(c, SeekLow(i + 1)), At(c, SeekLow(n)));
    }
  }

  lemma {:induction false} SeekHighTo(c: Config, i: nat, n: nat)
    requires |c.cells| >= 2 && c.th.pc == SeekHigh(i) && i <= n <= WIDTH
    requires |c.cells[High(c.th.op.key, |c.cells|)]| == WIDTH
             && NotBefore(c.cells[High(c.th.op.key, |c.cells|)], c.th.op.key, n)
    ensures Goes(c, At(c, SeekHigh(n)))
    decreases n - i
  {
    if i == n {
      GoesNowhere(c);
    } else {
      Moves(c, SeekHigh(i + 1));
      SeekHighTo(At(c, SeekHigh(i + 1)), i + 1, n);
      GoesOn(c, At(c, SeekHigh(i + 1)), At(c, SeekHigh(n)));
    }
  }

  lemma {:induction false} RoomLowTo(c: Config, i: nat, n: nat)
    requires |c.cells| >= 2 && c.th.pc == RoomLow(i) && i <= n <= WIDTH
    requires |c.cells[Low(c.th.op.key, |c.cells|)]| == WIDTH && FullBefore(c.cells[Low(c.th.op.key, |c.cells|)], n)
    ensures Goes(c, At(c, RoomLow(n)))
    decreases n - i
  {
    if i == n {
      GoesNowhere(c);
    } else {
      Moves(c, RoomLow(i + 1));
      RoomLowTo(At(c, RoomLow(i + 1)), i + 1, n);
      GoesOn(c, At(c, RoomLow(i + 1)), At(c, RoomLow(n)));
    }
  }

  lemma {:induction false} RoomHighTo(c: Config, i: nat, n: nat)
    requires |c.cells| >= 2 && c.th.pc == RoomHigh(i) && i <= n <= WIDTH
    requires |c.cells[High(c.th.op.key, |c.cells|)]| == WIDTH && FullBefore(c.cells[High(c.th.op.key, |c.cells|)], n)
    ensures Goes(c, At(c, RoomHigh(n)))
    decreases n - i
  {
    if i == n {
      GoesNowhere(c);
    } else {
      Moves(c, RoomHigh(i + 1));
      RoomHighTo(At(c, RoomHigh(i + 1)), i + 1, n);
      GoesOn(c, At(c, RoomHigh(i + 1)), At(c, RoomHigh(n)));
    }
  }

  lemma {:induction false} ProbeTo(c: Config, i: nat, n: nat)
    requires |c.cells| >= 2 && c.th.pc == Probe(i) && i <= n <= WIDTH
    requires |c.cells[ProbeRow(c.th, |c.cells|)]| == WIDTH && FullBefore(c.cells[ProbeRow(c.th, |c.cells|)], n)
    ensures Goes(c, At(c, Probe(n)))
    decreases n - i
  {
    if i == n {
      GoesNowhere(c);
    } else {
      assert ProbeRow(At(c, Probe(i + 1)).th, |c.cells|) == ProbeRow(c.th, |c.cells|);
      Moves(c, Probe(i + 1));
      ProbeTo(At(c, Probe(i + 1)), i + 1, n);
      GoesOn(c, At(c, Probe(i + 1)), At(c, Probe(n)));
    }
  }

  // ----- the stages of an insert

  ghost predicate Misses(c: Config) {
    && Shaped(c.cells) && c.th.op.Insert?
    && NotInRow(c.cells[Low(c.th.op.key, |c.cells|)], c.th.op.key)
    && NotInRow(c.cells[High(c.th.op.key, |c.cells|)], c.th.op.key)
  }

  /** Both home rows locked and the key not found. */
  function Searched(c: Config): Config
    requires |c.cells| >= 2
  {
    c.(th := c.th.(pc := RoomLow(0), held := AllLocks(c.th, |c.cells|)))
  }

  lemma SearchLow(c: Config)
    requires Misses(c) && c.th.pc == WantLow && c.th.held == map[MAIN := Exclusive]
    ensures Goes(c, c.(th := c.th.(pc := WantHigh, held := c.th.held[LowLock(c.th, |c.cells|) := Exclusive])))
  {
    var d := c.(th := Taken(c.th, |c.cells|));
    GoesNowhere(c);
    Takes(c, c);
    SeekLowTo(d, 0, WIDTH);
    GoesOn(c, d, At(d, SeekLow(WIDTH)));
    ThenTo(c, At(d, SeekLow(WIDTH)), ANY, At(d, WantHigh));
  }

  lemma ThenAbsent(c: Config, d: Config)
    requires |d.cells| == |c.cells| >= 2 && Goes(c, d) && d.th.pc == SeekHigh(WIDTH) && d.th.op.Insert?
    ensures Goes(c, At(d, RoomLow(0)))
  {
    ThenTo(c, d, ANY, At(d, RoomLow(0)));
  }

  lemma SearchHigh(c: Config)
    requires Misses(c) && c.th.pc == WantHigh
             && c.th.held == map[MAIN := Exclusive][LowLock(c.th, |c.cells|) := Exclusive]
    ensures Goes(c, Searched(c))
  {
    var d := c.(th := c.th.(pc := SeekHigh(0), held := AllLocks(c.th, |c.cells|)));
    GoesNowhere(c);
    Takes(c, c);
    SeekHighTo(d, 0, WIDTH);
    GoesOn(c, d, At(d, SeekHigh(WIDTH)));
    ThenAbsent(c, At(d, SeekHigh(WIDTH)));
  }

  lemma Search(c: Config)
    requires Misses(c) && c.th.pc == WantLow && c.th.held == map[MAIN := Exclusive]
    ensures Goes(c, Searched(c))
  {
    var d := c.(th := c.th.(pc := WantHigh, held := c.th.held[LowLock(c.th, |c.cells|) := Exclusive]));
    SearchLow(c);
    SearchHigh(d);
    GoesOn(c, d, Searched(d));
  }

  /** Where an insert with room in a home row puts its pair. */
  ghost predicate RoomAt(c: Config, p: Place)
    requires Shaped(c.cells)
  {
    var lo, hi := Low(c.th.op.key, |c.cells|), High(c.th.op.key, |c.cells|);
    && p.col < WIDTH
    && ((p.row == lo && FullBefore(c.cells[lo], p.col) && c.cells[lo][p.col].Empty?)
        || (p.row == hi && FullBefore(c.cells[lo], WIDTH) && FullBefore(c.cells[hi], p.col)
            && c.cells[hi][p.col].Empty?))
  }

  function Completed(c: Config, p: Place): Config
    requires c.th.op.Insert?
  {
    Config(Poke(c.cells, p, Full(c.th.op.key, c.th.op.value)),
           c.th.(pc := Done, held := map[], outcome := Some(Inserted(true))))
  }

  function Storing(c: Config, p: Place): Config
    requires |c.cells| >= 2 && c.th.op.Insert?
  {
    c.(th := AtRoom(c.th, |c.cells|, p).0)
  }

  lemma ThenStore(c: Config, d: Config)
    requires |d.cells| == |c.cells| >= 2 && Goes(c, d) && d.th.pc.Store?
    ensures Goes(c, Config(Poke(d.cells, d.th.pc.place, d.th.pc.cell), d.th.(pc := Unlock(d.th.pc.todo, Leave))))
  {
    ThenTo(c, d, ANY, Config(Poke(d.cells, d.th.pc.place, d.th.pc.cell), d.th.(pc := Unlock(d.th.pc.todo, Leave))));
  }

  lemma ThenDone(c: Config, d: Config)
    requires |d.cells| == |c.cells| >= 2 && Goes(c, d) && d.th.pc == Unlock([], Leave) && d.th.outcome.Some?
    ensures Goes(c, At(d, Done))
  {
    ThenTo(c, d, ANY, At(d, Done));
  }

  lemma ThenLeave(c: Config, d: Config)
    requires |d.cells| == |c.cells| >= 2 && Goes(c, d) && d.th.pc.Unlock? && d.th.pc.then_.Leave? && d.th.outcome.Some?
    requires forall l | l in d.th.held :: l in d.th.pc.todo
    ensures Goes(c, d.(th := d.th.(pc := Done, held := map[])))
  {
    Releases(c, d);
    assert d.th.held - (set l | l in d.th.pc.todo) == map[];
    ThenDone(c, d.(th := d.th.(pc := Unlock([], Leave), held := map[])));
  }

  /** From the free cell found to the return. */
  lemma Leaves(c: Config, d: Config, p: Place)
    requires |d.cells| == |c.cells| >= 2 && d.th.op.Insert? && Goes(c, Storing(d, p))
    requires d.th.held == AllLocks(d.th, |d.cells|)
    ensures Goes(c, Completed(d, p))
  {
    var st, todo := Storing(d, p), Todo(d.th, |d.cells|, true);
    ThenStore(c, st);
    assert todo == [LowLock(d.th, |d.cells|), HighLock(d.th, |d.cells|), MAIN];
    ThenLeave(c, Config(Poke(d.cells, p, Full(d.th.op.key, d.th.op.value)), st.th.(pc := Unlock(todo, Leave))));
  }

  lemma PlaceLow(c: Config, p: Place)
    requires Misses(c) && c.th.pc == RoomLow(0) && RoomAt(c, p) && p.row == Low(c.th.op.key, |c.cells|)
    ensures Goes(c, Storing(c, p))
  {
    RoomLowTo(c, 0, p.col);
    ThenTo(c, At(c, RoomLow(p.col)), ANY, Storing(c, p));
  }

  lemma LowFull(c: Config, n: nat)
    requires Misses(c) && c.th.pc == RoomLow(0) && FullBefore(c.cells[Low(c.th.op.key, |c.cells|)], WIDTH)
    requires n <= WIDTH && FullBefore(c.cells[High(c.th.op.key, |c.cells|)], n)
    ensures Goes(c, At(c, RoomHigh(n)))
  {
    var d := At(c, RoomHigh(0));
    RoomLowTo(c, 0, WIDTH);
    ThenTo(c, At(c, RoomLow(WIDTH)), ANY, d);
    RoomHighTo(d, 0, n);
    GoesOn(c, d, At(c, RoomHigh(n)));
  }

  lemma PlaceHigh(c: Config, p: Place)
    requires Misses(c) && c.th.pc == RoomLow(0) && RoomAt(c, p) && p.row != Low(c.th.op.key, |c.cells|)
    ensures Goes(c, Storing(c, p))
  {
    LowFull(c, p.col);
    ThenTo(c, At(c, RoomHigh(p.col)), ANY, Storing(c, p));
  }

  /** An insert of an absent key with room in a home row. */
  lemma PlainInsert(c: Config, p: Place)
    requires Misses(c) && c.th == NewThread(c.th.op) && RoomAt(c, p)
    ensures Goes(c, Completed(c, p))
  {
    Started(c);
    var c2 := c.(th := c.th.(pc := WantLow, held := map[MAIN := Exclusive]));
    Search(c2);
    GoesOn(c, c2, Searched(c2));
    var c3 := Searched(c2);
    if p.row == Low(c.th.op.key, |c.cells|) {
      PlaceLow(c3, p);
    } else {
      PlaceHigh(c3, p);
    }
    GoesOn(c, c3, Storing(c3, p));
    Leaves(c, c3, p);
  }

  lemma Started(c: Config)
    requires |c.cells| >= 2 && c.th == NewThread(c.th.op) && c.th.op.Insert?
    ensures Goes(c, c.(th := c.th.(pc := WantLow, held := map[MAIN := Exclusive])))
  {
    Moves(c, WantMain);
    Takes(c, At(c, WantMain));
    assert map[][MAIN := Exclusive] == map[MAIN := Exclusive];
  }

  // ----- the cuckoo path

  function Hunted(c: Config, path: seq<Victim>, budget: nat): Config {
    c.(th := c.th.(pc := WantProbe, held := map[MAIN := Exclusive], path := path, budget := budget))
  }

  function FirstPlace(op: Op, h: nat, dice: Dice): Place
    requires h >= 2
  {
    Place(if dice.first then Hash1(op.key, h) else Hash2(op.key, h), dice.col)
  }

  function RowLocks(th: Thread, h: nat): seq<Lock>
    requires h >= 2
  {
    [LowLock(th, h), HighLock(th, h)]
  }

  lemma ThenEvict(c: Config, d: Config, dice: Dice, v: Victim)
    requires Goes(c, d) && |d.cells| == |c.cells| >= 2 && d.th.pc == Evict && dice.col < WIDTH
    requires v.place == FirstPlace(d.th.op, |d.cells|, dice) && KeyAt(d.cells, v.place, v.key)
    ensures Goes(c, d.(th := d.th.(pc := Unlock(RowLocks(d.th, |d.cells|), Hunt), path := [v], budget := |d.cells|)))
  {
    var e := d.(th := d.th.(pc := Unlock(RowLocks(d.th, |d.cells|), Hunt), path := [v], budget := |d.cells|));
    ThenTo(c, d, dice, e);
  }

  lemma ThenHunt(c: Config, d: Config)
    requires Goes(c, d) && |d.cells| == |c.cells| >= 2 && d.th.pc == Unlock(RowLocks(d.th, |d.cells|), Hunt)
    requires d.th.held == AllLocks(d.th, |d.cells|)
    ensures Goes(c, Hunted(d, d.th.path, d.th.budget))
  {
    var rows := RowLocks(d.th, |d.cells|);
    Releases(c, d);
    assert d.th.held - (set l | l in rows) == map[MAIN := Exclusive];
    var e := d.(th := d.th.(pc := Unlock([], Hunt), held := map[MAIN := Exclusive]));
    ThenTo(c, e, ANY, Hunted(d, d.th.path, d.th.budget));
  }

  /** Both home rows are full at the first attempt: the entry at `dice` is the first victim. */
  lemma Evicts(c: Config, dice: Dice, v: Victim)
    requires Misses(c) && c.th.pc == RoomLow(0) && !c.th.second && HomesFull(c.cells, c.th.op.key) && dice.col < WIDTH
    requires c.th.held == AllLocks(c.th, |c.cells|)
    requires v.place == FirstPlace(c.th.op, |c.cells|, dice) && KeyAt(c.cells, v.place, v.key)
    ensures Goes(c, Hunted(c, [v], |c.cells|))
  {
    var h := |c.cells|;
    LowFull(c, WIDTH);
    ThenTo(c, At(c, RoomHigh(WIDTH)), ANY, At(c, Evict));
    ThenEvict(c, At(c, Evict), dice, v);
    var e := c.(th := c.th.(pc := Unlock(RowLocks(c.th, h), Hunt), path := [v], budget := h));
    ThenHunt(c, e);
    assert Hunted(e, [v], h) == Hunted(c, [v], h);
  }

  /** Looking through the other row of the last victim as far as column `n`. */
  lemma Probes(c: Config, n: nat)
    requires Shaped(c.cells) && c.th.pc == WantProbe && c.th.held == map[MAIN := Exclusive]
    requires n <= WIDTH && FullBefore(c.cells[ProbeRow(c.th, |c.cells|)], n)
    ensures Goes(c, c.(th := c.th.(pc := Probe(n),
            held := map[MAIN := Exclusive][RowLock(ProbeRow(c.th, |c.cells|)) := Shared])))
  {
    var d := c.(th := Taken(c.th, |c.cells|));
    GoesNowhere(c);
    Takes(c, c);
    assert ProbeRow(d.th, |c.cells|) == ProbeRow(c.th, |c.cells|);
    ProbeTo(d, 0, n);
    GoesOn(c, d, At(d, Probe(n)));
  }

  lemma ProbeDone(c: Config, d: Config, then_: After)
    requires |d.cells| == |c.cells| >= 2
    requires Goes(c, d.(th := d.th.(pc := Unlock([RowLock(ProbeRow(d.th, |d.cells|))], then_))))
    requires d.th.held == map[MAIN := Exclusive][RowLock(ProbeRow(d.th, |d.cells|)) := Shared]
    ensures Goes(c, d.(th := d.th.(pc := Unlock([], then_), held := map[MAIN := Exclusive])))
  {
    var l := RowLock(ProbeRow(d.th, |d.cells|));
    var e := d.(th := d.th.(pc := Unlock([l], then_)));
    assert [l][1..] == [];
    ThenTo(c, e, ANY, d.(th := d.th.(pc := Unlock([], then_), held := d.th.held - {l})));
    assert d.th.held - {l} == map[MAIN := Exclusive];
  }

  lemma ThenExtend(c: Config, d: Config, col: nat, key: Key)
    requires |d.cells| == |c.cells| >= 2 && Goes(c, d) && d.th.pc == Probe(WIDTH) && col < WIDTH
    requires KeyAt(d.cells, Place(ProbeRow(d.th, |d.cells|), col), key)
    requires d.th.held == map[MAIN := Exclusive][RowLock(ProbeRow(d.th, |d.cells|)) := Shared]
    ensures Goes(c, d.(th := d.th.(pc := Unlock([], Extend(col, key)), held := map[MAIN := Exclusive])))
  {
    var e := At(d, Unlock([RowLock(ProbeRow(d.th, |d.cells|))], Extend(col, key)));
    ThenTo(c, d, Dice(true, col), e);
    ProbeDone(c, d, Extend(col, key));
  }

  lemma ThenLonger(c: Config, d: Config, col: nat, key: Key)
    requires |d.cells| == |c.cells| >= 2 && Goes(c, d) && d.th.pc == Unlock([], Extend(col, key)) && d.th.budget > 0
    requires d.th.held == map[MAIN := Exclusive]
    ensures Goes(c, Hunted(d, d.th.path + [Victim(Place(ProbeRow(d.th, |d.cells|), col), key)], d.th.budget - 1))
  {
    ThenTo(c, d, ANY, Hunted(d, d.th.path + [Victim(Place(ProbeRow(d.th, |d.cells|), col), key)], d.th.budget - 1));
  }

  /** The row is full: the entry at column `col` is evicted next. */
  lemma Extends(c: Config, col: nat, key: Key)
    requires Shaped(c.cells) && c.th.pc == WantProbe && c.th.held == map[MAIN := Exclusive] && c.th.budget > 0
    requires FullBefore(c.cells[ProbeRow(c.th, |c.cells|)], WIDTH) && col < WIDTH
    requires KeyAt(c.cells, Place(ProbeRow(c.th, |c.cells|), col), key)
    ensures Goes(c, Hunted(c, c.th.path + [Victim(Place(ProbeRow(c.th, |c.cells|), col), key)], c.th.budget - 1))
  {
    var row := ProbeRow(c.th, |c.cells|);
    var d := c.(th := c.th.(pc := Probe(WIDTH), held := map[MAIN := Exclusive][RowLock(row) := Shared]));
    Probes(c, WIDTH);
    assert ProbeRow(d.th, |c.cells|) == row;
    ThenExtend(c, d, col, key);
    var e := d.(th := d.th.(pc := Unlock([], Extend(col, key)), held := map[MAIN := Exclusive]));
    assert ProbeRow(e.th, |c.cells|) == row;
    ThenLonger(c, e, col, key);
  }

  function Executing(c: Config, free: Place): Config {
    c.(th := c.th.(pc := PopPath, free := free, trail := Trail(c.th.path, free)))
  }

  lemma ThenExploit(c: Config, d: Config, col: nat)
    requires |d.cells| == |c.cells| >= 2 && Goes(c, d) && d.th.pc == Probe(col) && col < WIDTH
    requires Peek(d.cells, Place(ProbeRow(d.th, |d.cells|), col)).Empty?
    requires d.th.held == map[MAIN := Exclusive][RowLock(ProbeRow(d.th, |d.cells|)) := Shared]
    ensures Goes(c, d.(th := d.th.(pc := Unlock([], Exploit(col)), held := map[MAIN := Exclusive])))
  {
    var e := At(d, Unlock([RowLock(ProbeRow(d.th, |d.cells|))], Exploit(col)));
    ThenTo(c, d, ANY, e);
    ProbeDone(c, d, Exploit(col));
  }

  lemma ThenExecute(c: Config, d: Config, col: nat)
    requires |d.cells| == |c.cells| >= 2 && Goes(c, d) && d.th.pc == Unlock([], Exploit(col))
    ensures Goes(c, Executing(d, Place(ProbeRow(d.th, |d.cells|), col)))
  {
    ThenTo(c, d, ANY, Executing(d, Place(ProbeRow(d.th, |d.cells|), col)));
  }

  /** The row has room: the path ends there. */
  lemma Exploits(c: Config, col: nat)
    requires Shaped(c.cells) && c.th.pc == WantProbe && c.th.held == map[MAIN := Exclusive]
    requires col < WIDTH && FullBefore(c.cells[ProbeRow(c.th, |c.cells|)], col)
    requires Peek(c.cells, Place(ProbeRow(c.th, |c.cells|), col)).Empty?
    ensures Goes(c, Executing(c, Place(ProbeRow(c.th, |c.cells|), col)))
  {
    var row := ProbeRow(c.th, |c.cells|);
    var d := c.(th := c.th.(pc := Probe(col), held := map[MAIN := Exclusive][RowLock(row) := Shared]));
    Probes(c, col);
    assert ProbeRow(d.th, |c.cells|) == row;
    ThenExploit(c, d, col);
    var e := d.(th := d.th.(pc := Unlock([], Exploit(col)), held := map[MAIN := Exclusive]));
    assert ProbeRow(e.th, |c.cells|) == row;
    ThenExecute(c, e, col);
  }

  lemma NextVictim(m: Matrix, path: seq<Victim>, free: Place, n: nat, th: Thread)
    requires Shaped(m) && Searchable(m, path, free) && 0 < n < |path| && th.path == path[..n]
    ensures ProbeRow(th, |m|) == path[n].place.row < |m| && path[n].place.col < WIDTH
    ensures FullBefore(m[path[n].place.row], WIDTH) && KeyAt(m, path[n].place, path[n].key)
    ensures th.path + [path[n]] == path[..n + 1]
  {
    assert path[n - 1 + 1].place.row == OtherHome(path[n - 1].key, |m|, path[n - 1].place.row);
    assert GoodVictim(path[n], |m|);
    assert th.path[|th.path| - 1] == path[n - 1];
  }

  lemma ExtendsTo(c: Config, v: Victim)
    requires Shaped(c.cells) && c.th.pc == WantProbe && c.th.held == map[MAIN := Exclusive] && c.th.budget > 0
    requires ProbeRow(c.th, |c.cells|) == v.place.row && v.place.col < WIDTH && KeyAt(c.cells, v.place, v.key)
    requires FullBefore(c.cells[v.place.row], WIDTH)
    ensures Goes(c, Hunted(c, c.th.path + [v], c.th.budget - 1))
  {
    Extends(c, v.place.col, v.key);
  }

  lemma {:induction false} Follows(c: Config, path: seq<Victim>, free: Place, n: nat)
    requires Shaped(c.cells) && Searchable(c.cells, path, free) && 0 < n <= |path| <= |c.cells| + 1
    requires c.th.pc == WantProbe && c.th.held == map[MAIN := Exclusive]
    requires c.th.path == path[..n] && c.th.budget == |c.cells| + 1 - n
    ensures Goes(c, Hunted(c, path, |c.cells| + 1 - |path|))
    decreases |path| - n
  {
    if n == |path| {
      assert path[..n] == path;
      assert c == Hunted(c, path, |c.cells| + 1 - |path|);
      GoesNowhere(c);
    } else {
      NextVictim(c.cells, path, free, n, c.th);
      ExtendsTo(c, path[n]);
      var d := Hunted(c, path[..n + 1], |c.cells| - n);
      Follows(d, path, free, n + 1);
      GoesOn(c, d, Hunted(d, path, |c.cells| + 1 - |path|));
    }
  }

  // ----- executing the path

  function Popped(c: Config): Config
    requires c.th.path != []
  {
    c.(th := c.th.(pc := WantFirst, cur := c.th.path[|c.th.path| - 1], path := c.th.path[..|c.th.path| - 1]))
  }

  function RowsTaken(c: Config): Config {
    c.(th := c.th.(pc := CheckSwing, held := SwingHeld(c.th)))
  }

  lemma TakesTwo(c: Config)
    requires |c.cells| >= 2 && c.th.pc == WantFirst && c.th.held == map[MAIN := Exclusive]
    ensures Goes(c, RowsTaken(c))
  {
    GoesNowhere(c);
    Takes(c, c);
    var d := c.(th := c.th.(pc := WantSecond, held := map[MAIN := Exclusive][RowLock(FirstRow(c.th)) := Exclusive]));
    Takes(c, d);
  }

  /** From the pop to the guard: both rows are locked, the lower one first. */
  lemma Pops(c: Config)
    requires |c.cells| >= 2 && c.th.pc == PopPath && c.th.path != [] && c.th.held == map[MAIN := Exclusive]
    ensures Goes(c, RowsTaken(Popped(c)))
  {
    GoesNowhere(c);
    ThenTo(c, c, ANY, Popped(c));
    TakesTwo(Popped(c));
    GoesOn(c, Popped(c), RowsTaken(Popped(c)));
  }

  lemma ThenNext(c: Config, d: Config)
    requires |d.cells| == |c.cells| >= 2 && Goes(c, d) && d.th.pc == Unlock([], Swung)
    ensures Goes(c, d.(th := d.th.(pc := PopPath, free := d.th.cur.place)))
  {
    ThenTo(c, d, ANY, d.(th := d.th.(pc := PopPath, free := d.th.cur.place)));
  }

  lemma ThenSwung(c: Config, d: Config)
    requires |d.cells| == |c.cells| >= 2 && Goes(c, d) && d.th.pc == Unlock(SwingLocks(d.th), Swung)
    requires d.th.held == SwingHeld(d.th)
    ensures Goes(c, d.(th := d.th.(pc := PopPath, held := map[MAIN := Exclusive], free := d.th.cur.place)))
  {
    var rows := SwingLocks(d.th);
    Releases(c, d);
    assert d.th.held - (set l | l in rows) == map[MAIN := Exclusive];
    ThenNext(c, d.(th := d.th.(pc := Unlock([], Swung), held := map[MAIN := Exclusive])));
  }

  lemma ClearsOld(c: Config)
    requires |c.cells| >= 2 && c.th.pc == ClearOld
    ensures Alone(c, ANY) == Config(Poke(c.cells, c.th.cur.place, Empty),
            c.th.(pc := FillNew(Peek(c.cells, c.th.cur.place))))
  {
  }

  lemma FillsNew(c: Config)
    requires |c.cells| >= 2 && c.th.pc.FillNew?
    ensures Alone(c, ANY) == Config(Poke(c.cells, c.th.free, c.th.pc.moved), c.th.(pc := Settle))
  {
  }

  lemma Settles(c: Config)
    requires |c.cells| >= 2 && c.th.pc == Settle
    ensures Alone(c, ANY) == At(c, Unlock(SwingLocks(c.th), Swung))
  {
  }

  lemma PokeTwice(m: Matrix, from: Place, to: Place)
    requires Shaped(m) && InTable(from, |m|) && InTable(to, |m|)
    ensures Poke(Poke(m, from, Empty), to, Peek(m, from)) == Moved(m, from, to)
  {
  }

  /** The two writes of a swing, and the token step. */
  lemma Writes(c: Config)
    requires Shaped(c.cells) && c.th.pc == ClearOld && InTable(c.th.cur.place, |c.cells|)
             && InTable(c.th.free, |c.cells|)
    ensures Goes(c, Config(Moved(c.cells, c.th.cur.place, c.th.free), c.th.(pc := Unlock(SwingLocks(c.th), Swung))))
  {
    var x := Peek(c.cells, c.th.cur.place);
    var cleared := Config(Poke(c.cells, c.th.cur.place, Empty), c.th.(pc := FillNew(x)));
    var filled := Config(Moved(c.cells, c.th.cur.place, c.th.free), c.th.(pc := Settle));
    PokeTwice(c.cells, c.th.cur.place, c.th.free);
    ClearsOld(c);
    FillsNew(cleared);
    Settles(filled);
    GoesNowhere(c);
    ThenTo(c, c, ANY, cleared);
    ThenTo(c, cleared, ANY, filled);
    ThenTo(c, filled, ANY, At(filled, Unlock(SwingLocks(c.th), Swung)));
  }

  /** The guard and what it guards. */
  lemma Guarded(c: Config)
    requires Shaped(c.cells) && c.th.pc == CheckSwing && InTable(c.th.cur.place, |c.cells|)
             && InTable(c.th.free, |c.cells|)
    requires c.th.cur.place.row != c.th.free.row
    ensures Goes(c, Config(SwungOnce(c.cells, c.th.cur, c.th.free), c.th.(pc := Unlock(SwingLocks(c.th), Swung))))
  {
    var moved := Config(SwungOnce(c.cells, c.th.cur, c.th.free), c.th.(pc := Unlock(SwingLocks(c.th), Swung)));
    if KeyAt(c.cells, c.th.cur.place, c.th.cur.key) && Peek(c.cells, c.th.free).Empty? {
      Moves(c, ClearOld);
      Writes(At(c, ClearOld));
      GoesOn(c, At(c, ClearOld), moved);
    } else {
      Moves(c, Unlock(SwingLocks(c.th), Swung));
    }
  }

  /** One victim dealt with. */
  function Swings(c: Config): Config
    requires Shaped(c.cells) && c.th.path != []
    requires InTable(c.th.path[|c.th.path| - 1].place, |c.cells|) && InTable(c.th.free, |c.cells|)
  {
    var v := c.th.path[|c.th.path| - 1];
    Config(SwungOnce(c.cells, v, c.th.free), c.th.(path := c.th.path[..|c.th.path| - 1], cur := v, free := v.place))
  }

  lemma SwingsOn(c: Config, d: Config)
    requires |d.cells| == |c.cells| && Goes(c, d) && d.th.pc == CheckSwing && d.th.held == SwingHeld(d.th)
    requires Shaped(d.cells) && InTable(d.th.cur.place, |d.cells|) && InTable(d.th.free, |d.cells|)
    requires d.th.cur.place.row != d.th.free.row
    ensures Goes(c, Config(SwungOnce(d.cells, d.th.cur, d.th.free),
                           d.th.(pc := PopPath, held := map[MAIN := Exclusive], free := d.th.cur.place)))
  {
    var e := Config(SwungOnce(d.cells, d.th.cur, d.th.free), d.th.(pc := Unlock(SwingLocks(d.th), Swung)));
    Guarded(d);
    GoesOn(c, d, e);
    ThenSwung(c, e);
  }

  lemma OneSwing(c: Config)
    requires Shaped(c.cells) && c.th.pc == PopPath && c.th.path != [] && c.th.held == map[MAIN := Exclusive]
    requires Leads(c.th.path, c.th.free, |c.cells|)
    ensures GoodVictim(c.th.path[|c.th.path| - 1], |c.cells|) && Goes(c, Swings(c))
  {
    assert GoodVictim(c.th.path[|c.th.path| - 1], |c.cells|);
    Pops(c);
    SwingsOn(c, RowsTaken(Popped(c)));
  }

  /** The whole path, from its free end. */
  lemma {:induction false} Executes(c: Config) returns (d: Config)
    requires Shaped(c.cells) && c.th.pc == PopPath && c.th.held == map[MAIN := Exclusive]
    requires Leads(c.th.path, c.th.free, |c.cells|)
    ensures Goes(c, d) && d.cells == Executed(c.cells, c.th.path, c.th.free)
    ensures d.th == c.th.(path := [], cur := d.th.cur, free := d.th.free)
    decreases |c.th.path|
  {
    if c.th.path == [] {
      GoesNowhere(c);
      d := c;
    } else {
      OneSwing(c);
      LeadsShorter(c.th.path, c.th.free, |c.cells|);
      d := Executes(Swings(c));
      GoesOn(c, Swings(c), d);
    }
  }
}
