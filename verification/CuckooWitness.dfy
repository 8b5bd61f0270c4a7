/** Runs from the empty table in which the rare exits of examples/cuckoo_hash_table/cuckoo.rs are
    taken: an insert that returns with its locks, and a swing whose guard fails. */
module CuckooWitness {
  import opened Linearizability
  import opened CuckooMatrix
  import opened CuckooThreads
  import opened CuckooInvariant
  import opened CuckooSequential
  import opened CuckooTheorems
  import opened CuckooLeak
  import opened CuckooAlone
  import opened CuckooLoneInsert
  import opened CuckooLoneOperation

  // ----- filling the table

  /** Keys that differ by a multiple of this have the same home rows. */
  const PERIOD: nat := 1099514773504

  /** The keys of `RepeatTable` in the order of their cells. */
  function FillKey(n: nat): Key
    requires n < 12
  {
    if n < 4 then PERIOD * n
    else if n == 4 then 2097153
    else if n == 5 then 733010198529
    else if n < 8 then 2097153 + PERIOD * (n - 5)
    else 733013344259 + PERIOD * (n - 8)
  }

  function FillPlace(n: nat): Place
    requires n < 12
  {
    if n < 4 then Place(0, n) else if n < 8 then Place(1, n - 4) else Place(3, n - 8)
  }

  /** How many keys precede the cell, if it is ever filled. */
  function Rank(r: nat, c: nat): nat {
    if r == 0 then c else if r == 1 then 4 + c else if r == 3 then 8 + c else 12
  }

  function FillCell(n: nat, r: nat, c: nat): Cell {
    if Rank(r, c) < n && Rank(r, c) < 12 then Full(FillKey(Rank(r, c)), 0) else Empty
  }

  function Filled(n: nat): Matrix {
    seq(HEIGHT, r requires 0 <= r < HEIGHT => seq(WIDTH, c requires 0 <= c < WIDTH => FillCell(n, r, c)))
  }

  function Filler(n: nat): Op
    requires n < 12
  {
    Insert(FillKey(n), 0)
  }

  lemma FilledIsRepeatTable()
    ensures Filled(12) == RepeatTable()
  {
    forall r | 0 <= r < HEIGHT ensures Filled(12)[r] == RepeatTable()[r] {
    }
  }

  /** Every key goes to row 0 as long as it has room, but the sixth to row 1. */
  lemma FillHomes(n: nat)
    requires n < 12
    ensures Low(FillKey(n), HEIGHT) == if n == 5 then 1 else 0
    ensures High(FillKey(n), HEIGHT) == if n < 8 then (if n == 5 then 2 else 1) else 3
  {
    var k := FillKey(n);
    assert PERIOD == HEIGHT * 1048579;
    assert k % HEIGHT == if n < 4 then 0 else if n < 8 then 1 else 3;
    assert k % 1048579 % (HEIGHT - 1) ==
        if n < 4 || n == 5 then 0 else if n < 8 then 1048574 else 1048572;
  }

  lemma FillAbsent(n: nat, r: nat)
    requires n < 12 && r < HEIGHT
    ensures NotInRow(Filled(n)[r], FillKey(n))
  {
    forall c | 0 <= c < WIDTH && Filled(n)[r][c].Full? ensures Filled(n)[r][c].key != FillKey(n) {
      assert Rank(r, c) < n;
    }
  }

  lemma FillNext(n: nat)
    requires n < 12
    ensures Poke(Filled(n), FillPlace(n), Full(FillKey(n), 0)) == Filled(n + 1)
  {
    var p := FillPlace(n);
    forall r, c | 0 <= r < HEIGHT && 0 <= c < WIDTH ensures (Rank(r, c) == n <==> r == p.row && c == p.col) {
    }
    var m := Poke(Filled(n), p, Full(FillKey(n), 0));
    forall r | 0 <= r < HEIGHT ensures m[r] == Filled(n + 1)[r] {
    }
  }

  lemma FillRoom(n: nat, th: Thread)
    requires n < 12 && th.op == Filler(n)
    ensures Shaped(Filled(n)) && Misses(Config(Filled(n), th)) && RoomAt(Config(Filled(n), th), FillPlace(n))
  {
    FillHomes(n);
    FillAbsent(n, Low(FillKey(n), HEIGHT));
    FillAbsent(n, High(FillKey(n), HEIGHT));
  }

  // ----- the table is reached

  predicate Fills(ops: seq<Op>) {
    |ops| >= 12 && forall n | 0 <= n < 12 :: ops[n] == Filler(n)
  }

  /** The first `n` operations are over and hold nothing, the others have not begun. */
  predicate FilledUpTo(s: State, ops: seq<Op>, n: nat) {
    && n <= 12 && s.cells == Filled(n) && |s.threads| == |ops|
    && (forall u | 0 <= u < |ops| :: s.threads[u].held == map[])
    && (forall u | n <= u < |ops| :: s.threads[u] == NewThread(ops[u]))
  }

  lemma FillNothing(ops: seq<Op>)
    ensures Reached(HEIGHT, ops, Init(HEIGHT, ops)) && FilledUpTo(Init(HEIGHT, ops), ops, 0)
  {
    var s := Init(HEIGHT, ops);
    assert Run(HEIGHT, ops, [s]) && [s][|[s]| - 1] == s;
    forall r | 0 <= r < HEIGHT ensures s.cells[r] == Filled(0)[r] {
    }
  }

  lemma FillOne(ops: seq<Op>, s: State, n: nat) returns (s': State)
    requires Fills(ops) && n < 12 && Reached(HEIGHT, ops, s) && FilledUpTo(s, ops, n)
    ensures Reached(HEIGHT, ops, s') && FilledUpTo(s', ops, n + 1)
  {
    var c := Config(s.cells, s.threads[n]);
    FillRoom(n, c.th);
    FillNext(n);
    PlainInsert(c, FillPlace(n));
    s' := Reaches(HEIGHT, ops, s, n, Completed(c, FillPlace(n)));
  }

  lemma {:induction false} FillTable(ops: seq<Op>, n: nat) returns (s: State)
    requires Fills(ops) && n <= 12
    ensures Reached(HEIGHT, ops, s) && FilledUpTo(s, ops, n)
  {
    if n == 0 {
      FillNothing(ops);
      s := Init(HEIGHT, ops);
    } else {
      var s0 := FillTable(ops, n - 1);
      s := FillOne(ops, s0, n - 1);
    }
  }

  // ----- an insert that keeps its locks

  function LeakOps(): seq<Op> {
    seq(12, n requires 0 <= n < 12 => Filler(n)) + [Insert(NEWCOMER, 0)]
  }

  lemma RepeatTableIsLeaky()
    ensures Leaky(RepeatTable(), RepeatMap(), Insert(NEWCOMER, 0), Dice(false, 0), RepeatPath(), Place(2, 0))
  {
    RepeatedCellCanLeaveNoRoom();
    assert RepeatPath()[0].place == FirstPlace(Insert(NEWCOMER, 0), HEIGHT, Dice(false, 0));
  }

  lemma LeakFrom(ops: seq<Op>, s: State) returns (s': State)
    requires Reached(HEIGHT, ops, s) && s.cells == RepeatTable() && |s.cells| == HEIGHT && |s.threads| == |ops| == 13
    requires (forall u | 0 <= u < 13 :: s.threads[u].held == map[]) && s.threads[12] == NewThread(Insert(NEWCOMER, 0))
    ensures Reached(HEIGHT, ops, s') && |s'.threads| == 13
    ensures var th := s'.threads[12];
            && th.pc == Done && th.op == Insert(NEWCOMER, 0) && th.outcome == Some(Inserted(false))
            && th.held == AllLocks(th, HEIGHT) && th.trail == Trail(RepeatPath(), Place(2, 0))
  {
    RepeatTableIsLeaky();
    s' := LoneLeak(HEIGHT, ops, s, 12, RepeatMap(), Dice(false, 0), RepeatPath(), Place(2, 0));
  }

  /** A run from the empty table, of thirteen inserts one after the other, whose last insert fails
      on a path through one cell twice and returns with the main lock and both its row locks. */
  lemma LeakIsReachable() returns (run: seq<State>)
    ensures Run(HEIGHT, LeakOps(), run) && |run[|run| - 1].threads| == 13
    ensures var th := run[|run| - 1].threads[12];
            && th.pc == Done && th.op == Insert(NEWCOMER, 0) && th.outcome == Some(Inserted(false))
            && th.held == AllLocks(th, HEIGHT) && th.trail == Trail(RepeatPath(), Place(2, 0))
  {
    var ops := LeakOps();
    var s := FillTable(ops, 12);
    FilledIsRepeatTable();
    var s' := LeakFrom(ops, s);
    run :| Run(HEIGHT, ops, run) && run[|run| - 1] == s';
  }

  // ----- a swing whose guard fails

  /** The last victim. */
  const DELETED: Key := 733010198529

  function RaceOps(): seq<Op> {
    seq(12, n requires 0 <= n < 12 => Filler(n)) + [Insert(NEWCOMER, 0), Delete(DELETED)]
  }

  /** No cell twice: the key of row 1 is to go to row 2 and 0 to the cell it leaves. */
  function RacePath(): seq<Victim> {
    [Victim(Place(0, 0), 0), Victim(Place(1, 1), DELETED)]
  }

  lemma RaceHomes()
    ensures Low(NEWCOMER, HEIGHT) == 0 && High(NEWCOMER, HEIGHT) == 3 && Hash2(NEWCOMER, HEIGHT) == 0
    ensures Low(DELETED, HEIGHT) == 1 && OtherHome(DELETED, HEIGHT, 1) == 2
    ensures Home(0, HEIGHT, 0) && OtherHome(0, HEIGHT, 0) == 1
  {
  }

  lemma RacePathIsSearchable()
    ensures Searchable(RepeatTable(), RacePath(), Place(2, 0)) && NoRepeat(Trail(RacePath(), Place(2, 0)))
    ensures RacePath()[0].place == FirstPlace(Insert(NEWCOMER, 0), HEIGHT, Dice(false, 0))
    ensures NEWCOMER !in RepeatMap() && Low(NEWCOMER, HEIGHT) == 0 && High(NEWCOMER, HEIGHT) == 3
    ensures Low(DELETED, HEIGHT) == 1
  {
    RaceHomes();
    assert RepeatTable()[2] == RepeatRow(2);
  }

  /** The insert has found its path. */
  lemma RaceStart(ops: seq<Op>, s: State) returns (s': State)
    requires Reached(HEIGHT, ops, s) && s.cells == RepeatTable() && |s.threads| == |ops| == 14
    requires (forall u | 0 <= u < 14 :: s.threads[u].held == map[]) && s.threads[12] == NewThread(Insert(NEWCOMER, 0))
    ensures Reached(HEIGHT, ops, s') && s'.cells == s.cells && |s'.threads| == 14
    ensures s'.threads == s.threads[12 := s'.threads[12]] && s'.threads[12].held == map[MAIN := Exclusive]
    ensures s'.threads[12].pc == PopPath && s'.threads[12].path == RacePath()
    ensures s'.threads[12].free == Place(2, 0) && s'.threads[12].trail == Trail(RacePath(), Place(2, 0))
  {
    var c := Config(s.cells, s.threads[12]);
    RacePathIsSearchable();
    RepeatTableIsValid();
    Absent(c, RepeatMap());
    FindsPath(c, Dice(false, 0), RacePath(), Place(2, 0));
    s' := Reaches(HEIGHT, ops, s, 12, ReadyToSwing(c, RacePath(), Place(2, 0)));
  }

  /** The delete removes the last victim. */
  lemma RaceDelete(ops: seq<Op>, s: State) returns (s': State)
    requires Reached(HEIGHT, ops, s) && s.cells == RepeatTable() && |s.threads| == |ops| == 14
    requires forall u | 0 <= u < 14 && u != 12 :: s.threads[u].held == map[]
    requires s.threads[12].held == map[MAIN := Exclusive] && s.threads[13] == NewThread(Delete(DELETED))
    ensures Reached(HEIGHT, ops, s') && |s'.threads| == 14 && s'.threads[12] == s.threads[12]
    ensures forall u | 0 <= u < 14 && u != 12 :: s'.threads[u].held == map[]
    ensures s'.cells == Poke(s.cells, Place(1, 1), Empty)
  {
    RacePathIsSearchable();
    var c := Config(s.cells, s.threads[13]);
    LoneHit(c, Place(1, 1));
    s' := Reaches(HEIGHT, ops, s, 13, Answered(c, Some(Place(1, 1))));
  }

  /** The insert takes the two rows of its last victim. */
  lemma RaceSwing(ops: seq<Op>, s: State) returns (s': State)
    requires Reached(HEIGHT, ops, s) && |s.cells| == HEIGHT && |s.threads| == |ops| == 14
    requires forall u | 0 <= u < 14 && u != 12 :: s.threads[u].held == map[]
    requires s.threads[12].held == map[MAIN := Exclusive] && s.threads[12].pc == PopPath && s.threads[12].path != []
    ensures Reached(HEIGHT, ops, s') && |s'.threads| == 14 && s'.threads[12].pc == CheckSwing && s'.cells == s.cells
    ensures s'.threads[12].trail == s.threads[12].trail
    ensures s'.threads[12].cur == s.threads[12].path[|s.threads[12].path| - 1]
  {
    var c := Config(s.cells, s.threads[12]);
    Pops(c);
    s' := Reaches(HEIGHT, ops, s, 12, RowsTaken(Popped(c)));
  }

  lemma RaceTo(ops: seq<Op>, s: State) returns (s': State)
    requires Reached(HEIGHT, ops, s) && s.cells == RepeatTable() && |s.threads| == |ops| == 14
    requires forall u | 0 <= u < 14 :: s.threads[u].held == map[]
    requires s.threads[12] == NewThread(Insert(NEWCOMER, 0)) && s.threads[13] == NewThread(Delete(DELETED))
    ensures Reached(HEIGHT, ops, s') && |s'.threads| == 14 && s'.threads[12].pc == CheckSwing
    ensures NoRepeat(s'.threads[12].trail) && s'.threads[12].cur == Victim(Place(1, 1), DELETED)
    ensures !KeyAt(s'.cells, Place(1, 1), DELETED)
  {
    RacePathIsSearchable();
    var s1 := RaceStart(ops, s);
    var s2 := RaceDelete(ops, s1);
    s' := RaceSwing(ops, s2);
  }

  /** A run in which the guard of a swing fails although the path repeats no cell: the victim has
      been deleted since the search saw it. */
  lemma DeleteCanDefeatASwing() returns (run: seq<State>)
    ensures Run(HEIGHT, RaceOps(), run) && |run[|run| - 1].threads| == 14
    ensures var s := run[|run| - 1];
            var th := s.threads[12];
            && th.pc == CheckSwing && NoRepeat(th.trail)
            && th.cur == Victim(Place(1, 1), DELETED) && !KeyAt(s.cells, th.cur.place, th.cur.key)
  {
    var ops := RaceOps();
    var s := FillTable(ops, 12);
    FilledIsRepeatTable();
    var s' := RaceTo(ops, s);
    run :| Run(HEIGHT, ops, run) && run[|run| - 1] == s';
  }
}
