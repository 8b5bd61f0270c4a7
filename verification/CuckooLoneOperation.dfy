/** What each operation of the hash table answers and leaves behind when nobody is in its way. */
module CuckooLoneOperation {
  import opened Linearizability
  import opened CuckooMatrix
  import opened CuckooThreads
  import opened CuckooInvariant
  import opened CuckooShared
  import opened CuckooSequential
  import opened CuckooTheorems
  import opened CuckooLeak
  import opened CuckooAlone
  import opened CuckooLoneInsert

  // ----- looking for the key

  ghost predicate Fresh(c: Config) {
    Shaped(c.cells) && c.th == NewThread(c.th.op)
  }

  function AtLow(c: Config, i: nat): Config
    requires |c.cells| >= 2
  {
    var held := Base(c.th.op)[LowLock(c.th, |c.cells|) := SeekMode(c.th.op)];
    c.(th := c.th.(pc := SeekLow(i), held := held))
  }

  function AtHigh(c: Config, i: nat): Config
    requires |c.cells| >= 2
  {
    var m := SeekMode(c.th.op);
    var held := Base(c.th.op)[LowLock(c.th, |c.cells|) := m][HighLock(c.th, |c.cells|) := m];
    c.(th := c.th.(pc := SeekHigh(i), held := held))
  }

  lemma Begins(c: Config)
    requires Fresh(c)
    ensures Goes(c, c.(th := c.th.(pc := WantLow, held := Base(c.th.op))))
  {
    if c.th.op.Insert? {
      Started(c);
    } else {
      Moves(c, WantLow);
    }
  }

  /** The first `n` cells of the lower row do not hold the key. */
  lemma LooksLow(c: Config, n: nat)
    requires Fresh(c) && n <= WIDTH && NotBefore(c.cells[Low(c.th.op.key, |c.cells|)], c.th.op.key, n)
    ensures Goes(c, AtLow(c, n))
  {
    Begins(c);
    Takes(c, c.(th := c.th.(pc := WantLow, held := Base(c.th.op))));
    SeekLowTo(AtLow(c, 0), 0, n);
    GoesOn(c, AtLow(c, 0), AtLow(c, n));
  }

  lemma TurnsHigh(c: Config)
    requires |c.cells| >= 2 && Goes(c, AtLow(c, WIDTH))
    ensures Goes(c, AtHigh(c, 0))
  {
    var d := AtLow(c, WIDTH);
    ThenTo(c, d, ANY, At(d, WantHigh));
    Takes(c, At(d, WantHigh));
  }

  /** Nor does the lower row, nor do the first `n` cells of the higher. */
  lemma LooksHigh(c: Config, n: nat)
    requires Fresh(c) && NotInRow(c.cells[Low(c.th.op.key, |c.cells|)], c.th.op.key)
    requires n <= WIDTH && NotBefore(c.cells[High(c.th.op.key, |c.cells|)], c.th.op.key, n)
    ensures Goes(c, AtHigh(c, n))
  {
    LooksLow(c, WIDTH);
    TurnsHigh(c);
    SeekHighTo(AtHigh(c, 0), 0, n);
    GoesOn(c, AtHigh(c, 0), AtHigh(c, n));
  }

  // ----- the answer

  /** What an operation leaves that has found its key at `p`, or not at all. */
  function Answered(c: Config, p: Option<Place>): Config {
    var th := c.th.(pc := Done, held := map[]);
    match c.th.op
    case Read(_) =>
      c.(th := th.(outcome := Some(Got(if p.Some? && Peek(c.cells, p.value).Full?
                                       then Some(Peek(c.cells, p.value).value) else None))))
    case Delete(_) =>
      Config(if p.Some? then Poke(c.cells, p.value, Empty) else c.cells, th.(outcome := Some(Deleted)))
    case Insert(k, v) =>
      Config(if p.Some? then Poke(c.cells, p.value, Full(k, v)) else c.cells, th.(outcome := Some(Inserted(true))))
  }

  /** The key has been found, and `both` rows or only the lower one are locked. */
  ghost predicate FoundAt(c: Config, d: Config, p: Place, both: bool) {
    && |c.cells| >= 2 && d == (if both then AtHigh(c, p.col) else AtLow(c, p.col)) && p.col < WIDTH
    && p.row == (if both then High(c.th.op.key, |c.cells|) else Low(c.th.op.key, |c.cells|))
    && KeyAt(c.cells, p, c.th.op.key)
  }

  lemma FindsKey(c: Config, d: Config, p: Place, both: bool)
    requires FoundAt(c, d, p, both) && Goes(c, d)
    ensures Goes(c, d.(th := AtKey(d.th, |d.cells|, p, Peek(d.cells, p), both).0))
  {
    ThenTo(c, d, ANY, d.(th := AtKey(d.th, |d.cells|, p, Peek(d.cells, p), both).0));
  }

  lemma HeldIsTodo(c: Config, both: bool)
    requires |c.cells| >= 2
    ensures var d := if both then AtHigh(c, 0) else AtLow(c, 0);
            forall l | l in d.th.held :: l in Todo(d.th, |d.cells|, both)
  {
  }

  /** From the key to the return. */
  lemma AnswersKey(c: Config, d: Config, p: Place, both: bool)
    requires FoundAt(c, d, p, both) && Goes(c, d) && c.th == NewThread(c.th.op)
    ensures Goes(c, Answered(c, Some(p)))
  {
    var e := d.(th := AtKey(d.th, |d.cells|, p, Peek(d.cells, p), both).0);
    FindsKey(c, d, p, both);
    HeldIsTodo(c, both);
    if c.th.op.Read? {
      ThenLeave(c, e);
    } else {
      ThenStore(c, e);
      ThenLeave(c, Config(Poke(e.cells, e.th.pc.place, e.th.pc.cell), e.th.(pc := Unlock(e.th.pc.todo, Leave))));
    }
  }

  /** The cell in which an operation finds its key: the first that has it, the lower row first. */
  ghost predicate FirstAt(c: Config, p: Place)
    requires Shaped(c.cells)
  {
    var k, h := c.th.op.key, |c.cells|;
    && p.col < WIDTH && KeyAt(c.cells, p, k)
    && (|| (p.row == Low(k, h) && NotBefore(c.cells[Low(k, h)], k, p.col))
        || (p.row == High(k, h) && NotInRow(c.cells[Low(k, h)], k) && NotBefore(c.cells[High(k, h)], k, p.col)))
  }

  /** Any operation that finds its key: a read answers the value, a delete empties the cell, an
      insert overwrites it; each releases its locks and returns. */
  lemma LoneHit(c: Config, p: Place)
    requires Fresh(c) && FirstAt(c, p)
    ensures Goes(c, Answered(c, Some(p)))
  {
    if p.row == Low(c.th.op.key, |c.cells|) {
      LooksLow(c, p.col);
      AnswersKey(c, AtLow(c, p.col), p, false);
    } else {
      LooksHigh(c, p.col);
      AnswersKey(c, AtHigh(c, p.col), p, true);
    }
  }

  /** A read or delete that does not find its key. */
  lemma LoneMiss(c: Config)
    requires Fresh(c) && !c.th.op.Insert?
    requires NotInRow(c.cells[Low(c.th.op.key, |c.cells|)], c.th.op.key)
    requires NotInRow(c.cells[High(c.th.op.key, |c.cells|)], c.th.op.key)
    ensures Goes(c, Answered(c, None))
  {
    var d := AtHigh(c, WIDTH);
    var e := d.(th := NotFound(d.th, |d.cells|).0);
    LooksHigh(c, WIDTH);
    ThenTo(c, d, ANY, e);
    HeldIsTodo(c, true);
    ThenLeave(c, e);
  }

  // ----- on a table that stands for a map

  lemma {:induction false} FirstIn(row: Row, k: Key, n: nat) returns (i: nat)
    requires n <= |row| && NotBefore(row, k, n) && !NotInRow(row, k)
    ensures i < |row| && row[i].Full? && row[i].key == k && NotBefore(row, k, i)
    decreases |row| - n
  {
    if row[n].Full? && row[n].key == k {
      i := n;
    } else {
      i := FirstIn(row, k, n + 1);
    }
  }

  lemma KeyIsFound(c: Config, abs: Map) returns (p: Place)
    requires Represents(c.cells, abs) && c.th.op.key in abs
    ensures FirstAt(c, p) && Holds(c.cells, p.row, p.col, c.th.op.key)
    ensures Peek(c.cells, p).value == abs[c.th.op.key]
  {
    var k, h := c.th.op.key, |c.cells|;
    if NotInRow(c.cells[Low(k, h)], k) {
      if NotInRow(c.cells[High(k, h)], k) {
        QueryNone(c.cells, abs, k);
      }
      var i := FirstIn(c.cells[High(k, h)], k, 0);
      p := Place(High(k, h), i);
    } else {
      var i := FirstIn(c.cells[Low(k, h)], k, 0);
      p := Place(Low(k, h), i);
    }
    assert Holds(c.cells, p.row, p.col, k);
  }

  /** The answer of the sequential map. */
  function AnswerOf(op: Op, abs: Map): Outcome {
    match op
    case Read(k) => Got(if k in abs then Some(abs[k]) else None)
    case Delete(_) => Deleted
    case Insert(_, _) => Inserted(true)
  }

  lemma AnsweredStandsFor(c: Config, abs: Map, p: Place)
    requires Represents(c.cells, abs) && Holds(c.cells, p.row, p.col, c.th.op.key)
    ensures Represents(Answered(c, Some(p)).cells, MapAfter(c.th.op, abs))
  {
    match c.th.op
    case Read(_) =>
    case Delete(k) => DeleteKey(c.cells, abs, k, p.row, p.col);
    case Insert(k, v) => UpdateKey(c.cells, abs, k, v, p.row, p.col);
  }

  lemma LonePresent(c: Config, abs: Map) returns (d: Config)
    requires Fresh(c) && Represents(c.cells, abs) && c.th.op.key in abs
    ensures Goes(c, d) && d.th == c.th.(pc := Done, outcome := Some(AnswerOf(c.th.op, abs)))
    ensures Represents(d.cells, MapAfter(c.th.op, abs))
  {
    var p := KeyIsFound(c, abs);
    LoneHit(c, p);
    AnsweredStandsFor(c, abs, p);
    d := Answered(c, Some(p));
  }

  lemma LonePlace(c: Config, abs: Map) returns (d: Config)
    requires Fresh(c) && Represents(c.cells, abs) && c.th.op.Insert? && c.th.op.key !in abs
    requires !HomesFull(c.cells, c.th.op.key)
    ensures Goes(c, d) && d.th == c.th.(pc := Done, outcome := Some(Inserted(true)))
    ensures Represents(d.cells, abs[c.th.op.key := c.th.op.value])
  {
    Absent(c, abs);
    var p := SomeRoom(c);
    PlainInsert(c, p);
    InsertKey(c.cells, abs, c.th.op.key, c.th.op.value, p.row, p.col);
    d := Completed(c, p);
  }

  /** An operation that nobody disturbs returns the answer of the sequential map, releases all its
      locks and leaves a table that stands for the new map.  Only an insert of an absent key
      between full home rows may do otherwise. */
  lemma LoneOperation(c: Config, abs: Map) returns (d: Config)
    requires Fresh(c) && Represents(c.cells, abs)
    requires c.th.op.Insert? ==> c.th.op.key in abs || !HomesFull(c.cells, c.th.op.key)
    ensures Goes(c, d) && d.th == c.th.(pc := Done, outcome := Some(AnswerOf(c.th.op, abs)))
    ensures Represents(d.cells, MapAfter(c.th.op, abs))
  {
    if c.th.op.key in abs {
      d := LonePresent(c, abs);
    } else if c.th.op.Insert? {
      d := LonePlace(c, abs);
    } else {
      KeyIsAbsent(c.cells, abs, c.th.op.key);
      LoneMiss(c);
      assert abs - {c.th.op.key} == abs;
      d := Answered(c, None);
    }
  }

  // ----- in a run

  /** When nobody else holds a row, memory is up to date. */
  lemma UnhinderedMemory(h: nat, ops: seq<Op>, s: State, t: nat)
    requires Reached(h, ops, s) && Unhindered(s, t) && s.threads[t] == NewThread(s.threads[t].op)
    ensures s.cells == s.matrix && Represents(s.cells, s.abs)
  {
    var run :| Run(h, ops, run) && run[|run| - 1] == s;
    RunInv(h, ops, run, |run| - 1);
    forall r | 0 <= r < |s.cells| ensures s.cells[r] == s.matrix[r] {
      UnlockedRowClean(s, r);
    }
  }

  /** The same in any run, for an operation that has yet to begin while the others hold nothing. */
  lemma LoneOperationInARun(h: nat, ops: seq<Op>, s: State, t: nat) returns (s': State)
    requires Reached(h, ops, s) && Unhindered(s, t) && s.threads[t] == NewThread(s.threads[t].op)
    requires |s.cells| >= 2 && Shaped(s.cells)
    requires var op := s.threads[t].op; op.Insert? ==> op.key in s.abs || !HomesFull(s.cells, op.key)
    ensures Reached(h, ops, s') && Represents(s'.cells, MapAfter(s.threads[t].op, s.abs))
    ensures s'.threads == s.threads[t := s.threads[t].(pc := Done, outcome := Some(AnswerOf(s.threads[t].op, s.abs)))]
  {
    UnhinderedMemory(h, ops, s, t);
    var d := LoneOperation(Config(s.cells, s.threads[t]), s.abs);
    s' := Reaches(h, ops, s, t, d);
  }
}
