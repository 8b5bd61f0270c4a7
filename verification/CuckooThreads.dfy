/** `read`, `delete` and `insert` of examples/cuckoo_hash_table/cuckoo.rs as interleaved steps.
    Every lock operation, every look at a cell, every write of a row and every commit is one
    step of one operation; any number of operations run at once.

    `cells` are the rows in memory.  `matrix` holds the row values that stand for the map: it is
    what the source keeps in ghost row tokens.  A commit changes `matrix`; the row in memory
    follows one step later, under the same lock.  No step reads `matrix`. */
module CuckooThreads {
  import opened Linearizability
  import opened CuckooMatrix

  datatype Op = Read(key: Key) | Delete(key: Key) | Insert(key: Key, value: Value)
  datatype Outcome = Got(found: Option<Value>) | Deleted | Inserted(ok: bool)
  type History = seq<Event<Op, Outcome>>

  /** Lock 0 is the main write lock, lock r + 1 guards row r. */
  type Lock = nat
  const MAIN: Lock := 0
  function RowLock(r: nat): Lock { r + 1 }

  datatype Mode = Shared | Exclusive

  /** A step of the cuckoo path: the entry `key` at `place` is to be moved to its other row. */
  datatype Victim = Victim(place: Place, key: Key)

  /** What follows once all locks of an `Unlock` are released. */
  datatype After =
    | Leave                            // return to the caller
    | LeaveHolding                     // return to the caller with the locks still held
    | Hunt                             // look for room for the last victim
    | Extend(col: nat, key: Key)       // the other row was full: evict this entry too
    | Exploit(col: nat)                // the other row had room: execute the path
    | Swung                            // one victim was dealt with
    | Fail                             // the path search gave up

  datatype Pc =
    | Ready
    | WantMain
    | WantLow
    | SeekLow(i: nat)
    | WantHigh
    | SeekHigh(i: nat)
    | RoomLow(i: nat)
    | RoomHigh(i: nat)
    | Store(place: Place, cell: Cell, todo: seq<Lock>)
    | Unlock(todo: seq<Lock>, then_: After)
    | Evict
    | WantProbe
    | Probe(i: nat)
    | PopPath
    | WantFirst
    | WantSecond
    | CheckSwing
    | ClearOld
    | FillNew(moved: Cell)
    | Settle
    | Done
    | Panicked                         // an `unwrap` of an empty cell

  /** `trail` records the cells of the whole cuckoo path and of the free cell it ended in. */
  datatype Thread = Thread(
    op: Op, pc: Pc, held: map<Lock, Mode>, second: bool, budget: nat,
    path: seq<Victim>, cur: Victim, free: Place, trail: seq<Place>, outcome: Option<Outcome>)

  datatype State = State(cells: Matrix, matrix: Matrix, abs: Map, threads: seq<Thread>, history: History)

  /** The random choices: which home row, which column. */
  datatype Dice = Dice(first: bool, col: nat)

  // ----- reading and writing one cell

  function Peek(m: Matrix, p: Place): Cell {
    if p.row < |m| && p.col < |m[p.row]| then m[p.row][p.col] else Empty
  }

  function Poke(m: Matrix, p: Place, x: Cell): (m': Matrix)
    ensures |m'| == |m| && (Shaped(m) ==> Shaped(m'))
  {
    if p.row < |m| && p.col < |m[p.row]| then m[p.row := m[p.row][p.col := x]] else m
  }

  predicate KeyAt(m: Matrix, p: Place, k: Key) {
    Peek(m, p).Full? && Peek(m, p).key == k
  }

  // ----- locks

  function SeekMode(op: Op): Mode {
    if op.Read? then Shared else Exclusive
  }

  /** The row probed for the last victim of the path. */
  function ProbeRow(th: Thread, h: nat): (r: nat)
    requires h >= 2
    ensures r < h
  {
    if th.path == [] then 0
    else
      var v := th.path[|th.path| - 1];
      OtherHome(v.key, h, v.place.row)
  }

  function FirstRow(th: Thread): nat {
    if th.cur.place.row < th.free.row then th.cur.place.row else th.free.row
  }

  function SecondRow(th: Thread): nat {
    if th.cur.place.row < th.free.row then th.free.row else th.cur.place.row
  }

  /** The lock an operation is about to acquire, if that is its next step. */
  function Target(th: Thread, h: nat): Option<(Lock, Mode)>
    requires h >= 2
  {
    match th.pc
    case WantMain => Some((MAIN, Exclusive))
    case WantLow => Some((RowLock(Low(th.op.key, h)), SeekMode(th.op)))
    case WantHigh => Some((RowLock(High(th.op.key, h)), SeekMode(th.op)))
    case WantProbe => Some((RowLock(ProbeRow(th, h)), Shared))
    case WantFirst => Some((RowLock(FirstRow(th)), Exclusive))
    case WantSecond => Some((RowLock(SecondRow(th)), Exclusive))
    case _ => None
  }

  function Granted(pc: Pc): Pc {
    match pc
    case WantMain => WantLow
    case WantLow => SeekLow(0)
    case WantHigh => SeekHigh(0)
    case WantProbe => Probe(0)
    case WantFirst => WantSecond
    case _ => CheckSwing
  }

  predicate Compatible(held: map<Lock, Mode>, lock: Lock, mode: Mode) {
    lock in held ==> mode == Shared && held[lock] == Shared
  }

  predicate CanTake(s: State, t: nat, lock: Lock, mode: Mode) {
    forall u | 0 <= u < |s.threads| && u != t :: Compatible(s.threads[u].held, lock, mode)
  }

  predicate Enabled(s: State, t: nat, dice: Dice) {
    && |s.cells| >= 2 && t < |s.threads| && dice.col < WIDTH
    && s.threads[t].pc != Done && s.threads[t].pc != Panicked
    && var want := Target(s.threads[t], |s.cells|);
       want.Some? ==> CanTake(s, t, want.value.0, want.value.1)
  }

  // ----- what one step does to the shared state

  datatype Effect =
    | Quiet                                                   // only the operation's own variables
    | Enter
    | Exit(result: Outcome)
    | Decide(result: Outcome)                                 // commit, the map unchanged
    | Change(place: Place, cell: Cell, result: Outcome)       // commit a new value of one cell
    | Write(place: Place, cell: Cell)                         // write the row in memory
    | Move(from: Place, to: Place)                            // the tokens catch up with a swing

  function MapAfter(op: Op, abs: Map): Map {
    match op
    case Read(_) => abs
    case Delete(k) => abs - {k}
    case Insert(k, v) => abs[k := v]
  }

  function MatrixAfter(m: Matrix, e: Effect): (m': Matrix)
    ensures |m'| == |m| && (Shaped(m) ==> Shaped(m'))
  {
    match e
    case Change(p, x, _) => Poke(m, p, x)
    case Move(p, q) => Poke(Poke(m, p, Empty), q, Peek(m, p))
    case _ => m
  }

  function Logged(t: nat, op: Op, e: Effect): History {
    match e
    case Enter => [Call(t, op)]
    case Exit(res) => [Return(t, res)]
    case Decide(res) => [Commit(t, op, res)]
    case Change(_, _, res) => [Commit(t, op, res)]
    case _ => []
  }

  function Apply(s: State, t: nat, th: Thread, e: Effect): State
    requires t < |s.threads|
  {
    State(
      if e.Write? then Poke(s.cells, e.place, e.cell) else s.cells,
      MatrixAfter(s.matrix, e),
      if e.Change? then MapAfter(th.op, s.abs) else s.abs,
      s.threads[t := th],
      s.history + Logged(t, th.op, e))
  }

  // ----- the program

  /** Locks in the order in which the operation releases them. */
  function Todo(th: Thread, h: nat, both: bool): seq<Lock>
    requires h >= 2
  {
    [RowLock(Low(th.op.key, h))]
    + (if both then [RowLock(High(th.op.key, h))] else [])
    + (if th.op.Insert? then [MAIN] else [])
  }

  /** The key was found at `p`: read it, delete it or overwrite it. */
  function AtKey(th: Thread, h: nat, p: Place, x: Cell, both: bool): (Thread, Effect)
    requires h >= 2 && x.Full?
  {
    var todo := Todo(th, h, both);
    match th.op
    case Read(_) =>
      var res := Got(Some(x.value));
      (th.(pc := Unlock(todo, Leave), outcome := Some(res)), Decide(res))
    case Delete(_) =>
      (th.(pc := Store(p, Empty, todo), outcome := Some(Deleted)), Change(p, Empty, Deleted))
    case Insert(k, v) =>
      (th.(pc := Store(p, Full(k, v), todo), outcome := Some(Inserted(true))), Change(p, Full(k, v), Inserted(true)))
  }

  /** Neither home row has the key. */
  function NotFound(th: Thread, h: nat): (Thread, Effect)
    requires h >= 2
  {
    var todo := Todo(th, h, true);
    match th.op
    case Read(_) => (th.(pc := Unlock(todo, Leave), outcome := Some(Got(None))), Decide(Got(None)))
    case Delete(_) => (th.(pc := Unlock(todo, Leave), outcome := Some(Deleted)), Decide(Deleted))
    case Insert(_, _) => (th.(pc := RoomLow(0)), Quiet)
  }

  /** An empty cell was found in a home row. */
  function AtRoom(th: Thread, h: nat, p: Place): (Thread, Effect)
    requires h >= 2 && th.op.Insert?
  {
    var x := Full(th.op.key, th.op.value);
    (th.(pc := Store(p, x, Todo(th, h, true)), outcome := Some(Inserted(true))), Change(p, x, Inserted(true)))
  }

  /** Both home rows are full: start a cuckoo path, or fail for good with all locks held. */
  function NoRoom(th: Thread): (Thread, Effect) {
    if !th.second then (th.(pc := Evict), Quiet)
    else (th.(pc := Unlock([], LeaveHolding), outcome := Some(Inserted(false))), Decide(Inserted(false)))
  }

  function StartPath(th: Thread, cells: Matrix, dice: Dice): (Thread, Effect)
    requires |cells| >= 2
  {
    var h := |cells|;
    var p := Place(if dice.first then Hash1(th.op.key, h) else Hash2(th.op.key, h), dice.col);
    if Peek(cells, p).Empty? then (th.(pc := Panicked), Quiet) else
    var rows := [RowLock(Low(th.op.key, h)), RowLock(High(th.op.key, h))];
    (th.(pc := Unlock(rows, Hunt), path := [Victim(p, Peek(cells, p).key)], budget := h), Quiet)
  }

  /** `find_free_space`, one column at a time. */
  function ProbeStep(th: Thread, cells: Matrix, i: nat, dice: Dice): (Thread, Effect)
    requires |cells| >= 2
  {
    var row := ProbeRow(th, |cells|);
    if i < WIDTH then
      if Peek(cells, Place(row, i)).Empty? then (th.(pc := Unlock([RowLock(row)], Exploit(i))), Quiet)
      else (th.(pc := Probe(i + 1)), Quiet)
    else
      var x := Peek(cells, Place(row, dice.col));
      if x.Empty? then (th.(pc := Panicked), Quiet)
      else (th.(pc := Unlock([RowLock(row)], Extend(dice.col, x.key))), Quiet)
  }

  function Places(path: seq<Victim>): (ps: seq<Place>)
    ensures |ps| == |path|
    ensures forall i | 0 <= i < |path| :: ps[i] == path[i].place
  {
    seq(|path|, i requires 0 <= i < |path| => path[i].place)
  }

  function Released(th: Thread, h: nat, then_: After): (Thread, Effect)
    requires h >= 2
  {
    match then_
    case Leave => if th.outcome.Some? then (th.(pc := Done), Exit(th.outcome.value)) else (th, Quiet)
    case LeaveHolding => if th.outcome.Some? then (th.(pc := Done), Exit(th.outcome.value)) else (th, Quiet)
    case Hunt => (th.(pc := WantProbe), Quiet)
    case Extend(c, k) =>
      var longer := th.path + [Victim(Place(ProbeRow(th, h), c), k)];
      if th.budget == 0 then (th.(pc := Unlock([MAIN], Fail), path := longer), Quiet)
      else (th.(pc := WantProbe, path := longer, budget := th.budget - 1), Quiet)
    case Exploit(c) =>
      var room := Place(ProbeRow(th, h), c);
      (th.(pc := PopPath, free := room, trail := Places(th.path) + [room]), Quiet)
    case Swung => (th.(pc := PopPath, free := th.cur.place), Quiet)
    case Fail => (th.(pc := Unlock([], Leave), outcome := Some(Inserted(false))), Decide(Inserted(false)))
  }

  /** One step that neither acquires nor releases a lock. */
  function Work(th: Thread, cells: Matrix, dice: Dice): (Thread, Effect)
    requires |cells| >= 2
  {
    var h := |cells|;
    var lo, hi := Low(th.op.key, h), High(th.op.key, h);
    match th.pc
    case Ready => (th.(pc := if th.op.Insert? then WantMain else WantLow), Enter)
    case SeekLow(i) =>
      if i >= WIDTH then (th.(pc := WantHigh), Quiet)
      else if KeyAt(cells, Place(lo, i), th.op.key) then
        AtKey(th, h, Place(lo, i), Peek(cells, Place(lo, i)), false)
      else (th.(pc := SeekLow(i + 1)), Quiet)
    case SeekHigh(i) =>
      if i >= WIDTH then NotFound(th, h)
      else if KeyAt(cells, Place(hi, i), th.op.key) then
        AtKey(th, h, Place(hi, i), Peek(cells, Place(hi, i)), true)
      else (th.(pc := SeekHigh(i + 1)), Quiet)
    case RoomLow(i) =>
      if i >= WIDTH then (th.(pc := RoomHigh(0)), Quiet)
      else if Peek(cells, Place(lo, i)).Empty? && th.op.Insert? then AtRoom(th, h, Place(lo, i))
      else (th.(pc := RoomLow(i + 1)), Quiet)
    case RoomHigh(i) =>
      if i >= WIDTH then NoRoom(th)
      else if Peek(cells, Place(hi, i)).Empty? && th.op.Insert? then AtRoom(th, h, Place(hi, i))
      else (th.(pc := RoomHigh(i + 1)), Quiet)
    case Store(p, x, todo) => (th.(pc := Unlock(todo, Leave)), Write(p, x))
    case Unlock(_, then_) => Released(th, h, then_)
    case Evict => StartPath(th, cells, dice)
    case Probe(i) => ProbeStep(th, cells, i, dice)
    case PopPath =>
      if th.path == [] then (th.(pc := WantLow, second := true), Quiet)
      else (th.(pc := WantFirst, cur := th.path[|th.path| - 1], path := th.path[..|th.path| - 1]), Quiet)
    case CheckSwing =>
      if KeyAt(cells, th.cur.place, th.cur.key) && Peek(cells, th.free).Empty? then (th.(pc := ClearOld), Quiet)
      else (th.(pc := Unlock(SwingLocks(th), Swung)), Quiet)
    case ClearOld => (th.(pc := FillNew(Peek(cells, th.cur.place))), Write(th.cur.place, Empty))
    case FillNew(x) => (th.(pc := Settle), Write(th.free, x))
    case Settle => (th.(pc := Unlock(SwingLocks(th), Swung)), Move(th.cur.place, th.free))
    case _ => (th, Quiet)
  }

  function SwingLocks(th: Thread): seq<Lock> {
    [RowLock(FirstRow(th)), RowLock(SecondRow(th))]
  }

  /** One step of operation `t`: acquire the wanted lock, release the next one, or work. */
  function Plan(s: State, t: nat, dice: Dice): (Thread, Effect)
    requires Enabled(s, t, dice)
  {
    var th := s.threads[t];
    var want := Target(th, |s.cells|);
    if want.Some? then
      (th.(pc := Granted(th.pc), held := th.held[want.value.0 := want.value.1]), Quiet)
    else if th.pc.Unlock? && th.pc.todo != [] then
      (th.(pc := Unlock(th.pc.todo[1..], th.pc.then_), held := th.held - {th.pc.todo[0]}), Quiet)
    else Work(th, s.cells, dice)
  }

  function Next(s: State, t: nat, dice: Dice): State
    requires Enabled(s, t, dice)
  {
    var (th, e) := Plan(s, t, dice);
    Apply(s, t, th, e)
  }

  function NewThread(op: Op): Thread {
    var nowhere := Place(0, 0);
    Thread(op, Ready, map[], false, 0, [], Victim(nowhere, 0), nowhere, [], None)
  }

  /** An empty table of `h` rows about to serve the given operations. */
  function Init(h: nat, ops: seq<Op>): State {
    var m := seq(h, r => seq(WIDTH, c => Empty));
    State(m, m, map[], seq(|ops|, i requires 0 <= i < |ops| => NewThread(ops[i])), [])
  }

  /** The hash table as a sequential object. */
  function Sequential(abs: Map, op: Op, res: Outcome): Option<Map> {
    match op
    case Read(k) => if res == Got(if k in abs then Some(abs[k]) else None) then Some(abs) else None
    case Delete(k) => if res == Deleted then Some(abs - {k}) else None
    case Insert(k, v) =>
      if res == Inserted(true) then Some(abs[k := v])
      else if res == Inserted(false) then Some(abs)
      else None
  }
}
