/** What every step of the interleaved hash-table operations keeps. */
module CuckooInvariant {
  import opened Linearizability
  import opened CuckooMatrix
  import opened CuckooThreads

  // ----- one operation's own variables

  ghost predicate NoRepeat<T(!new)>(s: seq<T>) {
    forall i, j | 0 <= i < j < |s| :: s[i] != s[j]
  }

  /** Exactly the locks of `todo` and of `spare` are held. */
  ghost predicate Covers(held: map<Lock, Mode>, todo: seq<Lock>, spare: set<Lock>) {
    && NoRepeat(todo)
    && held.Keys == (set l | l in todo) + spare
    && forall l | l in todo :: l !in spare
  }

  ghost predicate HoldsMain(th: Thread) {
    th.op.Insert? && MAIN in th.held && th.held[MAIN] == Exclusive
  }

  function Base(op: Op): map<Lock, Mode> {
    if op.Insert? then map[MAIN := Exclusive] else map[]
  }

  function LowLock(th: Thread, h: nat): Lock requires h >= 2 { RowLock(Low(th.op.key, h)) }
  function HighLock(th: Thread, h: nat): Lock requires h >= 2 { RowLock(High(th.op.key, h)) }

  function SwingHeld(th: Thread): map<Lock, Mode> {
    map[MAIN := Exclusive][RowLock(FirstRow(th)) := Exclusive][RowLock(SecondRow(th)) := Exclusive]
  }

  ghost predicate Leaked(th: Thread) {
    th.op.Insert? && th.second && th.outcome == Some(Inserted(false)) && !NoRepeat(th.trail)
  }

  ghost predicate AfterHeld(th: Thread, todo: seq<Lock>, then_: After) {
    match then_
    case Leave => Covers(th.held, todo, {})
    case Fail => th.op.Insert? && Covers(th.held, todo, {})
    case LeaveHolding => todo == [] && Leaked(th)
    case _ => HoldsMain(th) && Covers(th.held, todo, {MAIN})
  }

  /** The program counter determines the locks held. */
  ghost predicate HeldOk(th: Thread, h: nat)
    requires h >= 2
  {
    var lo, hi, m := LowLock(th, h), HighLock(th, h), SeekMode(th.op);
    match th.pc
    case Ready => th.held == map[] && !th.second
    case WantMain => th.held == map[] && !th.second && th.op.Insert?
    case WantLow => th.held == Base(th.op)
    case SeekLow(_) => th.held == Base(th.op)[lo := m]
    case WantHigh => th.held == Base(th.op)[lo := m]
    case SeekHigh(_) => th.held == Base(th.op)[lo := m][hi := m]
    case RoomLow(_) => th.op.Insert? && th.held == Base(th.op)[lo := m][hi := m]
    case RoomHigh(_) => th.op.Insert? && th.held == Base(th.op)[lo := m][hi := m]
    case Evict => th.op.Insert? && th.held == Base(th.op)[lo := m][hi := m]
    case Store(p, _, todo) =>
      !th.op.Read? && Covers(th.held, todo, {}) && RowLock(p.row) in th.held && th.held[RowLock(p.row)] == Exclusive
    case Unlock(todo, then_) => AfterHeld(th, todo, then_)
    case WantProbe => th.op.Insert? && th.held == map[MAIN := Exclusive]
    case PopPath => th.op.Insert? && th.held == map[MAIN := Exclusive]
    case WantFirst => th.op.Insert? && th.held == map[MAIN := Exclusive]
    case Probe(_) => th.op.Insert? && th.held == map[MAIN := Exclusive][RowLock(ProbeRow(th, h)) := Shared]
    case WantSecond => th.op.Insert? && th.held == map[MAIN := Exclusive][RowLock(FirstRow(th)) := Exclusive]
    case CheckSwing => th.op.Insert? && th.held == SwingHeld(th)
    case ClearOld => th.op.Insert? && th.held == SwingHeld(th)
    case FillNew(_) => th.op.Insert? && th.held == SwingHeld(th)
    case Settle => th.op.Insert? && th.held == SwingHeld(th)
    case Done => th.held == map[] || Leaked(th)
    case Panicked => false
  }

  /** The operation has committed exactly when it has nothing left but writing and leaving. */
  ghost predicate OutcomeOk(th: Thread) {
    th.outcome.Some? <==>
    th.pc.Store? || th.pc.Done? || (th.pc.Unlock? && (th.pc.then_.Leave? || th.pc.then_.LeaveHolding?))
  }

  // ----- the cuckoo path

  predicate InTable(p: Place, h: nat) {
    p.row < h && p.col < WIDTH
  }

  predicate GoodVictim(v: Victim, h: nat)
    requires h >= 2
  {
    InTable(v.place, h) && Home(v.key, h, v.place.row)
  }

  /** Each entry of the path sits in a home row and its other home row is that of the next. */
  ghost predicate Chain(path: seq<Victim>, h: nat)
    requires h >= 2
  {
    && (forall i | 0 <= i < |path| :: GoodVictim(path[i], h))
    && forall i | 0 <= i < |path| - 1 :: path[i + 1].place.row == OtherHome(path[i].key, h, path[i].place.row)
  }

  predicate Hunting(pc: Pc) {
    pc.WantProbe? || pc.Probe? || (pc.Unlock? && (pc.then_.Hunt? || pc.then_.Extend? || pc.then_.Exploit?))
  }

  predicate Swinging(pc: Pc) {
    || pc.PopPath? || pc.WantFirst? || pc.WantSecond? || pc.CheckSwing?
    || pc.ClearOld? || pc.FillNew? || pc.Settle? || (pc.Unlock? && pc.then_.Swung?)
  }

  predicate Retrying(th: Thread) {
    && th.second
    && (th.pc.WantLow? || th.pc.SeekLow? || th.pc.WantHigh? || th.pc.SeekHigh? || th.pc.RoomLow? || th.pc.RoomHigh?)
  }

  /** The victims still to be moved, the one in hand last. */
  function Pending(th: Thread): seq<Victim> {
    if th.pc.PopPath? then th.path else th.path + [th.cur]
  }

  ghost predicate SwingPath(th: Thread, h: nat)
    requires h >= 2
  {
    var full := Pending(th);
    && Chain(full, h) && InTable(th.free, h)
    && (full != [] ==> th.free.row == OtherHome(full[|full| - 1].key, h, full[|full| - 1].place.row))
    && |full| < |th.trail| && th.trail[..|full| + 1] == Places(full) + [th.free]
    && Home(th.op.key, h, th.trail[0].row)
  }

  ghost predicate PathOk(th: Thread, h: nat)
    requires h >= 2
  {
    && (Hunting(th.pc) ==> th.path != [] && Chain(th.path, h) && Home(th.op.key, h, th.path[0].place.row))
    && (th.pc.Unlock? && th.pc.then_.Extend? ==>
          GoodVictim(Victim(Place(ProbeRow(th, h), th.pc.then_.col), th.pc.then_.key), h))
    && (th.pc.Unlock? && th.pc.then_.Exploit? ==> th.pc.then_.col < WIDTH)
    && (Swinging(th.pc) ==> SwingPath(th, h))
    && (Retrying(th) ==>
          th.op.Insert? && th.trail != [] && InTable(th.trail[0], h) && Home(th.op.key, h, th.trail[0].row))
  }

  /** The victim is still where it was seen, or it is one of the keys that have `gone` and has left
      its cell empty. */
  ghost predicate Alive(m: Matrix, v: Victim, gone: iset<Key>) {
    KeyAt(m, v.place, v.key) || (v.key in gone && Peek(m, v.place).Empty?)
  }

  ghost predicate AllAlive(m: Matrix, path: seq<Victim>, gone: iset<Key>) {
    forall i | 0 <= i < |path| :: Alive(m, path[i], gone)
  }

  /** What the table still looks like along the path.  Nobody but the holder of the main lock
      fills a cell, so an empty cell stays empty and a victim can only disappear. */
  ghost predicate PathLive(m: Matrix, th: Thread, gone: iset<Key>)
    requires |m| >= 2
  {
    && (Hunting(th.pc) ==> AllAlive(m, th.path, gone))
    && (th.pc.Unlock? && th.pc.then_.Extend? ==>
          Alive(m, Victim(Place(ProbeRow(th, |m|), th.pc.then_.col), th.pc.then_.key), gone))
    && (th.pc.Unlock? && th.pc.then_.Exploit? ==> Peek(m, Place(ProbeRow(th, |m|), th.pc.then_.col)).Empty?)
    && (Swinging(th.pc) && NoRepeat(th.trail) ==>
          if th.pc.Unlock? then AllAlive(m, th.path, gone) && Peek(m, th.cur.place).Empty?
          else AllAlive(m, Pending(th), gone) && Peek(m, th.free).Empty?)
    && (Retrying(th) && th.trail != [] && NoRepeat(th.trail) ==> Peek(m, th.trail[0]).Empty?)
  }

  // ----- the rows an operation has locked

  ghost predicate RowsOk(cells: Matrix, matrix: Matrix, th: Thread)
    requires Shaped(cells) && Shaped(matrix) && |cells| == |matrix|
  {
    var h := |cells|;
    var k := th.op.key;
    var lo, hi := cells[Low(k, h)], cells[High(k, h)];
    match th.pc
    case SeekLow(i) => i <= WIDTH && NotBefore(lo, k, i)
    case WantHigh => NotInRow(lo, k)
    case SeekHigh(i) => i <= WIDTH && NotInRow(lo, k) && NotBefore(hi, k, i)
    case RoomLow(i) => i <= WIDTH && NotInRow(lo, k) && NotInRow(hi, k) && FullBefore(lo, i)
    case RoomHigh(i) =>
      i <= WIDTH && NotInRow(lo, k) && NotInRow(hi, k) && FullBefore(lo, WIDTH) && FullBefore(hi, i)
    case Evict => FullBefore(lo, WIDTH) && FullBefore(hi, WIDTH)
    case Store(p, x, _) => InTable(p, h) && matrix[p.row] == cells[p.row][p.col := x]
    case Probe(i) => i <= WIDTH && FullBefore(cells[ProbeRow(th, h)], i)
    case ClearOld => SwingGuard(matrix, th)
    case FillNew(x) =>
      SwingGuard(matrix, th) && x == Peek(matrix, th.cur.place) && Cleared(cells, matrix, th)
    case Settle =>
      SwingGuard(matrix, th) && Cleared(cells, matrix, th)
      && cells[th.free.row] == matrix[th.free.row][th.free.col := Peek(matrix, th.cur.place)]
    case _ => true
  }

  ghost predicate SwingGuard(m: Matrix, th: Thread) {
    && Shaped(m) && InTable(th.cur.place, |m|) && InTable(th.free, |m|) && th.cur.place.row != th.free.row
    && KeyAt(m, th.cur.place, th.cur.key) && Peek(m, th.free).Empty? && Home(th.cur.key, |m|, th.free.row)
  }

  ghost predicate Cleared(cells: Matrix, matrix: Matrix, th: Thread)
    requires SwingGuard(matrix, th) && Shaped(cells) && |cells| == |matrix|
  {
    cells[th.cur.place.row] == matrix[th.cur.place.row][th.cur.place.col := Empty]
  }

  /** Rows whose memory the operation has not yet brought in line with the tokens, or is ahead of them. */
  function Dirty(th: Thread): set<nat> {
    match th.pc
    case Store(p, _, _) => {p.row}
    case FillNew(_) => {th.cur.place.row}
    case Settle => {th.cur.place.row, th.free.row}
    case _ => {}
  }

  // ----- all operations together

  ghost predicate TablesOk(s: State) {
    Shaped(s.cells) && |s.cells| == |s.matrix| && Represents(s.matrix, s.abs)
  }

  ghost predicate Exclusion(s: State) {
    forall t, u, l | 0 <= t < |s.threads| && 0 <= u < |s.threads| && t != u && l in s.threads[t].held ::
      Compatible(s.threads[u].held, l, s.threads[t].held[l])
  }

  /** A row that no operation is in the middle of writing is the same in memory and in the tokens. */
  ghost predicate Clean(s: State)
    requires |s.cells| == |s.matrix|
  {
    forall r | 0 <= r < |s.cells| ::
      (forall t | 0 <= t < |s.threads| :: r !in Dirty(s.threads[t])) ==> s.cells[r] == s.matrix[r]
  }

  ghost predicate OwnOk(th: Thread, h: nat)
    requires h >= 2
  {
    HeldOk(th, h) && OutcomeOk(th) && PathOk(th, h)
  }

  /** A delete of `k` has committed since operation `t` was called. */
  ghost predicate DeletedDuring(log: History, t: nat, k: Key) {
    exists i: nat, j: nat ::
      i < j < |log| && log[i].Call? && log[i].thread == t && log[j].Commit? && log[j].op == Delete(k)
  }

  /** The keys that are not in the map because they were deleted while operation `t` was at work. */
  ghost function GoneKeys(s: State, t: nat): iset<Key> {
    iset k: Key | k !in s.abs && DeletedDuring(s.history, t, k)
  }

  ghost predicate Local(s: State, t: nat)
    requires TablesOk(s) && t < |s.threads|
  {
    var th := s.threads[t];
    OwnOk(th, |s.cells|) && RowsOk(s.cells, s.matrix, th) && PathLive(s.matrix, th, GoneKeys(s, t))
  }

  function ExpectedPhase(s: State, t: nat): Phase<Op, Outcome> {
    if t >= |s.threads| || s.threads[t].pc.Ready? || s.threads[t].pc.Done? then Out
    else if s.threads[t].outcome.Some? then Committed(s.threads[t].op, s.threads[t].outcome.value)
    else Called(s.threads[t].op)
  }

  ghost predicate HistoryOk(s: State) {
    && Linearized(Sequential, map[], s.history, s.abs)
    && forall t: nat :: PhaseOf(s.history, t) == ExpectedPhase(s, t)
  }

  ghost predicate Inv(s: State) {
    && TablesOk(s) && Exclusion(s) && Clean(s) && HistoryOk(s)
    && forall t | 0 <= t < |s.threads| :: Local(s, t)
  }
}
