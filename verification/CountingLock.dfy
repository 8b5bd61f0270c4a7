/** The reader-writer lock of examples/cuckoo_hash_table/rwlock.rs: a flag `exc` and a counter
    `rc`, each accessed by single atomic operations of any number of threads. */
module CountingLock {
  import opened Linearizability
  import opened Counting
  import AtomicLock

  /** The atomic access a thread performs next. */
  datatype Pc<V> =
    | Idle
    | TryExc                     // exc: compare-exchange false -> true
    | AwaitRc                    // rc: load, until it is 0
    | Writing(taken: V)
    | LoadRc                     // rc: load
    | TryInc(seen: nat)          // rc: compare-exchange seen -> seen + 1, unless seen is the maximum
    | CheckExc                   // exc: load
    | BackOff                    // rc: fetch_sub
    | Reading(value: V)

  /** `storage` is the protected object while no writer has it; `last` is the value it was given
      last.  Neither is tested by any step. */
  datatype Shared<V> = Shared(exc: bool, rc: nat, storage: Option<V>, last: V)

  datatype State<V> = State(shared: Shared<V>, max: nat, threads: seq<Pc<V>>)

  datatype Action<V> = BeginWrite | BeginRead | Move | ReleaseWrite(value: V) | ReleaseRead

  function Init<V>(v: V, max: nat, n: nat): State<V> {
    State(Shared(false, 0, Some(v), v), max, seq(n, i => Idle))
  }

  /** The caller may only put back objects that satisfy the lock's predicate. */
  predicate Allowed<V>(pc: Pc<V>, a: Action<V>, allowed: V -> bool) {
    match a
    case BeginWrite => pc.Idle?
    case BeginRead => pc.Idle?
    case Move => !pc.Idle? && !pc.Writing? && !pc.Reading?
    case ReleaseWrite(v) => pc.Writing? && allowed(v)
    case ReleaseRead => pc.Reading?
  }

  /** `fetch_sub(1)` wraps around. */
  function Decrement(rc: nat, max: nat): nat {
    if rc == 0 then max else rc - 1
  }

  /** One atomic access, or the beginning or end of an operation. */
  function Access<V>(s: Shared<V>, max: nat, pc: Pc<V>, a: Action<V>): (Shared<V>, Pc<V>) {
    match a
    case BeginWrite => (s, TryExc)
    case BeginRead => (s, LoadRc)
    case ReleaseWrite(v) => (s.(exc := false, storage := Some(v), last := v), Idle)
    case ReleaseRead => (s.(rc := Decrement(s.rc, max)), Idle)
    case Move =>
      match pc
      case TryExc => if s.exc then (s, pc) else (s.(exc := true), AwaitRc)
      case AwaitRc =>
        if s.rc == 0 && s.storage.Some? then (s.(storage := None), Writing(s.storage.value)) else (s, pc)
      case LoadRc => (s, TryInc(s.rc))
      case TryInc(seen) => if seen < max && s.rc == seen then (s.(rc := seen + 1), CheckExc) else (s, LoadRc)
      case CheckExc => if !s.exc && s.storage.Some? then (s, Reading(s.storage.value)) else (s, BackOff)
      case BackOff => (s.(rc := Decrement(s.rc, max)), LoadRc)
      case _ => (s, pc)
  }

  predicate Enabled<V>(s: State<V>, t: nat, a: Action<V>, allowed: V -> bool) {
    t < |s.threads| && Allowed(s.threads[t], a, allowed)
  }

  function Next<V>(s: State<V>, t: nat, a: Action<V>): State<V>
    requires t < |s.threads|
  {
    var (shared, pc) := Access(s.shared, s.max, s.threads[t], a);
    State(shared, s.max, s.threads[t := pc])
  }

  // ----- the token machine

  /** The two flags, the stored object, and the tokens that are out: how many of each kind, and
      for readers the value each of them holds. */
  datatype Tokens<V> = Tokens(
    exc: bool, rc: nat, storage: Option<V>,
    pendingWriters: nat, writers: nat, pendingReaders: nat, readers: map<nat, V>)

  datatype TokenStep<V> =
    | Stutter
    | AcquireReadStart
    | AcquireReadEnd(id: nat)
    | AcquireReadAbandon
    | AcquireExcStart
    | AcquireExcEnd
    | ReleaseExc(x: V)
    | ReleaseShared(id: nat)

  predicate TokenTakes<V(==)>(s: Tokens<V>, step: TokenStep<V>, s': Tokens<V>) {
    match step
    case Stutter => s' == s
    case AcquireReadStart => s' == s.(rc := s.rc + 1, pendingReaders := s.pendingReaders + 1)
    case AcquireReadEnd(id) =>
      && !s.exc && s.pendingReaders > 0 && s.storage.Some? && id !in s.readers
      && s' == s.(pendingReaders := s.pendingReaders - 1, readers := s.readers[id := s.storage.value])
    case AcquireReadAbandon =>
      s.pendingReaders > 0 && s.rc >= 1 && s' == s.(rc := s.rc - 1, pendingReaders := s.pendingReaders - 1)
    case AcquireExcStart => !s.exc && s' == s.(exc := true, pendingWriters := s.pendingWriters + 1)
    case AcquireExcEnd =>
      && s.rc == 0 && s.pendingWriters > 0 && s.storage.Some?
      && s' == s.(storage := None, pendingWriters := s.pendingWriters - 1, writers := s.writers + 1)
    case ReleaseExc(x) =>
      s.writers > 0 && s.storage.None? && s' == s.(exc := false, storage := Some(x), writers := s.writers - 1)
    case ReleaseShared(id) =>
      id in s.readers && s.rc >= 1 && s' == s.(rc := s.rc - 1, readers := s.readers - {id})
  }

  /** The invariants of the token machine. */
  ghost predicate TokenInv<V>(s: Tokens<V>) {
    && (if s.exc then 1 else 0) == s.pendingWriters + s.writers
    && s.rc == s.pendingReaders + |s.readers|
    && (forall id | id in s.readers :: s.storage == Some(s.readers[id]))
    && (s.storage.None? <==> s.writers > 0)
  }

  lemma TokenStepInv<V>(s: Tokens<V>, step: TokenStep<V>, s': Tokens<V>)
    requires TokenInv(s) && TokenTakes(s, step, s')
    ensures TokenInv(s')
  {
  }

  // ----- threads as token holders

  predicate IsPendingWriter<V>(pc: Pc<V>) { pc.AwaitRc? }
  predicate IsWriter<V>(pc: Pc<V>) { pc.Writing? }
  predicate IsPendingReader<V>(pc: Pc<V>) { pc.CheckExc? || pc.BackOff? }

  /** Between its increment of `rc` and its decrement. */
  predicate InFlight<V>(pc: Pc<V>) { pc.CheckExc? || pc.BackOff? || pc.Reading? }

  function ReadersOf<V>(threads: seq<Pc<V>>): map<nat, V> {
    map t: nat | t < |threads| && threads[t].Reading? :: threads[t].value
  }

  function AsTokens<V>(s: State<V>): Tokens<V> {
    Tokens(s.shared.exc, s.shared.rc, s.shared.storage,
           Count(s.threads, IsPendingWriter), Count(s.threads, IsWriter), Count(s.threads, IsPendingReader),
           ReadersOf(s.threads))
  }

  ghost predicate SharedOk<V>(s: Shared<V>, allowed: V -> bool) {
    allowed(s.last) && (s.storage.Some? ==> s.storage.value == s.last)
  }

  /** `rc` counts the threads between their increment and their decrement. */
  ghost predicate Inv<V>(s: State<V>, allowed: V -> bool) {
    && TokenInv(AsTokens(s))
    && s.shared.rc == Count(s.threads, InFlight) <= s.max
    && SharedOk(s.shared, allowed)
  }

  lemma InitInv<V>(v: V, max: nat, n: nat, allowed: V -> bool)
    requires allowed(v)
    ensures Inv(Init(v, max, n), allowed)
  {
    var threads := Init(v, max, n).threads;
    CountNone(threads, IsPendingWriter);
    CountNone(threads, IsWriter);
    CountNone(threads, IsPendingReader);
    CountNone(threads, InFlight);
  }

  // ----- one access

  /** The token transition that an access performs. */
  function StepOf<V>(s: Shared<V>, max: nat, t: nat, pc: Pc<V>, a: Action<V>): TokenStep<V> {
    match a
    case BeginWrite => Stutter
    case BeginRead => Stutter
    case ReleaseWrite(v) => ReleaseExc(v)
    case ReleaseRead => ReleaseShared(t)
    case Move =>
      match pc
      case TryExc => if s.exc then Stutter else AcquireExcStart
      case AwaitRc => if s.rc == 0 then AcquireExcEnd else Stutter
      case TryInc(seen) => if seen < max && s.rc == seen then AcquireReadStart else Stutter
      case CheckExc => if s.exc then Stutter else AcquireReadEnd(t)
      case BackOff => AcquireReadAbandon
      case _ => Stutter
  }

  function One(b: bool): int { if b then 1 else 0 }

  /** The tokens after thread `t` has moved from `pc` to `pc'` and left `s` behind. */
  ghost predicate Retokened<V>(before: Tokens<V>, after: Tokens<V>, t: nat, pc: Pc<V>, pc': Pc<V>) {
    && after.pendingWriters == before.pendingWriters - One(pc.AwaitRc?) + One(pc'.AwaitRc?) >= One(pc'.AwaitRc?)
    && after.writers == before.writers - One(pc.Writing?) + One(pc'.Writing?) >= One(pc'.Writing?)
    && after.pendingReaders == before.pendingReaders - One(IsPendingReader(pc)) + One(IsPendingReader(pc'))
         >= One(IsPendingReader(pc'))
    && (t in before.readers <==> pc.Reading?)
    && after.readers == if pc'.Reading? then before.readers[t := pc'.value]
                        else if pc.Reading? then before.readers - {t}
                        else before.readers
  }

  /** An access, seen with the tokens before and after it. */
  ghost predicate Accessed<V>(s: Shared<V>, max: nat, t: nat, pc: Pc<V>, a: Action<V>, allowed: V -> bool,
                              before: Tokens<V>, after: Tokens<V>)
  {
    var (s', pc') := Access(s, max, pc, a);
    && Allowed(pc, a, allowed) && TokenInv(before)
    && before.exc == s.exc && before.rc == s.rc && before.storage == s.storage
    && after.exc == s'.exc && after.rc == s'.rc && after.storage == s'.storage
    && Retokened(before, after, t, pc, pc')
  }

  lemma AccessRefines<V>(s: Shared<V>, max: nat, t: nat, pc: Pc<V>, a: Action<V>, allowed: V -> bool,
                         before: Tokens<V>, after: Tokens<V>)
    requires Accessed(s, max, t, pc, a, allowed, before, after)
    ensures TokenTakes(before, StepOf(s, max, t, pc, a), after)
  {
  }

  lemma ThreadsRetokened<V>(s: State<V>, t: nat, a: Action<V>)
    requires t < |s.threads|
    ensures var pc := Access(s.shared, s.max, s.threads[t], a).1;
            && Retokened(AsTokens(s), AsTokens(Next(s, t, a)), t, s.threads[t], pc)
            && Count(Next(s, t, a).threads, InFlight) ==
                 Count(s.threads, InFlight) - One(InFlight(s.threads[t])) + One(InFlight(pc)) >= One(InFlight(pc))
  {
    var pc := Access(s.shared, s.max, s.threads[t], a).1;
    CountUpdate(s.threads, IsPendingWriter, t, pc);
    CountUpdate(s.threads, IsWriter, t, pc);
    CountUpdate(s.threads, IsPendingReader, t, pc);
    CountUpdate(s.threads, InFlight, t, pc);
    var readers := ReadersOf(s.threads);
    assert ReadersOf(s.threads[t := pc]) == if pc.Reading? then readers[t := pc.value] else readers - {t};
    assert t !in readers ==> readers - {t} == readers;
  }

  /** Every atomic access of a thread is a transition of the token machine, or changes no token.
      In particular the object is there whenever a thread takes or reads it. */
  lemma StepRefinesTokens<V>(s: State<V>, t: nat, a: Action<V>, allowed: V -> bool)
    requires Inv(s, allowed) && Enabled(s, t, a, allowed)
    ensures TokenTakes(AsTokens(s), StepOf(s.shared, s.max, t, s.threads[t], a), AsTokens(Next(s, t, a)))
  {
    ThreadsRetokened(s, t, a);
    AccessRefines(s.shared, s.max, t, s.threads[t], a, allowed, AsTokens(s), AsTokens(Next(s, t, a)));
  }

  lemma AccessCounts<V>(s: Shared<V>, max: nat, pc: Pc<V>, a: Action<V>, allowed: V -> bool)
    requires Allowed(pc, a, allowed) && SharedOk(s, allowed) && s.rc <= max && s.rc >= One(InFlight(pc))
    ensures var (s', pc') := Access(s, max, pc, a);
            SharedOk(s', allowed) && s'.rc == s.rc - One(InFlight(pc)) + One(InFlight(pc')) <= max
  {
  }

  lemma StepInv<V>(s: State<V>, t: nat, a: Action<V>, allowed: V -> bool)
    requires Inv(s, allowed) && Enabled(s, t, a, allowed)
    ensures Inv(Next(s, t, a), allowed)
  {
    StepRefinesTokens(s, t, a, allowed);
    ThreadsRetokened(s, t, a);
    AccessCounts(s.shared, s.max, s.threads[t], a, allowed);
    TokenStepInv(AsTokens(s), StepOf(s.shared, s.max, t, s.threads[t], a), AsTokens(Next(s, t, a)));
  }

  // ----- the atomic lock

  function Abstract<V>(s: State<V>): AtomicLock.Lock<V> {
    AtomicLock.Lock(s.shared.storage, ReadersOf(s.threads))
  }

  /** The transition of the atomic lock that a token transition performs. */
  function LockStepOf<V>(step: TokenStep<V>): AtomicLock.Step<V> {
    match step
    case AcquireReadEnd(id) => AtomicLock.AcquireRead(id)
    case AcquireExcEnd => AtomicLock.AcquireWrite
    case ReleaseExc(x) => AtomicLock.ReleaseWrite(x)
    case ReleaseShared(id) => AtomicLock.ReleaseRead(id)
    case _ => AtomicLock.Stutter
  }

  lemma TokensRefineAtomicLock<V>(s: Tokens<V>, step: TokenStep<V>, s': Tokens<V>)
    requires TokenInv(s) && TokenTakes(s, step, s')
    ensures AtomicLock.Takes(AtomicLock.Lock(s.storage, s.readers), LockStepOf(step),
                             AtomicLock.Lock(s'.storage, s'.readers))
  {
  }

  /** The protocol refines the atomic lock: reading starts at the check of `exc`, writing at the
      load that finds `rc` zero. */
  lemma StepRefinesAtomicLock<V>(s: State<V>, t: nat, a: Action<V>, allowed: V -> bool)
    requires Inv(s, allowed) && Enabled(s, t, a, allowed)
    ensures AtomicLock.Takes(Abstract(s), LockStepOf(StepOf(s.shared, s.max, t, s.threads[t], a)),
            Abstract(Next(s, t, a)))
  {
    StepRefinesTokens(s, t, a, allowed);
    TokensRefineAtomicLock(AsTokens(s), StepOf(s.shared, s.max, t, s.threads[t], a), AsTokens(Next(s, t, a)));
  }

  // ----- whole runs

  ghost predicate Steps<V(!new)>(s: State<V>, s': State<V>, allowed: V -> bool) {
    exists t: nat, a :: Enabled(s, t, a, allowed) && s' == Next(s, t, a)
  }

  ghost predicate Run<V(!new)>(v: V, max: nat, n: nat, allowed: V -> bool, run: seq<State<V>>) {
    && |run| > 0 && allowed(v) && run[0] == Init(v, max, n)
    && forall i, j {:trigger Steps(run[i], run[j], allowed)} | 0 <= i < j < |run| && j == i + 1 ::
         Steps(run[i], run[j], allowed)
  }

  lemma {:induction false} RunInv<V(!new)>(v: V, max: nat, n: nat, allowed: V -> bool, run: seq<State<V>>, i: nat)
    requires Run(v, max, n, allowed, run) && i < |run|
    ensures Inv(run[i], allowed) && run[i].max == max
  {
    if i == 0 {
      InitInv(v, max, n, allowed);
    } else {
      RunInv(v, max, n, allowed, run, i - 1);
      assert Steps(run[i - 1], run[i], allowed);
      var t: nat, a :| Enabled(run[i - 1], t, a, allowed) && run[i] == Next(run[i - 1], t, a);
      StepInv(run[i - 1], t, a, allowed);
    }
  }

  /** Runs of the protocol are runs of the atomic lock. */
  lemma RunRefinesAtomicLock<V(!new)>(v: V, max: nat, n: nat, allowed: V -> bool, run: seq<State<V>>)
    requires Run(v, max, n, allowed, run)
    ensures AtomicLock.Run(seq(|run|, i requires 0 <= i < |run| => Abstract(run[i])))
  {
    var lock := seq(|run|, i requires 0 <= i < |run| => Abstract(run[i]));
    forall i | 0 <= i < |lock| - 1 ensures AtomicLock.Next(lock[i], lock[i + 1]) {
      RunInv(v, max, n, allowed, run, i);
      assert Steps(run[i], run[i + 1], allowed);
      var t: nat, a :| Enabled(run[i], t, a, allowed) && run[i + 1] == Next(run[i], t, a);
      StepRefinesAtomicLock(run[i], t, a, allowed);
    }
  }

  lemma Excludes<V>(s: State<V>, t: nat, u: nat, allowed: V -> bool)
    requires Inv(s, allowed) && t < |s.threads| && u < |s.threads| && t != u && s.threads[t].Writing?
    ensures !s.threads[u].Writing? && !s.threads[u].Reading?
  {
    CountUpdate(s.threads, IsWriter, t, Idle);
    if s.threads[u].Writing? {
      CountTwo(s.threads, IsWriter, t, u, Idle);
    }
    assert u in ReadersOf(s.threads) <==> s.threads[u].Reading?;
  }

  /** The safety of the atomic lock, inherited. */
  lemma AbstractIsSafe<V(!new)>(v: V, max: nat, n: nat, allowed: V -> bool, run: seq<State<V>>, i: nat)
    requires Run(v, max, n, allowed, run) && i < |run|
    ensures AtomicLock.Safe(Abstract(run[i]))
  {
    RunRefinesAtomicLock(v, max, n, allowed, run);
    AtomicLock.RunIsSafe(seq(|run|, k requires 0 <= k < |run| => Abstract(run[k])), i);
  }

  /** In every reachable state a writer has no other writer or reader beside it, a reader holds the
      value put into the lock last, which satisfies the lock's predicate, and `rc` is exactly the
      number of threads between increment and decrement, so it never over- or underflows. */
  lemma LockIsSafe<V(!new)>(v: V, max: nat, n: nat, allowed: V -> bool, run: seq<State<V>>, i: nat, t: nat)
    requires Run(v, max, n, allowed, run) && i < |run| && t < |run[i].threads|
    ensures run[i].threads[t].Writing? ==>
              forall u | 0 <= u < |run[i].threads| && u != t :: !run[i].threads[u].Writing?
                  && !run[i].threads[u].Reading?
    ensures run[i].threads[t].Reading? ==> run[i].threads[t].value == run[i].shared.last && allowed(run[i].shared.last)
    ensures run[i].shared.rc == Count(run[i].threads, InFlight) <= max
    ensures run[i].threads[t].BackOff? || run[i].threads[t].Reading? ==> run[i].shared.rc > 0
  {
    RunInv(v, max, n, allowed, run, i);
    var s := run[i];
    if s.threads[t].Writing? {
      forall u | 0 <= u < |s.threads| && u != t ensures !s.threads[u].Writing? && !s.threads[u].Reading? {
        Excludes(s, t, u, allowed);
      }
    }
    CountUpdate(s.threads, InFlight, t, Idle);
    assert t in ReadersOf(s.threads) <==> s.threads[t].Reading?;
  }

  // ----- each operation gets the handle it asked for

  datatype Act<V> = Act(t: nat, action: Action<V>)

  predicate Acts<V(==)>(run: seq<State<V>>, acts: seq<Act<V>>, k: nat, allowed: V -> bool) {
    && k < |acts| == |run| - 1
    && Enabled(run[k], acts[k].t, acts[k].action, allowed)
    && run[k + 1] == Next(run[k], acts[k].t, acts[k].action)
  }

  /** A run together with the actions taken. */
  ghost predicate Acted<V(!new)>(v: V, max: nat, n: nat, allowed: V -> bool, run: seq<State<V>>, acts: seq<Act<V>>) {
    && allowed(v) && |run| == |acts| + 1 && run[0] == Init(v, max, n)
    && forall k {:trigger Acts(run, acts, k, allowed)} | 0 <= k < |acts| :: Acts(run, acts, k, allowed)
  }

  /** How thread `t` began last. */
  function LastBegin<V>(acts: seq<Act<V>>, t: nat): Option<Action<V>> {
    if acts == [] then None
    else
      var a := acts[|acts| - 1];
      if a.t == t && (a.action.BeginWrite? || a.action.BeginRead?) then Some(a.action)
      else LastBegin(acts[..|acts| - 1], t)
  }

  predicate OnTheWayToWrite<V>(pc: Pc<V>) { pc.TryExc? || pc.AwaitRc? || pc.Writing? }

  lemma AccessStaysOnItsWay<V>(s: Shared<V>, max: nat, pc: Pc<V>, a: Action<V>, allowed: V -> bool)
    requires Allowed(pc, a, allowed)
    ensures var pc' := Access(s, max, pc, a).1;
            match a
            case BeginWrite => OnTheWayToWrite(pc')
            case BeginRead => !pc'.Idle? && !OnTheWayToWrite(pc')
            case Move => !pc'.Idle? && (OnTheWayToWrite(pc') <==> OnTheWayToWrite(pc))
            case _ => pc'.Idle?
  {
  }

  /** In every run a thread that is busy with the lock, or holds it, began with the operation for
      what it is busy with: only a write acquisition ends with the exclusive handle, and only a
      read acquisition with a shared one. */
  lemma {:induction false} HandleIsWhatWasAsked<V(!new)>(
      v: V, max: nat, n: nat, allowed: V -> bool, run: seq<State<V>>, acts: seq<Act<V>>, i: nat, t: nat)
    requires Acted(v, max, n, allowed, run, acts) && i < |run| && t < n
    ensures |run[i].threads| == n
    ensures !run[i].threads[t].Idle? ==>
              LastBegin(acts[..i], t) == Some(if OnTheWayToWrite(run[i].threads[t]) then BeginWrite else BeginRead)
  {
    if i > 0 {
      HandleIsWhatWasAsked(v, max, n, allowed, run, acts, i - 1, t);
      assert Acts(run, acts, i - 1, allowed);
      var a := acts[i - 1];
      AccessStaysOnItsWay(run[i - 1].shared, max, run[i - 1].threads[a.t], a.action, allowed);
      assert acts[..i][..i - 1] == acts[..i - 1];
    }
  }

  // ----- when the lock is granted

  /** `t` makes `k` accesses while no other thread moves. */
  function Alone<V>(s: State<V>, t: nat, k: nat): (s': State<V>)
    requires t < |s.threads|
    ensures |s'.threads| == |s.threads|
  {
    if k == 0 then s else Next(Alone(s, t, k - 1), t, Move)
  }

  predicate BusyWriting<V(==)>(s: State<V>, s': State<V>, t: nat, k: nat)
    requires t < |s.threads| == |s'.threads|
  {
    var pc := s'.threads[t];
    if s.shared.exc then pc.TryExc? && s'.shared == s.shared
    else if k == 0 then pc.TryExc? && s'.shared == s.shared
    else if s.shared.rc > 0 || k == 1 then pc.AwaitRc? && s'.shared == s.shared.(exc := true)
    else pc == Writing(s.shared.last)
  }

  lemma {:induction false} WritingAlone<V>(s: State<V>, t: nat, k: nat, allowed: V -> bool)
    requires Inv(s, allowed) && t < |s.threads| && s.threads[t].Idle?
    ensures BusyWriting(s, Alone(Next(s, t, BeginWrite), t, k), t, k)
  {
    if k > 0 {
      WritingAlone(s, t, k - 1, allowed);
      if !s.shared.exc {
        StoredUnlessExclusive(s, allowed);
      }
    }
  }

  lemma StoredUnlessExclusive<V>(s: State<V>, allowed: V -> bool)
    requires Inv(s, allowed) && !s.shared.exc
    ensures s.shared.storage == Some(s.shared.last)
  {
  }

  /** An idle thread that begins to write, undisturbed, has the exclusive handle after its second
      access if the lock is free, and never otherwise. */
  lemma LoneWriteIff<V(!new)>(v: V, max: nat, n: nat, allowed: V -> bool, run: seq<State<V>>, i: nat, t: nat, k: nat)
    requires Run(v, max, n, allowed, run) && i < |run| && t < |run[i].threads| && run[i].threads[t].Idle?
    ensures var pc := Alone(Next(run[i], t, BeginWrite), t, k).threads[t];
            && (pc.Writing? <==> !run[i].shared.exc && run[i].shared.rc == 0 && k >= 2)
            && (pc.Writing? ==> pc.taken == run[i].shared.last)
  {
    RunInv(v, max, n, allowed, run, i);
    WritingAlone(run[i], t, k, allowed);
  }

  predicate BusyReading<V(==)>(s: State<V>, s': State<V>, t: nat, k: nat)
    requires t < |s.threads| == |s'.threads|
  {
    var pc := s'.threads[t];
    if s.shared.exc || s.shared.rc >= s.max then
      || (s'.shared == s.shared && (pc.LoadRc? || pc == TryInc(s.shared.rc)))
      || (s.shared.exc && s.shared.rc < s.max && s'.shared == s.shared.(rc := s.shared.rc + 1)
          && (pc.CheckExc? || pc.BackOff?))
    else if k <= 1 then s'.shared == s.shared && pc == if k == 0 then LoadRc else TryInc(s.shared.rc)
    else s'.shared == s.shared.(rc := s.shared.rc + 1) && pc == if k == 2 then CheckExc else Reading(s.shared.last)
  }

  lemma {:induction false} ReadingAlone<V>(s: State<V>, t: nat, k: nat, allowed: V -> bool)
    requires Inv(s, allowed) && t < |s.threads| && s.threads[t].Idle?
    ensures Alone(Next(s, t, BeginRead), t, k).max == s.max
    ensures BusyReading(s, Alone(Next(s, t, BeginRead), t, k), t, k)
  {
    if k > 0 {
      ReadingAlone(s, t, k - 1, allowed);
      if !s.shared.exc {
        StoredUnlessExclusive(s, allowed);
      }
    }
  }

  /** An idle thread that begins to read, undisturbed, has a shared handle on the object stored last
      after its third access if nobody writes and the counter is not at its maximum, however many
      others read, and never otherwise. */
  lemma LoneReadIff<V(!new)>(v: V, max: nat, n: nat, allowed: V -> bool, run: seq<State<V>>, i: nat, t: nat, k: nat)
    requires Run(v, max, n, allowed, run) && i < |run| && t < |run[i].threads| && run[i].threads[t].Idle?
    ensures var pc := Alone(Next(run[i], t, BeginRead), t, k).threads[t];
            && (pc.Reading? <==> !run[i].shared.exc && run[i].shared.rc < max && k >= 3)
            && (pc.Reading? ==> pc.value == run[i].shared.last)
  {
    RunInv(v, max, n, allowed, run, i);
    ReadingAlone(run[i], t, k, allowed);
  }

  /** A thread that acquires for reading, undisturbed, and releases leaves the lock as it was. */
  lemma ReadAndRelease<V(!new)>(v: V, max: nat, n: nat, allowed: V -> bool, run: seq<State<V>>, i: nat, t: nat)
    requires Run(v, max, n, allowed, run) && i < |run| && t < |run[i].threads| && run[i].threads[t].Idle?
    requires !run[i].shared.exc && run[i].shared.rc < max
    ensures var s := Alone(Next(run[i], t, BeginRead), t, 3);
            Enabled(s, t, ReleaseRead, allowed) && Next(s, t, ReleaseRead) == run[i]
  {
    LoneReadIff(v, max, n, allowed, run, i, t, 3);
    RunInv(v, max, n, allowed, run, i);
    ReadingAlone(run[i], t, 3, allowed);
    AloneOthers(Next(run[i], t, BeginRead), t, 3);
    var s := Next(Alone(Next(run[i], t, BeginRead), t, 3), t, ReleaseRead);
    assert s.threads == run[i].threads[t := Idle] == run[i].threads;
  }

  /** And one that acquires for writing only replaces the object. */
  lemma WriteAndRelease<V(!new)>(v: V, max: nat, n: nat, allowed: V -> bool, run: seq<State<V>>, i: nat, t: nat, w: V)
    requires Run(v, max, n, allowed, run) && i < |run| && t < |run[i].threads| && run[i].threads[t].Idle?
    requires !run[i].shared.exc && run[i].shared.rc == 0 && allowed(w)
    ensures var s := Alone(Next(run[i], t, BeginWrite), t, 2);
            && Enabled(s, t, ReleaseWrite(w), allowed)
            && Next(s, t, ReleaseWrite(w)) == run[i].(shared := Shared(false, 0, Some(w), w))
  {
    LoneWriteIff(v, max, n, allowed, run, i, t, 2);
    RunInv(v, max, n, allowed, run, i);
    WritingAlone(run[i], t, 2, allowed);
    TwoWritingAccesses(run[i], t, allowed);
    AloneOthers(Next(run[i], t, BeginWrite), t, 2);
    var s := Next(Alone(Next(run[i], t, BeginWrite), t, 2), t, ReleaseWrite(w));
    assert s.threads == run[i].threads[t := Idle] == run[i].threads;
  }

  lemma TwoWritingAccesses<V>(s: State<V>, t: nat, allowed: V -> bool)
    requires Inv(s, allowed) && t < |s.threads| && s.threads[t].Idle? && !s.shared.exc && s.shared.rc == 0
    ensures Alone(Next(s, t, BeginWrite), t, 2).shared == s.shared.(exc := true, storage := None)
  {
    WritingAlone(s, t, 1, allowed);
    StoredUnlessExclusive(s, allowed);
  }

  lemma {:induction false} AloneOthers<V>(s: State<V>, t: nat, k: nat)
    requires t < |s.threads|
    ensures Alone(s, t, k).max == s.max
    ensures Alone(s, t, k).threads == s.threads[t := Alone(s, t, k).threads[t]]
  {
    if k > 0 {
      AloneOthers(s, t, k - 1);
    }
  }
}
