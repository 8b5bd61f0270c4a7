/** The reader-writer lock of examples/state_machines/dist_rwlock.rs: readers count themselves in
    one of `width` counters, a writer sets a flag and then visits every counter. */
module DistributedLock {
  import opened Linearizability
  import opened Counting
  import AtomicLock

  datatype Guard<V> = Guard(bucket: nat, value: V)

  /** `pending` and `guards` are the readers that have counted themselves, before and after their
      check of the flag; each is known by an identity of its own. */
  datatype State<V> = State(
    storage: Option<V>, excLocked: bool, refCounts: seq<int>, excPending: Option<nat>, excGuard: bool,
    pending: map<nat, nat>, guards: map<nat, Guard<V>>)

  datatype Step<V> =
    | ExcStart
    | ExcCheckCount
    | ExcFinish
    | ExcRelease(v: V)
    | SharedStart(id: nat, r: nat)
    | SharedFinish(id: nat)
    | SharedRelease(id: nat)

  function Init<V>(width: nat, v: V): State<V> {
    State(Some(v), false, seq(width, i => 0), None, false, map[], map[])
  }

  predicate Enabled<V>(s: State<V>, step: Step<V>) {
    match step
    case ExcStart => !s.excLocked
    case ExcCheckCount =>
      s.excPending.Some? && s.excPending.value < |s.refCounts| && s.refCounts[s.excPending.value] == 0
    case ExcFinish => s.excPending == Some(|s.refCounts|)
    case ExcRelease(_) => s.excGuard
    case SharedStart(id, r) => r < |s.refCounts| && id !in s.pending && id !in s.guards
    case SharedFinish(id) => !s.excLocked && id in s.pending
    case SharedRelease(id) => id in s.guards && s.guards[id].bucket < |s.refCounts|
  }

  /** A guard can only be made while the object is stored, which the invariant guarantees. */
  function Next<V>(s: State<V>, step: Step<V>): State<V>
    requires Enabled(s, step)
  {
    match step
    case ExcStart => s.(excLocked := true, excPending := Some(0))
    case ExcCheckCount => s.(excPending := Some(s.excPending.value + 1))
    case ExcFinish => s.(excPending := None, excGuard := true, storage := None)
    case ExcRelease(v) => s.(excLocked := false, excGuard := false, storage := Some(v))
    case SharedStart(id, r) =>
      s.(refCounts := s.refCounts[r := s.refCounts[r] + 1], pending := s.pending[id := r])
    case SharedFinish(id) =>
      if s.storage.None? then s else
      s.(pending := s.pending - {id}, guards := s.guards[id := Guard(s.pending[id], s.storage.value)])
    case SharedRelease(id) =>
      var r := s.guards[id].bucket;
      s.(refCounts := s.refCounts[r := s.refCounts[r] - 1], guards := s.guards - {id})
  }

  // ----- the invariant

  function InBucket(r: nat): nat -> bool { b => b == r }
  function GuardIn<V>(r: nat): Guard<V> -> bool { (g: Guard<V>) => g.bucket == r }

  /** Readers that have counted themselves in bucket `r`. */
  ghost function Refs<V>(s: State<V>, r: nat): nat {
    |Having(s.pending, InBucket(r))| + |Having(s.guards, GuardIn(r))|
  }

  ghost predicate WriterOk<V>(s: State<V>) {
    && (s.excLocked <==> s.excPending.Some? || s.excGuard)
    && (s.storage.None? <==> s.excGuard)
    && (s.excPending.Some? ==>
          && s.excPending.value <= |s.refCounts| && !s.excGuard
          && forall id | id in s.guards :: s.guards[id].bucket >= s.excPending.value)
  }

  ghost predicate ReadersOk<V>(s: State<V>) {
    && (forall id | id in s.pending :: s.pending[id] < |s.refCounts| && id !in s.guards)
    && (forall id | id in s.guards :: s.guards[id].bucket < |s.refCounts| && s.storage == Some(s.guards[id].value))
  }

  ghost predicate CountsOk<V>(s: State<V>) {
    forall r | 0 <= r < |s.refCounts| :: s.refCounts[r] == Refs(s, r)
  }

  ghost predicate Inv<V>(s: State<V>) {
    WriterOk(s) && ReadersOk(s) && CountsOk(s)
  }

  lemma RefsStep<V>(s: State<V>, step: Step<V>, r: nat)
    requires Inv(s) && Enabled(s, step) && r < |s.refCounts|
    ensures |Next(s, step).refCounts| == |s.refCounts|
    ensures Next(s, step).refCounts[r] == Refs(Next(s, step), r)
  {
    assert s.refCounts[r] == Refs(s, r);
    match step
    case SharedStart(id, b) => HavingInsert(s.pending, InBucket(r), id, b);
    case SharedFinish(id) =>
      assert s.storage.Some?;
      HavingRemove(s.pending, InBucket(r), id);
      HavingInsert(s.guards, GuardIn(r), id, Guard(s.pending[id], s.storage.value));
    case SharedRelease(id) => HavingRemove(s.guards, GuardIn(r), id);
    case _ =>
  }

  /** A zero counter shows that no guard is left in its bucket, so the sweep may go on. */
  lemma ZeroMeansNoGuard<V>(s: State<V>, r: nat)
    requires Inv(s) && r < |s.refCounts| && s.refCounts[r] == 0
    ensures forall id | id in s.guards :: s.guards[id].bucket != r
  {
    forall id | id in s.guards ensures s.guards[id].bucket != r {
      if s.guards[id].bucket == r {
        HavingNone(s.guards, GuardIn(r), id);
      }
    }
  }

  lemma StepInv<V>(s: State<V>, step: Step<V>)
    requires Inv(s) && Enabled(s, step)
    ensures Inv(Next(s, step))
  {
    forall r | 0 <= r < |s.refCounts|
      ensures |Next(s, step).refCounts| == |s.refCounts| && Next(s, step).refCounts[r] == Refs(Next(s, step), r)
    {
      RefsStep(s, step, r);
    }
    if step.ExcCheckCount? {
      ZeroMeansNoGuard(s, s.excPending.value);
    }
  }

  lemma InitInv<V>(width: nat, v: V)
    ensures Inv(Init(width, v))
  {
  }

  // ----- refinement

  function Values<V>(guards: map<nat, Guard<V>>): map<nat, V> {
    map id | id in guards :: guards[id].value
  }

  function Abstract<V>(s: State<V>): AtomicLock.Lock<V> {
    AtomicLock.Lock(s.storage, Values(s.guards))
  }

  function LockStepOf<V>(step: Step<V>): AtomicLock.Step<V> {
    match step
    case ExcFinish => AtomicLock.AcquireWrite
    case ExcRelease(v) => AtomicLock.ReleaseWrite(v)
    case SharedFinish(id) => AtomicLock.AcquireRead(id)
    case SharedRelease(id) => AtomicLock.ReleaseRead(id)
    case _ => AtomicLock.Stutter
  }

  /** The protocol refines the atomic lock: the end of the sweep acquires for writing, which the
      atomic lock allows only when there is no reader. */
  lemma StepRefinesAtomicLock<V>(s: State<V>, step: Step<V>)
    requires Inv(s) && Enabled(s, step)
    ensures AtomicLock.Takes(Abstract(s), LockStepOf(step), Abstract(Next(s, step)))
  {
  }

  // ----- whole runs

  ghost predicate Steps<V(!new)>(s: State<V>, s': State<V>) {
    exists step :: Enabled(s, step) && s' == Next(s, step)
  }

  ghost predicate Run<V(!new)>(width: nat, v: V, run: seq<State<V>>) {
    && |run| > 0 && run[0] == Init(width, v)
    && forall i, j {:trigger Steps(run[i], run[j])} | 0 <= i < j < |run| && j == i + 1 :: Steps(run[i], run[j])
  }

  lemma {:induction false} RunInv<V(!new)>(width: nat, v: V, run: seq<State<V>>, i: nat)
    requires Run(width, v, run) && i < |run|
    ensures Inv(run[i]) && |run[i].refCounts| == width
  {
    if i == 0 {
      InitInv(width, v);
    } else {
      RunInv(width, v, run, i - 1);
      assert Steps(run[i - 1], run[i]);
      var step :| Enabled(run[i - 1], step) && run[i] == Next(run[i - 1], step);
      StepInv(run[i - 1], step);
    }
  }

  /** Runs of the protocol are runs of the atomic lock, for every number of counters. */
  lemma RunRefinesAtomicLock<V(!new)>(width: nat, v: V, run: seq<State<V>>)
    requires Run(width, v, run)
    ensures AtomicLock.Run(seq(|run|, i requires 0 <= i < |run| => Abstract(run[i])))
  {
    var lock := seq(|run|, i requires 0 <= i < |run| => Abstract(run[i]));
    forall i | 0 <= i < |lock| - 1 ensures AtomicLock.Next(lock[i], lock[i + 1]) {
      RunInv(width, v, run, i);
      assert Steps(run[i], run[i + 1]);
      var step :| Enabled(run[i], step) && run[i + 1] == Next(run[i], step);
      StepRefinesAtomicLock(run[i], step);
    }
  }

  /** The safety of the atomic lock, inherited. */
  lemma AbstractIsSafe<V(!new)>(width: nat, v: V, run: seq<State<V>>, i: nat)
    requires Run(width, v, run) && i < |run|
    ensures AtomicLock.Safe(Abstract(run[i]))
  {
    RunRefinesAtomicLock(width, v, run);
    AtomicLock.RunIsSafe(seq(|run|, k requires 0 <= k < |run| => Abstract(run[k])), i);
  }

  /** In every reachable state a finished or finishing sweep leaves no guard, every guard carries
      the stored value, and each counter is exactly the readers counted in it. */
  lemma LockIsSafe<V(!new)>(width: nat, v: V, run: seq<State<V>>, i: nat)
    requires Run(width, v, run) && i < |run|
    ensures var s := run[i];
            && |s.refCounts| == width
            && (s.excGuard || s.excPending == Some(width) ==> s.guards == map[])
            && (forall id | id in s.guards :: s.storage == Some(s.guards[id].value))
            && (forall r | 0 <= r < width :: s.refCounts[r] == Refs(s, r) >= 0)
            && (forall id | id in s.guards :: s.guards[id].bucket < width && s.refCounts[s.guards[id].bucket] > 0)
  {
    RunInv(width, v, run, i);
    var s := run[i];
    assert s.excGuard ==> forall id | id in s.guards :: s.storage == Some(s.guards[id].value);
    forall id | id in s.guards ensures s.refCounts[s.guards[id].bucket] > 0 {
      HavingNone(s.guards, GuardIn(s.guards[id].bucket), id);
    }
  }

  // ----- when the lock is granted

  /** Nobody is counted in bucket `r`. */
  ghost predicate Unused<V>(s: State<V>, r: nat) {
    (forall id | id in s.pending :: s.pending[id] != r) && forall id | id in s.guards :: s.guards[id].bucket != r
  }

  lemma ZeroIffUnused<V>(s: State<V>, r: nat)
    requires Inv(s) && r < |s.refCounts|
    ensures s.refCounts[r] == 0 <==> Unused(s, r)
  {
    if s.refCounts[r] == 0 {
      forall id | id in s.pending ensures s.pending[id] != r {
        if s.pending[id] == r {
          HavingNone(s.pending, InBucket(r), id);
        }
      }
      ZeroMeansNoGuard(s, r);
    }
    if Unused(s, r) {
      assert Having(s.pending, InBucket(r)) == {} && Having(s.guards, GuardIn(r)) == {};
    }
  }

  /** The sweep passes a bucket if and only if no reader is counted there, before or after its check
      of the flag. */
  lemma SweepPassesIff<V(!new)>(width: nat, v: V, run: seq<State<V>>, i: nat)
    requires Run(width, v, run) && i < |run| && run[i].excPending.Some? && run[i].excPending.value < width
    ensures Enabled(run[i], ExcCheckCount) <==> Unused(run[i], run[i].excPending.value)
  {
    RunInv(width, v, run, i);
    ZeroIffUnused(run[i], run[i].excPending.value);
  }

  /** The writer goes on as long as it can. */
  function Sweep<V>(s: State<V>): State<V>
    decreases |s.refCounts| - if s.excPending.Some? then s.excPending.value else 0
  {
    if Enabled(s, ExcCheckCount) then Sweep(Next(s, ExcCheckCount)) else s
  }

  lemma {:induction false} SweepEnds<V>(s: State<V>)
    requires Inv(s) && s.excPending.Some?
    ensures Sweep(s) == s.(excPending := Sweep(s).excPending) && Sweep(s).excPending.Some? && Inv(Sweep(s))
    ensures Enabled(Sweep(s), ExcFinish) <==> forall r: nat | s.excPending.value <= r < |s.refCounts| :: Unused(s, r)
    decreases |s.refCounts| - if s.excPending.Some? then s.excPending.value else 0
  {
    var at := s.excPending.value;
    if at < |s.refCounts| {
      ZeroIffUnused(s, at);
    }
    if Enabled(s, ExcCheckCount) {
      var next := Next(s, ExcCheckCount);
      StepInv(s, ExcCheckCount);
      SweepEnds(next);
      forall r: nat | at < r < |s.refCounts| ensures Unused(next, r) <==> Unused(s, r) {}
    }
  }

  /** A writer left to itself acquires the lock if and only if no reader is counted when it begins;
      it then takes the object out. */
  lemma LoneWriteIff<V(!new)>(width: nat, v: V, run: seq<State<V>>, i: nat)
    requires Run(width, v, run) && i < |run| && !run[i].excLocked
    ensures Enabled(run[i], ExcStart)
    ensures var end := Sweep(Next(run[i], ExcStart));
            && (Enabled(end, ExcFinish) <==> run[i].pending == map[] && run[i].guards == map[])
            && (Enabled(end, ExcFinish) ==> Next(end, ExcFinish).excGuard && Next(end, ExcFinish).storage.None?)
  {
    RunInv(width, v, run, i);
    var s := run[i];
    StepInv(s, ExcStart);
    SweepEnds(Next(s, ExcStart));
    if s.pending != map[] {
      var id :| id in s.pending;
      assert !Unused(Next(s, ExcStart), s.pending[id]);
    } else if s.guards != map[] {
      var id :| id in s.guards;
      assert !Unused(Next(s, ExcStart), s.guards[id].bucket);
    }
  }

  /** A reader left to itself gets a guard with the stored object if and only if no writer has set
      the flag, however many others read. */
  lemma LoneReadIff<V(!new)>(width: nat, v: V, run: seq<State<V>>, i: nat, id: nat, r: nat)
    requires Run(width, v, run) && i < |run| && r < width && id !in run[i].pending && id !in run[i].guards
    ensures Enabled(run[i], SharedStart(id, r))
    ensures var s := Next(run[i], SharedStart(id, r));
            && (Enabled(s, SharedFinish(id)) <==> !run[i].excLocked)
            && (!run[i].excLocked ==>
                  && run[i].storage.Some?
                  && Next(s, SharedFinish(id)).guards == run[i].guards[id := Guard(r, run[i].storage.value)])
  {
    RunInv(width, v, run, i);
  }

  /** A reader that goes in and out again leaves no trace. */
  lemma ReadAndRelease<V(!new)>(width: nat, v: V, run: seq<State<V>>, i: nat, id: nat, r: nat)
    requires Run(width, v, run) && i < |run| && r < width && id !in run[i].pending && id !in run[i].guards
    requires !run[i].excLocked
    ensures Enabled(run[i], SharedStart(id, r))
    ensures var s1 := Next(run[i], SharedStart(id, r));
            && Enabled(s1, SharedFinish(id))
            && var s2 := Next(s1, SharedFinish(id));
            && Enabled(s2, SharedRelease(id)) && Next(s2, SharedRelease(id)) == run[i]
  {
    LoneReadIff(width, v, run, i, id, r);
    var s1 := Next(run[i], SharedStart(id, r));
    var s3 := Next(Next(s1, SharedFinish(id)), SharedRelease(id));
    assert s3.pending == run[i].pending && s3.guards == run[i].guards;
    assert s3.refCounts == run[i].refCounts;
  }

  /** A writer that goes in and out again only replaces the object. */
  lemma WriteAndRelease<V(!new)>(width: nat, v: V, run: seq<State<V>>, i: nat, w: V)
    requires Run(width, v, run) && i < |run| && !run[i].excLocked
    requires run[i].pending == map[] && run[i].guards == map[]
    ensures Enabled(run[i], ExcStart)
    ensures var end := Sweep(Next(run[i], ExcStart));
            && Enabled(end, ExcFinish) && Enabled(Next(end, ExcFinish), ExcRelease(w))
            && Next(Next(end, ExcFinish), ExcRelease(w)) == run[i].(storage := Some(w))
  {
    LoneWriteIff(width, v, run, i);
    RunInv(width, v, run, i);
    StepInv(run[i], ExcStart);
    SweepEnds(Next(run[i], ExcStart));
  }

  /** `RwLock::new` pushes one zero counter after the other. */
  method NewCounters(width: nat) returns (counters: seq<int>)
    ensures forall v: int :: counters == Init(width, v).refCounts
  {
    counters := [];
    var i := 0;
    while i < width
      invariant 0 <= i <= width && |counters| == i
      invariant forall j | 0 <= j < i :: counters[j] == 0
    {
      counters := counters + [0];
      i := i + 1;
    }
  }
}
