/** What every run of the cache lock keeps, and what the guard of `deposit_loading_to_done`, as the
    source writes it, does to a run. */
module CacheLockTheorems {
  import opened Linearizability
  import opened Counting
  import opened CacheLock
  import AtomicLock

  // ----- refinement

  /** What the identity `id` may read, if anything. */
  function Reads<V>(s: State<V>, id: nat): Option<V> {
    if id == CLAIM_ID then
      if s.exc.Some? && !s.exc.value.Owned? then Some(s.exc.value.value) else None
    else if id == WRITEBACK_ID then s.writeback
    else if id in s.shared && s.shared[id].Obtained? then Some(s.shared[id].value) else None
  }

  function Readers<V>(s: State<V>): map<nat, V> {
    map id | id in s.shared.Keys + {CLAIM_ID, WRITEBACK_ID} && Reads(s, id).Some? :: Reads(s, id).value
  }

  function Abstract<V>(s: State<V>): AtomicLock.Lock<V> {
    AtomicLock.Lock(s.storage, Readers(s))
  }

  function LockStepOf<V>(s: State<V>, step: Step<V>): AtomicLock.Step<V> {
    match step
    case TakeWriteback => AtomicLock.AcquireRead(WRITEBACK_ID)
    case ReleaseWriteback => AtomicLock.ReleaseRead(WRITEBACK_ID)
    case BucketlessClaim => AtomicLock.AcquireRead(CLAIM_ID)
    case SharedToClaim(id) => AtomicLock.PassOn(id, CLAIM_ID)
    case FinishExc => AtomicLock.Upgrade(CLAIM_ID)
    case DowngradeExc(id, v) => AtomicLock.Downgrade(id, v)
    case DowngradeToClaim(v) => AtomicLock.Downgrade(CLAIM_ID, v)
    case Alloc => AtomicLock.AcquireWrite
    case AllocNoRefcount => AtomicLock.AcquireWrite
    case LoadingToShared(id, v) => AtomicLock.Downgrade(id, v)
    case LoadingToDone(v) => AtomicLock.ReleaseWrite(v)
    case LoadingToDoneAsWritten(v) => AtomicLock.ReleaseWrite(v)
    case SharedDecCount(id) =>
      if id in s.shared && s.shared[id].Obtained? then AtomicLock.ReleaseRead(id) else AtomicLock.Stutter
    case SharedCheckLoading(id) => AtomicLock.AcquireRead(id)
    case _ => AtomicLock.Stutter
  }

  /** No one reads while the object is out. */
  lemma NoReaderWhileOut<V>(s: State<V>, id: nat)
    requires Inv(s) && (s.storage.None? || s.flag.Unmapped?)
    ensures Reads(s, id).None?
  {
  }

  /** A sweep that visited every bucket leaves only the sweeper reading. */
  lemma OnlySweeperReads<V>(s: State<V>, id: nat)
    requires Inv(s) && Enabled(s, FinishExc)
    ensures Reads(s, id).Some? <==> id == CLAIM_ID
  {
  }

  lemma ReadersDuring<V>(s: State<V>, step: Step<V>)
    requires Inv(s) && Enabled(s, step) && Sound(s, step)
    ensures step.FinishExc? ==> Readers(s).Keys == {CLAIM_ID} && Readers(Next(s, step)) == map[]
    ensures step.Alloc? || step.AllocNoRefcount? ==> Readers(s) == map[]
    ensures s.storage.None? ==> Readers(s) == map[]
  {
    if step.FinishExc? {
      StepInv(s, step);
      forall id: nat ensures Reads(s, id).Some? <==> id == CLAIM_ID {
        OnlySweeperReads(s, id);
      }
      forall id: nat ensures Reads(Next(s, step), id).None? {
        NoReaderWhileOut(Next(s, step), id);
      }
    }
    if s.storage.None? || s.flag.Unmapped? {
      forall id: nat ensures Reads(s, id).None? {
        NoReaderWhileOut(s, id);
      }
    }
  }

  /** Steps that hand the object out or take it back. */
  predicate MovesObject<V>(step: Step<V>) {
    || step.FinishExc? || step.DowngradeExc? || step.DowngradeToClaim? || step.Alloc? || step.AllocNoRefcount?
    || step.LoadingToShared? || step.LoadingToDone? || step.LoadingToDoneAsWritten?
  }

  lemma ReadersInsert<V>(s: State<V>, s': State<V>, id: nat, v: V)
    requires forall k: nat :: Reads(s', k) == if k == id then Some(v) else Reads(s, k)
    ensures Readers(s') == Readers(s)[id := v]
  {
    assert Reads(s', id).Some?;
  }

  lemma ReadersRemove<V>(s: State<V>, s': State<V>, id: nat)
    requires forall k: nat :: Reads(s', k) == if k == id then None else Reads(s, k)
    ensures Readers(s') == Readers(s) - {id}
  {
  }

  lemma MoveRefinesAtomicLock<V>(s: State<V>, step: Step<V>)
    requires Inv(s) && Enabled(s, step) && Sound(s, step) && MovesObject(step)
    ensures AtomicLock.Takes(Abstract(s), LockStepOf(s, step), Abstract(Next(s, step)))
  {
    var s' := Next(s, step);
    ReadersDuring(s, step);
    if step.DowngradeExc? || step.LoadingToShared? {
      ReadersInsert(s, s', step.id, step.v);
    } else if step.DowngradeToClaim? {
      ReadersInsert(s, s', CLAIM_ID, step.v);
    } else if !step.FinishExc? {
      assert Readers(s') == Readers(s);
    }
  }

  /** Steps that change who reads, and leave the object stored. */
  predicate ChangesReaders<V>(step: Step<V>) {
    || step.TakeWriteback? || step.ReleaseWriteback? || step.BucketlessClaim? || step.SharedToClaim?
    || step.SharedDecCount? || step.SharedCheckLoading?
  }

  lemma ReadRefinesAtomicLock<V>(s: State<V>, step: Step<V>)
    requires Inv(s) && Enabled(s, step) && Sound(s, step) && ChangesReaders(step)
    ensures AtomicLock.Takes(Abstract(s), LockStepOf(s, step), Abstract(Next(s, step)))
  {
    var s' := Next(s, step);
    if step.TakeWriteback? {
      ReadersInsert(s, s', WRITEBACK_ID, s.storage.value);
    } else if step.ReleaseWriteback? {
      ReadersRemove(s, s', WRITEBACK_ID);
    } else if step.BucketlessClaim? {
      ReadersInsert(s, s', CLAIM_ID, s.storage.value);
    } else if step.SharedToClaim? {
      var middle := s.(shared := s.shared - {step.id});
      ReadersRemove(s, middle, step.id);
      ReadersInsert(middle, s', CLAIM_ID, s.shared[step.id].value);
    } else if step.SharedDecCount? {
      ReadersRemove(s, s', step.id);
    } else {
      ReadersInsert(s, s', step.id, s.storage.value);
    }
  }

  lemma OtherStepsStutter<V>(s: State<V>, step: Step<V>)
    requires Inv(s) && Enabled(s, step) && Sound(s, step) && !MovesObject(step) && !ChangesReaders(step)
    ensures Abstract(Next(s, step)) == Abstract(s) && LockStepOf(s, step).Stutter?
  {
    forall id: nat ensures Reads(Next(s, step), id) == Reads(s, id) {}
    assert Readers(Next(s, step)) == Readers(s);
  }

  /** Every step is a step of the atomic lock, with either guard: the claimant and the writeback
      read, the end of the sweep upgrades the only reader left, and deposits downgrade. */
  lemma StepRefinesAtomicLock<V>(s: State<V>, step: Step<V>)
    requires Inv(s) && Enabled(s, step) && Sound(s, step)
    ensures AtomicLock.Takes(Abstract(s), LockStepOf(s, step), Abstract(Next(s, step)))
  {
    if MovesObject(step) {
      MoveRefinesAtomicLock(s, step);
    } else if ChangesReaders(step) {
      ReadRefinesAtomicLock(s, step);
    } else {
      OtherStepsStutter(s, step);
    }
  }

  // ----- whole runs

  /** With `repaired` set the deposit takes bucketless loads only; otherwise both guards occur. */
  predicate Allowed<V>(repaired: bool, step: Step<V>) {
    repaired ==> !step.LoadingToDoneAsWritten?
  }

  ghost predicate Steps<V(!new)>(repaired: bool, s: State<V>, s': State<V>) {
    exists step :: Allowed(repaired, step) && Enabled(s, step) && Sound(s, step) && s' == Next(s, step)
  }

  ghost predicate Run<V(!new)>(repaired: bool, width: nat, v: V, run: seq<State<V>>) {
    && |run| > 0 && run[0] == Init(width, v)
    && forall i, j {:trigger Steps(repaired, run[i], run[j])} | 0 <= i < j < |run| && j == i + 1 ::
         Steps(repaired, run[i], run[j])
  }

  lemma {:induction false} RunInv<V(!new)>(repaired: bool, width: nat, v: V, run: seq<State<V>>, i: nat)
    requires Run(repaired, width, v, run) && i < |run|
    ensures Inv(run[i]) && |run[i].refCounts| == width
    ensures repaired ==> run[i].leaked == Init(width, v).leaked
  {
    if i == 0 {
      InitInv(width, v);
    } else {
      RunInv(repaired, width, v, run, i - 1);
      assert Steps(repaired, run[i - 1], run[i]);
      var step :| Allowed(repaired, step) && Enabled(run[i - 1], step) && Sound(run[i - 1], step)
          && run[i] == Next(run[i - 1], step);
      StepInv(run[i - 1], step);
    }
  }

  /** With the bucketless guard each counter is exactly the references counted in it; in general
      it exceeds them by the references that the guard as written has dropped. */
  lemma CountersAreReferences<V(!new)>(repaired: bool, width: nat, v: V, run: seq<State<V>>, i: nat, b: nat)
    requires Run(repaired, width, v, run) && i < |run| && b < width
    ensures |run[i].refCounts| == |run[i].leaked| == width
    ensures run[i].refCounts[b] == Refs(run[i], b) + run[i].leaked[b]
    ensures repaired ==> run[i].refCounts[b] == Refs(run[i], b)
  {
    RunInv(repaired, width, v, run, i);
    assert CountOk(run[i], b);
    if repaired {
      assert Init(width, v).leaked[b] == 0;
    }
  }

  /** An exclusive owner or a loader excludes every reader, claimant and writeback; everyone who
      reads reads the stored object; and the two exclude each other. */
  lemma LockIsSafe<V(!new)>(repaired: bool, width: nat, v: V, run: seq<State<V>>, i: nat)
    requires Run(repaired, width, v, run) && i < |run|
    ensures var s := run[i];
            && (s.load.Some? ==> s.exc.None?)
            && ((s.exc.Some? && s.exc.value.Owned?) || s.load.Some? ==>
                  s.writeback.None? && forall id | id in s.shared :: !s.shared[id].Obtained?)
            && (forall id | id in s.shared && s.shared[id].Obtained? :: s.storage == Some(s.shared[id].value))
            && (s.exc.Some? && !s.exc.value.Owned? ==> s.storage == Some(s.exc.value.value))
            && (s.writeback.Some? ==> s.storage == s.writeback)
  {
    RunInv(repaired, width, v, run, i);
    forall id | id in run[i].shared ensures SharedValid(run[i], run[i].shared[id]) {}
  }

  /** No enabled transition of a reachable state breaks an assertion of the source. */
  lemma AssertionsHold<V(!new)>(repaired: bool, width: nat, v: V, run: seq<State<V>>, i: nat, step: Step<V>)
    requires Run(repaired, width, v, run) && i < |run| && Enabled(run[i], step)
    ensures Sound(run[i], step)
  {
    RunInv(repaired, width, v, run, i);
    StepIsSound(run[i], step);
  }

  lemma RunRefinesAtomicLock<V(!new)>(repaired: bool, width: nat, v: V, run: seq<State<V>>)
    requires Run(repaired, width, v, run)
    ensures AtomicLock.Run(seq(|run|, i requires 0 <= i < |run| => Abstract(run[i])))
  {
    var lock := seq(|run|, i requires 0 <= i < |run| => Abstract(run[i]));
    forall i | 0 <= i < |lock| - 1 ensures AtomicLock.Next(lock[i], lock[i + 1]) {
      RunInv(repaired, width, v, run, i);
      assert Steps(repaired, run[i], run[i + 1]);
      var step :| Allowed(repaired, step) && Enabled(run[i], step) && Sound(run[i], step)
          && run[i + 1] == Next(run[i], step);
      StepRefinesAtomicLock(run[i], step);
    }
    assert Readers(Init(width, v)) == map[];
  }

  /** The safety of the atomic lock, inherited. */
  lemma AbstractIsSafe<V(!new)>(repaired: bool, width: nat, v: V, run: seq<State<V>>, i: nat)
    requires Run(repaired, width, v, run) && i < |run|
    ensures AtomicLock.Safe(Abstract(run[i]))
  {
    RunRefinesAtomicLock(repaired, width, v, run);
    AtomicLock.RunIsSafe(seq(|run|, k requires 0 <= k < |run| => Abstract(run[k])), i);
  }

  // ----- the guard as written

  ghost predicate Exact<V>(s: State<V>) {
    forall b | 0 <= b < |s.refCounts| :: s.refCounts[b] == Refs(s, b)
  }

  /** The state after a finished load is deposited, whatever it counted. */
  function Deposited<V>(s: State<V>, v: V): State<V> {
    s.(load := None, flag := Available, storage := Some(v))
  }

  /** Depositing a finished load keeps the counters exact if and only if the load counted no
      reference, so every use of the guard as written breaks them. */
  lemma DepositIsExactIffBucketless<V>(s: State<V>, v: V)
    requires Inv(s) && Exact(s) && s.load.Some? && s.load.value.LoadObtained?
    ensures Exact(Deposited(s, v)) <==> s.load.value.bucket.None?
  {
    var s' := Deposited(s, v);
    if s.load.value.bucket.Some? {
      var b := s.load.value.bucket.value;
      assert s.refCounts[b] == Refs(s, b) == Refs(s', b) + 1;
    } else {
      forall b | 0 <= b < |s.refCounts| ensures s'.refCounts[b] == Refs(s', b) {
        assert s.refCounts[b] == Refs(s, b);
      }
    }
  }

  lemma RunExtends<V(!new)>(width: nat, v: V, run: seq<State<V>>, step: Step<V>, s: State<V>)
    requires Run(false, width, v, run) && Enabled(run[|run| - 1], step) && Sound(run[|run| - 1], step)
    requires s == Next(run[|run| - 1], step)
    ensures Run(false, width, v, run + [s])
  {
  }

  /** Such a use is four steps away from the start. */
  lemma WrittenGuardIsReachable<V(!new)>(width: nat, v: V, w: V, b: nat) returns (run: seq<State<V>>)
    requires b < width
    ensures Run(false, width, v, run) && |run| == 5
    ensures !Exact(run[4]) && run[4].leaked == Bump(Init(width, v).leaked, b)
  {
    var zeros: seq<nat> := seq(width, i => 0);
    var one := Bump(zeros, b);
    var s1: State<V> := State(None, LoadingExcLock, zeros, map[], None, Some(LoadPending), None, zeros);
    var s2 := s1.(refCounts := one, load := Some(LoadCounted(Some(b))));
    var s3 := s2.(flag := Loading, load := Some(LoadObtained(Some(b))));
    var s4 := State(Some(w), Available, one, map[], None, None, None, one);
    run := [Init(width, v)];
    assert zeros == Init(width, v).leaked;
    RunExtends(width, v, run, Alloc, s1);
    RunExtends(width, v, run + [s1], LoadingIncCount(b), s2);
    RunExtends(width, v, run + [s1] + [s2], ObtainLoading, s3);
    RunExtends(width, v, run + [s1] + [s2] + [s3], LoadingToDoneAsWritten(w), s4);
    run := run + [s1] + [s2] + [s3] + [s4];
    assert Having(s4.shared, TokenIn(b)) == {};
    assert Refs(s4, b) == 0 && s4.refCounts[b] == 1;
  }

  /** A dropped reference in bucket `b`: no sweep has passed `b` since. */
  predicate Stuck<V>(s: State<V>, b: nat) {
    && b < |s.refCounts| == |s.leaked| && s.leaked[b] > 0
    && s.load.None? && !s.flag.Unmapped? && NotSwept(s, b)
  }

  lemma StuckStep<V>(s: State<V>, step: Step<V>, b: nat)
    requires Inv(s) && Stuck(s, b) && Enabled(s, step) && Sound(s, step)
    ensures Stuck(Next(s, step), b) && Next(s, step).storage == s.storage
  {
    assert CountOk(s, b);
  }

  lemma WrittenGuardSticks<V>(s: State<V>, v: V)
    requires Inv(s) && Enabled(s, LoadingToDoneAsWritten(v)) && Sound(s, LoadingToDoneAsWritten(v))
    ensures Stuck(Next(s, LoadingToDoneAsWritten(v)), s.load.value.bucket.value)
  {
  }

  lemma StuckNext<V(!new)>(width: nat, v: V, run: seq<State<V>>, i: nat, b: nat)
    requires Run(false, width, v, run) && i + 1 < |run| && Stuck(run[i], b)
    ensures Stuck(run[i + 1], b) && run[i + 1].storage == run[i].storage
  {
    RunInv(false, width, v, run, i);
    assert Steps(false, run[i], run[i + 1]);
    var step :| Allowed(false, step) && Enabled(run[i], step) && Sound(run[i], step)
        && run[i + 1] == Next(run[i], step);
    StuckStep(run[i], step, b);
  }

  lemma {:induction false} StuckForever<V(!new)>(width: nat, v: V, run: seq<State<V>>, i: nat, j: nat, b: nat)
    requires Run(false, width, v, run) && i <= j < |run| && Stuck(run[i], b)
    ensures Stuck(run[j], b) && run[j].storage == run[i].storage
    decreases j
  {
    if j > i {
      StuckForever(width, v, run, i, j - 1, b);
      StuckNext(width, v, run, j - 1, b);
    }
  }

  /** Once the guard as written has dropped a reference, no sweep ever passes its bucket: nobody
      obtains the exclusive lock again and the stored object can never change. */
  lemma DroppedReferenceFreezesTheObject<V(!new)>(width: nat, v: V, run: seq<State<V>>, i: nat, j: nat, w: V)
    requires Run(false, width, v, run) && i < j < |run|
    requires Enabled(run[i], LoadingToDoneAsWritten(w)) && Sound(run[i], LoadingToDoneAsWritten(w))
    requires run[i + 1] == Next(run[i], LoadingToDoneAsWritten(w))
    ensures run[j].storage == Some(w)
    ensures run[j].exc.Some? && run[j].exc.value.Sweep? ==> run[j].exc.value.visited <= run[i].load.value.bucket.value
    ensures run[j].exc.Some? ==> !run[j].exc.value.Owned?
  {
    RunInv(false, width, v, run, i);
    WrittenGuardSticks(run[i], w);
    StuckForever(width, v, run, i + 1, j, run[i].load.value.bucket.value);
  }

  ghost predicate StepsAsWritten<V(!new)>(s: State<V>, s': State<V>) {
    exists step: Step<V> :: !step.LoadingToDone? && Enabled(s, step) && Sound(s, step) && s' == Next(s, step)
  }

  lemma BucketlessLoadNext<V(!new)>(width: nat, v: V, run: seq<State<V>>, i: nat)
    requires Run(false, width, v, run) && i + 1 < |run|
    requires StepsAsWritten(run[i], run[i + 1]) && run[i].load == Some(LoadObtained(None))
    ensures run[i + 1].load == run[i].load
  {
  }

  /** With the guard as written alone a bucketless load never ends, and nobody reads the object
      again: the repaired deposit is its only way out. */
  lemma {:induction false} BucketlessLoadNeedsTheRepair<V(!new)>(width: nat, v: V, run: seq<State<V>>, i: nat, j: nat)
    requires Run(false, width, v, run) && i <= j < |run|
    requires forall k, l {:trigger StepsAsWritten(run[k], run[l])} | i <= k < l <= j && l == k + 1 ::
               StepsAsWritten(run[k], run[l])
    requires run[i].load == Some(LoadObtained(None))
    ensures run[j].load == Some(LoadObtained(None)) && run[j].storage.None?
    decreases j
  {
    if j > i {
      BucketlessLoadNeedsTheRepair(width, v, run, i, j - 1);
      assert StepsAsWritten(run[j - 1], run[j]);
      BucketlessLoadNext(width, v, run, j - 1);
    }
    RunInv(false, width, v, run, j);
  }
}
