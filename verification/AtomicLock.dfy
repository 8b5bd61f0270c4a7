/** A reader-writer lock whose operations are single steps: what the three lock protocols of the
    repository are for.  `stored` is absent while a writer has taken the object out; each reader
    is known by the identity of its guard. */
module AtomicLock {
  import opened Linearizability

  datatype Lock<V> = Lock(stored: Option<V>, readers: map<nat, V>)

  datatype Step<V> =
    | Stutter
    | AcquireRead(id: nat)
    | ReleaseRead(id: nat)
    | AcquireWrite
    | ReleaseWrite(v: V)
    | Upgrade(id: nat)              // the only reader becomes the writer
    | Downgrade(id: nat, v: V)      // the writer puts an object back and keeps reading it
    | PassOn(id: nat, to: nat)      // a reader hands its guard to another identity

  predicate Takes<V(==)>(s: Lock<V>, step: Step<V>, s': Lock<V>) {
    match step
    case Stutter => s' == s
    case AcquireRead(id) =>
      s.stored.Some? && id !in s.readers && s' == s.(readers := s.readers[id := s.stored.value])
    case ReleaseRead(id) => id in s.readers && s' == s.(readers := s.readers - {id})
    case AcquireWrite => s.stored.Some? && s.readers == map[] && s' == s.(stored := None)
    case ReleaseWrite(v) => s.stored.None? && s' == s.(stored := Some(v))
    case Upgrade(id) => s.stored.Some? && s.readers.Keys == {id} && s' == Lock(None, map[])
    case Downgrade(id, v) => s.stored.None? && id !in s.readers && s' == Lock(Some(v), s.readers[id := v])
    case PassOn(id, to) =>
      id in s.readers && to !in s.readers && s' == s.(readers := (s.readers - {id})[to := s.readers[id]])
  }

  ghost predicate Next<V(!new)>(s: Lock<V>, s': Lock<V>) {
    exists step :: Takes(s, step, s')
  }

  /** Readers exclude the writer, and all of them see the stored object. */
  ghost predicate Safe<V>(s: Lock<V>) {
    && (s.stored.None? ==> s.readers == map[])
    && forall id | id in s.readers :: s.stored == Some(s.readers[id])
  }

  ghost predicate Run<V(!new)>(run: seq<Lock<V>>) {
    && |run| > 0 && run[0].stored.Some? && run[0].readers == map[]
    && forall i | 0 <= i < |run| - 1 :: Next(run[i], run[i + 1])
  }

  /** Every run of the atomic lock is safe; a protocol whose runs map to runs of this lock
      inherits it. */
  lemma {:induction false} RunIsSafe<V(!new)>(run: seq<Lock<V>>, i: nat)
    requires Run(run) && i < |run|
    ensures Safe(run[i])
  {
    if i > 0 {
      RunIsSafe(run, i - 1);
      assert Next(run[i - 1], run[i]);
    }
  }
}
