/** The lock of a page cache, examples/scache/rwlock.rs: besides readers, counted in `width`
    counters, and an exclusive owner there are a loader, a claimant and a writeback. */
module CacheLock {
  import opened Linearizability
  import opened Counting

  datatype Flag =
    | Unmapped | Loading | LoadingExcLock | Available | Claimed | Writeback | WritebackAndClaimed
    | WritebackAndPendingExcLock | PendingExcLock | ExcLockClean | ExcLockDirty

  datatype Shared<V> = Pending(bucket: nat) | Pending2(bucket: nat) | Obtained(bucket: nat, value: V)

  datatype Exc<V> =
    | Claim(bucket: Option<nat>, value: V)
    | AwaitWriteback(bucket: Option<nat>, value: V)
    | Sweep(bucket: Option<nat>, value: V, visited: nat, clean: bool)
    | Owned(bucket: Option<nat>, clean: bool)

  datatype Load = LoadPending | LoadCounted(bucket: Option<nat>) | LoadObtained(bucket: Option<nat>)

  /** `shared` holds the reader tokens, each under an identity of its own.  `leaked` is a history
      variable: how often `LoadingToDoneAsWritten` dropped a reference counted in each bucket. */
  datatype State<V> = State(
    storage: Option<V>, flag: Flag, refCounts: seq<nat>, shared: map<nat, Shared<V>>, exc: Option<Exc<V>>,
    load: Option<Load>, writeback: Option<V>, leaked: seq<nat>)

  /** The transitions.  `SharedDecCount` is the three decrements, which differ only in the token
      they take.  `LoadingToDone` has the guard the rest of the machine calls for, a load that
      counted no reference; `LoadingToDoneAsWritten` has the guard of the source. */
  datatype Step<V> =
    | TakeWriteback
    | ReleaseWriteback
    | BucketlessClaim
    | SharedToClaim(id: nat)
    | ClaimToPending
    | FinishWriteback(clean: bool)
    | CheckRefCount
    | FinishExc
    | DowngradeExc(id: nat, v: V)
    | DowngradeToClaim(v: V)
    | Alloc
    | AllocNoRefcount
    | LoadingIncCount(b: nat)
    | ObtainLoading
    | ObtainLoadingNoRefcount
    | LoadingToShared(id: nat, v: V)
    | LoadingToDone(v: V)
    | LoadingToDoneAsWritten(v: V)
    | ExcIncCount(b: nat)
    | SharedIncCount(id: nat, b: nat)
    | SharedDecCount(id: nat)
    | SharedCheckExc(id: nat)
    | SharedCheckLoading(id: nat)

  /** The identities under which the claimant and the writeback read; no reader token has them. */
  const CLAIM_ID: nat := 0
  const WRITEBACK_ID: nat := 1

  predicate Unused<V>(s: State<V>, id: nat) { id >= 2 && id !in s.shared }

  function Init<V>(width: nat, v: V): State<V> {
    State(Some(v), Unmapped, seq(width, i => 0), map[], None, None, None, seq(width, i => 0))
  }

  function ExpectedCount(bucket: Option<nat>, visited: nat): nat {
    if bucket == Some(visited) then 1 else 0
  }

  predicate Holding<V>(s: State<V>, b: Option<nat>) { b.Some? && b.value < |s.refCounts| }

  /** The guard of a transition: what its caller must hold or see. */
  predicate Enabled<V>(s: State<V>, step: Step<V>) {
    match step
    case TakeWriteback => s.flag.Available?
    case ReleaseWriteback => s.writeback.Some?
    case BucketlessClaim => s.flag.Available? || s.flag.Writeback?
    case SharedToClaim(id) =>
      id in s.shared && s.shared[id].Obtained? && (s.flag.Available? || s.flag.Writeback?)
    case ClaimToPending => s.exc.Some? && s.exc.value.Claim?
    case FinishWriteback(_) =>
      && s.exc.Some? && s.exc.value.AwaitWriteback?
      && !s.flag.Writeback? && !s.flag.WritebackAndPendingExcLock?
    case CheckRefCount =>
      && s.exc.Some? && s.exc.value.Sweep? && s.exc.value.visited < |s.refCounts|
      && s.refCounts[s.exc.value.visited] == ExpectedCount(s.exc.value.bucket, s.exc.value.visited)
    case FinishExc => s.exc.Some? && s.exc.value.Sweep? && s.exc.value.visited == |s.refCounts|
    case DowngradeExc(id, _) => s.exc.Some? && s.exc.value.Owned? && s.exc.value.bucket.Some? && Unused(s, id)
    case DowngradeToClaim(_) => s.exc.Some? && s.exc.value.Owned? && s.exc.value.bucket.Some?
    case Alloc => s.flag.Unmapped?
    case AllocNoRefcount => s.flag.Unmapped?
    case LoadingIncCount(b) => b < |s.refCounts| && s.load == Some(LoadPending)
    case ObtainLoading => s.load.Some? && s.load.value.LoadCounted?
    case ObtainLoadingNoRefcount => s.load == Some(LoadPending)
    case LoadingToShared(id, _) =>
      s.load.Some? && s.load.value.LoadObtained? && s.load.value.bucket.Some? && Unused(s, id)
    case LoadingToDone(_) => s.load.Some? && s.load.value.LoadObtained? && s.load.value.bucket.None?
    case LoadingToDoneAsWritten(_) => s.load.Some? && s.load.value.LoadObtained? && s.load.value.bucket.Some?
    case ExcIncCount(b) => b < |s.refCounts| && s.exc.Some? && s.exc.value.Owned? && s.exc.value.bucket.None?
    case SharedIncCount(id, b) => b < |s.refCounts| && Unused(s, id)
    case SharedDecCount(id) => id in s.shared && s.shared[id].bucket < |s.refCounts|
    case SharedCheckExc(id) =>
      && id in s.shared && s.shared[id].Pending?
      && s.flag in {Available, Writeback, Claimed, WritebackAndClaimed, Loading}
    case SharedCheckLoading(id) =>
      id in s.shared && s.shared[id].Pending2? && s.shared[id].bucket < |s.refCounts| && !s.flag.Loading?
  }

  /** What a transition asserts or takes for granted: a withdrawn object is there and is the one
      named, a deposit finds the storage empty, an added token was not there already, a counter
      about to be decremented is not zero, and the asserted flags. */
  predicate Sound<V(==)>(s: State<V>, step: Step<V>) {
    match step
    case TakeWriteback => s.storage.Some? && s.writeback.None?
    case ReleaseWriteback => s.flag in {Writeback, WritebackAndPendingExcLock, WritebackAndClaimed}
    case BucketlessClaim => s.storage.Some? && s.exc.None?
    case SharedToClaim(_) => s.exc.None?
    case ClaimToPending => s.flag in {Claimed, WritebackAndClaimed}
    case FinishWriteback(_) => s.flag.PendingExcLock?
    case FinishExc => s.exc.Some? && s.exc.value.Sweep? && s.storage == Some(s.exc.value.value)
    case DowngradeExc(_, _) => s.storage.None?
    case DowngradeToClaim(_) => s.storage.None?
    case Alloc => s.storage.Some? && s.load.None?
    case AllocNoRefcount => s.storage.Some? && s.load.None?
    case LoadingToShared(_, _) => s.storage.None?
    case LoadingToDone(_) => s.storage.None?
    case LoadingToDoneAsWritten(_) =>
      && s.storage.None? && |s.leaked| == |s.refCounts|
      && s.load.Some? && s.load.value.LoadObtained? && Holding(s, s.load.value.bucket)
    case SharedDecCount(id) =>
      id in s.shared && s.shared[id].bucket < |s.refCounts| && s.refCounts[s.shared[id].bucket] > 0
    case SharedCheckLoading(_) => s.storage.Some?
    case _ => true
  }

  function Bump(counts: seq<nat>, b: nat): seq<nat>
    requires b < |counts|
  {
    counts[b := counts[b] + 1]
  }

  function Next<V>(s: State<V>, step: Step<V>): State<V>
    requires Enabled(s, step) && Sound(s, step)
  {
    match step
    case TakeWriteback => s.(flag := Writeback, writeback := s.storage)
    case ReleaseWriteback =>
      s.(writeback := None,
         flag := if s.flag.Writeback? then Available
                 else if s.flag.WritebackAndPendingExcLock? then PendingExcLock else Claimed)
    case BucketlessClaim =>
      s.(flag := if s.flag.Available? then Claimed else WritebackAndClaimed,
         exc := Some(Claim(None, s.storage.value)))
    case SharedToClaim(id) =>
      s.(shared := s.shared - {id},
         flag := if s.flag.Available? then Claimed else WritebackAndClaimed,
         exc := Some(Claim(Some(s.shared[id].bucket), s.shared[id].value)))
    case ClaimToPending =>
      s.(exc := Some(AwaitWriteback(s.exc.value.bucket, s.exc.value.value)),
         flag := if s.flag.Claimed? then PendingExcLock else WritebackAndPendingExcLock)
    case FinishWriteback(clean) =>
      s.(exc := Some(Sweep(s.exc.value.bucket, s.exc.value.value, 0, clean)),
         flag := if clean then ExcLockClean else ExcLockDirty)
    case CheckRefCount => s.(exc := Some(s.exc.value.(visited := s.exc.value.visited + 1)))
    case FinishExc => s.(exc := Some(Owned(s.exc.value.bucket, s.exc.value.clean)), storage := None)
    case DowngradeExc(id, v) =>
      s.(exc := None, flag := Available, storage := Some(v),
         shared := s.shared[id := Obtained(s.exc.value.bucket.value, v)])
    case DowngradeToClaim(v) =>
      s.(exc := Some(Claim(s.exc.value.bucket, v)), flag := Claimed, storage := Some(v))
    case Alloc => s.(flag := LoadingExcLock, load := Some(LoadPending), storage := None)
    case AllocNoRefcount => s.(flag := Loading, load := Some(LoadObtained(None)), storage := None)
    case LoadingIncCount(b) => s.(load := Some(LoadCounted(Some(b))), refCounts := Bump(s.refCounts, b))
    case ObtainLoading => s.(load := Some(LoadObtained(s.load.value.bucket)), flag := Loading)
    case ObtainLoadingNoRefcount => s.(load := Some(LoadObtained(None)), flag := Loading)
    case LoadingToShared(id, v) =>
      s.(load := None, flag := Available, storage := Some(v),
         shared := s.shared[id := Obtained(s.load.value.bucket.value, v)])
    case LoadingToDone(v) => s.(load := None, flag := Available, storage := Some(v))
    case LoadingToDoneAsWritten(v) =>
      s.(load := None, flag := Available, storage := Some(v),
         leaked := Bump(s.leaked, s.load.value.bucket.value))
    case ExcIncCount(b) =>
      s.(exc := Some(Owned(Some(b), s.exc.value.clean)), refCounts := Bump(s.refCounts, b))
    case SharedIncCount(id, b) =>
      s.(refCounts := Bump(s.refCounts, b), shared := s.shared[id := Pending(b)])
    case SharedDecCount(id) =>
      var b := s.shared[id].bucket;
      s.(refCounts := s.refCounts[b := s.refCounts[b] - 1], shared := s.shared - {id})
    case SharedCheckExc(id) => s.(shared := s.shared[id := Pending2(s.shared[id].bucket)])
    case SharedCheckLoading(id) =>
      s.(shared := s.shared[id := Obtained(s.shared[id].bucket, s.storage.value)])
  }

  // ----- the invariant

  predicate ValidBucket(b: Option<nat>, width: nat) { b.Some? ==> b.value < width }

  predicate StorageOk<V>(s: State<V>) {
    s.storage.None? <==> (s.exc.Some? && s.exc.value.Owned?) || s.load.Some?
  }

  predicate ExcOk<V(==)>(s: State<V>) {
    s.exc.Some? ==>
      var e := s.exc.value;
      && s.load.None? && ValidBucket(e.bucket, |s.refCounts|)
      && (!e.Owned? ==> s.storage == Some(e.value))
      && (e.Sweep? || e.Owned? ==> s.writeback.None?)
      && (e.Sweep? ==> e.visited <= |s.refCounts|)
  }

  predicate WritebackOk<V(==)>(s: State<V>) {
    s.writeback.Some? ==> s.load.None? && s.storage == s.writeback
  }

  predicate LoadOk<V>(s: State<V>) {
    s.load.Some? ==>
      && (!s.load.value.LoadObtained? ==> s.writeback.None?)
      && (!s.load.value.LoadPending? ==> ValidBucket(s.load.value.bucket, |s.refCounts|))
      && (s.load.value.LoadCounted? ==> s.load.value.bucket.Some?)
  }

  predicate FlagOk<V>(s: State<V>) {
    match s.flag
    case Unmapped => s.exc.None? && s.load.None? && s.writeback.None?
    case Loading => s.load.Some? && s.load.value.LoadObtained? && s.writeback.None?
    case LoadingExcLock => s.load.Some? && !s.load.value.LoadObtained? && s.writeback.None?
    case Available => s.exc.None? && s.load.None? && s.writeback.None?
    case Claimed => s.exc.Some? && s.exc.value.Claim? && s.writeback.None?
    case Writeback => s.exc.None? && s.load.None? && s.writeback.Some?
    case WritebackAndClaimed => s.exc.Some? && s.exc.value.Claim? && s.writeback.Some?
    case WritebackAndPendingExcLock => s.exc.Some? && s.exc.value.AwaitWriteback? && s.writeback.Some?
    case PendingExcLock => s.exc.Some? && s.exc.value.AwaitWriteback? && s.writeback.None?
    case ExcLockClean =>
      s.exc.Some? && (s.exc.value.Sweep? || s.exc.value.Owned?) && s.exc.value.clean && s.writeback.None?
    case ExcLockDirty =>
      s.exc.Some? && (s.exc.value.Sweep? || s.exc.value.Owned?) && !s.exc.value.clean && s.writeback.None?
  }

  predicate ScalarsOk<V(==)>(s: State<V>) {
    && |s.leaked| == |s.refCounts|
    && StorageOk(s) && ExcOk(s) && WritebackOk(s) && LoadOk(s) && FlagOk(s)
  }

  /** A reader past its check of the flag holds off the sweep at its own bucket. */
  predicate NotSwept<V>(s: State<V>, bucket: nat) {
    s.exc.Some? ==> !s.exc.value.Owned? && (s.exc.value.Sweep? ==> s.exc.value.visited <= bucket)
  }

  predicate SharedValid<V(==)>(s: State<V>, token: Shared<V>) {
    && token.bucket < |s.refCounts|
    && match token
       case Pending(_) => true
       case Pending2(b) =>
         && NotSwept(s, b) && (s.load.Some? ==> s.load.value.LoadObtained?) && !s.flag.Unmapped?
       case Obtained(b, v) => s.storage == Some(v) && NotSwept(s, b) && s.load.None? && !s.flag.Unmapped?
  }

  ghost predicate SharedOk<V>(s: State<V>) {
    forall id | id in s.shared :: id >= 2 && SharedValid(s, s.shared[id])
  }

  function TokenIn<V>(b: nat): Shared<V> -> bool { (t: Shared<V>) => t.bucket == b }

  function ExcRefs<V>(exc: Option<Exc<V>>, b: nat): nat {
    if exc.Some? && exc.value.bucket == Some(b) then 1 else 0
  }

  function LoadRefs(load: Option<Load>, b: nat): nat {
    if load.Some? && !load.value.LoadPending? && load.value.bucket == Some(b) then 1 else 0
  }

  /** The references counted in bucket `b`: reader tokens, the exclusive holder and the loader. */
  ghost function Refs<V>(s: State<V>, b: nat): nat {
    |Having(s.shared, TokenIn(b))| + ExcRefs(s.exc, b) + LoadRefs(s.load, b)
  }

  ghost predicate CountOk<V>(s: State<V>, b: nat) {
    |s.leaked| == |s.refCounts| && (b < |s.refCounts| ==> s.refCounts[b] == Refs(s, b) + s.leaked[b])
  }

  ghost predicate Inv<V>(s: State<V>) {
    ScalarsOk(s) && SharedOk(s) && forall b: nat :: CountOk(s, b)
  }

  // ----- what every step keeps

  /** No assertion fails, no object is taken or put where it must not be, no counter underflows. */
  lemma StepIsSound<V>(s: State<V>, step: Step<V>)
    requires Inv(s) && Enabled(s, step)
    ensures Sound(s, step)
  {
    match step
    case SharedDecCount(id) =>
      var b := s.shared[id].bucket;
      assert CountOk(s, b);
      HavingNone(s.shared, TokenIn(b), id);
    case SharedCheckLoading(id) => assert SharedValid(s, s.shared[id]);
    case _ =>
  }

  lemma ScalarsStep<V>(s: State<V>, step: Step<V>)
    requires ScalarsOk(s) && SharedOk(s) && Enabled(s, step) && Sound(s, step)
    ensures ScalarsOk(Next(s, step)) && |Next(s, step).refCounts| == |s.refCounts|
  {
  }

  /** The sweep passes a bucket only when no reader past its check is counted there. */
  lemma SweptBucketHasNoReader<V>(s: State<V>, id: nat)
    requires Inv(s) && Enabled(s, CheckRefCount) && id in s.shared
    ensures s.shared[id].bucket != s.exc.value.visited
  {
    var b := s.exc.value.visited;
    if s.shared[id].bucket == b {
      assert CountOk(s, b);
      HavingNone(s.shared, TokenIn(b), id);
    }
  }

  lemma SharedStep<V>(s: State<V>, step: Step<V>, id: nat)
    requires Inv(s) && Enabled(s, step) && Sound(s, step) && id in Next(s, step).shared
    ensures id >= 2 && SharedValid(Next(s, step), Next(s, step).shared[id])
  {
    if id in s.shared {
      assert SharedValid(s, s.shared[id]);
      if step.CheckRefCount? {
        SweptBucketHasNoReader(s, id);
      }
    }
  }

  lemma CountStep<V>(s: State<V>, step: Step<V>, b: nat)
    requires Inv(s) && Enabled(s, step) && Sound(s, step)
    ensures CountOk(Next(s, step), b)
  {
    assert CountOk(s, b);
    match step
    case SharedToClaim(id) => HavingRemove(s.shared, TokenIn(b), id);
    case DowngradeExc(id, v) => HavingInsert(s.shared, TokenIn(b), id, Obtained(s.exc.value.bucket.value, v));
    case LoadingToShared(id, v) => HavingInsert(s.shared, TokenIn(b), id, Obtained(s.load.value.bucket.value, v));
    case SharedIncCount(id, c) => HavingInsert(s.shared, TokenIn(b), id, Pending(c));
    case SharedDecCount(id) => HavingRemove(s.shared, TokenIn(b), id);
    case SharedCheckExc(id) => HavingReplace(s.shared, TokenIn(b), id, Pending2(s.shared[id].bucket));
    case SharedCheckLoading(id) =>
      HavingReplace(s.shared, TokenIn(b), id, Obtained(s.shared[id].bucket, s.storage.value));
    case _ =>
  }

  lemma StepInv<V>(s: State<V>, step: Step<V>)
    requires Inv(s) && Enabled(s, step) && Sound(s, step)
    ensures Inv(Next(s, step)) && |Next(s, step).refCounts| == |s.refCounts|
  {
    ScalarsStep(s, step);
    forall id | id in Next(s, step).shared ensures id >= 2 && SharedValid(Next(s, step), Next(s, step).shared[id]) {
      SharedStep(s, step, id);
    }
    forall b: nat ensures CountOk(Next(s, step), b) {
      CountStep(s, step, b);
    }
  }

  lemma InitInv<V>(width: nat, v: V)
    ensures Inv(Init(width, v))
  {
  }
}
