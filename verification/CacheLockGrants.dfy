/** When the cache lock lets somebody in: its guards read off the tokens, and what a claimant, a
    reader and a loader reach when nobody is in their way. */
module CacheLockGrants {
  import opened Linearizability
  import opened Counting
  import opened CacheLock
  import opened CacheLockTheorems

  // ----- the guards

  /** The object has been loaded and is not being loaded. */
  predicate Loaded<V>(s: State<V>) { !s.flag.Unmapped? && s.load.None? }

  /** A reader may pass its first check. */
  predicate NoOwner<V>(s: State<V>) { s.exc.Some? ==> s.exc.value.Claim? }

  /** Every guard on the flag is a condition on who holds which token: a claim needs that nobody has
      one, a writeback that there is neither claim nor writeback, the sweep that the writeback is
      over, a reader's first check that nobody is past his claim, and its second that no load is
      under way. */
  lemma GuardsMeanTokens<V(!new)>(repaired: bool, width: nat, v: V, run: seq<State<V>>, i: nat, id: nat, clean: bool)
    requires Run(repaired, width, v, run) && i < |run|
    ensures var s := run[i];
            && (Enabled(s, TakeWriteback) <==> Loaded(s) && s.exc.None? && s.writeback.None?)
            && (Enabled(s, BucketlessClaim) <==> Loaded(s) && s.exc.None?)
            && (Enabled(s, SharedToClaim(id)) <==> id in s.shared && s.shared[id].Obtained? && s.exc.None?)
            && (Enabled(s, FinishWriteback(clean)) <==>
                  s.exc.Some? && s.exc.value.AwaitWriteback? && s.writeback.None?)
            && (Enabled(s, SharedCheckExc(id)) <==>
                  && id in s.shared && s.shared[id].Pending? && NoOwner(s) && !s.flag.Unmapped?
                  && (s.load.Some? ==> s.load.value.LoadObtained?))
            && (Enabled(s, SharedCheckLoading(id)) <==> id in s.shared && s.shared[id].Pending2? && s.load.None?)
  {
    RunInv(repaired, width, v, run, i);
    assert id in run[i].shared ==> SharedValid(run[i], run[i].shared[id]);
  }

  // ----- the sweep

  /** Nobody but the sweeper is counted in bucket `b`. */
  ghost predicate OnlySweeper<V>(s: State<V>, b: nat)
    requires |s.leaked| == |s.refCounts|
  {
    (b < |s.leaked| ==> s.leaked[b] == 0) && forall id | id in s.shared :: s.shared[id].bucket != b
  }

  lemma CountIsOwnIff<V>(s: State<V>, b: nat)
    requires Inv(s) && s.exc.Some? && b < |s.refCounts|
    ensures s.refCounts[b] == ExpectedCount(s.exc.value.bucket, b) <==> OnlySweeper(s, b)
  {
    assert CountOk(s, b);
    if OnlySweeper(s, b) {
      assert Having(s.shared, TokenIn(b)) == {};
    } else if s.leaked[b] == 0 {
      var id :| id in s.shared && s.shared[id].bucket == b;
      HavingNone(s.shared, TokenIn(b), id);
    }
  }

  /** The sweep passes a bucket if and only if no reader is counted there and no reference has been
      dropped there; the sweeper's own reference does not stop it. */
  lemma SweepPassesIff<V(!new)>(repaired: bool, width: nat, v: V, run: seq<State<V>>, i: nat)
    requires Run(repaired, width, v, run) && i < |run|
    requires run[i].exc.Some? && run[i].exc.value.Sweep? && run[i].exc.value.visited < width
    ensures |run[i].leaked| == |run[i].refCounts|
    ensures Enabled(run[i], CheckRefCount) <==> OnlySweeper(run[i], run[i].exc.value.visited)
  {
    RunInv(repaired, width, v, run, i);
    CountIsOwnIff(run[i], run[i].exc.value.visited);
  }

  function Unvisited<V>(s: State<V>): int {
    if s.exc.Some? && s.exc.value.Sweep? then |s.refCounts| - s.exc.value.visited else 0
  }

  /** The sweeper goes on as long as it can. */
  function Sweeping<V>(s: State<V>): State<V>
    decreases Unvisited(s)
  {
    if Enabled(s, CheckRefCount) then Sweeping(Next(s, CheckRefCount)) else s
  }

  lemma {:induction false} SweepEnds<V>(s: State<V>)
    requires Inv(s) && s.exc.Some? && s.exc.value.Sweep?
    ensures var end := Sweeping(s);
            && Inv(end) && end.exc.Some? && end.exc.value.Sweep? && end == s.(exc := end.exc)
            && end.exc.value == s.exc.value.(visited := end.exc.value.visited)
            && (Enabled(end, FinishExc) <==>
                  forall b: nat | s.exc.value.visited <= b < |s.refCounts| :: OnlySweeper(s, b))
    decreases Unvisited(s)
  {
    var at := s.exc.value.visited;
    if at < |s.refCounts| {
      CountIsOwnIff(s, at);
    }
    if Enabled(s, CheckRefCount) {
      var next := Next(s, CheckRefCount);
      StepInv(s, CheckRefCount);
      SweepEnds(next);
      forall b: nat | at < b < |s.refCounts| ensures OnlySweeper(next, b) <==> OnlySweeper(s, b) {}
    }
  }

  // ----- from a claim to the object

  /** What a claimant does while nobody else moves and no writeback is under way. */
  function Upgraded<V>(s: State<V>, clean: bool): State<V>
    requires Inv(s) && s.exc.Some? && s.exc.value.Claim? && s.writeback.None?
  {
    StepInv(s, ClaimToPending);
    var waiting := Next(s, ClaimToPending);
    Sweeping(Next(waiting, FinishWriteback(clean)))
  }

  function Owning<V>(s: State<V>, clean: bool): State<V>
    requires s.exc.Some?
  {
    s.(exc := Some(Owned(s.exc.value.bucket, clean)), storage := None,
       flag := if clean then ExcLockClean else ExcLockDirty)
  }

  lemma ClaimantOwns<V>(s: State<V>, clean: bool)
    requires Inv(s) && s.exc.Some? && s.exc.value.Claim? && s.writeback.None?
    ensures var end := Upgraded(s, clean);
            && (Enabled(end, FinishExc) <==>
                  s.shared == map[] && forall b | 0 <= b < |s.leaked| :: s.leaked[b] == 0)
            && (Enabled(end, FinishExc) ==>
                  Sound(end, FinishExc) && Inv(end) && Next(end, FinishExc) == Owning(s, clean))
  {
    var waiting := Next(s, ClaimToPending);
    StepInv(s, ClaimToPending);
    StepIsSound(waiting, FinishWriteback(clean));
    StepInv(waiting, FinishWriteback(clean));
    var sweep := Next(waiting, FinishWriteback(clean));
    SweepEnds(sweep);
    EveryBucketIff(sweep);
  }

  /** A claimant left to itself becomes the exclusive owner if and only if no reader is counted
      anywhere and no reference has been dropped. */
  lemma ClaimantOwnsIff<V(!new)>(repaired: bool, width: nat, v: V, run: seq<State<V>>, i: nat, clean: bool)
    requires Run(repaired, width, v, run) && i < |run|
    requires run[i].exc.Some? && run[i].exc.value.Claim? && run[i].writeback.None?
    ensures Inv(run[i])
    ensures var s, end := run[i], Upgraded(run[i], clean);
            && (Enabled(end, FinishExc) <==>
                  s.shared == map[] && forall b | 0 <= b < |s.leaked| :: s.leaked[b] == 0)
            && (Enabled(end, FinishExc) ==> Sound(end, FinishExc) && Next(end, FinishExc) == Owning(s, clean))
  {
    RunInv(repaired, width, v, run, i);
    ClaimantOwns(run[i], clean);
  }

  lemma EveryBucketIff<V>(s: State<V>)
    requires Inv(s)
    ensures (forall b: nat | b < |s.refCounts| :: OnlySweeper(s, b)) <==>
            s.shared == map[] && forall b | 0 <= b < |s.leaked| :: s.leaked[b] == 0
  {
    if s.shared != map[] {
      var id :| id in s.shared;
      assert SharedValid(s, s.shared[id]);
      assert !OnlySweeper(s, s.shared[id].bucket);
    } else if b: nat :| b < |s.leaked| && s.leaked[b] != 0 {
      assert !OnlySweeper(s, b);
    }
  }

  /** A reader's three steps, taken one after the other. */
  function Counted<V>(s: State<V>, id: nat, b: nat): State<V>
    requires b < |s.refCounts| && Unused(s, id)
  {
    Next(s, SharedIncCount(id, b))
  }

  function Obtaining<V>(s: State<V>, id: nat, b: nat): State<V>
    requires b < |s.refCounts| && Unused(s, id) && s.storage.Some?
  {
    s.(refCounts := Bump(s.refCounts, b), shared := s.shared[id := Obtained(b, s.storage.value)])
  }

  lemma FirstCheckIff<V>(s: State<V>, id: nat, b: nat)
    requires Inv(s) && b < |s.refCounts| && Unused(s, id)
    ensures Enabled(Counted(s, id, b), SharedCheckExc(id)) <==>
            NoOwner(s) && !s.flag.Unmapped? && (s.load.Some? ==> s.load.value.LoadObtained?)
  {
  }

  lemma SecondCheckIff<V>(s: State<V>, id: nat, b: nat)
    requires Inv(s) && b < |s.refCounts| && Unused(s, id) && Enabled(Counted(s, id, b), SharedCheckExc(id))
    ensures var s2 := Next(Counted(s, id, b), SharedCheckExc(id));
            && (Enabled(s2, SharedCheckLoading(id)) <==> s.load.None?)
            && (s.load.None? ==> s.storage.Some? && Next(s2, SharedCheckLoading(id)) == Obtaining(s, id, b))
  {
    var s2 := Next(Counted(s, id, b), SharedCheckExc(id));
    CheckedState(s, id, b);
    FirstCheckIff(s, id, b);
    if s.load.None? {
      assert Next(s2, SharedCheckLoading(id)).shared == Obtaining(s, id, b).shared;
    }
  }

  lemma CheckedState<V>(s: State<V>, id: nat, b: nat)
    requires b < |s.refCounts| && Unused(s, id) && Enabled(Counted(s, id, b), SharedCheckExc(id))
    ensures Next(Counted(s, id, b), SharedCheckExc(id)) ==
            s.(refCounts := Bump(s.refCounts, b), shared := s.shared[id := Pending2(b)])
  {
    var checked: map<nat, Shared<V>> := s.shared[id := Pending2(b)];
    assert Next(Counted(s, id, b), SharedCheckExc(id)).shared == checked;
  }

  /** A reader left to itself gets the stored object if and only if the object is loaded and nobody
      is past a claim, however many others read, claim or write back. */
  lemma LoneReadIff<V(!new)>(repaired: bool, width: nat, v: V, run: seq<State<V>>, i: nat, id: nat, b: nat)
    requires Run(repaired, width, v, run) && i < |run| && Unused(run[i], id) && b < width
    ensures |run[i].refCounts| == width && Enabled(run[i], SharedIncCount(id, b))
    ensures var s := Counted(run[i], id, b);
            && (Enabled(s, SharedCheckExc(id)) && Enabled(Next(s, SharedCheckExc(id)), SharedCheckLoading(id)) <==>
                  Loaded(run[i]) && NoOwner(run[i]))
            && (Loaded(run[i]) && NoOwner(run[i]) ==>
                  && run[i].storage.Some? && Sound(Next(s, SharedCheckExc(id)), SharedCheckLoading(id))
                  && Next(Next(s, SharedCheckExc(id)), SharedCheckLoading(id)) == Obtaining(run[i], id, b))
  {
    RunInv(repaired, width, v, run, i);
    FirstCheckIff(run[i], id, b);
    if Enabled(Counted(run[i], id, b), SharedCheckExc(id)) {
      SecondCheckIff(run[i], id, b);
    }
  }

  /** From an unmapped page: a load that counts a reference in bucket `b`, and its deposit. */
  function LoadedBy<V>(s: State<V>, id: nat, b: nat, v: V): State<V>
    requires b < |s.refCounts| && Unused(s, id)
  {
    s.(flag := Available, storage := Some(v), refCounts := Bump(s.refCounts, b),
       shared := s.shared[id := Obtained(b, v)])
  }

  /** A loader left to itself loads the page and goes on as a reader of what it loaded. */
  lemma LoneLoad<V(!new)>(repaired: bool, width: nat, v: V, run: seq<State<V>>, i: nat, id: nat, b: nat, w: V)
    requires Run(repaired, width, v, run) && i < |run| && run[i].flag.Unmapped? && Unused(run[i], id) && b < width
    ensures |run[i].refCounts| == width && Enabled(run[i], Alloc) && Sound(run[i], Alloc)
    ensures var s1 := Next(run[i], Alloc);
            && Enabled(s1, LoadingIncCount(b))
            && var s2 := Next(s1, LoadingIncCount(b));
            && Enabled(s2, ObtainLoading)
            && var s3 := Next(s2, ObtainLoading);
            && Enabled(s3, LoadingToShared(id, w)) && Sound(s3, LoadingToShared(id, w))
            && Next(s3, LoadingToShared(id, w)) == LoadedBy(run[i], id, b, w)
  {
    RunInv(repaired, width, v, run, i);
  }

  /** A prefetch, with or without the detour over the exclusive bit, makes the page available. */
  lemma LonePrefetch<V(!new)>(repaired: bool, width: nat, v: V, run: seq<State<V>>, i: nat, w: V, direct: bool)
    requires Run(repaired, width, v, run) && i < |run| && run[i].flag.Unmapped?
    ensures var alloc: Step<V> := if direct then AllocNoRefcount else Alloc;
            && Enabled(run[i], alloc) && Sound(run[i], alloc)
            && var s1 := Next(run[i], alloc);
            && (!direct ==> Enabled(s1, ObtainLoadingNoRefcount))
            && var s2 := if direct then s1 else Next(s1, ObtainLoadingNoRefcount);
            && Enabled(s2, LoadingToDone(w)) && Sound(s2, LoadingToDone(w))
            && Next(s2, LoadingToDone(w)) == run[i].(flag := Available, storage := Some(w))
  {
    RunInv(repaired, width, v, run, i);
  }

  // ----- there and back

  /** The only reader, with nothing else under way. */
  ghost predicate OnlyReader<V>(s: State<V>, id: nat) {
    && Loaded(s) && s.exc.None? && s.writeback.None?
    && s.shared.Keys == {id} && s.shared[id].Obtained?
    && forall b | 0 <= b < |s.leaked| :: s.leaked[b] == 0
  }

  lemma ClaimsAlone<V>(s: State<V>, id: nat)
    requires Inv(s) && OnlyReader(s, id)
    ensures Enabled(s, SharedToClaim(id)) && Sound(s, SharedToClaim(id))
    ensures var s' := Next(s, SharedToClaim(id));
            && Inv(s') && s'.shared == map[] && s'.exc == Some(Claim(Some(s.shared[id].bucket), s.shared[id].value))
            && s'.storage.Some? && s' == s.(shared := map[], exc := s'.exc, flag := Claimed)
  {
    assert SharedValid(s, s.shared[id]);
    StepInv(s, SharedToClaim(id));
    assert s.shared - {id} == map[];
  }

  /** The exclusive owner puts an object back and goes on as a reader of it. */
  lemma OwnerDowngrades<V>(s: State<V>, id: nat, b: nat, clean: bool, w: V)
    requires Inv(s) && s.exc == Some(Owned(Some(b), clean)) && Unused(s, id)
    ensures Enabled(s, DowngradeExc(id, w)) && Sound(s, DowngradeExc(id, w))
    ensures Next(s, DowngradeExc(id, w)) ==
            s.(exc := None, flag := Available, storage := Some(w), shared := s.shared[id := Obtained(b, w)])
  {
  }

  /** From the only reader to the owner. */
  function ReaderToOwner<V>(s: State<V>, id: nat, clean: bool): (s': State<V>)
    requires Inv(s) && OnlyReader(s, id)
    ensures Inv(s') && s'.exc == Some(Owned(Some(s.shared[id].bucket), clean)) && s'.shared == map[]
    ensures s' == s.(shared := map[], exc := s'.exc, flag := s'.flag, storage := None)
  {
    ClaimsAlone(s, id);
    var claimed := Next(s, SharedToClaim(id));
    ClaimantOwns(claimed, clean);
    var end := Upgraded(claimed, clean);
    StepInv(end, FinishExc);
    Next(end, FinishExc)
  }

  /** The only reader can take the exclusive lock, replace the object and go on reading: afterwards
      everything is as it was but for the object. */
  lemma UpgradeAndBack<V(!new)>(
      repaired: bool, width: nat, v: V, run: seq<State<V>>, i: nat, id: nat, clean: bool, w: V)
    requires Run(repaired, width, v, run) && i < |run| && OnlyReader(run[i], id) && run[i].flag.Available?
    ensures Inv(run[i])
    ensures var owner := ReaderToOwner(run[i], id, clean);
            && owner.storage.None? && Enabled(owner, DowngradeExc(id, w)) && Sound(owner, DowngradeExc(id, w))
            && Next(owner, DowngradeExc(id, w)) ==
                 run[i].(storage := Some(w), shared := run[i].shared[id := Obtained(run[i].shared[id].bucket, w)])
  {
    RunInv(repaired, width, v, run, i);
    var owner := ReaderToOwner(run[i], id, clean);
    assert SharedValid(run[i], run[i].shared[id]);
    OwnerDowngrades(owner, id, run[i].shared[id].bucket, clean, w);
    var one: map<nat, Shared<V>> := map[id := Obtained(run[i].shared[id].bucket, w)];
    assert run[i].shared[id := Obtained(run[i].shared[id].bucket, w)] == one;
  }

  /** Somebody who claims without a reference, owns the object, counts itself in bucket `b` and steps
      back to a claim: nobody else is needed for that. */
  lemma ClaimAndBack<V(!new)>(repaired: bool, width: nat, v: V, run: seq<State<V>>, i: nat, b: nat, clean: bool, w: V)
    requires Run(repaired, width, v, run) && i < |run| && run[i].flag.Available? && run[i].shared == map[] && b < width
    requires forall c | 0 <= c < |run[i].leaked| :: run[i].leaked[c] == 0
    ensures |run[i].refCounts| == width && Enabled(run[i], BucketlessClaim) && Sound(run[i], BucketlessClaim)
    ensures var claimed := Next(run[i], BucketlessClaim);
            && Inv(claimed) && Enabled(Upgraded(claimed, clean), FinishExc)
            && var owner := Owning(claimed, clean);
            && Enabled(owner, ExcIncCount(b))
            && var counted := Next(owner, ExcIncCount(b));
            && Enabled(counted, DowngradeToClaim(w)) && Sound(counted, DowngradeToClaim(w))
            && Next(counted, DowngradeToClaim(w)) ==
                 run[i].(storage := Some(w), flag := Claimed, exc := Some(Claim(Some(b), w)),
                         refCounts := Bump(run[i].refCounts, b))
  {
    RunInv(repaired, width, v, run, i);
    StepIsSound(run[i], BucketlessClaim);
    StepInv(run[i], BucketlessClaim);
    ClaimantOwns(Next(run[i], BucketlessClaim), clean);
  }

  /** A reader may give up before either check, or leave when it has read: in each case it leaves no
      trace. */
  lemma ReaderLeaves<V(!new)>(
      repaired: bool, width: nat, v: V, run: seq<State<V>>, i: nat, id: nat, b: nat, token: Shared<V>)
    requires Run(repaired, width, v, run) && i < |run| && Unused(run[i], id) && b < width && token.bucket == b
    ensures |run[i].refCounts| == width
    ensures var s := Joined(run[i], id, token);
            && Enabled(s, SharedDecCount(id)) && Sound(s, SharedDecCount(id))
            && Next(s, SharedDecCount(id)) == run[i]
    ensures Joined(run[i], id, Pending(b)) == Counted(run[i], id, b)
    ensures run[i].storage.Some? ==> Joined(run[i], id, Obtained(b, run[i].storage.value)) == Obtaining(run[i], id, b)
  {
    RunInv(repaired, width, v, run, i);
    var s := Joined(run[i], id, token);
    var s' := Next(s, SharedDecCount(id));
    assert s'.shared == run[i].shared;
    assert s'.refCounts == run[i].refCounts;
  }

  /** With one more reader, at whatever point of its way. */
  function Joined<V>(s: State<V>, id: nat, token: Shared<V>): State<V>
    requires token.bucket < |s.refCounts|
  {
    s.(refCounts := Bump(s.refCounts, token.bucket), shared := s.shared[id := token])
  }

  /** So does a writeback. */
  lemma WritebackAndBack<V(!new)>(repaired: bool, width: nat, v: V, run: seq<State<V>>, i: nat)
    requires Run(repaired, width, v, run) && i < |run| && run[i].flag.Available?
    ensures Enabled(run[i], TakeWriteback) && Sound(run[i], TakeWriteback)
    ensures var s := Next(run[i], TakeWriteback);
            && s.writeback == run[i].storage && Enabled(s, ReleaseWriteback) && Sound(s, ReleaseWriteback)
            && Next(s, ReleaseWriteback) == run[i]
  {
    RunInv(repaired, width, v, run, i);
  }
}
