/** Leader election on a ring, examples/state_machines/leader_election_complete.rs: each node passes
    on the largest identifier it knows to its successor, and leads when its own comes back. */
module RingElection {

  predicate Distinct(ids: seq<int>) {
    forall i, j | 0 <= i < |ids| && 0 <= j < |ids| && i != j :: ids[i] != ids[j]
  }

  /** The rings the protocol may start on. */
  predicate Ring(ids: seq<int>) {
    Distinct(ids) && forall i | 0 <= i < |ids| :: ids[i] >= 0
  }

  predicate Between(start: int, node: int, end: int) {
    if start < end then start < node < end else node < end || start < node
  }

  function Max(a: int, b: int): int { if a > b then a else b }

  function Succ(n: nat, i: nat): nat { if i + 1 == n then 0 else i + 1 }

  function Start(n: nat): seq<int> { seq(n, i => -1) }

  function Transmit(ids: seq<int>, heard: seq<int>, src: nat): seq<int>
    requires |heard| == |ids| && src < |ids|
  {
    var dst := Succ(|ids|, src);
    heard[dst := Max(heard[dst], Max(heard[src], ids[src]))]
  }

  /** A run is the sequence of the nodes that transmit. */
  predicate Schedule(ids: seq<int>, srcs: seq<nat>) {
    forall k | 0 <= k < |srcs| :: srcs[k] < |ids|
  }

  function Heard(ids: seq<int>, srcs: seq<nat>): (h: seq<int>)
    requires Schedule(ids, srcs)
    ensures |h| == |ids|
  {
    if srcs == [] then Start(|ids|)
    else Transmit(ids, Heard(ids, srcs[..|srcs| - 1]), srcs[|srcs| - 1])
  }

  predicate IsLeader(ids: seq<int>, heard: seq<int>, i: int) {
    0 <= i < |ids| == |heard| && heard[i] == ids[i]
  }

  predicate IsChord(ids: seq<int>, heard: seq<int>, start: int, end: int) {
    |heard| == |ids| && 0 <= start < |ids| && 0 <= end < |ids| && ids[start] == heard[end]
  }

  // ----- safety

  /** An identifier has passed every node strictly inside its chord, so it is larger than theirs. */
  predicate ChordOk(ids: seq<int>, heard: seq<int>, start: int, end: int)
    requires |heard| == |ids|
  {
    IsChord(ids, heard, start, end) ==>
      forall node | 0 <= node < |ids| && Between(start, node, end) :: heard[node] >= ids[start] > ids[node]
  }

  ghost predicate Inv(ids: seq<int>, heard: seq<int>) {
    && |heard| == |ids|
    && (forall i | 0 <= i < |ids| :: heard[i] == -1 || heard[i] in ids)
    && (forall start, end | IsChord(ids, heard, start, end) :: ChordOk(ids, heard, start, end))
  }

  lemma ChordStep(ids: seq<int>, heard: seq<int>, src: nat, start: int, end: int)
    requires Ring(ids) && Inv(ids, heard) && src < |ids| && IsChord(ids, Transmit(ids, heard, src), start, end)
    ensures ChordOk(ids, Transmit(ids, heard, src), start, end)
  {
    var heard' := Transmit(ids, heard, src);
    if IsChord(ids, heard, start, end) {
      assert ChordOk(ids, heard, start, end);
    } else if start != src {
      // the chord from `start` has grown by the link from `src` to `end`
      assert IsChord(ids, heard, start, src) && ChordOk(ids, heard, start, src);
    }
  }

  lemma {:induction false} RunInv(ids: seq<int>, srcs: seq<nat>)
    requires Ring(ids) && Schedule(ids, srcs)
    ensures Inv(ids, Heard(ids, srcs))
  {
    if srcs != [] {
      var n := |srcs| - 1;
      RunInv(ids, srcs[..n]);
      forall start, end | IsChord(ids, Heard(ids, srcs), start, end)
        ensures ChordOk(ids, Heard(ids, srcs), start, end)
      {
        ChordStep(ids, Heard(ids, srcs[..n]), srcs[n], start, end);
      }
    }
  }

  /** In every run there is at most one leader, and it holds the largest identifier. */
  lemma LeaderHasTheLargestId(ids: seq<int>, srcs: seq<nat>, leader: nat)
    requires Ring(ids) && Schedule(ids, srcs) && IsLeader(ids, Heard(ids, srcs), leader)
    ensures forall i | 0 <= i < |ids| && i != leader :: ids[i] < ids[leader] && !IsLeader(ids, Heard(ids, srcs), i)
  {
    var heard := Heard(ids, srcs);
    RunInv(ids, srcs);
    assert ChordOk(ids, heard, leader, leader);
    forall i | 0 <= i < |ids| && i != leader ensures ids[i] < ids[leader] && !IsLeader(ids, heard, i) {
      assert Between(leader, i, leader);
    }
  }

  /** Every identifier strictly inside a chord is below the one at its start, and has been
      outbid where it lives. */
  lemma InsideAChord(ids: seq<int>, srcs: seq<nat>, start: nat, node: nat, end: nat)
    requires Ring(ids) && Schedule(ids, srcs) && IsChord(ids, Heard(ids, srcs), start, end)
    requires node < |ids| && Between(start, node, end)
    ensures ids[node] < ids[start] && Heard(ids, srcs)[node] > ids[node]
  {
    RunInv(ids, srcs);
    assert ChordOk(ids, Heard(ids, srcs), start, end);
  }

  // ----- progress

  /** The node `t` links after `m`. */
  function After(n: nat, m: nat, t: nat): nat {
    if m + t < n then m + t else if m + t < n + n then m + t - n else 0
  }

  predicate Largest(ids: seq<int>, m: nat) {
    m < |ids| && forall i | 0 <= i < |ids| :: ids[i] <= ids[m]
  }

  /** How many links around the ring, starting at `m`, the schedule serves in order. */
  function Passed(n: nat, m: nat, srcs: seq<nat>): (k: nat)
    ensures k <= n
  {
    if srcs == [] then 0 else
    var k := Passed(n, m, srcs[..|srcs| - 1]);
    if k < n && srcs[|srcs| - 1] == After(n, m, k) then k + 1 else k
  }

  /** The nodes that have heard of `m`'s identifier are exactly those the schedule has served. */
  ghost predicate Known(ids: seq<int>, heard: seq<int>, m: nat, k: nat) {
    && |heard| == |ids| && m < |ids| && k <= |ids|
    && (forall i | 0 <= i < |ids| :: heard[i] <= ids[m])
    && forall t | 1 <= t <= |ids| :: heard[After(|ids|, m, t)] == ids[m] <==> t <= k
  }

  lemma AfterInjective(n: nat, m: nat, s: nat, t: nat)
    requires m < n && 1 <= s <= n && 1 <= t <= n && After(n, m, s) == After(n, m, t)
    ensures s == t
  {
  }

  /** Every node is some number of links after `m`. */
  lemma AfterSurjective(n: nat, m: nat, i: nat) returns (t: nat)
    requires m < n && i < n
    ensures 1 <= t <= n && After(n, m, t) == i
  {
    t := if i > m then i - m else i + n - m;
  }

  lemma KnownStep(ids: seq<int>, heard: seq<int>, m: nat, k: nat, src: nat)
    requires Ring(ids) && Largest(ids, m) && Known(ids, heard, m, k) && src < |ids|
    ensures Known(ids, Transmit(ids, heard, src), m, if k < |ids| && src == After(|ids|, m, k) then k + 1 else k)
  {
    var n, heard' := |ids|, Transmit(ids, heard, src);
    var k' := if k < n && src == After(n, m, k) then k + 1 else k;
    var at := AfterSurjective(n, m, src);
    forall t | 1 <= t <= n ensures heard'[After(n, m, t)] == ids[m] <==> t <= k' {
      if After(n, m, t) == Succ(n, src) {
        var before := if t == 1 then n else t - 1;
        assert Succ(n, After(n, m, before)) == After(n, m, t);
        AfterInjective(n, m, at, before);
      }
    }
  }

  lemma {:induction false} KnownAfter(ids: seq<int>, srcs: seq<nat>, m: nat)
    requires Ring(ids) && Schedule(ids, srcs) && Largest(ids, m)
    ensures Known(ids, Heard(ids, srcs), m, Passed(|ids|, m, srcs))
  {
    if srcs != [] {
      var n := |srcs| - 1;
      KnownAfter(ids, srcs[..n], m);
      KnownStep(ids, Heard(ids, srcs[..n]), m, Passed(|ids|, m, srcs[..n]), srcs[n]);
    }
  }

  /** Positions in the schedule, in order, at which `m` and then its successors transmit. */
  predicate Serves(n: nat, m: nat, srcs: seq<nat>, at: seq<nat>) {
    && (forall t | 0 <= t < |at| :: at[t] < |srcs| && srcs[at[t]] == After(n, m, t))
    && (forall s, t | 0 <= s < t < |at| :: at[s] < at[t])
  }

  lemma {:induction false} PassedAtLeast(n: nat, m: nat, srcs: seq<nat>, at: seq<nat>)
    requires Serves(n, m, srcs, at) && |at| <= n
    ensures Passed(n, m, srcs) >= |at|
  {
    if at != [] {
      assert at[0] < |srcs|;
      var init, last := srcs[..|srcs| - 1], |at| - 1;
      if at[last] == |srcs| - 1 {
        PassedAtLeast(n, m, init, at[..last]);
      } else {
        PassedAtLeast(n, m, init, at);
      }
    }
  }

  lemma {:induction false} PassedPositions(n: nat, m: nat, srcs: seq<nat>) returns (at: seq<nat>)
    ensures Serves(n, m, srcs, at) && |at| == Passed(n, m, srcs)
  {
    at := [];
    if srcs != [] {
      var init := srcs[..|srcs| - 1];
      at := PassedPositions(n, m, init);
      if |at| < n && srcs[|srcs| - 1] == After(n, m, |at|) {
        at := at + [|srcs| - 1];
      }
    }
  }

  /** The node with the largest identifier is leader after exactly those runs in which it and then
      each of its successors around the ring transmit, in that order. */
  lemma ElectedIffTheRingIsServed(ids: seq<int>, srcs: seq<nat>, m: nat)
    requires Ring(ids) && Schedule(ids, srcs) && Largest(ids, m)
    ensures IsLeader(ids, Heard(ids, srcs), m) <==> exists at :: Serves(|ids|, m, srcs, at) && |at| == |ids|
  {
    var n := |ids|;
    KnownAfter(ids, srcs, m);
    assert After(n, m, n) == m;
    assert IsLeader(ids, Heard(ids, srcs), m) <==> Passed(n, m, srcs) == n;
    if Passed(n, m, srcs) == n {
      var at := PassedPositions(n, m, srcs);
    } else {
      forall at | Serves(n, m, srcs, at) ensures |at| != n {
        if |at| == n {
          PassedAtLeast(n, m, srcs, at);
        }
      }
    }
  }

  lemma {:induction false} PassedGrows(n: nat, m: nat, srcs: seq<nat>, more: seq<nat>)
    ensures Passed(n, m, srcs + more) >= Passed(n, m, srcs)
  {
    if more == [] {
      assert srcs + more == srcs;
    } else {
      assert (srcs + more)[..|srcs + more| - 1] == srcs + more[..|more| - 1];
      PassedGrows(n, m, srcs, more[..|more| - 1]);
    }
  }

  /** Once elected, a leader stays leader in every continuation of the run. */
  lemma LeaderForever(ids: seq<int>, srcs: seq<nat>, more: seq<nat>, m: nat)
    requires Ring(ids) && Schedule(ids, srcs) && Schedule(ids, srcs + more) && IsLeader(ids, Heard(ids, srcs), m)
    ensures IsLeader(ids, Heard(ids, srcs + more), m)
  {
    var n := |ids|;
    LeaderHasTheLargestId(ids, srcs, m);
    KnownAfter(ids, srcs, m);
    KnownAfter(ids, srcs + more, m);
    assert After(n, m, n) == m;
    PassedGrows(n, m, srcs, more);
  }

  /** The election has come to rest exactly when the leader is elected: until then the next
      unserved node has something to say. */
  lemma QuietIffElected(ids: seq<int>, srcs: seq<nat>, m: nat)
    requires Ring(ids) && Schedule(ids, srcs) && Largest(ids, m)
    ensures var heard := Heard(ids, srcs);
            (forall src: nat | src < |ids| :: Transmit(ids, heard, src) == heard) <==> IsLeader(ids, heard, m)
  {
    var n, heard, k := |ids|, Heard(ids, srcs), Passed(|ids|, m, srcs);
    KnownAfter(ids, srcs, m);
    assert After(n, m, n) == m;
    if k < n {
      var src := After(n, m, k);
      assert Succ(n, src) == After(n, m, k + 1);
      assert Transmit(ids, heard, src)[After(n, m, k + 1)] == ids[m];
    } else {
      forall i | 0 <= i < n ensures heard[i] == ids[m] {
        var t := AfterSurjective(n, m, i);
      }
      forall src: nat | src < n ensures Transmit(ids, heard, src) == heard {
        assert Transmit(ids, heard, src)[Succ(n, src)] == heard[Succ(n, src)];
      }
    }
  }

  // ----- how much work an election can be

  /** How many identifiers are at most `h`. */
  function Rank(ids: seq<int>, h: int): (r: nat)
    ensures r <= |ids|
  {
    if ids == [] then 0 else Rank(ids[..|ids| - 1], h) + if ids[|ids| - 1] <= h then 1 else 0
  }

  function Ranks(ids: seq<int>, heard: seq<int>): (r: nat)
    ensures r <= |heard| * |ids|
  {
    if heard == [] then 0 else
    var r := Ranks(ids, heard[..|heard| - 1]);
    assert |heard| * |ids| == (|heard| - 1) * |ids| + |ids|;
    r + Rank(ids, heard[|heard| - 1])
  }

  lemma {:induction false} RankGrows(ids: seq<int>, low: int, high: int)
    requires low < high
    ensures Rank(ids, low) <= Rank(ids, high)
    ensures high in ids ==> Rank(ids, low) < Rank(ids, high)
  {
    if ids != [] {
      RankGrows(ids[..|ids| - 1], low, high);
      assert ids == ids[..|ids| - 1] + [ids[|ids| - 1]];
    }
  }

  lemma {:induction false} RanksUpdate(ids: seq<int>, heard: seq<int>, i: nat, h: int)
    requires i < |heard|
    ensures Ranks(ids, heard[i := h]) == Ranks(ids, heard) - Rank(ids, heard[i]) + Rank(ids, h)
  {
    var n := |heard| - 1;
    if i < n {
      assert heard[i := h][..n] == heard[..n][i := h];
      RanksUpdate(ids, heard[..n], i, h);
    } else {
      assert heard[i := h][..n] == heard[..n];
    }
  }

  /** The transmissions of a run that told their receiver something new. */
  function Changes(ids: seq<int>, srcs: seq<nat>): nat
    requires Schedule(ids, srcs)
  {
    if srcs == [] then 0 else
    var init := srcs[..|srcs| - 1];
    Changes(ids, init) + if Heard(ids, srcs) == Heard(ids, init) then 0 else 1
  }

  lemma ChangeRaisesRanks(ids: seq<int>, heard: seq<int>, src: nat)
    requires Ring(ids) && Inv(ids, heard) && src < |ids| && Transmit(ids, heard, src) != heard
    ensures Ranks(ids, Transmit(ids, heard, src)) > Ranks(ids, heard)
  {
    var dst := Succ(|ids|, src);
    var h := Transmit(ids, heard, src)[dst];
    assert h in ids by {
      assert heard[src] == -1 || heard[src] in ids;
      assert heard[dst] == -1 || heard[dst] in ids;
    }
    RanksUpdate(ids, heard, dst, h);
    RankGrows(ids, heard[dst], h);
  }

  lemma {:induction false} ChangesRaiseRanks(ids: seq<int>, srcs: seq<nat>)
    requires Ring(ids) && Schedule(ids, srcs)
    ensures Changes(ids, srcs) <= Ranks(ids, Heard(ids, srcs))
  {
    if srcs != [] {
      var init := srcs[..|srcs| - 1];
      ChangesRaiseRanks(ids, init);
      RunInv(ids, init);
      if Heard(ids, srcs) != Heard(ids, init) {
        ChangeRaisesRanks(ids, Heard(ids, init), srcs[|srcs| - 1]);
      }
    }
  }

  /** However long a run is, at most n * n of its transmissions change anything. */
  lemma AtMostSquareManyChanges(ids: seq<int>, srcs: seq<nat>)
    requires Ring(ids) && Schedule(ids, srcs)
    ensures Changes(ids, srcs) <= |ids| * |ids|
  {
    ChangesRaiseRanks(ids, srcs);
  }
}
