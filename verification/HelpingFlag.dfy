/** The shared flag of examples/helping.rs: `flip` retries a cancellation, a direct flip and an
    offer that any other flipping thread may accept.  Every access to `value` or `pending` is
    one sequentially consistent step of one thread; any number of threads take part. */
module HelpingFlag {
  import opened Linearizability

  datatype Op = Flip | Read

  /** What an operation gives back: nothing for a flip, the value for a read. */
  type Result = Option<bool>
  type History = seq<Event<Op, Result>>

  /** The atomic access a thread performs next. */
  datatype Pc =
    | Idle
    | TryCancel                // pending: 1 -> 2, accepting somebody's offer
    | TryLower                 // value: true -> false
    | TryRaise                 // value: false -> true
    | TryOffer                 // pending: 0 -> 1
    | TryWithdraw              // pending: 1 -> 0
    | Acknowledge              // pending := 0
    | Flipped
    | Loading
    | Loaded(seen: bool)

  /** `offer` names the thread whose flip is on offer; it is history only, no step tests it. */
  datatype State = State(value: bool, pending: nat, offer: Option<nat>, threads: seq<Pc>, history: History)

  datatype Action = BeginFlip(t: nat) | BeginRead(t: nat) | Move(t: nat)

  /** The flag as a sequential object. */
  function Apply(flag: bool, op: Op, res: Result): Option<bool> {
    match op
    case Flip => if res == None then Some(!flag) else None
    case Read => if res == Some(flag) then Some(flag) else None
  }

  function Init(value: bool, n: nat): State {
    State(value, 0, None, seq(n, i => Idle), [])
  }

  predicate Enabled(s: State, a: Action) {
    a.t < |s.threads| && (a.Move? <==> s.threads[a.t] != Idle)
  }

  function To(s: State, t: nat, pc: Pc): State
    requires t < |s.threads|
  {
    s.(threads := s.threads[t := pc])
  }

  function Next(s: State, a: Action): State
    requires Enabled(s, a)
  {
    match a
    case BeginFlip(t) => To(s, t, TryCancel).(history := s.history + [Call(t, Flip)])
    case BeginRead(t) => To(s, t, Loading).(history := s.history + [Call(t, Read)])
    case Move(t) => Step(s, t)
  }

  function Step(s: State, t: nat): State
    requires Enabled(s, Move(t))
  {
    var done := To(s, t, Flipped).(history := s.history + [Commit(t, Flip, None)]);
    match s.threads[t]
    case TryCancel =>
      if s.pending == 1 then
        // two flips cancel: the thread's own and the offered one
        done.(pending := 2,
              history := done.history + if s.offer.Some? then [Commit(s.offer.value, Flip, None)] else [])
      else To(s, t, TryLower)
    case TryLower => if s.value then done.(value := false) else To(s, t, TryRaise)
    case TryRaise => if !s.value then done.(value := true) else To(s, t, TryOffer)
    case TryOffer =>
      if s.pending == 0 then To(s, t, TryWithdraw).(pending := 1, offer := Some(t)) else To(s, t, TryCancel)
    case TryWithdraw =>
      if s.pending == 1 then To(s, t, TryCancel).(pending := 0, offer := None) else To(s, t, Acknowledge)
    case Acknowledge => To(s, t, Flipped).(pending := 0, offer := None)
    case Flipped => To(s, t, Idle).(history := s.history + [Return(t, None)])
    case Loading => To(s, t, Loaded(s.value)).(history := s.history + [Commit(t, Read, Some(s.value))])
    case Loaded(v) => To(s, t, Idle).(history := s.history + [Return(t, Some(v))])
  }

  // ----- the invariant

  /** How far the history says thread `t` has come, read off its program counter. */
  function Expected(s: State, t: nat): Phase<Op, Result> {
    if t >= |s.threads| then Out else
    match s.threads[t]
    case Idle => Out
    case Loading => Called(Read)
    case Loaded(v) => Committed(Read, Some(v))
    case Acknowledge => Committed(Flip, None)
    case Flipped => Committed(Flip, None)
    case TryWithdraw => if s.pending == 2 then Committed(Flip, None) else Called(Flip)
    case _ => Called(Flip)
  }

  ghost predicate HandshakeOk(s: State) {
    && s.pending < 3
    && (s.pending == 0 <==> s.offer.None?)
    && (s.offer.Some? ==>
          && s.offer.value < |s.threads|
          && var pc := s.threads[s.offer.value];
             pc == TryWithdraw || (pc == Acknowledge && s.pending == 2))
    && (forall t | 0 <= t < |s.threads| && s.threads[t] in {TryWithdraw, Acknowledge} :: s.offer == Some(t))
  }

  ghost predicate Inv(init: bool, s: State) {
    && HandshakeOk(s)
    && Linearized(Apply, init, s.history, s.value)
    && forall t: nat :: PhaseOf(s.history, t) == Expected(s, t)
  }

  lemma InitInv(value: bool, n: nat)
    ensures Inv(value, Init(value, n))
  {
  }

  lemma HandshakeStep(init: bool, s: State, a: Action)
    requires Inv(init, s) && Enabled(s, a)
    ensures HandshakeOk(Next(s, a))
  {
    if a.Move? && s.threads[a.t] in {TryOffer, TryWithdraw, Acknowledge} {
      OfferStep(init, s, a);
    }
  }

  lemma OfferStep(init: bool, s: State, a: Action)
    requires Inv(init, s) && Enabled(s, a) && a.Move? && s.threads[a.t] in {TryOffer, TryWithdraw, Acknowledge}
    ensures HandshakeOk(Next(s, a))
  {
  }

  /** Apart from accepting an offer, a step does not move another thread's operation on. */
  lemma OthersKeepPhase(s: State, a: Action, u: nat)
    requires HandshakeOk(s) && Enabled(s, a) && u != a.t
    requires !(a.Move? && s.threads[a.t] == TryCancel && s.pending == 1)
    ensures Expected(Next(s, a), u) == Expected(s, u)
  {
  }

  lemma QuietStep(init: bool, s: State, a: Action, s': State)
    requires Inv(init, s) && Enabled(s, a) && s' == Next(s, a)
    requires s'.history == s.history && s'.value == s.value
    ensures Inv(init, s')
  {
    HandshakeStep(init, s, a);
    forall t: nat ensures PhaseOf(s'.history, t) == Expected(s', t) {
      assert PhaseOf(s.history, t) == Expected(s, t);
      if t != a.t {
        OthersKeepPhase(s, a, t);
      }
    }
  }

  /** What a step that logs one event of its own thread logs. */
  lemma LoggedEvent(s: State, a: Action, e: Event<Op, Result>)
    requires HandshakeOk(s) && Enabled(s, a)
    requires Next(s, a).history == s.history + [e] && e.thread == a.t
    requires !(a.Move? && s.threads[a.t] == TryCancel && s.pending == 1)
    ensures Advance(Expected(s, a.t), e) == Expected(Next(s, a), a.t) != Broken
    ensures if e.Commit? then Apply(s.value, e.op, e.res) == Some(Next(s, a).value) else Next(s, a).value == s.value
  {
    assert e == Next(s, a).history[|s.history|];
  }

  lemma LoggingStep(init: bool, s: State, a: Action, s': State, e: Event<Op, Result>)
    requires Inv(init, s) && Enabled(s, a) && s' == Next(s, a)
    requires !(a.Move? && s.threads[a.t] == TryCancel && s.pending == 1)
    requires s'.history == s.history + [e] && e.thread == a.t
    ensures Inv(init, s')
  {
    HandshakeStep(init, s, a);
    LoggedEvent(s, a, e);
    assert PhaseOf(s.history, a.t) == Expected(s, a.t);
    if e.Commit? {
      ExtendCommit(Apply, init, s.history, s.value, e, s'.value);
    } else {
      ExtendQuiet(Apply, init, s.history, s.value, e);
    }
    forall t: nat ensures PhaseOf(s'.history, t) == Expected(s', t) {
      PhaseOfAppend(s.history, e, t);
      assert PhaseOf(s.history, t) == Expected(s, t);
      if t != a.t {
        OthersKeepPhase(s, a, t);
      }
    }
  }

  /** Accepting an offer commits two flips, one of them for the offering thread. */
  lemma CancelStep(init: bool, s: State, t: nat, s': State)
    requires Inv(init, s) && Enabled(s, Move(t)) && s' == Next(s, Move(t))
    requires s.threads[t] == TryCancel && s.pending == 1
    ensures s.offer.Some? && s.offer.value != t
    ensures PhaseOf(s'.history, s.offer.value) == Committed(Flip, None)
    ensures Inv(init, s')
  {
    HandshakeStep(init, s, Move(t));
    var o := s.offer.value;
    var mine: Event<Op, Result>, theirs: Event<Op, Result> := Commit(t, Flip, None), Commit(o, Flip, None);
    assert PhaseOf(s.history, t) == Expected(s, t);
    assert PhaseOf(s.history, o) == Expected(s, o);
    ExtendCommit(Apply, init, s.history, s.value, mine, !s.value);
    PhaseOfAppend(s.history, mine, o);
    ExtendCommit(Apply, init, s.history + [mine], !s.value, theirs, s.value);
    forall u: nat ensures PhaseOf(s'.history, u) == Expected(s', u) {
      PhaseOfAppend(s.history, mine, u);
      PhaseOfAppend(s.history + [mine], theirs, u);
      assert PhaseOf(s.history, u) == Expected(s, u);
    }
  }

  lemma StepInv(init: bool, s: State, a: Action)
    requires Inv(init, s) && Enabled(s, a)
    ensures Inv(init, Next(s, a))
  {
    var s' := Next(s, a);
    if s'.history == s.history {
      QuietStep(init, s, a, s');
    } else if a.Move? && s.threads[a.t] == TryCancel {
      CancelStep(init, s, a.t, s');
    } else {
      LoggingStep(init, s, a, s', s'.history[|s.history|]);
    }
  }

  // ----- whole runs

  ghost predicate Steps(s: State, s': State) {
    exists a :: Enabled(s, a) && s' == Next(s, a)
  }

  ghost predicate Run(init: bool, n: nat, run: seq<State>) {
    && |run| > 0 && run[0] == Init(init, n)
    && forall i, j {:trigger Steps(run[i], run[j])} | 0 <= i < j < |run| && j == i + 1 :: Steps(run[i], run[j])
  }

  lemma {:induction false} RunInv(init: bool, n: nat, run: seq<State>, i: nat)
    requires Run(init, n, run) && i < |run|
    ensures Inv(init, run[i])
  {
    if i == 0 {
      InitInv(init, n);
    } else {
      RunInv(init, n, run, i - 1);
      assert Steps(run[i - 1], run[i]);
      var a :| Enabled(run[i - 1], a) && run[i] == Next(run[i - 1], a);
      StepInv(init, run[i - 1], a);
    }
  }

  function Flips(h: History): nat {
    if h == [] then 0
    else Flips(h[..|h| - 1]) + if h[|h| - 1].Commit? && h[|h| - 1].op == Flip then 1 else 0
  }

  lemma {:induction false} ReplayIsParity(init: bool, h: History)
    requires Replay(Apply, init, h).Some?
    ensures Replay(Apply, init, h).value == (init != (Flips(h) % 2 == 1))
  {
    if h != [] {
      ReplayIsParity(init, h[..|h| - 1]);
    }
  }

  /** In every state of every run the flag is its initial value, inverted once per committed
      flip; and every read saw the flag as it was at its own commit. */
  lemma FlagIsParityOfCommits(init: bool, n: nat, run: seq<State>, i: nat)
    requires Run(init, n, run) && i < |run|
    ensures run[i].value == (init != (Flips(run[i].history) % 2 == 1))
    ensures forall k | 0 <= k < |run[i].history| && run[i].history[k].Commit? && run[i].history[k].op == Read ::
              run[i].history[k].res == Some(init != (Flips(run[i].history[..k]) % 2 == 1))
  {
    RunInv(init, n, run, i);
    var h := run[i].history;
    ReplayIsParity(init, h);
    forall k | 0 <= k < |h| && h[k].Commit? && h[k].op == Read
      ensures h[k].res == Some(init != (Flips(h[..k]) % 2 == 1))
    {
      CommitIsLegal(Apply, init, h, k);
      ReplayIsParity(init, h[..k]);
    }
  }

  /** Each completed operation commits exactly once, between its call and its return, whoever
      performs the commit. */
  lemma EveryOperationCommitsOnce(init: bool, n: nat, run: seq<State>, t: nat, i: nat, j: nat) returns (k: nat)
    requires Run(init, n, run)
    requires var h := run[|run| - 1].history;
             && i < j < |h| && h[i].Call? && h[i].thread == t && h[j].Return? && h[j].thread == t
             && StaysInside(h, t, i, j)
    ensures var h := run[|run| - 1].history;
            && i < k < j && h[k] == Commit(t, h[i].op, h[j].res)
            && forall m | i < m < j && CommitAt(h, t, m) :: m == k
  {
    RunInv(init, n, run, |run| - 1);
    k := ExactlyOneCommit(run[|run| - 1].history, t, i, j);
  }

  /** A thread whose withdrawal would fail has had its flip committed by another thread, and it
      is the only thread with an offer out. */
  lemma FailedWithdrawalWasAccepted(init: bool, n: nat, run: seq<State>, i: nat, t: nat)
    requires Run(init, n, run) && i < |run|
    requires t < |run[i].threads| && run[i].threads[t] == TryWithdraw && run[i].pending != 1
    ensures run[i].pending == 2 && run[i].offer == Some(t)
    ensures PhaseOf(run[i].history, t) == Committed(Flip, None)
    ensures forall u | 0 <= u < |run[i].threads| && u != t :: run[i].threads[u] !in {TryWithdraw, Acknowledge}
  {
    RunInv(init, n, run, i);
    assert PhaseOf(run[i].history, t) == Expected(run[i], t);
  }

  // ----- obstruction freedom

  function Solo(s: State, t: nat, steps: nat): (s': State)
    requires t < |s.threads|
    ensures |s'.threads| == |s.threads|
    decreases steps
  {
    if steps == 0 || s.threads[t] == Idle then s else Solo(Step(s, t), t, steps - 1)
  }

  /** Upper bound on the steps thread `t` needs when no other thread moves. */
  function StepsLeft(s: State, t: nat): nat
    requires t < |s.threads|
  {
    var direct := if s.value then 3 else 4;
    match s.threads[t]
    case Idle => 0
    case Flipped => 1
    case Loaded(_) => 1
    case Loading => 2
    case Acknowledge => 2
    case TryCancel => if s.pending == 1 then 2 else direct
    case TryLower => direct - 1
    case TryRaise => if s.value then 6 else 2
    case TryOffer => if s.pending == 0 then 2 + direct else 5
    case TryWithdraw => if s.pending == 1 then 1 + direct else 3
  }

  lemma SoloStep(init: bool, s: State, t: nat)
    requires Inv(init, s) && t < |s.threads| && s.threads[t] != Idle
    ensures StepsLeft(Step(s, t), t) < StepsLeft(s, t) <= 6
  {
  }

  lemma {:induction false} SoloRun(init: bool, s: State, t: nat, steps: nat)
    requires Inv(init, s) && t < |s.threads| && StepsLeft(s, t) <= steps
    ensures Solo(s, t, steps).threads[t] == Idle
    decreases steps
  {
    if s.threads[t] != Idle {
      SoloStep(init, s, t);
      StepInv(init, s, Move(t));
      SoloRun(init, Step(s, t), t, steps - 1);
    }
  }

  /** From any reachable state an operation left to run alone is over after at most six of its
      steps: the retry loop of `flip` only goes round again because of other threads. */
  lemma SoloFinishes(init: bool, n: nat, run: seq<State>, i: nat, t: nat)
    requires Run(init, n, run) && i < |run| && t < |run[i].threads|
    ensures Solo(run[i], t, 6).threads[t] == Idle
  {
    RunInv(init, n, run, i);
    if run[i].threads[t] != Idle {
      SoloStep(init, run[i], t);
    }
    SoloRun(init, run[i], t, 6);
  }

  // ----- what an operation does alone, and what two flips do together

  /** The flag is inverted directly. */
  lemma FlipsDirectly(s: State, t: nat)
    requires t < |s.threads| && s.threads[t] == TryLower
    ensures Solo(s, t, 3) == To(s, t, Idle).(
              value := !s.value, history := s.history + [Commit(t, Flip, None)] + [Return(t, None)])
  {
    var flipped := To(s, t, Flipped).(value := !s.value, history := s.history + [Commit(t, Flip, None)]);
    if s.value {
      assert Step(s, t) == flipped;
    } else {
      assert Step(To(s, t, TryRaise), t) == flipped;
    }
    assert Step(flipped, t) == To(s, t, Idle).(
        value := !s.value, history := s.history + [Commit(t, Flip, None)] + [Return(t, None)]);
  }

  /** What a flip leaves that nobody disturbs: the flag inverted, unless another flip is on offer,
      which it then accepts. */
  function FlippedAlone(s: State, t: nat): State
    requires t < |s.threads|
  {
    var called := s.history + [Call(t, Flip)] + [Commit(t, Flip, None)];
    if s.pending == 1 && s.offer.Some? then
      s.(pending := 2, history := called + [Commit(s.offer.value, Flip, None)] + [Return(t, None)])
    else s.(value := !s.value, history := called + [Return(t, None)])
  }

  /** An idle thread that calls `flip` and is left alone returns from it with exactly that done. */
  lemma LoneFlip(init: bool, n: nat, run: seq<State>, i: nat, t: nat)
    requires Run(init, n, run) && i < |run| && t < |run[i].threads| && run[i].threads[t] == Idle
    ensures Enabled(run[i], BeginFlip(t))
    ensures Solo(Next(run[i], BeginFlip(t)), t, 4) == FlippedAlone(run[i], t)
  {
    RunInv(init, n, run, i);
    var s := run[i];
    var s1 := Next(s, BeginFlip(t));
    assert s.threads[t := Idle] == s.threads;
    if s.pending == 1 {
      var s2 := Step(s1, t);
      assert s2.threads == s.threads[t := Flipped];
      assert Step(s2, t) == FlippedAlone(s, t);
      assert Solo(s1, t, 4) == Solo(s2, t, 3) == Solo(Step(s2, t), t, 2);
    } else {
      var s2 := To(s1, t, TryLower);
      assert Step(s1, t) == s2;
      FlipsDirectly(s2, t);
      assert Solo(s1, t, 4) == Solo(s2, t, 3) == FlippedAlone(s, t);
    }
  }

  /** And one that calls `read` returns the flag, which stays as it is. */
  lemma LoneRead(init: bool, n: nat, run: seq<State>, i: nat, t: nat)
    requires Run(init, n, run) && i < |run| && t < |run[i].threads| && run[i].threads[t] == Idle
    ensures Enabled(run[i], BeginRead(t))
    ensures var s := run[i];
            Solo(Next(s, BeginRead(t)), t, 2) == s.(
              history := s.history + [Call(t, Read)] + [Commit(t, Read, Some(s.value))] + [Return(t, Some(s.value))])
  {
    var s := run[i];
    var s1 := Next(s, BeginRead(t));
    var s2 := Step(s1, t);
    assert s.threads[t := Idle] == s.threads;
    assert Step(s2, t).threads == s.threads;
    assert Solo(s1, t, 2) == Solo(s2, t, 1) == Step(s2, t);
  }

  /** Helping: when `t` makes an offer and `u` looks for one next, two accesses commit both flips and
      the flag is not touched. */
  lemma TwoFlipsCancel(init: bool, n: nat, run: seq<State>, i: nat, t: nat, u: nat)
    requires Run(init, n, run) && i < |run| && t < |run[i].threads| && u < |run[i].threads| && t != u
    requires run[i].threads[t] == TryOffer && run[i].threads[u] == TryCancel && run[i].pending == 0
    ensures var s := Step(Step(run[i], t), u);
            && s.value == run[i].value && s.threads[t] == TryWithdraw && s.threads[u] == Flipped
            && PhaseOf(s.history, t) == PhaseOf(s.history, u) == Committed(Flip, None)
            && Solo(s, t, 3).threads[t] == Idle && Solo(s, t, 3).value == run[i].value
  {
    RunInv(init, n, run, i);
    var s1 := Step(run[i], t);
    StepInv(init, run[i], Move(t));
    var s2 := Step(s1, u);
    StepInv(init, s1, Move(u));
    assert PhaseOf(s2.history, t) == Expected(s2, t) && PhaseOf(s2.history, u) == Expected(s2, u);
    var s3 := Step(s2, t);
    var s4 := Step(s3, t);
    assert Solo(s2, t, 3) == Solo(s3, t, 2) == Solo(s4, t, 1) == Step(s4, t);
  }

  // ----- lock freedom

  predicate Flipping(pc: Pc) {
    pc != Idle && pc != Loading && !pc.Loaded?
  }

  /** A step made in `flip`, its call and its return included. */
  ghost predicate FlipStep(s: State, s': State) {
    exists t :: 0 <= t < |s.threads| && t < |s'.threads| && s.threads[t] != s'.threads[t]
                && (Flipping(s.threads[t]) || Flipping(s'.threads[t]))
  }

  ghost function FlipSteps(run: seq<State>, i: nat, j: nat): nat
    requires i <= j < |run|
    decreases j
  {
    if i == j then 0
    else FlipSteps(run, i, j - 1) + if FlipStep(run[j - 1], run[j]) then 1 else 0
  }

  /** How many more flip steps a thread can make while no flip is committed: then the value stays,
      and the thread that gets to the right direct flip commits. */
  function Rank(pc: Pc, value: bool): nat {
    match pc
    case TryRaise => if value then 7 else 0
    case TryLower => if value then 0 else 1
    case _ => RankFromLower(pc) + if value then 0 else 1
  }

  function RankFromLower(pc: Pc): nat {
    match pc
    case TryCancel => 1
    case Flipped => 3
    case Acknowledge => 4
    case TryWithdraw => 5
    case TryOffer => 6
    case _ => 2
  }

  function Ranks(threads: seq<Pc>, value: bool): (r: nat)
    ensures r <= 7 * |threads|
  {
    if threads == [] then 0
    else Ranks(threads[..|threads| - 1], value) + Rank(threads[|threads| - 1], value)
  }

  lemma {:induction false} RanksUpdate(threads: seq<Pc>, t: nat, pc: Pc, value: bool)
    requires t < |threads|
    ensures Ranks(threads[t := pc], value) == Ranks(threads, value) - Rank(threads[t], value) + Rank(pc, value)
  {
    var n := |threads| - 1;
    if t < n {
      assert threads[t := pc][..n] == threads[..n][t := pc];
      RanksUpdate(threads[..n], t, pc, value);
    } else {
      assert threads[t := pc][..n] == threads[..n];
    }
  }

  lemma FlipsAppend(h: History, e: Event<Op, Result>)
    ensures Flips(h + [e]) == Flips(h) + if e.Commit? && e.op == Flip then 1 else 0
  {
  }

  /** A step that logs a flip's commit counts; any other step leaves the value alone. */
  lemma FlipsStep(s: State, a: Action)
    requires Enabled(s, a)
    ensures Flips(Next(s, a).history) >= Flips(s.history)
    ensures Flips(Next(s, a).history) == Flips(s.history) ==>
              Next(s, a).value == s.value && !Commits(s, a)
  {
    var h, h' := s.history, Next(s, a).history;
    if Commits(s, a) {
      var mine: Event<Op, Result> := Commit(a.t, Flip, None);
      FlipsAppend(h, mine);
      if h' != h + [mine] {
        var theirs: Event<Op, Result> := Commit(s.offer.value, Flip, None);
        assert h' == h + [mine] + [theirs];
        FlipsAppend(h + [mine], theirs);
      }
    } else if h' != h {
      FlipsAppend(h, h'[|h|]);
    }
  }

  /** The step commits the mover's flip. */
  predicate Commits(s: State, a: Action)
    requires Enabled(s, a)
  {
    a.Move? &&
    match s.threads[a.t]
    case TryCancel => s.pending == 1
    case TryLower => s.value
    case TryRaise => !s.value
    case _ => false
  }

  /** A step that commits no flip brings its thread nearer to one. */
  lemma RankStep(s: State, a: Action)
    requires Enabled(s, a) && !Commits(s, a)
    ensures var pc, pc' := s.threads[a.t], Next(s, a).threads[a.t];
            Rank(pc', s.value) + (if Flipping(pc) || Flipping(pc') then 1 else 0) <= Rank(pc, s.value)
  {
  }

  lemma OnlyMover(s: State, a: Action)
    requires Enabled(s, a)
    ensures Next(s, a).threads == s.threads[a.t := Next(s, a).threads[a.t]]
  {
  }

  lemma RanksStep(s: State, a: Action)
    requires Enabled(s, a)
    ensures var s' := Next(s, a);
            && |s'.threads| == |s.threads| && Flips(s'.history) >= Flips(s.history)
            && Ranks(s'.threads, s'.value) + (if FlipStep(s, s') then 1 else 0)
               <= if Flips(s'.history) == Flips(s.history) then Ranks(s.threads, s.value) else 7 * |s.threads| + 1
  {
    OnlyMover(s, a);
    FlipsStep(s, a);
    if !Commits(s, a) {
      RankStep(s, a);
    }
    RanksUpdate(s.threads, a.t, Next(s, a).threads[a.t], s.value);
  }

  lemma NextInRun(init: bool, n: nat, run: seq<State>, i: nat) returns (a: Action)
    requires Run(init, n, run) && i + 1 < |run|
    ensures Enabled(run[i], a) && run[i + 1] == Next(run[i], a)
  {
    assert Steps(run[i], run[i + 1]);
    a :| Enabled(run[i], a) && run[i + 1] == Next(run[i], a);
  }

  /** A round of flip steps: up to the next commit, and that one. */
  function Rounds(n: nat, commits: nat): nat {
    (7 * n + 1) * commits
  }

  lemma RoundsAdd(n: nat, a: nat, b: nat)
    ensures Rounds(n, a + b) == Rounds(n, a) + Rounds(n, b)
    ensures b > 0 ==> Rounds(n, b) >= 7 * n + 1
  {
    assert (7 * n + 1) * (a + b) == (7 * n + 1) * a + (7 * n + 1) * b;
  }

  /** The flip steps made from `i` on and those that are possible without another commit. */
  ghost function Spent(run: seq<State>, i: nat, j: nat): nat
    requires i <= j < |run|
  {
    FlipSteps(run, i, j) + Ranks(run[j].threads, run[j].value)
  }

  lemma SpentNext(init: bool, n: nat, run: seq<State>, i: nat, j: nat)
    requires Run(init, n, run) && i <= j && j + 1 < |run| && |run[j].threads| == n
    ensures |run[j + 1].threads| == n && Flips(run[j + 1].history) >= Flips(run[j].history)
    ensures Spent(run, i, j + 1) <=
            Spent(run, i, j) + if Flips(run[j + 1].history) == Flips(run[j].history) then 0 else 7 * n + 1
  {
    var a := NextInRun(init, n, run, j);
    RanksStep(run[j], a);
  }

  lemma {:induction false} FlipStepsBound(init: bool, n: nat, run: seq<State>, i: nat, j: nat)
    requires Run(init, n, run) && i <= j < |run| && |run[i].threads| == n
    ensures |run[j].threads| == n && Flips(run[j].history) >= Flips(run[i].history)
    ensures Spent(run, i, j) <=
            Ranks(run[i].threads, run[i].value) + Rounds(n, Flips(run[j].history) - Flips(run[i].history))
    decreases j
  {
    if i < j {
      FlipStepsBound(init, n, run, i, j - 1);
      SpentNext(init, n, run, i, j - 1);
      RoundsAdd(n, Flips(run[j - 1].history) - Flips(run[i].history),
                Flips(run[j].history) - Flips(run[j - 1].history));
    }
  }

  lemma {:induction false} SameThreads(init: bool, n: nat, run: seq<State>, i: nat)
    requires Run(init, n, run) && i < |run|
    ensures |run[i].threads| == n
  {
    if i > 0 {
      SameThreads(init, n, run, i - 1);
      var a := NextInRun(init, n, run, i - 1);
      OnlyMover(run[i - 1], a);
    }
  }

  /** Lock freedom of `flip`: over any stretch of any run there are at most 7 n steps of flips
      before the first commit of a flip, and as many between one commit and the next, whatever
      reads take place. */
  lemma FlipIsLockFree(init: bool, n: nat, run: seq<State>, i: nat, j: nat)
    requires Run(init, n, run) && i <= j < |run|
    ensures Flips(run[j].history) >= Flips(run[i].history)
    ensures FlipSteps(run, i, j) <= 7 * n + (7 * n + 1) * (Flips(run[j].history) - Flips(run[i].history))
  {
    SameThreads(init, n, run, i);
    FlipStepsBound(init, n, run, i, j);
  }
}
