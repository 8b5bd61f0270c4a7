/** The flat combiner of examples/state_machines/flat_combine.rs: clients post requests in slots of
    their own, one combiner collects them in a pass over the slots and answers them in another. */
module FlatCombiner {
  import opened Linearizability

  datatype Request = Request(rid: int, req: int)
  datatype Response = Response(rid: int, resp: int)
  datatype Client = Idle | Waiting(rid: int)
  datatype Combiner = Collecting(elems: seq<Option<int>>) | Responding(elems: seq<Option<int>>, idx: nat)

  /** The requests of one client, as sent by it and as taken by the combiner, and the responses to
      it, as given by the combiner and as received.  History variables. */
  datatype Past = Past(sent: seq<Request>, taken: seq<Request>, replied: seq<Response>, received: seq<Response>)

  function Asked(requests: seq<Request>): (ids: seq<int>)
    ensures |ids| == |requests| && forall i | 0 <= i < |ids| :: ids[i] == requests[i].rid
  {
    seq(|requests|, i requires 0 <= i < |requests| => requests[i].rid)
  }

  function Answered(responses: seq<Response>): (ids: seq<int>)
    ensures |ids| == |responses| && forall i | 0 <= i < |ids| :: ids[i] == responses[i].rid
  {
    seq(|responses|, i requires 0 <= i < |responses| => responses[i].rid)
  }

  datatype State = State(
    clients: seq<Client>, slots: seq<bool>, combiner: Combiner, requests: map<nat, Request>,
    responses: map<nat, Response>, past: seq<Past>)

  datatype Step =
    | ClientSend(j: nat, request: Request)
    | ClientRecv(j: nat)
    | CombinerRecv
    | CombinerSkip
    | GoToResponding
    | CombinerSend(response: Response)
    | CombinerSendSkip
    | GoToCollecting

  function Init(n: nat): State {
    State(seq(n, i => Idle), seq(n, i => false), Collecting([]), map[], map[], seq(n, i => Past([], [], [], [])))
  }

  predicate WellSized(s: State) {
    && |s.slots| == |s.past| == |s.clients|
    && match s.combiner
       case Collecting(elems) => |elems| <= |s.clients|
       case Responding(elems, idx) => |elems| == |s.clients| && idx <= |s.clients|
  }

  predicate Enabled(s: State, step: Step) {
    && WellSized(s)
    && match step
       case ClientSend(j, _) => j < |s.clients| && s.clients[j].Idle?
       case ClientRecv(j) => j < |s.clients| && s.clients[j].Waiting? && !s.slots[j]
       case CombinerRecv => s.combiner.Collecting? && |s.combiner.elems| < |s.clients| && s.slots[|s.combiner.elems|]
       case CombinerSkip => s.combiner.Collecting? && |s.combiner.elems| < |s.clients|
       case GoToResponding => s.combiner.Collecting? && |s.combiner.elems| == |s.clients|
       case CombinerSend(response) =>
         && s.combiner.Responding? && s.combiner.idx < |s.clients|
         && s.combiner.elems[s.combiner.idx] == Some(response.rid)
       case CombinerSendSkip =>
         s.combiner.Responding? && s.combiner.idx < |s.clients| && s.combiner.elems[s.combiner.idx].None?
       case GoToCollecting => s.combiner.Responding? && s.combiner.idx == |s.clients|
  }

  /** What the transitions take for granted: a deposit finds its place empty, a withdrawal finds
      something, and a client gets the response to its own request. */
  predicate Sound(s: State, step: Step) {
    match step
    case ClientSend(j, _) => j !in s.requests
    case ClientRecv(j) =>
      j in s.responses && j < |s.clients| && s.clients[j].Waiting? && s.responses[j].rid == s.clients[j].rid
    case CombinerRecv => |s.combiner.elems| in s.requests
    case CombinerSend(_) => s.combiner.Responding? && s.combiner.idx !in s.responses
    case _ => true
  }

  function Next(s: State, step: Step): State
    requires Enabled(s, step) && Sound(s, step)
  {
    match step
    case ClientSend(j, request) =>
      var p := s.past[j];
      s.(clients := s.clients[j := Waiting(request.rid)], slots := s.slots[j := true],
         requests := s.requests[j := request], past := s.past[j := p.(sent := p.sent + [request])])
    case ClientRecv(j) =>
      var p := s.past[j];
      s.(clients := s.clients[j := Idle], responses := s.responses - {j},
         past := s.past[j := p.(received := p.received + [s.responses[j]])])
    case CombinerRecv =>
      var j, p := |s.combiner.elems|, s.past[|s.combiner.elems|];
      s.(requests := s.requests - {j}, combiner := Collecting(s.combiner.elems + [Some(s.requests[j].rid)]),
         past := s.past[j := p.(taken := p.taken + [s.requests[j]])])
    case CombinerSkip => s.(combiner := Collecting(s.combiner.elems + [None]))
    case GoToResponding => s.(combiner := Responding(s.combiner.elems, 0))
    case CombinerSend(response) =>
      var j, p := s.combiner.idx, s.past[s.combiner.idx];
      s.(slots := s.slots[j := false], combiner := Responding(s.combiner.elems, j + 1),
         responses := s.responses[j := response],
         past := s.past[j := p.(replied := p.replied + [response])])
    case CombinerSendSkip => s.(combiner := Responding(s.combiner.elems, s.combiner.idx + 1))
    case GoToCollecting => s.(combiner := Collecting([]))
  }

  // ----- where a request is

  predicate CombinerHas(s: State, i: nat) {
    match s.combiner
    case Collecting(elems) => i < |elems| && elems[i].Some?
    case Responding(elems, idx) => idx <= i < |elems| && elems[i].Some?
  }

  predicate InRequestSlot(s: State, i: nat, request: Request) {
    i in s.requests && s.requests[i] == request && i !in s.responses && !CombinerHas(s, i)
  }

  predicate InCombiner(s: State, i: nat, rid: int) {
    CombinerHas(s, i) && s.combiner.elems[i] == Some(rid) && i !in s.requests && i !in s.responses
  }

  predicate InResponseSlot(s: State, i: nat, response: Response) {
    i in s.responses && s.responses[i] == response && i !in s.requests && !CombinerHas(s, i)
  }

  predicate Nowhere(s: State, i: nat) {
    i !in s.requests && i !in s.responses && !CombinerHas(s, i)
  }

  /** A client and its request: the histories agree up to the point its request has reached. */
  predicate ClientOk(s: State, i: nat)
    requires WellSized(s) && i < |s.clients|
  {
    var p := s.past[i];
    match s.clients[i]
    case Idle =>
      && !s.slots[i] && Nowhere(s, i)
      && p.sent == p.taken && p.replied == p.received && Asked(p.sent) == Answered(p.replied)
    case Waiting(rid) =>
      && p.sent != [] && Last(p.sent).rid == rid && Asked(Front(p.sent)) == Answered(p.received)
      && (|| (InRequestSlot(s, i, Last(p.sent)) && s.slots[i] && p.taken == Front(p.sent) && p.replied == p.received)
          || (InCombiner(s, i, rid) && s.slots[i] && p.taken == p.sent && p.replied == p.received)
          || (p.replied != [] && InResponseSlot(s, i, Last(p.replied)) && Last(p.replied).rid == rid && !s.slots[i]
              && p.taken == p.sent && Front(p.replied) == p.received))
  }

  function Last<T>(s: seq<T>): T requires s != [] { s[|s| - 1] }
  function Front<T>(s: seq<T>): seq<T> requires s != [] { s[..|s| - 1] }

  ghost predicate Inv(s: State) {
    && WellSized(s)
    && (forall i: nat | i < |s.clients| :: ClientOk(s, i))
    && (forall i | i in s.requests :: i < |s.clients|) && (forall i | i in s.responses :: i < |s.clients|)
  }

  /** The client a step is about, if any. */
  function Mover(s: State, step: Step): nat {
    if step.ClientSend? || step.ClientRecv? then step.j
    else if s.combiner.Collecting? then |s.combiner.elems| else s.combiner.idx
  }

  lemma StepIsSound(s: State, step: Step)
    requires Inv(s) && Enabled(s, step)
    ensures Sound(s, step)
  {
    if Mover(s, step) < |s.clients| {
      assert ClientOk(s, Mover(s, step));
    }
  }

  lemma SizeStep(s: State, step: Step)
    requires Inv(s) && Enabled(s, step) && Sound(s, step)
    ensures WellSized(Next(s, step)) && |Next(s, step).clients| == |s.clients|
  {
  }

  lemma SendStep(s: State, i: nat, request: Request)
    requires Inv(s) && Enabled(s, ClientSend(i, request)) && Sound(s, ClientSend(i, request))
    ensures WellSized(Next(s, ClientSend(i, request))) && ClientOk(Next(s, ClientSend(i, request)), i)
  {
    assert ClientOk(s, i);
    var sent := s.past[i].sent;
    assert Front(sent + [request]) == sent && Last(sent + [request]) == request;
  }

  lemma RecvStep(s: State, i: nat)
    requires Inv(s) && Enabled(s, ClientRecv(i)) && Sound(s, ClientRecv(i))
    ensures WellSized(Next(s, ClientRecv(i))) && ClientOk(Next(s, ClientRecv(i)), i)
  {
    assert ClientOk(s, i);
    var p := s.past[i];
    assert p.replied == p.received + [s.responses[i]];
    assert p.sent == Front(p.sent) + [Last(p.sent)];
    assert Asked(p.sent) == Asked(Front(p.sent)) + [Last(p.sent).rid];
    assert Answered(p.replied) == Answered(p.received) + [s.responses[i].rid];
  }

  lemma TakeStep(s: State)
    requires Inv(s) && Enabled(s, CombinerRecv) && Sound(s, CombinerRecv)
    ensures WellSized(Next(s, CombinerRecv)) && ClientOk(Next(s, CombinerRecv), |s.combiner.elems|)
  {
    var i := |s.combiner.elems|;
    assert ClientOk(s, i);
    assert s.past[i].sent == Front(s.past[i].sent) + [Last(s.past[i].sent)];
  }

  lemma ReplyStep(s: State, response: Response)
    requires Inv(s) && Enabled(s, CombinerSend(response)) && Sound(s, CombinerSend(response))
    ensures WellSized(Next(s, CombinerSend(response))) && ClientOk(Next(s, CombinerSend(response)), s.combiner.idx)
  {
    assert ClientOk(s, s.combiner.idx);
    var replied := s.past[s.combiner.idx].replied;
    assert Front(replied + [response]) == replied && Last(replied + [response]) == response;
  }

  /** A client that the step is not about, or about which it changes nothing but the place of the
      combiner. */
  lemma OtherStep(s: State, step: Step, i: nat)
    requires Inv(s) && Enabled(s, step) && Sound(s, step) && i < |s.clients|
    requires i != Mover(s, step) || !(step.ClientSend? || step.ClientRecv? || step.CombinerRecv? || step.CombinerSend?)
    ensures WellSized(Next(s, step)) && ClientOk(Next(s, step), i)
  {
    assert ClientOk(s, i);
    assert Next(s, step).past[i] == s.past[i] && Next(s, step).clients[i] == s.clients[i];
  }

  lemma ClientStep(s: State, step: Step, i: nat)
    requires Inv(s) && Enabled(s, step) && Sound(s, step) && i < |s.clients|
    ensures WellSized(Next(s, step)) && |Next(s, step).clients| == |s.clients| && ClientOk(Next(s, step), i)
  {
    SizeStep(s, step);
    if i != Mover(s, step) {
      OtherStep(s, step, i);
    } else {
      match step
      case ClientSend(_, request) => SendStep(s, i, request);
      case ClientRecv(_) => RecvStep(s, i);
      case CombinerRecv => TakeStep(s);
      case CombinerSend(response) => ReplyStep(s, response);
      case _ => OtherStep(s, step, i);
    }
  }

  lemma StepInv(s: State, step: Step)
    requires Inv(s) && Enabled(s, step) && Sound(s, step)
    ensures Inv(Next(s, step)) && |Next(s, step).clients| == |s.clients|
  {
    forall i: nat | i < |s.clients| ensures WellSized(Next(s, step)) && ClientOk(Next(s, step), i) {
      ClientStep(s, step, i);
    }
  }

  // ----- whole runs

  ghost predicate Steps(s: State, s': State) {
    exists step :: Enabled(s, step) && Sound(s, step) && s' == Next(s, step)
  }

  ghost predicate Run(n: nat, run: seq<State>) {
    && |run| > 0 && run[0] == Init(n)
    && forall i, j {:trigger Steps(run[i], run[j])} | 0 <= i < j < |run| && j == i + 1 :: Steps(run[i], run[j])
  }

  lemma {:induction false} RunInv(n: nat, run: seq<State>, k: nat)
    requires Run(n, run) && k < |run|
    ensures Inv(run[k]) && |run[k].clients| == n
  {
    if k > 0 {
      RunInv(n, run, k - 1);
      assert Steps(run[k - 1], run[k]);
      var step :| Enabled(run[k - 1], step) && Sound(run[k - 1], step) && run[k] == Next(run[k - 1], step);
      StepInv(run[k - 1], step);
    }
  }

  /** In every run and for every client, the requests taken are a prefix of those sent and the
      responses received a prefix of those given, payloads included; the responses answer the
      requests taken in their order, and what came back is at most one request behind what was
      sent. */
  lemma AnswersComeInOrder(n: nat, run: seq<State>, k: nat, i: nat)
    requires Run(n, run) && k < |run| && i < n
    ensures |run[k].past| == n
    ensures var p := run[k].past[i];
            && p.taken <= p.sent && p.received <= p.replied && Answered(p.replied) <= Asked(p.taken)
            && |p.sent| <= |p.received| + 1
  {
    RunInv(n, run, k);
    OrderOk(run[k], i);
  }

  lemma OrderOk(s: State, i: nat)
    requires Inv(s) && i < |s.clients|
    ensures var p := s.past[i];
            && p.taken <= p.sent && p.received <= p.replied && Answered(p.replied) <= Asked(p.taken)
            && |p.sent| <= |p.received| + 1
  {
    assert ClientOk(s, i);
    var p := s.past[i];
    if s.clients[i].Waiting? {
      assert p.sent == Front(p.sent) + [Last(p.sent)];
      assert Asked(p.sent) == Asked(Front(p.sent)) + [Last(p.sent).rid];
      if s.responses.Keys * {i} == {i} {
        assert Answered(p.replied) == Answered(p.received) + [Last(p.replied).rid];
      }
    }
  }

  /** A waiting client's request, or the response to it, is in exactly one place as it was sent or
      given, and an idle client's in none. */
  lemma RequestIsInOnePlace(n: nat, run: seq<State>, k: nat, i: nat)
    requires Run(n, run) && k < |run| && i < n
    ensures |run[k].clients| == |run[k].past| == n
    ensures run[k].clients[i].Idle? ==> Nowhere(run[k], i)
    ensures run[k].clients[i].Waiting? ==>
              var s, rid := run[k], run[k].clients[i].rid;
              && s.past[i].sent != [] && Last(s.past[i].sent).rid == rid
              && (|| InRequestSlot(s, i, Last(s.past[i].sent)) || InCombiner(s, i, rid)
                  || (s.past[i].replied != [] && Last(s.past[i].replied).rid == rid
                      && InResponseSlot(s, i, Last(s.past[i].replied))))
              && !(i in s.requests && i in s.responses) && !(i in s.requests && CombinerHas(s, i))
              && !(i in s.responses && CombinerHas(s, i))
  {
    RunInv(n, run, k);
    assert ClientOk(run[k], i);
  }

  lemma AssertionsHold(n: nat, run: seq<State>, k: nat, step: Step)
    requires Run(n, run) && k < |run| && Enabled(run[k], step)
    ensures Sound(run[k], step)
  {
    RunInv(n, run, k);
    StepIsSound(run[k], step);
  }

  // ----- progress

  /** The combiner steps left in the current pass. */
  function StepsLeft(s: State): int {
    match s.combiner
    case Collecting(elems) => 2 * |s.clients| + 1 - |elems|
    case Responding(_, idx) => |s.clients| - idx
  }

  predicate ByCombiner(step: Step) { !step.ClientSend? && !step.ClientRecv? }

  /** Skips only slots that are not set, as the combiner does in practice. */
  predicate Honest(s: State, step: Step) {
    step.CombinerSkip? ==> Enabled(s, step) && !s.slots[|s.combiner.elems|]
  }

  /** The combiner always has a step, whatever the clients do, and each brings it one closer to
      the end of its pass, which clients cannot delay. */
  lemma CombinerNeverBlocks(n: nat, run: seq<State>, k: nat) returns (step: Step)
    requires Run(n, run) && k < |run|
    ensures ByCombiner(step) && Enabled(run[k], step) && Honest(run[k], step) && Sound(run[k], step)
  {
    RunInv(n, run, k);
    var s := run[k];
    step := match s.combiner
      case Collecting(elems) =>
        if |elems| == n then GoToResponding else if s.slots[|elems|] then CombinerRecv else CombinerSkip
      case Responding(elems, idx) =>
        if idx == n then GoToCollecting
        else if elems[idx].Some? then CombinerSend(Response(elems[idx].value, 0)) else CombinerSendSkip;
    StepIsSound(s, step);
  }

  lemma PassAdvances(s: State, step: Step)
    requires Enabled(s, step) && Sound(s, step)
    ensures StepsLeft(s) >= 0
    ensures !step.GoToCollecting? ==> StepsLeft(Next(s, step)) == StepsLeft(s) - if ByCombiner(step) then 1 else 0
    ensures step.GoToCollecting? ==> StepsLeft(s) == 0
  {
  }

  predicate Takes(run: seq<State>, steps: seq<Step>, k: nat) {
    && k < |steps| == |run| - 1
    && Enabled(run[k], steps[k]) && Sound(run[k], steps[k]) && run[k + 1] == Next(run[k], steps[k])
  }

  /** A run with the steps taken. */
  ghost predicate Stepped(n: nat, run: seq<State>, steps: seq<Step>) {
    && Run(n, run) && |steps| == |run| - 1
    && forall k {:trigger Takes(run, steps, k)} | 0 <= k < |steps| :: Takes(run, steps, k)
  }

  // ----- what was deposited is what is withdrawn

  /** The requests client `i` has posted, read off the steps. */
  function SentBy(steps: seq<Step>, i: nat): seq<Request> {
    if steps == [] then [] else
    var last := Last(steps);
    SentBy(Front(steps), i) + if last.ClientSend? && last.j == i then [last.request] else []
  }

  /** The responses the combiner has given to client `i`. */
  function GivenTo(run: seq<State>, steps: seq<Step>, i: nat, k: nat): seq<Response>
    requires k <= |steps| < |run|
  {
    if k == 0 then [] else
    var s, step := run[k - 1], steps[k - 1];
    GivenTo(run, steps, i, k - 1)
    + if step.CombinerSend? && s.combiner.Responding? && s.combiner.idx == i then [step.response] else []
  }

  /** The requests the combiner has found in slot `i`. */
  function TakenFrom(run: seq<State>, steps: seq<Step>, i: nat, k: nat): seq<Request>
    requires k <= |steps| < |run|
  {
    if k == 0 then [] else
    var s, step := run[k - 1], steps[k - 1];
    TakenFrom(run, steps, i, k - 1)
    + if step.CombinerRecv? && s.combiner.Collecting? && |s.combiner.elems| == i && i in s.requests
      then [s.requests[i]] else []
  }

  /** The responses client `i` has found. */
  function ReceivedBy(run: seq<State>, steps: seq<Step>, i: nat, k: nat): seq<Response>
    requires k <= |steps| < |run|
  {
    if k == 0 then [] else
    var s, step := run[k - 1], steps[k - 1];
    ReceivedBy(run, steps, i, k - 1) + if step == ClientRecv(i) && i in s.responses then [s.responses[i]] else []
  }

  lemma PastStep(s: State, step: Step, i: nat)
    requires Inv(s) && Enabled(s, step) && Sound(s, step) && i < |s.clients|
    ensures |Next(s, step).past| == |s.past|
    ensures var p, p' := s.past[i], Next(s, step).past[i];
            && p'.sent == p.sent + (if step.ClientSend? && step.j == i then [step.request] else [])
            && p'.received == p.received + (if step == ClientRecv(i) then [s.responses[i]] else [])
            && p'.taken == p.taken + (if step.CombinerRecv? && |s.combiner.elems| == i then [s.requests[i]] else [])
            && p'.replied == p.replied + (if step.CombinerSend? && s.combiner.idx == i then [step.response] else [])
  {
  }

  lemma {:induction false} PastIsTheSteps(n: nat, run: seq<State>, steps: seq<Step>, i: nat, k: nat)
    requires Stepped(n, run, steps) && i < n && k < |run|
    ensures |run[k].past| == n
    ensures run[k].past[i] == Past(SentBy(steps[..k], i), TakenFrom(run, steps, i, k), GivenTo(run, steps, i, k),
                                   ReceivedBy(run, steps, i, k))
  {
    RunInv(n, run, k);
    if k > 0 {
      PastIsTheSteps(n, run, steps, i, k - 1);
      RunInv(n, run, k - 1);
      assert Takes(run, steps, k - 1);
      PastStep(run[k - 1], steps[k - 1], i);
      assert Front(steps[..k]) == steps[..k - 1] && Last(steps[..k]) == steps[k - 1];
    }
  }

  /** In every run the combiner takes from a client, in order, exactly the requests it has posted,
      and the client receives, in order, exactly the responses the combiner has given it: neither
      payload nor id is ever changed on the way. */
  lemma PayloadsArrive(n: nat, run: seq<State>, steps: seq<Step>, i: nat, k: nat)
    requires Stepped(n, run, steps) && i < n && k < |run|
    ensures TakenFrom(run, steps, i, k) <= SentBy(steps[..k], i)
    ensures ReceivedBy(run, steps, i, k) <= GivenTo(run, steps, i, k)
    ensures Answered(GivenTo(run, steps, i, k)) <= Asked(TakenFrom(run, steps, i, k))
    ensures |SentBy(steps[..k], i)| <= |ReceivedBy(run, steps, i, k)| + 1
  {
    PastIsTheSteps(n, run, steps, i, k);
    AnswersComeInOrder(n, run, k, i);
  }

  /** A client may post whenever it is not waiting, and may withdraw exactly when it has been given
      more responses than it has received. */
  lemma ClientMayGoOnIff(n: nat, run: seq<State>, k: nat, i: nat, request: Request)
    requires Run(n, run) && k < |run| && i < n
    ensures |run[k].past| == n
    ensures var p := run[k].past[i];
            && (Enabled(run[k], ClientSend(i, request)) <==> |p.sent| == |p.received|)
            && (Enabled(run[k], ClientRecv(i)) <==> |p.replied| > |p.received|)
  {
    RunInv(n, run, k);
    OrderOk(run[k], i);
    assert ClientOk(run[k], i);
  }

  predicate Skips(s: State, step: Step, i: nat) {
    step.CombinerSkip? && s.combiner.Collecting? && |s.combiner.elems| == i
  }

  /** The collecting half of the pass has yet to come to slot `i`. */
  predicate Before(s: State, i: nat) {
    s.combiner.Collecting? && |s.combiner.elems| <= i
  }

  // where the k-th request of client `i` can be while a pass lasts

  predicate Ahead(s: State, i: nat, k: nat) {
    WellSized(s) && i < |s.clients| && Before(s, i) && i in s.requests
        && |s.past[i].sent| == k == |s.past[i].replied| + 1
  }

  predicate Passed(s: State, i: nat, k: nat) {
    WellSized(s) && i < |s.clients| && |s.past[i].taken| >= k
  }

  predicate Missed(s: State, i: nat, k: nat) {
    && WellSized(s) && i < |s.clients| && !Before(s, i) && s.combiner.elems[i].None?
    && i in s.requests && |s.past[i].sent| == k == |s.past[i].replied| + 1
  }

  lemma AheadStep(s: State, step: Step, i: nat, k: nat)
    requires Inv(s) && Enabled(s, step) && Sound(s, step) && Ahead(s, i, k)
    ensures var s' := Next(s, step);
            if Skips(s, step, i) then Missed(s', i, k) else Ahead(s', i, k) || (Passed(s', i, k) && !Before(s', i))
  {
    assert ClientOk(s, i);
  }

  lemma PassedStep(s: State, step: Step, i: nat, k: nat)
    requires Inv(s) && Enabled(s, step) && Sound(s, step) && Passed(s, i, k)
    ensures Passed(Next(s, step), i, k)
    ensures step.GoToCollecting? ==> |Next(s, step).past[i].replied| >= k
    ensures !Before(s, i) && !step.GoToCollecting? ==> !Before(Next(s, step), i)
  {
    assert ClientOk(s, i);
  }

  lemma MissedStep(s: State, step: Step, i: nat, k: nat)
    requires Inv(s) && Enabled(s, step) && Sound(s, step) && Missed(s, i, k)
    ensures !step.GoToCollecting? ==> Missed(Next(s, step), i, k)
    ensures |Next(s, step).past[i].replied| < k
  {
    assert ClientOk(s, i);
  }

  lemma AheadNext(n: nat, run: seq<State>, steps: seq<Step>, q: nat, i: nat, k: nat)
    requires Stepped(n, run, steps) && q < |steps| && Ahead(run[q], i, k)
    ensures if Skips(run[q], steps[q], i) then Missed(run[q + 1], i, k)
            else Ahead(run[q + 1], i, k) || (Passed(run[q + 1], i, k) && !Before(run[q + 1], i))
  {
    RunInv(n, run, q);
    assert Takes(run, steps, q);
    AheadStep(run[q], steps[q], i, k);
  }

  lemma PassedNext(n: nat, run: seq<State>, steps: seq<Step>, q: nat, i: nat, k: nat)
    requires Stepped(n, run, steps) && q < |steps| && Passed(run[q], i, k)
    ensures Passed(run[q + 1], i, k)
    ensures steps[q].GoToCollecting? ==> |run[q + 1].past[i].replied| >= k
    ensures !Before(run[q], i) && !steps[q].GoToCollecting? ==> !Before(run[q + 1], i)
  {
    RunInv(n, run, q);
    assert Takes(run, steps, q);
    PassedStep(run[q], steps[q], i, k);
  }

  lemma MissedNext(n: nat, run: seq<State>, steps: seq<Step>, q: nat, i: nat, k: nat)
    requires Stepped(n, run, steps) && q < |steps| && Missed(run[q], i, k)
    ensures !steps[q].GoToCollecting? ==> Missed(run[q + 1], i, k)
    ensures |run[q + 1].past| == n && i < n && |run[q + 1].past[i].replied| < k
  {
    RunInv(n, run, q);
    assert Takes(run, steps, q);
    MissedStep(run[q], steps[q], i, k);
    RunInv(n, run, q + 1);
  }

  ghost predicate SkippedIn(run: seq<State>, steps: seq<Step>, p: nat, q: nat, i: nat)
    requires |steps| == |run| - 1 && q <= |steps|
  {
    exists k | p <= k < q :: Skips(run[k], steps[k], i)
  }

  ghost predicate OnePass(steps: seq<Step>, p: nat, q: nat) {
    p < q <= |steps| && steps[q - 1].GoToCollecting? && forall k | p <= k < q - 1 :: !steps[k].GoToCollecting?
  }

  /** Up to the end of the pass the request is ahead of the combiner, passed or missed, and missed
      exactly if its slot has been skipped. */
  lemma {:induction false} DuringPass(n: nat, run: seq<State>, steps: seq<Step>, p: nat, m: nat, q: nat, i: nat, k: nat)
    requires Stepped(n, run, steps) && OnePass(steps, p, q) && p <= m < q && Ahead(run[p], i, k)
    ensures if SkippedIn(run, steps, p, m, i) then Missed(run[m], i, k)
            else Ahead(run[m], i, k) || (Passed(run[m], i, k) && !Before(run[m], i))
    decreases m
  {
    if p < m {
      DuringPass(n, run, steps, p, m - 1, q, i, k);
      if SkippedIn(run, steps, p, m - 1, i) {
        MissedNext(n, run, steps, m - 1, i, k);
      } else if Ahead(run[m - 1], i, k) {
        AheadNext(n, run, steps, m - 1, i, k);
        assert SkippedIn(run, steps, p, m, i) <==> Skips(run[m - 1], steps[m - 1], i);
      } else {
        PassedNext(n, run, steps, m - 1, i, k);
        assert !SkippedIn(run, steps, p, m, i);
      }
    }
  }

  /** A request waiting in its slot when a pass begins is answered by the end of that pass if and
      only if the pass does not skip its slot. */
  lemma WaitingIsAnsweredIff(n: nat, run: seq<State>, steps: seq<Step>, p: nat, q: nat, i: nat)
    requires Stepped(n, run, steps) && OnePass(steps, p, q) && i < n
    requires run[p].combiner == Collecting([]) && i in run[p].requests
    ensures |run[p].past| == |run[q].past| == n
    ensures |run[q].past[i].replied| >= |run[p].past[i].sent| <==> !SkippedIn(run, steps, p, q, i)
  {
    RunInv(n, run, p);
    RunInv(n, run, q);
    assert ClientOk(run[p], i);
    var k := |run[p].past[i].sent|;
    assert Ahead(run[p], i, k);
    DuringPass(n, run, steps, p, q - 1, q, i, k);
    assert Takes(run, steps, q - 1);
    assert SkippedIn(run, steps, p, q, i) <==> SkippedIn(run, steps, p, q - 1, i);
    if SkippedIn(run, steps, p, q - 1, i) {
      MissedNext(n, run, steps, q - 1, i, k);
    } else {
      PassedNext(n, run, steps, q - 1, i, k);
    }
  }

  lemma NothingWaits(n: nat, run: seq<State>, p: nat, q: nat, i: nat)
    requires Run(n, run) && p <= q < |run| && i < n && run[p].combiner == Collecting([]) && i !in run[p].requests
    ensures |run[p].past| == |run[q].past| == n && |run[q].past[i].replied| >= |run[p].past[i].sent|
  {
    RunInv(n, run, p);
    assert ClientOk(run[p], i);
    HistoriesGrow(n, run, p, q, i);
  }

  /** Over one pass of any run, everything client `i` sent before the pass has been answered at its
      end, if and only if no request of `i` was waiting or the pass did not skip slot `i`. */
  lemma PassAnswersIffNotSkipped(n: nat, run: seq<State>, steps: seq<Step>, p: nat, q: nat, i: nat)
    requires Stepped(n, run, steps) && OnePass(steps, p, q) && i < n && run[p].combiner == Collecting([])
    ensures |run[p].past| == |run[q].past| == n
    ensures Asked(run[p].past[i].sent) <= Answered(run[q].past[i].replied)
            <==> (i in run[p].requests ==> !SkippedIn(run, steps, p, q, i))
  {
    HistoriesGrow(n, run, p, q, i);
    AnswersComeInOrder(n, run, q, i);
    if i in run[p].requests {
      WaitingIsAnsweredIff(n, run, steps, p, q, i);
    } else {
      NothingWaits(n, run, p, q, i);
    }
    AskedPrefix(run[p].past[i].sent, run[q].past[i].sent);
    AskedPrefix(run[q].past[i].taken, run[q].past[i].sent);
    PrefixByLength(Asked(run[p].past[i].sent), Answered(run[q].past[i].replied), Asked(run[q].past[i].sent));
  }

  lemma {:induction false} HonestPassMissesNobody(
      n: nat, run: seq<State>, steps: seq<Step>, p: nat, m: nat, q: nat, i: nat, k: nat)
    requires Stepped(n, run, steps) && OnePass(steps, p, q) && p <= m <= q && Ahead(run[p], i, k)
    requires forall j | p <= j < m :: Honest(run[j], steps[j])
    ensures !SkippedIn(run, steps, p, m, i)
    decreases m
  {
    if p < m {
      HonestPassMissesNobody(n, run, steps, p, m - 1, q, i, k);
      DuringPass(n, run, steps, p, m - 1, q, i, k);
      RunInv(n, run, m - 1);
      assert Honest(run[m - 1], steps[m - 1]);
      assert Ahead(run[m - 1], i, k) ==> ClientOk(run[m - 1], i);
    }
  }

  /** So a pass that skips only slots that are not set answers everybody, whatever the combiner
      has done in other passes. */
  lemma PassAnswersEveryone(n: nat, run: seq<State>, steps: seq<Step>, p: nat, q: nat, i: nat)
    requires Stepped(n, run, steps) && OnePass(steps, p, q) && i < n && run[p].combiner == Collecting([])
    requires forall j | p <= j < q :: Honest(run[j], steps[j])
    ensures |run[p].past| == |run[q].past| == n
    ensures Asked(run[p].past[i].sent) <= Answered(run[q].past[i].replied)
  {
    PassAnswersIffNotSkipped(n, run, steps, p, q, i);
    if i in run[p].requests {
      RunInv(n, run, p);
      assert ClientOk(run[p], i);
      HonestPassMissesNobody(n, run, steps, p, q, q, i, |run[p].past[i].sent|);
    }
  }

  lemma AskedPrefix(a: seq<Request>, b: seq<Request>)
    requires a <= b
    ensures Asked(a) <= Asked(b)
  {
  }

  lemma PrefixByLength<T>(a: seq<T>, b: seq<T>, whole: seq<T>)
    requires a <= whole && b <= whole
    ensures a <= b <==> |a| <= |b|
  {
  }

  lemma HistoriesGrowStep(n: nat, run: seq<State>, q: nat, i: nat)
    requires Run(n, run) && q + 1 < |run| && i < n
    ensures |run[q].past| == |run[q + 1].past| == n
    ensures run[q].past[i].sent <= run[q + 1].past[i].sent && run[q].past[i].replied <= run[q + 1].past[i].replied
  {
    RunInv(n, run, q);
    RunInv(n, run, q + 1);
    assert Steps(run[q], run[q + 1]);
  }

  lemma {:induction false} HistoriesGrow(n: nat, run: seq<State>, p: nat, q: nat, i: nat)
    requires Run(n, run) && p <= q < |run| && i < n
    ensures |run[p].past| == |run[q].past| == n
    ensures run[p].past[i].sent <= run[q].past[i].sent && run[p].past[i].replied <= run[q].past[i].replied
    decreases q
  {
    RunInv(n, run, p);
    if p < q {
      HistoriesGrow(n, run, p, q - 1, i);
      HistoriesGrowStep(n, run, q - 1, i);
    }
  }

  lemma RunExtends(n: nat, run: seq<State>, step: Step, s: State)
    requires Run(n, run) && Enabled(run[|run| - 1], step) && Sound(run[|run| - 1], step)
    requires s == Next(run[|run| - 1], step)
    ensures Run(n, run + [s])
  {
  }

  lemma FirstRequest(rid: int, req: int)
    ensures var send := ClientSend(0, Request(rid, req));
            && Enabled(Init(1), send) && Sound(Init(1), send)
            && Next(Init(1), send)
               == State([Waiting(rid)], [true], Collecting([]), map[0 := Request(rid, req)], map[],
                        [Past([Request(rid, req)], [], [], [])])
  {
    assert Init(1) == State([Idle], [false], Collecting([]), map[], map[], [Past([], [], [], [])]);
    assert [] + [Request(rid, req)] == [Request(rid, req)];
  }

  /** The transitions do let the combiner skip a slot that is set: a pass that ends with the request
      still waiting. */
  lemma SkippingASetSlotStarves(rid: int, req: int) returns (run: seq<State>)
    ensures Run(1, run) && |run| == 6 && |run[1].past| == |run[5].past| == 1
    ensures run[1].combiner == run[5].combiner == Collecting([])
    ensures run[1].past[0].sent == [Request(rid, req)] && run[5].past[0].replied == []
  {
    var s1 := State([Waiting(rid)], [true], Collecting([]), map[0 := Request(rid, req)], map[],
                    [Past([Request(rid, req)], [], [], [])]);
    var s2 := s1.(combiner := Collecting([None]));
    var s3 := s1.(combiner := Responding([None], 0));
    var s4 := s1.(combiner := Responding([None], 1));
    run := [Init(1)];
    FirstRequest(rid, req);
    var none: Option<int> := None;
    assert [] + [none] == [none];
    RunExtends(1, run, ClientSend(0, Request(rid, req)), s1);
    RunExtends(1, run + [s1], CombinerSkip, s2);
    RunExtends(1, run + [s1] + [s2], GoToResponding, s3);
    RunExtends(1, run + [s1] + [s2] + [s3], CombinerSendSkip, s4);
    RunExtends(1, run + [s1] + [s2] + [s3] + [s4], GoToCollecting, s1);
    run := run + [s1] + [s2] + [s3] + [s4] + [s1];
  }

  function CombinerSteps(steps: seq<Step>): nat {
    if steps == [] then 0 else CombinerSteps(steps[..|steps| - 1]) + if ByCombiner(steps[|steps| - 1]) then 1 else 0
  }

  lemma PassAdvancesNext(n: nat, run: seq<State>, steps: seq<Step>, q: nat)
    requires Stepped(n, run, steps) && q < |steps| && !steps[q].GoToCollecting?
    ensures StepsLeft(run[q + 1]) == StepsLeft(run[q]) - if ByCombiner(steps[q]) then 1 else 0
  {
    assert Takes(run, steps, q);
    PassAdvances(run[q], steps[q]);
  }

  lemma PassBounds(n: nat, run: seq<State>, k: nat)
    requires Run(n, run) && k < |run|
    ensures 0 <= StepsLeft(run[k]) <= 2 * n + 1
  {
    RunInv(n, run, k);
  }

  /** Short of its last step a pass has at most 2n + 1 combiner steps, however many the clients take. */
  lemma {:induction false} PassIsShort(n: nat, run: seq<State>, steps: seq<Step>, p: nat, q: nat)
    requires Stepped(n, run, steps) && p <= q < |run|
    requires forall k | p <= k < q :: !steps[k].GoToCollecting?
    ensures CombinerSteps(steps[p..q]) == StepsLeft(run[p]) - StepsLeft(run[q]) <= 2 * n + 1
    decreases q
  {
    PassBounds(n, run, p);
    PassBounds(n, run, q);
    if p < q {
      PassIsShort(n, run, steps, p, q - 1);
      PassAdvancesNext(n, run, steps, q - 1);
      assert steps[p..q][..q - p - 1] == steps[p..q - 1];
    }
  }
}
