/** The append-only log of examples/resource/log.rs: an algebra of partial knowledge about a log, and
    what its holders can do. */
module AppendLog {

  datatype Value<T> =
    | PrefixKnowledge(prefix: seq<T>)
    | HalfAuthority(log: seq<T>)
    | FullAuthority(log: seq<T>)
    | Invalid

  predicate Valid<T>(a: Value<T>) { !a.Invalid? }

  function Op<T(==)>(a: Value<T>, b: Value<T>): Value<T> {
    match a
    case PrefixKnowledge(p) =>
      (match b
       case PrefixKnowledge(q) => if p <= q then b else if q <= p then a else Invalid
       case HalfAuthority(log) => if p <= log then b else Invalid
       case FullAuthority(log) => if p <= log then b else Invalid
       case Invalid => Invalid)
    case HalfAuthority(log) =>
      (match b
       case PrefixKnowledge(p) => if p <= log then a else Invalid
       case HalfAuthority(other) => if log == other then FullAuthority(log) else Invalid
       case _ => Invalid)
    case FullAuthority(log) => if b.PrefixKnowledge? && b.prefix <= log then a else Invalid
    case Invalid => Invalid
  }

  function Unit<T>(): Value<T> { PrefixKnowledge([]) }

  function LogOf<T>(a: Value<T>): seq<T> {
    match a
    case PrefixKnowledge(prefix) => prefix
    case HalfAuthority(log) => log
    case FullAuthority(log) => log
    case Invalid => []
  }

  // ----- a commutative monoid

  /** Two prefixes of one sequence are prefixes of one another. */
  lemma PrefixesCompare<T>(p: seq<T>, q: seq<T>, log: seq<T>)
    requires p <= log && q <= log
    ensures p <= q || q <= p
  {
  }

  lemma PrefixTransitive<T>(p: seq<T>, q: seq<T>, r: seq<T>)
    requires p <= q && q <= r
    ensures p <= r
  {
  }

  lemma OpCommutative<T>(a: Value<T>, b: Value<T>)
    ensures Op(a, b) == Op(b, a)
  {
  }

  lemma OpUnit<T>(a: Value<T>)
    ensures Op(a, Unit()) == a
  {
  }

  lemma OpAssociative<T>(a: Value<T>, b: Value<T>, c: Value<T>)
    ensures Op(Op(a, b), c) == Op(a, Op(b, c))
  {
  }

  /** Part of a valid value is valid. */
  lemma OpValid<T>(a: Value<T>, b: Value<T>)
    requires Valid(Op(a, b))
    ensures Valid(a) && Valid(b)
  {
  }

  /** Two pieces of knowledge that can be held together are about the same log. */
  lemma DeducePrefixRelation<T>(a: Value<T>, b: Value<T>)
    requires Valid(Op(a, b))
    ensures LogOf(a) <= LogOf(b) || LogOf(b) <= LogOf(a)
    ensures a.HalfAuthority? || a.FullAuthority? ==> LogOf(b) <= LogOf(a)
    ensures b.HalfAuthority? || b.FullAuthority? ==> LogOf(a) <= LogOf(b)
  {
  }

  // ----- updates that no other holder can notice

  ghost predicate FramePreserving<T(!new)>(a: Value<T>, b: Value<T>) {
    forall frame :: Valid(Op(a, frame)) ==> Valid(Op(b, frame))
  }

  /** The full authority may change the log exactly by appending to it. */
  lemma AuthorityMayAppend<T(!new)>(log: seq<T>, log': seq<T>)
    ensures FramePreserving(FullAuthority(log), FullAuthority(log')) <==> log <= log'
  {
    if log <= log' {
      forall frame | Valid(Op(FullAuthority(log), frame)) ensures Valid(Op(FullAuthority(log'), frame)) {
        PrefixTransitive(frame.prefix, log, log');
      }
    } else {
      assert Valid(Op(FullAuthority(log), PrefixKnowledge(log)))
             && !Valid(Op(FullAuthority(log'), PrefixKnowledge(log)));
    }
  }

  /** Half of it may not change the log at all. */
  lemma HalfMayNotAppend<T(!new)>(log: seq<T>, log': seq<T>)
    ensures FramePreserving(HalfAuthority(log), HalfAuthority(log')) <==> log == log'
  {
    assert Valid(Op(HalfAuthority(log), HalfAuthority(log)));
    if log != log' {
      assert !Valid(Op(HalfAuthority(log'), HalfAuthority(log)));
    }
  }

  // ----- any number of holders

  /** What the holders of one log know together. */
  function Joint<T(==)>(holders: seq<Value<T>>): Value<T> {
    if holders == [] then Unit() else Op(Joint(holders[..|holders| - 1]), holders[|holders| - 1])
  }

  function Without<T>(holders: seq<Value<T>>, i: nat): seq<Value<T>>
    requires i < |holders|
  {
    holders[..i] + holders[i + 1..]
  }

  lemma JointAppend<T>(holders: seq<Value<T>>, a: Value<T>)
    ensures Joint(holders + [a]) == Op(Joint(holders), a)
  {
  }

  /** Any holder can be told apart from the rest. */
  lemma {:induction false} JointPick<T>(holders: seq<Value<T>>, i: nat)
    requires i < |holders|
    ensures Joint(holders) == Op(holders[i], Joint(Without(holders, i)))
  {
    var n := |holders| - 1;
    var init, last := holders[..n], holders[n];
    if i == n {
      assert Without(holders, i) == init;
      OpCommutative(Joint(init), last);
    } else {
      JointPick(init, i);
      assert Without(holders, i) == Without(init, i) + [last];
      JointAppend(Without(init, i), last);
      OpAssociative(holders[i], Joint(Without(init, i)), last);
    }
  }

  datatype Step<T> =
    | Split(i: nat)
    | Append(i: nat, v: T)
    | AppendUsingTwoHalves(i: nat, j: nat, v: T)
    | ExtractPrefixKnowledge(i: nat)

  predicate Enabled<T>(holders: seq<Value<T>>, step: Step<T>) {
    match step
    case Split(i) => i < |holders| && holders[i].FullAuthority?
    case Append(i, _) => i < |holders| && holders[i].FullAuthority?
    case AppendUsingTwoHalves(i, j, _) =>
      i < |holders| && j < |holders| && i != j && holders[i].HalfAuthority? && holders[j].HalfAuthority?
    case ExtractPrefixKnowledge(i) => i < |holders|
  }

  function Next<T>(holders: seq<Value<T>>, step: Step<T>): seq<Value<T>>
    requires Enabled(holders, step)
  {
    match step
    case Split(i) => holders[i := HalfAuthority(holders[i].log)] + [HalfAuthority(holders[i].log)]
    case Append(i, v) => holders[i := FullAuthority(holders[i].log + [v])]
    case AppendUsingTwoHalves(i, j, v) =>
      var value := HalfAuthority(holders[i].log + [v]);
      holders[i := value][j := value]
    case ExtractPrefixKnowledge(i) => holders + [PrefixKnowledge(LogOf(holders[i]))]
  }

  /** What a step adds to the log. */
  function Added<T>(step: Step<T>): seq<T> {
    if step.Append? || step.AppendUsingTwoHalves? then [step.v] else []
  }

  lemma Exchange<T>(holders: seq<Value<T>>, i: nat, a: Value<T>)
    requires i < |holders|
    ensures Joint(holders[i := a]) == Op(a, Joint(Without(holders, i)))
  {
    assert Without(holders[i := a], i) == Without(holders, i);
    JointPick(holders[i := a], i);
  }

  /** The other holders of a log whose authority is in one hand know prefixes of it. */
  lemma RestIsPrefix<T>(a: Value<T>, rest: Value<T>, log: seq<T>)
    requires Op(a, rest) == FullAuthority(log) && a.FullAuthority?
    ensures a.log == log && rest.PrefixKnowledge? && rest.prefix <= log
  {
  }

  lemma SplitStep<T>(holders: seq<Value<T>>, i: nat, log: seq<T>)
    requires Joint(holders) == FullAuthority(log) && Enabled(holders, Split(i))
    ensures Joint(Next(holders, Split(i))) == FullAuthority(log)
  {
    var rest, half := Joint(Without(holders, i)), HalfAuthority(holders[i].log);
    JointPick(holders, i);
    RestIsPrefix(holders[i], rest, log);
    Exchange(holders, i, half);
    JointAppend(holders[i := half], half);
  }

  lemma AppendStep<T>(holders: seq<Value<T>>, i: nat, v: T, log: seq<T>)
    requires Joint(holders) == FullAuthority(log) && Enabled(holders, Append(i, v))
    ensures Joint(Next(holders, Append(i, v))) == FullAuthority(log + [v])
  {
    var rest := Joint(Without(holders, i));
    JointPick(holders, i);
    RestIsPrefix(holders[i], rest, log);
    Exchange(holders, i, FullAuthority(log + [v]));
    PrefixTransitive(rest.prefix, log, log + [v]);
  }

  /** What all holders but two know. */
  function AllButTwo<T(==)>(holders: seq<Value<T>>, i: nat, j: nat): Value<T>
    requires i < |holders| && j < |holders| && i != j
  {
    Joint(Without(Without(holders, i), if j < i then j else j - 1))
  }

  lemma ExchangeTwo<T>(holders: seq<Value<T>>, i: nat, j: nat, a: Value<T>, b: Value<T>)
    requires i < |holders| && j < |holders| && i != j
    ensures Joint(holders[i := a][j := b]) == Op(Op(a, b), AllButTwo(holders, i, j))
  {
    var k := if j < i then j else j - 1;
    var now, others := holders[i := a][j := b], Without(holders, i);
    assert Without(now, i) == others[k := b];
    JointPick(now, i);
    Exchange(others, k, b);
    OpAssociative(a, b, AllButTwo(holders, i, j));
  }

  lemma TwoHalvesStep<T>(holders: seq<Value<T>>, i: nat, j: nat, v: T, log: seq<T>)
    requires Joint(holders) == FullAuthority(log) && Enabled(holders, AppendUsingTwoHalves(i, j, v))
    ensures holders[i].log == log == holders[j].log
    ensures Joint(Next(holders, AppendUsingTwoHalves(i, j, v))) == FullAuthority(log + [v])
  {
    var rest := AllButTwo(holders, i, j);
    assert holders == holders[i := holders[i]][j := holders[j]];
    ExchangeTwo(holders, i, j, holders[i], holders[j]);
    RestIsPrefix(Op(holders[i], holders[j]), rest, log);
    PrefixTransitive(rest.prefix, log, log + [v]);
    ExchangeTwo(holders, i, j, HalfAuthority(log + [v]), HalfAuthority(log + [v]));
  }

  lemma PartOfFull<T>(a: Value<T>, rest: Value<T>, log: seq<T>)
    requires Op(a, rest) == FullAuthority(log)
    ensures !a.Invalid? && LogOf(a) <= log && (!a.PrefixKnowledge? ==> LogOf(a) == log)
  {
  }

  lemma ExtractStep<T>(holders: seq<Value<T>>, i: nat, log: seq<T>)
    requires Joint(holders) == FullAuthority(log) && i < |holders|
    ensures Joint(Next(holders, ExtractPrefixKnowledge(i))) == FullAuthority(log)
  {
    PickHolder(holders, i, log);
    JointAppend(holders, PrefixKnowledge(LogOf(holders[i])));
  }

  lemma StepJoint<T(!new)>(holders: seq<Value<T>>, step: Step<T>, log: seq<T>)
    requires Joint(holders) == FullAuthority(log) && Enabled(holders, step)
    ensures Joint(Next(holders, step)) == FullAuthority(log + Added(step))
  {
    assert log + [] == log;
    match step
    case Split(i) => SplitStep(holders, i, log);
    case Append(i, v) => AppendStep(holders, i, v, log);
    case AppendUsingTwoHalves(i, j, v) => TwoHalvesStep(holders, i, j, v, log);
    case ExtractPrefixKnowledge(i) => ExtractStep(holders, i, log);
  }

  /** The holders of one log, changed in place by the operations of the library. */
  class Holders<T(==)> {
    var values: seq<Value<T>>
    ghost var log: seq<T>

    ghost predicate Valid()
      reads this
    {
      Joint(values) == FullAuthority(log)
    }

    constructor Alloc()
      ensures Valid() && values == [FullAuthority([])] && log == []
    {
      values, log := [FullAuthority([])], [];
      new;
      assert values[..0] == [];
    }

    method Split(i: nat) returns (other: nat)
      requires Valid() && i < |values| && values[i].FullAuthority?
      modifies this
      ensures Valid() && log == old(log) && other == |old(values)| && |values| == other + 1
      ensures values[i] == values[other] == HalfAuthority(log)
      ensures forall k | 0 <= k < other && k != i :: values[k] == old(values)[k]
      ensures values == Next(old(values), Step.Split(i))
    {
      SplitStep(values, i, log);
      PickHolder(values, i, log);
      var half := HalfAuthority(values[i].log);
      other := |values|;
      values := values[i := half] + [half];
    }

    method Append(i: nat, v: T)
      requires Valid() && i < |values| && values[i].FullAuthority?
      modifies this
      ensures Valid() && log == old(log) + [v] && |values| == |old(values)| && values[i] == FullAuthority(log)
      ensures forall k | 0 <= k < |values| && k != i :: values[k] == old(values)[k]
      ensures values == Next(old(values), Step.Append(i, v))
    {
      AppendStep(values, i, v, log);
      PickHolder(values, i, log);
      values := values[i := FullAuthority(values[i].log + [v])];
      log := log + [v];
    }

    method AppendUsingTwoHalves(i: nat, j: nat, v: T)
      requires Valid() && i < |values| && j < |values| && i != j
      requires values[i].HalfAuthority? && values[j].HalfAuthority?
      modifies this
      ensures Valid() && log == old(log) + [v] && |values| == |old(values)|
      ensures values[i] == values[j] == HalfAuthority(log)
      ensures forall k | 0 <= k < |values| && k != i && k != j :: values[k] == old(values)[k]
      ensures values == Next(old(values), Step.AppendUsingTwoHalves(i, j, v))
    {
      TwoHalvesStep(values, i, j, v, log);
      var value := HalfAuthority(values[i].log + [v]);
      values := values[i := value][j := value];
      log := log + [v];
    }

    method ExtractPrefixKnowledge(i: nat) returns (other: nat)
      requires Valid() && i < |values|
      modifies this
      ensures Valid() && log == old(log) && other == |old(values)|
      ensures values == old(values) + [PrefixKnowledge(LogOf(old(values)[i]))]
      ensures values == Next(old(values), Step.ExtractPrefixKnowledge(i))
    {
      ExtractStep(values, i, log);
      other := |values|;
      values := values + [PrefixKnowledge(LogOf(values[i]))];
    }
  }

  lemma PickHolder<T>(holders: seq<Value<T>>, i: nat, log: seq<T>)
    requires Joint(holders) == FullAuthority(log) && i < |holders|
    ensures !holders[i].Invalid? && LogOf(holders[i]) <= log
    ensures !holders[i].PrefixKnowledge? ==> LogOf(holders[i]) == log
  {
    JointPick(holders, i);
    PartOfFull(holders[i], Joint(Without(holders, i)), log);
  }

  // ----- whole runs

  ghost predicate Run<T(!new)>(run: seq<seq<Value<T>>>, steps: seq<Step<T>>) {
    && |run| == |steps| + 1 && run[0] == [FullAuthority([])]
    && forall k {:trigger Taken(run, steps, k)} | 0 <= k < |steps| :: Taken(run, steps, k)
  }

  predicate Taken<T(==)>(run: seq<seq<Value<T>>>, steps: seq<Step<T>>, k: nat) {
    k < |steps| == |run| - 1 && Enabled(run[k], steps[k]) && run[k + 1] == Next(run[k], steps[k])
  }

  /** Everything the steps have added, in order. */
  function LogAfter<T>(steps: seq<Step<T>>): seq<T> {
    if steps == [] then [] else LogAfter(steps[..|steps| - 1]) + Added(steps[|steps| - 1])
  }

  /** In every run the holders together have full authority over the log that the appends made. */
  lemma {:induction false} HoldersKnowTheLog<T(!new)>(run: seq<seq<Value<T>>>, steps: seq<Step<T>>, k: nat)
    requires Run(run, steps) && k < |run|
    ensures Joint(run[k]) == FullAuthority(LogAfter(steps[..k]))
  {
    if k == 0 {
      assert run[0][..0] == [];
    } else {
      HoldersKnowTheLog(run, steps, k - 1);
      assert Taken(run, steps, k - 1);
      StepJoint(run[k - 1], steps[k - 1], LogAfter(steps[..k - 1]));
      assert steps[..k][..k - 1] == steps[..k - 1];
    }
  }

  lemma {:induction false} LogGrows<T>(steps: seq<Step<T>>, k: nat, l: nat)
    requires k <= l <= |steps|
    ensures LogAfter(steps[..k]) <= LogAfter(steps[..l])
    decreases l
  {
    if k < l {
      LogGrows(steps, k, l - 1);
      assert steps[..l][..l - 1] == steps[..l - 1];
      PrefixTransitive(LogAfter(steps[..k]), LogAfter(steps[..l - 1]), LogAfter(steps[..l]));
    }
  }

  /** What one holder says of the log: knowledge of a prefix, or the whole of it. */
  lemma HolderKnows<T(!new)>(run: seq<seq<Value<T>>>, steps: seq<Step<T>>, k: nat, i: nat)
    requires Run(run, steps) && k < |run| && i < |run[k]|
    ensures !run[k][i].Invalid? && LogOf(run[k][i]) <= LogAfter(steps[..k])
    ensures !run[k][i].PrefixKnowledge? ==> LogOf(run[k][i]) == LogAfter(steps[..k])
  {
    HoldersKnowTheLog(run, steps, k);
    PickHolder(run[k], i, LogAfter(steps[..k]));
  }

  lemma {:induction false} KnowledgeStays<T(!new)>(run: seq<seq<Value<T>>>, steps: seq<Step<T>>, k: nat, l: nat, i: nat)
    requires Run(run, steps) && k <= l < |run| && i < |run[k]|
    ensures i < |run[l]|
    ensures run[k][i].PrefixKnowledge? ==> run[l][i] == run[k][i]
    decreases l
  {
    if k < l {
      KnowledgeStays(run, steps, k, l - 1, i);
      assert Taken(run, steps, l - 1);
    }
  }

  /** The holder added by an extraction knows what its source knew: when an authority is asked,
      everything appended so far. */
  lemma ExtractionKnows<T(!new)>(run: seq<seq<Value<T>>>, steps: seq<Step<T>>, k: nat)
    requires Run(run, steps) && k < |steps| && steps[k].ExtractPrefixKnowledge?
    ensures steps[k].i < |run[k]| && |run[k + 1]| == |run[k]| + 1 && run[k + 1][..|run[k]|] == run[k]
    ensures var source, new_ := run[k][steps[k].i], run[k + 1][|run[k]|];
            && new_ == PrefixKnowledge(LogOf(source))
            && new_.prefix <= LogAfter(steps[..k])
            && (!source.PrefixKnowledge? ==> new_.prefix == LogAfter(steps[..k]))
  {
    assert Taken(run, steps, k);
    HolderKnows(run, steps, k, steps[k].i);
  }

  /** A prefix extracted at any time is kept, and is a prefix of the log held by every authority at
      any later time. */
  lemma PrefixForever<T(!new)>(run: seq<seq<Value<T>>>, steps: seq<Step<T>>, k: nat, l: nat, i: nat, j: nat)
    requires Run(run, steps) && k <= l < |run| && i < |run[k]| && j < |run[l]|
    requires run[k][i].PrefixKnowledge? && !run[l][j].PrefixKnowledge?
    ensures i < |run[l]| && run[l][i] == run[k][i] && run[k][i].prefix <= LogOf(run[l][j])
  {
    KnowledgeStays(run, steps, k, l, i);
    HolderKnows(run, steps, l, i);
    HolderKnows(run, steps, l, j);
  }

  /** Any two holders, at any times, agree on what they both know. */
  lemma HoldersAgree<T(!new)>(run: seq<seq<Value<T>>>, steps: seq<Step<T>>, k: nat, l: nat, i: nat, j: nat)
    requires Run(run, steps) && k <= l < |run| && i < |run[k]| && j < |run[l]|
    ensures LogOf(run[k][i]) <= LogOf(run[l][j]) || LogOf(run[l][j]) <= LogOf(run[k][i])
  {
    HolderKnows(run, steps, k, i);
    HolderKnows(run, steps, l, j);
    LogGrows(steps, k, l);
    PrefixTransitive(LogOf(run[k][i]), LogAfter(steps[..k]), LogAfter(steps[..l]));
    PrefixesCompare(LogOf(run[k][i]), LogOf(run[l][j]), LogAfter(steps[..l]));
  }
}
