/** 64-bit words and their bitwise exclusive or. */
module Words {
  const LIMIT: nat := 0x1_0000_0000_0000_0000

  type Word = x: nat | x < LIMIT

  predicate PowerOfTwo(n: nat)
    decreases n
  {
    n == 1 || (n > 1 && n % 2 == 0 && PowerOfTwo(n / 2))
  }

  function XorBits(a: nat, b: nat): nat
    decreases a + b
  {
    if a == 0 && b == 0 then 0 else (if a % 2 == b % 2 then 0 else 1) + 2 * XorBits(a / 2, b / 2)
  }

  lemma {:induction false} XorBelow(a: nat, b: nat, limit: nat)
    requires PowerOfTwo(limit) && a < limit && b < limit
    ensures XorBits(a, b) < limit
    decreases a + b
  {
    if a != 0 || b != 0 {
      XorBelow(a / 2, b / 2, limit / 2);
    }
  }

  lemma Times16(n: nat)
    requires PowerOfTwo(n)
    ensures PowerOfTwo(16 * n)
  {
    assert PowerOfTwo(2 * n);
    assert PowerOfTwo(2 * (2 * n));
    assert PowerOfTwo(2 * (4 * n));
    assert PowerOfTwo(2 * (8 * n));
  }

  lemma Times65536(n: nat)
    requires PowerOfTwo(n)
    ensures PowerOfTwo(65536 * n)
  {
    Times16(n);
    Times16(16 * n);
    Times16(256 * n);
    Times16(4096 * n);
  }

  lemma LimitIsPowerOfTwo()
    ensures PowerOfTwo(LIMIT)
  {
    Times65536(1);
    Times65536(65536);
    Times65536(0x1_0000_0000);
    Times65536(0x1_0000_0000_0000);
  }

  function Xor(a: Word, b: Word): Word {
    LimitIsPowerOfTwo();
    XorBelow(a, b, LIMIT);
    XorBits(a, b)
  }

  lemma {:induction false} XorBitsZero(a: nat)
    ensures XorBits(a, 0) == a == XorBits(0, a)
  {
    if a != 0 {
      XorBitsZero(a / 2);
    }
  }

  lemma {:induction false} XorBitsCancel(a: nat, b: nat)
    ensures XorBits(XorBits(a, b), b) == a && XorBits(XorBits(a, b), a) == b
    decreases a + b
  {
    if a != 0 || b != 0 {
      XorBitsCancel(a / 2, b / 2);
      var c := XorBits(a, b);
      assert c / 2 == XorBits(a / 2, b / 2);
    }
  }

  lemma XorZero(a: Word)
    ensures Xor(a, 0) == a == Xor(0, a)
  {
    XorBitsZero(a);
  }

  /** XOR with one neighbour gives the other. */
  lemma XorCancel(a: Word, b: Word)
    ensures Xor(Xor(a, b), b) == a && Xor(Xor(a, b), a) == b
  {
    XorBitsCancel(a, b);
  }
}

/** The deque of examples/doubly_linked_xor.rs: a doubly linked list whose nodes store the XOR of
    the addresses of their two neighbours. */
module XorDeque {

  import opened Words

  datatype Node<V> = Node(xored: Word, v: V)

  /** An element of the deque and the address of its node. */
  datatype Cell<V> = Cell(at: Word, v: V)

  // ----- lists in memory

  function Prev<V>(cells: seq<Cell<V>>, i: nat): Word {
    if 0 < i <= |cells| then cells[i - 1].at else 0
  }

  function Next<V>(cells: seq<Cell<V>>, i: nat): Word {
    if i + 1 < |cells| then cells[i + 1].at else 0
  }

  function Head<V>(cells: seq<Cell<V>>): Word { if cells == [] then 0 else cells[0].at }

  function Tail<V>(cells: seq<Cell<V>>): Word { if cells == [] then 0 else cells[|cells| - 1].at }

  predicate Fresh<V>(cells: seq<Cell<V>>, at: Word) {
    at != 0 && forall i | 0 <= i < |cells| :: cells[i].at != at
  }

  predicate Separate<V>(cells: seq<Cell<V>>) {
    && (forall i | 0 <= i < |cells| :: cells[i].at != 0)
    && (forall i, j | 0 <= i < j < |cells| :: cells[i].at != cells[j].at)
  }

  /** The node of an element is stored at its address, with the XOR of its neighbours' addresses. */
  predicate NodeOk<V(==)>(cells: seq<Cell<V>>, mem: map<Word, Node<V>>, i: nat) {
    && i < |cells| && cells[i].at in mem
    && mem[cells[i].at] == Node(Xor(Prev(cells, i), Next(cells, i)), cells[i].v)
  }

  /** `mem` holds the list and nothing else. */
  ghost predicate Linked<V>(cells: seq<Cell<V>>, mem: map<Word, Node<V>>) {
    && Separate(cells)
    && (forall i: nat | i < |cells| :: NodeOk(cells, mem, i))
    && (forall a | a in mem :: exists i :: 0 <= i < |cells| && cells[i].at == a)
  }

  lemma LinkBack<V>(cells: seq<Cell<V>>, mem: map<Word, Node<V>>, c: Cell<V>)
    requires Linked(cells, mem) && cells != [] && Fresh(cells, c.at)
    ensures NodeOk(cells, mem, |cells| - 1)
    ensures var last := cells[|cells| - 1];
            Linked(cells + [c], mem[last.at := Node(Xor(mem[last.at].xored, c.at), last.v)][c.at := Node(last.at, c.v)])
  {
    var n, last, longer := |cells| - 1, cells[|cells| - 1], cells + [c];
    assert NodeOk(cells, mem, n);
    XorZero(Prev(cells, n));
    XorZero(last.at);
    var mem' := mem[last.at := Node(Xor(mem[last.at].xored, c.at), last.v)][c.at := Node(last.at, c.v)];
    forall i: nat | i < |longer| ensures NodeOk(longer, mem', i) {
      if i <= n {
        assert NodeOk(cells, mem, i);
      }
    }
    forall a | a in mem' ensures exists i :: 0 <= i < |longer| && longer[i].at == a {
      if a == c.at {
        assert longer[n + 1].at == a;
      } else {
        var i :| 0 <= i < |cells| && cells[i].at == a;
        assert longer[i].at == a;
      }
    }
  }

  lemma LinkFront<V>(cells: seq<Cell<V>>, mem: map<Word, Node<V>>, c: Cell<V>)
    requires Linked(cells, mem) && cells != [] && Fresh(cells, c.at)
    ensures NodeOk(cells, mem, 0)
    ensures var first := cells[0];
            Linked([c] + cells,
                   mem[first.at := Node(Xor(c.at, mem[first.at].xored), first.v)][c.at := Node(first.at, c.v)])
  {
    var first, longer := cells[0], [c] + cells;
    assert NodeOk(cells, mem, 0);
    XorZero(Next(cells, 0));
    XorZero(first.at);
    var mem' := mem[first.at := Node(Xor(c.at, mem[first.at].xored), first.v)][c.at := Node(first.at, c.v)];
    forall i: nat | i < |longer| ensures NodeOk(longer, mem', i) {
      if i > 0 {
        assert NodeOk(cells, mem, i - 1);
        assert longer[i] == cells[i - 1];
      }
    }
    forall a | a in mem' ensures exists i :: 0 <= i < |longer| && longer[i].at == a {
      if a == c.at {
        assert longer[0].at == a;
      } else {
        var i :| 0 <= i < |cells| && cells[i].at == a;
        assert longer[i + 1].at == a;
      }
    }
  }

  lemma UnlinkBack<V>(cells: seq<Cell<V>>, mem: map<Word, Node<V>>)
    requires Linked(cells, mem) && |cells| >= 2
    ensures NodeOk(cells, mem, |cells| - 2)
    ensures var last, before := cells[|cells| - 1], cells[|cells| - 2];
            Linked(cells[..|cells| - 1],
                   (mem - {last.at})[before.at := Node(Xor(mem[before.at].xored, last.at), before.v)])
  {
    var n := |cells| - 1;
    var last, before, shorter := cells[n], cells[n - 1], cells[..n];
    assert NodeOk(cells, mem, n - 1);
    XorCancel(Prev(cells, n - 1), last.at);
    XorZero(Prev(cells, n - 1));
    var mem' := (mem - {last.at})[before.at := Node(Xor(mem[before.at].xored, last.at), before.v)];
    forall i: nat | i < |shorter| ensures NodeOk(shorter, mem', i) {
      assert NodeOk(cells, mem, i);
    }
    forall a | a in mem' ensures exists i :: 0 <= i < |shorter| && shorter[i].at == a {
      var i :| 0 <= i < |cells| && cells[i].at == a;
      assert shorter[i].at == a;
    }
  }

  lemma UnlinkFront<V>(cells: seq<Cell<V>>, mem: map<Word, Node<V>>)
    requires Linked(cells, mem) && |cells| >= 2
    ensures NodeOk(cells, mem, 1)
    ensures var first, second := cells[0], cells[1];
            Linked(cells[1..], (mem - {first.at})[second.at := Node(Xor(mem[second.at].xored, first.at), second.v)])
  {
    var first, second, shorter := cells[0], cells[1], cells[1..];
    assert NodeOk(cells, mem, 1);
    XorCancel(first.at, Next(cells, 1));
    XorZero(Next(cells, 1));
    var mem' := (mem - {first.at})[second.at := Node(Xor(mem[second.at].xored, first.at), second.v)];
    forall i: nat | i < |shorter| ensures NodeOk(shorter, mem', i) {
      assert NodeOk(cells, mem, i + 1);
      assert shorter[i] == cells[i + 1];
    }
    forall a | a in mem' ensures exists i :: 0 <= i < |shorter| && shorter[i].at == a {
      var i :| 0 <= i < |cells| && cells[i].at == a;
      assert shorter[i - 1].at == a;
    }
  }

  // ----- the deque

  /** Memory is a field: the nodes the deque owns, by address.  The address of a new node is the
      allocator's, a parameter of the pushes. */
  class Deque<V> {
    var head: Word
    var tail: Word
    var mem: map<Word, Node<V>>
    ghost var cells: seq<Cell<V>>

    ghost predicate Valid()
      reads this
    {
      head == Head(cells) && tail == Tail(cells) && Linked(cells, mem)
    }

    constructor ()
      ensures Valid() && cells == []
    {
      head, tail, mem, cells := 0, 0, map[], [];
    }

    method PushEmptyCase(v: V, at: Word)
      requires Valid() && cells == [] && at != 0
      modifies this
      ensures Valid() && cells == [Cell(at, v)]
    {
      mem := mem[at := Node(0, v)];
      cells := [Cell(at, v)];
      tail := at;
      head := tail;
      XorZero(0);
      assert cells[0].at == at && NodeOk(cells, mem, 0);
    }

    method PushBack(v: V, at: Word)
      requires Valid() && Fresh(cells, at)
      modifies this
      ensures Valid() && cells == old(cells) + [Cell(at, v)]
    {
      if tail == 0 {
        PushEmptyCase(v, at);
      } else {
        LinkBack(cells, mem, Cell(at, v));
        var tailNode := mem[tail];
        mem := mem[tail := tailNode.(xored := Xor(tailNode.xored, at))][at := Node(tail, v)];
        tail := at;
        cells := cells + [Cell(at, v)];
      }
    }

    method PushFront(v: V, at: Word)
      requires Valid() && Fresh(cells, at)
      modifies this
      ensures Valid() && cells == [Cell(at, v)] + old(cells)
    {
      if tail == 0 {
        PushEmptyCase(v, at);
      } else {
        LinkFront(cells, mem, Cell(at, v));
        var headNode := mem[head];
        mem := mem[head := headNode.(xored := Xor(at, headNode.xored))][at := Node(head, v)];
        head := at;
        cells := [Cell(at, v)] + cells;
      }
    }

    method PopBack() returns (v: V)
      requires Valid() && cells != []
      modifies this
      ensures Valid() && old(cells) == cells + [Cell(old(tail), v)]
    {
      ghost var n := |cells| - 1;
      assert NodeOk(cells, mem, n);
      XorZero(Prev(cells, n));
      var last := tail;
      var lastNode := mem[last];
      var before := lastNode.xored;
      v := lastNode.v;
      if before == 0 {
        mem := mem - {last};
        tail, head := 0, 0;
      } else {
        UnlinkBack(cells, mem);
        mem := mem - {last};
        tail := before;
        mem := mem[before := mem[before].(xored := Xor(mem[before].xored, last))];
      }
      cells := cells[..n];
    }

    method PopFront() returns (v: V)
      requires Valid() && cells != []
      modifies this
      ensures Valid() && old(cells) == [Cell(old(head), v)] + cells
    {
      assert NodeOk(cells, mem, 0);
      XorZero(Next(cells, 0));
      var first := head;
      var firstNode := mem[first];
      var second := firstNode.xored;
      v := firstNode.v;
      if second == 0 {
        mem := mem - {first};
        tail, head := 0, 0;
      } else {
        UnlinkFront(cells, mem);
        mem := mem - {first};
        head := second;
        mem := mem[second := mem[second].(xored := Xor(mem[second].xored, first))];
      }
      cells := cells[1..];
    }
  }

  // ----- any sequence of operations

  datatype Op<V> = PushBack(v: V, at: Word) | PushFront(v: V, at: Word) | PopBack | PopFront

  function Values<V>(cells: seq<Cell<V>>): (s: seq<V>)
    ensures |s| == |cells|
  {
    seq(|cells|, i requires 0 <= i < |cells| => cells[i].v)
  }

  function CellsAfter<V>(cells: seq<Cell<V>>, op: Op<V>): seq<Cell<V>> {
    match op
    case PushBack(v, at) => cells + [Cell(at, v)]
    case PushFront(v, at) => [Cell(at, v)] + cells
    case PopBack => if cells == [] then [] else cells[..|cells| - 1]
    case PopFront => if cells == [] then [] else cells[1..]
  }

  /** Pops find an element, and the allocator gives out addresses that are not in use. */
  predicate Legal<V>(cells: seq<Cell<V>>, ops: seq<Op<V>>)
    decreases |ops|
  {
    ops == [] ||
    (&& (if ops[0].PopBack? || ops[0].PopFront? then cells != [] else Fresh(cells, ops[0].at))
     && Legal(CellsAfter(cells, ops[0]), ops[1..]))
  }

  /** What the operations do to a sequence, and what its pops return. */
  function Final<V>(s: seq<V>, ops: seq<Op<V>>): seq<V>
    decreases |ops|
  {
    if ops == [] then s else
    var s' := match ops[0]
      case PushBack(v, _) => s + [v]
      case PushFront(v, _) => [v] + s
      case PopBack => if s == [] then [] else s[..|s| - 1]
      case PopFront => if s == [] then [] else s[1..];
    Final(s', ops[1..])
  }

  function Returned<V>(s: seq<V>, ops: seq<Op<V>>): seq<V>
    decreases |ops|
  {
    if ops == [] then [] else
    match ops[0]
    case PushBack(v, _) => Returned(s + [v], ops[1..])
    case PushFront(v, _) => Returned([v] + s, ops[1..])
    case PopBack => if s == [] then Returned(s, ops[1..]) else [s[|s| - 1]] + Returned(s[..|s| - 1], ops[1..])
    case PopFront => if s == [] then Returned(s, ops[1..]) else [s[0]] + Returned(s[1..], ops[1..])
  }

  lemma ValuesAfter<V>(cells: seq<Cell<V>>, op: Op<V>)
    ensures op.PushBack? ==> Values(CellsAfter(cells, op)) == Values(cells) + [op.v]
    ensures op.PushFront? ==> Values(CellsAfter(cells, op)) == [op.v] + Values(cells)
    ensures op.PopBack? && cells != [] ==> Values(CellsAfter(cells, op)) == Values(cells)[..|cells| - 1]
    ensures op.PopFront? && cells != [] ==> Values(CellsAfter(cells, op)) == Values(cells)[1..]
  {
  }

  /** What one operation returns. */
  function Out<V>(cells: seq<Cell<V>>, op: Op<V>): seq<V> {
    if cells == [] then [] else
    match op
    case PopBack => [cells[|cells| - 1].v]
    case PopFront => [cells[0].v]
    case _ => []
  }

  lemma OneOperation<V>(cells: seq<Cell<V>>, ops: seq<Op<V>>)
    requires ops != [] && Legal(cells, ops)
    ensures Legal(cells, [ops[0]]) && Legal(CellsAfter(cells, ops[0]), ops[1..])
    ensures Final(Values(cells), ops) == Final(Values(CellsAfter(cells, ops[0])), ops[1..])
    ensures Returned(Values(cells), ops) == Out(cells, ops[0]) + Returned(Values(CellsAfter(cells, ops[0])), ops[1..])
  {
    ValuesAfter(cells, ops[0]);
    assert [ops[0]][1..] == [];
  }

  method Perform<V>(d: Deque<V>, op: Op<V>) returns (out: seq<V>)
    requires d.Valid() && Legal(d.cells, [op])
    modifies d
    ensures d.Valid() && d.cells == CellsAfter(old(d.cells), op) && out == Out(old(d.cells), op)
  {
    out := [];
    match op {
      case PushBack(v, at) => d.PushBack(v, at);
      case PushFront(v, at) => d.PushFront(v, at);
      case PopBack =>
        var v := d.PopBack();
        out := [v];
      case PopFront =>
        var v := d.PopFront();
        out := [v];
    }
  }

  /** Empties the deque from the front. */
  method Drain<V>(d: Deque<V>) returns (left: seq<V>)
    requires d.Valid()
    modifies d
    ensures d.Valid() && d.cells == [] && left == Values(old(d.cells))
  {
    left := [];
    while d.head != 0
      invariant d.Valid() && left + Values(d.cells) == Values(old(d.cells))
      decreases |d.cells|
    {
      ghost var cells := d.cells;
      var v := d.PopFront();
      assert Values(cells) == [v] + Values(d.cells);
      left := left + [v];
    }
  }

  /** The deque after the first `i` operations, and what they returned, lead where all of them do. */
  ghost predicate OnCourse<V>(cells: seq<Cell<V>>, ops: seq<Op<V>>, i: nat, outs: seq<V>) {
    && i <= |ops| && Legal(cells, ops[i..])
    && outs + Returned(Values(cells), ops[i..]) == Returned([], ops)
    && Final(Values(cells), ops[i..]) == Final([], ops)
  }

  lemma OnCourseStep<V>(cells: seq<Cell<V>>, ops: seq<Op<V>>, i: nat, outs: seq<V>)
    requires OnCourse(cells, ops, i, outs) && i < |ops|
    ensures Legal(cells, [ops[i]]) && OnCourse(CellsAfter(cells, ops[i]), ops, i + 1, outs + Out(cells, ops[i]))
  {
    assert ops[i..][1..] == ops[i + 1..];
    OneOperation(cells, ops[i..]);
  }

  /** Any operations on a new deque return what the same operations on a sequence return, and
      leave the same elements in order. */
  method Execute<V>(ops: seq<Op<V>>) returns (outs: seq<V>, left: seq<V>)
    requires Legal([], ops)
    ensures outs == Returned([], ops) && left == Final([], ops)
  {
    var d := new Deque<V>();
    outs := [];
    var i := 0;
    assert ops[0..] == ops;
    while i < |ops|
      invariant d.Valid() && fresh(d) && OnCourse(d.cells, ops, i, outs)
    {
      OnCourseStep(d.cells, ops, i, outs);
      var out := Perform(d, ops[i]);
      outs := outs + out;
      i := i + 1;
    }
    left := Drain(d);
  }
}
