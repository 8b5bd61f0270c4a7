/** The hash table of examples/cuckoo_hash_table/cuckoo.rs used by one caller: the methods with
    their loops, the path that is pushed and popped, and the rows written in place. */
module CuckooSequential {
  import opened Linearizability
  import opened CuckooMatrix
  import opened CuckooThreads
  import opened CuckooInvariant
  import opened CuckooOwn

  datatype Attempt = Free(col: nat) | Unfree(col: nat, key: Key)

  /** Neither home row of `key` has room. */
  predicate HomesFull(m: Matrix, key: Key)
    requires Shaped(m)
  {
    FullBefore(m[Low(key, |m|)], WIDTH) && FullBefore(m[High(key, |m|)], WIDTH)
  }

  ghost predicate AllPresent(m: Matrix, path: seq<Victim>) {
    forall i | 0 <= i < |path| :: KeyAt(m, path[i].place, path[i].key)
  }

  /** The last entry of a nonempty path can move to `free`. */
  ghost predicate Leads(path: seq<Victim>, free: Place, h: nat)
    requires h >= 2
  {
    && Chain(path, h) && InTable(free, h)
    && (path != [] ==> free.row == OtherHome(path[|path| - 1].key, h, path[|path| - 1].place.row))
  }

  /** The cells of a path and the free cell it ends in. */
  function Trail(path: seq<Victim>, free: Place): seq<Place> {
    Places(path) + [free]
  }

  lemma LeadsShorter(path: seq<Victim>, free: Place, h: nat)
    requires h >= 2 && Leads(path, free, h) && path != []
    ensures Leads(path[..|path| - 1], path[|path| - 1].place, h)
    ensures Trail(path, free) == Trail(path[..|path| - 1], path[|path| - 1].place) + [free]
  {
  }

  lemma FrontOfTrail(path: seq<Victim>, free: Place)
    requires path != [] && NoRepeat(Trail(path, free))
    ensures NoRepeat(Trail(path[..|path| - 1], path[|path| - 1].place))
    ensures forall i | 0 <= i < |path| - 1 ::
              path[i].place != path[|path| - 1].place && path[i].place != free
  {
    var n := |path| - 1;
    var tr := Trail(path, free);
    assert forall i | 0 <= i <= n :: tr[i] == path[i].place;
    assert tr[n + 1] == free;
    assert forall i | 0 <= i <= n :: Trail(path[..n], path[n].place)[i] == tr[i];
  }

  function SwungOnce(m: Matrix, v: Victim, to: Place): (m': Matrix)
    requires Shaped(m) && InTable(v.place, |m|) && InTable(to, |m|)
    ensures Shaped(m') && |m'| == |m|
  {
    if KeyAt(m, v.place, v.key) && Peek(m, to).Empty? then Moved(m, v.place, to) else m
  }

  /** The matrix after the whole path has been executed, last entry first. */
  function Executed(m: Matrix, path: seq<Victim>, free: Place): (m': Matrix)
    requires Shaped(m) && InTable(free, |m|) && forall v | v in path :: InTable(v.place, |m|)
    ensures Shaped(m') && |m'| == |m|
    decreases |path|
  {
    if path == [] then m
    else
      var n := |path| - 1;
      Executed(SwungOnce(m, path[n], free), path[..n], path[n].place)
  }

  /** Executing a path never changes the map. */
  lemma {:induction false} ExecutedRepresents(m: Matrix, abs: Map, path: seq<Victim>, free: Place)
    requires Represents(m, abs) && Leads(path, free, |m|)
    ensures forall v | v in path :: InTable(v.place, |m|)
    ensures Represents(Executed(m, path, free), abs)
    decreases |path|
  {
    assert forall i | 0 <= i < |path| :: GoodVictim(path[i], |m|);
    if path != [] {
      var v := path[|path| - 1];
      if KeyAt(m, v.place, v.key) && Peek(m, free).Empty? {
        Swing(m, abs, v.key, v.place, free);
      }
      LeadsShorter(path, free, |m|);
      ExecutedRepresents(SwungOnce(m, v, free), abs, path[..|path| - 1], v.place);
    }
  }

  /** A path the search may return: every entry was seen in a full row, the other row of its
      predecessor, and the last one's other row has its first free cell at `free`. */
  ghost predicate Searchable(m: Matrix, path: seq<Victim>, free: Place)
    requires Shaped(m)
  {
    && Leads(path, free, |m|) && AllPresent(m, path)
    && (forall i | 0 < i < |path| :: FullBefore(m[path[i].place.row], WIDTH))
    && FullBefore(m[free.row], free.col) && m[free.row][free.col].Empty?
  }

  lemma LeadsToRoom(path: seq<Victim>, h: nat, free: Place)
    requires h >= 2 && path != [] && Chain(path, h) && free.col < WIDTH
    requires free.row == OtherHome(path[|path| - 1].key, h, path[|path| - 1].place.row)
    ensures Leads(path, free, h)
  {
  }

  lemma PresentGrows(m: Matrix, path: seq<Victim>, v: Victim)
    requires AllPresent(m, path) && KeyAt(m, v.place, v.key)
    ensures AllPresent(m, path + [v])
  {
  }

  // ----- when every swing of a path succeeds

  /** Every swing finds its entry in place and its target empty. */
  ghost predicate AllSucceed(m: Matrix, path: seq<Victim>, free: Place)
    requires Shaped(m)
    decreases |path|
  {
    path == [] ||
    var n := |path| - 1;
    var v := path[n];
    && InTable(v.place, |m|) && InTable(free, |m|) && KeyAt(m, v.place, v.key) && Peek(m, free).Empty?
    && AllSucceed(Moved(m, v.place, free), path[..n], v.place)
  }

  /** Moving the last entry of a path without repeated cells disturbs none of the others. */
  lemma SwungKeepsRest(m: Matrix, path: seq<Victim>, free: Place)
    requires Shaped(m) && path != [] && Leads(path, free, |m|) && NoRepeat(Trail(path, free))
    requires AllPresent(m, path) && Peek(m, free).Empty?
    ensures GoodVictim(path[|path| - 1], |m|)
    ensures var v := path[|path| - 1];
            var m' := Moved(m, v.place, free);
            AllPresent(m', path[..|path| - 1]) && Peek(m', v.place).Empty?
  {
    var v := path[|path| - 1];
    var m' := Moved(m, v.place, free);
    assert GoodVictim(v, |m|);
    FrontOfTrail(path, free);
    forall i | 0 <= i < |path| - 1 ensures KeyAt(m', path[i].place, path[i].key) {
      assert KeyAt(m, path[i].place, path[i].key) && GoodVictim(path[i], |m|);
    }
  }

  lemma {:induction false} NoRepeatSucceeds(m: Matrix, path: seq<Victim>, free: Place)
    requires Shaped(m) && Leads(path, free, |m|) && AllPresent(m, path) && Peek(m, free).Empty?
    requires NoRepeat(Trail(path, free))
    ensures AllSucceed(m, path, free)
    decreases |path|
  {
    if path != [] {
      var n := |path| - 1;
      LeadsShorter(path, free, |m|);
      FrontOfTrail(path, free);
      SwungKeepsRest(m, path, free);
      NoRepeatSucceeds(Moved(m, path[n].place, free), path[..n], path[n].place);
    }
  }

  /** The entries of the path that name this key. */
  ghost predicate OnlyAt(path: seq<Victim>, k: Key, p: Place) {
    forall i | 0 <= i < |path| && path[i].key == k :: path[i].place == p
  }

  /** No swing brings a key back to where it was found. */
  lemma {:induction false} KeyGone(m: Matrix, path: seq<Victim>, free: Place, k: Key, p: Place)
    requires Shaped(m) && AllSucceed(m, path, free) && !KeyAt(m, p, k) && OnlyAt(path, k, p)
    ensures forall i | 0 <= i < |path| :: path[i].key != k
    decreases |path|
  {
    if path != [] {
      var n := |path| - 1;
      assert path[n].key != k;
      KeyGone(Moved(m, path[n].place, free), path[..n], path[n].place, k, p);
      assert forall i | 0 <= i < n :: path[..n][i] == path[i];
    }
  }

  /** A key that occurs twice on the path is named at the same cell both times. */
  ghost predicate OnePlaceEach(path: seq<Victim>) {
    forall i | 0 <= i < |path| :: OnlyAt(path, path[i].key, path[i].place)
  }

  ghost predicate DistinctKeys(path: seq<Victim>) {
    forall i, j | 0 <= i < j < |path| :: path[i].key != path[j].key
  }

  /** A second swing of the same key would not find it. */
  lemma {:induction false} SucceedDistinct(m: Matrix, path: seq<Victim>, free: Place)
    requires Shaped(m) && AllSucceed(m, path, free) && OnePlaceEach(path)
    ensures DistinctKeys(path)
    decreases |path|
  {
    if path != [] {
      var n := |path| - 1;
      var m' := Moved(m, path[n].place, free);
      assert OnlyAt(path, path[n].key, path[n].place);
      assert !KeyAt(m', path[n].place, path[n].key);
      KeyGone(m', path[..n], path[n].place, path[n].key, path[n].place);
      forall i | 0 <= i < n ensures OnlyAt(path[..n], path[i].key, path[i].place) {
        assert OnlyAt(path, path[i].key, path[i].place);
      }
      SucceedDistinct(m', path[..n], path[n].place);
      assert forall i | 0 <= i < n :: path[..n][i] == path[i];
    }
  }

  lemma DistinctTrail(m: Matrix, path: seq<Victim>, free: Place)
    requires AllPresent(m, path) && DistinctKeys(path) && Peek(m, free).Empty?
    ensures NoRepeat(Trail(path, free))
  {
    forall i, j | 0 <= i < j < |path| + 1 ensures Trail(path, free)[i] != Trail(path, free)[j] {
      assert KeyAt(m, path[i].place, path[i].key);
      assert j < |path| ==> KeyAt(m, path[j].place, path[j].key);
    }
  }

  /** If nobody deletes meanwhile, every swing of a path succeeds if and only if the path goes
      through no cell twice. */
  lemma SwingsSucceedIff(m: Matrix, abs: Map, path: seq<Victim>, free: Place)
    requires Represents(m, abs) && Leads(path, free, |m|) && AllPresent(m, path) && Peek(m, free).Empty?
    ensures AllSucceed(m, path, free) <==> NoRepeat(Trail(path, free))
  {
    if NoRepeat(Trail(path, free)) {
      NoRepeatSucceeds(m, path, free);
    } else if AllSucceed(m, path, free) {
      forall i, j | 0 <= i < |path| && 0 <= j < |path| && path[i].key == path[j].key
        ensures path[i].place == path[j].place
      {
        assert Holds(m, path[i].place.row, path[i].place.col, path[i].key);
        assert Holds(m, path[j].place.row, path[j].place.col, path[j].key);
      }
      SucceedDistinct(m, path, free);
      DistinctTrail(m, path, free);
    }
  }

  /** One swing of `ExecutePath`. */
  lemma OneSwing(m: Matrix, path: seq<Victim>, free: Place)
    requires Shaped(m) && Leads(path, free, |m|) && path != []
    ensures (forall v | v in path :: InTable(v.place, |m|)) && GoodVictim(path[|path| - 1], |m|)
    ensures free.row == OtherHome(path[|path| - 1].key, |m|, path[|path| - 1].place.row)
    ensures var v, rest := path[|path| - 1], path[..|path| - 1];
            var m' := SwungOnce(m, v, free);
            && Leads(rest, v.place, |m'|) && (forall u | u in rest :: InTable(u.place, |m'|))
            && Executed(m, path, free) == Executed(m', rest, v.place)
            && (AllSucceed(m, path, free) <==>
                  KeyAt(m, v.place, v.key) && Peek(m, free).Empty? && AllSucceed(m', rest, v.place))
            && (KeyAt(m, v.place, v.key) && Peek(m, free).Empty? ==> Peek(m', v.place).Empty?)
  {
    LeadsShorter(path, free, |m|);
    forall v | v in path ensures InTable(v.place, |m|) {
      var i :| 0 <= i < |path| && path[i] == v;
      assert GoodVictim(path[i], |m|);
    }
  }

  lemma {:induction false} SuccessEmptiesFirst(m: Matrix, path: seq<Victim>, free: Place)
    requires Shaped(m) && Leads(path, free, |m|) && path != [] && AllSucceed(m, path, free)
    ensures forall v | v in path :: InTable(v.place, |m|)
    ensures Peek(Executed(m, path, free), path[0].place).Empty?
    decreases |path|
  {
    OneSwing(m, path, free);
    var n := |path| - 1;
    if n > 0 {
      SuccessEmptiesFirst(SwungOnce(m, path[n], free), path[..n], path[n].place);
    }
  }

  lemma HomeCellFull(m: Matrix, key: Key, p: Place)
    requires Shaped(m) && HomesFull(m, key) && Home(key, |m|, p.row) && p.col < WIDTH
    ensures Peek(m, p).Full?
  {
    assert p.row == Low(key, |m|) || p.row == High(key, |m|);
  }

  class Table {
    var cells: Matrix
    ghost var abs: Map

    ghost predicate Valid()
      reads this
    {
      Represents(cells, abs)
    }

    constructor (height: nat)
      requires height >= 2
      ensures Valid() && abs == map[] && |cells| == height
    {
      cells := seq(height, r => seq(WIDTH, c => Empty));
      abs := map[];
    }

    /** The column that holds the key in a row, or `WIDTH`. */
    method Seek(key: Key, row: nat) returns (i: nat)
      requires Valid() && row < |cells|
      ensures i <= WIDTH && NotBefore(cells[row], key, i)
      ensures i < WIDTH ==> Holds(cells, row, i, key)
    {
      i := 0;
      while i < WIDTH
        invariant 0 <= i <= WIDTH && NotBefore(cells[row], key, i)
      {
        var entry := cells[row][i];
        if entry.Full? && entry.key == key {
          return;
        }
        i := i + 1;
      }
    }

    /** The first empty column of a row, or `WIDTH`. */
    method SeekRoom(row: nat) returns (i: nat)
      requires Valid() && row < |cells|
      ensures i <= WIDTH && FullBefore(cells[row], i)
      ensures i < WIDTH ==> cells[row][i].Empty?
    {
      i := 0;
      while i < WIDTH
        invariant 0 <= i <= WIDTH && FullBefore(cells[row], i)
      {
        if cells[row][i].Empty? {
          return;
        }
        i := i + 1;
      }
    }

    method Write(row: nat, col: nat, x: Cell)
      requires row < |cells| && col < |cells[row]|
      modifies `cells
      ensures cells == SetCell(old(cells), row, col, x)
    {
      var entry := cells[row];
      entry := entry[col := x];
      cells := cells[row := entry];
    }

    method Read(key: Key) returns (value: Option<Value>)
      requires Valid()
      ensures value == if key in abs then Some(abs[key]) else None
    {
      var lo, hi := Low(key, |cells|), High(key, |cells|);
      var i := Seek(key, lo);
      if i < WIDTH {
        return Some(cells[lo][i].value);
      }
      i := Seek(key, hi);
      if i < WIDTH {
        return Some(cells[hi][i].value);
      }
      QueryNone(cells, abs, key);
      return None;
    }

    method Delete(key: Key)
      requires Valid()
      modifies this
      ensures Valid() && abs == old(abs) - {key} && |cells| == |old(cells)|
    {
      var lo, hi := Low(key, |cells|), High(key, |cells|);
      var row := lo;
      var i := Seek(key, lo);
      if i == WIDTH {
        row := hi;
        i := Seek(key, hi);
      }
      if i < WIDTH {
        DeleteKey(cells, abs, key, row, i);
        abs := abs - {key};
        Write(row, i, Empty);
      } else {
        QueryNone(cells, abs, key);
      }
    }

    /** The part of `insert` that is done before and again after the cuckoo procedure. */
    method UpdateOrPlace(key: Key, value: Value) returns (done: bool)
      requires Valid()
      modifies this
      ensures Valid() && |cells| == |old(cells)|
      ensures done ==> abs == old(abs)[key := value]
      ensures done <==> key in old(abs) || !HomesFull(old(cells), key)
      ensures !done ==> cells == old(cells) && abs == old(abs)
    {
      var lo, hi := Low(key, |cells|), High(key, |cells|);
      var row := lo;
      var i := Seek(key, lo);
      if i == WIDTH {
        row := hi;
        i := Seek(key, hi);
      }
      if i < WIDTH {
        UpdateKey(cells, abs, key, value, row, i);
      } else {
        QueryNone(cells, abs, key);
        row := lo;
        i := SeekRoom(lo);
        if i == WIDTH {
          row := hi;
          i := SeekRoom(hi);
        }
        if i == WIDTH {
          return false;
        }
        InsertKey(cells, abs, key, value, row, i);
      }
      abs := abs[key := value];
      Write(row, i, Full(key, value));
      return true;
    }

    method FindFreeSpace(row: nat) returns (a: Attempt)
      requires Valid() && row < |cells|
      ensures match a
              case Free(c) => c < WIDTH && FullBefore(cells[row], c) && cells[row][c].Empty?
              case Unfree(c, k) =>
                c < WIDTH && FullBefore(cells[row], WIDTH) && Holds(cells, row, c, k) && Home(k, |cells|, row)
    {
      var i := SeekRoom(row);
      if i < WIDTH {
        return Free(i);
      }
      var c: nat :| c < WIDTH;
      assert Holds(cells, row, c, cells[row][c].key);
      return Unfree(c, cells[row][c].key);
    }

    /** Follows evicted entries from row to row until one has room in its other row.  Gives up
        after looking at one more row than the table has. */
    method FindPath(key: Key, first: Place) returns (path: seq<Victim>, free: Option<Place>)
      requires Valid() && InTable(first, |cells|) && Home(key, |cells|, first.row)
      requires FullBefore(cells[first.row], WIDTH)
      ensures path != [] && path[0].place == first && Chain(path, |cells|) && AllPresent(cells, path)
      ensures free.Some? ==> Searchable(cells, path, free.value)
      ensures free.None? ==> |path| == |cells| + 2
    {
      var k := cells[first.row][first.col].key;
      assert Holds(cells, first.row, first.col, k);
      path, free := [Victim(first, k)], None;
      var budget := |cells| + 1;
      while budget > 0
        invariant path != [] && path[0].place == first && Chain(path, |cells|) && AllPresent(cells, path)
        invariant forall i | 0 < i < |path| :: FullBefore(cells[path[i].place.row], WIDTH)
        invariant free.None? && budget >= 0 && |path| + budget == |cells| + 2
      {
        var cur := path[|path| - 1];
        assert GoodVictim(cur, |cells|);
        var other := OtherHome(cur.key, |cells|, cur.place.row);
        var a := FindFreeSpace(other);
        if a.Free? {
          LeadsToRoom(path, |cells|, Place(other, a.col));
          free := Some(Place(other, a.col));
          return;
        }
        var next := Victim(Place(other, a.col), a.key);
        ChainGrows(path, next, |cells|);
        PresentGrows(cells, path, next);
        path := path + [next];
        budget := budget - 1;
      }
    }

    /** Moves the entry if it is still there and the other cell is empty. */
    method DoSwing(v: Victim, to: Place) returns (ghost moved: bool)
      requires Valid() && GoodVictim(v, |cells|) && InTable(to, |cells|)
      requires to.row == OtherHome(v.key, |cells|, v.place.row)
      modifies `cells
      ensures Valid() && |cells| == |old(cells)|
      ensures moved == (KeyAt(old(cells), v.place, v.key) && Peek(old(cells), to).Empty?)
      ensures cells == if moved then Moved(old(cells), v.place, to) else old(cells)
    {
      var entry1 := cells[v.place.row];
      var entry2 := cells[to.row];
      moved := entry1[v.place.col].Full? && entry1[v.place.col].key == v.key && entry2[to.col].Empty?;
      if entry1[v.place.col].Full? && entry1[v.place.col].key == v.key && entry2[to.col].Empty? {
        Swing(cells, abs, v.key, v.place, to);
        entry2 := entry2[to.col := entry1[v.place.col]];
        entry1 := entry1[v.place.col := Empty];
        cells := cells[v.place.row := entry1];
        cells := cells[to.row := entry2];
      }
    }

    /** Executes a path from its free end.  The map never changes; every swing succeeds if and only
        if no cell occurs twice, and then the first cell of the path ends up empty. */
    method ExecutePath(path0: seq<Victim>, free0: Place) returns (ghost failures: nat)
      requires Valid() && Leads(path0, free0, |cells|) && path0 != []
      requires AllPresent(cells, path0) && Peek(cells, free0).Empty?
      modifies `cells
      ensures Valid() && |cells| == |old(cells)|
      ensures cells == Executed(old(cells), path0, free0)
      ensures failures == 0 <==> NoRepeat(Trail(path0, free0))
      ensures failures == 0 ==> Peek(cells, path0[0].place).Empty?
    {
      var path, free := path0, free0;
      failures := 0;
      SwingsSucceedIff(cells, abs, path0, free0);
      if AllSucceed(cells, path0, free0) {
        SuccessEmptiesFirst(cells, path0, free0);
      }
      while |path| > 0
        invariant Valid() && |cells| == |old(cells)| && Leads(path, free, |cells|)
        invariant Executed(cells, path, free) == Executed(old(cells), path0, free0)
        invariant failures == 0 && AllSucceed(cells, path, free) <==> AllSucceed(old(cells), path0, free0)
        decreases |path|
      {
        var place := path[|path| - 1];
        OneSwing(cells, path, free);
        ghost var moved := DoSwing(place, free);
        if !moved {
          failures := failures + 1;
        }
        free := place.place;
        path := path[..|path| - 1];
      }
    }

    /** Inserts or overwrites; `false` means the table is unchanged as a map.  `path` is empty if
        the first attempt succeeds, and `free` absent if the search gives up.  A path that was
        executed makes the insert fail exactly if it has left both home rows full, which takes a
        path through some cell twice. */
    method Insert(key: Key, value: Value) returns (success: bool, ghost path: seq<Victim>, ghost free: Option<Place>)
      requires Valid()
      modifies this
      ensures Valid() && |cells| == |old(cells)|
      ensures abs == if success then old(abs)[key := value] else old(abs)
      ensures path == [] <==> key in old(abs) || !HomesFull(old(cells), key)
      ensures path == [] ==> success
      ensures path != [] && free.None? ==> !success && cells == old(cells) && |path| == |cells| + 2
      ensures path != [] ==>
                Home(key, |cells|, path[0].place.row) && Chain(path, |cells|) && AllPresent(old(cells), path)
      ensures path != [] && free.Some? ==>
                && Searchable(old(cells), path, free.value)
                && (forall v | v in path :: InTable(v.place, |cells|))
                && (success <==> !HomesFull(Executed(old(cells), path, free.value), key))
                && (!success ==> cells == Executed(old(cells), path, free.value) && !NoRepeat(Trail(path, free.value)))
    {
      path, free := [], None;
      success := UpdateOrPlace(key, value);
      if success {
        return;
      }
      var hash: bool, col: nat :| col < WIDTH;
      var first := Place(if hash then Hash1(key, |cells|) else Hash2(key, |cells|), col);
      assert Home(key, |cells|, first.row);
      var victims, room := FindPath(key, first);
      path, free := victims, room;
      if room.None? {
        return;
      }
      ghost var before := cells;
      assert forall i | 0 <= i < |path| :: GoodVictim(path[i], |cells|);
      ghost var failures := ExecutePath(victims, room.value);
      assert cells == Executed(before, path, room.value);
      success := UpdateOrPlace(key, value);
      if !success {
        HomeCellFull(cells, key, first);
      }
    }
  }

  // ----- a path that visits a cell twice

  /** The number of rows of examples/cuckoo_hash_table/cuckoo.rs. */
  const HEIGHT: nat := 1048576

  /** The key whose insert is to fail. */
  const NEWCOMER: Key := 5131072438275

  /** Three full rows; every other row of the table is empty. */
  function RepeatRow(r: nat): Row {
    match r
    case 0 => [Full(0, 0), Full(1099514773504, 0), Full(2199029547008, 0), Full(3298544320512, 0)]
    case 1 => [Full(2097153, 0), Full(733010198529, 0), Full(1099516870657, 0), Full(2199031644161, 0)]
    case 3 => [Full(733013344259, 0), Full(1832528117763, 0), Full(2932042891267, 0), Full(4031557664771, 0)]
    case _ => [Empty, Empty, Empty, Empty]
  }

  function RepeatTable(): (m: Matrix)
    ensures Shaped(m) && |m| == HEIGHT
  {
    seq(HEIGHT, r requires 0 <= r < HEIGHT => RepeatRow(r))
  }

  function Whereabouts(): map<Key, Place> {
    map[0 := Place(0, 0), 1099514773504 := Place(0, 1), 2199029547008 := Place(0, 2), 3298544320512 := Place(0, 3),
        2097153 := Place(1, 0), 733010198529 := Place(1, 1), 1099516870657 := Place(1, 2), 2199031644161 := Place(1, 3),
        733013344259 := Place(3, 0), 1832528117763 := Place(3, 1), 2932042891267 := Place(3, 2),
        4031557664771 := Place(3, 3)]
  }

  function RepeatMap(): Map {
    map k | k in Whereabouts() :: 0
  }

  /** The entry at row 0, column 0 is evicted twice. */
  function RepeatPath(): seq<Victim> {
    [Victim(Place(0, 0), 0), Victim(Place(1, 0), 2097153), Victim(Place(0, 0), 0),
     Victim(Place(1, 1), 733010198529)]
  }

  lemma RepeatCell(r: nat, c: nat, k: Key)
    requires Holds(RepeatTable(), r, c, k)
    ensures k in Whereabouts() && Whereabouts()[k] == Place(r, c) && RepeatTable()[r][c].value == 0
    ensures Home(k, HEIGHT, r)
  {
  }

  lemma RepeatTableIsValid()
    ensures Represents(RepeatTable(), RepeatMap())
  {
    forall r: nat, c: nat, k: Key | Holds(RepeatTable(), r, c, k)
      ensures k in Whereabouts() && Whereabouts()[k] == Place(r, c) && RepeatTable()[r][c].value == 0
              && Home(k, HEIGHT, r)
    {
      RepeatCell(r, c, k);
    }
    forall k: Key | k in RepeatMap() ensures Stored(RepeatTable(), k) {
      assert Holds(RepeatTable(), Whereabouts()[k].row, Whereabouts()[k].col, k);
    }
  }

  lemma RepeatHomes()
    ensures Home(0, HEIGHT, 0) && OtherHome(0, HEIGHT, 0) == 1
    ensures Home(2097153, HEIGHT, 1) && OtherHome(2097153, HEIGHT, 1) == 0
    ensures Home(733010198529, HEIGHT, 1) && OtherHome(733010198529, HEIGHT, 1) == 2
  {
  }

  lemma RepeatPathLeads()
    ensures Leads(RepeatPath(), Place(2, 0), HEIGHT) && AllPresent(RepeatTable(), RepeatPath())
  {
    RepeatHomes();
  }

  lemma RepeatPathIsSearchable()
    ensures Searchable(RepeatTable(), RepeatPath(), Place(2, 0))
  {
    RepeatPathLeads();
    assert FullBefore(RepeatTable()[0], WIDTH) && FullBefore(RepeatTable()[1], WIDTH);
    forall i | 0 < i < |RepeatPath()| ensures FullBefore(RepeatTable()[RepeatPath()[i].place.row], WIDTH) {
      assert RepeatPath()[i].place.row == 0 || RepeatPath()[i].place.row == 1;
    }
  }

  lemma ExecutedTwice(m: Matrix, v: Victim, w: Victim, path: seq<Victim>, free: Place)
    requires Shaped(m) && InTable(free, |m|) && InTable(v.place, |m|) && InTable(w.place, |m|)
    requires forall u | u in path :: InTable(u.place, |m|)
    ensures Executed(m, path + [w, v], free) == Executed(SwungOnce(SwungOnce(m, v, free), w, v.place), path, w.place)
  {
    assert (path + [w, v])[..|path| + 1] == path + [w];
    assert (path + [w])[..|path|] == path;
  }

  /** On a path that visits a cell twice the procedure can make no room at all, although it is one
      the search may return: a swing fails, and both home rows of the new key stay full. */
  lemma RepeatedCellCanLeaveNoRoom()
    ensures Represents(RepeatTable(), RepeatMap()) && Searchable(RepeatTable(), RepeatPath(), Place(2, 0))
    ensures Home(NEWCOMER, HEIGHT, RepeatPath()[0].place.row) && NEWCOMER !in RepeatMap()
            && HomesFull(RepeatTable(), NEWCOMER)
    ensures HomesFull(Executed(RepeatTable(), RepeatPath(), Place(2, 0)), NEWCOMER)
  {
    RepeatTableIsValid();
    RepeatPathIsSearchable();
    var p := RepeatPath();
    ExecutedTwice(RepeatTable(), p[3], p[2], p[..2], Place(2, 0));
    assert p == p[..2] + [p[2], p[3]] && p[..2] == [] + [p[0], p[1]];
    var m2 := SwungOnce(SwungOnce(RepeatTable(), p[3], Place(2, 0)), p[2], p[3].place);
    assert m2[0] == [Empty, Full(1099514773504, 0), Full(2199029547008, 0), Full(3298544320512, 0)];
    assert m2[1] == [Full(2097153, 0), Full(0, 0), Full(1099516870657, 0), Full(2199031644161, 0)];
    assert m2[3] == RepeatTable()[3];
    ExecutedTwice(m2, p[1], p[0], [], p[2].place);
    var m3 := SwungOnce(m2, p[1], p[2].place);
    assert m3[0] == [Full(2097153, 0), Full(1099514773504, 0), Full(2199029547008, 0), Full(3298544320512, 0)]
           && m3[3] == m2[3];
    assert SwungOnce(m3, p[0], p[1].place) == m3;
  }
}
