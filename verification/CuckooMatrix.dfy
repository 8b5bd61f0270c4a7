/** The matrix of examples/cuckoo_hash_table/cuckoo.rs: every key has two home rows, rows are
    `WIDTH` wide, and the matrix stands for one map.  The number of rows is arbitrary. */
module CuckooMatrix {

  const WIDTH: nat := 4

  type Key = k: int | 0 <= k < 0x1_0000_0000_0000_0000
  type Value = v: int | 0 <= v < 0x1_0000_0000_0000_0000

  datatype Cell = Empty | Full(key: Key, value: Value)
  type Row = seq<Cell>
  type Matrix = seq<Row>
  type Map = map<Key, Value>

  datatype Place = Place(row: nat, col: nat)

  function Hash1(key: Key, height: nat): (r: nat)
    requires height >= 2
    ensures r < height
  {
    key % height
  }

  /** The second home row never coincides with the first. */
  function Hash2(key: Key, height: nat): (r: nat)
    requires height >= 2
    ensures r < height && r != Hash1(key, height)
  {
    var j := (key % 1048579) % (height - 1);
    OffsetDiffers(Hash1(key, height), j + 1, height);
    (Hash1(key, height) + j + 1) % height
  }

  lemma OffsetDiffers(a: nat, d: nat, height: nat)
    requires a < height && 0 < d < height
    ensures 0 <= (a + d) % height < height && (a + d) % height != a
  {
  }

  predicate Home(key: Key, height: nat, row: nat)
    requires height >= 2
  {
    row == Hash1(key, height) || row == Hash2(key, height)
  }

  function OtherHome(key: Key, height: nat, row: nat): (r: nat)
    requires height >= 2
    ensures r < height && Home(key, height, r)
    ensures Home(key, height, row) ==> r != row
  {
    if Hash1(key, height) == row then Hash2(key, height) else Hash1(key, height)
  }

  function Low(key: Key, height: nat): (r: nat)
    requires height >= 2
    ensures r < height && Home(key, height, r)
  {
    if Hash1(key, height) < Hash2(key, height) then Hash1(key, height) else Hash2(key, height)
  }

  function High(key: Key, height: nat): (r: nat)
    requires height >= 2
    ensures Low(key, height) < r < height && Home(key, height, r)
    ensures forall row: nat :: Home(key, height, row) ==> row == Low(key, height) || row == r
  {
    OtherHome(key, height, Low(key, height))
  }

  // ----- the matrix and the map it stands for

  predicate Shaped(m: Matrix) {
    |m| >= 2 && forall r | 0 <= r < |m| :: |m[r]| == WIDTH
  }

  predicate Holds(m: Matrix, r: nat, c: nat, k: Key) {
    r < |m| && c < |m[r]| && m[r][c].Full? && m[r][c].key == k
  }

  ghost predicate Unique(m: Matrix) {
    forall r1: nat, c1: nat, r2: nat, c2: nat, k: Key ::
      Holds(m, r1, c1, k) && Holds(m, r2, c2, k) ==> r1 == r2 && c1 == c2
  }

  ghost predicate Sound(m: Matrix, abs: Map)
    requires |m| >= 2
  {
    forall r: nat, c: nat, k: Key :: Holds(m, r, c, k) ==>
      Home(k, |m|, r) && k in abs && abs[k] == m[r][c].value
  }

  ghost predicate Stored(m: Matrix, k: Key) {
    exists r: nat, c: nat :: Holds(m, r, c, k)
  }

  ghost predicate Complete(m: Matrix, abs: Map) {
    forall k: Key :: k in abs ==> Stored(m, k)
  }

  /** The matrix stands for exactly this map: no key twice, each key in one of its home rows,
      every stored pair in the map and every key of the map stored. */
  ghost predicate Represents(m: Matrix, abs: Map) {
    Shaped(m) && Unique(m) && Sound(m, abs) && Complete(m, abs)
  }

  /** A matrix stands for at most one map. */
  lemma RepresentsOneMap(m: Matrix, a: Map, b: Map)
    requires Represents(m, a) && Represents(m, b)
    ensures a == b
  {
  }

  predicate NotInRow(row: Row, k: Key) {
    NotBefore(row, k, |row|)
  }

  predicate NotBefore(row: Row, k: Key, n: nat)
    requires n <= |row|
  {
    forall i | 0 <= i < n :: row[i].Full? ==> row[i].key != k
  }

  predicate FullBefore(row: Row, n: nat)
    requires n <= |row|
  {
    forall i | 0 <= i < n :: row[i].Full?
  }

  lemma QueryNone(m: Matrix, abs: Map, k: Key)
    requires Represents(m, abs)
    requires NotInRow(m[Low(k, |m|)], k) && NotInRow(m[High(k, |m|)], k)
    ensures k !in abs
  {
  }

  function SetCell(m: Matrix, r: nat, c: nat, x: Cell): (m': Matrix)
    requires r < |m| && c < |m[r]|
    ensures |m'| == |m| && (Shaped(m) ==> Shaped(m'))
  {
    m[r := m[r][c := x]]
  }

  lemma HoldsAfterSet(m: Matrix, r: nat, c: nat, x: Cell)
    requires r < |m| && c < |m[r]|
    ensures forall r1: nat, c1: nat, k: Key :: Holds(SetCell(m, r, c, x), r1, c1, k) <==>
              if r1 == r && c1 == c then x.Full? && x.key == k else Holds(m, r1, c1, k)
  {
  }

  lemma DeleteKey(m: Matrix, abs: Map, k: Key, r: nat, c: nat)
    requires Represents(m, abs) && Holds(m, r, c, k)
    ensures Represents(SetCell(m, r, c, Empty), abs - {k})
  {
    var m' := SetCell(m, r, c, Empty);
    HoldsAfterSet(m, r, c, Empty);
    forall k1: Key | k1 in abs - {k} ensures Stored(m', k1) {
      assert Stored(m, k1);
      var r1: nat, c1: nat :| Holds(m, r1, c1, k1);
      assert Holds(m', r1, c1, k1);
    }
  }

  lemma UpdateKey(m: Matrix, abs: Map, k: Key, v: Value, r: nat, c: nat)
    requires Represents(m, abs) && Holds(m, r, c, k)
    ensures Represents(SetCell(m, r, c, Full(k, v)), abs[k := v])
  {
    var m' := SetCell(m, r, c, Full(k, v));
    HoldsAfterSet(m, r, c, Full(k, v));
    forall k1: Key | k1 in abs[k := v] ensures Stored(m', k1) {
      if k1 == k {
        assert Holds(m', r, c, k);
      } else {
        assert Stored(m, k1);
        var r1: nat, c1: nat :| Holds(m, r1, c1, k1);
        assert Holds(m', r1, c1, k1);
      }
    }
  }

  lemma InsertKey(m: Matrix, abs: Map, k: Key, v: Value, r: nat, c: nat)
    requires Represents(m, abs) && r < |m| && c < WIDTH && m[r][c] == Empty && Home(k, |m|, r)
    requires NotInRow(m[Low(k, |m|)], k) && NotInRow(m[High(k, |m|)], k)
    ensures Represents(SetCell(m, r, c, Full(k, v)), abs[k := v])
  {
    var m' := SetCell(m, r, c, Full(k, v));
    QueryNone(m, abs, k);
    HoldsAfterSet(m, r, c, Full(k, v));
    forall k1: Key | k1 in abs[k := v] ensures Stored(m', k1) {
      if k1 == k {
        assert Holds(m', r, c, k);
      } else {
        assert Stored(m, k1);
        var r1: nat, c1: nat :| Holds(m, r1, c1, k1);
        assert Holds(m', r1, c1, k1);
      }
    }
  }

  function Moved(m: Matrix, from: Place, to: Place): (m': Matrix)
    requires Shaped(m) && from.row < |m| && to.row < |m| && from.col < WIDTH && to.col < WIDTH
    ensures Shaped(m') && |m'| == |m|
  {
    SetCell(SetCell(m, from.row, from.col, Empty), to.row, to.col, m[from.row][from.col])
  }

  /** Moving an entry between its two home rows does not change the map. */
  lemma Swing(m: Matrix, abs: Map, k: Key, from: Place, to: Place)
    requires Represents(m, abs) && Holds(m, from.row, from.col, k)
    requires to.row < |m| && to.col < WIDTH && m[to.row][to.col] == Empty && Home(k, |m|, to.row)
    ensures Represents(Moved(m, from, to), abs)
  {
    var x := m[from.row][from.col];
    var m1 := SetCell(m, from.row, from.col, Empty);
    var m' := Moved(m, from, to);
    HoldsAfterSet(m, from.row, from.col, Empty);
    HoldsAfterSet(m1, to.row, to.col, x);
    forall k1: Key | k1 in abs ensures Stored(m', k1) {
      if k1 == k {
        assert Holds(m', to.row, to.col, k);
      } else {
        assert Stored(m, k1);
        var r1: nat, c1: nat :| Holds(m, r1, c1, k1);
        assert Holds(m', r1, c1, k1);
      }
    }
  }
}
