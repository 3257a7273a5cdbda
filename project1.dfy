// Reference solution of the 2048 project: merging one row towards its start.
module Project1 {

  /** The positive entries of a row, in order; merge ignores every other cell. */
  function Tiles(line: seq<int>): (r: seq<int>)
    ensures |r| <= |line|
    ensures forall i :: 0 <= i < |r| ==> r[i] > 0
  {
    if line == [] then []
    else if line[0] > 0 then [line[0]] + Tiles(line[1..])
    else Tiles(line[1..])
  }

  /**
   * Reference merge of a row of tiles: going from the start, two equal
   * neighbours become one tile of twice the value, and the new tile takes
   * no further part in merging.
   */
  function MergeTiles(t: seq<int>): seq<int>
  {
    if |t| < 2 then t
    else if t[0] == t[1] then [2 * t[0]] + MergeTiles(t[2..])
    else [t[0]] + MergeTiles(t[1..])
  }

  /** Whether the last cell of MergeTiles(t) is a single tile that may still merge. */
  predicate Open(t: seq<int>)
  {
    if |t| == 0 then false
    else if |t| == 1 then true
    else if t[0] == t[1] then Open(t[2..])
    else Open(t[1..])
  }

  function Zeros(n: nat): (r: seq<int>)
    ensures |r| == n && forall i :: 0 <= i < n ==> r[i] == 0
  {
    if n == 0 then [] else Zeros(n - 1) + [0]
  }

  function Sum(s: seq<int>): int
  {
    if s == [] then 0 else s[0] + Sum(s[1..])
  }

  lemma {:induction false} SumAppend(a: seq<int>, b: seq<int>)
    ensures Sum(a + b) == Sum(a) + Sum(b)
  {
    if a != [] {
      assert (a + b)[1..] == a[1..] + b;
      SumAppend(a[1..], b);
    } else {
      assert a + b == b;
    }
  }

  lemma {:induction false} OpenNonEmpty(t: seq<int>)
    ensures Open(t) ==> MergeTiles(t) != []
  {
    if |t| >= 2 {
      if t[0] == t[1] { OpenNonEmpty(t[2..]); } else { OpenNonEmpty(t[1..]); }
    }
  }

  /** Merging one more tile onto the end of a row: the step the loop of merge takes. */
  lemma {:induction false} MergeTilesSnoc(t: seq<int>, x: int)
    ensures Open(t) ==> MergeTiles(t) != []
    ensures var m := MergeTiles(t);
      var joins := Open(t) && m[|m| - 1] == x;
      MergeTiles(t + [x]) == (if joins then m[..|m| - 1] + [2 * x] else m + [x])
      && Open(t + [x]) == !joins
    decreases |t|, 1
  {
    OpenNonEmpty(t);
    if |t| == 0 {
      assert t + [x] == [x];
    } else if |t| == 1 {
      assert t + [x] == [t[0], x];
      assert (t + [x])[2..] == [];
      assert (t + [x])[1..] == [x];
    } else if t[0] == t[1] {
      MergeTilesSnocPair(t, x);
    } else {
      MergeTilesSnocSingle(t, x);
    }
  }

  /** The step when the row starts with a pair that merges. */
  lemma {:induction false} MergeTilesSnocPair(t: seq<int>, x: int)
    requires |t| >= 2 && t[0] == t[1]
    ensures var m := MergeTiles(t);
      var joins := Open(t) && m[|m| - 1] == x;
      m != [] && MergeTiles(t + [x]) == (if joins then m[..|m| - 1] + [2 * x] else m + [x])
      && Open(t + [x]) == !joins
    decreases |t|, 0
  {
    var tx := t + [x];
    assert tx[0] == t[0] && tx[1] == t[1];
    assert tx[2..] == t[2..] + [x];
    MergeTilesSnoc(t[2..], x);
    OpenNonEmpty(t[2..]);
    var m := MergeTiles(t[2..]);
    assert MergeTiles(t) == [2 * t[0]] + m;
    assert MergeTiles(tx) == [2 * t[0]] + MergeTiles(t[2..] + [x]);
    if Open(t[2..]) && m[|m| - 1] == x {
      assert ([2 * t[0]] + m)[..|m|] == [2 * t[0]] + m[..|m| - 1];
    }
  }

  /** The step when the row's first tile stays on its own. */
  lemma {:induction false} MergeTilesSnocSingle(t: seq<int>, x: int)
    requires |t| >= 2 && t[0] != t[1]
    ensures var m := MergeTiles(t);
      var joins := Open(t) && m[|m| - 1] == x;
      m != [] && MergeTiles(t + [x]) == (if joins then m[..|m| - 1] + [2 * x] else m + [x])
      && Open(t + [x]) == !joins
    decreases |t|, 0
  {
    var tx := t + [x];
    assert tx[0] == t[0] && tx[1] == t[1];
    assert tx[1..] == t[1..] + [x];
    MergeTilesSnoc(t[1..], x);
    OpenNonEmpty(t[1..]);
    var m := MergeTiles(t[1..]);
    assert MergeTiles(t) == [t[0]] + m;
    assert MergeTiles(tx) == [t[0]] + MergeTiles(t[1..] + [x]);
    if Open(t[1..]) && m[|m| - 1] == x {
      assert ([t[0]] + m)[..|m|] == [t[0]] + m[..|m| - 1];
    }
  }

  /** What merge returns: the merged tiles moved to the start, zeros after them. */
  function MergeSpec(line: seq<int>): seq<int>
  {
    var m := MergeTiles(Tiles(line));
    MergeTilesLength(Tiles(line));
    m + Zeros(|line| - |m|)
  }

  lemma {:induction false} TilesSnoc(line: seq<int>, x: int)
    ensures Tiles(line + [x]) == if x > 0 then Tiles(line) + [x] else Tiles(line)
    decreases |line|
  {
    if line == [] {
      assert line + [x] == [x];
    } else {
      assert (line + [x])[1..] == line[1..] + [x];
      TilesSnoc(line[1..], x);
    }
  }

  /**
   * A row being filled from the tiles t: its first pos cells are t merged,
   * the rest are zeros, and merged says whether the last of them was made by
   * merging.
   */
  ghost predicate Row(t: seq<int>, a: seq<int>, pos: nat, merged: bool)
  {
    pos <= |a| && a[..pos] == MergeTiles(t)
    && (forall i :: pos <= i < |a| ==> a[i] == 0)
    && (pos > 0 ==> merged == !Open(t))
    && (pos == 0 ==> t == [] && !merged)
  }

  /** The state of merge's loop after the first k cells of the line. */
  ghost predicate MergeInv(line: seq<int>, k: nat, a: seq<int>, pos: nat, merged: bool)
  {
    k <= |line| && |a| == |line| && pos <= k && Row(Tiles(line[..k]), a, pos, merged)
  }

  /** Reading cell k: the new prefix's tiles are the old ones, plus the cell when it is a tile. */
  lemma MergeNextTiles(line: seq<int>, k: nat)
    requires k < |line|
    ensures Tiles(line[..k + 1]) == if line[k] > 0 then Tiles(line[..k]) + [line[k]] else Tiles(line[..k])
  {
    assert line[..k + 1] == line[..k] + [line[k]];
    TilesSnoc(line[..k], line[k]);
  }

  /** A cell that is no tile changes nothing. */
  lemma MergeSkip(line: seq<int>, k: nat, a: seq<int>, pos: nat, merged: bool)
    requires MergeInv(line, k, a, pos, merged) && k < |line| && line[k] <= 0
    ensures MergeInv(line, k + 1, a, pos, merged)
  {
    MergeNextTiles(line, k);
  }

  /** A tile equal to the last one, which was not made by merging, doubles it. */
  lemma RowJoin(t: seq<int>, a: seq<int>, pos: nat, merged: bool, x: int)
    requires Row(t, a, pos, merged) && pos > 0 && !merged && x == a[pos - 1]
    ensures Row(t + [x], a[pos - 1 := 2 * x], pos, true)
  {
    MergeTilesSnoc(t, x);
    var b := a[pos - 1 := 2 * x];
    assert b[..pos] == a[..pos - 1] + [2 * x];
    assert a[..pos - 1] == MergeTiles(t)[..pos - 1];
  }

  /** Any other tile is placed after the last one. */
  lemma RowPlace(t: seq<int>, a: seq<int>, pos: nat, merged: bool, x: int)
    requires Row(t, a, pos, merged) && pos < |a|
    requires pos == 0 || merged || x != a[pos - 1]
    ensures Row(t + [x], a[pos := x], pos + 1, false)
  {
    var m := MergeTiles(t);
    MergeTilesSnoc(t, x);
    assert !(Open(t) && m[|m| - 1] == x) by {
      if pos > 0 {
        assert |m| == pos && m[|m| - 1] == a[pos - 1];
      }
    }
    var b := a[pos := x];
    assert b[..pos + 1] == a[..pos] + [x];
  }

  lemma MergeJoin(line: seq<int>, k: nat, a: seq<int>, pos: nat, merged: bool)
    requires MergeInv(line, k, a, pos, merged) && k < |line| && line[k] > 0
    requires pos > 0 && !merged && line[k] == a[pos - 1]
    ensures MergeInv(line, k + 1, a[pos - 1 := 2 * line[k]], pos, true)
  {
    MergeNextTiles(line, k);
    RowJoin(Tiles(line[..k]), a, pos, merged, line[k]);
  }

  lemma MergePlace(line: seq<int>, k: nat, a: seq<int>, pos: nat, merged: bool)
    requires MergeInv(line, k, a, pos, merged) && k < |line| && line[k] > 0
    requires pos == 0 || merged || line[k] != a[pos - 1]
    ensures pos < |a| && MergeInv(line, k + 1, a[pos := line[k]], pos + 1, false)
  {
    MergeNextTiles(line, k);
    RowPlace(Tiles(line[..k]), a, pos, merged, line[k]);
  }

  /** After the last cell the loop's array is MergeSpec's row. */
  lemma MergeDone(line: seq<int>, a: seq<int>, pos: nat, merged: bool)
    requires MergeInv(line, |line|, a, pos, merged)
    ensures a == MergeSpec(line)
  {
    assert line[..|line|] == line;
    assert a[pos..] == Zeros(|line| - pos);
    assert a == a[..pos] + a[pos..];
  }

  /** One round of merge's loop: cell k of the line is written into `result`. */
  method MergeCell(result: array<int>, line: seq<int>, k: nat, pos: nat, merged: bool) returns (pos': nat, merged': bool)
    requires k < |line| && MergeInv(line, k, result[..], pos, merged)
    modifies result
    ensures MergeInv(line, k + 1, result[..], pos', merged')
  {
    var tile := line[k];
    ghost var a := result[..];
    pos', merged' := pos, merged;
    if tile <= 0 {
      MergeSkip(line, k, a, pos, merged);
    } else if pos > 0 && !merged && tile == result[pos - 1] {
      MergeJoin(line, k, a, pos, merged);
      result[pos - 1] := result[pos - 1] * 2;
      assert result[..] == a[pos - 1 := 2 * tile];
      merged' := true;
    } else {
      MergePlace(line, k, a, pos, merged);
      result[pos] := tile;
      assert result[..] == a[pos := tile];
      pos', merged' := pos + 1, false;
    }
  }

  /** merge: a left-to-right pass writing each tile into `result` in place. */
  method Merge(line: seq<int>) returns (r: seq<int>)
    ensures r == MergeSpec(line)
  {
    var result := new int[|line|](i => 0);
    var merged := false;
    var pos := 0;
    var k := 0;
    assert line[..0] == [];
    while k < |line|
      invariant MergeInv(line, k, result[..], pos, merged)
      decreases |line| - k
    {
      pos, merged := MergeCell(result, line, k, pos, merged);
      k := k + 1;
    }
    MergeDone(line, result[..], pos, merged);
    r := result[..];
  }

  /** A merged row is never longer than its tiles, nor shorter than half of them. */
  lemma {:induction false} MergeTilesLength(t: seq<int>)
    ensures |MergeTiles(t)| <= |t| <= 2 * |MergeTiles(t)|
    decreases |t|
  {
    if |t| >= 2 {
      if t[0] == t[1] { MergeTilesLength(t[2..]); } else { MergeTilesLength(t[1..]); }
    }
  }

  lemma {:induction false} MergeTilesSum(t: seq<int>)
    ensures Sum(MergeTiles(t)) == Sum(t)
    decreases |t|
  {
    if |t| >= 2 {
      assert t == [t[0]] + t[1..];
      if t[0] == t[1] {
        assert t[1..] == [t[1]] + t[2..];
        MergeTilesSum(t[2..]);
      } else {
        MergeTilesSum(t[1..]);
      }
    }
  }

  lemma {:induction false} MergeTilesPositive(t: seq<int>)
    requires forall i :: 0 <= i < |t| ==> t[i] > 0
    ensures forall i :: 0 <= i < |MergeTiles(t)| ==> MergeTiles(t)[i] > 0
    decreases |t|
  {
    if |t| >= 2 {
      if t[0] == t[1] { MergeTilesPositive(t[2..]); } else { MergeTilesPositive(t[1..]); }
    }
  }

  lemma {:induction false} SumZeros(n: nat)
    ensures Sum(Zeros(n)) == 0
  {
    if n > 0 {
      SumZeros(n - 1);
      SumAppend(Zeros(n - 1), [0]);
    }
  }

  lemma {:induction false} SumTiles(line: seq<int>)
    requires forall i :: 0 <= i < |line| ==> line[i] >= 0
    ensures Sum(Tiles(line)) == Sum(line)
    decreases |line|
  {
    if line != [] {
      SumTiles(line[1..]);
    }
  }

  /**
   * The properties merge promises: the row keeps its length, its nonzero
   * cells form a prefix no longer than the number of positive tiles, and a
   * row of non-negative cells keeps its sum.
   */
  lemma {:induction false} MergeSpecProperties(line: seq<int>)
    ensures |MergeSpec(line)| == |line|
    ensures var n := |MergeTiles(Tiles(line))|;
      n <= |Tiles(line)|
      && (forall i :: 0 <= i < n ==> MergeSpec(line)[i] > 0)
      && (forall i :: n <= i < |line| ==> MergeSpec(line)[i] == 0)
    ensures (forall i :: 0 <= i < |line| ==> line[i] >= 0) ==> Sum(MergeSpec(line)) == Sum(line)
  {
    var m := MergeTiles(Tiles(line));
    MergeTilesLength(Tiles(line));
    MergeTilesPositive(Tiles(line));
    MergeTilesSum(Tiles(line));
    SumAppend(m, Zeros(|line| - |m|));
    SumZeros(|line| - |m|);
    if forall i :: 0 <= i < |line| ==> line[i] >= 0 {
      SumTiles(line);
    }
  }

  /** A row of tiles only is its own tiles. */
  lemma {:induction false} TilesOfTiles(line: seq<int>)
    requires forall i :: 0 <= i < |line| ==> line[i] > 0
    ensures Tiles(line) == line
  {
    if line != [] {
      TilesOfTiles(line[1..]);
    }
  }

  /** A tile made by merging is not merged again: 2 2 4 gives 4 4. */
  lemma MergeOnceExample()
    ensures MergeSpec([2, 2, 4, 0]) == [4, 4, 0, 0]
  {
    assert Tiles([2, 2, 4, 0]) == [2, 2, 4];
    assert MergeTiles([2, 2, 4]) == [4, 4];
    assert Zeros(2) == [0, 0];
  }

  /** Four equal tiles give two merged ones: 2 2 2 2 gives 4 4. */
  lemma MergePairsExample()
    ensures MergeSpec([2, 2, 2, 2]) == [4, 4, 0, 0]
  {
    TilesOfTiles([2, 2, 2, 2]);
    assert MergeTiles([2, 2]) == [4];
    assert MergeTiles([2, 2, 2, 2]) == [4] + MergeTiles([2, 2]);
    assert Zeros(2) == [0, 0];
  }

  /** Tiles merge across empty cells: 0 2 0 2 gives 4. */
  lemma MergeGapExample()
    ensures MergeSpec([0, 2, 0, 2]) == [4, 0, 0, 0]
  {
    assert Tiles([0, 2, 0, 2]) == [2, 2];
    assert MergeTiles([2, 2]) == [4];
    assert Zeros(3) == [0, 0, 0];
  }
}
