/** The sudoku solver: an exact cover search over links that are changed and undone in place. */
module SudokuSolver {
  import opened ExactCover
  import opened DancingLinks
  import opened LinkBuilding
  import opened SudokuRules

  const MAX_NODES := 1 + 81 * 4 + 9 * 9 * 9 * 4
  const NO_COLUMN := -1

  // ----------------------------------------------------- building the matrix

  /** `columns` leads from the name of header `c` back to it. */
  ghost predicate Indexed(m: Matrix, columns: seq<int>, c: int) {
    0 <= c < |m.name| && 0 <= m.name[c] < |columns| && columns[m.name[c]] == c
  }

  /** `columns` finds exactly the columns in `added`, by name. */
  ghost predicate IndexOk(m: Matrix, columns: seq<int>, added: set<int>) {
    && |columns| == 400 && m.ncols < |m.name|
    && (forall x :: x in added ==> 0 <= x < 400)
    && (forall x {:trigger columns[x]} :: 0 <= x < 400 ==>
          if x in added then m.IsHeader(columns[x]) && m.name[columns[x]] == x else columns[x] == NO_COLUMN)
    && (forall c {:trigger Indexed(m, columns, c)} :: m.IsHeader(c) ==> Indexed(m, columns, c))
  }

  /** The columns with the given names. */
  ghost function ColumnsOf(columns: seq<int>, name: seq<int>): (c: seq<int>)
    requires |columns| == 400 && |name| == 4 && forall k :: 0 <= k < 4 ==> 0 <= name[k] < 400
  {
    [columns[name[0]], columns[name[1]], columns[name[2]], columns[name[3]]]
  }

  /** Value `v` occurs among the first `n` cells in unit `u`. */
  ghost predicate OccursBefore(g: seq<int>, k: Kind, u: int, v: int, n: int) {
    exists i {:trigger UnitOf(k, i)} :: 0 <= i < n && i < |g| && UnitOf(k, i) == u && g[i] == v
  }

  ghost predicate CellBefore(g: seq<int>, x: int, n: int) {
    0 <= x < n && x < |g| && g[x] == 0
  }

  /** `x` names an open unit and value that comes before (`i`, `v`). */
  ghost predicate UnitBefore(g: seq<int>, x: int, i: int, v: int) {
    exists k, u, w :: 0 <= u < 9 && 1 <= w <= 9 && (u < i || (u == i && w < v))
      && x == NameOf(k, u, w) && !Occurs(g, k, u, w)
  }

  /** `flags` tells, per unit and value, whether the value occurs among the first `n` cells. */
  ghost predicate FlagsOk(flags: array2<bool>, g: seq<int>, k: Kind, n: int)
    reads flags
  {
    && flags.Length0 == 81 && flags.Length1 == 10
    && forall u, v :: 0 <= u < 9 && 0 <= v < 10 ==> (flags[u, v] <==> OccursBefore(g, k, u, v, n))
  }

  method SetFlag(flags: array2<bool>, ghost g: seq<int>, ghost k: Kind, ghost i: int, u: int, v: int)
    requires IsPuzzle(g) && IsCell(i) && u == UnitOf(k, i) && v == g[i] && FlagsOk(flags, g, k, i)
    modifies flags
    ensures FlagsOk(flags, g, k, i + 1)
  {
    UnitCell(k, i);
    flags[u, v] := true;
    forall w, x | 0 <= w < 9 && 0 <= x < 10
      ensures OccursBefore(g, k, w, x, i + 1) <==> OccursBefore(g, k, w, x, i) || (w == u && x == v) {
      assert UnitOf(k, i) == u;
    }
  }

  class SudokuSolver {
    /** The board being filled in, the nodes, and the matrix entries chosen so far. */
    var inout: array<int>
    var nodes: array<Node>
    var curNode: nat
    var stack: seq<int>
    /** Column headers by name. */
    var columns: array<int>
    /** What the links stand for. */
    ghost var m: Matrix

    /** The structure for the columns in `added` and for some of the rows of puzzle `g`. */
    ghost predicate Building(g: seq<int>, added: set<int>)
      reads this, nodes, columns
    {
      && curNode == |m.col|
      && columns as object != nodes && IndexOk(m, columns[..], added)
      && Shape(m, nodes[..]) && HeadersOk(m, nodes[..], m.Headers()) && ColumnsOk(m, nodes[..], m.Entries())
      && |g| == CELLS && (forall x {:trigger Needed(g, x)} :: Needed(g, x) ==> x in added)
      && (forall n {:trigger RowOk(m, g, n)} :: m.IsEntry(n) ==> RowOk(m, g, n))
    }

    method AppendColumn(n: int, ghost added: set<int>)
      requires HeaderPhase(m, nodes[..]) && curNode == |m.col| < nodes.Length
      requires columns.Length == 400 && columns as object != nodes && IndexOk(m, columns[..], added)
      requires 0 <= n < 400 && n !in added
      modifies nodes, columns, this`curNode, this`m
      ensures HeaderPhase(m, nodes[..]) && curNode == |m.col| == old(curNode) + 1
      ensures IndexOk(m, columns[..], added + {n})
    {
      ghost var m0, s := m, nodes[..];
      assert HeaderPlaced(s, m.Headers(), 0);
      var c := curNode;
      nodes[c] := Lone(c, c, n);
      curNode := curNode + 1;
      var l := nodes[0].left;
      nodes[c] := nodes[c].(left := l, right := 0);
      nodes[l] := nodes[l].(right := c);
      nodes[0] := nodes[0].(left := c);
      columns[n] := c;
      m := Grown(m, m.ncols + 1, c, 0, 0, n);
      AppendHeader(m0, s, n);
      assert nodes[..] == WithHeader(s, c, n);
      forall d | m.IsHeader(d) ensures Indexed(m, columns[..], d) {
        assert d != c ==> m0.IsHeader(d) && Indexed(m0, old(columns[..]), d);
      }
    }

    method NewRow(name: int) returns (r: int)
      requires curNode == |m.col| < nodes.Length && m.ncols < |m.col|
      requires columns.Length == 400 && columns as object != nodes
      requires 0 <= name < 400 && m.IsHeader(columns[name]) && ColumnsOk(m, nodes[..], m.Entries())
      modifies nodes, this`curNode, this`m
      ensures r == old(curNode) && curNode == r + 1 && m == WithColumnOf(old(m), columns[name])
      ensures columns[..] == old(columns[..])
      ensures ColumnsOk(m, nodes[..], m.Entries())
      ensures SameRowsBut(old(nodes[..]), nodes[..], r) && Loose(nodes[..], r, columns[name], name)
    {
      ghost var s := nodes[..];
      r := curNode;
      var c := columns[name];
      assert ColumnOk(m, s, m.Entries(), c);
      assert Placed(m, s, m.Entries(), c, c);
      nodes[r] := Lone(r, c, name);
      curNode := curNode + 1;
      var u := nodes[c].up;
      nodes[r] := nodes[r].(up := u, down := c);
      nodes[u] := nodes[u].(down := r);
      nodes[c] := nodes[c].(up := r, size := nodes[c].size + 1);
      nodes[r] := nodes[r].(col := c);
      EntryAdded(m, s, c, name);
      assert nodes[..] == WithEntry(s, r, c, name);
      m := WithColumnOf(m, c);
    }

    method PutNodeLeft(at: int, n: int)
      requires 0 <= at < nodes.Length && 0 <= n < nodes.Length && 0 <= nodes[at].left < nodes.Length
      modifies nodes
      ensures nodes[..] == PutLeft(old(nodes[..]), at, n)
    {
      var l := nodes[at].left;
      nodes[n] := nodes[n].(left := l, right := at);
      nodes[l] := nodes[l].(right := n);
      nodes[at] := nodes[at].(left := n);
    }

    /** Links three nodes behind a first one. */
    method PutRowLeft(n0: int, nr: int, nc: int, nb: int)
      requires 0 <= n0 && nr == n0 + 1 && nc == n0 + 2 && nb == n0 + 3 < nodes.Length && nodes[n0].left == n0
      modifies nodes
      ensures nodes[..] == RowLinked(old(nodes[..]), n0)
    {
      PutNodeLeft(n0, nr);
      PutNodeLeft(n0, nc);
      PutNodeLeft(n0, nb);
    }

    /** Four new entries in the columns named `name`, not yet linked into a row. */
    method NewEntries(name: seq<int>) returns (n0: int, nr: int, nc: int, nb: int)
      requires curNode == |m.col| && curNode + 4 <= nodes.Length && m.ncols < |m.col|
      requires columns.Length == 400 && columns as object != nodes
      requires |name| == 4 && forall k :: 0 <= k < 4 ==> 0 <= name[k] < 400 && m.IsHeader(columns[name[k]])
      requires ColumnsOk(m, nodes[..], m.Entries())
      modifies nodes, this`curNode, this`m
      ensures n0 == old(curNode) && nr == n0 + 1 && nc == n0 + 2 && nb == n0 + 3 && curNode == n0 + 4
      ensures columns[..] == old(columns[..])
      ensures m == old(m).(col := old(m).col + ColumnsOf(columns[..], name))
      ensures ColumnsOk(m, nodes[..], m.Entries()) && SameRowsBelow(old(nodes[..]), nodes[..], n0)
      ensures forall k {:trigger name[k]} :: 0 <= k < 4 ==> Loose(nodes[..], n0 + k, columns[name[k]], name[k])
    {
      ghost var m0 := m;
      n0 := NewRow(name[0]);
      nr := NewRow(name[1]);
      nc := NewRow(name[2]);
      nb := NewRow(name[3]);
      assert m.col == m0.col + ColumnsOf(columns[..], name);
    }

    /** Four new entries in the columns named `name`, linked into a row. */
    method LinkRow(name: seq<int>)
      requires curNode == |m.col| && curNode + 4 <= nodes.Length
      requires columns.Length == 400 && columns as object != nodes
      requires |name| == 4 && forall k :: 0 <= k < 4 ==> 0 <= name[k] < 400 && m.IsHeader(columns[name[k]])
      requires forall j, k :: 0 <= j < k < 4 ==> columns[name[j]] != columns[name[k]]
      requires Shape(m, nodes[..]) && HeadersOk(m, nodes[..], m.Headers()) && ColumnsOk(m, nodes[..], m.Entries())
      modifies nodes, this`curNode, this`m
      ensures curNode == old(curNode) + 4 == |m.col| && columns[..] == old(columns[..])
      ensures m == WithRow(old(m), ColumnsOf(columns[..], name), name)
      ensures Shape(m, nodes[..]) && HeadersOk(m, nodes[..], m.Headers()) && ColumnsOk(m, nodes[..], m.Entries())
    {
      ghost var m0, s, c := m, nodes[..], ColumnsOf(columns[..], name);
      var n0, nr, nc, nb := NewEntries(name);
      ghost var s4 := nodes[..];
      LooseLinks(s4, n0, c, name);
      PutRowLeft(n0, nr, nc, nb);
      m := WithRow(m0, c, name);
      WithRowValid(m0, c, name);
      RowAdded(m0, s, s4, c, name);
    }

    /** Appends the row that places `v` in cell `i`. */
    method AddRow(i: int, row: int, col: int, box: int, v: int, ghost g: seq<int>, ghost added: set<int>)
      requires Building(g, added) && curNode + 4 <= nodes.Length
      requires Candidate(g, i, v) && row == UnitOf(RowUnit, i) && col == UnitOf(ColUnit, i) && box == UnitOf(BoxUnit, i)
      modifies nodes, this`curNode, this`m
      ensures Building(g, added) && curNode == old(curNode) + 4 && columns[..] == old(columns[..])
      ensures HasRow(m, i, v) && forall j, w :: HasRow(old(m), j, w) ==> HasRow(m, j, w)
    {
      ghost var m0 := m;
      CandidateNames(g, i, v);
      var name := [i, 100 + row * 10 + v, 200 + col * 10 + v, 300 + box * 10 + v];
      assert name == [i, NameOf(RowUnit, row, v), NameOf(ColUnit, col, v), NameOf(BoxUnit, box, v)];
      ColumnsDistinct(m0, columns[..], added, name);
      LinkRow(name);
      RowEncodes(m0, columns[..], g, added, i, v);
    }

    /** Which values the givens already put into each row, column and box. */
    method ScanGivens() returns (rows: array2<bool>, cols: array2<bool>, boxes: array2<bool>)
      requires IsPuzzle(inout[..])
      ensures fresh(rows) && fresh(cols) && fresh(boxes)
      ensures FlagsOk(rows, inout[..], RowUnit, CELLS) && FlagsOk(cols, inout[..], ColUnit, CELLS)
      ensures FlagsOk(boxes, inout[..], BoxUnit, CELLS)
    {
      rows := new bool[81, 10]((i, j) => false);
      cols := new bool[81, 10]((i, j) => false);
      boxes := new bool[81, 10]((i, j) => false);
      var i := 0;
      while i < 81
        invariant 0 <= i <= 81
        invariant FlagsOk(rows, inout[..], RowUnit, i) && FlagsOk(cols, inout[..], ColUnit, i)
        invariant FlagsOk(boxes, inout[..], BoxUnit, i)
      {
        var row, col := i / 9, i % 9;
        var box := row / 3 * 3 + col / 3;
        var val := inout[i];
        SetFlag(rows, inout[..], RowUnit, i, row, val);
        SetFlag(cols, inout[..], ColUnit, i, col, val);
        SetFlag(boxes, inout[..], BoxUnit, i, box, val);
        i := i + 1;
      }
    }

    /** Appends the column for value `v` in unit `u` unless the givens fill it. */
    method AppendUnit(k: Kind, u: int, v: int, filled: bool, ghost g: seq<int>, ghost added: set<int>)
      returns (ghost now: set<int>)
      requires HeaderPhase(m, nodes[..]) && curNode == |m.col| < nodes.Length
      requires columns.Length == 400 && columns as object != nodes && IndexOk(m, columns[..], added)
      requires 0 <= u < 9 && 1 <= v <= 9 && filled == Occurs(g, k, u, v) && NameOf(k, u, v) !in added
      modifies nodes, columns, this`curNode, this`m
      ensures HeaderPhase(m, nodes[..]) && curNode == |m.col| <= old(curNode) + 1
      ensures IndexOk(m, columns[..], now)
      ensures now == if filled then added else added + {NameOf(k, u, v)}
    {
      now := added;
      if !filled {
        AppendColumn(NameOf(k, u, v), added);
        now := added + {NameOf(k, u, v)};
      }
    }

    /** Appends one column per empty cell. */
    method AppendCells() returns (ghost added: set<int>)
      requires IsPuzzle(inout[..]) && inout as object != nodes && inout != columns
      requires HeaderPhase(m, nodes[..]) && curNode == |m.col| == 1 && nodes.Length == MAX_NODES
      requires columns.Length == 400 && columns as object != nodes && IndexOk(m, columns[..], {})
      modifies nodes, columns, this`curNode, this`m
      ensures HeaderPhase(m, nodes[..]) && curNode == |m.col| <= 82
      ensures inout[..] == old(inout[..]) && IndexOk(m, columns[..], added)
      ensures forall x :: x in added <==> CellBefore(inout[..], x, 81)
    {
      added := {};
      var i := 0;
      while i < 81
        invariant 0 <= i <= 81 && inout[..] == old(inout[..])
        invariant HeaderPhase(m, nodes[..]) && curNode == |m.col| <= 1 + i
        invariant IndexOk(m, columns[..], added)
        invariant forall x :: x in added <==> CellBefore(inout[..], x, i)
      {
        if inout[i] == 0 {
          AppendColumn(i, added);
          added := added + {i};
        }
        i := i + 1;
      }
    }

    /** Appends one column per unit and value that the givens leave open. */
    method AppendUnits(rows: array2<bool>, cols: array2<bool>, boxes: array2<bool>, ghost cells: set<int>)
      returns (ghost added: set<int>)
      requires IsPuzzle(inout[..]) && inout as object != nodes && inout != columns
      requires FlagsOk(rows, inout[..], RowUnit, CELLS) && FlagsOk(cols, inout[..], ColUnit, CELLS)
      requires FlagsOk(boxes, inout[..], BoxUnit, CELLS)
      requires HeaderPhase(m, nodes[..]) && curNode == |m.col| <= 82 && nodes.Length == MAX_NODES
      requires columns.Length == 400 && columns as object != nodes && IndexOk(m, columns[..], cells)
      requires forall x :: x in cells <==> CellBefore(inout[..], x, 81)
      modifies nodes, columns, this`curNode, this`m
      ensures HeaderPhase(m, nodes[..]) && curNode == |m.col| <= 325
      ensures inout[..] == old(inout[..]) && IndexOk(m, columns[..], added)
      ensures forall x :: x in added <==> Needed(inout[..], x)
    {
      ghost var g := inout[..];
      added := cells;
      forall x ensures !UnitBefore(g, x, 0, 1) {}
      var i := 0;
      while i < 9
        invariant 0 <= i <= 9 && inout[..] == g
        invariant HeaderPhase(m, nodes[..]) && curNode == |m.col| <= 82 + 27 * i
        invariant IndexOk(m, columns[..], added)
        invariant forall x :: x in added <==> CellBefore(g, x, 81) || UnitBefore(g, x, i, 1)
      {
        added := AppendUnitsAt(i, rows, cols, boxes, added);
        i := i + 1;
      }
      AllNeeded(g);
    }

    /** The columns of the `i`th row, column and box. */
    method AppendUnitsAt(i: int, rows: array2<bool>, cols: array2<bool>, boxes: array2<bool>, ghost before: set<int>)
      returns (ghost added: set<int>)
      requires IsPuzzle(inout[..]) && inout as object != nodes && inout != columns && 0 <= i < 9
      requires FlagsOk(rows, inout[..], RowUnit, CELLS) && FlagsOk(cols, inout[..], ColUnit, CELLS)
      requires FlagsOk(boxes, inout[..], BoxUnit, CELLS)
      requires HeaderPhase(m, nodes[..]) && curNode == |m.col| && curNode + 27 <= nodes.Length
      requires columns.Length == 400 && columns as object != nodes && IndexOk(m, columns[..], before)
      requires forall x :: x in before <==> CellBefore(inout[..], x, 81) || UnitBefore(inout[..], x, i, 1)
      modifies nodes, columns, this`curNode, this`m
      ensures HeaderPhase(m, nodes[..]) && curNode == |m.col| <= old(curNode) + 27
      ensures inout[..] == old(inout[..]) && IndexOk(m, columns[..], added)
      ensures forall x :: x in added <==> CellBefore(inout[..], x, 81) || UnitBefore(inout[..], x, i + 1, 1)
    {
      ghost var g := inout[..];
      added := before;
      var v := 1;
      while v < 10
        invariant 1 <= v <= 10 && inout[..] == g
        invariant HeaderPhase(m, nodes[..]) && curNode == |m.col| <= old(curNode) + 3 * (v - 1)
        invariant IndexOk(m, columns[..], added)
        invariant forall x :: x in added <==> CellBefore(g, x, 81) || UnitBefore(g, x, i, v)
      {
        ghost var was := added;
        NamesAhead(g, i, v);
        OccursAll(g, i, v);
        added := AppendUnit(RowUnit, i, v, rows[i, v], g, added);
        added := AppendUnit(ColUnit, i, v, cols[i, v], g, added);
        added := AppendUnit(BoxUnit, i, v, boxes[i, v], g, added);
        forall x ensures x in added <==> CellBefore(g, x, 81) || UnitBefore(g, x, i, v + 1) {
          UnitStep(g, x, i, v);
        }
        v := v + 1;
      }
      UnitsEnd(g, i);
    }

    /** Appends the rows for the values that may go into cell `i`. */
    method AppendCellRows(i: int, rows: array2<bool>, cols: array2<bool>, boxes: array2<bool>, ghost added: set<int>)
      requires IsPuzzle(inout[..]) && inout as object != nodes && IsCell(i) && inout[i] == 0
      requires FlagsOk(rows, inout[..], RowUnit, CELLS) && FlagsOk(cols, inout[..], ColUnit, CELLS)
      requires FlagsOk(boxes, inout[..], BoxUnit, CELLS)
      requires Building(inout[..], added) && curNode + 36 <= nodes.Length
      modifies nodes, this`curNode, this`m
      ensures inout[..] == old(inout[..]) && Building(inout[..], added) && curNode <= old(curNode) + 36
      ensures forall w :: Candidate(inout[..], i, w) ==> HasRow(m, i, w)
      ensures forall j, w :: HasRow(old(m), j, w) ==> HasRow(m, j, w)
    {
      ghost var g := inout[..];
      var row, col := i / 9, i % 9;
      var box := row / 3 * 3 + col / 3;
      var v := 1;
      while v < 10
        invariant 1 <= v <= 10 && inout[..] == g
        invariant Building(g, added) && curNode <= old(curNode) + 4 * (v - 1)
        invariant forall w :: Candidate(g, i, w) && w < v ==> HasRow(m, i, w)
        invariant forall j, w :: HasRow(old(m), j, w) ==> HasRow(m, j, w)
      {
        FreeFlags(g, i, v);
        if !(rows[row, v] || cols[col, v] || boxes[box, v]) {
          AddRow(i, row, col, box, v, g, added);
        }
        v := v + 1;
      }
    }

    method AppendRows(rows: array2<bool>, cols: array2<bool>, boxes: array2<bool>, ghost added: set<int>)
      requires IsPuzzle(inout[..]) && inout as object != nodes
      requires FlagsOk(rows, inout[..], RowUnit, CELLS) && FlagsOk(cols, inout[..], ColUnit, CELLS)
      requires FlagsOk(boxes, inout[..], BoxUnit, CELLS)
      requires Building(inout[..], added) && curNode <= 325 && nodes.Length == MAX_NODES
      modifies nodes, this`curNode, this`m
      ensures inout[..] == old(inout[..]) && Building(inout[..], added)
      ensures forall j, w :: Candidate(inout[..], j, w) ==> HasRow(m, j, w)
    {
      ghost var g := inout[..];
      var i := 0;
      while i < 81
        invariant 0 <= i <= 81 && inout[..] == g
        invariant Building(g, added) && curNode <= 325 + 36 * i
        invariant forall j, w :: Candidate(g, j, w) && j < i ==> HasRow(m, j, w)
      {
        if inout[i] == 0 {
          AppendCellRows(i, rows, cols, boxes, added);
        }
        i := i + 1;
      }
    }

    /** Builds the exact cover problem for a puzzle. */
    constructor (board: array<int>)
      requires IsPuzzle(board[..])
      ensures inout == board && stack == [] && fresh(nodes)
      ensures Encodes(m, board[..]) && Inv(m, Links(nodes[..], m.Headers(), m.Entries()))
    {
      inout := board;
      curNode := 1;
      stack := [];
      nodes := new Node[MAX_NODES](_ => Lone(0, 0, 0));
      columns := new int[400](_ => NO_COLUMN);
      m := Matrix(0, [0], [0], [0], [0]);
      new;
      RootOnly(nodes[..]);
      var rows, cols, boxes := ScanGivens();
      ghost var added := AppendCells();
      added := AppendUnits(rows, cols, boxes, added);
      HeadersDone(m, nodes[..]);
      AppendRows(rows, cols, boxes, added);
      BuiltEncodes(m, columns[..], board[..], added);
    }

    method UnlinkNode(j: int)
      requires Linkable(nodes[..], j) && nodes[j].down != j && nodes[j].up != j && nodes[j].col != j
      modifies nodes
      ensures nodes[..] == Unlink(old(nodes[..]), j)
    {
      var d, u := nodes[j].down, nodes[j].up;
      nodes[d] := nodes[d].(up := nodes[j].up);
      nodes[u] := nodes[u].(down := nodes[j].down);
      var c := nodes[j].col;
      nodes[c] := nodes[c].(size := nodes[c].size - 1);
    }

    method RelinkNode(j: int)
      requires Linkable(nodes[..], j) && nodes[j].down != j && nodes[j].up != j && nodes[j].col != j
      modifies nodes
      ensures nodes[..] == Relink(old(nodes[..]), j)
    {
      var c := nodes[j].col;
      nodes[c] := nodes[c].(size := nodes[c].size + 1);
      var d := nodes[j].down;
      nodes[d] := nodes[d].(up := j);
      var u := nodes[j].up;
      nodes[u] := nodes[u].(down := j);
    }

    /** Takes the other entries of the row of `row` out of their columns. */
    method UnlinkOthers(row: int, ghost x: set<int>)
      requires Shape(m, nodes[..]) && ColumnsOk(m, nodes[..], x) && m.IsEntry(row) && RowIn(m, x, row)
      modifies nodes
      ensures nodes[..] == UnlinkRow(m, old(nodes[..]), row, row)
    {
      ghost var s := nodes[..];
      UnlinkRowNext(m, s, row, row);
      var j := nodes[row].right;
      while j != row
        invariant m.SameRow(row, j)
        invariant nodes[..] == UnlinkRow(m, s, row, j)
        decreases if j > row then m.last[row] - j + row else if j < row then row - j else 0
      {
        UnlinkRowKeeps(m, s, x, row, j);
        UnlinkRowStep(m, s, x, row, j);
        EntryLinkable(m, nodes[..], x - RowPart(m, row, j), j);
        UnlinkNode(j);
        UnlinkRowKeeps(m, s, x, row, m.Right(j));
        j := nodes[j].right;
      }
    }

    /** Puts the other entries of the row of `row` back, in the opposite order. */
    method RelinkOthers(row: int, ghost s: seq<Node>, ghost x: set<int>)
      requires Shape(m, s) && ColumnsOk(m, s, x) && m.IsEntry(row) && RowIn(m, x, row)
      requires nodes[..] == UnlinkRow(m, s, row, row)
      modifies nodes
      ensures nodes[..] == s
    {
      UnlinkRowNext(m, s, row, row);
      UnlinkRowKeeps(m, s, x, row, row);
      LeftRight(m, row, row);
      var j := nodes[row].left;
      while j != row
        invariant m.SameRow(row, j)
        invariant nodes[..] == UnlinkRow(m, s, row, m.Right(j))
        decreases if j > row then j - row else if j < row then m.last[row] + 1 + j else 0
      {
        RelinkStep(m, s, x, row, j);
        LeftRight(m, row, j);
        RelinkNode(j);
        j := nodes[j].left;
      }
    }

    method CoverColumn(c: int, ghost k: Links)
      requires Inv(m, k) && c in k.a && nodes[..] == k.s
      modifies nodes
      ensures nodes[..] == Cover(m, k, c).s
    {
      UnlinkNodeHeader(c, k);
      UnlinkHeaderKeeps(m, k.s, k.a, c);
      SameColumnsKeeps(m, k.s, nodes[..], k.x);
      VisitedRowsLinked(m, k, c);
      CoverLinkedRows(c, nodes[..], k.x);
    }

    /** Takes the header of a column out of its row. */
    method UnlinkNodeHeader(c: int, ghost k: Links)
      requires Inv(m, k) && c in k.a && nodes[..] == k.s
      modifies nodes
      ensures nodes[..] == UnlinkHeader(k.s, c)
    {
      assert HeaderPlaced(k.s, k.a, c);
      var r, l := nodes[c].right, nodes[c].left;
      nodes[r] := nodes[r].(left := l);
      nodes[l] := nodes[l].(right := r);
    }

    /** Takes the rows through column `c` out of the other columns, from the first to the last. */
    method CoverLinkedRows(c: int, ghost s: seq<Node>, ghost x: set<int>)
      requires Shape(m, s) && ColumnsOk(m, s, x) && RowsIn(m, x, c) && m.IsHeader(c) && nodes[..] == s
      modifies nodes
      ensures nodes[..] == CoverRows(m, s, x, c, |m.col|)
    {
      NextRow(m, s, x, c, c);
      var row := nodes[c].down;
      while row != c
        invariant OnRing(m, x, c, row)
        invariant nodes[..] == CoverRows(m, s, x, c, Before(m, c, row))
        decreases |m.col| - Before(m, c, row)
      {
        CoverRowsKeeps(m, s, x, c, row);
        LeftByRow(m, x, c, row);
        UnlinkOthers(row, LeftBy(m, x, c, row));
        NextRow(m, s, x, c, row);
        row := nodes[row].down;
      }
    }

    method UncoverColumn(c: int, ghost k: Links)
      requires Inv(m, k) && c in k.a && nodes[..] == Cover(m, k, c).s
      modifies nodes
      ensures nodes[..] == k.s
    {
      UnlinkHeaderKeeps(m, k.s, k.a, c);
      SameColumnsKeeps(m, k.s, UnlinkHeader(k.s, c), k.x);
      VisitedRowsLinked(m, k, c);
      UncoverRows(c, UnlinkHeader(k.s, c), k.x);
      RelinkNodeHeader(c, k);
    }

    /** Puts the rows through column `c` back, from the last to the first. */
    method UncoverRows(c: int, ghost s: seq<Node>, ghost x: set<int>)
      requires Shape(m, s) && ColumnsOk(m, s, x) && RowsIn(m, x, c) && m.IsHeader(c)
      requires nodes[..] == CoverRows(m, s, x, c, |m.col|)
      modifies nodes
      ensures nodes[..] == s
    {
      NextRow(m, s, x, c, c);
      var row := nodes[c].up;
      while row != c
        invariant OnRing(m, x, c, row)
        invariant nodes[..] == CoverRows(m, s, x, c, After(m, c, row))
        decreases After(m, c, row)
      {
        CoverRowsKeeps(m, s, x, c, row);
        LeftByRow(m, x, c, row);
        RelinkOthers(row, CoverRows(m, s, x, c, row), LeftBy(m, x, c, row));
        NextRow(m, s, x, c, row);
        row := nodes[row].up;
      }
    }

    /** Puts the header of a column back between its neighbours. */
    method RelinkNodeHeader(c: int, ghost k: Links)
      requires Inv(m, k) && c in k.a && nodes[..] == UnlinkHeader(k.s, c)
      modifies nodes
      ensures nodes[..] == k.s
    {
      assert HeaderPlaced(k.s, k.a, c);
      UnlinkHeaderKeeps(m, k.s, k.a, c);
      var r := nodes[c].right;
      nodes[r] := nodes[r].(left := c);
      var l := nodes[c].left;
      nodes[l] := nodes[l].(right := c);
    }

    method CoverOthers(row: int, ghost k: Links)
      requires Inv(m, k) && RowOpen(m, k, row) && nodes[..] == k.s
      modifies nodes
      ensures nodes[..] == CoverRow(m, k, row, row).s
    {
      CoverRowNext(m, k, row, row);
      LeftRight(m, row, row);
      var j := nodes[row].right;
      while j != row
        invariant m.SameRow(row, j)
        invariant nodes[..] == CoverRow(m, k, row, j).s
        decreases if j > row then m.last[row] - j + row else if j < row then row - j else 0
      {
        CoverRowKeeps(m, k, row, j);
        CoverRowNext(m, k, row, j);
        ghost var kj := CoverRow(m, k, row, j);
        LeftRight(m, row, j);
        EntryFields(m, kj, j);
        CoverColumn(nodes[j].col, kj);
        CoverKeeps(m, kj, m.col[j]);
        EntryFields(m, Cover(m, kj, m.col[j]), j);
        j := nodes[j].right;
      }
    }

    method UncoverOthers(row: int, ghost k: Links)
      requires Inv(m, k) && RowOpen(m, k, row) && nodes[..] == CoverRow(m, k, row, row).s
      modifies nodes
      ensures nodes[..] == k.s
    {
      CoverRowNext(m, k, row, row);
      CoverRowKeeps(m, k, row, row);
      LeftRight(m, row, row);
      EntryFields(m, CoverRow(m, k, row, row), row);
      var j := nodes[row].left;
      while j != row
        invariant m.SameRow(row, j)
        invariant nodes[..] == CoverRow(m, k, row, m.Right(j)).s
        decreases if j > row then j - row else if j < row then m.last[row] + 1 + j else 0
      {
        CoverRowKeeps(m, k, row, j);
        CoverRowNext(m, k, row, j);
        ghost var kj := CoverRow(m, k, row, j);
        LeftRight(m, row, j);
        CoverKeeps(m, kj, m.col[j]);
        EntryFields(m, Cover(m, kj, m.col[j]), j);
        UncoverColumn(nodes[j].col, kj);
        EntryFields(m, kj, j);
        j := nodes[j].left;
      }
    }

    /** A column to branch on: one with at most one row left, or else one with the fewest. */
    method GetMinColumn(ghost k: Links) returns (c: int)
      requires Inv(m, k) && nodes[..] == k.s && nodes[..] != [] && nodes[0].left != 0
      ensures c in k.a && 0 <= c < nodes.Length
      ensures nodes[c].size == |Column(m, k.x, c)|
      ensures forall y :: y in k.a && |Column(m, k.x, c)| > 1 ==> |Column(m, k.x, c)| <= |Column(m, k.x, y)|
    {
      HeaderGap(m, k, 0);
      forall y | y in k.a ensures 0 < y < |k.s| && k.s[y].size == |Column(m, k.x, y)| {
        assert ColumnOk(m, k.s, k.x, y);
      }
      SomeColumn(m, k);
      c := nodes[0].right;
      var minSize := nodes[c].size;
      if minSize > 1 {
        HeaderGap(m, k, c);
        var cc := nodes[c].right;
        while cc != 0
          invariant c in k.a && OnHeaderRing(k.a, cc)
          invariant minSize == nodes[c].size > 1
          invariant forall y :: y in k.a && (cc == 0 || y < cc) ==> minSize <= k.s[y].size
          decreases if cc == 0 then 0 else nodes.Length - cc
        {
          if minSize > nodes[cc].size {
            c := cc;
            minSize := nodes[cc].size;
            if minSize <= 1 {
              break;
            }
          }
          HeaderGap(m, k, cc);
          cc := nodes[cc].right;
        }
      }
    }

    /** Writes the value of every chosen row into the board. */
    method WriteBoard()
      requires Shape(m, nodes[..]) && RowsNamed(m, inout.Length) && Entries(m, stack)
      modifies inout
      ensures inout[..] == Filled(m, old(inout[..]), stack)
    {
      ghost var board := inout[..];
      var i := 0;
      while i < |stack|
        invariant 0 <= i <= |stack|
        invariant inout[..] == Filled(m, board, stack[..i])
      {
        var cell, val := ReadRow(stack[i]);
        inout[cell] := val;
        assert stack[..i + 1][..i] == stack[..i];
        i := i + 1;
      }
      assert stack[..|stack|] == stack;
    }

    /** Walks right from an entry until both the cell and the value of its row are known. */
    method ReadRow(start: int) returns (cell: int, val: int)
      requires Shape(m, nodes[..]) && RowsNamed(m, inout.Length) && m.IsEntry(start)
      ensures cell == CellOf(m, start) && val == ValueOf(m, start) && 0 <= cell < inout.Length
    {
      cell, val := -1, -1;
      var n := start;
      while cell == -1 || val == -1
        invariant m.SameRow(start, n)
        invariant cell == -1 || cell == CellOf(m, start)
        invariant val == -1 || val == ValueOf(m, start)
        invariant cell != -1 && val == -1 ==> n != m.first[start]
        decreases if cell != -1 && val != -1 then 0 else if cell != -1 then 1
                  else if n == m.first[start] then 2 else m.last[start] + 3 - n
      {
        LeftRight(m, start, n);
        assert m.IsEntry(n);
        if nodes[n].name < 100 {
          cell := nodes[n].name;
        } else {
          val := nodes[n].name % 10;
        }
        n := nodes[n].right;
      }
    }

    /** Decides whether the columns in `k.a` have an exact cover.  On success the stack has
        been extended by one entry per chosen row and the board is filled in; on failure
        nodes, stack and board are exactly as they were. */
    method Solve(ghost k: Links) returns (found: bool)
      requires Inv(m, k) && nodes[..] == k.s
      requires RowsNamed(m, inout.Length) && Entries(m, stack)
      modifies nodes, inout, this`stack
      ensures found == Coverable(m.Rows(), k.a)
      ensures !found ==> nodes[..] == old(nodes[..]) && stack == old(stack) && inout[..] == old(inout[..])
      ensures found ==>
        && old(stack) <= stack && Entries(m, stack)
        && IsExactCover(m.Rows(), k.a, Elements(stack[|old(stack)|..]))
        && inout[..] == Filled(m, old(inout[..]), stack)
      decreases |k.a|, 1
    {
      HeaderGapLeft(m, k);
      if nodes[0].left == 0 {
        assert IsExactCover(m.Rows(), k.a, {});
        assert Elements(stack[|stack|..]) == {};
        WriteBoard();
        return true;
      }
      var col := GetMinColumn(k);
      CoverColumn(col, k);
      FirstRow(m, k, col);
      var row := nodes[col].down;
      while row != col
        invariant OnRing(m, k.x, col, row)
        invariant nodes[..] == Cover(m, k, col).s && stack == old(stack) && inout[..] == old(inout[..])
        invariant forall r :: Visits(m, k.x, col, r) && r < Before(m, col, row) ==>
                    !Coverable(m.Rows(), k.a - m.Cols(r))
        decreases |m.col| - Before(m, col, row)
      {
        OpenRow(m, k, col, row);
        found := TryRow(row, k.a, Cover(m, k, col));
        if found {
          return true;
        }
        NextOpenRow(m, k, col, row);
        row := nodes[row].down;
      }
      UncoverColumn(col, k);
      NoRowLeft(m, k, col);
      return false;
    }

    /** One round of the search: chooses the row of `row` and searches on; if that fails,
        takes the choice back. */
    method TryRow(row: int, ghost a: set<int>, ghost k: Links) returns (found: bool)
      requires Ready(m, a, k, row) && m.Valid() && m.IsEntry(row) && m.Cols(row) <= a && |a - m.Cols(row)| < |a|
      requires nodes[..] == k.s
      requires RowsNamed(m, inout.Length) && Entries(m, stack)
      modifies nodes, inout, this`stack
      ensures found == Coverable(m.Rows(), a - m.Cols(row))
      ensures !found ==> nodes[..] == old(nodes[..]) && stack == old(stack) && inout[..] == old(inout[..])
      ensures found ==>
        && old(stack) <= stack && Entries(m, stack) && Coverable(m.Rows(), a)
        && IsExactCover(m.Rows(), a, Elements(stack[|old(stack)|..]))
        && inout[..] == Filled(m, old(inout[..]), stack)
      decreases |a|, 0
    {
      ghost var q := stack;
      stack := stack + [row];
      found := SolveRest(row, a, k, q);
      if !found {
        stack := stack[..|stack| - 1];
      }
    }

    /** Covers the row's other columns and solves what is left; undoes the covering on failure. */
    method SolveRest(row: int, ghost a: set<int>, ghost k: Links, ghost q: seq<int>) returns (found: bool)
      requires Ready(m, a, k, row) && m.Valid() && nodes[..] == k.s && stack == q + [row]
      requires RowsNamed(m, inout.Length) && Entries(m, stack)
      modifies nodes, inout, this`stack
      ensures found == Coverable(m.Rows(), a - m.Cols(row))
      ensures !found ==> nodes[..] == k.s && stack == old(stack) && inout[..] == old(inout[..])
      ensures found ==>
        && q <= stack && Entries(m, stack) && Coverable(m.Rows(), a)
        && IsExactCover(m.Rows(), a, Elements(stack[|q|..]))
        && inout[..] == Filled(m, old(inout[..]), stack)
      decreases |a - m.Cols(row)|, 2
    {
      assert Shown(k);
      CoverOthers(row, k);
      assert inout[..] == old(inout[..]);
      found := Solve(CoverRow(m, k, row, row));
      if found {
        AddPick(m, a, row, q, stack);
      } else {
        UncoverOthers(row, k);
        assert inout[..] == old(inout[..]);
      }
    }
  }

  lemma EntryLinkable(m: Matrix, s: seq<Node>, x: set<int>, j: int)
    requires Shape(m, s) && ColumnsOk(m, s, x) && j in x
    ensures Linkable(s, j) && s[j].down != j && s[j].up != j && s[j].col != j
  {
    assert m.IsEntry(j);
    assert ColumnOk(m, s, x, m.col[j]);
    assert Placed(m, s, x, m.col[j], j);
  }

  /** One step of the walk left along a row, on links that a walk right has changed. */
  lemma RelinkStep(m: Matrix, s: seq<Node>, x: set<int>, row: int, j: int)
    requires Shape(m, s) && ColumnsOk(m, s, x) && m.IsEntry(row) && RowIn(m, x, row)
    requires m.SameRow(row, j) && j != row
    ensures var t := UnlinkRow(m, s, row, m.Right(j));
      && Linkable(t, j) && t[j].down != j && t[j].up != j && t[j].col != j
      && Relink(t, j) == UnlinkRow(m, s, row, j)
    ensures UnlinkRow(m, s, row, j)[j].left == m.Left(j)
  {
    UnlinkRowStep(m, s, x, row, j);
    UnlinkRowKeeps(m, s, x, row, j);
    var t := UnlinkRow(m, s, row, j);
    assert m.IsEntry(j) && j in x - RowPart(m, row, j);
    EntryLinkable(m, t, x - RowPart(m, row, j), j);
    UnlinkKeeps(m, t, x - RowPart(m, row, j), j);
  }

  lemma LeftRight(m: Matrix, row: int, j: int)
    requires m.Valid() && m.IsEntry(row) && (j == row || m.SameRow(row, j))
    ensures m.SameRow(row, j) && m.SameRow(row, m.Left(j)) && m.Right(m.Left(j)) == j
    ensures m.first[j] == m.first[row] && m.last[j] == m.last[row]
  {
    assert m.SameRow(row, j);
    assert m.SameRow(j, m.Left(j));
  }

  lemma EntryFields(m: Matrix, k: Links, j: int)
    requires Inv(m, k) && m.IsEntry(j)
    ensures 0 <= j < |k.s| && k.s[j].col == m.col[j] && k.s[j].right == m.Right(j) && k.s[j].left == m.Left(j)
  {
  }

  /** `right` skips no column that is still to be covered. */
  lemma HeaderGap(m: Matrix, k: Links, n: int)
    requires Inv(m, k) && OnHeaderRing(k.a, n)
    ensures 0 <= n < |k.s| && OnHeaderRing(k.a, k.s[n].right) && 0 <= k.s[n].right < |k.s|
    ensures k.s[n].right == 0 || n < k.s[n].right
    ensures forall y :: y in k.a ==> y <= n || (k.s[n].right != 0 && k.s[n].right <= y)
  {
    assert HeaderPlaced(k.s, k.a, n);
    forall y | y in k.a ensures OnHeaderRing(k.a, y) && y > 0 {}
  }

  lemma HeaderGapLeft(m: Matrix, k: Links)
    requires Inv(m, k)
    ensures 0 < |k.s| && (k.s[0].left == 0 <==> k.a == {})
  {
    assert HeaderPlaced(k.s, k.a, 0);
    HeaderGap(m, k, 0);
    if k.s[0].left == 0 {
      assert forall y :: y !in k.a;
    }
  }

  /** A row of the open columns `a`, one of which is already covered in `k`: its other columns can
      be covered too, and fewer columns are left. */
  ghost predicate Opened(m: Matrix, a: set<int>, k: Links, row: int) {
    && Inv(m, k) && RowOpen(m, k, row) && m.IsEntry(row)
    && Inv(m, CoverRow(m, k, row, row))
    && CoverRow(m, k, row, row).a == a - m.Cols(row)
    && |a - m.Cols(row)| < |a| && m.Cols(row) <= a
  }

  /** Opened, for those who ask to be shown it; it keeps the details out of the other proofs. */
  ghost predicate Ready(m: Matrix, a: set<int>, k: Links, row: int) {
    forall h: Links {:trigger Shown(h)} :: Shown(h) && h == k ==> Opened(m, a, h, row)
  }

  ghost predicate Shown(k: Links) {
    true
  }

  lemma OpenRow(m: Matrix, k: Links, c: int, row: int)
    requires Inv(m, k) && c in k.a && Visits(m, k.x, c, row)
    ensures Ready(m, k.a, Cover(m, k, c), row)
    ensures m.IsEntry(row) && m.Cols(row) <= k.a && |k.a - m.Cols(row)| < |k.a| && c in m.Cols(row)
  {
    CoverKeeps(m, k, c);
    var k1 := Cover(m, k, c);
    LeftRight(m, row, row);
    assert m.Cols(row) <= k.a && m.col[row] in m.Cols(row);
    forall j | m.SameRow(row, j) && j != row ensures m.col[j] in k1.a {
      RowFacts(m, row, j);
    }
    CoverRowKeeps(m, k1, row, row);
    assert k1.a - (m.Cols(row) - {c}) == k.a - m.Cols(row);
    SmallerSet(k.a, m.Cols(row), c);
  }

  lemma SmallerSet(a: set<int>, b: set<int>, c: int)
    requires c in a && c in b
    ensures |a - b| < |a|
  {
    assert a == (a - b) + (a * b) && (a - b) !! (a * b) && c in a * b;
  }

  lemma FirstRow(m: Matrix, k: Links, c: int)
    requires Inv(m, k) && c in k.a
    ensures var t := Cover(m, k, c).s; OnRing(m, k.x, c, t[c].down)
    ensures forall r :: Visits(m, k.x, c, r) ==> Before(m, c, Cover(m, k, c).s[c].down) <= r
  {
    CoverKeeps(m, k, c);
    var n := |m.col|;
    RingNeighbours(m, Cover(m, k, c).s, LeftBy(m, k.x, c, n), k.x, c, n, c);
  }

  lemma NextOpenRow(m: Matrix, k: Links, c: int, row: int)
    requires Inv(m, k) && c in k.a && Visits(m, k.x, c, row)
    ensures var t := Cover(m, k, c).s;
      && OnRing(m, k.x, c, t[row].down) && row < Before(m, c, t[row].down)
      && forall r :: Visits(m, k.x, c, r) && row < r ==> Before(m, c, t[row].down) <= r
  {
    CoverKeeps(m, k, c);
    var n := |m.col|;
    RingNeighbours(m, Cover(m, k, c).s, LeftBy(m, k.x, c, n), k.x, c, n, row);
  }

  /** Row `row` was pushed after `q` and the rest of the stack covers what it leaves. */
  lemma AddPick(m: Matrix, a: set<int>, row: int, q: seq<int>, st: seq<int>)
    requires m.Valid() && m.IsEntry(row) && m.Cols(row) <= a && q + [row] <= st
    requires IsExactCover(m.Rows(), a - m.Cols(row), Elements(st[|q| + 1..]))
    ensures q <= st && IsExactCover(m.Rows(), a, Elements(st[|q|..])) && Coverable(m.Rows(), a)
  {
    TailSplit(q, row, st);
    var rest := st[|q| + 1..];
    RowFacts(m, row, row);
    AddRow(m.Rows(), a, Elements(rest), row);
    assert Elements([row] + rest) == Elements(rest) + {row} by {
      forall i | 0 <= i < |rest| ensures ([row] + rest)[i + 1] == rest[i] {}
      assert ([row] + rest)[0] == row;
    }
  }

  /** When every row through `c` fails, there is no exact cover. */
  lemma NoRowLeft(m: Matrix, k: Links, c: int)
    requires Inv(m, k) && c in k.a
    requires forall r :: Visits(m, k.x, c, r) ==> !Coverable(m.Rows(), k.a - m.Cols(r))
    ensures !Coverable(m.Rows(), k.a)
  {
    if Coverable(m.Rows(), k.a) {
      var n := PickRow(m.Rows(), k.a, c);
      var r :| 0 <= r < |m.col| && m.SameRow(n, r) && m.col[r] == c;
      RowFacts(m, n, r);
      assert Visits(m, k.x, c, r);
    }
  }

  lemma TailSplit(q: seq<int>, row: int, st: seq<int>)
    requires q + [row] <= st
    ensures q <= st && st[|q|..] == [row] + st[|q| + 1..]
  {
    assert st[|q|] == (q + [row])[|q|] == row;
    assert q == (q + [row])[..|q|];
  }

  lemma SomeColumn(m: Matrix, k: Links)
    requires Inv(m, k) && 0 < |k.s| && k.s[0].left != 0
    ensures exists y :: y in k.a && y > 0
  {
    assert HeaderPlaced(k.s, k.a, 0);
    assert m.IsHeader(k.s[0].left);
  }

  /** The columns of a candidate are four columns of the puzzle. */
  lemma CandidateNames(g: seq<int>, i: int, v: int)
    requires |g| == CELLS && Candidate(g, i, v)
    ensures Needed(g, i) && forall k :: Needed(g, NameOf(k, UnitOf(k, i), v))
  {
    forall k ensures Needed(g, NameOf(k, UnitOf(k, i), v)) {
      UnitCell(k, i);
    }
  }

  lemma ColumnsDistinct(m: Matrix, columns: seq<int>, added: set<int>, name: seq<int>)
    requires IndexOk(m, columns, added) && forall k :: 0 <= k < |name| ==> name[k] in added
    requires forall j, k :: 0 <= j < k < |name| ==> name[j] != name[k]
    ensures forall j, k :: 0 <= j < k < |name| ==> columns[name[j]] != columns[name[k]]
    ensures forall k :: 0 <= k < |name| ==> m.IsHeader(columns[name[k]])
  {
  }

  lemma LooseLinks(s: seq<Node>, f: int, c: seq<int>, name: seq<int>)
    requires 0 <= f
    requires |c| == 4 == |name| && forall k {:trigger c[k]} :: 0 <= k < 4 ==> Loose(s, f + k, c[k], name[k])
    ensures f + 4 <= |s| && s[f].left == f
    ensures PutLeft(s, f, f + 1)[f].left == f + 1
    ensures PutLeft(PutLeft(s, f, f + 1), f, f + 2)[f].left == f + 2
  {
    assert Loose(s, f, c[0], name[0]) && Loose(s, f + 3, c[3], name[3]);
  }

  /** A new row for a candidate keeps the meaning of the matrix and of the column index. */
  lemma RowEncodes(m: Matrix, columns: seq<int>, g: seq<int>, added: set<int>, i: int, v: int)
    requires m.Valid() && |g| == CELLS && IndexOk(m, columns, added) && Candidate(g, i, v)
    requires forall n {:trigger RowOk(m, g, n)} :: m.IsEntry(n) ==> RowOk(m, g, n)
    requires forall x {:trigger Needed(g, x)} :: Needed(g, x) ==> x in added
    ensures var name := [i, NameOf(RowUnit, UnitOf(RowUnit, i), v), NameOf(ColUnit, UnitOf(ColUnit, i), v),
                         NameOf(BoxUnit, UnitOf(BoxUnit, i), v)];
      (forall k :: 0 <= k < 4 ==> 0 <= name[k] < 400) &&
      var m' := WithRow(m, ColumnsOf(columns, name), name);
      m'.Valid() ==>
        && IndexOk(m', columns, added) && (forall n {:trigger RowOk(m', g, n)} :: m'.IsEntry(n) ==> RowOk(m', g, n))
        && HasRow(m', i, v) && forall j, w :: HasRow(m, j, w) ==> HasRow(m', j, w)
  {
    CandidateNames(g, i, v);
    var name := [i, NameOf(RowUnit, UnitOf(RowUnit, i), v), NameOf(ColUnit, UnitOf(ColUnit, i), v),
                 NameOf(BoxUnit, UnitOf(BoxUnit, i), v)];
    assert forall k :: 0 <= k < 4 ==> name[k] in added;
    var c := ColumnsOf(columns, name);
    var m' := WithRow(m, c, name);
    if m'.Valid() {
      forall d | m'.IsHeader(d) ensures Indexed(m', columns, d) {
        assert m.IsHeader(d) && Indexed(m, columns, d);
      }
      forall n | m'.IsEntry(n) ensures RowOk(m', g, n) {
        if n < |m.col| {
          assert m.IsEntry(n) && RowOk(m, g, n);
          RowOkGrows(m, m', g, n);
        } else {
          NewRowOk(m, m', columns, g, c, name, i, v, n);
        }
      }
      assert RowFor(m', |m.col|, i, v) && m'.IsEntry(|m.col|);
      forall j, w | HasRow(m, j, w) ensures HasRow(m', j, w) {
        var n :| m.IsEntry(n) && n < |m.first| && n == m.first[n] && RowFor(m, n, j, w);
        assert m'.IsEntry(n) && RowFor(m', n, j, w);
      }
    }
  }

  lemma RowOkGrows(m: Matrix, m': Matrix, g: seq<int>, n: int)
    requires RowOk(m, g, n) && m'.Valid() && m'.ncols == m.ncols
    requires m.col <= m'.col && m.first <= m'.first && m.last <= m'.last && m.name <= m'.name
    ensures RowOk(m', g, n)
  {
  }

  lemma NewRowOk(m: Matrix, m': Matrix, columns: seq<int>, g: seq<int>, c: seq<int>, name: seq<int>,
                 i: int, v: int, n: int)
    requires m.Valid() && |c| == 4 == |name| && m' == WithRow(m, c, name) && m'.Valid()
    requires Candidate(g, i, v) && |m.col| <= n < |m.col| + 4
    requires RowFor(m', |m.col|, i, v)
    requires forall k :: 0 <= k < 4 ==> m.IsHeader(c[k]) && m.name[c[k]] == name[k]
    ensures RowOk(m', g, n)
  {
    var f := |m.col|;
    RowNames(m', f, i, v, f + 3);
    assert m'.name[f] == name[0] == i;
    assert m'.name[n] == name[n - f] && m'.col[n] == c[n - f];
  }

  lemma OccursAll(g: seq<int>, u: int, v: int)
    requires |g| == CELLS
    ensures forall k :: OccursBefore(g, k, u, v, CELLS) <==> Occurs(g, k, u, v)
  {
  }

  /** The columns for (`i`, `v`) are neither cells nor named before. */
  lemma NamesAhead(g: seq<int>, i: int, v: int)
    requires 0 <= i < 9 && 1 <= v <= 9
    ensures forall k :: !CellBefore(g, NameOf(k, i, v), 81) && !UnitBefore(g, NameOf(k, i, v), i, v)
  {
    forall k ensures !UnitBefore(g, NameOf(k, i, v), i, v) {
      forall k', u, w | 0 <= u < 9 && 1 <= w <= 9 && NameOf(k, i, v) == NameOf(k', u, w) ensures u == i && w == v {
        NameOfUnique(k, i, v, k', u, w);
      }
    }
  }

  lemma UnitsEnd(g: seq<int>, i: int)
    ensures forall x :: UnitBefore(g, x, i, 10) <==> UnitBefore(g, x, i + 1, 1)
  {
  }

  lemma UnitStep(g: seq<int>, x: int, i: int, v: int)
    requires 0 <= i < 9 && 1 <= v <= 9
    ensures UnitBefore(g, x, i, v + 1) <==>
      UnitBefore(g, x, i, v) || exists k :: x == NameOf(k, i, v) && !Occurs(g, k, i, v)
  {
    if k :| x == NameOf(k, i, v) && !Occurs(g, k, i, v) {
      assert UnitBefore(g, x, i, v + 1);
    }
  }

  lemma AllNeeded(g: seq<int>)
    requires |g| == CELLS
    ensures forall x :: Needed(g, x) <==> CellBefore(g, x, 81) || UnitBefore(g, x, 9, 1)
  {
  }

  lemma FreeFlags(g: seq<int>, i: int, v: int)
    requires |g| == CELLS && IsCell(i)
    ensures forall k :: 0 <= UnitOf(k, i) < 9
    ensures Free(g, i, v) <==>
      && !OccursBefore(g, RowUnit, UnitOf(RowUnit, i), v, CELLS)
      && !OccursBefore(g, ColUnit, UnitOf(ColUnit, i), v, CELLS)
      && !OccursBefore(g, BoxUnit, UnitOf(BoxUnit, i), v, CELLS)
  {
    forall k ensures 0 <= UnitOf(k, i) < 9 {
      UnitCell(k, i);
    }
    forall k ensures OccursBefore(g, k, UnitOf(k, i), v, CELLS) <==> Occurs(g, k, UnitOf(k, i), v) {
      OccursAll(g, UnitOf(k, i), v);
    }
  }

  lemma RootOnly(s: seq<Node>)
    requires 0 < |s| && s[0] == Lone(0, 0, 0)
    ensures HeaderPhase(Matrix(0, [0], [0], [0], [0]), s)
  {
    var m := Matrix(0, [0], [0], [0], [0]);
    assert m.Valid();
    assert m.Headers() == {};
    assert HeaderPlaced(s, {}, 0);
  }

  /** The finished matrix is the puzzle's, and the links represent all of it. */
  lemma BuiltEncodes(m: Matrix, columns: seq<int>, g: seq<int>, added: set<int>)
    requires m.Valid() && |g| == CELLS && IndexOk(m, columns, added)
    requires forall x :: x in added <==> Needed(g, x)
    requires forall n {:trigger RowOk(m, g, n)} :: m.IsEntry(n) ==> RowOk(m, g, n)
    requires forall j, w :: Candidate(g, j, w) ==> HasRow(m, j, w)
    ensures Encodes(m, g)
    ensures forall n {:trigger m.Cols(n)} :: m.IsEntry(n) ==> m.Cols(n) <= m.Headers()
  {
    forall c | m.IsHeader(c) ensures HeaderOk(m, g, c) {
      assert Indexed(m, columns, c);
    }
    forall c, d | m.IsHeader(c) && m.IsHeader(d) && SameName(m, c, d) ensures c == d {
      assert Indexed(m, columns, c) && Indexed(m, columns, d);
    }
    forall x | Needed(g, x) ensures HasColumn(m, x) {
      assert m.IsHeader(columns[x]);
    }
    forall n | m.IsEntry(n) ensures m.Cols(n) <= m.Headers() {
      forall c | c in m.Cols(n) ensures c in m.Headers() {
        var k :| 0 <= k < |m.col| && m.SameRow(n, k) && m.col[k] == c;
        RowFacts(m, n, k);
      }
    }
  }

  const NO_SOLUTION := "NoSolution"

  /** The board that a puzzle string describes. */
  function Digits81(puzzle: string): (g: seq<int>)
    ensures |g| == |puzzle|
  {
    seq(|puzzle|, i requires 0 <= i < |puzzle| => puzzle[i] as int - '0' as int)
  }

  /** Solves a puzzle of 81 digits, 0 for an empty cell.  The answer is a solution that keeps
      the givens, and `NO_SOLUTION` is returned only when there is none or the text is not a
      board. */
  method SolveSudoku(puzzle: string) returns (result: string)
    requires |puzzle| == CELLS
    ensures result == NO_SOLUTION <==> !IsPuzzle(Digits81(puzzle)) || !exists b :: Solves(Digits81(puzzle), b)
    ensures result != NO_SOLUTION ==> |result| == CELLS && Solves(Digits81(puzzle), Digits81(result))
  {
    result := NO_SOLUTION;
    var board := new int[81](_ => 0);
    var valid := true;
    var i := 0;
    while i < 81
      invariant 0 <= i <= 81
      invariant forall k :: 0 <= k < i ==> board[k] == Digits81(puzzle)[k]
      invariant valid <==> forall k :: 0 <= k < i ==> 0 <= board[k] <= 9
    {
      board[i] := puzzle[i] as int - '0' as int;
      valid := valid && 0 <= board[i] <= 9;
      i := i + 1;
    }
    ghost var g := Digits81(puzzle);
    assert board[..] == g;
    if valid {
      var s := new SudokuSolver(board);
      EncodesNames(s.m, g);
      CoverableIffSolvable(s.m, g);
      assert s.stack == [];
      var found := s.Solve(Links(s.nodes[..], s.m.Headers(), s.m.Entries()));
      if found {
        assert s.stack[0..] == s.stack;
        CoverSolves(s.m, g, s.stack);
        result := BoardText(board);
      }
    }
  }

  method BoardText(board: array<int>) returns (text: string)
    requires board.Length == CELLS && forall k :: 0 <= k < CELLS ==> 0 <= board[k] <= 9
    ensures |text| == CELLS && Digits81(text) == board[..] && text != NO_SOLUTION
  {
    text := "";
    var i := 0;
    while i < 81
      invariant 0 <= i <= 81 && |text| == i
      invariant forall k :: 0 <= k < i ==> text[k] as int - '0' as int == board[k]
    {
      text := text + [(board[i] + '0' as int) as char];
      i := i + 1;
    }
  }
}
