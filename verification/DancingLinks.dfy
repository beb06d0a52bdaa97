/** The toroidal link structure of the sudoku solver: nodes in one array, linked left and
    right into rows and up and down into columns.  This file gives the meaning of each link
    operation as a function on the node sequence and proves what covering a column keeps. */
module DancingLinks {
  import opened ExactCover

  /** A node or column header.  Links are indices into the node array. */
  datatype Node = Node(left: int, right: int, up: int, down: int, col: int, name: int, size: int)

  /** Node ids follow the order of allocation: 0 is the root, 1..ncols are the column
      headers, and every later id is a matrix entry.  Entry `n` sits in column `col[n]`,
      and its row is the interval `first[n]..last[n]` of ids. */
  datatype Matrix = Matrix(ncols: nat, col: seq<int>, first: seq<int>, last: seq<int>, name: seq<int>)
  {
    predicate IsHeader(n: int) {
      1 <= n <= ncols
    }

    predicate IsEntry(n: int) {
      ncols < n < |col|
    }

    predicate InColumn(n: int, c: int) {
      IsEntry(n) && col[n] == c
    }

    predicate SameRow(n: int, k: int) {
      IsEntry(n) && n < |first| && n < |last| && first[n] <= k <= last[n]
    }

    ghost predicate Valid() {
      && |first| == |last| == |name| == |col|
      && ncols < |col|
      && (forall n {:trigger IsEntry(n)} :: IsEntry(n) ==>
            IsHeader(col[n]) && ncols < first[n] <= n <= last[n] < |col|)
      && (forall n, k {:trigger SameRow(n, k)} :: SameRow(n, k) ==>
            first[k] == first[n] && last[k] == last[n] && (k != n ==> col[k] != col[n]))
    }

    /** The next entry of the row, cyclically. */
    function Right(n: int): int
      requires 0 <= n < |first| && n < |last|
    {
      if n == last[n] then first[n] else n + 1
    }

    function Left(n: int): int
      requires 0 <= n < |first| && n < |last|
    {
      if n == first[n] then last[n] else n - 1
    }

    /** The columns that the row of entry `n` covers. */
    ghost function Cols(n: int): set<int> {
      set k | 0 <= k < |col| && SameRow(n, k) :: col[k]
    }

    ghost function Headers(): set<int> {
      set c | 1 <= c <= ncols && IsHeader(c)
    }

    ghost function Entries(): set<int> {
      set n | ncols < n < |col| && IsEntry(n)
    }

    /** The rows as an exact cover instance; a row is named by any of its entries. */
    ghost function Rows(): Rows {
      map n | ncols < n < |col| :: Cols(n)
    }
  }

  lemma RowFacts(m: Matrix, n: int, k: int)
    requires m.Valid() && m.SameRow(n, k)
    ensures m.IsEntry(k) && m.SameRow(k, n) && m.Cols(k) == m.Cols(n) && m.col[k] in m.Cols(n)
  {
    forall j ensures m.SameRow(n, j) == m.SameRow(k, j) {}
  }

  // ------------------------------------------------------------ link operations

  predicate Linkable(s: seq<Node>, j: int) {
    0 <= j < |s| && 0 <= s[j].down < |s| && 0 <= s[j].up < |s| && 0 <= s[j].col < |s|
  }

  /** Takes entry `j` out of its column. */
  function Unlink(s: seq<Node>, j: int): (t: seq<Node>)
    ensures |t| == |s|
  {
    if !Linkable(s, j) then s else
    var d, u, c := s[j].down, s[j].up, s[j].col;
    var s1 := s[d := s[d].(up := u)];
    var s2 := s1[u := s1[u].(down := d)];
    s2[c := s2[c].(size := s2[c].size - 1)]
  }

  /** Puts entry `j` back where its own links still point. */
  function Relink(s: seq<Node>, j: int): (t: seq<Node>)
    ensures |t| == |s|
  {
    if !Linkable(s, j) then s else
    var d, u, c := s[j].down, s[j].up, s[j].col;
    var s1 := s[c := s[c].(size := s[c].size + 1)];
    var s2 := s1[d := s1[d].(up := j)];
    s2[u := s2[u].(down := j)]
  }

  predicate HeaderLinkable(s: seq<Node>, c: int) {
    0 <= c < |s| && 0 <= s[c].right < |s| && 0 <= s[c].left < |s|
  }

  function UnlinkHeader(s: seq<Node>, c: int): (t: seq<Node>)
    ensures |t| == |s|
  {
    if !HeaderLinkable(s, c) then s else
    var r, l := s[c].right, s[c].left;
    var s1 := s[r := s[r].(left := l)];
    s1[l := s1[l].(right := r)]
  }

  function RelinkHeader(s: seq<Node>, c: int): (t: seq<Node>)
    ensures |t| == |s|
  {
    if !HeaderLinkable(s, c) then s else
    var r, l := s[c].right, s[c].left;
    var s1 := s[r := s[r].(left := c)];
    s1[l := s1[l].(right := c)]
  }

  // ------------------------------------------------------------------ columns

  /** `n` is the header of column `c` or an entry of it that is in `x`. */
  ghost predicate OnRing(m: Matrix, x: set<int>, c: int, n: int) {
    n == c || (n in x && m.InColumn(n, c))
  }

  /** Header or entry `n` is linked between its neighbours among the entries of `x`: its
      lower neighbour is the next id of the column, or the header after the last one. */
  ghost predicate Placed(m: Matrix, s: seq<Node>, x: set<int>, c: int, n: int) {
    && 0 <= n < |s|
    && 0 <= s[n].down < |s| && 0 <= s[n].up < |s|
    && OnRing(m, x, c, s[n].down) && OnRing(m, x, c, s[n].up)
    && s[s[n].down].up == n && s[s[n].up].down == n
    && (if s[n].down == c then forall y :: OnRing(m, x, c, y) ==> y <= n
        else n < s[n].down && forall y :: OnRing(m, x, c, y) ==> y <= n || s[n].down <= y)
  }

  /** The entries of column `c` that are in `x`. */
  ghost function Column(m: Matrix, x: set<int>, c: int): set<int> {
    set n | n in x && m.InColumn(n, c)
  }

  ghost predicate ColumnOk(m: Matrix, s: seq<Node>, x: set<int>, c: int) {
    && 0 <= c < |s|
    && s[c].size == |Column(m, x, c)|
    && (forall n {:trigger Placed(m, s, x, c, n)} :: OnRing(m, x, c, n) ==> Placed(m, s, x, c, n))
  }

  /** The columns are linked rings of exactly the entries in `x`. */
  ghost predicate ColumnsOk(m: Matrix, s: seq<Node>, x: set<int>) {
    && (forall n :: n in x ==> m.IsEntry(n))
    && (forall c {:trigger ColumnOk(m, s, x, c)} :: m.IsHeader(c) ==> ColumnOk(m, s, x, c))
  }

  /** The fields that never change while solving. */
  ghost predicate Shape(m: Matrix, s: seq<Node>) {
    && m.Valid() && |m.col| <= |s|
    && (forall n {:trigger m.IsEntry(n)} :: m.IsEntry(n) ==>
          && s[n].col == m.col[n] && s[n].name == m.name[n]
          && s[n].right == m.Right(n) && s[n].left == m.Left(n))
  }

  lemma UnlinkOther(m: Matrix, s: seq<Node>, x: set<int>, j: int, c: int)
    requires j in x && m.IsEntry(j) && 0 <= j < |s| && s[j].col == m.col[j]
    requires m.IsHeader(m.col[j]) && m.IsHeader(c) && c != m.col[j]
    requires ColumnOk(m, s, x, m.col[j]) && ColumnOk(m, s, x, c)
    ensures ColumnOk(m, Unlink(s, j), x - {j}, c)
  {
    assert Placed(m, s, x, m.col[j], j);
    var t, z := Unlink(s, j), x - {j};
    assert Column(m, z, c) == Column(m, x, c);
    forall n | OnRing(m, z, c, n) ensures Placed(m, t, z, c, n) {
      assert Placed(m, s, x, c, n);
      forall y ensures OnRing(m, z, c, y) == OnRing(m, x, c, y) {}
    }
  }

  lemma UnlinkOwnRing(m: Matrix, s: seq<Node>, x: set<int>, j: int, n: int)
    requires j in x && m.IsEntry(j) && 0 <= j < |s| && s[j].col == m.col[j] && n != j
    requires m.IsHeader(m.col[j])
    requires ColumnOk(m, s, x, m.col[j]) && OnRing(m, x, m.col[j], n)
    ensures Placed(m, Unlink(s, j), x - {j}, m.col[j], n)
  {
    var c := m.col[j];
    assert Placed(m, s, x, c, j);
    assert Placed(m, s, x, c, n);
    assert Placed(m, s, x, c, s[j].up);
    assert Placed(m, s, x, c, s[j].down);
    forall y ensures OnRing(m, x - {j}, c, y) ==> y != j && OnRing(m, x, c, y) {}
  }

  lemma UnlinkOwn(m: Matrix, s: seq<Node>, x: set<int>, j: int)
    requires j in x && m.IsEntry(j) && 0 <= j < |s| && s[j].col == m.col[j]
    requires m.IsHeader(m.col[j])
    requires ColumnOk(m, s, x, m.col[j])
    ensures ColumnOk(m, Unlink(s, j), x - {j}, m.col[j])
  {
    var c := m.col[j];
    assert Placed(m, s, x, c, j);
    var t, z := Unlink(s, j), x - {j};
    assert Column(m, x, c) == Column(m, z, c) + {j};
    forall n | OnRing(m, z, c, n) ensures Placed(m, t, z, c, n) {
      UnlinkOwnRing(m, s, x, j, n);
    }
  }

  /** The nodes agree on everything a vertical link operation leaves alone. */
  ghost predicate SameRows(s: seq<Node>, t: seq<Node>) {
    && |s| == |t|
    && forall n {:trigger t[n]} :: 0 <= n < |s| ==>
         t[n].left == s[n].left && t[n].right == s[n].right && t[n].col == s[n].col && t[n].name == s[n].name
  }

  lemma UnlinkColumns(m: Matrix, s: seq<Node>, x: set<int>, j: int)
    requires Shape(m, s) && ColumnsOk(m, s, x) && j in x
    ensures ColumnsOk(m, Unlink(s, j), x - {j})
  {
    assert m.IsEntry(j) && ColumnOk(m, s, x, m.col[j]);
    forall c | m.IsHeader(c) ensures ColumnOk(m, Unlink(s, j), x - {j}, c) {
      assert ColumnOk(m, s, x, c);
      if c == m.col[j] {
        UnlinkOwn(m, s, x, j);
      } else {
        UnlinkOther(m, s, x, j, c);
      }
    }
  }

  /** Taking out a linked entry keeps every column a ring of what is left, and putting the
      entry back restores every field of every node. */
  lemma UnlinkKeeps(m: Matrix, s: seq<Node>, x: set<int>, j: int)
    requires Shape(m, s) && ColumnsOk(m, s, x) && j in x
    ensures ColumnsOk(m, Unlink(s, j), x - {j}) && Shape(m, Unlink(s, j)) && SameRows(s, Unlink(s, j))
    ensures Relink(Unlink(s, j), j) == s && Unlink(s, j)[j] == s[j]
  {
    UnlinkColumns(m, s, x, j);
    assert m.IsEntry(j) && ColumnOk(m, s, x, m.col[j]);
    assert Placed(m, s, x, m.col[j], j);
  }

  // ----------------------------------------------------------- spans of entries

  ghost function Span(m: Matrix, a: int, b: int): set<int> {
    set k | m.ncols < k < |m.col| && m.IsEntry(k) && a <= k < b
  }

  /** Takes out the entries from `a` up to but not including `b`, in order. */
  ghost function UnlinkSpan(s: seq<Node>, a: int, b: int): (t: seq<Node>)
    ensures |t| == |s|
    decreases b - a
  {
    if b <= a then s else Unlink(UnlinkSpan(s, a, b - 1), b - 1)
  }

  lemma {:induction false} UnlinkSpanKeeps(m: Matrix, s: seq<Node>, x: set<int>, a: int, b: int)
    requires Shape(m, s) && ColumnsOk(m, s, x)
    requires forall k :: a <= k < b ==> k in x
    ensures ColumnsOk(m, UnlinkSpan(s, a, b), x - Span(m, a, b))
    ensures Shape(m, UnlinkSpan(s, a, b)) && SameRows(s, UnlinkSpan(s, a, b))
    ensures a < b ==> Relink(UnlinkSpan(s, a, b), b - 1) == UnlinkSpan(s, a, b - 1)
    decreases b - a
  {
    if b <= a {
      assert x - Span(m, a, b) == x;
    } else {
      UnlinkSpanKeeps(m, s, x, a, b - 1);
      assert b - 1 in x - Span(m, a, b - 1);
      UnlinkKeeps(m, UnlinkSpan(s, a, b - 1), x - Span(m, a, b - 1), b - 1);
      assert x - Span(m, a, b - 1) - {b - 1} == x - Span(m, a, b);
    }
  }

  // ------------------------------------------------------- the rest of one row

  /** The entries of row `r`'s row that come before `j` when walking right from `r`. */
  ghost function RowPart(m: Matrix, r: int, j: int): set<int>
    requires m.IsEntry(r) && r < |m.first| && r < |m.last|
  {
    if j > r then Span(m, r + 1, j) else Span(m, r + 1, m.last[r] + 1) + Span(m, m.first[r], j)
  }

  /** The nodes when the walk right from `r`, taking out each entry, has reached `j`. */
  ghost function UnlinkRow(m: Matrix, s: seq<Node>, r: int, j: int): (t: seq<Node>)
    requires m.IsEntry(r) && r < |m.first| && r < |m.last|
    ensures |t| == |s|
  {
    if j > r then UnlinkSpan(s, r + 1, j)
    else UnlinkSpan(UnlinkSpan(s, r + 1, m.last[r] + 1), m.first[r], j)
  }

  /** Every other entry of the row of `r` is in `x`. */
  ghost predicate RowIn(m: Matrix, x: set<int>, r: int) {
    forall k {:trigger m.SameRow(r, k)} :: m.SameRow(r, k) ==> k in x
  }

  lemma RowInSpan(m: Matrix, x: set<int>, r: int, a: int, b: int)
    requires m.Valid() && m.IsEntry(r) && RowIn(m, x, r) && m.first[r] <= a && b <= m.last[r] + 1
    ensures forall k :: a <= k < b ==> k in x
  {
    forall k | a <= k < b ensures k in x {
      assert m.SameRow(r, k);
    }
  }

  /** The walk along a row keeps the columns rings. */
  lemma UnlinkRowKeeps(m: Matrix, s: seq<Node>, x: set<int>, r: int, j: int)
    requires Shape(m, s) && ColumnsOk(m, s, x) && m.IsEntry(r) && RowIn(m, x, r)
    requires m.SameRow(r, j)
    ensures ColumnsOk(m, UnlinkRow(m, s, r, j), x - RowPart(m, r, j))
    ensures Shape(m, UnlinkRow(m, s, r, j)) && SameRows(s, UnlinkRow(m, s, r, j))
  {
    var f, l := m.first[r], m.last[r];
    if j > r {
      RowInSpan(m, x, r, r + 1, j);
      UnlinkSpanKeeps(m, s, x, r + 1, j);
    } else {
      RowInSpan(m, x, r, r + 1, l + 1);
      RowInSpan(m, x, r, f, j);
      UnlinkSpanKeeps(m, s, x, r + 1, l + 1);
      var s1, x1 := UnlinkSpan(s, r + 1, l + 1), x - Span(m, r + 1, l + 1);
      UnlinkSpanKeeps(m, s1, x1, f, j);
      assert x1 - Span(m, f, j) == x - RowPart(m, r, j);
    }
  }

  /** One step of the walk along a row, forwards and backwards. */
  lemma UnlinkRowStep(m: Matrix, s: seq<Node>, x: set<int>, r: int, j: int)
    requires Shape(m, s) && ColumnsOk(m, s, x) && m.IsEntry(r) && RowIn(m, x, r)
    requires m.SameRow(r, j) && j != r
    ensures UnlinkRow(m, s, r, m.Right(j)) == Unlink(UnlinkRow(m, s, r, j), j)
    ensures Relink(UnlinkRow(m, s, r, m.Right(j)), j) == UnlinkRow(m, s, r, j)
  {
    UnlinkRowKeeps(m, s, x, r, j);
    var t := UnlinkRow(m, s, r, j);
    assert j in x - RowPart(m, r, j);
    UnlinkKeeps(m, t, x - RowPart(m, r, j), j);
    UnlinkRowNext(m, s, r, j);
  }

  lemma UnlinkRowNext(m: Matrix, s: seq<Node>, r: int, j: int)
    requires m.Valid() && m.SameRow(r, j)
    ensures UnlinkRow(m, s, r, m.Right(r)) == s
    ensures j != r ==> UnlinkRow(m, s, r, m.Right(j)) == Unlink(UnlinkRow(m, s, r, j), j)
  {
  }

  // ------------------------------------------------- the rows of one column

  /** Entry `r` is one of the column's entries in `x`, so covering the column visits it. */
  ghost predicate Visits(m: Matrix, x: set<int>, c: int, r: int) {
    r in x && m.InColumn(r, c) && r < |m.first| && r < |m.last|
  }

  /** The linked entries once the rows of column `c` with ids below `n` are out. */
  ghost function LeftBy(m: Matrix, x: set<int>, c: int, n: int): (z: set<int>)
    ensures z <= x
    decreases n
  {
    if n <= m.ncols + 1 then x
    else if Visits(m, x, c, n - 1) then LeftBy(m, x, c, n - 1) - RowPart(m, n - 1, n - 1)
    else LeftBy(m, x, c, n - 1)
  }

  /** The nodes once the rows of column `c` with ids below `n` are out. */
  ghost function CoverRows(m: Matrix, s: seq<Node>, x: set<int>, c: int, n: int): (t: seq<Node>)
    ensures |t| == |s|
    decreases n
  {
    if n <= m.ncols + 1 then s
    else if Visits(m, x, c, n - 1) then UnlinkRow(m, CoverRows(m, s, x, c, n - 1), n - 1, n - 1)
    else CoverRows(m, s, x, c, n - 1)
  }

  /** Every row that column `c` visits is wholly linked. */
  ghost predicate RowsIn(m: Matrix, x: set<int>, c: int) {
    forall r {:trigger Visits(m, x, c, r)} :: Visits(m, x, c, r) ==> RowIn(m, x, r)
  }

  /** What covering takes out: the entries that share a row with an earlier entry of `c`. */
  lemma {:induction false} LeftByIs(m: Matrix, x: set<int>, c: int, n: int, k: int)
    requires m.Valid() && n <= |m.col|
    ensures k in LeftBy(m, x, c, n) <==>
      k in x && forall r {:trigger m.SameRow(r, k)} :: Visits(m, x, c, r) && r < n && m.SameRow(r, k) ==> r == k
    decreases n
  {
    if n > m.ncols + 1 {
      LeftByIs(m, x, c, n - 1, k);
      var r := n - 1;
      if Visits(m, x, c, r) {
        assert k in RowPart(m, r, r) <==> m.SameRow(r, k) && k != r;
      }
    }
  }

  /** A row not yet visited is still wholly linked, and the column itself is untouched. */
  lemma LeftByRow(m: Matrix, x: set<int>, c: int, r: int)
    requires m.Valid() && RowsIn(m, x, c) && Visits(m, x, c, r)
    ensures RowIn(m, LeftBy(m, x, c, r), r)
  {
    forall k | m.SameRow(r, k) ensures k in LeftBy(m, x, c, r) {
      LeftByIs(m, x, c, r, k);
      forall q | Visits(m, x, c, q) && q < r && m.SameRow(q, k) ensures q == k {
        RowFacts(m, r, k);
        RowFacts(m, q, k);
        assert m.SameRow(r, q);
      }
    }
  }

  lemma LeftByOwn(m: Matrix, x: set<int>, c: int, n: int, y: int)
    requires m.Valid() && n <= |m.col|
    ensures OnRing(m, LeftBy(m, x, c, n), c, y) == OnRing(m, x, c, y)
  {
    if y in x && m.InColumn(y, c) {
      LeftByIs(m, x, c, n, y);
      assert forall r :: m.SameRow(r, y) && Visits(m, x, c, r) ==> r == y;
    }
  }

  lemma {:induction false} CoverRowsKeeps(m: Matrix, s: seq<Node>, x: set<int>, c: int, n: int)
    requires Shape(m, s) && ColumnsOk(m, s, x) && RowsIn(m, x, c) && n <= |m.col|
    ensures ColumnsOk(m, CoverRows(m, s, x, c, n), LeftBy(m, x, c, n))
    ensures Shape(m, CoverRows(m, s, x, c, n)) && SameRows(s, CoverRows(m, s, x, c, n))
    decreases n
  {
    if n > m.ncols + 1 {
      CoverRowsKeeps(m, s, x, c, n - 1);
      if Visits(m, x, c, n - 1) {
        LeftByRow(m, x, c, n - 1);
        assert m.SameRow(n - 1, n - 1);
        UnlinkRowKeeps(m, CoverRows(m, s, x, c, n - 1), LeftBy(m, x, c, n - 1), n - 1, n - 1);
      }
    }
  }

  /** Ids that the column does not visit change nothing. */
  lemma {:induction false} CoverRowsSkip(m: Matrix, s: seq<Node>, x: set<int>, c: int, lo: int, hi: int)
    requires lo <= hi && forall r :: lo <= r < hi ==> !Visits(m, x, c, r)
    ensures CoverRows(m, s, x, c, hi) == CoverRows(m, s, x, c, lo)
    ensures LeftBy(m, x, c, hi) == LeftBy(m, x, c, lo)
    decreases hi - lo
  {
    if lo < hi {
      CoverRowsSkip(m, s, x, c, lo, hi - 1);
    }
  }

  // ------------------------------------------------------------- header ring

  ghost predicate OnHeaderRing(a: set<int>, n: int) {
    n == 0 || n in a
  }

  ghost predicate HeaderPlaced(s: seq<Node>, a: set<int>, n: int) {
    && 0 <= n < |s|
    && 0 <= s[n].right < |s| && 0 <= s[n].left < |s|
    && OnHeaderRing(a, s[n].right) && OnHeaderRing(a, s[n].left)
    && s[s[n].right].left == n && s[s[n].left].right == n
    && (if s[n].right == 0 then forall y :: OnHeaderRing(a, y) ==> y <= n
        else n < s[n].right && forall y :: OnHeaderRing(a, y) ==> y <= n || s[n].right <= y)
  }

  /** The root and the headers in `a` form a ring in id order. */
  ghost predicate HeadersOk(m: Matrix, s: seq<Node>, a: set<int>) {
    && (forall c :: c in a ==> m.IsHeader(c))
    && (forall n {:trigger HeaderPlaced(s, a, n)} :: OnHeaderRing(a, n) ==> HeaderPlaced(s, a, n))
  }

  /** The nodes agree on everything but left and right. */
  ghost predicate SameColumns(s: seq<Node>, t: seq<Node>) {
    && |s| == |t|
    && forall n {:trigger t[n]} :: 0 <= n < |s| ==>
         t[n].up == s[n].up && t[n].down == s[n].down && t[n].col == s[n].col
         && t[n].name == s[n].name && t[n].size == s[n].size
  }

  lemma UnlinkHeaderKeeps(m: Matrix, s: seq<Node>, a: set<int>, c: int)
    requires Shape(m, s) && HeadersOk(m, s, a) && c in a
    ensures HeadersOk(m, UnlinkHeader(s, c), a - {c}) && Shape(m, UnlinkHeader(s, c))
    ensures SameColumns(s, UnlinkHeader(s, c))
    ensures RelinkHeader(UnlinkHeader(s, c), c) == s
  {
    UnlinkHeaderRing(m, s, a, c);
    assert HeaderPlaced(s, a, c);
  }

  lemma UnlinkHeaderRing(m: Matrix, s: seq<Node>, a: set<int>, c: int)
    requires HeadersOk(m, s, a) && c in a
    ensures HeadersOk(m, UnlinkHeader(s, c), a - {c})
  {
    assert HeaderPlaced(s, a, c);
    assert HeaderPlaced(s, a, s[c].left);
    assert HeaderPlaced(s, a, s[c].right);
    var t, b := UnlinkHeader(s, c), a - {c};
    forall n | OnHeaderRing(b, n) ensures HeaderPlaced(t, b, n) {
      assert HeaderPlaced(s, a, n);
      forall y ensures OnHeaderRing(b, y) == (y != c && OnHeaderRing(a, y)) {}
    }
  }

  lemma SameColumnsKeeps(m: Matrix, s: seq<Node>, t: seq<Node>, x: set<int>)
    requires m.ncols < |s| && ColumnsOk(m, s, x) && SameColumns(s, t)
    ensures ColumnsOk(m, t, x)
  {
    forall c | m.IsHeader(c) ensures ColumnOk(m, t, x, c) {
      assert ColumnOk(m, s, x, c);
      forall n | OnRing(m, x, c, n) ensures Placed(m, t, x, c, n) {
        assert Placed(m, s, x, c, n);
      }
    }
  }

  lemma SameRowsKeeps(m: Matrix, s: seq<Node>, t: seq<Node>, a: set<int>)
    requires HeadersOk(m, s, a) && SameRows(s, t)
    ensures HeadersOk(m, t, a)
  {
    forall n | OnHeaderRing(a, n) ensures HeaderPlaced(t, a, n) {
      assert HeaderPlaced(s, a, n);
    }
  }

  // ------------------------------------------------------------ the structure

  /** The nodes, the columns still to be covered, and the entries still linked vertically. */
  datatype Links = Links(s: seq<Node>, a: set<int>, x: set<int>)

  /** The structure represents the exact cover problem for the columns in `a`: their
      headers form the header ring, and column by column exactly the entries whose whole
      row fits in `a` are linked. */
  ghost predicate Inv(m: Matrix, k: Links) {
    && Shape(m, k.s) && HeadersOk(m, k.s, k.a) && ColumnsOk(m, k.s, k.x)
    && (forall n {:trigger m.Cols(n)} :: m.IsEntry(n) && m.col[n] in k.a ==> (n in k.x <==> m.Cols(n) <= k.a))
  }

  ghost function Cover(m: Matrix, k: Links, c: int): (k': Links)
    ensures |k'.s| == |k.s| && k'.a == k.a - {c}
  {
    Links(CoverRows(m, UnlinkHeader(k.s, c), k.x, c, |m.col|), k.a - {c}, LeftBy(m, k.x, c, |m.col|))
  }

  lemma VisitedRowsLinked(m: Matrix, k: Links, c: int)
    requires Inv(m, k) && c in k.a
    ensures RowsIn(m, k.x, c)
  {
    forall r | Visits(m, k.x, c, r) ensures RowIn(m, k.x, r) {
      assert m.Cols(r) <= k.a;
      forall j | m.SameRow(r, j) ensures j in k.x {
        RowFacts(m, r, j);
        assert m.col[j] in m.Cols(j);
      }
    }
  }

  /** Covering a column leaves the structure for the remaining columns. */
  lemma CoverKeeps(m: Matrix, k: Links, c: int)
    requires Inv(m, k) && c in k.a
    ensures Inv(m, Cover(m, k, c))
  {
    var s1 := UnlinkHeader(k.s, c);
    var k' := Cover(m, k, c);
    UnlinkHeaderKeeps(m, k.s, k.a, c);
    SameColumnsKeeps(m, k.s, s1, k.x);
    VisitedRowsLinked(m, k, c);
    CoverRowsKeeps(m, s1, k.x, c, |m.col|);
    SameRowsKeeps(m, s1, k'.s, k'.a);
    forall n | m.IsEntry(n) && m.col[n] in k'.a ensures n in k'.x <==> m.Cols(n) <= k'.a {
      CoverLeaves(m, k, c, n);
    }
  }

  lemma CoverLeaves(m: Matrix, k: Links, c: int, n: int)
    requires Inv(m, k) && c in k.a && m.IsEntry(n) && m.col[n] in k.a && m.col[n] != c
    ensures n in LeftBy(m, k.x, c, |m.col|) <==> m.Cols(n) <= k.a - {c}
  {
    LeftByIs(m, k.x, c, |m.col|, n);
    if n in k.x && c in m.Cols(n) {
      var r :| 0 <= r < |m.col| && m.SameRow(n, r) && m.col[r] == c;
      RowFacts(m, n, r);
      assert m.Cols(r) <= k.a;
      assert Visits(m, k.x, c, r);
      assert m.SameRow(r, n);
    }
    if n in k.x && c !in m.Cols(n) {
      forall r | Visits(m, k.x, c, r) && m.SameRow(r, n) ensures false {
        RowFacts(m, r, n);
      }
    }
  }

  // -------------------------------------------------- walking down a column

  /** Ids up to this one are done when the walk down column `c` stands at `p`. */
  ghost function Before(m: Matrix, c: int, p: int): int {
    if p == c then |m.col| else p
  }

  /** Ids up to this one are done when the walk down column `c` leaves `p`. */
  ghost function After(m: Matrix, c: int, p: int): int {
    if p == c then m.ncols + 1 else p + 1
  }

  /** Following `down` or `up` skips only ids that the column does not visit, whatever
      rows of the column have been taken out. */
  lemma NextRow(m: Matrix, s: seq<Node>, x: set<int>, c: int, p: int)
    requires Shape(m, s) && ColumnsOk(m, s, x) && RowsIn(m, x, c) && m.IsHeader(c) && OnRing(m, x, c, p)
    ensures var t := CoverRows(m, s, x, c, After(m, c, p));
      && OnRing(m, x, c, t[p].down) && Before(m, c, t[p].down) >= After(m, c, p)
      && CoverRows(m, s, x, c, Before(m, c, t[p].down)) == t
    ensures var t := CoverRows(m, s, x, c, Before(m, c, p));
      && OnRing(m, x, c, t[p].up) && After(m, c, t[p].up) <= Before(m, c, p)
      && CoverRows(m, s, x, c, After(m, c, t[p].up)) == t
  {
    var t := CoverRows(m, s, x, c, After(m, c, p));
    CoverRowsKeeps(m, s, x, c, After(m, c, p));
    RingNeighbours(m, t, LeftBy(m, x, c, After(m, c, p)), x, c, After(m, c, p), p);
    CoverRowsSkip(m, s, x, c, After(m, c, p), Before(m, c, t[p].down));
    t := CoverRows(m, s, x, c, Before(m, c, p));
    CoverRowsKeeps(m, s, x, c, Before(m, c, p));
    RingNeighbours(m, t, LeftBy(m, x, c, Before(m, c, p)), x, c, Before(m, c, p), p);
    CoverRowsSkip(m, s, x, c, After(m, c, t[p].up), Before(m, c, p));
  }

  lemma RingNeighbours(m: Matrix, t: seq<Node>, z: set<int>, x: set<int>, c: int, n: int, p: int)
    requires m.Valid() && m.IsHeader(c) && ColumnsOk(m, t, z) && OnRing(m, x, c, p)
    requires n <= |m.col| && z == LeftBy(m, x, c, n)
    ensures 0 <= p < |t|
    ensures OnRing(m, x, c, t[p].down) && OnRing(m, x, c, t[p].up)
    ensures After(m, c, p) <= Before(m, c, t[p].down) && After(m, c, t[p].up) <= Before(m, c, p)
    ensures forall r :: After(m, c, p) <= r < Before(m, c, t[p].down) ==> !Visits(m, x, c, r)
    ensures forall r :: After(m, c, t[p].up) <= r < Before(m, c, p) ==> !Visits(m, x, c, r)
  {
    forall y ensures OnRing(m, z, c, y) == OnRing(m, x, c, y) {
      LeftByOwn(m, x, c, n, y);
    }
    assert ColumnOk(m, t, z, c);
    assert Placed(m, t, z, c, p);
    assert Placed(m, t, z, c, t[p].up);
    forall r | Visits(m, x, c, r) ensures OnRing(m, z, c, r) && m.ncols < r < |m.col| {}
  }

  // ------------------------------------------ covering the columns of a row

  ghost function SpanCols(m: Matrix, a: int, b: int): set<int> {
    set i | m.ncols < i < |m.col| && m.IsEntry(i) && a <= i < b :: m.col[i]
  }

  /** Covers the columns of the entries from `a` up to but not including `b`, in order. */
  ghost function CoverSpan(m: Matrix, k: Links, a: int, b: int): Links
    decreases b - a
  {
    if b <= a || !m.IsEntry(b - 1) then k else Cover(m, CoverSpan(m, k, a, b - 1), m.col[b - 1])
  }

  /** The structure when the walk right from `r`, covering each column, has reached `j`. */
  ghost function CoverRow(m: Matrix, k: Links, r: int, j: int): Links
    requires m.IsEntry(r) && r < |m.first| && r < |m.last|
  {
    if j > r then CoverSpan(m, k, r + 1, j)
    else CoverSpan(m, CoverSpan(m, k, r + 1, m.last[r] + 1), m.first[r], j)
  }

  lemma {:induction false} CoverSpanKeeps(m: Matrix, k: Links, a: int, b: int)
    requires Inv(m, k) && m.ncols < a && b <= |m.col|
    requires forall i :: a <= i < b ==> m.col[i] in k.a
    requires forall i, j :: a <= i < j < b ==> m.col[i] != m.col[j]
    ensures Inv(m, CoverSpan(m, k, a, b)) && CoverSpan(m, k, a, b).a == k.a - SpanCols(m, a, b)
    decreases b - a
  {
    if b <= a {
      assert k.a - SpanCols(m, a, b) == k.a;
    } else {
      CoverSpanKeeps(m, k, a, b - 1);
      CoverKeeps(m, CoverSpan(m, k, a, b - 1), m.col[b - 1]);
      assert m.IsEntry(b - 1);
      assert SpanCols(m, a, b) == SpanCols(m, a, b - 1) + {m.col[b - 1]};
    }
  }

  /** The columns of the row of `r`, other than its own, are all still to be covered. */
  ghost predicate RowOpen(m: Matrix, k: Links, r: int) {
    && m.Valid() && m.IsEntry(r)
    && forall j {:trigger m.SameRow(r, j)} :: m.SameRow(r, j) && j != r ==> m.col[j] in k.a
  }

  lemma RowOpenSpan(m: Matrix, k: Links, r: int, a: int, b: int)
    requires RowOpen(m, k, r) && m.first[r] <= a && b <= m.last[r] + 1 && (b <= r || r < a)
    ensures forall i :: a <= i < b ==> m.col[i] in k.a
  {
    forall i | a <= i < b ensures m.col[i] in k.a {
      assert m.SameRow(r, i);
    }
  }

  lemma RowDistinct(m: Matrix, r: int, a: int, b: int)
    requires m.Valid() && m.IsEntry(r) && m.first[r] <= a && b <= m.last[r] + 1
    ensures forall i, j :: a <= i < j < b ==> m.col[i] != m.col[j]
  {
    forall i, j | a <= i < j < b ensures m.col[i] != m.col[j] {
      assert m.SameRow(r, i);
      assert m.SameRow(i, j);
    }
  }

  lemma SpanColsMiss(m: Matrix, r: int, a: int, b: int, i: int)
    requires m.Valid() && m.SameRow(r, i) && m.first[r] <= a && b <= m.last[r] + 1 && !(a <= i < b)
    ensures m.col[i] !in SpanCols(m, a, b)
  {
    RowDistinct(m, r, m.first[r], m.last[r] + 1);
  }

  lemma RowColsSplit(m: Matrix, r: int)
    requires m.Valid() && m.IsEntry(r)
    ensures m.Cols(r) - {m.col[r]} == SpanCols(m, r + 1, m.last[r] + 1) + SpanCols(m, m.first[r], r)
  {
    var f, l := m.first[r], m.last[r];
    RowDistinct(m, r, f, l + 1);
    forall i | f <= i <= l ensures m.SameRow(r, i) && m.IsEntry(i) {}
  }

  lemma CoverRowKeeps(m: Matrix, k: Links, r: int, j: int)
    requires Inv(m, k) && RowOpen(m, k, r) && m.SameRow(r, j)
    ensures Inv(m, CoverRow(m, k, r, j))
    ensures j != r ==> m.col[j] in CoverRow(m, k, r, j).a
    ensures j == r ==> CoverRow(m, k, r, j).a == k.a - (m.Cols(r) - {m.col[r]})
  {
    if j > r {
      CoverPartKeeps(m, k, k, r, r + 1, j);
      SpanColsMiss(m, r, r + 1, j, j);
    } else {
      CoverPartKeeps(m, k, k, r, r + 1, m.last[r] + 1);
      CoverRowLower(m, k, r, j);
    }
  }

  /** No column of the row before entry `r` is one of those behind it. */
  lemma UpperMisses(m: Matrix, r: int)
    requires m.Valid() && m.IsEntry(r)
    ensures forall i :: m.first[r] <= i < r ==> m.col[i] !in SpanCols(m, r + 1, m.last[r] + 1)
  {
    forall i | m.first[r] <= i < r ensures m.col[i] !in SpanCols(m, r + 1, m.last[r] + 1) {
      assert m.SameRow(r, i);
      SpanColsMiss(m, r, r + 1, m.last[r] + 1, i);
    }
  }

  /** What is left of the open columns when those behind entry `r` and those before `j` are gone. */
  lemma LowerCols(m: Matrix, a: set<int>, r: int, j: int)
    requires m.Valid() && m.SameRow(r, j) && j <= r && (j != r ==> m.col[j] in a)
    ensures var b := a - SpanCols(m, r + 1, m.last[r] + 1) - SpanCols(m, m.first[r], j);
      && (j != r ==> m.col[j] in b)
      && (j == r ==> b == a - (m.Cols(r) - {m.col[r]}))
  {
    if j < r {
      UpperMisses(m, r);
      SpanColsMiss(m, r, m.first[r], j, j);
    } else {
      RowColsSplit(m, r);
    }
  }

  lemma CoverRowLower(m: Matrix, k: Links, r: int, j: int)
    requires RowOpen(m, k, r) && m.SameRow(r, j) && j <= r
    requires var k1 := CoverSpan(m, k, r + 1, m.last[r] + 1);
      Inv(m, k1) && k1.a == k.a - SpanCols(m, r + 1, m.last[r] + 1)
    ensures Inv(m, CoverRow(m, k, r, j))
    ensures j != r ==> m.col[j] in CoverRow(m, k, r, j).a
    ensures j == r ==> CoverRow(m, k, r, j).a == k.a - (m.Cols(r) - {m.col[r]})
  {
    var k1 := CoverSpan(m, k, r + 1, m.last[r] + 1);
    UpperMisses(m, r);
    CoverPartKeeps(m, k, k1, r, m.first[r], j);
    LowerCols(m, k.a, r, j);
  }

  lemma CoverPartKeeps(m: Matrix, k: Links, k1: Links, r: int, a: int, b: int)
    requires RowOpen(m, k, r) && Inv(m, k1)
    requires m.first[r] <= a && b <= m.last[r] + 1 && (b <= r || r < a)
    requires forall i :: a <= i < b ==> m.col[i] in k.a ==> m.col[i] in k1.a
    ensures Inv(m, CoverSpan(m, k1, a, b)) && CoverSpan(m, k1, a, b).a == k1.a - SpanCols(m, a, b)
  {
    RowDistinct(m, r, a, b);
    RowOpenSpan(m, k, r, a, b);
    CoverSpanKeeps(m, k1, a, b);
  }

  lemma CoverRowNext(m: Matrix, k: Links, r: int, j: int)
    requires m.Valid() && m.SameRow(r, j)
    ensures CoverRow(m, k, r, m.Right(r)) == k
    ensures j != r ==> CoverRow(m, k, r, m.Right(j)) == Cover(m, CoverRow(m, k, r, j), m.col[j])
  {
  }
}
