/** How the solver's constructor grows the link structure, one header or entry at a time. */
module LinkBuilding {
  import opened DancingLinks

  /** A node that is linked to itself only. */
  function Lone(r: int, col: int, name: int): Node {
    Node(r, r, r, r, col, name, 0)
  }

  /** Puts `n` to the left of `at`. */
  function PutLeft(s: seq<Node>, at: int, n: int): (t: seq<Node>)
    ensures |t| == |s|
  {
    if !(0 <= at < |s| && 0 <= n < |s| && 0 <= s[at].left < |s|) then s else
    var l := s[at].left;
    var s1 := s[n := s[n].(left := l, right := at)];
    var s2 := s1[l := s1[l].(right := n)];
    s2[at := s2[at].(left := n)]
  }

  /** Puts entry `n` at the bottom of column `at`. */
  function PutUp(s: seq<Node>, at: int, n: int): (t: seq<Node>)
    ensures |t| == |s|
  {
    if !(0 <= at < |s| && 0 <= n < |s| && 0 <= s[at].up < |s|) then s else
    var u := s[at].up;
    var s1 := s[n := s[n].(up := u, down := at)];
    var s2 := s1[u := s1[u].(down := n)];
    var s3 := s2[at := s2[at].(up := n, size := s2[at].size + 1)];
    s3[n := s3[n].(col := at)]
  }

  /** The matrix with one more id, which is in column `c`. */
  function Grown(m: Matrix, ncols: nat, c: int, first: int, last: int, name: int): Matrix {
    Matrix(ncols, m.col + [c], m.first + [first], m.last + [last], m.name + [name])
  }

  // ---------------------------------------------------------------- headers

  /** Only the root and empty columns have been built. */
  ghost predicate HeaderPhase(m: Matrix, s: seq<Node>) {
    && m.Valid() && |m.col| == m.ncols + 1 && |m.col| <= |s|
    && HeadersOk(m, s, m.Headers())
    && (forall c {:trigger m.IsHeader(c)} :: m.IsHeader(c) ==> s[c].up == c == s[c].down && s[c].size == 0)
  }

  function WithHeader(s: seq<Node>, c: int, name: int): (t: seq<Node>)
    requires 0 <= c < |s|
  {
    PutLeft(s[c := Lone(c, c, name)], 0, c)
  }

  lemma AppendHeader(m: Matrix, s: seq<Node>, name: int)
    requires HeaderPhase(m, s) && |m.col| < |s|
    ensures HeaderPhase(Grown(m, m.ncols + 1, |m.col|, 0, 0, name), WithHeader(s, |m.col|, name))
  {
    var c := |m.col|;
    var m' := Grown(m, m.ncols + 1, c, 0, 0, name);
    assert m'.Valid() by {
      forall n | m'.IsEntry(n) ensures false {}
    }
    assert HeaderPlaced(s, m.Headers(), 0);
    assert m'.Headers() == m.Headers() + {c};
    AppendHeaderRing(m, m', s, m.Headers(), name);
    var t := WithHeader(s, c, name);
    forall d | m'.IsHeader(d) ensures t[d].up == d == t[d].down && t[d].size == 0 {
      assert d != c ==> m.IsHeader(d);
    }
  }

  lemma AppendHeaderRing(m: Matrix, m': Matrix, s: seq<Node>, a: set<int>, name: int)
    requires HeadersOk(m, s, a) && m.ncols + 1 == |m.col| < |s| && m'.ncols == m.ncols + 1
    ensures HeadersOk(m', WithHeader(s, |m.col|, name), a + {|m.col|})
  {
    var c := |m.col|;
    var b := a + {c};
    var t := WithHeader(s, c, name);
    assert HeaderPlaced(s, a, 0);
    assert HeaderPlaced(s, a, s[0].left);
    forall y | OnHeaderRing(a, y) ensures y < c && y <= s[0].left {
      assert y == 0 || m.IsHeader(y);
    }
    forall n | OnHeaderRing(b, n) ensures HeaderPlaced(t, b, n) {
      forall y ensures OnHeaderRing(b, y) <==> OnHeaderRing(a, y) || y == c {}
      if n != c {
        assert HeaderPlaced(s, a, n);
      }
    }
  }

  /** Empty columns are rings of no entries. */
  lemma HeadersDone(m: Matrix, s: seq<Node>)
    requires HeaderPhase(m, s)
    ensures Shape(m, s) && ColumnsOk(m, s, {}) && m.Entries() == {}
  {
    forall c | m.IsHeader(c) ensures ColumnOk(m, s, {}, c) {
      assert Column(m, {}, c) == {};
    }
  }

  // ---------------------------------------------------------------- entries

  /** Appending an entry with the highest id at the bottom of its column keeps the rings. */
  lemma AppendEntry(m: Matrix, m': Matrix, s: seq<Node>, x: set<int>, c: int, name: int)
    requires m.ncols < |m.col| < |s| && m'.ncols == m.ncols && m'.col == m.col + [c] && m.IsHeader(c)
    requires ColumnsOk(m, s, x)
    ensures var r := |m.col|; ColumnsOk(m', PutUp(s[r := Lone(r, c, name)], c, r), x + {r})
  {
    var r := |m.col|;
    var s0 := s[r := Lone(r, c, name)];
    var t := PutUp(s0, c, r);
    forall d | m.IsHeader(d) ensures ColumnOk(m', t, x + {r}, d) {
      if d == c {
        assert !m.IsEntry(r) && ColumnOk(m, s, x, c);
        AppendEntryOwn(m, m', s, x, c, name);
      } else {
        AppendEntryOther(m, m', s, x, c, name, d);
      }
    }
  }

  lemma AppendEntryOwn(m: Matrix, m': Matrix, s: seq<Node>, x: set<int>, c: int, name: int)
    requires m.ncols < |m.col| < |s| && m'.ncols == m.ncols && m'.col == m.col + [c] && m.IsHeader(c)
    requires ColumnOk(m, s, x, c) && |m.col| !in x
    ensures var r := |m.col|; ColumnOk(m', PutUp(s[r := Lone(r, c, name)], c, r), x + {r}, c)
  {
    var r, z := |m.col|, x + {|m.col|};
    var t := PutUp(s[r := Lone(r, c, name)], c, r);
    AppendEntrySize(m, m', s, x, c, name);
    forall y ensures OnRing(m', z, c, y) <==> OnRing(m, x, c, y) || y == r {}
    forall n | OnRing(m', z, c, n) ensures Placed(m', t, z, c, n) {
      AppendEntryPlaced(m, m', s, t, x, c, name, n);
    }
  }

  lemma AppendEntrySize(m: Matrix, m': Matrix, s: seq<Node>, x: set<int>, c: int, name: int)
    requires m.ncols < |m.col| < |s| && m'.ncols == m.ncols && m'.col == m.col + [c] && m.IsHeader(c)
    requires ColumnOk(m, s, x, c) && |m.col| !in x
    ensures var r := |m.col|; PutUp(s[r := Lone(r, c, name)], c, r)[c].size == |Column(m', x + {r}, c)|
  {
    assert Placed(m, s, x, c, c);
    assert Column(m', x + {|m.col|}, c) == Column(m, x, c) + {|m.col|};
  }

  lemma AppendEntryPlaced(m: Matrix, m': Matrix, s: seq<Node>, t: seq<Node>, x: set<int>, c: int, name: int, n: int)
    requires m.ncols < |m.col| < |s| && m.IsHeader(c) && ColumnOk(m, s, x, c)
    requires t == PutUp(s[|m.col| := Lone(|m.col|, c, name)], c, |m.col|)
    requires forall y :: OnRing(m', x + {|m.col|}, c, y) <==> OnRing(m, x, c, y) || y == |m.col|
    requires OnRing(m, x, c, n) || n == |m.col|
    ensures Placed(m', t, x + {|m.col|}, c, n)
  {
    var r := |m.col|;
    var u := s[c].up;
    assert Placed(m, s, x, c, c);
    assert Placed(m, s, x, c, u);
    assert u != r && c != r;
    assert t[r].up == u && t[r].down == c && t[c].up == r && t[u].down == r;
    assert u != c ==> t[c].down == s[c].down && t[u].up == s[u].up;
    assert forall y :: OnRing(m, x, c, y) ==> y <= u && y < r;
    if n != r {
      assert Placed(m, s, x, c, n);
    }
  }

  lemma AppendEntryOther(m: Matrix, m': Matrix, s: seq<Node>, x: set<int>, c: int, name: int, d: int)
    requires m.ncols < |m.col| < |s| && m'.ncols == m.ncols && m'.col == m.col + [c]
    requires m.IsHeader(c) && m.IsHeader(d) && c != d && ColumnsOk(m, s, x)
    ensures var r := |m.col|; ColumnOk(m', PutUp(s[r := Lone(r, c, name)], c, r), x + {r}, d)
  {
    var r, z := |m.col|, x + {|m.col|};
    var t := PutUp(s[r := Lone(r, c, name)], c, r);
    assert ColumnOk(m, s, x, c) && ColumnOk(m, s, x, d);
    assert Placed(m, s, x, c, c);
    assert Column(m', z, d) == Column(m, x, d);
    forall y ensures OnRing(m', z, d, y) <==> OnRing(m, x, d, y) {}
    forall n | OnRing(m', z, d, n) ensures Placed(m', t, z, d, n) {
      assert Placed(m, s, x, d, n);
    }
  }

  /** An entry that is in its column but not yet in a row. */
  function WithEntry(s: seq<Node>, r: int, c: int, name: int): (t: seq<Node>)
    requires 0 <= r < |s|
    ensures |t| == |s|
  {
    PutUp(s[r := Lone(r, c, name)], c, r)
  }

  /** The four entries of a row from `f` on, linked left and right. */
  function RowLinked(s: seq<Node>, f: int): (t: seq<Node>)
    ensures |t| == |s|
  {
    PutLeft(PutLeft(PutLeft(s, f, f + 1), f, f + 2), f, f + 3)
  }

  /** The matrix with one more row of four entries. */
  function WithRow(m: Matrix, c: seq<int>, name: seq<int>): Matrix
    requires |c| == 4 == |name|
  {
    var f := |m.col|;
    Matrix(m.ncols, m.col + c, m.first + [f, f, f, f], m.last + [f + 3, f + 3, f + 3, f + 3], m.name + name)
  }

  /** The nodes agree on everything but up, down and size, apart from node `r`. */
  ghost predicate SameRowsBut(s: seq<Node>, t: seq<Node>, r: int) {
    && |s| == |t|
    && forall n {:trigger t[n]} :: 0 <= n < |s| && n != r ==>
         t[n].left == s[n].left && t[n].right == s[n].right && t[n].col == s[n].col && t[n].name == s[n].name
  }

  lemma WithEntryRows(m: Matrix, s: seq<Node>, x: set<int>, c: int, name: int)
    requires m.ncols < |m.col| < |s| && m.IsHeader(c) && ColumnsOk(m, s, x)
    ensures var r := |m.col|; var t := WithEntry(s, r, c, name);
      && SameRowsBut(s, t, r)
      && t[r].left == r == t[r].right && t[r].col == c && t[r].name == name
  {
    assert ColumnOk(m, s, x, c);
    assert Placed(m, s, x, c, c);
    assert Placed(m, s, x, c, s[c].up);
  }

  /** The matrix with one more id in column `c`, whose row is not known yet. */
  function WithColumnOf(m: Matrix, c: int): Matrix {
    m.(col := m.col + [c])
  }

  /** A new entry is in its column, alone in its row, and disturbs no other row. */
  lemma EntryAdded(m: Matrix, s: seq<Node>, c: int, name: int)
    requires m.ncols < |m.col| < |s| && m.IsHeader(c) && ColumnsOk(m, s, m.Entries())
    ensures var r := |m.col|; var t := WithEntry(s, r, c, name); var m' := WithColumnOf(m, c);
      && ColumnsOk(m', t, m'.Entries()) && SameRowsBut(s, t, r)
      && t[r].left == r == t[r].right && t[r].col == c && t[r].name == name
  {
    var r, m' := |m.col|, WithColumnOf(m, c);
    AppendEntry(m, m', s, m.Entries(), c, name);
    WithEntryRows(m, s, m.Entries(), c, name);
    assert m'.Entries() == m.Entries() + {r};
  }

  lemma SameColumnMatrix(m: Matrix, m': Matrix, s: seq<Node>, x: set<int>)
    requires m'.ncols == m.ncols && m'.col == m.col && ColumnsOk(m, s, x)
    ensures ColumnsOk(m', s, x)
  {
    forall c | m.IsHeader(c) ensures ColumnOk(m', s, x, c) {
      assert ColumnOk(m, s, x, c);
      assert Column(m', x, c) == Column(m, x, c);
      forall y ensures OnRing(m', x, c, y) <==> OnRing(m, x, c, y) {}
      forall n | OnRing(m', x, c, n) ensures Placed(m', s, x, c, n) {
        assert Placed(m, s, x, c, n);
      }
    }
  }

  /** Node `n` is in column `c` and not linked to any row yet. */
  ghost predicate Loose(s: seq<Node>, n: int, c: int, name: int) {
    0 <= n < |s| && s[n].left == n == s[n].right && s[n].col == c && s[n].name == name
  }

  /** `t` has the same rows as `s` below node `f`. */
  ghost predicate SameRowsBelow(s: seq<Node>, t: seq<Node>, f: int) {
    && |s| == |t|
    && forall n {:trigger t[n]} :: 0 <= n < f && n < |s| ==>
         t[n].left == s[n].left && t[n].right == s[n].right && t[n].col == s[n].col && t[n].name == s[n].name
  }

  lemma RowLinks(s: seq<Node>, f: int)
    requires 0 <= f && f + 4 <= |s|
    requires forall k :: f <= k < f + 4 ==> s[k].left == k == s[k].right
    ensures var t := RowLinked(s, f);
      && SameColumns(s, t) && SameRowsBelow(s, t, f)
      && t[f].right == f + 1 && t[f + 1].right == f + 2 && t[f + 2].right == f + 3 && t[f + 3].right == f
      && t[f].left == f + 3 && t[f + 1].left == f && t[f + 2].left == f + 1 && t[f + 3].left == f + 2
  {
  }

  lemma WithRowValid(m: Matrix, c: seq<int>, name: seq<int>)
    requires m.Valid() && |c| == 4 == |name|
    requires forall i :: 0 <= i < 4 ==> m.IsHeader(c[i])
    requires forall i, j :: 0 <= i < j < 4 ==> c[i] != c[j]
    ensures WithRow(m, c, name).Valid()
  {
    var m', f := WithRow(m, c, name), |m.col|;
    forall n | m'.IsEntry(n) ensures m'.IsHeader(m'.col[n]) && m'.ncols < m'.first[n] <= n <= m'.last[n] < |m'.col| {
      assert n < f ==> m.IsEntry(n);
    }
    forall n, k | m'.SameRow(n, k)
      ensures m'.first[k] == m'.first[n] && m'.last[k] == m'.last[n] && (k != n ==> m'.col[k] != m'.col[n]) {
      if n < f {
        assert m.SameRow(n, k);
      } else {
        assert m'.col[n] == c[n - f];
      }
    }
  }

  /** A row of four new entries, linked left and right, extends the structure. */
  lemma RowAdded(m: Matrix, s: seq<Node>, s4: seq<Node>, c: seq<int>, name: seq<int>)
    requires Shape(m, s) && HeadersOk(m, s, m.Headers()) && |m.col| + 4 <= |s|
    requires |c| == 4 == |name| && WithRow(m, c, name).Valid()
    requires SameRowsBelow(s, s4, |m.col|)
    requires forall i {:trigger c[i]} :: 0 <= i < 4 ==> Loose(s4, |m.col| + i, c[i], name[i])
    requires var m4 := m.(col := m.col + c); ColumnsOk(m4, s4, m4.Entries())
    ensures var m', t := WithRow(m, c, name), RowLinked(s4, |m.col|);
      && Shape(m', t) && HeadersOk(m', t, m'.Headers()) && ColumnsOk(m', t, m'.Entries())
  {
    var m', f := WithRow(m, c, name), |m.col|;
    var m4, t := m.(col := m.col + c), RowLinked(s4, f);
    assert Loose(s4, f, c[0], name[0]) && Loose(s4, f + 1, c[1], name[1]);
    assert Loose(s4, f + 2, c[2], name[2]) && Loose(s4, f + 3, c[3], name[3]);
    RowLinks(s4, f);
    SameColumnsKeeps(m4, s4, t, m4.Entries());
    SameColumnMatrix(m4, m', t, m4.Entries());
    assert m4.Entries() == m'.Entries();
    assert m.Headers() == m'.Headers();
    forall n | OnHeaderRing(m.Headers(), n) ensures HeaderPlaced(t, m.Headers(), n) {
      assert HeaderPlaced(s, m.Headers(), n);
    }
    RowShape(m, s, s4, t, c, name);
  }

  lemma RowShape(m: Matrix, s: seq<Node>, s4: seq<Node>, t: seq<Node>, c: seq<int>, name: seq<int>)
    requires Shape(m, s) && |m.col| + 4 <= |s|
    requires |c| == 4 == |name| && WithRow(m, c, name).Valid()
    requires SameRowsBelow(s, s4, |m.col|)
    requires forall i {:trigger c[i]} :: 0 <= i < 4 ==> Loose(s4, |m.col| + i, c[i], name[i])
    requires t == RowLinked(s4, |m.col|)
    ensures Shape(WithRow(m, c, name), t)
  {
    var m', f := WithRow(m, c, name), |m.col|;
    assert Loose(s4, f, c[0], name[0]) && Loose(s4, f + 1, c[1], name[1]);
    assert Loose(s4, f + 2, c[2], name[2]) && Loose(s4, f + 3, c[3], name[3]);
    RowLinks(s4, f);
    forall n | m'.IsEntry(n)
      ensures t[n].col == m'.col[n] && t[n].name == m'.name[n] && t[n].right == m'.Right(n) && t[n].left == m'.Left(n) {
      if n < f {
        assert m.IsEntry(n);
      } else {
        assert n == f || n == f + 1 || n == f + 2 || n == f + 3;
      }
    }
  }
}
