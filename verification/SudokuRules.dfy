/** What a sudoku solution is, and why the exact covers of the solver's matrix are the
    solutions. */
module SudokuRules {
  import opened ExactCover
  import opened DancingLinks

  datatype Kind = RowUnit | ColUnit | BoxUnit

  const CELLS := 81

  /** The row, column or box that cell `i` is in. */
  function UnitOf(k: Kind, i: int): int {
    match k
    case RowUnit => i / 9
    case ColUnit => i % 9
    case BoxUnit => i / 9 / 3 * 3 + i % 9 / 3
  }

  predicate IsCell(i: int) {
    0 <= i < CELLS
  }

  ghost predicate IsPuzzle(g: seq<int>) {
    |g| == CELLS && forall i :: 0 <= i < CELLS ==> 0 <= g[i] <= 9
  }

  /** No unit repeats a value. */
  ghost predicate NoRepeats(b: seq<int>)
    requires |b| == CELLS
  {
    forall k, i, j {:trigger UnitOf(k, i), UnitOf(k, j)} ::
      IsCell(i) && IsCell(j) && i != j && UnitOf(k, i) == UnitOf(k, j) ==> b[i] != b[j]
  }

  /** `b` fills every cell of `g` by the rules and keeps every given. */
  ghost predicate Solves(g: seq<int>, b: seq<int>) {
    && |g| == CELLS == |b|
    && (forall i :: 0 <= i < CELLS ==> 1 <= b[i] <= 9)
    && (forall i :: 0 <= i < CELLS && g[i] != 0 ==> b[i] == g[i])
    && NoRepeats(b)
  }

  // ------------------------------------------------------------- pigeonhole

  ghost function Elements(s: seq<int>): set<int> {
    set i | 0 <= i < |s| :: s[i]
  }

  /** A sequence has as many different elements as positions exactly when it has no repeats. */
  lemma {:induction false} DistinctCount(s: seq<int>)
    ensures |Elements(s)| <= |s|
    ensures |Elements(s)| == |s| <==> forall i, j :: 0 <= i < j < |s| ==> s[i] != s[j]
  {
    if s != [] {
      var n := |s| - 1;
      var t := s[..n];
      DistinctCount(t);
      assert Elements(s) == Elements(t) + {s[n]} by {
        forall i | 0 <= i < n ensures t[i] == s[i] {}
      }
      if s[n] in Elements(t) {
        assert Elements(s) == Elements(t);
      }
    }
  }

  lemma SubsetSameSize(a: set<int>, b: set<int>)
    requires a <= b && |a| == |b|
    ensures a == b
  {
    assert b == a + (b - a);
    assert |b| == |a| + |b - a|;
  }

  /** Nine values from 1..9 are all different exactly when each value occurs. */
  lemma NineValues(w: seq<int>)
    requires |w| == 9 && forall k :: 0 <= k < 9 ==> 1 <= w[k] <= 9
    ensures (forall i, j :: 0 <= i < j < 9 ==> w[i] != w[j]) <==> (forall v :: 1 <= v <= 9 ==> v in w)
  {
    DistinctCount(w);
    var all := {1, 2, 3, 4, 5, 6, 7, 8, 9};
    assert |all| == 9 && forall v :: v in all <==> 1 <= v <= 9;
    assert Elements(w) <= all;
    if |Elements(w)| == 9 {
      SubsetSameSize(Elements(w), all);
      forall v | 1 <= v <= 9 ensures v in w {
        assert v in Elements(w);
      }
    }
    if forall v :: 1 <= v <= 9 ==> v in w {
      forall v | v in all ensures v in Elements(w) {
        assert v in w;
      }
      assert Elements(w) == all;
    }
  }

  // ------------------------------------------------------------------ units

  /** The `n`th cell of a unit. */
  function CellAt(k: Kind, u: int, n: int): int {
    match k
    case RowUnit => 9 * u + n
    case ColUnit => 9 * n + u
    case BoxUnit => (u / 3 * 3 + n / 3) * 9 + (u % 3 * 3 + n % 3)
  }

  function PlaceOf(k: Kind, i: int): int {
    match k
    case RowUnit => i % 9
    case ColUnit => i / 9
    case BoxUnit => i / 9 % 3 * 3 + i % 9 % 3
  }

  lemma Digits(base: int, q: int, r: int)
    requires base == 3 || base == 9
    requires 0 <= r < base
    ensures (base * q + r) / base == q && (base * q + r) % base == r
  {
  }

  lemma CellAtUnit(k: Kind, u: int, n: int)
    requires 0 <= u < 9 && 0 <= n < 9
    ensures IsCell(CellAt(k, u, n)) && UnitOf(k, CellAt(k, u, n)) == u && PlaceOf(k, CellAt(k, u, n)) == n
  {
    match k
    case RowUnit =>
      Digits(9, u, n);
    case ColUnit =>
      Digits(9, n, u);
    case BoxUnit =>
      var r, c := u / 3 * 3 + n / 3, u % 3 * 3 + n % 3;
      Digits(9, r, c);
      Digits(3, u / 3, n / 3);
      Digits(3, u % 3, n % 3);
  }

  lemma UnitCell(k: Kind, i: int)
    requires IsCell(i)
    ensures 0 <= UnitOf(k, i) < 9 && 0 <= PlaceOf(k, i) < 9 && CellAt(k, UnitOf(k, i), PlaceOf(k, i)) == i
  {
    var r, c := i / 9, i % 9;
    assert i == 9 * r + c && 0 <= r < 9;
    if k == BoxUnit {
      Digits(3, r / 3, c / 3);
      Digits(3, r % 3, c % 3);
    }
  }

  ghost function UnitValues(b: seq<int>, k: Kind, u: int): (w: seq<int>)
    requires |b| == CELLS && 0 <= u < 9
    ensures |w| == 9
  {
    seq(9, n requires 0 <= n < 9 => CellAtUnit(k, u, n); b[CellAt(k, u, n)])
  }

  /** Value `v` occurs in unit `u`. */
  ghost predicate Occurs(b: seq<int>, k: Kind, u: int, v: int) {
    exists i {:trigger UnitOf(k, i)} :: IsCell(i) && i < |b| && UnitOf(k, i) == u && b[i] == v
  }

  lemma OccursIs(b: seq<int>, k: Kind, u: int, v: int)
    requires |b| == CELLS && 0 <= u < 9
    ensures Occurs(b, k, u, v) <==> v in UnitValues(b, k, u)
  {
    var w := UnitValues(b, k, u);
    if Occurs(b, k, u, v) {
      var i :| IsCell(i) && UnitOf(k, i) == u && b[i] == v;
      UnitCell(k, i);
      assert w[PlaceOf(k, i)] == v;
    }
    if v in w {
      var n :| 0 <= n < 9 && w[n] == v;
      CellAtUnit(k, u, n);
      assert UnitOf(k, CellAt(k, u, n)) == u;
    }
  }

  /** A unit filled with values from 1..9 repeats none exactly when it misses none. */
  lemma UnitFull(b: seq<int>, k: Kind, u: int)
    requires |b| == CELLS && 0 <= u < 9 && forall i :: 0 <= i < CELLS ==> 1 <= b[i] <= 9
    ensures (forall i, j {:trigger UnitOf(k, i), UnitOf(k, j)} ::
               IsCell(i) && IsCell(j) && i != j && UnitOf(k, i) == u == UnitOf(k, j) ==> b[i] != b[j])
       <==> (forall v :: 1 <= v <= 9 ==> Occurs(b, k, u, v))
  {
    var w := UnitValues(b, k, u);
    forall n | 0 <= n < 9 ensures 1 <= w[n] <= 9 && w[n] == b[CellAt(k, u, n)] {
      CellAtUnit(k, u, n);
    }
    NineValues(w);
    forall v ensures Occurs(b, k, u, v) <==> v in w {
      OccursIs(b, k, u, v);
    }
    if forall v :: 1 <= v <= 9 ==> Occurs(b, k, u, v) {
      forall i, j | IsCell(i) && IsCell(j) && i != j && UnitOf(k, i) == u == UnitOf(k, j) ensures b[i] != b[j] {
        UnitCell(k, i);
        UnitCell(k, j);
        assert w[PlaceOf(k, i)] == b[i] && w[PlaceOf(k, j)] == b[j];
      }
    } else {
      var a, c :| 0 <= a < c < 9 && w[a] == w[c];
      CellAtUnit(k, u, a);
      CellAtUnit(k, u, c);
      assert UnitOf(k, CellAt(k, u, a)) == UnitOf(k, CellAt(k, u, c));
    }
  }

  // ------------------------------------------------------- reading the answer

  /** Every row stands for one cell (the name of its first entry) and one value (the last
      digit of the names of its other entries). */
  ghost predicate RowsNamed(m: Matrix, cells: int) {
    && m.Valid()
    && (forall n {:trigger m.IsEntry(n)} :: m.IsEntry(n) ==>
          m.first[n] < m.last[n] && 0 <= m.name[m.first[n]] < cells && m.name[m.first[n]] < 100)
    && (forall n, k {:trigger m.SameRow(n, k)} :: m.SameRow(n, k) && k != m.first[n] ==>
          m.name[k] >= 100 && m.name[k] % 10 == m.name[m.last[n]] % 10)
  }

  ghost function CellOf(m: Matrix, n: int): int
    requires m.Valid() && m.IsEntry(n)
  {
    m.name[m.first[n]]
  }

  ghost function ValueOf(m: Matrix, n: int): int
    requires m.Valid() && m.IsEntry(n)
  {
    m.name[m.last[n]] % 10
  }

  ghost predicate Entries(m: Matrix, q: seq<int>) {
    forall i :: 0 <= i < |q| ==> m.IsEntry(q[i])
  }

  /** The board once the chosen entries are written into it, in order. */
  ghost function Filled(m: Matrix, board: seq<int>, q: seq<int>): (b: seq<int>)
    requires RowsNamed(m, |board|) && Entries(m, q)
    ensures |b| == |board|
  {
    if q == [] then board
    else Filled(m, board, q[..|q| - 1])[CellOf(m, q[|q| - 1]) := ValueOf(m, q[|q| - 1])]
  }

  /** A cell holds the value of the entries chosen for it, or else what it held before. */
  lemma {:induction false} FilledAt(m: Matrix, board: seq<int>, q: seq<int>, i: int, v: int)
    requires RowsNamed(m, |board|) && Entries(m, q) && 0 <= i < |board|
    requires forall n :: n in q && CellOf(m, n) == i ==> ValueOf(m, n) == v
    ensures Filled(m, board, q)[i] == if exists n :: n in q && CellOf(m, n) == i then v else board[i]
  {
    if q != [] {
      var t, n := q[..|q| - 1], q[|q| - 1];
      FilledAt(m, board, t, i, v);
      assert forall k :: k in q <==> k in t || k == n;
    }
  }

  // ------------------------------------------------------ the solver's matrix

  /** The column for value `v` in unit `u`. */
  function NameOf(k: Kind, u: int, v: int): int {
    (match k case RowUnit => 100 case ColUnit => 200 case BoxUnit => 300) + u * 10 + v
  }

  /** Value `v` does not occur among the givens of the units of cell `i`. */
  ghost predicate Free(g: seq<int>, i: int, v: int) {
    forall k :: !Occurs(g, k, UnitOf(k, i), v)
  }

  /** The columns: one per empty cell, and one per unit and value that the givens leave open. */
  ghost predicate Needed(g: seq<int>, name: int) {
    || (IsCell(name) && name < |g| && g[name] == 0)
    || (exists k, u, v :: 0 <= u < 9 && 1 <= v <= 9 && name == NameOf(k, u, v) && !Occurs(g, k, u, v))
  }

  /** The columns that placing `v` in cell `i` covers. */
  ghost predicate Touches(i: int, v: int, name: int) {
    name == i || exists k :: name == NameOf(k, UnitOf(k, i), v)
  }

  /** The row starting at entry `f` places `v` in cell `i`. */
  ghost predicate RowFor(m: Matrix, f: int, i: int, v: int) {
    && m.ncols < f && f + 3 < |m.col| <= |m.name|
    && m.name[f] == i
    && m.name[f + 1] == NameOf(RowUnit, UnitOf(RowUnit, i), v)
    && m.name[f + 2] == NameOf(ColUnit, UnitOf(ColUnit, i), v)
    && m.name[f + 3] == NameOf(BoxUnit, UnitOf(BoxUnit, i), v)
  }

  /** A placement the solver may try. */
  ghost predicate Candidate(g: seq<int>, i: int, v: int) {
    IsCell(i) && i < |g| && g[i] == 0 && 1 <= v <= 9 && Free(g, i, v)
  }

  ghost predicate HeaderOk(m: Matrix, g: seq<int>, c: int) {
    0 <= c < |m.name| && Needed(g, m.name[c])
  }

  ghost predicate SameName(m: Matrix, c: int, d: int) {
    0 <= c < |m.name| && 0 <= d < |m.name| && m.name[c] == m.name[d]
  }

  ghost predicate HasColumn(m: Matrix, x: int) {
    exists c :: m.IsHeader(c) && c < |m.name| && m.name[c] == x
  }

  /** The row of entry `n` places a candidate, and each entry bears its column's name. */
  ghost predicate RowOk(m: Matrix, g: seq<int>, n: int) {
    && m.Valid() && m.IsEntry(n)
    && m.name[n] == m.name[m.col[n]] && m.last[n] == m.first[n] + 3
    && Candidate(g, CellOf(m, n), ValueOf(m, n))
    && RowFor(m, m.first[n], CellOf(m, n), ValueOf(m, n))
  }

  ghost predicate HasRow(m: Matrix, i: int, v: int) {
    exists n :: m.IsEntry(n) && n < |m.first| && n == m.first[n] && RowFor(m, n, i, v)
  }

  /** The matrix has exactly the columns and rows of the puzzle `g`. */
  ghost predicate Encodes(m: Matrix, g: seq<int>) {
    && m.Valid() && |g| == CELLS
    && (forall c {:trigger HeaderOk(m, g, c)} :: m.IsHeader(c) ==> HeaderOk(m, g, c))
    && (forall c, d {:trigger SameName(m, c, d)} :: m.IsHeader(c) && m.IsHeader(d) && SameName(m, c, d) ==> c == d)
    && (forall x {:trigger HasColumn(m, x)} :: Needed(g, x) ==> HasColumn(m, x))
    && (forall n {:trigger RowOk(m, g, n)} :: m.IsEntry(n) ==> RowOk(m, g, n))
    && (forall i, v {:trigger HasRow(m, i, v)} :: Candidate(g, i, v) ==> HasRow(m, i, v))
  }

  /** What the row of entry `n` stands for, and the columns it covers. */
  lemma RowMeaning(m: Matrix, g: seq<int>, n: int)
    requires Encodes(m, g) && m.IsEntry(n)
    ensures Candidate(g, CellOf(m, n), ValueOf(m, n)) && RowFor(m, m.first[n], CellOf(m, n), ValueOf(m, n))
    ensures forall c :: c in m.Cols(n) <==> m.IsHeader(c) && Touches(CellOf(m, n), ValueOf(m, n), m.name[c])
  {
    assert RowOk(m, g, n);
    RowColumns(m, g, n, CellOf(m, n), ValueOf(m, n));
  }

  lemma RowTouches(m: Matrix, g: seq<int>, n: int, i: int, v: int, c: int)
    requires Encodes(m, g) && m.IsEntry(n) && RowFor(m, m.first[n], i, v) && c in m.Cols(n)
    ensures m.IsHeader(c) && Touches(i, v, m.name[c])
  {
    var f := m.first[n];
    assert RowOk(m, g, n);
    var k :| 0 <= k < |m.col| && m.SameRow(n, k) && m.col[k] == c;
    assert m.IsEntry(k) && RowOk(m, g, k);
    assert k == f || k == f + 1 || k == f + 2 || k == f + 3;
  }

  lemma TouchedInRow(m: Matrix, g: seq<int>, n: int, i: int, v: int, c: int)
    requires Encodes(m, g) && m.IsEntry(n) && RowFor(m, m.first[n], i, v)
    requires m.IsHeader(c) && Touches(i, v, m.name[c])
    ensures c in m.Cols(n)
  {
    var f := m.first[n];
    assert RowOk(m, g, n);
    assert m.SameRow(n, f) && m.SameRow(n, f + 1) && m.SameRow(n, f + 2) && m.SameRow(n, f + 3);
    var k := if m.name[c] == i then f else if m.name[c] == m.name[f + 1] then f + 1
      else if m.name[c] == m.name[f + 2] then f + 2 else f + 3;
    assert m.IsEntry(k) && RowOk(m, g, k) && SameName(m, m.col[k], c);
  }

  lemma RowColumns(m: Matrix, g: seq<int>, n: int, i: int, v: int)
    requires Encodes(m, g) && m.IsEntry(n) && RowFor(m, m.first[n], i, v)
    ensures forall c :: c in m.Cols(n) <==> m.IsHeader(c) && Touches(i, v, m.name[c])
  {
    forall c | c in m.Cols(n) ensures m.IsHeader(c) && Touches(i, v, m.name[c]) {
      RowTouches(m, g, n, i, v, c);
    }
    forall c | m.IsHeader(c) && Touches(i, v, m.name[c]) ensures c in m.Cols(n) {
      TouchedInRow(m, g, n, i, v, c);
    }
  }

  lemma EncodesNames(m: Matrix, g: seq<int>)
    requires Encodes(m, g)
    ensures RowsNamed(m, CELLS)
  {
    forall n | m.IsEntry(n)
      ensures m.first[n] < m.last[n] && 0 <= m.name[m.first[n]] < CELLS && m.name[m.first[n]] < 100 {
      assert RowOk(m, g, n);
    }
    forall n, k | m.SameRow(n, k) && k != m.first[n]
      ensures m.name[k] >= 100 && m.name[k] % 10 == m.name[m.last[n]] % 10 {
      assert RowOk(m, g, n);
      RowNames(m, m.first[n], CellOf(m, n), ValueOf(m, n), k);
    }
  }

  lemma RowNames(m: Matrix, f: int, i: int, v: int, k: int)
    requires RowFor(m, f, i, v) && IsCell(i) && 1 <= v <= 9 && f < k <= f + 3
    ensures m.name[k] >= 100 && m.name[k] % 10 == v
  {
    UnitCell(RowUnit, i);
    UnitCell(ColUnit, i);
    UnitCell(BoxUnit, i);
  }

  /** Distinct unit and value pairs have distinct columns. */
  lemma NameOfUnique(k: Kind, u: int, v: int, k': Kind, u': int, v': int)
    requires 0 <= u < 9 && 0 <= u' < 9 && 1 <= v <= 9 && 1 <= v' <= 9
    requires NameOf(k, u, v) == NameOf(k', u', v')
    ensures k == k' && u == u' && v == v'
  {
  }

  /** Every exact cover of all the columns is a solution once written into the board. */
  lemma CoverSolves(m: Matrix, g: seq<int>, q: seq<int>)
    requires IsPuzzle(g) && Encodes(m, g) && RowsNamed(m, CELLS) && Entries(m, q)
    requires IsExactCover(m.Rows(), m.Headers(), Elements(q))
    ensures Solves(g, Filled(m, g, q))
  {
    var b := Filled(m, g, q);
    forall i | IsCell(i) ensures g[i] != 0 ==> b[i] == g[i] {
      if g[i] != 0 {
        GivenStays(m, g, q, i);
      }
    }
    forall i | IsCell(i) ensures 1 <= b[i] <= 9 {
      if g[i] == 0 {
        var n := CellFilled(m, g, q, i);
        RowMeaning(m, g, n);
      }
    }
    forall k: Kind, i, j | IsCell(i) && IsCell(j) && i != j && UnitOf(k, i) == UnitOf(k, j) ensures b[i] != b[j] {
      var u := UnitOf(k, i);
      UnitCell(k, i);
      forall v | 1 <= v <= 9 ensures Occurs(b, k, u, v) {
        ValueOccurs(m, g, q, k, u, v);
      }
      UnitFull(b, k, u);
    }
  }

  lemma GivenStays(m: Matrix, g: seq<int>, q: seq<int>, i: int)
    requires Encodes(m, g) && RowsNamed(m, CELLS) && Entries(m, q) && IsCell(i) && g[i] != 0
    ensures Filled(m, g, q)[i] == g[i]
  {
    forall n | n in q ensures CellOf(m, n) != i {
      RowMeaning(m, g, n);
    }
    FilledAt(m, g, q, i, 0);
  }

  /** Exactly one chosen row fills an empty cell. */
  lemma CellFilled(m: Matrix, g: seq<int>, q: seq<int>, i: int) returns (n: int)
    requires Encodes(m, g) && RowsNamed(m, CELLS) && Entries(m, q)
    requires IsExactCover(m.Rows(), m.Headers(), Elements(q))
    requires IsCell(i) && g[i] == 0
    ensures n in q && m.IsEntry(n) && CellOf(m, n) == i && Filled(m, g, q)[i] == ValueOf(m, n)
  {
    assert Needed(g, i) && HasColumn(m, i);
    var c :| m.IsHeader(c) && m.name[c] == i;
    assert c in m.Headers();
    n :| n in Elements(q) && n in m.Rows() && c in m.Rows()[n];
    RowMeaning(m, g, n);
    TouchedCell(g, CellOf(m, n), ValueOf(m, n), i);
    forall k | k in q && CellOf(m, k) == i ensures ValueOf(m, k) == ValueOf(m, n) {
      SameCellSameRow(m, g, q, n, k);
    }
    FilledAt(m, g, q, i, ValueOf(m, n));
  }

  lemma TouchedCell(g: seq<int>, i: int, v: int, name: int)
    requires Candidate(g, i, v) && IsCell(name) && Touches(i, v, name)
    ensures name == i
  {
    UnitCell(RowUnit, i);
    UnitCell(ColUnit, i);
    UnitCell(BoxUnit, i);
  }

  lemma TouchedUnit(g: seq<int>, i: int, v: int, k: Kind, u: int, w: int)
    requires Candidate(g, i, v) && 0 <= u < 9 && 1 <= w <= 9 && Touches(i, v, NameOf(k, u, w))
    ensures UnitOf(k, i) == u && v == w
  {
    var k' :| NameOf(k, u, w) == NameOf(k', UnitOf(k', i), v);
    UnitCell(k', i);
    NameOfUnique(k, u, w, k', UnitOf(k', i), v);
  }

  lemma ValueOccurs(m: Matrix, g: seq<int>, q: seq<int>, k: Kind, u: int, v: int)
    requires IsPuzzle(g) && Encodes(m, g) && RowsNamed(m, CELLS) && Entries(m, q)
    requires IsExactCover(m.Rows(), m.Headers(), Elements(q))
    requires 0 <= u < 9 && 1 <= v <= 9
    ensures Occurs(Filled(m, g, q), k, u, v)
  {
    var b := Filled(m, g, q);
    if Occurs(g, k, u, v) {
      var j :| IsCell(j) && UnitOf(k, j) == u && g[j] == v;
      GivenStays(m, g, q, j);
      assert UnitOf(k, j) == u && b[j] == v;
    } else {
      var x := NameOf(k, u, v);
      assert Needed(g, x) && HasColumn(m, x);
      var c :| m.IsHeader(c) && m.name[c] == x;
      assert c in m.Headers();
      var n :| n in Elements(q) && n in m.Rows() && c in m.Rows()[n];
      RowMeaning(m, g, n);
      var i := CellOf(m, n);
      TouchedUnit(g, i, ValueOf(m, n), k, u, v);
      assert Occurs(b, k, u, v) by {
        var n' := CellFilled(m, g, q, i);
        SameCellSameRow(m, g, q, n, n');
        assert UnitOf(k, i) == u && b[i] == v;
      }
    }
  }

  lemma SameCellSameRow(m: Matrix, g: seq<int>, q: seq<int>, n: int, k: int)
    requires Encodes(m, g) && Entries(m, q) && IsExactCover(m.Rows(), m.Headers(), Elements(q))
    requires n in q && k in q && CellOf(m, n) == CellOf(m, k)
    ensures n == k
  {
    RowMeaning(m, g, n);
    RowMeaning(m, g, k);
    assert Needed(g, CellOf(m, n)) && HasColumn(m, CellOf(m, n));
    var c :| m.IsHeader(c) && m.name[c] == CellOf(m, n);
    assert n in Elements(q) && k in Elements(q);
    assert c in m.Rows()[n] && c in m.Rows()[k];
  }

  // ----------------------------------------------- every solution is a cover

  /** A solution puts only candidates into the empty cells. */
  lemma SolutionCandidate(g: seq<int>, b: seq<int>, i: int)
    requires Solves(g, b) && IsCell(i) && g[i] == 0
    ensures Candidate(g, i, b[i])
  {
    forall k ensures !Occurs(g, k, UnitOf(k, i), b[i]) {}
  }

  /** The entry that starts the row placing `v` in cell `i`. */
  ghost function RowAt(m: Matrix, g: seq<int>, i: int, v: int): (n: int)
    requires Encodes(m, g) && Candidate(g, i, v)
    ensures m.IsEntry(n) && n == m.first[n] && CellOf(m, n) == i && ValueOf(m, n) == v
  {
    assert HasRow(m, i, v);
    var n :| m.IsEntry(n) && n == m.first[n] && RowFor(m, n, i, v);
    assert RowOk(m, g, n);
    RowNames(m, n, i, v, n + 3);
    n
  }

  ghost predicate Chosen(m: Matrix, g: seq<int>, b: seq<int>, n: int)
    requires Encodes(m, g) && Solves(g, b)
  {
    exists i {:trigger Candidate(g, i, b[i])} ::
      IsCell(i) && g[i] == 0 && Candidate(g, i, b[i]) && n == RowAt(m, g, i, b[i])
  }

  /** The rows that place a solution's values in the empty cells. */
  ghost function SolutionRows(m: Matrix, g: seq<int>, b: seq<int>): set<int>
    requires Encodes(m, g) && Solves(g, b)
  {
    set n | m.ncols < n < |m.col| && Chosen(m, g, b, n)
  }

  lemma ChosenAt(m: Matrix, g: seq<int>, b: seq<int>, i: int) returns (n: int)
    requires Encodes(m, g) && Solves(g, b) && IsCell(i) && g[i] == 0
    ensures n in SolutionRows(m, g, b) && m.IsEntry(n) && CellOf(m, n) == i && ValueOf(m, n) == b[i]
  {
    SolutionCandidate(g, b, i);
    n := RowAt(m, g, i, b[i]);
    assert Chosen(m, g, b, n);
  }

  lemma ChosenRow(m: Matrix, g: seq<int>, b: seq<int>, n: int)
    requires Encodes(m, g) && Solves(g, b) && n in SolutionRows(m, g, b)
    ensures m.IsEntry(n) && IsCell(CellOf(m, n)) && g[CellOf(m, n)] == 0
    ensures ValueOf(m, n) == b[CellOf(m, n)] && Candidate(g, CellOf(m, n), ValueOf(m, n))
    ensures n == RowAt(m, g, CellOf(m, n), ValueOf(m, n))
  {
  }

  /** Every column is covered by the row of some cell. */
  lemma SolutionCovers(m: Matrix, g: seq<int>, b: seq<int>, c: int) returns (n: int)
    requires IsPuzzle(g) && Encodes(m, g) && Solves(g, b) && c in m.Headers()
    ensures n in SolutionRows(m, g, b) && m.IsEntry(n) && c in m.Cols(n)
  {
    assert m.IsHeader(c) && HeaderOk(m, g, c);
    var x := m.name[c];
    if IsCell(x) && g[x] == 0 {
      n := ChosenAt(m, g, b, x);
    } else {
      var k, u, v :| 0 <= u < 9 && 1 <= v <= 9 && x == NameOf(k, u, v) && !Occurs(g, k, u, v);
      var i := SolutionCell(g, b, k, u, v);
      n := ChosenAt(m, g, b, i);
      assert Touches(i, v, x);
    }
    RowMeaning(m, g, n);
  }

  /** A value that the givens leave open in a unit is in one of its empty cells. */
  lemma SolutionCell(g: seq<int>, b: seq<int>, k: Kind, u: int, v: int) returns (i: int)
    requires Solves(g, b) && 0 <= u < 9 && 1 <= v <= 9 && !Occurs(g, k, u, v)
    ensures IsCell(i) && g[i] == 0 && UnitOf(k, i) == u && b[i] == v
  {
    UnitFull(b, k, u);
    assert Occurs(b, k, u, v);
    i :| IsCell(i) && UnitOf(k, i) == u && b[i] == v;
  }

  /** Rows of different cells share no column. */
  lemma SolutionDisjoint(m: Matrix, g: seq<int>, b: seq<int>, n: int, k: int)
    requires Encodes(m, g) && Solves(g, b)
    requires n in SolutionRows(m, g, b) && k in SolutionRows(m, g, b) && n != k
    ensures m.Cols(n) !! m.Cols(k)
  {
    ChosenRow(m, g, b, n);
    ChosenRow(m, g, b, k);
    RowMeaning(m, g, n);
    RowMeaning(m, g, k);
    forall c | c in m.Cols(n) && c in m.Cols(k) ensures false {
      SharedName(g, b, CellOf(m, n), CellOf(m, k), m.name[c]);
    }
  }

  lemma SharedName(g: seq<int>, b: seq<int>, i: int, j: int, x: int)
    requires Solves(g, b) && IsCell(i) && Candidate(g, i, b[i]) && IsCell(j) && Candidate(g, j, b[j])
    requires Touches(i, b[i], x) && Touches(j, b[j], x)
    ensures i == j
  {
    if IsCell(x) {
      TouchedCell(g, i, b[i], x);
      TouchedCell(g, j, b[j], x);
    } else {
      var k :| x == NameOf(k, UnitOf(k, i), b[i]);
      UnitCell(k, i);
      TouchedUnit(g, j, b[j], k, UnitOf(k, i), b[i]);
    }
  }

  lemma SolutionIsCover(m: Matrix, g: seq<int>, b: seq<int>)
    requires IsPuzzle(g) && Encodes(m, g) && Solves(g, b)
    ensures IsExactCover(m.Rows(), m.Headers(), SolutionRows(m, g, b))
  {
    var sel := SolutionRows(m, g, b);
    forall n | n in sel ensures n in m.Rows() && m.Rows()[n] <= m.Headers() {
      ChosenRow(m, g, b, n);
      RowMeaning(m, g, n);
    }
    forall c | c in m.Headers() ensures exists n :: n in sel && n in m.Rows() && c in m.Rows()[n] {
      var n := SolutionCovers(m, g, b, c);
      assert n in m.Rows();
    }
    forall n, k | n in sel && k in sel && n != k ensures n in m.Rows() && k in m.Rows() && m.Rows()[n] !! m.Rows()[k] {
      SolutionDisjoint(m, g, b, n, k);
    }
  }

  /** The puzzle has a solution exactly when the matrix has an exact cover. */
  lemma CoverableIffSolvable(m: Matrix, g: seq<int>)
    requires IsPuzzle(g) && Encodes(m, g)
    ensures Coverable(m.Rows(), m.Headers()) <==> exists b :: Solves(g, b)
  {
    if Coverable(m.Rows(), m.Headers()) {
      var sel :| IsExactCover(m.Rows(), m.Headers(), sel);
      var q := Listing(sel);
      forall i | 0 <= i < |q| ensures m.IsEntry(q[i]) {
        assert q[i] in Elements(q);
        assert q[i] in m.Rows();
      }
      EncodesNames(m, g);
      CoverSolves(m, g, q);
    }
    if b :| Solves(g, b) {
      SolutionIsCover(m, g, b);
    }
  }

  lemma {:induction false} Listing(s: set<int>) returns (q: seq<int>)
    ensures Elements(q) == s
    decreases s
  {
    if n :| n in s {
      var rest := Listing(s - {n});
      q := rest + [n];
      assert Elements(q) == Elements(rest) + {n} by {
        forall i | 0 <= i < |rest| ensures q[i] == rest[i] {}
        assert q[|rest|] == n;
      }
    } else {
      q := [];
      assert forall n :: n in s <==> n in Elements(q);
    }
  }
}
