/** The exact cover problem that the sudoku solver searches: rows that are sets of columns,
    and the choice of rows that cover every column exactly once. */
module ExactCover {

  /** Row names and the columns each row covers. */
  type Rows = map<int, set<int>>

  /** `sel` names rows of `rows` that use columns of `a` only and cover each exactly once. */
  ghost predicate IsExactCover(rows: Rows, a: set<int>, sel: set<int>) {
    && (forall n :: n in sel ==> n in rows && rows[n] <= a)
    && (forall c :: c in a ==> exists n :: n in sel && n in rows && c in rows[n])
    && (forall n, k :: n in sel && k in sel && n != k ==> n in rows && k in rows && rows[n] !! rows[k])
  }

  ghost predicate Coverable(rows: Rows, a: set<int>) {
    exists sel :: IsExactCover(rows, a, sel)
  }

  /** Choosing a row and covering what it leaves covers everything. */
  lemma AddRow(rows: Rows, a: set<int>, sel: set<int>, x: int)
    requires x in rows && rows[x] <= a && rows[x] != {}
    requires IsExactCover(rows, a - rows[x], sel)
    ensures x !in sel && IsExactCover(rows, a, sel + {x})
  {
    var all := sel + {x};
    assert rows[x] !! (a - rows[x]);
    forall c | c in a ensures exists n :: n in all && n in rows && c in rows[n] {
      if c in rows[x] {
        assert x in all;
      } else {
        assert c in a - rows[x];
        var n :| n in sel && n in rows && c in rows[n];
        assert n in all;
      }
    }
  }

  /** Dropping one row of a cover leaves a cover of the columns it does not use. */
  lemma DropRow(rows: Rows, a: set<int>, sel: set<int>, n: int)
    requires n in sel && n in rows && IsExactCover(rows, a, sel)
    ensures IsExactCover(rows, a - rows[n], sel - {n})
  {
    var rest := sel - {n};
    forall c | c in a - rows[n] ensures exists k :: k in rest && k in rows && c in rows[k] {
      assert c in a;
      var k :| k in sel && k in rows && c in rows[k];
      assert k in rest;
    }
  }

  /** A cover of a set that holds `c` takes some row through `c`, and what that row
      leaves can be covered too. */
  lemma PickRow(rows: Rows, a: set<int>, c: int) returns (n: int)
    requires c in a && Coverable(rows, a)
    ensures n in rows && c in rows[n] && rows[n] <= a && Coverable(rows, a - rows[n])
  {
    var sel :| IsExactCover(rows, a, sel);
    n :| n in sel && n in rows && c in rows[n];
    DropRow(rows, a, sel, n);
  }
}
