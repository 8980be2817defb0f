/**
 One row of the key-value store as its clients see it: reads that fail come back as error text.
 */
module KvRow {
  import opened Options
  import opened Text
  import opened FileTree

  const NO_COLUMN := "ERR 5: Column key not found\n"

  /** What the client's Get returns: the value, or the status text of the worker. */
  function Fetch(cols: Columns, col: string): (v: string)
    ensures col !in cols ==> StartsWith(v, "ERR")
  {
    if col in cols then cols[col]
    else if cols == map[] then "ERR 5: Row key not found\n"
    else NO_COLUMN
  }

  /** s' differs from s in column k of path p only. */
  ghost predicate Differs(s: Columns, s': Columns, p: Path, k: Kind, v: Option<string>) {
    && (Tidy(s) ==> Tidy(s'))
    && forall q, j :: ValidCol(q, j) ==> At(s', q, j) == if q == p && j == k then v else At(s, q, j)
  }

  class Row {
    var cols: Columns

    constructor (cols: Columns)
      ensures this.cols == cols
    {
      this.cols := cols;
    }

    method Get(col: string) returns (v: string)
      ensures v == Fetch(cols, col)
    {
      v := Fetch(cols, col);
    }

    /** Writes a column; the ghost arguments say whose column it is. */
    method Put(col: string, v: string, ghost p: Path, ghost k: Kind)
      modifies this
      ensures cols == old(cols)[col := v]
      ensures ValidCol(p, k) && col == Col(p, k) ==> Differs(old(cols), cols, p, k, Some(v))
    {
      cols := cols[col := v];
      assert ValidCol(p, k) && col == Col(p, k) ==> Differs(old(cols), cols, p, k, Some(v)) by {
        if ValidCol(p, k) && col == Col(p, k) {
          AtPut(old(cols), p, k, v);
        }
      }
    }

    /** Writes a column that still has the value the caller read; otherwise nothing happens. */
    method CPut(col: string, v1: string, v2: string, ghost p: Path, ghost k: Kind)
      modifies this
      ensures cols == if col in old(cols) && old(cols)[col] == v1 then old(cols)[col := v2] else old(cols)
      ensures ValidCol(p, k) && col == Col(p, k) && col in old(cols) && old(cols)[col] == v1 ==> Differs(old(cols), cols, p, k, Some(v2))
    {
      if col in cols && cols[col] == v1 {
        Put(col, v2, p, k);
      }
    }

    method Delete(col: string, ghost p: Path, ghost k: Kind)
      modifies this
      ensures cols == old(cols) - {col}
      ensures ValidCol(p, k) && col == Col(p, k) ==> Differs(old(cols), cols, p, k, None)
    {
      cols := cols - {col};
      assert ValidCol(p, k) && col == Col(p, k) ==> Differs(old(cols), cols, p, k, None) by {
        if ValidCol(p, k) && col == Col(p, k) {
          AtDelete(old(cols), p, k);
        }
      }
    }
  }
}
