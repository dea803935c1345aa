/**
 * The dataset the exhibits display: a loss triangle with index columns (one
 * row of labels per index entry), measure columns, origin and development
 * axes, and one origin x development matrix of optional amounts per key.
 */
module Triangles {
  import opened Wrappers
  import opened Host
  import opened ControlLayout

  /** Rows by origin, columns by development; None is a missing cell. */
  type Matrix = seq<seq<Option<Amount>>>

  /** A lookup key: one label per index column, in column order, and a measure. */
  datatype Key = Key(labels: seq<string>, measure: string)

  datatype Triangle = Triangle(
    indexColumns: seq<string>,
    index: seq<seq<string>>,
    columns: seq<string>,
    origin: seq<string>,
    development: seq<int>,
    cells: map<Key, Matrix>,
    isCumulative: bool)

  predicate IsMatrix(m: Matrix, rows: nat, cols: nat)
  {
    |m| == rows && forall i :: 0 <= i < |m| ==> |m[i]| == cols
  }

  /** Every index row has one label per index column; every matrix spans the two axes. */
  predicate WellFormed(t: Triangle)
  {
    && (forall i :: 0 <= i < |t.index| ==> |t.index[i]| == |t.indexColumns|)
    && (forall k :: k in t.cells ==> IsMatrix(t.cells[k], |t.origin|, |t.development|))
  }

  /** The conversion of an incremental triangle to cumulative form. */
  function IncrToCum(t: Triangle): (r: Triangle)
    requires !t.isCumulative
    ensures r.isCumulative
    ensures r.indexColumns == t.indexColumns && r.index == t.index && r.columns == t.columns
    ensures r.origin == t.origin && r.development == t.development
  {
    t.(isCumulative := true)
  }

  /** A triangle in cumulative form: converted once when it is not already. */
  function Cumulative(t: Triangle): (r: Triangle)
    requires WellFormed(t)
    ensures WellFormed(r) && r.isCumulative
    ensures t.isCumulative ==> r == t
    ensures r.indexColumns == t.indexColumns && r.index == t.index && r.columns == t.columns
  {
    if t.isCumulative then t else IncrToCum(t)
  }

  /** The j-th index column's labels, one per index row, duplicates included. */
  function ColumnValues(t: Triangle, j: nat): seq<string>
    requires WellFormed(t) && j < |t.indexColumns|
  {
    seq(|t.index|, i requires 0 <= i < |t.index| => t.index[i][j])
  }

  /** `index.to_dict(orient='list')`: one filter per index column, in column order. */
  function IndexToDict(t: Triangle): seq<Filter>
    requires WellFormed(t)
  {
    seq(|t.indexColumns|, j requires 0 <= j < |t.indexColumns| => Filter(t.indexColumns[j], ColumnValues(t, j)))
  }

  /** The filter over the measure columns. */
  function AmountFilter(t: Triangle): Filter
  {
    Filter("Amount", t.columns)
  }

  /** `prod(index.shape)`: index rows times index columns. */
  function IndexShapeProduct(t: Triangle): nat
  {
    |t.index| * |t.indexColumns|
  }

  /** The index controls together are exactly `prod(index.shape)` rows tall. */
  lemma IndexHeightIsShapeProduct(t: Triangle)
    requires WellFormed(t)
    ensures TotalHeight(IndexToDict(t)) == IndexShapeProduct(t)
  {
    TotalHeightUniform(IndexToDict(t), |t.index|);
  }

  /** The cross-section at a key; None when the key is unset or absent. */
  function Loc(t: Triangle, key: Option<Key>): (r: Option<Matrix>)
    requires WellFormed(t)
    ensures r.Some? <==> key.Some? && key.value in t.cells
    ensures r.Some? ==> IsMatrix(r.value, |t.origin|, |t.development|)
  {
    if key.Some? && key.value in t.cells then Some(t.cells[key.value]) else None
  }

  /** The key the controls select before any change: the first index row and the first measure. */
  function InitialKey(t: Triangle): Key
    requires |t.index| >= 1 && |t.columns| >= 1
  {
    Key(t.index[0], t.columns[0])
  }
}
