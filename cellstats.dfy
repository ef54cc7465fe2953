/** Cell statistics over a stack of co-registered rasters with the "DATA"
    option: NoData inputs are ignored and a cell is NoData only when every
    input is NoData there. */
module CellStats {
  import opened Grids

  /** Larger of two cells, ignoring NoData. */
  function MaxData(a: Cell, b: Cell): (r: Cell)
    ensures r.None? <==> a.None? && b.None?
    ensures r == a || r == b
    ensures a.Some? ==> r.Some? && a.value <= r.value
    ensures b.Some? ==> r.Some? && b.value <= r.value
  {
    match (a, b)
    case (None, None) => None
    case (Some(x), None) => a
    case (None, Some(y)) => b
    case (Some(x), Some(y)) => if x >= y then a else b
  }

  /** The "MAXIMUM" statistic at one cell of a stack of rasters, and the
      maximum a raster reports over its data cells. */
  function CellMax(cs: seq<Cell>): (r: Cell)
    ensures r.None? <==> forall k :: 0 <= k < |cs| ==> cs[k].None?
    ensures r.Some? ==> exists k :: 0 <= k < |cs| && cs[k] == r
    ensures forall k :: 0 <= k < |cs| && cs[k].Some? ==> r.Some? && cs[k].value <= r.value
  {
    if |cs| == 0 then None
    else
      var rest := CellMax(cs[1..]);
      assert forall k :: 1 <= k < |cs| ==> cs[k] == cs[1..][k - 1];
      MaxData(cs[0], rest)
  }

  /** Smaller of two cells, ignoring NoData. */
  function MinData(a: Cell, b: Cell): (r: Cell)
    ensures r.None? <==> a.None? && b.None?
    ensures r == a || r == b
    ensures a.Some? ==> r.Some? && r.value <= a.value
    ensures b.Some? ==> r.Some? && r.value <= b.value
  {
    match (a, b)
    case (None, None) => None
    case (Some(x), None) => a
    case (None, Some(y)) => b
    case (Some(x), Some(y)) => if x <= y then a else b
  }

  /** The "MINIMUM" statistic at one cell, and the minimum a raster reports
      over its data cells. */
  function CellMin(cs: seq<Cell>): (r: Cell)
    ensures r.None? <==> forall k :: 0 <= k < |cs| ==> cs[k].None?
    ensures r.Some? ==> exists k :: 0 <= k < |cs| && cs[k] == r
    ensures forall k :: 0 <= k < |cs| && cs[k].Some? ==> r.Some? && r.value <= cs[k].value
  {
    if |cs| == 0 then None
    else
      var rest := CellMin(cs[1..]);
      assert forall k :: 1 <= k < |cs| ==> cs[k] == cs[1..][k - 1];
      MinData(cs[0], rest)
  }

  /** The values present among the cells, in order: every value of a cell
      with data, and nothing else. */
  function Values(cs: seq<Cell>): (vs: seq<real>)
    ensures |vs| <= |cs|
    ensures forall k :: 0 <= k < |cs| && cs[k].Some? ==> cs[k].value in vs
    ensures forall x :: x in vs ==> Some(x) in cs
  {
    if |cs| == 0 then []
    else
      assert forall k :: 1 <= k < |cs| ==> cs[k] == cs[1..][k - 1];
      (if cs[0].Some? then [cs[0].value] else []) + Values(cs[1..])
  }

  function Sum(xs: seq<real>): real {
    if |xs| == 0 then 0.0 else xs[0] + Sum(xs[1..])
  }

  /** The "SUM" statistic at one cell. */
  function CellSum(cs: seq<Cell>): Cell {
    if |Values(cs)| == 0 then None else Some(Sum(Values(cs)))
  }

  /** The "MEAN" statistic at one cell. */
  function CellMean(cs: seq<Cell>): Cell {
    var vs := Values(cs);
    if |vs| == 0 then None else Some(Sum(vs) / (|vs| as real))
  }

  lemma {:induction false} ValuesEmpty(cs: seq<Cell>)
    ensures |Values(cs)| == 0 <==> forall k :: 0 <= k < |cs| ==> cs[k].None?
  {
    if |cs| > 0 {
      ValuesEmpty(cs[1..]);
      assert forall k :: 1 <= k < |cs| ==> cs[k] == cs[1..][k - 1];
    }
  }

  /** The mean of a non-empty sequence lies between its smallest and its
      largest element. */
  lemma {:induction false} MeanBetween(xs: seq<real>)
    requires |xs| > 0
    ensures exists k :: 0 <= k < |xs| && xs[k] <= Sum(xs) / (|xs| as real)
    ensures exists k :: 0 <= k < |xs| && Sum(xs) / (|xs| as real) <= xs[k]
  {
    var n := |xs| as real;
    var m := Sum(xs) / n;
    assert n * m == Sum(xs);
    if forall k :: 0 <= k < |xs| ==> xs[k] > m {
      StrictSumAbove(xs, m);
      assert false;
    }
    if forall k :: 0 <= k < |xs| ==> xs[k] < m {
      StrictSumBelow(xs, m);
      assert false;
    }
  }

  lemma {:induction false} StrictSumAbove(xs: seq<real>, m: real)
    requires |xs| > 0
    requires forall k :: 0 <= k < |xs| ==> xs[k] > m
    ensures Sum(xs) > (|xs| as real) * m
  {
    if |xs| > 1 {
      StrictSumAbove(xs[1..], m);
    }
  }

  lemma {:induction false} StrictSumBelow(xs: seq<real>, m: real)
    requires |xs| > 0
    requires forall k :: 0 <= k < |xs| ==> xs[k] < m
    ensures Sum(xs) < (|xs| as real) * m
  {
    if |xs| > 1 {
      StrictSumBelow(xs[1..], m);
    }
  }

  /** The mean is NoData exactly when every input is NoData, and otherwise
      lies between the smallest and the largest value present. */
  lemma CellMeanBounds(cs: seq<Cell>)
    ensures CellMean(cs).None? <==> forall k :: 0 <= k < |cs| ==> cs[k].None?
    ensures CellMean(cs).Some? ==>
              (exists k :: 0 <= k < |cs| && cs[k].Some? && cs[k].value <= CellMean(cs).value) &&
              (exists k :: 0 <= k < |cs| && cs[k].Some? && CellMean(cs).value <= cs[k].value)
  {
    ValuesEmpty(cs);
    var vs := Values(cs);
    if |vs| > 0 {
      MeanBetween(vs);
      var m := Sum(vs) / (|vs| as real);
      var i :| 0 <= i < |vs| && vs[i] <= m;
      var j :| 0 <= j < |vs| && m <= vs[j];
      assert Some(vs[i]) in cs && Some(vs[j]) in cs;
    }
  }

  /** The two-raster mean used for the impact and karst scores: the average of
      two values, or the one value present. */
  lemma MeanOfTwo(a: Cell, b: Cell)
    ensures a.Some? && b.Some? ==> CellMean([a, b]) == Some((a.value + b.value) / 2.0)
    ensures a.Some? && b.None? ==> CellMean([a, b]) == a
    ensures a.None? && b.Some? ==> CellMean([a, b]) == b
    ensures a.None? && b.None? ==> CellMean([a, b]) == None
  {
    var vs := Values([a, b]);
    ValuesOfTwo(a, b);
    if a.Some? && b.Some? {
      SumOfTwo(a.value, b.value);
      assert |vs| as real == 2.0;
    } else if a.Some? {
      SumOfOne(a.value);
      assert CellMean([a, b]) == Some(Sum(vs) / 1.0);
    } else if b.Some? {
      SumOfOne(b.value);
      assert CellMean([a, b]) == Some(Sum(vs) / 1.0);
    }
  }

  lemma ValuesOfTwo(a: Cell, b: Cell)
    ensures Values([a, b]) == (if a.Some? then [a.value] else []) + (if b.Some? then [b.value] else [])
  {
    assert [a, b][1..] == [b];
    assert [b][1..] == [];
  }

  lemma SumOfOne(x: real)
    ensures Sum([x]) == x
  {
    assert [x][1..] == [];
  }

  lemma SumOfTwo(x: real, y: real)
    ensures Sum([x, y]) == x + y
  {
    assert [x, y][1..] == [y];
    SumOfOne(y);
  }

  /** The sum is NoData exactly when every input is NoData. */
  lemma CellSumNoData(cs: seq<Cell>)
    ensures CellSum(cs).None? <==> forall k :: 0 <= k < |cs| ==> cs[k].None?
  {
    ValuesEmpty(cs);
  }

  /** Summing a single raster gives that raster back. */
  lemma CellSumSingle(c: Cell)
    ensures CellSum([c]) == c
  {
    assert [c][1..] == [];
    SumValuesCons([c]);
    assert Values([c][1..]) == [];
  }

  /** Unfolds one cell of `Values` into `Sum`. */
  lemma SumValuesCons(cs: seq<Cell>)
    requires |cs| > 0
    ensures Sum(Values(cs)) == (if cs[0].Some? then cs[0].value else 0.0) + Sum(Values(cs[1..]))
    ensures |Values(cs)| == (if cs[0].Some? then 1 else 0) + |Values(cs[1..])|
  {
    var head := if cs[0].Some? then [cs[0].value] else [];
    var vs := head + Values(cs[1..]);
    if cs[0].Some? {
      assert vs[0] == cs[0].value && vs[1..] == Values(cs[1..]);
    } else {
      assert vs == Values(cs[1..]);
    }
  }

  /** A sum of non-negative values is non-negative. */
  lemma {:induction false} SumNonNegative(cs: seq<Cell>)
    requires forall k :: 0 <= k < |cs| && cs[k].Some? ==> 0.0 <= cs[k].value
    ensures CellSum(cs).Some? ==> 0.0 <= CellSum(cs).value
    ensures 0.0 <= Sum(Values(cs))
  {
    if |cs| > 0 {
      assert forall k :: 1 <= k < |cs| ==> cs[k] == cs[1..][k - 1];
      SumNonNegative(cs[1..]);
      SumValuesCons(cs);
    }
  }

  /** The cells of a stack of rasters at one position. */
  function Column(grids: seq<Grid>, c: nat): (col: seq<Cell>)
    requires forall k :: 0 <= k < |grids| ==> c < |grids[k]|
    ensures |col| == |grids|
    ensures forall k :: 0 <= k < |grids| ==> col[k] == grids[k][c]
  {
    seq(|grids|, k requires 0 <= k < |grids| => grids[k][c])
  }
}
