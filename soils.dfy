/** Preparation of gSSURGO soil attributes: the numeric hydrologic soil group,
    the K-factor with nulls replaced, and the merge of per-geodatabase rasters
    into one. */
module Soils {
  import opened Grids
  import opened CellStats

  // ---------------------------------------------------------------------------
  // Hydrologic soil group (the `grpNum` field-calculator code block)

  /** The dictionary lookup d[key] with d = {A: 1, B: 2, C: 3, D: 4}. */
  function GroupNumber(key: string): Option<int> {
    if key == "A" then Some(1)
    else if key == "B" then Some(2)
    else if key == "C" then Some(3)
    else if key == "D" then Some(4)
    else None
  }

  /** The key looked up for a field value: "D" for null, the last character of
      a compound code, the value itself otherwise. */
  function GroupKey(fld: Option<string>): string {
    match fld
    case None => "D"
    case Some(s) => if |s| > 1 then [s[|s| - 1]] else s
  }

  /** `grpNum`: the numeric hydrologic group, or the key that is missing from
      the dictionary (a KeyError). */
  function HydroGroupNum(fld: Option<string>): (r: Result<int, string>)
    ensures r.Ok? ==> 1 <= r.value <= 4
    ensures fld.None? ==> r == Ok(4)
    ensures r.Ok? <==> fld.None? || (|fld.value| > 0 && fld.value[|fld.value| - 1] in "ABCD")
    ensures r.Err? ==> (fld.Some? && |r.error| <= 1 &&
              r.error == (if |fld.value| > 1 then [fld.value[|fld.value| - 1]] else fld.value))
  {
    var key := GroupKey(fld);
    match GroupNumber(key)
    case Some(g) => Ok(g)
    case None => Err(key)
  }

  /** The letter of a numeric group. */
  function GroupLetter(g: int): char
    requires 1 <= g <= 4
  {
    "ABCD"[g - 1]
  }

  /** Letters and numbers of groups correspond one to one: A to 1, B to 2,
      C to 3, D to 4, both ways. */
  lemma GroupNumberRoundTrip(g: int, c: char)
    requires 1 <= g <= 4
    ensures HydroGroupNum(Some([GroupLetter(g)])) == Ok(g)
    ensures HydroGroupNum(Some([c])) == Ok(g) ==> c == GroupLetter(g)
  {
  }

  /** A compound code such as "A/D" maps as its last group alone. */
  lemma CompoundCode(s: string)
    requires |s| > 1
    ensures HydroGroupNum(Some(s)) == HydroGroupNum(Some([s[|s| - 1]]))
    ensures HydroGroupNum(Some("A/D")) == Ok(4)
  {
  }

  /** The HydroGrpNum attribute column computed from the joined
      HYDROLGRP_DCD column, or the first failing key. */
  function HydroGroupColumn(col: seq<Option<string>>): (r: Result<seq<int>, string>)
    ensures r.Ok? ==> (|r.value| == |col| &&
              forall i :: 0 <= i < |col| ==> HydroGroupNum(col[i]) == Ok(r.value[i]))
    ensures r.Err? ==> exists i :: 0 <= i < |col| && HydroGroupNum(col[i]) == Err(r.error)
  {
    if |col| == 0 then Ok([])
    else
      match HydroGroupNum(col[0])
      case Err(k) => Err(k)
      case Ok(g) =>
        match HydroGroupColumn(col[1..])
        case Err(k) =>
          assert forall i :: 1 <= i < |col| ==> col[i] == col[1..][i - 1];
          Err(k)
        case Ok(gs) =>
          assert forall i :: 1 <= i < |col| ==> col[i] == col[1..][i - 1];
          Ok([g] + gs)
  }

  // ---------------------------------------------------------------------------
  // K-factor (the `replaceNulls` field-calculator code block)

  const DefaultKFactor: real := 0.3

  /** `replaceNulls`: a null K-factor becomes 0.30, any other value is kept. */
  function ReplaceNull(k: Option<real>): (r: real)
    ensures k.Some? ==> r == k.value
    ensures k.None? ==> r == DefaultKFactor
  {
    match k
    case None => DefaultKFactor
    case Some(v) => v
  }

  /** The kFactor attribute column after the null replacement: no nulls left,
      present values unchanged. */
  function KFactorColumn(col: seq<Option<real>>): (r: seq<real>)
    ensures |r| == |col|
    ensures forall i :: 0 <= i < |col| && col[i].Some? ==> r[i] == col[i].value
    ensures forall i :: 0 <= i < |col| && col[i].None? ==> r[i] == DefaultKFactor
  {
    seq(|col|, i requires 0 <= i < |col| => ReplaceNull(col[i]))
  }

  // ---------------------------------------------------------------------------
  // SSURGOtoRaster: rasterize each geodatabase, skip failures, cell maximum

  datatype MergeError = NoRasters

  /** The rasters that were produced, in the order of the geodatabases. */
  function Successes(outcomes: seq<Result<Grid, string>>): (rs: seq<Grid>)
    ensures |rs| <= |outcomes|
  {
    if |outcomes| == 0 then []
    else
      var last := outcomes[|outcomes| - 1];
      Successes(outcomes[..|outcomes| - 1]) + (if last.Ok? then [last.value] else [])
  }

  lemma {:induction false} SuccessesMembers(outcomes: seq<Result<Grid, string>>)
    ensures forall k :: 0 <= k < |outcomes| && outcomes[k].Ok? ==> outcomes[k].value in Successes(outcomes)
    ensures forall g :: g in Successes(outcomes) ==> Ok(g) in outcomes
    ensures |Successes(outcomes)| == 0 <==> forall k :: 0 <= k < |outcomes| ==> outcomes[k].Err?
  {
    if |outcomes| > 0 {
      var init := outcomes[..|outcomes| - 1];
      SuccessesMembers(init);
      assert forall k :: 0 <= k < |init| ==> outcomes[k] == init[k];
    }
  }

  /** The cell-by-cell maximum (ignoring NoData) of a stack of rasters. */
  function MaxGrid(grids: seq<Grid>, n: nat): (r: Grid)
    requires forall k :: 0 <= k < |grids| ==> |grids[k]| == n
    ensures |r| == n
    ensures forall c :: 0 <= c < n ==> r[c] == CellMax(Column(grids, c))
  {
    seq(n, c requires 0 <= c < n => CellMax(Column(grids, c)))
  }

  /** What SSURGOtoRaster produces from the outcome of rasterizing each
      geodatabase: an error when none succeeded, otherwise at every cell the
      largest value any successful raster has there, NoData only where all of
      them are NoData. Failed geodatabases play no part. */
  function MergeSpec(outcomes: seq<Result<Grid, string>>, n: nat): (r: Result<Grid, MergeError>)
    requires forall k :: 0 <= k < |outcomes| && outcomes[k].Ok? ==> |outcomes[k].value| == n
    ensures r.Err? <==> forall k :: 0 <= k < |outcomes| ==> outcomes[k].Err?
    ensures r.Ok? ==> |r.value| == n
    ensures r.Ok? ==> forall c, k :: 0 <= c < n && 0 <= k < |outcomes| && outcomes[k].Ok? && outcomes[k].value[c].Some? ==>
              r.value[c].Some? && outcomes[k].value[c].value <= r.value[c].value
    ensures r.Ok? ==> forall c :: 0 <= c < n && r.value[c].Some? ==>
              exists k :: 0 <= k < |outcomes| && outcomes[k].Ok? && outcomes[k].value[c] == r.value[c]
  {
    SuccessesMembers(outcomes);
    var rs := Successes(outcomes);
    assert forall g :: g in rs ==> |g| == n by {
      forall g | g in rs ensures |g| == n {
        var k :| 0 <= k < |outcomes| && outcomes[k] == Ok(g);
      }
    }
    if |rs| == 0 then Err(NoRasters)
    else
      var m := MaxGrid(rs, n);
      MergeSpecCells(outcomes, rs, m, n);
      Ok(m)
  }

  lemma MergeSpecCells(outcomes: seq<Result<Grid, string>>, rs: seq<Grid>, m: Grid, n: nat)
    requires forall k :: 0 <= k < |outcomes| && outcomes[k].Ok? ==> |outcomes[k].value| == n
    requires rs == Successes(outcomes)
    requires forall k :: 0 <= k < |rs| ==> |rs[k]| == n
    requires m == MaxGrid(rs, n)
    ensures forall c, k :: 0 <= c < n && 0 <= k < |outcomes| && outcomes[k].Ok? && outcomes[k].value[c].Some? ==>
              m[c].Some? && outcomes[k].value[c].value <= m[c].value
    ensures forall c :: 0 <= c < n && m[c].Some? ==>
              exists k :: 0 <= k < |outcomes| && outcomes[k].Ok? && outcomes[k].value[c] == m[c]
  {
    SuccessesMembers(outcomes);
    forall c, k | 0 <= c < n && 0 <= k < |outcomes| && outcomes[k].Ok? && outcomes[k].value[c].Some?
      ensures m[c].Some? && outcomes[k].value[c].value <= m[c].value
    {
      var j :| 0 <= j < |rs| && rs[j] == outcomes[k].value;
      assert Column(rs, c)[j] == outcomes[k].value[c];
    }
    forall c | 0 <= c < n && m[c].Some?
      ensures exists k :: 0 <= k < |outcomes| && outcomes[k].Ok? && outcomes[k].value[c] == m[c]
    {
      var col := Column(rs, c);
      var j :| 0 <= j < |col| && col[j] == m[c];
      assert rs[j] in rs;
      var k :| 0 <= k < |outcomes| && outcomes[k] == Ok(rs[j]);
    }
  }

  /** SSURGOtoRaster: works through the geodatabases, appending each raster
      produced and skipping each one that fails, then takes the cell maximum. */
  method SsurgoToRaster(outcomes: seq<Result<Grid, string>>, n: nat) returns (r: Result<Grid, MergeError>)
    requires forall k :: 0 <= k < |outcomes| && outcomes[k].Ok? ==> |outcomes[k].value| == n
    ensures r == MergeSpec(outcomes, n)
  {
    var rasterList: seq<Grid> := [];
    for i := 0 to |outcomes|
      invariant rasterList == Successes(outcomes[..i])
    {
      assert outcomes[..i + 1][..i] == outcomes[..i];
      match outcomes[i] {
        case Ok(g) => rasterList := rasterList + [g];
        case Err(_) =>
      }
    }
    assert outcomes[..|outcomes|] == outcomes;
    if |rasterList| == 0 {
      r := Err(NoRasters);
    } else {
      SuccessesMembers(outcomes);
      assert forall k :: 0 <= k < |rasterList| ==> |rasterList[k]| == n by {
        forall k | 0 <= k < |rasterList| ensures |rasterList[k]| == n {
          assert rasterList[k] in rasterList;
          var j :| 0 <= j < |outcomes| && outcomes[j] == Ok(rasterList[k]);
        }
      }
      r := Ok(MaxGrid(rasterList, n));
    }
  }
}
