/** SCS runoff curve numbers by land-cover class and hydrologic soil group
    (Table 1 of the OpenNSPECT Technical Guide; NLCD land-cover codes, with
    code 32 for unconsolidated shore). */
module CurveNumber {
  import opened Grids

  datatype Group = A | B | C | D

  /** The groups in the order the source works through them. */
  const Groups: seq<Group> := [A, B, C, D]

  /** The land-cover classes the table has a row for. */
  const LandCoverClasses: set<int> := {11, 21, 22, 23, 24, 31, 32, 41, 42, 43, 52, 71, 81, 82, 90, 95}

  const TableA: map<int, int> := map[
    11 := 0, 21 := 49, 22 := 61, 23 := 77, 24 := 89, 31 := 77, 32 := 0, 41 := 30,
    42 := 30, 43 := 30, 52 := 30, 71 := 30, 81 := 39, 82 := 67, 90 := 0, 95 := 0]

  const TableB: map<int, int> := map[
    11 := 0, 21 := 69, 22 := 75, 23 := 85, 24 := 92, 31 := 86, 32 := 0, 41 := 55,
    42 := 55, 43 := 55, 52 := 48, 71 := 58, 81 := 61, 82 := 78, 90 := 0, 95 := 0]

  const TableC: map<int, int> := map[
    11 := 0, 21 := 79, 22 := 83, 23 := 90, 24 := 94, 31 := 91, 32 := 0, 41 := 70,
    42 := 70, 43 := 70, 52 := 65, 71 := 71, 81 := 74, 82 := 85, 90 := 0, 95 := 0]

  const TableD: map<int, int> := map[
    11 := 0, 21 := 84, 22 := 87, 23 := 92, 24 := 95, 31 := 94, 32 := 0, 41 := 77,
    42 := 77, 43 := 77, 52 := 73, 71 := 78, 81 := 80, 82 := 89, 90 := 0, 95 := 0]

  /** The dictionary of one hydrologic group. */
  function Table(g: Group): map<int, int> {
    match g
    case A => TableA
    case B => TableB
    case C => TableC
    case D => TableD
  }

  /** The group a hydrologic-group raster value stands for (1 = A ... 4 = D). */
  function GroupOf(v: real): (r: Option<Group>)
    ensures r.Some? <==> v == 1.0 || v == 2.0 || v == 3.0 || v == 4.0
    ensures forall k :: 0 <= k < |Groups| ==> (r == Some(Groups[k]) <==> v == (k + 1) as real)
  {
    if v == 1.0 then Some(A)
    else if v == 2.0 then Some(B)
    else if v == 3.0 then Some(C)
    else if v == 4.0 then Some(D)
    else None
  }

  /** The `curvnum` code block: the dictionary entry for the code, 0 when the
      code has none. */
  function LookupOrZero(code: int, dic: map<int, int>): (cn: int)
    ensures code in dic ==> cn == dic[code]
    ensures code !in dic ==> cn == 0
  {
    if code in dic then dic[code] else 0
  }

  /** The curve number of a land-cover code in one group: the group's
      dictionary entry for a listed class, 0 for any other code. */
  function CurveNumberOf(g: Group, code: int): (cn: int)
    ensures code in LandCoverClasses ==> code in Table(g) && cn == Table(g)[code]
    ensures code !in LandCoverClasses ==> cn == 0
  {
    TableKeys(g);
    LookupOrZero(code, Table(g))
  }

  /** Every group's dictionary has a row for exactly the same sixteen classes. */
  lemma TableKeys(g: Group)
    ensures Table(g).Keys == LandCoverClasses
  {
    match g
    case A => KeysA();
    case B => KeysB();
    case C => KeysC();
    case D => KeysD();
  }

  lemma KeysA()
    ensures TableA.Keys == LandCoverClasses
  {
    forall c | c in TableA ensures c in LandCoverClasses {}
    forall c | c in LandCoverClasses ensures c in TableA {}
  }

  lemma KeysB()
    ensures TableB.Keys == LandCoverClasses
  {
    forall c | c in TableB ensures c in LandCoverClasses {}
    forall c | c in LandCoverClasses ensures c in TableB {}
  }

  lemma KeysC()
    ensures TableC.Keys == LandCoverClasses
  {
    forall c | c in TableC ensures c in LandCoverClasses {}
    forall c | c in LandCoverClasses ensures c in TableC {}
  }

  lemma KeysD()
    ensures TableD.Keys == LandCoverClasses
  {
    forall c | c in TableD ensures c in LandCoverClasses {}
    forall c | c in LandCoverClasses ensures c in TableD {}
  }

  /** Every curve number lies in 0..100. */
  lemma CurveNumberRange(g: Group, code: int)
    ensures 0 <= CurveNumberOf(g, code) <= 100
  {
    match g
    case A => RangeA();
    case B => RangeB();
    case C => RangeC();
    case D => RangeD();
  }

  lemma RangeA()
    ensures forall c :: c in TableA ==> 0 <= TableA[c] <= 100
  {
    forall c | c in TableA ensures 0 <= TableA[c] <= 100 {}
  }

  lemma RangeB()
    ensures forall c :: c in TableB ==> 0 <= TableB[c] <= 100
  {
    forall c | c in TableB ensures 0 <= TableB[c] <= 100 {}
  }

  lemma RangeC()
    ensures forall c :: c in TableC ==> 0 <= TableC[c] <= 100
  {
    forall c | c in TableC ensures 0 <= TableC[c] <= 100 {}
  }

  lemma RangeD()
    ensures forall c :: c in TableD ==> 0 <= TableD[c] <= 100
  {
    forall c | c in TableD ensures 0 <= TableD[c] <= 100 {}
  }

  /** Open water (11), unconsolidated shore (32) and the wetlands (90, 95) get
      0 in every group, and so does every code the table does not list. */
  lemma NoRunoffClasses(g: Group, code: int)
    ensures code in {11, 32, 90, 95} ==> CurveNumberOf(g, code) == 0
    ensures code !in LandCoverClasses ==> CurveNumberOf(g, code) == 0
  {
    TableKeys(g);
    if code in {11, 32, 90, 95} {
      assert code == 11 || code == 32 || code == 90 || code == 95;
      match g
      case A => assert TableA[11] == 0 && TableA[32] == 0 && TableA[90] == 0 && TableA[95] == 0;
      case B => assert TableB[11] == 0 && TableB[32] == 0 && TableB[90] == 0 && TableB[95] == 0;
      case C => assert TableC[11] == 0 && TableC[32] == 0 && TableC[90] == 0 && TableC[95] == 0;
      case D => assert TableD[11] == 0 && TableD[32] == 0 && TableD[90] == 0 && TableD[95] == 0;
    } else if code !in LandCoverClasses {
      assert code !in Table(g);
    }
  }

  /** For a fixed land cover the curve number never decreases from group A
      (high infiltration) to group D (low infiltration). */
  lemma CurveNumberByGroup(code: int)
    ensures CurveNumberOf(A, code) <= CurveNumberOf(B, code) <= CurveNumberOf(C, code) <= CurveNumberOf(D, code)
  {
  }

  // ---------------------------------------------------------------------------
  // Raster branch: curve-number fields in the land-cover attribute table

  function FieldName(g: Group): string {
    match g
    case A => "cn_A"
    case B => "cn_B"
    case C => "cn_C"
    case D => "cn_D"
  }

  const CurveNumberFieldNames: set<string> := {"cn_A", "cn_B", "cn_C", "cn_D"}

  /** The curve-number column of one group: the lookup applied to every row's
      VALUE. */
  function CurveNumberColumn(codes: seq<int>, g: Group): (col: seq<int>)
    ensures |col| == |codes|
    ensures forall j :: 0 <= j < |codes| ==> col[j] == LookupOrZero(codes[j], Table(g))
  {
    seq(|codes|, j requires 0 <= j < |codes| => LookupOrZero(codes[j], Table(g)))
  }

  /** The position of a group in `Groups`. */
  function GroupIndex(g: Group): (k: nat)
    ensures k < |Groups| && Groups[k] == g
  {
    match g
    case A => 0
    case B => 1
    case C => 2
    case D => 3
  }

  /** The attribute table's fields once the first i groups have had their
      curve-number field added. */
  function FieldsAfter(codes: seq<int>, fields: map<string, seq<int>>, i: nat): map<string, seq<int>>
    requires i <= |Groups|
  {
    if i == 0 then fields
    else FieldsAfter(codes, fields, i - 1)[FieldName(Groups[i - 1]) := CurveNumberColumn(codes, Groups[i - 1])]
  }

  /** The four field names are distinct. */
  lemma FieldNamesDistinct(g: Group, h: Group)
    ensures FieldName(g) == FieldName(h) ==> g == h
    ensures FieldName(g) in CurveNumberFieldNames
  {
    assert FieldName(g)[3] == "ABCD"[GroupIndex(g)];
    assert FieldName(h)[3] == "ABCD"[GroupIndex(h)];
  }

  /** The four updates written out. */
  lemma FieldsAfterUnfolded(codes: seq<int>, fields: map<string, seq<int>>)
    ensures FieldsAfter(codes, fields, |Groups|) ==
              fields[FieldName(A) := CurveNumberColumn(codes, A)][FieldName(B) := CurveNumberColumn(codes, B)]
                    [FieldName(C) := CurveNumberColumn(codes, C)][FieldName(D) := CurveNumberColumn(codes, D)]
  {
    assert Groups[0] == A && Groups[1] == B && Groups[2] == C && Groups[3] == D;
    assert FieldsAfter(codes, fields, 1) == fields[FieldName(A) := CurveNumberColumn(codes, A)];
    assert FieldsAfter(codes, fields, 2) == FieldsAfter(codes, fields, 1)[FieldName(B) := CurveNumberColumn(codes, B)];
    assert FieldsAfter(codes, fields, 3) == FieldsAfter(codes, fields, 2)[FieldName(C) := CurveNumberColumn(codes, C)];
    assert FieldsAfter(codes, fields, 4) == FieldsAfter(codes, fields, 3)[FieldName(D) := CurveNumberColumn(codes, D)];
  }

  /** After all four groups the table has the four curve-number fields, each
      holding its group's column, and every other field as it was. */
  lemma FieldsAfterAll(codes: seq<int>, fields: map<string, seq<int>>)
    ensures FieldsAfter(codes, fields, |Groups|).Keys == fields.Keys + CurveNumberFieldNames
    ensures forall g: Group :: FieldName(g) in FieldsAfter(codes, fields, |Groups|) &&
              FieldsAfter(codes, fields, |Groups|)[FieldName(g)] == CurveNumberColumn(codes, g)
    ensures forall name :: name in fields && name !in CurveNumberFieldNames ==>
              FieldsAfter(codes, fields, |Groups|)[name] == fields[name]
  {
    FieldsAfterUnfolded(codes, fields);
    var out := FieldsAfter(codes, fields, |Groups|);
    assert CurveNumberFieldNames == {FieldName(A), FieldName(B), FieldName(C), FieldName(D)};
    forall g: Group
      ensures FieldName(g) in out && out[FieldName(g)] == CurveNumberColumn(codes, g)
    {
      FieldNamesDistinct(g, A);
      FieldNamesDistinct(g, B);
      FieldNamesDistinct(g, C);
      FieldNamesDistinct(g, D);
    }
  }

  /** Adds the fields cn_A, cn_B, cn_C and cn_D to the land-cover attribute
      table (whose VALUE column is `codes` and whose other fields are
      `fields`), deleting an existing field of the same name first. */
  method AddCurveNumberFields(codes: seq<int>, fields: map<string, seq<int>>) returns (out: map<string, seq<int>>)
    ensures out.Keys == fields.Keys + CurveNumberFieldNames
    ensures forall g: Group :: FieldName(g) in out && out[FieldName(g)] == CurveNumberColumn(codes, g)
    ensures forall name :: name in fields && name !in CurveNumberFieldNames ==> out[name] == fields[name]
  {
    out := fields;
    for i := 0 to |Groups|
      invariant out == FieldsAfter(codes, fields, i)
    {
      var g := Groups[i];
      // An existing field of that name is deleted and the field added afresh:
      // as a map entry, the new column replaces the old one.
      out := out[FieldName(g) := CurveNumberColumn(codes, g)];
    }
    FieldsAfterAll(codes, fields);
  }

  /** The nested Con over the hydrologic-group raster: groups 1..4 select the
      cn_A..cn_D value of the cell's land cover; any other group value, and
      NoData in either input, gives NoData. */
  function CurveNumberCell(lc: Option<int>, hg: Cell): (r: Cell)
    ensures r.Some? <==> lc.Some? && hg.Some? && GroupOf(hg.value).Some?
    ensures r.Some? ==> r.value == CurveNumberOf(GroupOf(hg.value).value, lc.value) as real
    ensures r.Some? ==> 0.0 <= r.value <= 100.0
  {
    match (lc, hg)
    case (Some(code), Some(v)) =>
      (match GroupOf(v)
       case Some(g) =>
         CurveNumberRange(g, code);
         Some(CurveNumberOf(g, code) as real)
       case None => None)
    case _ => None
  }

  /** The land-cover argument: a classified raster, or one class everywhere. */
  datatype LandCover = ClassRaster(classes: seq<Option<int>>) | ClassConstant(code: int)

  datatype CurveNumberError = UnknownLandCover(code: int)

  /** curvNum: the curve-number raster. A land-cover raster goes through the
      attribute-table fields, so unlisted codes give 0; a constant class is
      looked up in the four dictionaries directly, so an unlisted constant
      raises a KeyError. */
  function CurvNum(lc: LandCover, hg: Grid): (r: Result<Grid, CurveNumberError>)
    requires lc.ClassRaster? ==> |lc.classes| == |hg|
    ensures r.Err? <==> lc.ClassConstant? && lc.code !in LandCoverClasses
    ensures r.Ok? ==> |r.value| == |hg|
    ensures r.Ok? && lc.ClassRaster? ==> forall i :: 0 <= i < |hg| ==> r.value[i] == CurveNumberCell(lc.classes[i], hg[i])
    ensures r.Ok? && lc.ClassConstant? ==> forall i :: 0 <= i < |hg| ==> r.value[i] == CurveNumberCell(Some(lc.code), hg[i])
  {
    match lc
    case ClassRaster(classes) =>
      Ok(seq(|hg|, i requires 0 <= i < |hg| => CurveNumberCell(classes[i], hg[i])))
    case ClassConstant(code) =>
      TableKeys(A);
      if code !in TableA then Err(UnknownLandCover(code))
      else Ok(seq(|hg|, i requires 0 <= i < |hg| => CurveNumberCell(Some(code), hg[i])))
  }

  /** Bare land (class 31), the worst case the workflow uses, gives 77, 86, 91
      and 94 in groups A to D. */
  lemma BareLand()
    ensures CurveNumberOf(A, 31) == 77 && CurveNumberOf(B, 31) == 86
    ensures CurveNumberOf(C, 31) == 91 && CurveNumberOf(D, 31) == 94
  {
  }
}
