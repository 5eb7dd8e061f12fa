/**
 * The seeder of the `nutrient_limits` table: every row of the reference
 * table whose nutrient exists is turned into a database row (with the
 * effective upper limit and a source label), the others are skipped, and the
 * rows are upserted in batches of fifty. The database calls are left to the
 * caller: the nutrients come in as a parameter and the batches go out as the
 * result.
 */
module SeedLimits {
  import opened Common
  import opened NutrientLimits

  /** A nutrient as the `nutrients` query returns it. */
  datatype NutrientRef = NutrientRef(id: string, slug: string)

  /** The slug-to-id map the seeder builds from the nutrients, a later row overriding an earlier one. */
  function IdMap(nutrients: seq<NutrientRef>): (m: map<string, string>)
  {
    if |nutrients| == 0 then map[]
    else
      var last := nutrients[|nutrients| - 1];
      IdMap(nutrients[..|nutrients| - 1])[last.slug := last.id]
  }

  /** A slug is mapped exactly when some nutrient has it, and to the id of the last such nutrient. */
  lemma {:induction false} IdMapLastWins(nutrients: seq<NutrientRef>, slug: string)
    ensures slug in IdMap(nutrients) <==> exists i | 0 <= i < |nutrients| :: nutrients[i].slug == slug
    ensures slug in IdMap(nutrients) ==> exists i | 0 <= i < |nutrients| ::
      && nutrients[i].slug == slug && IdMap(nutrients)[slug] == nutrients[i].id
      && forall j | i < j < |nutrients| :: nutrients[j].slug != slug
    decreases |nutrients|
  {
    if |nutrients| > 0 {
      var init := nutrients[..|nutrients| - 1];
      var last := nutrients[|nutrients| - 1];
      IdMapLastWins(init, slug);
      assert forall i | 0 <= i < |init| :: init[i] == nutrients[i];
      if slug != last.slug && slug in IdMap(nutrients) {
        var i :| 0 <= i < |init| && init[i].slug == slug && IdMap(init)[slug] == init[i].id
          && forall j | i < j < |init| :: init[j].slug != slug;
        assert forall j | i < j < |nutrients| :: nutrients[j].slug != slug;
      }
    }
  }

  /** `getNutrientIdMap`: the loop that fills the map. */
  method GetNutrientIdMap(nutrients: seq<NutrientRef>) returns (m: map<string, string>)
    ensures m == IdMap(nutrients)
  {
    m := map[];
    for i := 0 to |nutrients|
      invariant m == IdMap(nutrients[..i])
    {
      assert nutrients[..i + 1][..i] == nutrients[..i];
      m := m[nutrients[i].slug := nutrients[i].id];
    }
    assert nutrients[..|nutrients|] == nutrients;
  }

  /** A row of `nutrient_limits` as the seeder inserts it. */
  datatype LimitRow = LimitRow(
    nutrientId: string,
    ageGroup: AgeGroup,
    sex: Sex,
    rda: Option<real>,
    upperLimit: Option<real>,
    unit: string,
    source: string)

  /** The `source` column: "IOM" and "EFSA_SAFE" for those upper-limit sources, "EFSA" for any other or none. */
  function SourceLabel(s: Option<UlSource>): (tag: string)
    ensures tag == "IOM" <==> s == Some(Iom)
    ensures tag == "EFSA_SAFE" <==> s == Some(EfsaSafeLevel)
    ensures tag == "EFSA" <==> !(s == Some(Iom) || s == Some(EfsaSafeLevel))
  {
    if s == Some(Iom) then "IOM"
    else if s == Some(EfsaSafeLevel) then "EFSA_SAFE"
    else "EFSA"
  }

  /** `limit.upper_limit ?? limit.safe_level ?? null`. */
  function UpperLimitColumn(limit: NutrientLimitData): (ul: Option<real>)
    ensures ul == GetEffectiveUpperLimit(limit)
  {
    if limit.upperLimit.Some? then limit.upperLimit
    else match limit.safeLevel
      case Level(amount) => Some(amount)
      case _ => None
  }

  /** The row inserted for a reference row whose nutrient has id `id`. */
  function RowFor(limit: NutrientLimitData, id: string): (r: LimitRow)
    ensures r.nutrientId == id && r.ageGroup == limit.ageGroup && r.sex == limit.sex
    ensures r.rda == limit.rda && r.unit == limit.unit
    ensures r.upperLimit == GetEffectiveUpperLimit(limit)
    ensures r.source == SourceLabel(limit.ulSource)
  {
    LimitRow(id, limit.ageGroup, limit.sex, limit.rda, UpperLimitColumn(limit), limit.unit, SourceLabel(limit.ulSource))
  }

  /** `nutrientIdMap.get(slug)` is truthy: the nutrient exists (with a non-empty id). */
  predicate HasNutrient(idMap: map<string, string>, limit: NutrientLimitData)
  {
    limit.nutrientSlug in idMap && idMap[limit.nutrientSlug] != ""
  }

  /** The rows to insert, in table order. */
  function Rows(limits: seq<NutrientLimitData>, idMap: map<string, string>): (rows: seq<LimitRow>)
    ensures |rows| <= |limits|
  {
    if |limits| == 0 then []
    else
      var last := limits[|limits| - 1];
      Rows(limits[..|limits| - 1], idMap)
        + (if HasNutrient(idMap, last) then [RowFor(last, idMap[last.nutrientSlug])] else [])
  }

  /** The slugs of the skipped reference rows, in table order. */
  function Skipped(limits: seq<NutrientLimitData>, idMap: map<string, string>): (skipped: seq<string>)
    ensures |skipped| <= |limits|
  {
    if |limits| == 0 then []
    else
      var last := limits[|limits| - 1];
      Skipped(limits[..|limits| - 1], idMap) + (if HasNutrient(idMap, last) then [] else [last.nutrientSlug])
  }

  /** Every reference row is either inserted or skipped: the counts add up to the table size. */
  lemma {:induction false} RowsAndSkippedCount(limits: seq<NutrientLimitData>, idMap: map<string, string>)
    ensures |Rows(limits, idMap)| + |Skipped(limits, idMap)| == |limits|
    decreases |limits|
  {
    if |limits| > 0 {
      RowsAndSkippedCount(limits[..|limits| - 1], idMap);
    }
  }

  /** An inserted row is the row of a reference row whose nutrient exists. */
  lemma {:induction false} RowsMembers(limits: seq<NutrientLimitData>, idMap: map<string, string>, r: LimitRow)
    ensures r in Rows(limits, idMap) <==>
      exists i | 0 <= i < |limits| :: HasNutrient(idMap, limits[i]) && r == RowFor(limits[i], idMap[limits[i].nutrientSlug])
    decreases |limits|
  {
    if |limits| > 0 {
      var init := limits[..|limits| - 1];
      RowsMembers(init, idMap, r);
      assert forall i | 0 <= i < |init| :: init[i] == limits[i];
    }
  }

  /** A skipped slug is the slug of a reference row whose nutrient does not exist. */
  lemma {:induction false} SkippedMembers(limits: seq<NutrientLimitData>, idMap: map<string, string>, slug: string)
    ensures slug in Skipped(limits, idMap) <==>
      exists i | 0 <= i < |limits| :: !HasNutrient(idMap, limits[i]) && limits[i].nutrientSlug == slug
    decreases |limits|
  {
    if |limits| > 0 {
      var init := limits[..|limits| - 1];
      SkippedMembers(init, idMap, slug);
      assert forall i | 0 <= i < |init| :: init[i] == limits[i];
    }
  }

  /** Rows keep the table's order: the rows of a prefix of the table are a prefix of the rows. */
  lemma {:induction false} RowsInTableOrder(limits: seq<NutrientLimitData>, idMap: map<string, string>, n: nat)
    requires n <= |limits|
    ensures |Rows(limits[..n], idMap)| <= |Rows(limits, idMap)|
    ensures Rows(limits[..n], idMap) == Rows(limits, idMap)[..|Rows(limits[..n], idMap)|]
    decreases |limits|
  {
    if n < |limits| {
      var init := limits[..|limits| - 1];
      assert limits[..n] == init[..n];
      RowsInTableOrder(init, idMap, n);
    } else {
      assert limits[..n] == limits;
    }
  }

  /** The loop of `seedNutrientLimits` that builds `limitsToInsert` and `skipped`. */
  method PrepareLimits(limits: seq<NutrientLimitData>, idMap: map<string, string>)
    returns (rows: seq<LimitRow>, skipped: seq<string>)
    ensures rows == Rows(limits, idMap)
    ensures skipped == Skipped(limits, idMap)
  {
    rows := [];
    skipped := [];
    for i := 0 to |limits|
      invariant rows == Rows(limits[..i], idMap)
      invariant skipped == Skipped(limits[..i], idMap)
    {
      var limit := limits[i];
      assert limits[..i + 1][..i] == limits[..i];
      if !(limit.nutrientSlug in idMap && idMap[limit.nutrientSlug] != "") {
        skipped := skipped + [limit.nutrientSlug];
        continue;
      }
      var nutrientId := idMap[limit.nutrientSlug];
      var effectiveUl :=
        if limit.upperLimit.Some? then limit.upperLimit
        else if limit.safeLevel.Level? then Some(limit.safeLevel.amount)
        else None;
      var source := "EFSA";
      if limit.ulSource == Some(Iom) {
        source := "IOM";
      } else if limit.ulSource == Some(EfsaSafeLevel) {
        source := "EFSA_SAFE";
      }
      rows := rows + [LimitRow(nutrientId, limit.ageGroup, limit.sex, limit.rda, effectiveUl, limit.unit, source)];
    }
    assert limits[..|limits|] == limits;
  }

  const BatchSize: nat := 50

  /** The rows cut into consecutive batches of `BatchSize`, the last one possibly shorter. */
  function Batches(rows: seq<LimitRow>): (bs: seq<seq<LimitRow>>)
    decreases |rows|
  {
    if |rows| == 0 then []
    else if |rows| <= BatchSize then [rows]
    else [rows[..BatchSize]] + Batches(rows[BatchSize..])
  }

  function Flatten(bs: seq<seq<LimitRow>>): seq<LimitRow>
  {
    if |bs| == 0 then [] else bs[0] + Flatten(bs[1..])
  }

  /**
   * The batches partition the rows in order, none is empty, and every batch
   * but the last holds exactly `BatchSize` rows.
   */
  lemma {:induction false} BatchesPartition(rows: seq<LimitRow>)
    ensures Flatten(Batches(rows)) == rows
    ensures forall k | 0 <= k < |Batches(rows)| :: 0 < |Batches(rows)[k]| <= BatchSize
    ensures forall k | 0 <= k < |Batches(rows)| - 1 :: |Batches(rows)[k]| == BatchSize
    decreases |rows|
  {
    if |rows| > BatchSize {
      var rest := rows[BatchSize..];
      BatchesPartition(rest);
      assert Batches(rows)[1..] == Batches(rest);
      assert rows == rows[..BatchSize] + rest;
    }
  }

  /** The number of batches is the number of rows divided by `BatchSize`, rounded up. */
  lemma {:induction false} BatchCount(rows: seq<LimitRow>)
    ensures |Batches(rows)| == (|rows| + BatchSize - 1) / BatchSize
    decreases |rows|
  {
    if |rows| > BatchSize {
      BatchCount(rows[BatchSize..]);
    }
  }

  /**
   * The upsert loop: batch `i / 50 + 1` holds `rows[i..i + 50]`. A failing
   * upsert is only logged, so every batch is sent whatever happens.
   */
  method UpsertBatches(rows: seq<LimitRow>) returns (sent: seq<seq<LimitRow>>)
    ensures sent == Batches(rows)
  {
    sent := [];
    var i := 0;
    while i < |rows|
      invariant 0 <= i
      invariant i < |rows| ==> Batches(rows) == sent + Batches(rows[i..])
      invariant i >= |rows| ==> Batches(rows) == sent
      decreases |rows| - i
    {
      var end := if i + BatchSize < |rows| then i + BatchSize else |rows|;
      var batch := rows[i..end];
      if i + BatchSize < |rows| {
        assert rows[i..][BatchSize..] == rows[i + BatchSize..];
        assert rows[i..][..BatchSize] == batch;
      } else {
        assert rows[i..] == batch;
      }
      sent := sent + [batch];
      i := i + BatchSize;
    }
    if |rows| == 0 {
      assert Batches(rows) == [];
    }
  }

  /**
   * `seedNutrientLimits`: build the id map, prepare the rows, and send them
   * in batches. `nutrients` is the result of the `nutrients` query; a failed
   * query throws before anything is sent.
   */
  method SeedNutrientLimits(nutrients: Outcome<seq<NutrientRef>>, limits: seq<NutrientLimitData>)
    returns (outcome: Outcome<()>, sent: seq<seq<LimitRow>>, skipped: seq<string>)
    ensures nutrients.Threw? ==> outcome == Threw("Failed to fetch nutrients: " + nutrients.message) && sent == []
    ensures nutrients.Returned? ==> outcome.Returned?
    ensures nutrients.Returned? ==> Flatten(sent) == Rows(limits, IdMap(nutrients.value))
    ensures nutrients.Returned? ==> skipped == Skipped(limits, IdMap(nutrients.value))
    ensures |Flatten(sent)| + |skipped| == if nutrients.Returned? then |limits| else 0
  {
    if nutrients.Threw? {
      assert Flatten([]) == [];
      return Threw("Failed to fetch nutrients: " + nutrients.message), [], [];
    }
    var idMap := GetNutrientIdMap(nutrients.value);
    var rows;
    rows, skipped := PrepareLimits(limits, idMap);
    sent := UpsertBatches(rows);
    BatchesPartition(rows);
    RowsAndSkippedCount(limits, idMap);
    outcome := Returned(());
  }
}
