/**
 * `POST /api/biomarkers` (app/api/biomarkers/route.ts): which OCR rows are
 * saved, how the enriched rows split into matched and unmatched at the
 * confidence threshold, the rows written, the counts answered, and the
 * statuses the report goes through. Authentication, the request body, the
 * report lookup, the enrichment (`BiomarkerCache.EnrichOcrResults`) and the
 * insert are inputs.
 */
module SaveBiomarkers {
  import opened Common
  import opened Strings
  import opened BiomarkerMatching

  const MatchConfidenceThreshold: real := 0.65

  // ---------------------------------------------------------------------------
  // Candidates
  // ---------------------------------------------------------------------------

  /**
   * A row worth saving: an object not deselected, with a non-empty string
   * name, and either a numeric value or a text value that is not blank.
   */
  predicate IsCandidate(b: JsValue)
  {
    && b.JObject?
    && Field(b.fields, "selected") != JBool(false)
    && Field(b.fields, "name").JStr? && Field(b.fields, "name").s != ""
    && (Field(b.fields, "value").JNum? || HasTextValue(b))
  }

  /** `value_in_text ?? null` is a string that trims to something. */
  predicate HasTextValue(b: JsValue)
    requires b.JObject?
  {
    Field(b.fields, "value_in_text").JStr? && |Trim(Field(b.fields, "value_in_text").s)| > 0
  }

  /** The candidates, in order. */
  function Candidates(biomarkers: seq<JsValue>): (r: seq<JsValue>)
    ensures |r| <= |biomarkers|
    ensures forall k | 0 <= k < |r| :: IsCandidate(r[k])
  {
    if |biomarkers| == 0 then []
    else
      var last := biomarkers[|biomarkers| - 1];
      Candidates(biomarkers[..|biomarkers| - 1]) + (if IsCandidate(last) then [last] else [])
  }

  /** A row is kept exactly when it is one of the input rows and a candidate. */
  lemma {:induction false} CandidatesMembers(biomarkers: seq<JsValue>, b: JsValue)
    ensures b in Candidates(biomarkers) <==> b in biomarkers && IsCandidate(b)
    decreases |biomarkers|
  {
    if |biomarkers| > 0 {
      var init := biomarkers[..|biomarkers| - 1];
      CandidatesMembers(init, b);
      assert biomarkers == init + [biomarkers[|biomarkers| - 1]];
    }
  }

  /** What the enrichment receives for a candidate. */
  function ReadingOf(b: JsValue): (r: OcrBiomarkerResult)
    requires IsCandidate(b)
    ensures r.name == Field(b.fields, "name").s && r.name != ""
    ensures r.value.Some? <==> Field(b.fields, "value").JNum?
    ensures r.value.Some? || r.valueInText.Some?
  {
    var value := Field(b.fields, "value");
    var text := Field(b.fields, "value_in_text");
    OcrBiomarkerResult(
      Field(b.fields, "name").s,
      if value.JNum? then Some(value.n) else None,
      if text.JStr? then Some(text.s) else None)
  }

  function Readings(candidates: seq<JsValue>): (r: seq<OcrBiomarkerResult>)
    requires forall k | 0 <= k < |candidates| :: IsCandidate(candidates[k])
    ensures |r| == |candidates|
    ensures forall k | 0 <= k < |r| :: r[k] == ReadingOf(candidates[k])
  {
    seq(|candidates|, k requires 0 <= k < |candidates| => ReadingOf(candidates[k]))
  }

  // ---------------------------------------------------------------------------
  // Matched and unmatched
  // ---------------------------------------------------------------------------

  /** A result is saved when it has a biomarker id and its confidence reaches the threshold. */
  predicate IsMatched(r: EnrichedBiomarkerResult)
  {
    r.biomarkerId.Some? && r.biomarkerId.value != "" && r.matchConfidence >= MatchConfidenceThreshold
  }

  /** `enriched.filter(matched)`. */
  function MatchedResults(enriched: seq<EnrichedBiomarkerResult>): (r: seq<EnrichedBiomarkerResult>)
    ensures |r| <= |enriched|
    ensures forall k | 0 <= k < |r| :: IsMatched(r[k])
  {
    if |enriched| == 0 then []
    else
      var last := enriched[|enriched| - 1];
      MatchedResults(enriched[..|enriched| - 1]) + (if IsMatched(last) then [last] else [])
  }

  /** `enriched.filter(unmatched)`: the complement condition. */
  function UnmatchedResults(enriched: seq<EnrichedBiomarkerResult>): (r: seq<EnrichedBiomarkerResult>)
    ensures |r| <= |enriched|
    ensures forall k | 0 <= k < |r| :: !IsMatched(r[k])
  {
    if |enriched| == 0 then []
    else
      var last := enriched[|enriched| - 1];
      UnmatchedResults(enriched[..|enriched| - 1]) + (if IsMatched(last) then [] else [last])
  }

  /** The two filters split the enriched list: every result lands in exactly one, in order. */
  lemma {:induction false} PartitionCovers(enriched: seq<EnrichedBiomarkerResult>)
    ensures |MatchedResults(enriched)| + |UnmatchedResults(enriched)| == |enriched|
    ensures forall r :: (r in MatchedResults(enriched) <==> r in enriched && IsMatched(r))
    ensures forall r :: (r in UnmatchedResults(enriched) <==> r in enriched && !IsMatched(r))
    decreases |enriched|
  {
    if |enriched| > 0 {
      var init := enriched[..|enriched| - 1];
      PartitionCovers(init);
      assert enriched == init + [enriched[|enriched| - 1]];
    }
  }

  /** A result the enrichment could not match is never saved. */
  lemma UnmatchedRowsAreSkipped(r: EnrichedBiomarkerResult)
    requires r.matchType == EnrichedUnmatched && r.biomarkerId.None?
    ensures !IsMatched(r)
  {
  }

  // ---------------------------------------------------------------------------
  // Rows written
  // ---------------------------------------------------------------------------

  /** The report the request names, as the lookup returns it. */
  datatype Report = Report(id: string, collectedAt: Option<string>)

  datatype UserBiomarkerRow = UserBiomarkerRow(
    userId: string,
    biomarkerId: string,
    reportId: string,
    measuredAt: Option<string>,
    rawName: string,
    valueNumeric: Option<real>,
    valueText: Option<string>)

  datatype RawUnmatchedRow = RawUnmatchedRow(
    reportId: string,
    userId: string,
    rawName: string,
    rawValueNumeric: Option<real>,
    rawValueText: Option<string>,
    rawUnit: Option<string>,
    matchConfidence: real,
    bestMatchBiomarkerId: Option<string>,
    bestMatchName: Option<string>)

  /** The `user_biomarkers` rows: one per matched result, measured when the report was collected. */
  function Inserts(userId: string, report: Report, matched: seq<EnrichedBiomarkerResult>): (rows: seq<UserBiomarkerRow>)
    requires forall k | 0 <= k < |matched| :: IsMatched(matched[k])
    ensures |rows| == |matched|
    ensures forall k | 0 <= k < |rows| ::
      matched[k].biomarkerId == Some(rows[k].biomarkerId)
      && rows[k].measuredAt == report.collectedAt && rows[k].reportId == report.id && rows[k].userId == userId
      && rows[k].rawName == matched[k].originalOcrName
      && rows[k].valueNumeric == matched[k].value && rows[k].valueText == matched[k].valueInText
  {
    seq(|matched|, k requires 0 <= k < |matched| => RowOf(userId, report, matched[k]))
  }

  function RowOf(userId: string, report: Report, r: EnrichedBiomarkerResult): (row: UserBiomarkerRow)
    requires IsMatched(r)
    ensures r.biomarkerId == Some(row.biomarkerId)
  {
    UserBiomarkerRow(userId, r.biomarkerId.value, report.id, report.collectedAt, r.originalOcrName, r.value, r.valueInText)
  }

  /** The `raw_unmatched_data` rows kept for later analysis. */
  function UnmatchedRows(userId: string, report: Report, unmatched: seq<EnrichedBiomarkerResult>): (rows: seq<RawUnmatchedRow>)
    ensures |rows| == |unmatched|
    ensures forall k | 0 <= k < |rows| ::
      rows[k].rawName == unmatched[k].originalOcrName && rows[k].matchConfidence == unmatched[k].matchConfidence
      && rows[k].bestMatchBiomarkerId == unmatched[k].biomarkerId && rows[k].reportId == report.id
  {
    seq(|unmatched|, k requires 0 <= k < |unmatched| =>
      var r := unmatched[k];
      RawUnmatchedRow(report.id, userId, r.originalOcrName, r.value, r.valueInText, r.unit,
        r.matchConfidence, r.biomarkerId, r.biomarkerName))
  }

  // ---------------------------------------------------------------------------
  // The handler
  // ---------------------------------------------------------------------------

  datatype SaveBody =
    | ErrorBody(error: string)
    | Summary(success: bool, insertedCount: nat, matchedCount: nat, totalProcessed: nat,
              skippedCount: int, threshold: real, message: Option<string>)

  /** The answer, with every row written and every status the report is set to, in order. */
  datatype SaveResult = SaveResult(
    status: int,
    body: SaveBody,
    statusWrites: seq<ReportStatus>,
    inserts: seq<UserBiomarkerRow>,
    unmatchedRows: seq<RawUnmatchedRow>)

  function Reject(status: int, error: string, statusWrites: seq<ReportStatus>): SaveResult
  {
    SaveResult(status, ErrorBody(error), statusWrites, [], [])
  }

  /**
   * Everything after enrichment: log the unmatched rows, then UNMATCHED with
   * no insert when nothing matched; otherwise insert, CANCELED with 500 when
   * the insert fails, and UNMATCHED or COMPLETED by whether unmatched rows
   * remain.
   */
  function AfterEnrichment(userId: string, report: Report, enriched: seq<EnrichedBiomarkerResult>,
                           insertFailed: bool, insertedRows: Option<nat>): (res: SaveResult)
    ensures |MatchedResults(enriched)| == 0 ==>
      res.status == 200 && res.statusWrites == [Unmatched] && res.inserts == []
      && res.body.Summary? && !res.body.success && res.body.skippedCount == |enriched|
    ensures |MatchedResults(enriched)| > 0 && insertFailed ==>
      res.status == 500 && res.statusWrites == [Canceled]
    ensures |MatchedResults(enriched)| > 0 && !insertFailed ==>
      res.status == 200 && res.body.Summary? && res.body.success
      && res.body.matchedCount == |res.inserts| == |MatchedResults(enriched)|
      && res.body.skippedCount == |enriched| - |MatchedResults(enriched)|
      && res.statusWrites == [if |UnmatchedResults(enriched)| > 0 then Unmatched else Completed]
    ensures res.unmatchedRows == UnmatchedRows(userId, report, UnmatchedResults(enriched))
  {
    var matched := MatchedResults(enriched);
    var unmatched := UnmatchedResults(enriched);
    var inserts := Inserts(userId, report, matched);
    var logged := if |unmatched| > 0 then UnmatchedRows(userId, report, unmatched) else [];
    if |inserts| == 0 then
      SaveResult(200,
        Summary(false, 0, 0, |enriched|, |enriched|, MatchConfidenceThreshold,
          Some("No biomarkers met the confidence threshold for saving")),
        [Unmatched], [], logged)
    else if insertFailed then
      SaveResult(500, ErrorBody("Failed to save biomarkers"), [Canceled], inserts, logged)
    else
      var insertedCount := if insertedRows.Some? then insertedRows.value else 0;
      var matchedCount := |inserts|;
      var skippedCount := |enriched| - matchedCount;
      var finalStatus := if |unmatched| > 0 then Unmatched else Completed;
      SaveResult(200,
        Summary(true, insertedCount, matchedCount, |enriched|, skippedCount, MatchConfidenceThreshold, None),
        [finalStatus], inserts, logged)
  }

  /** When the save succeeds, the skipped rows are exactly the unmatched ones. */
  lemma SkippedAreUnmatched(userId: string, report: Report, enriched: seq<EnrichedBiomarkerResult>, insertedRows: Option<nat>)
    requires |MatchedResults(enriched)| > 0
    ensures var res := AfterEnrichment(userId, report, enriched, false, insertedRows);
      res.body.Summary? && res.body.skippedCount == |UnmatchedResults(enriched)|
      && res.body.matchedCount + res.body.skippedCount == res.body.totalProcessed
  {
    PartitionCovers(enriched);
  }

  /** A successful save ends COMPLETED exactly when every enriched row matched. */
  lemma CompletedIffAllMatched(userId: string, report: Report, enriched: seq<EnrichedBiomarkerResult>, insertedRows: Option<nat>)
    requires |MatchedResults(enriched)| > 0
    ensures AfterEnrichment(userId, report, enriched, false, insertedRows).statusWrites == [Completed]
      <==> forall k | 0 <= k < |enriched| :: IsMatched(enriched[k])
  {
    PartitionCovers(enriched);
    if |UnmatchedResults(enriched)| > 0 {
      assert UnmatchedResults(enriched)[0] in UnmatchedResults(enriched);
    } else {
      forall k | 0 <= k < |enriched| ensures IsMatched(enriched[k]) {
        assert enriched[k] in enriched;
      }
    }
  }

  /** The fields of a request body; anything but an object has none. */
  function BodyFields(body: JsValue): map<string, JsValue>
  {
    if body.JObject? then body.fields else map[]
  }

  /** The request names its report: `reportId` is a non-empty string. */
  predicate HasReportId(body: JsValue)
  {
    var reportId := Field(BodyFields(body), "reportId");
    Truthy(reportId) && reportId.JStr?
  }

  /** The request carries a non-empty `biomarkers` array. */
  predicate HasBiomarkers(body: JsValue)
  {
    var biomarkers := Field(BodyFields(body), "biomarkers");
    biomarkers.JArray? && |biomarkers.items| > 0
  }

  /** The candidates of a request that carries a biomarker array. */
  function BodyCandidates(body: JsValue): seq<JsValue>
    requires HasBiomarkers(body)
  {
    Candidates(Field(BodyFields(body), "biomarkers").items)
  }

  /**
   * The whole handler. The report is looked up only after the request checks
   * pass, and enrichment runs only when there are candidates. A body that is
   * JSON `null` makes the destructuring throw before a report id is known, so
   * the catch answers 500 without touching the report; an enrichment that
   * throws is caught, the report is set to CANCELED and the answer is 500.
   */
  function SaveBiomarkersResponse(
    authUserId: Option<string>,
    body: Option<JsValue>,
    report: Option<Report>,
    enrichment: Outcome<seq<EnrichedBiomarkerResult>>,
    insertFailed: bool,
    insertedRows: Option<nat>): (res: SaveResult)
    ensures authUserId.None? ==> res.status == 401 && res.statusWrites == []
    ensures res.inserts != [] ==>
      (authUserId.Some? && report.Some? && enrichment.Returned?
       && |res.statusWrites| >= 1 && res.statusWrites[0] == Saving
       && forall k | 0 <= k < |res.inserts| :: res.inserts[k].measuredAt == report.value.collectedAt)
    ensures res.status == 200 ==>
      (|res.statusWrites| == 2 && res.statusWrites[0] == Saving
       && res.statusWrites[1] in {Unmatched, Completed})
    ensures authUserId.Some? && body.None? ==> res.status == 400 && res.statusWrites == [] && res.inserts == []
    ensures authUserId.Some? && body == Some(JNull) ==> res.status == 500 && res.statusWrites == [] && res.inserts == []
    ensures authUserId.Some? && body.Some? && body.value != JNull && !(HasReportId(body.value) && HasBiomarkers(body.value))
      ==> res.status == 400 && res.statusWrites == [] && res.inserts == []
    ensures authUserId.Some? && body.Some? && HasReportId(body.value) && HasBiomarkers(body.value) ==>
      (report.None? ==> res.status == 404 && res.statusWrites == [] && res.inserts == [])
      && (report.Some? && |BodyCandidates(body.value)| == 0 ==> res.status == 400 && res.statusWrites == [Saving] && res.inserts == [])
      && (report.Some? && |BodyCandidates(body.value)| > 0 && enrichment.Threw? ==>
            res.status == 500 && res.statusWrites == [Saving, Canceled] && res.inserts == [])
      && (report.Some? && |BodyCandidates(body.value)| > 0 && enrichment.Returned? ==>
            var rest := AfterEnrichment(authUserId.value, report.value, enrichment.value, insertFailed, insertedRows);
            res.status == rest.status && res.body == rest.body && res.inserts == rest.inserts
            && res.statusWrites == [Saving] + rest.statusWrites)
  {
    if authUserId.None? then Reject(401, "Not authenticated", [])
    else if body.None? then Reject(400, "Invalid JSON body", [])
    else if body.value.JNull? then Reject(500, "Internal server error while saving biomarkers", [])
    else if !HasReportId(body.value) then Reject(400, "reportId is required", [])
    else if !HasBiomarkers(body.value) then Reject(400, "At least one biomarker is required", [])
    else if report.None? then Reject(404, "Report not found", [])
    else
      var candidates := BodyCandidates(body.value);
      if |candidates| == 0 then Reject(400, "No valid biomarkers to save", [Saving])
      else
        match enrichment
        case Threw(_) => Reject(500, "Internal server error while saving biomarkers", [Saving, Canceled])
        case Returned(enriched) =>
          var rest := AfterEnrichment(authUserId.value, report.value, enriched, insertFailed, insertedRows);
          rest.(statusWrites := [Saving] + rest.statusWrites)
  }

  /** A report ends COMPLETED only through a successful insert of every enriched row. */
  lemma CompletedMeansAllSaved(
    authUserId: Option<string>, body: Option<JsValue>, report: Option<Report>,
    enrichment: Outcome<seq<EnrichedBiomarkerResult>>, insertFailed: bool, insertedRows: Option<nat>)
    requires Completed in SaveBiomarkersResponse(authUserId, body, report, enrichment, insertFailed, insertedRows).statusWrites
    ensures enrichment.Returned? && !insertFailed
    ensures forall k | 0 <= k < |enrichment.value| :: IsMatched(enrichment.value[k])
  {
    CompletedOnlyAfterEnrichment(authUserId, body, report, enrichment, insertFailed, insertedRows);
    var enriched := enrichment.value;
    CompletedIffAllMatched(authUserId.value, report.value, enriched, insertedRows);
  }

  /** COMPLETED is only ever written by the step after a successful enrichment, and only after a successful insert. */
  lemma CompletedOnlyAfterEnrichment(
    authUserId: Option<string>, body: Option<JsValue>, report: Option<Report>,
    enrichment: Outcome<seq<EnrichedBiomarkerResult>>, insertFailed: bool, insertedRows: Option<nat>)
    requires Completed in SaveBiomarkersResponse(authUserId, body, report, enrichment, insertFailed, insertedRows).statusWrites
    ensures authUserId.Some? && report.Some? && enrichment.Returned? && !insertFailed
    ensures |MatchedResults(enrichment.value)| > 0
    ensures AfterEnrichment(authUserId.value, report.value, enrichment.value, false, insertedRows).statusWrites == [Completed]
  {
    var res := SaveBiomarkersResponse(authUserId, body, report, enrichment, insertFailed, insertedRows);
    assert Completed != Saving && Completed != Canceled;
    var rest := AfterEnrichment(authUserId.value, report.value, enrichment.value, insertFailed, insertedRows);
    assert res.statusWrites == [Saving] + rest.statusWrites;
    assert Completed in rest.statusWrites;
  }

  /** An empty or missing biomarker list is refused before the report is touched. */
  lemma EmptyListRefusedEarly(authUserId: string, fields: map<string, JsValue>, report: Option<Report>,
                              enrichment: Outcome<seq<EnrichedBiomarkerResult>>, insertFailed: bool, insertedRows: Option<nat>)
    requires Field(fields, "reportId").JStr? && Field(fields, "reportId").s != ""
    requires !Field(fields, "biomarkers").JArray? || Field(fields, "biomarkers").items == []
    ensures var res := SaveBiomarkersResponse(Some(authUserId), Some(JObject(fields)), report, enrichment, insertFailed, insertedRows);
      res.status == 400 && res.statusWrites == []
  {
  }
}
