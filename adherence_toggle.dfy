/**
 * `POST /api/supplements/adherence/toggle`
 * (app/api/supplements/adherence/toggle/route.ts): marks one scheduled dose
 * taken, or un-marks it, and moves the supplement's inventory by one take.
 * The tables the route reads and writes are the fields of `AdherenceStore`;
 * the session, the date check and the local-to-UTC conversion of
 * lib/utils/timezone.ts, the id the database assigns, the failures of the
 * delete and the insert, and a failure of the inventory write (which the
 * route does not check) are inputs.
 */
module AdherenceToggle {
  import opened Common

  // ---------------------------------------------------------------------------
  // Rows and requests
  // ---------------------------------------------------------------------------

  datatype SupplementRecord = SupplementRecord(userId: string, capsulesPerTake: int, inventoryTotal: Option<int>)

  datatype ScheduleRecord = ScheduleRecord(supplementId: string, timeOfDay: string)

  /** What identifies one dose: who, which supplement and schedule, and when. */
  datatype DoseKey = DoseKey(userId: string, supplementId: string, scheduleId: string, takenAt: string)

  datatype AdherenceRecord = AdherenceRecord(id: string, key: DoseKey)

  /** The request body's four fields, when they are strings. */
  datatype ToggleRequest = ToggleRequest(
    supplementId: Option<string>,
    scheduleId: Option<string>,
    date: Option<string>,
    timezone: Option<string>)

  /** Why a request is turned away, each with its status and message. */
  datatype Failure =
    | NotAuthenticated
    | InvalidJson
    | MissingFields
    | InvalidDate
    | SupplementNotFound
    | ScheduleNotFound
    | CheckFailed
    | UpdateFailed

  function StatusOf(f: Failure): (status: int)
    ensures status in {400, 401, 404, 500}
    ensures status == 401 <==> f.NotAuthenticated?
    ensures status == 400 <==> f.InvalidJson? || f.MissingFields? || f.InvalidDate?
    ensures status == 404 <==> f.SupplementNotFound? || f.ScheduleNotFound?
  {
    match f
    case NotAuthenticated => 401
    case InvalidJson => 400
    case MissingFields => 400
    case InvalidDate => 400
    case SupplementNotFound => 404
    case ScheduleNotFound => 404
    case CheckFailed => 500
    case UpdateFailed => 500
  }

  function MessageOf(f: Failure): string
  {
    match f
    case NotAuthenticated => "Authentication required"
    case InvalidJson => "Invalid JSON in request body"
    case MissingFields => "Missing required fields: supplement_id, schedule_id, date, timezone"
    case InvalidDate => "Invalid date format. Use YYYY-MM-DD format (e.g., 2025-11-10)"
    case SupplementNotFound => "Supplement not found or access denied"
    case ScheduleNotFound => "Schedule not found"
    case CheckFailed => "Failed to check adherence status"
    case UpdateFailed => "Failed to update adherence status"
  }

  datatype ToggleResponse =
    | Failed(failure: Failure)
    | Toggled(isTaken: bool, adherenceId: Option<string>, takenAt: string)

  // ---------------------------------------------------------------------------
  // Slot hours and inventory
  // ---------------------------------------------------------------------------

  /** `hoursByTimeOfDay[time_of_day] ?? 0`. */
  function LocalHours(timeOfDay: string): (h: nat)
    ensures h in {0, 8, 12, 18, 22}
    ensures timeOfDay == "MORNING" ==> h == 8
    ensures timeOfDay == "LUNCH" ==> h == 12
    ensures timeOfDay == "DINNER" ==> h == 18
    ensures timeOfDay == "BEFORE_SLEEP" ==> h == 22
    ensures ParseTimeOfDay(timeOfDay).None? ==> h == 0
  {
    match ParseTimeOfDay(timeOfDay)
    case Some(t) => SlotHour(t)
    case None => 0
  }

  /** The slot hours agree with the hour every other part of the app uses for the slot. */
  lemma LocalHoursAgreeWithSlotHour(t: TimeOfDay)
    ensures LocalHours(TimeOfDayName(t)) == SlotHour(t)
  {
    TimeOfDayNameRoundTrip(t);
  }

  /** Taking a dose: `Math.max(0, inventory - capsules_per_take)`; no inventory stays none. */
  function TakeInventory(inventory: Option<int>, capsulesPerTake: int): (r: Option<int>)
    ensures inventory.None? <==> r.None?
    ensures r.Some? ==> r.value >= 0
    ensures r.Some? && inventory.value >= capsulesPerTake ==> r.value == inventory.value - capsulesPerTake
    ensures r.Some? && inventory.value < capsulesPerTake ==> r.value == 0
  {
    match inventory
    case None => None
    case Some(v) => Some(if v - capsulesPerTake > 0 then v - capsulesPerTake else 0)
  }

  /** Un-taking a dose: `inventory + capsules_per_take`; no inventory stays none. */
  function UntakeInventory(inventory: Option<int>, capsulesPerTake: int): (r: Option<int>)
    ensures inventory.None? <==> r.None?
    ensures r.Some? ==> r.value - capsulesPerTake == inventory.value
  {
    match inventory
    case None => None
    case Some(v) => Some(v + capsulesPerTake)
  }

  /** Taking then un-taking gives the stock back exactly when there was enough of it: the clamp loses the shortfall. */
  lemma TakeUntakeRestores(inventory: int, capsulesPerTake: int)
    ensures UntakeInventory(TakeInventory(Some(inventory), capsulesPerTake), capsulesPerTake) == Some(inventory)
      <==> inventory >= capsulesPerTake
  {
  }

  /** Un-taking then taking gives back any stock that was not negative. */
  lemma UntakeTakeRestores(inventory: int, capsulesPerTake: int)
    ensures TakeInventory(UntakeInventory(Some(inventory), capsulesPerTake), capsulesPerTake) == Some(inventory)
      <==> inventory >= 0
  {
  }

  // ---------------------------------------------------------------------------
  // The dose records
  // ---------------------------------------------------------------------------

  /** The positions of the records for a dose, in order. */
  function Matching(adherence: seq<AdherenceRecord>, key: DoseKey): (r: seq<nat>)
    ensures forall k | 0 <= k < |r| :: r[k] < |adherence| && adherence[r[k]].key == key
    ensures forall i | 0 <= i < |adherence| :: adherence[i].key == key ==> i in r
  {
    if |adherence| == 0 then []
    else
      var n := |adherence| - 1;
      Matching(adherence[..n], key) + (if adherence[n].key == key then [n] else [])
  }

  /** No two records are for the same dose. */
  predicate UniqueDoses(adherence: seq<AdherenceRecord>)
  {
    forall i, j | 0 <= i < j < |adherence| :: adherence[i].key != adherence[j].key
  }

  /** With one record per dose, a dose's query finds at most one row, so `maybeSingle` never fails. */
  lemma {:induction false} UniqueDosesMatchAtMostOne(adherence: seq<AdherenceRecord>, key: DoseKey)
    requires UniqueDoses(adherence)
    ensures |Matching(adherence, key)| <= 1
    decreases |adherence|
  {
    if |adherence| > 0 {
      var n := |adherence| - 1;
      UniqueDosesMatchAtMostOne(adherence[..n], key);
      if adherence[n].key == key {
        forall j | 0 <= j < n ensures adherence[..n][j].key != key {
          assert adherence[j].key != adherence[n].key;
        }
        MatchingNone(adherence[..n], key);
      }
    }
  }

  function RemoveAt(adherence: seq<AdherenceRecord>, i: nat): (r: seq<AdherenceRecord>)
    requires i < |adherence|
    ensures |r| == |adherence| - 1
    ensures multiset(r) + multiset{adherence[i]} == multiset(adherence)
  {
    assert adherence == adherence[..i] + [adherence[i]] + adherence[i + 1..];
    adherence[..i] + adherence[i + 1..]
  }

  /** A supplement row with its inventory replaced. */
  function WithInventory(supplements: map<string, SupplementRecord>, id: string, inventory: Option<int>): map<string, SupplementRecord>
    requires id in supplements
  {
    supplements[id := supplements[id].(inventoryTotal := inventory)]
  }

  /**
   * The inventory update, whose error the route never looks at: when it
   * fails the table keeps its rows and the answer is still a success.
   */
  function StoreInventory(supplements: map<string, SupplementRecord>, id: string, inventory: Option<int>, writeFails: bool)
    : (r: map<string, SupplementRecord>)
    requires id in supplements
    ensures r.Keys == supplements.Keys && id in r
    ensures forall k | k in supplements && k != id :: r[k] == supplements[k]
    ensures r[id].userId == supplements[id].userId && r[id].capsulesPerTake == supplements[id].capsulesPerTake
    ensures writeFails ==> r == supplements
    ensures !writeFails ==> r[id].inventoryTotal == inventory
  {
    if writeFails then supplements else WithInventory(supplements, id, inventory)
  }

  // ---------------------------------------------------------------------------
  // The specification of one request
  // ---------------------------------------------------------------------------

  /** The state the route reads and writes. */
  datatype Tables = Tables(
    supplements: map<string, SupplementRecord>,
    schedules: map<string, ScheduleRecord>,
    adherence: seq<AdherenceRecord>)

  /** Everything the route does not decide itself. */
  datatype Environment = Environment(
    userId: Option<string>,
    isValidDateString: string -> bool,
    utcTimestamp: (string, nat, string) -> string,
    newId: string,
    deleteFails: bool,
    insertFails: bool,
    inventoryWriteFails: bool)

  /** The four fields are present and non-empty. */
  predicate FieldsPresent(b: ToggleRequest)
  {
    TruthyStr(b.supplementId) && TruthyStr(b.scheduleId) && TruthyStr(b.date) && TruthyStr(b.timezone)
  }

  /** The supplement exists and belongs to the user. */
  predicate OwnsSupplement(db: Tables, userId: string, b: ToggleRequest)
    requires FieldsPresent(b)
  {
    b.supplementId.value in db.supplements && db.supplements[b.supplementId.value].userId == userId
  }

  /** The schedule exists and belongs to the supplement. */
  predicate ScheduleOfSupplement(db: Tables, b: ToggleRequest)
    requires FieldsPresent(b)
  {
    b.scheduleId.value in db.schedules && db.schedules[b.scheduleId.value].supplementId == b.supplementId.value
  }

  /**
   * The checks before anything is written, in the route's order; `None`
   * when the dose may be toggled.
   */
  function Rejection(db: Tables, env: Environment, body: Option<ToggleRequest>): (r: Option<Failure>)
    ensures r.Some? ==> StatusOf(r.value) in {400, 401, 404}
    ensures r.None? ==>
      env.userId.Some? && body.Some?
      && TruthyStr(body.value.supplementId) && TruthyStr(body.value.scheduleId)
      && TruthyStr(body.value.date) && TruthyStr(body.value.timezone)
      && env.isValidDateString(body.value.date.value)
      && body.value.supplementId.value in db.supplements
      && db.supplements[body.value.supplementId.value].userId == env.userId.value
      && body.value.scheduleId.value in db.schedules
      && db.schedules[body.value.scheduleId.value].supplementId == body.value.supplementId.value
    ensures env.userId.None? <==> r == Some(NotAuthenticated)
    ensures env.userId.Some? && body.None? ==> r == Some(InvalidJson)
    ensures env.userId.Some? && body.Some? ==>
      var b := body.value;
      (!FieldsPresent(b) ==> r == Some(MissingFields))
      && (FieldsPresent(b) && !env.isValidDateString(b.date.value) ==> r == Some(InvalidDate))
      && (FieldsPresent(b) && env.isValidDateString(b.date.value) && !OwnsSupplement(db, env.userId.value, b) ==>
            r == Some(SupplementNotFound))
      && (FieldsPresent(b) && env.isValidDateString(b.date.value) && OwnsSupplement(db, env.userId.value, b) ==>
            (r.None? <==> ScheduleOfSupplement(db, b)) && (r.Some? ==> r == Some(ScheduleNotFound)))
  {
    if env.userId.None? then Some(NotAuthenticated)
    else if body.None? then Some(InvalidJson)
    else
      var b := body.value;
      if !FieldsPresent(b) then Some(MissingFields)
      else if !env.isValidDateString(b.date.value) then Some(InvalidDate)
      else if !OwnsSupplement(db, env.userId.value, b) then Some(SupplementNotFound)
      else if !ScheduleOfSupplement(db, b) then Some(ScheduleNotFound)
      else None
  }

  /** The dose a request that passed the checks is about. */
  function DoseOf(db: Tables, env: Environment, b: ToggleRequest): DoseKey
    requires Rejection(db, env, Some(b)).None?
  {
    var hours := LocalHours(db.schedules[b.scheduleId.value].timeOfDay);
    DoseKey(env.userId.value, b.supplementId.value, b.scheduleId.value,
      env.utcTimestamp(b.date.value, hours, b.timezone.value))
  }

  /**
   * One request: the checks; then a second record for the dose is an error;
   * a recorded dose is deleted and its take given back to the inventory; an
   * unrecorded one is inserted and its take removed from the inventory. A
   * failed inventory write leaves the table as it was and still answers
   * with success.
   */
  function ToggleSpec(db: Tables, env: Environment, body: Option<ToggleRequest>): (r: (ToggleResponse, Tables))
    ensures r.1.schedules == db.schedules
    ensures !r.0.Toggled? ==> r.1 == db
    ensures r.0.Toggled? ==> Rejection(db, env, body).None?
  {
    match Rejection(db, env, body)
    case Some(failure) => (Failed(failure), db)
    case None =>
      var b := body.value;
      var key := DoseOf(db, env, b);
      var found := Matching(db.adherence, key);
      var supplement := db.supplements[b.supplementId.value];
      if |found| > 1 then (Failed(CheckFailed), db)
      else if |found| == 1 then
        if env.deleteFails then (Failed(UpdateFailed), db)
        else
          var inventory := UntakeInventory(supplement.inventoryTotal, supplement.capsulesPerTake);
          (Toggled(false, None, key.takenAt),
           db.(adherence := RemoveAt(db.adherence, found[0]),
               supplements := StoreInventory(db.supplements, b.supplementId.value, inventory, env.inventoryWriteFails)))
      else
        if env.insertFails then (Failed(UpdateFailed), db)
        else
          var inventory := TakeInventory(supplement.inventoryTotal, supplement.capsulesPerTake);
          (Toggled(true, Some(env.newId), key.takenAt),
           db.(adherence := db.adherence + [AdherenceRecord(env.newId, key)],
               supplements := StoreInventory(db.supplements, b.supplementId.value, inventory, env.inventoryWriteFails)))
  }

  /** After a successful toggle the dose is recorded exactly when the answer says it is taken. */
  lemma ToggleReportsRecord(db: Tables, env: Environment, body: Option<ToggleRequest>)
    requires UniqueDoses(db.adherence)
    requires ToggleSpec(db, env, body).0.Toggled?
    ensures var (res, after) := ToggleSpec(db, env, body);
      var key := DoseOf(db, env, body.value);
      res.takenAt == key.takenAt
      && (res.isTaken <==> |Matching(after.adherence, key)| == 1)
      && (!res.isTaken <==> |Matching(after.adherence, key)| == 0)
  {
    var b := body.value;
    var key := DoseOf(db, env, b);
    UniqueDosesMatchAtMostOne(db.adherence, key);
    if |Matching(db.adherence, key)| == 1 {
      UntakeEffect(db, env, b);
      RemovedIsGone(db.adherence, key);
    } else {
      TakeEffect(db, env, b);
      InsertedIsFound(db.adherence, AdherenceRecord(env.newId, key));
    }
  }

  /** Deleting the one record of a dose leaves none. */
  lemma RemovedIsGone(adherence: seq<AdherenceRecord>, key: DoseKey)
    requires UniqueDoses(adherence) && |Matching(adherence, key)| == 1
    ensures Matching(RemoveAt(adherence, Matching(adherence, key)[0]), key) == []
  {
    var i := Matching(adherence, key)[0];
    var rest := RemoveAt(adherence, i);
    forall j | 0 <= j < |rest| ensures rest[j].key != key {
      if j < i {
        assert rest[j] == adherence[j];
      } else {
        assert rest[j] == adherence[j + 1];
      }
    }
    MatchingNone(rest, key);
  }

  lemma {:induction false} MatchingNone(adherence: seq<AdherenceRecord>, key: DoseKey)
    requires forall j | 0 <= j < |adherence| :: adherence[j].key != key
    ensures Matching(adherence, key) == []
    decreases |adherence|
  {
    if |adherence| > 0 {
      MatchingNone(adherence[..|adherence| - 1], key);
    }
  }

  /** A toggle keeps at most one record per dose. */
  lemma TogglePreservesUniqueDoses(db: Tables, env: Environment, body: Option<ToggleRequest>)
    requires UniqueDoses(db.adherence)
    ensures UniqueDoses(ToggleSpec(db, env, body).1.adherence)
  {
    var res := ToggleSpec(db, env, body).0;
    if res.Toggled? {
      var b := body.value;
      var key := DoseOf(db, env, b);
      UniqueDosesMatchAtMostOne(db.adherence, key);
      if |Matching(db.adherence, key)| == 1 {
        UntakeEffect(db, env, b);
        RemovePreservesUnique(db.adherence, Matching(db.adherence, key)[0]);
      } else {
        TakeEffect(db, env, b);
        AppendPreservesUnique(db.adherence, AdherenceRecord(env.newId, key));
      }
    }
  }

  lemma AppendPreservesUnique(adherence: seq<AdherenceRecord>, record: AdherenceRecord)
    requires UniqueDoses(adherence) && |Matching(adherence, record.key)| == 0
    ensures UniqueDoses(adherence + [record])
  {
    assert forall j | 0 <= j < |adherence| :: adherence[j].key != record.key;
  }

  lemma RemovePreservesUnique(adherence: seq<AdherenceRecord>, i: nat)
    requires UniqueDoses(adherence) && i < |adherence|
    ensures UniqueDoses(RemoveAt(adherence, i))
  {
    var rest := RemoveAt(adherence, i);
    assert forall j | 0 <= j < |rest| :: rest[j] == if j < i then adherence[j] else adherence[j + 1];
  }

  /** An unrecorded dose is inserted and its take removed from the inventory, unless that write fails. */
  lemma TakeEffect(db: Tables, env: Environment, b: ToggleRequest)
    requires Rejection(db, env, Some(b)).None? && !env.insertFails
    requires |Matching(db.adherence, DoseOf(db, env, b))| == 0
    ensures var key := DoseOf(db, env, b);
      var s := db.supplements[b.supplementId.value];
      ToggleSpec(db, env, Some(b))
        == (Toggled(true, Some(env.newId), key.takenAt),
            db.(adherence := db.adherence + [AdherenceRecord(env.newId, key)],
                supplements := StoreInventory(db.supplements, b.supplementId.value, TakeInventory(s.inventoryTotal, s.capsulesPerTake), env.inventoryWriteFails)))
  {
  }

  /** A recorded dose is deleted and its take given back to the inventory, unless that write fails. */
  lemma UntakeEffect(db: Tables, env: Environment, b: ToggleRequest)
    requires Rejection(db, env, Some(b)).None? && !env.deleteFails
    requires |Matching(db.adherence, DoseOf(db, env, b))| == 1
    ensures var key := DoseOf(db, env, b);
      var s := db.supplements[b.supplementId.value];
      ToggleSpec(db, env, Some(b))
        == (Toggled(false, None, key.takenAt),
            db.(adherence := RemoveAt(db.adherence, Matching(db.adherence, key)[0]),
                supplements := StoreInventory(db.supplements, b.supplementId.value, UntakeInventory(s.inventoryTotal, s.capsulesPerTake), env.inventoryWriteFails)))
  {
  }

  /** The checks read only the owners of the supplements and the schedules, not the inventory or the records. */
  lemma RejectionIgnoresInventory(db: Tables, after: Tables, env: Environment, env2: Environment, b: ToggleRequest)
    requires after.schedules == db.schedules && after.supplements.Keys == db.supplements.Keys
    requires forall id | id in db.supplements :: after.supplements[id].userId == db.supplements[id].userId
    requires env2.userId == env.userId && env2.isValidDateString == env.isValidDateString
    ensures Rejection(after, env2, Some(b)) == Rejection(db, env, Some(b))
  {
  }

  /** After the insert, the dose's query finds exactly the new record. */
  lemma InsertedIsFound(adherence: seq<AdherenceRecord>, record: AdherenceRecord)
    requires |Matching(adherence, record.key)| == 0
    ensures Matching(adherence + [record], record.key) == [|adherence|]
    ensures RemoveAt(adherence + [record], |adherence|) == adherence
  {
    assert (adherence + [record])[..|adherence|] == adherence;
  }

  /** Inserting a record and moving the inventory changes neither the checks nor the dose a request names. */
  lemma SameDoseAfterTake(db: Tables, after: Tables, env: Environment, env2: Environment, b: ToggleRequest)
    requires Rejection(db, env, Some(b)).None?
    requires env2.userId == env.userId && env2.isValidDateString == env.isValidDateString && env2.utcTimestamp == env.utcTimestamp
    requires var s := db.supplements[b.supplementId.value];
      after == db.(adherence := db.adherence + [AdherenceRecord(env.newId, DoseOf(db, env, b))],
                   supplements := StoreInventory(db.supplements, b.supplementId.value, TakeInventory(s.inventoryTotal, s.capsulesPerTake), env.inventoryWriteFails))
    ensures Rejection(after, env2, Some(b)).None?
    ensures DoseOf(after, env2, b) == DoseOf(db, env, b)
    ensures var s := db.supplements[b.supplementId.value];
      after.supplements[b.supplementId.value]
        == if env.inventoryWriteFails then s else s.(inventoryTotal := TakeInventory(s.inventoryTotal, s.capsulesPerTake))
  {
    RejectionIgnoresInventory(db, after, env, env2, b);
  }

  /**
   * Un-marking a dose just inserted removes that record and gives the take
   * back to whatever stock the first request left, unless that write fails.
   */
  lemma UntakeOfInserted(db: Tables, after: Tables, env: Environment, env2: Environment, b: ToggleRequest)
    requires Rejection(db, env, Some(b)).None?
    requires |Matching(db.adherence, DoseOf(db, env, b))| == 0
    requires env2.userId == env.userId && env2.isValidDateString == env.isValidDateString && env2.utcTimestamp == env.utcTimestamp && !env2.deleteFails
    requires var s := db.supplements[b.supplementId.value];
      after == db.(adherence := db.adherence + [AdherenceRecord(env.newId, DoseOf(db, env, b))],
                   supplements := StoreInventory(db.supplements, b.supplementId.value, TakeInventory(s.inventoryTotal, s.capsulesPerTake), env.inventoryWriteFails))
    ensures var sid := b.supplementId.value;
      var s := db.supplements[sid];
      sid in after.supplements
      && ToggleSpec(after, env2, Some(b))
        == (Toggled(false, None, DoseOf(db, env, b).takenAt),
            db.(supplements := StoreInventory(after.supplements, sid,
                  UntakeInventory(after.supplements[sid].inventoryTotal, s.capsulesPerTake), env2.inventoryWriteFails)))
  {
    var key := DoseOf(db, env, b);
    SameDoseAfterTake(db, after, env, env2, b);
    InsertedIsFound(db.adherence, AdherenceRecord(env.newId, key));
    UntakeEffect(after, env2, b);
  }

  /** The stock after a take and then an untake, each written unless its write fails. */
  function StockAfterTwo(supplements: map<string, SupplementRecord>, sid: string, firstFails: bool, secondFails: bool)
    : (r: map<string, SupplementRecord>)
    requires sid in supplements
    ensures sid in r
  {
    var s := supplements[sid];
    var taken := StoreInventory(supplements, sid, TakeInventory(s.inventoryTotal, s.capsulesPerTake), firstFails);
    StoreInventory(taken, sid, UntakeInventory(taken[sid].inventoryTotal, s.capsulesPerTake), secondFails)
  }

  /** Two toggles of an unrecorded dose: the record comes and goes, the inventory goes down and back up. */
  lemma TwoToggles(db: Tables, env: Environment, env2: Environment, b: ToggleRequest)
    requires Rejection(db, env, Some(b)).None? && !env.insertFails
    requires |Matching(db.adherence, DoseOf(db, env, b))| == 0
    requires env2.userId == env.userId && env2.isValidDateString == env.isValidDateString && env2.utcTimestamp == env.utcTimestamp && !env2.deleteFails
    ensures ToggleSpec(ToggleSpec(db, env, Some(b)).1, env2, Some(b))
        == (Toggled(false, None, DoseOf(db, env, b).takenAt),
            db.(supplements := StockAfterTwo(db.supplements, b.supplementId.value, env.inventoryWriteFails, env2.inventoryWriteFails)))
  {
    TakeEffect(db, env, b);
    UntakeOfInserted(db, ToggleSpec(db, env, Some(b)).1, env, env2, b);
  }

  /**
   * Marking a dose taken and then un-marking it leaves the records as they
   * were, and the inventory as it was exactly when it covered the take and
   * both writes went through (or both failed); a lost first write makes the
   * second add a take's worth of stock, a lost second write keeps the take.
   */
  lemma TakeThenUntake(db: Tables, env: Environment, env2: Environment, b: ToggleRequest,
                       after: Tables, res2: ToggleResponse, after2: Tables)
    requires Rejection(db, env, Some(b)).None? && !env.insertFails
    requires |Matching(db.adherence, DoseOf(db, env, b))| == 0
    requires env2.userId == env.userId && env2.isValidDateString == env.isValidDateString && env2.utcTimestamp == env.utcTimestamp && !env2.deleteFails
    requires after == ToggleSpec(db, env, Some(b)).1 && (res2, after2) == ToggleSpec(after, env2, Some(b))
    ensures var sid := b.supplementId.value;
      var s := db.supplements[sid];
      res2.Toggled? && !res2.isTaken
      && after2.adherence == db.adherence && after2.schedules == db.schedules
      && sid in after2.supplements
      && (!env.inventoryWriteFails && !env2.inventoryWriteFails ==>
            (s.inventoryTotal.Some? ==>
               (after2.supplements == db.supplements <==> s.inventoryTotal.value >= s.capsulesPerTake))
            && (s.inventoryTotal.None? ==> after2.supplements == db.supplements))
      && (env.inventoryWriteFails && env2.inventoryWriteFails ==> after2.supplements == db.supplements)
      && (env.inventoryWriteFails && !env2.inventoryWriteFails ==>
            after2.supplements[sid].inventoryTotal == UntakeInventory(s.inventoryTotal, s.capsulesPerTake))
      && (!env.inventoryWriteFails && env2.inventoryWriteFails ==>
            after2.supplements[sid].inventoryTotal == TakeInventory(s.inventoryTotal, s.capsulesPerTake))
  {
    TwoToggles(db, env, env2, b);
    StockAfterTwoFacts(db.supplements, b.supplementId.value, env.inventoryWriteFails, env2.inventoryWriteFails);
  }

  /**
   * The stock after a take and an untake: with both writes done, the table
   * is restored exactly when the clamp did not bite (or the stock is
   * untracked); with both lost it is unchanged; with one lost it is the
   * other write's alone.
   */
  lemma StockAfterTwoFacts(supplements: map<string, SupplementRecord>, sid: string, firstFails: bool, secondFails: bool)
    requires sid in supplements
    ensures var s := supplements[sid];
      var r := StockAfterTwo(supplements, sid, firstFails, secondFails);
      (!firstFails && !secondFails ==>
         (s.inventoryTotal.Some? ==> (r == supplements <==> s.inventoryTotal.value >= s.capsulesPerTake))
         && (s.inventoryTotal.None? ==> r == supplements))
      && (firstFails && secondFails ==> r == supplements)
      && (firstFails && !secondFails ==> r[sid].inventoryTotal == UntakeInventory(s.inventoryTotal, s.capsulesPerTake))
      && (!firstFails && secondFails ==> r[sid].inventoryTotal == TakeInventory(s.inventoryTotal, s.capsulesPerTake))
  {
    var s := supplements[sid];
    if !firstFails && !secondFails {
      var r := StockAfterTwo(supplements, sid, false, false);
      var back := UntakeInventory(TakeInventory(s.inventoryTotal, s.capsulesPerTake), s.capsulesPerTake);
      assert r == supplements[sid := s.(inventoryTotal := back)];
      if s.inventoryTotal.Some? {
        TakeUntakeRestores(s.inventoryTotal.value, s.capsulesPerTake);
        if r == supplements {
          assert r[sid] == s;
        }
      } else {
        assert supplements[sid := s] == supplements;
      }
    }
  }

  // ---------------------------------------------------------------------------
  // The route over the stored tables
  // ---------------------------------------------------------------------------

  class AdherenceStore {
    var supplements: map<string, SupplementRecord>
    var schedules: map<string, ScheduleRecord>
    var adherence: seq<AdherenceRecord>

    function State(): Tables
      reads this
    {
      Tables(supplements, schedules, adherence)
    }

    constructor(supplements: map<string, SupplementRecord>, schedules: map<string, ScheduleRecord>, adherence: seq<AdherenceRecord>)
      ensures State() == Tables(supplements, schedules, adherence)
    {
      this.supplements := supplements;
      this.schedules := schedules;
      this.adherence := adherence;
    }

    /** The route handler: answers and updates the tables as `ToggleSpec` says. */
    method Toggle(env: Environment, body: Option<ToggleRequest>) returns (res: ToggleResponse)
      modifies this
      ensures (res, State()) == ToggleSpec(old(State()), env, body)
    {
      var rejected := Rejection(State(), env, body);
      if rejected.Some? {
        return Failed(rejected.value);
      }
      var b := body.value;
      var key := DoseOf(State(), env, b);
      var found := Matching(adherence, key);
      if |found| > 1 {
        return Failed(CheckFailed);
      }
      var supplement := supplements[b.supplementId.value];
      if |found| == 1 {
        if env.deleteFails {
          return Failed(UpdateFailed);
        }
        adherence := RemoveAt(adherence, found[0]);
        supplements := StoreInventory(supplements, b.supplementId.value,
          UntakeInventory(supplement.inventoryTotal, supplement.capsulesPerTake), env.inventoryWriteFails);
        res := Toggled(false, None, key.takenAt);
      } else {
        if env.insertFails {
          return Failed(UpdateFailed);
        }
        adherence := adherence + [AdherenceRecord(env.newId, key)];
        supplements := StoreInventory(supplements, b.supplementId.value,
          TakeInventory(supplement.inventoryTotal, supplement.capsulesPerTake), env.inventoryWriteFails);
        res := Toggled(true, Some(env.newId), key.takenAt);
      }
    }
  }
}
