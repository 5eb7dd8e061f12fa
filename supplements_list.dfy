/**
 * `GET /api/supplements/list`: the signed-in user's supplements that are not
 * deleted, newest first, grouped by status. The grouping is a `reduce` that
 * pushes each row onto the array of its status; the groups are then listed in
 * the order their statuses first appeared.
 */
module SupplementsList {
  import opened Common
  import Grouping

  /** A row of the `supplements` table, with the columns the route selects and filters on. */
  datatype SupplementRow = SupplementRow(
    id: string,
    userId: string,
    name: string,
    status: SupplementStatus,
    startDate: string,
    endDate: Option<string>,
    createdAt: string,
    sourceName: Option<string>,
    sourceUrl: Option<string>,
    deletedAt: Option<string>)

  /** One entry of a group in the response. */
  datatype ListItem = ListItem(
    id: string,
    name: string,
    startDate: string,
    endDate: Option<string>,
    createdAt: string,
    sourceName: Option<string>,
    sourceUrl: Option<string>)

  datatype StatusGroup = StatusGroup(status: SupplementStatus, items: seq<ListItem>)

  datatype ListResponse =
    | Unauthorized
    | FetchFailed(details: string)
    | Listed(supplements: seq<StatusGroup>)

  function StatusOf(r: ListResponse): (code: int)
    ensures code == 200 <==> r.Listed?
  {
    match r
    case Unauthorized => 401
    case FetchFailed(_) => 500
    case Listed(_) => 200
  }

  /** The query's filter: the caller's rows that are not soft-deleted. */
  predicate Visible(userId: string, r: SupplementRow)
  {
    r.userId == userId && r.deletedAt.None?
  }

  /**
   * The rows the query returns, given the table in `created_at` descending
   * order (the order the query asks the database for).
   */
  function Query(table: seq<SupplementRow>, userId: string): (rows: seq<SupplementRow>)
    ensures |rows| <= |table|
  {
    if |table| == 0 then []
    else
      var last := table[|table| - 1];
      Query(table[..|table| - 1], userId) + (if Visible(userId, last) then [last] else [])
  }

  /** The query returns exactly the caller's undeleted rows. */
  lemma {:induction false} QueryMembers(table: seq<SupplementRow>, userId: string, r: SupplementRow)
    ensures r in Query(table, userId) <==> r in table && Visible(userId, r)
    decreases |table|
  {
    if |table| > 0 {
      var init := table[..|table| - 1];
      QueryMembers(init, userId, r);
      assert table == init + [table[|table| - 1]];
    }
  }

  function StatusKey(r: SupplementRow): SupplementStatus
  {
    r.status
  }

  /** The entry the route pushes for a row. */
  function ItemOf(r: SupplementRow): (item: ListItem)
    ensures item.id == r.id && item.name == r.name && item.createdAt == r.createdAt
    ensures item.startDate == r.startDate && item.endDate == r.endDate
    ensures item.sourceName == r.sourceName && item.sourceUrl == r.sourceUrl
  {
    ListItem(r.id, r.name, r.startDate, r.endDate, r.createdAt, r.sourceName, r.sourceUrl)
  }

  /** The statuses, each once, in order of first appearance. */
  function Statuses(rows: seq<SupplementRow>): seq<SupplementStatus>
  {
    Grouping.Keys(rows, StatusKey)
  }

  /** The entries of the rows with status `s`, in row order. */
  function ItemsWith(rows: seq<SupplementRow>, s: SupplementStatus): seq<ListItem>
  {
    Grouping.Group(rows, StatusKey, ItemOf, s)
  }

  /** The response's `supplements`: one group per status, as `Object.entries` lists them. */
  function ByStatus(rows: seq<SupplementRow>): (groups: seq<StatusGroup>)
    ensures |groups| == |Statuses(rows)|
  {
    var ks := Statuses(rows);
    seq(|ks|, i requires 0 <= i < |ks| => StatusGroup(ks[i], ItemsWith(rows, ks[i])))
  }

  /**
   * The groups follow the order in which their statuses first appear, no
   * status has two groups and no group is empty.
   */
  lemma GroupsDistinctAndNonEmpty(rows: seq<SupplementRow>)
    ensures forall i | 0 <= i < |ByStatus(rows)| :: ByStatus(rows)[i].status == Statuses(rows)[i]
    ensures forall i, j | 0 <= i < j < |ByStatus(rows)| :: ByStatus(rows)[i].status != ByStatus(rows)[j].status
    ensures forall i | 0 <= i < |ByStatus(rows)| :: |ByStatus(rows)[i].items| > 0
  {
    var ks := Statuses(rows);
    forall i | 0 <= i < |ks| ensures |ItemsWith(rows, ks[i])| > 0 {
      Grouping.GroupNonEmptyIffKey(rows, StatusKey, ItemOf, ks[i]);
    }
  }

  /** There is a group for a status exactly when some row has it. */
  lemma GroupForEveryStatus(rows: seq<SupplementRow>, s: SupplementStatus)
    ensures (exists i | 0 <= i < |ByStatus(rows)| :: ByStatus(rows)[i].status == s)
      <==> (exists k | 0 <= k < |rows| :: rows[k].status == s)
  {
    Grouping.KeysMembers(rows, StatusKey, s);
    var ks := Statuses(rows);
    if s in ks {
      var i :| 0 <= i < |ks| && ks[i] == s;
      assert ByStatus(rows)[i].status == s;
    }
  }

  /** A group holds exactly the entries of the rows with its status. */
  lemma GroupHoldsItsRows(rows: seq<SupplementRow>, i: nat, item: ListItem)
    requires i < |ByStatus(rows)|
    ensures item in ByStatus(rows)[i].items
      <==> exists k | 0 <= k < |rows| :: rows[k].status == ByStatus(rows)[i].status && ItemOf(rows[k]) == item
  {
    Grouping.GroupMembers(rows, StatusKey, ItemOf, Statuses(rows)[i], item);
  }

  /**
   * Within a group the rows keep the query's order: the entries from the
   * first `n` rows come first.
   */
  lemma GroupKeepsRowOrder(rows: seq<SupplementRow>, s: SupplementStatus, n: nat)
    requires n <= |rows|
    ensures |ItemsWith(rows[..n], s)| <= |ItemsWith(rows, s)|
    ensures ItemsWith(rows[..n], s) == ItemsWith(rows, s)[..|ItemsWith(rows[..n], s)|]
  {
    Grouping.GroupInRowOrder(rows, StatusKey, ItemOf, s, n);
  }

  /** The number of entries over all groups. */
  function TotalItems(groups: seq<StatusGroup>): nat
  {
    if |groups| == 0 then 0 else TotalItems(groups[..|groups| - 1]) + |groups[|groups| - 1].items|
  }

  lemma {:induction false} TotalItemsIsSizeSum(rows: seq<SupplementRow>, ks: seq<SupplementStatus>)
    ensures TotalItems(seq(|ks|, i requires 0 <= i < |ks| => StatusGroup(ks[i], ItemsWith(rows, ks[i]))))
      == Grouping.SizeSum(ks, rows, StatusKey, ItemOf)
    decreases |ks|
  {
    var gs := seq(|ks|, i requires 0 <= i < |ks| => StatusGroup(ks[i], ItemsWith(rows, ks[i])));
    if |ks| > 0 {
      var init := ks[..|ks| - 1];
      TotalItemsIsSizeSum(rows, init);
      assert gs[..|gs| - 1] == seq(|init|, i requires 0 <= i < |init| => StatusGroup(init[i], ItemsWith(rows, init[i])));
    }
  }

  /** Every row lands in exactly one group: the group sizes add up to the number of rows. */
  lemma EveryRowOnce(rows: seq<SupplementRow>)
    ensures TotalItems(ByStatus(rows)) == |rows|
  {
    TotalItemsIsSizeSum(rows, Statuses(rows));
    Grouping.GroupsPartitionRows(rows, StatusKey, ItemOf);
  }

  /**
   * The route: no session gives 401, a failed query 500 with the database's
   * message, and otherwise the rows are grouped by status with the `reduce`
   * and listed with `Object.entries(...).map(...)`. `table` is the table in
   * `created_at` descending order, or the error message of a failed query.
   */
  method ListSupplements(authUserId: Option<string>, table: Outcome<seq<SupplementRow>>)
    returns (res: ListResponse)
    ensures authUserId.None? ==> res == Unauthorized
    ensures authUserId.Some? && table.Threw? ==> res == FetchFailed(table.message)
    ensures authUserId.Some? && table.Returned? ==> res == Listed(ByStatus(Query(table.value, authUserId.value)))
  {
    if authUserId.None? {
      return Unauthorized;
    }
    if table.Threw? {
      return FetchFailed(table.message);
    }
    var rows := Query(table.value, authUserId.value);
    var statuses, grouped := Grouping.GroupBy(rows, StatusKey, ItemOf);
    var groups := seq(|statuses|, i requires 0 <= i < |statuses| => StatusGroup(statuses[i], grouped[statuses[i]]));
    assert groups == ByStatus(rows);
    res := Listed(groups);
  }
}
