/**
 * The generation-history service (backend/services/history_service.py):
 * record a generation run and count its rows on the project, read a record
 * for its owner, delete one record or a batch. Records and projects are an
 * in-memory table; the uuid and json.dumps are parameters.
 */
module HistoryService {
  import opened Wrappers
  import opened Text
  import opened Values

  /** One `GenerationHistory` row. */
  datatype HistoryRecord = HistoryRecord(
    id: nat,
    uuid: string,
    name: string,
    userId: int,
    projectId: Option<int>,
    templateId: Option<string>,
    fieldsConfig: string,
    rowCount: int,
    exportFormat: string,
    tableName: Option<string>,
    status: string,
    executionTimeMs: Option<int>,
    dataSizeBytes: Option<int>)

  const NoSuchRecord := "记录不存在"
  const NoRightToDelete := "无权删除此记录"

  /** The name of a run given none: `生成 <rows> 条数据`. */
  function DefaultName(rowCount: int): string {
    "生成 " + IntToDecimal(rowCount) + " 条数据"
  }

  /** `name or f"生成 {row_count} 条数据"`. */
  function RunName(name: Option<string>, rowCount: int): (r: string)
    ensures name.Some? && name.value != "" ==> r == name.value
    ensures name.None? || name.value == "" ==> r == DefaultName(rowCount)
    ensures r != ""
  {
    if name.Some? && name.value != "" then name.value else DefaultName(rowCount)
  }

  /** A project id that `create_history` looks up: present and not 0. */
  predicate Counted(projectId: Option<int>) {
    projectId.Some? && projectId.value != 0
  }

  /** The project counters after a run: the project's `generation_count` grows by the row count when it exists. */
  function Bumped(projects: map<int, int>, projectId: Option<int>, rowCount: int): (r: map<int, int>)
    ensures r.Keys == projects.Keys
    ensures forall p :: p in projects ==>
              r[p] == projects[p] + (if Counted(projectId) && p == projectId.value then rowCount else 0)
  {
    if Counted(projectId) && projectId.value in projects then projects[projectId.value := projects[projectId.value] + rowCount]
    else projects
  }

  /** The position of the record with this id. */
  function FindById(records: seq<HistoryRecord>, id: int): (r: Option<nat>)
    ensures r.Some? ==> r.value < |records| && records[r.value].id == id
                        && forall j :: 0 <= j < r.value ==> records[j].id != id
    ensures r.None? ==> forall j :: 0 <= j < |records| ==> records[j].id != id
  {
    if records == [] then None
    else if records[0].id == id then Some(0)
    else match FindById(records[1..], id)
      case None => None
      case Some(i) => Some(i + 1)
  }

  /** No two records share an id (the primary key). */
  predicate UniqueIds(records: seq<HistoryRecord>) {
    forall a, b :: 0 <= a < b < |records| ==> records[a].id != records[b].id
  }

  /** `get_history`: None for an unknown id, and for a foreign record only when a (truthy) user id is given. */
  function GetHistory(records: seq<HistoryRecord>, id: int, userId: Option<int>): (r: Option<HistoryRecord>)
    ensures r.Some? ==> FindById(records, id).Some? && r.value == records[FindById(records, id).value]
    ensures r.None? <==> FindById(records, id).None?
                         || (userId.Some? && userId.value != 0 && records[FindById(records, id).value].userId != userId.value)
  {
    match FindById(records, id)
    case None => None
    case Some(i) =>
      if userId.Some? && userId.value != 0 && records[i].userId != userId.value then None else Some(records[i])
  }

  /** Without a user id (or with 0), any existing record is returned, whoever owns it. */
  lemma GetHistoryUnchecked(records: seq<HistoryRecord>, id: int, userId: Option<int>, i: nat)
    requires UniqueIds(records) && i < |records| && records[i].id == id
    requires userId.None? || userId.value == 0
    ensures GetHistory(records, id, userId) == Some(records[i])
  {
    var k := FindById(records, id).value;
    assert k == i;
  }

  /** `delete_history` on a table: the outcome, and the table afterwards. */
  function Deleted(records: seq<HistoryRecord>, id: int, userId: int): (r: (seq<HistoryRecord>, bool, Option<string>))
    ensures r.1 <==> FindById(records, id).Some? && records[FindById(records, id).value].userId == userId
    ensures FindById(records, id).None? ==> r == (records, false, Some(NoSuchRecord))
    ensures FindById(records, id).Some? && records[FindById(records, id).value].userId != userId ==>
              r == (records, false, Some(NoRightToDelete))
    ensures r.1 ==> r.2.None? && |r.0| == |records| - 1
  {
    match FindById(records, id)
    case None => (records, false, Some(NoSuchRecord))
    case Some(i) =>
      if records[i].userId != userId then (records, false, Some(NoRightToDelete))
      else (records[..i] + records[i + 1..], true, None)
  }

  /** A deletion removes exactly the record with that id and keeps ids unique. */
  lemma DeletedRemovesOnly(records: seq<HistoryRecord>, id: int, userId: int)
    requires UniqueIds(records)
    ensures var (rest, ok, _) := Deleted(records, id, userId);
            UniqueIds(rest)
            && (ok ==> FindById(rest, id).None? && forall x :: x in records && x.id != id ==> x in rest)
            && (!ok ==> rest == records)
  {
    var (rest, ok, _) := Deleted(records, id, userId);
    if ok {
      var i := FindById(records, id).value;
      forall j | 0 <= j < |rest| ensures rest[j] == records[if j < i then j else j + 1] {
      }
      forall a, b | 0 <= a < b < |rest| ensures rest[a].id != rest[b].id {
        assert rest[a] == records[if a < i then a else a + 1];
        assert rest[b] == records[if b < i then b else b + 1];
      }
      forall j | 0 <= j < |rest| ensures rest[j].id != id {
        assert rest[j] == records[if j < i then j else j + 1];
      }
      forall x | x in records && x.id != id ensures x in rest {
        var j :| 0 <= j < |records| && records[j] == x;
        assert rest[if j < i then j else j - 1] == x;
      }
    }
  }

  /** `batch_delete` on a table: the table afterwards and how many deletions succeeded, id by id in order. */
  function BatchDeleted(records: seq<HistoryRecord>, ids: seq<int>, userId: int): (r: (seq<HistoryRecord>, nat))
    ensures r.1 <= |ids|
    ensures |r.0| + r.1 == |records|
  {
    if ids == [] then (records, 0)
    else
      var (before, done) := BatchDeleted(records, ids[..|ids| - 1], userId);
      var (after, ok, _) := Deleted(before, ids[|ids| - 1], userId);
      (after, done + if ok then 1 else 0)
  }

  /** A batch keeps ids unique, and every id of the batch is gone from the table or was never the user's to delete. */
  lemma {:induction false} BatchDeletedLeaves(records: seq<HistoryRecord>, ids: seq<int>, userId: int)
    requires UniqueIds(records)
    ensures var rest := BatchDeleted(records, ids, userId).0;
            UniqueIds(rest)
            && (forall x :: x in rest ==> x in records)
            && (forall x :: x in records && x.id !in ids ==> x in rest)
            && (forall x :: x in rest && x.id in ids ==> x.userId != userId)
  {
    if ids != [] {
      var init := ids[..|ids| - 1];
      var last := ids[|ids| - 1];
      BatchDeletedLeaves(records, init, userId);
      var before := BatchDeleted(records, init, userId).0;
      DeletedRemovesOnly(before, last, userId);
      var (after, ok, _) := Deleted(before, last, userId);
      assert forall x :: x in after ==> x in before by {
        if ok {
          var i := FindById(before, last).value;
          forall x | x in after ensures x in before {
            var j :| 0 <= j < |after| && after[j] == x;
            assert after[j] == before[if j < i then j else j + 1];
          }
        }
      }
      forall x | x in after && x.id in ids ensures x.userId != userId {
        if x.id == last {
          if !ok {
            var k := FindById(before, last);
            if k.Some? {
              var j :| 0 <= j < |before| && before[j] == x;
              assert j == k.value;
            }
          }
        } else {
          assert x.id in init;
        }
      }
      forall x | x in records && x.id !in ids ensures x in after {
        assert x.id !in init;
      }
    }
  }

  /** The generation-history table with the projects' counters. */
  class HistoryTable {
    var records: seq<HistoryRecord>
    var projects: map<int, int>
    var nextId: nat

    constructor(projects: map<int, int>)
      ensures records == [] && this.projects == projects && nextId == 1
    {
      records := [];
      this.projects := projects;
      nextId := 1;
    }

    /**
     * `create_history`: one `completed` record appended under the next id,
     * named after the row count when no name is given; then the project's
     * generation count grows by the row count.
     */
    method CreateHistory(userId: int, fields: Value, rowCount: int, name: Option<string>, projectId: Option<int>,
                         templateId: Option<string>, exportFormat: string, tableName: Option<string>,
                         executionTimeMs: Option<int>, dataSizeBytes: Option<int>, uuid: string, dumps: Value -> string)
      returns (h: HistoryRecord)
      modifies this
      ensures h == HistoryRecord(old(nextId), uuid, RunName(name, rowCount), userId, projectId, templateId, dumps(fields),
                                 rowCount, exportFormat, tableName, "completed", executionTimeMs, dataSizeBytes)
      ensures records == old(records) + [h] && nextId == old(nextId) + 1
      ensures projects == Bumped(old(projects), projectId, rowCount)
    {
      h := HistoryRecord(nextId, uuid, RunName(name, rowCount), userId, projectId, templateId, dumps(fields),
                         rowCount, exportFormat, tableName, "completed", executionTimeMs, dataSizeBytes);
      records := records + [h];
      nextId := nextId + 1;
      if Counted(projectId) && projectId.value in projects {
        projects := projects[projectId.value := projects[projectId.value] + rowCount];
      }
    }

    /** `delete_history`. */
    method DeleteHistory(id: int, userId: int) returns (ok: bool, error: Option<string>)
      modifies this
      ensures (records, ok, error) == Deleted(old(records), id, userId)
      ensures projects == old(projects) && nextId == old(nextId)
    {
      var found := FindById(records, id);
      if found.None? {
        return false, Some(NoSuchRecord);
      }
      var i := found.value;
      if records[i].userId != userId {
        return false, Some(NoRightToDelete);
      }
      records := records[..i] + records[i + 1..];
      return true, None;
    }

    /** `batch_delete`: each id deleted in turn; every id counts once, as a success or a failure. */
    method BatchDelete(ids: seq<int>, userId: int) returns (success: nat, failed: nat)
      modifies this
      ensures (records, success) == BatchDeleted(old(records), ids, userId)
      ensures success + failed == |ids|
      ensures projects == old(projects) && nextId == old(nextId)
    {
      success, failed := 0, 0;
      var k := 0;
      while k < |ids|
        invariant 0 <= k <= |ids| && success + failed == k
        invariant (records, success) == BatchDeleted(old(records), ids[..k], userId)
        invariant projects == old(projects) && nextId == old(nextId)
      {
        assert ids[..k + 1][..k] == ids[..k];
        var ok, _ := DeleteHistory(ids[k], userId);
        if ok {
          success := success + 1;
        } else {
          failed := failed + 1;
        }
        k := k + 1;
      }
      assert ids[..k] == ids;
    }
  }
}
