/** Data access for transport tasks and the transport_task_packages join table. */
module TransportRepo {
  import opened Common
  import opened TransportModel

  /** The parcel IDs bound to `taskID`, one per join row, in storage order. */
  function BoundIDs(links: seq<TransportTaskPackage>, taskID: string): seq<string> {
    if links == [] then []
    else
      var last := links[|links| - 1];
      BoundIDs(links[..|links| - 1], taskID) + (if last.transportTaskID == taskID then [last.packageID] else [])
  }

  /** The IDs already bound to `taskID`, as the set the bind call de-duplicates against. */
  function Existing(links: seq<TransportTaskPackage>, taskID: string): set<string> {
    set id | id in BoundIDs(links, taskID)
  }

  /**
   * The IDs a bind call inserts: every listed ID that is neither empty nor
   * already bound, in list order. An ID repeated within the list is kept
   * each time: only the rows that existed before the call are checked.
   */
  function Unbound(existing: set<string>, packageIDs: seq<string>): seq<string> {
    if packageIDs == [] then []
    else
      var last := packageIDs[|packageIDs| - 1];
      Unbound(existing, packageIDs[..|packageIDs| - 1]) + (if last == "" || last in existing then [] else [last])
  }

  /** The join rows a bind call inserts, one per ID of Unbound, all stamped with the bind time. */
  function NewLinks(existing: set<string>, packageIDs: seq<string>, taskID: string, now: Instant)
    : seq<TransportTaskPackage>
  {
    if packageIDs == [] then []
    else
      var last := packageIDs[|packageIDs| - 1];
      NewLinks(existing, packageIDs[..|packageIDs| - 1], taskID, now)
        + (if last == "" || last in existing then [] else [TransportTaskPackage(taskID, last, now)])
  }

  /**
   * The task row after its package_count column is rewritten; the store
   * library's single-column update also stamps the update time. A missing
   * task is left missing.
   */
  function Recounted(tasks: map<string, TransportTaskRow>, taskID: string, count: int, now: Instant)
    : map<string, TransportTaskRow>
  {
    if taskID in tasks then tasks[taskID := tasks[taskID].(packageCount := count, updatedAt := now)] else tasks
  }

  /** Filtering by task distributes over appending rows. */
  lemma {:induction false} BoundIDsAppend(a: seq<TransportTaskPackage>, b: seq<TransportTaskPackage>, taskID: string)
    ensures BoundIDs(a + b, taskID) == BoundIDs(a, taskID) + BoundIDs(b, taskID)
  {
    if b != [] {
      var init := b[..|b| - 1];
      BoundIDsAppend(a, init, taskID);
      assert (a + b)[..|a + b| - 1] == a + init;
      assert (a + b)[|a + b| - 1] == b[|b| - 1];
    } else {
      assert a + b == a;
    }
  }

  /** An ID is bound to a task exactly when some join row pairs the two. */
  lemma {:induction false} BoundIDsMembers(links: seq<TransportTaskPackage>, taskID: string, id: string)
    ensures id in BoundIDs(links, taskID) <==> exists l :: l in links && l.transportTaskID == taskID && l.packageID == id
  {
    if links != [] {
      var init := links[..|links| - 1];
      BoundIDsMembers(init, taskID, id);
      assert links == init + [links[|links| - 1]];
    }
  }

  /** An ID is inserted exactly when it is listed, non-empty and not already bound. */
  lemma {:induction false} UnboundMembers(existing: set<string>, packageIDs: seq<string>, id: string)
    ensures id in Unbound(existing, packageIDs) <==> id in packageIDs && id != "" && id !in existing
  {
    if packageIDs != [] {
      var init := packageIDs[..|packageIDs| - 1];
      UnboundMembers(existing, init, id);
      assert packageIDs == init + [packageIDs[|packageIDs| - 1]];
    }
  }

  /** The inserted rows belong to the bound task and carry exactly the IDs of Unbound; other tasks see none of them. */
  lemma {:induction false} NewLinksIDs(existing: set<string>, packageIDs: seq<string>, taskID: string, now: Instant,
                                       other: string)
    ensures BoundIDs(NewLinks(existing, packageIDs, taskID, now), taskID) == Unbound(existing, packageIDs)
    ensures other != taskID ==> BoundIDs(NewLinks(existing, packageIDs, taskID, now), other) == []
    ensures |NewLinks(existing, packageIDs, taskID, now)| == |Unbound(existing, packageIDs)|
    ensures forall l :: l in NewLinks(existing, packageIDs, taskID, now) ==> l.transportTaskID == taskID
  {
    if packageIDs != [] {
      var init := packageIDs[..|packageIDs| - 1];
      var last := packageIDs[|packageIDs| - 1];
      NewLinksIDs(existing, init, taskID, now, other);
      var extra := if last == "" || last in existing then [] else [TransportTaskPackage(taskID, last, now)];
      BoundIDsAppend(NewLinks(existing, init, taskID, now), extra, taskID);
      BoundIDsAppend(NewLinks(existing, init, taskID, now), extra, other);
      if extra != [] {
        assert BoundIDs(extra, taskID) == [last] by {
          assert extra[..0] == [];
        }
        if other != taskID {
          assert BoundIDs(extra, other) == [] by {
            assert extra[..0] == [];
          }
        }
      }
    }
  }

  /** A task that no join row names has no bound parcels. */
  lemma NoRowsForUnnamedTask(links: seq<TransportTaskPackage>, taskID: string)
    requires forall l :: l in links ==> l.transportTaskID != taskID
    ensures BoundIDs(links, taskID) == []
  {
    if BoundIDs(links, taskID) != [] {
      BoundIDsMembers(links, taskID, BoundIDs(links, taskID)[0]);
    }
  }

  /** Each listing of an ID that is non-empty and not already bound is inserted; other IDs never are. */
  lemma {:induction false} UnboundCount(existing: set<string>, packageIDs: seq<string>, id: string)
    ensures multiset(Unbound(existing, packageIDs))[id] ==
            if id == "" || id in existing then 0 else multiset(packageIDs)[id]
  {
    if packageIDs != [] {
      var init := packageIDs[..|packageIDs| - 1];
      UnboundCount(existing, init, id);
      assert packageIDs == init + [packageIDs[|packageIDs| - 1]];
    }
  }

  /**
   * One call inserts one row per listing: an ID listed k times and not
   * bound before the call gets k rows, because only the rows that existed
   * before the call are checked.
   */
  lemma RowsPerListing(existing: set<string>, packageIDs: seq<string>, taskID: string, now: Instant, id: string)
    ensures multiset(BoundIDs(NewLinks(existing, packageIDs, taskID, now), taskID))[id] ==
            if id == "" || id in existing then 0 else multiset(packageIDs)[id]
  {
    NewLinksIDs(existing, packageIDs, taskID, now, taskID);
    UnboundCount(existing, packageIDs, id);
  }

  /** The transport_tasks table and the transport_task_packages join table. */
  class TransportRepository {
    var tasks: map<string, TransportTaskRow>
    var links: seq<TransportTaskPackage>

    /** Each task is stored under its own ID, the primary key. */
    ghost predicate Valid()
      reads this
    {
      forall id :: id in tasks ==> tasks[id].taskID == id
    }

    constructor ()
      ensures Valid() && tasks == map[] && links == []
    {
      tasks := map[];
      links := [];
    }

    /** Insert a task; its ID is the primary key. */
    method CreateTask(row: TransportTaskRow) returns (err: Outcome)
      requires Valid()
      modifies this`tasks
      ensures Valid()
      ensures err.Failure? <==> row.taskID in old(tasks)
      ensures err.Failure? ==> err.error == DuplicateKey && tasks == old(tasks)
      ensures err.Success? ==> tasks == old(tasks)[row.taskID := row]
    {
      if row.taskID in tasks {
        return Failure(DuplicateKey);
      }
      tasks := tasks[row.taskID := row];
      err := Success;
    }

    /** Load a task into a fresh in-memory object; a missing task is ErrTransportTaskNotFound. */
    method GetTaskByID(taskID: string) returns (r: Result<TransportTask>)
      requires Valid()
      ensures r.Ok? <==> taskID in tasks
      ensures r.Ok? ==> fresh(r.value) && r.value.Data() == tasks[taskID] && r.value.taskID == taskID
      ensures r.Err? ==> r.error == TransportTaskNotFound
    {
      if taskID !in tasks {
        return Err(TransportTaskNotFound);
      }
      var task := new TransportTask.FromRow(tasks[taskID]);
      r := Ok(task);
    }

    /**
     * Write the task back under its ID; an update that matches no row
     * changes nothing. The store library stamps the update time, on the
     * task object and on the written row.
     */
    method UpdateTask(task: TransportTask, now: Instant)
      requires Valid()
      modifies this`tasks, task`updatedAt
      ensures Valid()
      ensures task.Data() == old(task.Data()).(updatedAt := now)
      ensures tasks == if task.taskID in old(tasks) then old(tasks)[task.taskID := task.Data()] else old(tasks)
    {
      task.updatedAt := now;
      if task.taskID in tasks {
        tasks := tasks[task.taskID := task.Data()];
      }
    }

    /** Rewrite the package_count column of one task; the store library also stamps its update time. */
    method UpdatePackageCount(taskID: string, count: int, now: Instant) returns (err: Outcome)
      requires Valid()
      modifies this`tasks
      ensures Valid()
      ensures taskID == "" ==> err == Failure(EmptyTaskID) && tasks == old(tasks)
      ensures taskID != "" ==> err == Success && tasks == Recounted(old(tasks), taskID, count, now)
    {
      if taskID == "" {
        return Failure(EmptyTaskID);
      }
      if taskID in tasks {
        tasks := tasks[taskID := tasks[taskID].(packageCount := count, updatedAt := now)];
      }
      err := Success;
    }

    /** The IDs of the parcels bound to the task, one per join row. */
    method GetPackageIDsByTaskID(taskID: string) returns (ids: seq<string>)
      ensures ids == BoundIDs(links, taskID)
      ensures forall id :: id in ids <==> exists l :: l in links && l.transportTaskID == taskID && l.packageID == id
    {
      ids := [];
      var i := 0;
      while i < |links|
        invariant 0 <= i <= |links|
        invariant ids == BoundIDs(links[..i], taskID)
      {
        assert links[..i + 1][..i] == links[..i];
        if links[i].transportTaskID == taskID {
          ids := ids + [links[i].packageID];
        }
        i := i + 1;
      }
      assert links[..i] == links;
      forall id ensures id in ids <==> exists l :: l in links && l.transportTaskID == taskID && l.packageID == id {
        BoundIDsMembers(links, taskID, id);
      }
    }

    /** The number of join rows of the task. */
    method CountPackagesByTaskID(taskID: string) returns (count: nat)
      ensures count == |BoundIDs(links, taskID)|
    {
      count := 0;
      var i := 0;
      while i < |links|
        invariant 0 <= i <= |links|
        invariant count == |BoundIDs(links[..i], taskID)|
      {
        assert links[..i + 1][..i] == links[..i];
        if links[i].transportTaskID == taskID {
          count := count + 1;
        }
        i := i + 1;
      }
      assert links[..i] == links;
    }

    /** Steps 2 to 6 of binding: de-duplicate against the task's rows, skip empty IDs, insert the rest. */
    method InsertUnbound(taskID: string, packageIDs: seq<string>, now: Instant) returns (inserted: nat)
      modifies this`links
      ensures inserted == |NewLinks(Existing(old(links), taskID), packageIDs, taskID, now)|
      ensures links == old(links) + NewLinks(Existing(old(links), taskID), packageIDs, taskID, now)
    {
      var existPkgIDs := GetPackageIDsByTaskID(taskID);
      var existPkgSet: set<string> := {};
      var i := 0;
      while i < |existPkgIDs|
        invariant 0 <= i <= |existPkgIDs|
        invariant existPkgSet == set id | id in existPkgIDs[..i]
      {
        assert existPkgIDs[..i + 1] == existPkgIDs[..i] + [existPkgIDs[i]];
        existPkgSet := existPkgSet + {existPkgIDs[i]};
        i := i + 1;
      }
      assert existPkgIDs[..i] == existPkgIDs;
      ghost var existing := Existing(links, taskID);
      assert existPkgSet == existing;
      var newTaskPackages: seq<TransportTaskPackage> := [];
      var j := 0;
      while j < |packageIDs|
        invariant 0 <= j <= |packageIDs|
        invariant newTaskPackages == NewLinks(existing, packageIDs[..j], taskID, now)
      {
        assert packageIDs[..j + 1][..j] == packageIDs[..j];
        var pkgID := packageIDs[j];
        if pkgID != "" && pkgID !in existPkgSet {
          newTaskPackages := newTaskPackages + [TransportTaskPackage(taskID, pkgID, now)];
        }
        j := j + 1;
      }
      assert packageIDs[..j] == packageIDs;
      NewLinksIDs(existing, packageIDs, taskID, now, taskID);
      links := links + newTaskPackages;
      inserted := |newTaskPackages|;
    }

    /**
     * Bind parcels as the repository is written: when every listed ID is
     * empty or already bound, it returns before recounting, so the task's
     * package_count is left as the caller last stored it.
     */
    method BindPackagesAsWritten(taskID: string, packageIDs: seq<string>, now: Instant) returns (err: Outcome)
      requires Valid()
      modifies this`tasks, this`links
      ensures Valid()
      ensures taskID == "" ==> err == Failure(EmptyTaskID) && tasks == old(tasks) && links == old(links)
      ensures taskID != "" && packageIDs == [] ==>
        err == Failure(EmptyPackageList) && tasks == old(tasks) && links == old(links)
      ensures taskID != "" && packageIDs != [] ==>
        var added := NewLinks(Existing(old(links), taskID), packageIDs, taskID, now);
        && err == Success
        && links == old(links) + added
        && tasks == if added == [] then old(tasks) else Recounted(old(tasks), taskID, |BoundIDs(links, taskID)|, now)
    {
      if taskID == "" {
        return Failure(EmptyTaskID);
      }
      if |packageIDs| == 0 {
        return Failure(EmptyPackageList);
      }
      var inserted := InsertUnbound(taskID, packageIDs, now);
      if inserted == 0 {
        return Success;
      }
      var totalCount := CountPackagesByTaskID(taskID);
      err := UpdatePackageCount(taskID, totalCount, now);
    }

    /**
     * Bind parcels: de-duplicate against the task's existing rows, skip
     * empty IDs, insert the rest, then rewrite package_count from the rows,
     * so that afterwards the stored count is the number of join rows.
     */
    method BindPackages(taskID: string, packageIDs: seq<string>, now: Instant) returns (err: Outcome)
      requires Valid()
      modifies this`tasks, this`links
      ensures Valid()
      ensures taskID == "" ==> err == Failure(EmptyTaskID) && tasks == old(tasks) && links == old(links)
      ensures taskID != "" && packageIDs == [] ==>
        err == Failure(EmptyPackageList) && tasks == old(tasks) && links == old(links)
      ensures taskID != "" && packageIDs != [] ==>
        && err == Success
        && links == old(links) + NewLinks(Existing(old(links), taskID), packageIDs, taskID, now)
        && tasks == Recounted(old(tasks), taskID, |BoundIDs(links, taskID)|, now)
    {
      if taskID == "" {
        return Failure(EmptyTaskID);
      }
      if |packageIDs| == 0 {
        return Failure(EmptyPackageList);
      }
      var _ := InsertUnbound(taskID, packageIDs, now);
      var totalCount := CountPackagesByTaskID(taskID);
      err := UpdatePackageCount(taskID, totalCount, now);
    }
  }
}
