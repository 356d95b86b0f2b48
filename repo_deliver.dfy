/** Data access for delivery tasks and the delivery_task_packages join table. */
module DeliveryRepo {
  import opened Common
  import opened Ordering
  import opened DeliveryModel

  /** The task's join rows, in storage order. */
  function RowsOf(links: seq<DeliveryTaskPackageRow>, taskID: string): seq<DeliveryTaskPackageRow> {
    if links == [] then []
    else
      var last := links[|links| - 1];
      RowsOf(links[..|links| - 1], taskID) + (if last.deliveryTaskID == taskID then [last] else [])
  }

  /** What deleting the task's rows leaves: the rows of every other task, in storage order. */
  function RowsNotOf(links: seq<DeliveryTaskPackageRow>, taskID: string): seq<DeliveryTaskPackageRow> {
    if links == [] then []
    else
      var last := links[|links| - 1];
      RowsNotOf(links[..|links| - 1], taskID) + (if last.deliveryTaskID != taskID then [last] else [])
  }

  /** The rows a bind call inserts: the i-th listed parcel gets delivery order i+1 and no sign-off. */
  function OrderedRows(taskID: string, packageIDs: seq<string>, now: Instant): seq<DeliveryTaskPackageRow> {
    if packageIDs == [] then []
    else
      OrderedRows(taskID, packageIDs[..|packageIDs| - 1], now)
        + [DeliveryTaskPackageRow(taskID, packageIDs[|packageIDs| - 1], |packageIDs|, NotSigned, now)]
  }

  /** The parcel IDs of some rows, in the same order. */
  function IDsOf(rows: seq<DeliveryTaskPackageRow>): seq<string> {
    if rows == [] then [] else IDsOf(rows[..|rows| - 1]) + [rows[|rows| - 1].packageID]
  }

  /** The sort key of the bound-parcel query. */
  function DeliveryOrder(row: DeliveryTaskPackageRow): nat {
    row.deliveryOrder
  }

  /** What the bound-parcel query returns: the task's parcel IDs by ascending delivery order. */
  function BoundIDs(links: seq<DeliveryTaskPackageRow>, taskID: string): seq<string> {
    IDsOf(SortBy(RowsOf(links, taskID), DeliveryOrder))
  }

  predicate Pairs(row: DeliveryTaskPackageRow, taskID: string, packageID: string) {
    row.deliveryTaskID == taskID && row.packageID == packageID
  }

  /**
   * The position of the first row pairing the task and the parcel, as a
   * query ending in First() finds it; |links| when there is none.
   */
  function FirstMatch(links: seq<DeliveryTaskPackageRow>, taskID: string, packageID: string): (k: nat)
    ensures k <= |links|
    ensures k < |links| ==> Pairs(links[k], taskID, packageID)
    ensures forall j :: 0 <= j < k ==> !Pairs(links[j], taskID, packageID)
  {
    if links == [] then 0
    else if Pairs(links[0], taskID, packageID) then 0
    else 1 + FirstMatch(links[1..], taskID, packageID)
  }

  /** Selecting a task's rows distributes over appending rows. */
  lemma {:induction false} RowsOfAppend(a: seq<DeliveryTaskPackageRow>, b: seq<DeliveryTaskPackageRow>, taskID: string)
    ensures RowsOf(a + b, taskID) == RowsOf(a, taskID) + RowsOf(b, taskID)
  {
    if b != [] {
      var init := b[..|b| - 1];
      RowsOfAppend(a, init, taskID);
      assert (a + b)[..|a + b| - 1] == a + init;
      assert (a + b)[|a + b| - 1] == b[|b| - 1];
    } else {
      assert a + b == a;
    }
  }

  /** Deleting a task's rows keeps every other task's rows and leaves none of its own. */
  lemma {:induction false} RowsNotOfSelect(links: seq<DeliveryTaskPackageRow>, taskID: string, other: string)
    ensures RowsOf(RowsNotOf(links, taskID), taskID) == []
    ensures other != taskID ==> RowsOf(RowsNotOf(links, taskID), other) == RowsOf(links, other)
  {
    if links != [] {
      var init := links[..|links| - 1];
      var last := links[|links| - 1];
      RowsNotOfSelect(init, taskID, other);
      var kept := if last.deliveryTaskID != taskID then [last] else [];
      RowsOfAppend(RowsNotOf(init, taskID), kept, taskID);
      RowsOfAppend(RowsNotOf(init, taskID), kept, other);
      assert [last][..0] == [];
    }
  }

  /** The inserted rows all belong to the task, carry the listed IDs in order, and are numbered 1, 2, ... */
  lemma {:induction false} OrderedRowsEach(taskID: string, packageIDs: seq<string>, now: Instant)
    ensures var rows := OrderedRows(taskID, packageIDs, now);
      && |rows| == |packageIDs|
      && forall i :: 0 <= i < |rows| ==> rows[i] == DeliveryTaskPackageRow(taskID, packageIDs[i], i + 1, NotSigned, now)
  {
    if packageIDs != [] {
      var init := packageIDs[..|packageIDs| - 1];
      OrderedRowsEach(taskID, init, now);
    }
  }

  /** Selecting rows by task keeps all the inserted rows for their own task and none for another. */
  lemma {:induction false} OrderedRowsOwned(taskID: string, packageIDs: seq<string>, now: Instant, other: string)
    ensures RowsOf(OrderedRows(taskID, packageIDs, now), taskID) == OrderedRows(taskID, packageIDs, now)
    ensures other != taskID ==> RowsOf(OrderedRows(taskID, packageIDs, now), other) == []
  {
    if packageIDs != [] {
      var init := packageIDs[..|packageIDs| - 1];
      OrderedRowsOwned(taskID, init, now, other);
      var row := DeliveryTaskPackageRow(taskID, packageIDs[|packageIDs| - 1], |packageIDs|, NotSigned, now);
      RowsOfAppend(OrderedRows(taskID, init, now), [row], taskID);
      RowsOfAppend(OrderedRows(taskID, init, now), [row], other);
      assert [row][..0] == [];
    }
  }

  /** The inserted rows carry exactly the listed IDs, in list order. */
  lemma {:induction false} OrderedRowsIDs(taskID: string, packageIDs: seq<string>, now: Instant)
    ensures IDsOf(OrderedRows(taskID, packageIDs, now)) == packageIDs
  {
    if packageIDs != [] {
      var init := packageIDs[..|packageIDs| - 1];
      OrderedRowsIDs(taskID, init, now);
      assert packageIDs == init + [packageIDs[|packageIDs| - 1]];
    }
  }

  /** The three facts above together. */
  lemma OrderedRowsShape(taskID: string, packageIDs: seq<string>, now: Instant, other: string)
    ensures var rows := OrderedRows(taskID, packageIDs, now);
      && |rows| == |packageIDs|
      && (forall i :: 0 <= i < |rows| ==>
            rows[i] == DeliveryTaskPackageRow(taskID, packageIDs[i], i + 1, NotSigned, now))
      && RowsOf(rows, taskID) == rows
      && (other != taskID ==> RowsOf(rows, other) == [])
      && IDsOf(rows) == packageIDs
  {
    OrderedRowsEach(taskID, packageIDs, now);
    OrderedRowsOwned(taskID, packageIDs, now, other);
    OrderedRowsIDs(taskID, packageIDs, now);
  }

  /** Rows numbered 1, 2, ... are already in delivery order. */
  lemma OrderedRowsSorted(taskID: string, packageIDs: seq<string>, now: Instant)
    ensures SortedBy(OrderedRows(taskID, packageIDs, now), DeliveryOrder)
  {
    OrderedRowsShape(taskID, packageIDs, now, taskID);
  }

  /**
   * Binding replaces: after the task's rows are deleted and the new ones
   * inserted, the task's rows are exactly the new ones, the bound-parcel
   * query returns the listed IDs in list order, and every other task's
   * rows are as they were.
   */
  lemma BindReplaces(links: seq<DeliveryTaskPackageRow>, taskID: string, packageIDs: seq<string>, now: Instant,
                     other: string)
    ensures var after := RowsNotOf(links, taskID) + OrderedRows(taskID, packageIDs, now);
      && RowsOf(after, taskID) == OrderedRows(taskID, packageIDs, now)
      && BoundIDs(after, taskID) == packageIDs
      && (other != taskID ==> RowsOf(after, other) == RowsOf(links, other))
  {
    var inserted := OrderedRows(taskID, packageIDs, now);
    RowsOfAppend(RowsNotOf(links, taskID), inserted, taskID);
    RowsOfAppend(RowsNotOf(links, taskID), inserted, other);
    RowsNotOfSelect(links, taskID, other);
    OrderedRowsShape(taskID, packageIDs, now, other);
    OrderedRowsSorted(taskID, packageIDs, now);
    SortBySortedIsIdentity(inserted, DeliveryOrder);
  }

  /** The query returns one ID per row. */
  lemma {:induction false} IDsOfLength(rows: seq<DeliveryTaskPackageRow>)
    ensures |IDsOf(rows)| == |rows|
  {
    if rows != [] {
      IDsOfLength(rows[..|rows| - 1]);
    }
  }

  /** An ID comes back from the ordered query exactly when one of the task's rows carries it. */
  lemma {:induction false} IDsOfMembers(rows: seq<DeliveryTaskPackageRow>, id: string)
    ensures id in IDsOf(rows) <==> exists row :: row in rows && row.packageID == id
  {
    if rows != [] {
      var init := rows[..|rows| - 1];
      IDsOfMembers(init, id);
      assert rows == init + [rows[|rows| - 1]];
    }
  }

  /** A row is one of the task's rows exactly when it is stored and names the task. */
  lemma {:induction false} RowsOfMembers(links: seq<DeliveryTaskPackageRow>, taskID: string, row: DeliveryTaskPackageRow)
    ensures row in RowsOf(links, taskID) <==> row in links && row.deliveryTaskID == taskID
  {
    if links != [] {
      var init := links[..|links| - 1];
      RowsOfMembers(init, taskID, row);
      assert links == init + [links[|links| - 1]];
    }
  }

  /** An ID comes back from the bound-parcel query exactly when one of the task's rows carries it. */
  lemma BoundIDsMembers(links: seq<DeliveryTaskPackageRow>, taskID: string, id: string)
    ensures id in BoundIDs(links, taskID) <==> exists row :: row in links && Pairs(row, taskID, id)
  {
    var rows := RowsOf(links, taskID);
    var ordered := SortBy(rows, DeliveryOrder);
    IDsOfMembers(ordered, id);
    if id in BoundIDs(links, taskID) {
      var row :| row in ordered && row.packageID == id;
      assert row in multiset(ordered);
      RowsOfMembers(links, taskID, row);
    }
    if exists row :: row in links && Pairs(row, taskID, id) {
      var row :| row in links && Pairs(row, taskID, id);
      RowsOfMembers(links, taskID, row);
      assert row in multiset(rows);
      assert row in ordered;
    }
  }

  /** The binding a lookup by task and parcel finds: the first row pairing them, if any. */
  function Binding(links: seq<DeliveryTaskPackageRow>, taskID: string, packageID: string)
    : Option<DeliveryTaskPackageRow>
  {
    var k := FirstMatch(links, taskID, packageID);
    if k < |links| then Some(links[k]) else None
  }

  /** The parcel's binding to the task exists and carries a sign-off time. */
  predicate SignedBinding(links: seq<DeliveryTaskPackageRow>, taskID: string, packageID: string) {
    Binding(links, taskID, packageID).Some? && IsSigned(Binding(links, taskID, packageID).value)
  }

  /** The lookup scans the first rows before the ones appended after them. */
  lemma {:induction false} FirstMatchAppend(a: seq<DeliveryTaskPackageRow>, b: seq<DeliveryTaskPackageRow>,
                                            taskID: string, packageID: string)
    ensures FirstMatch(a + b, taskID, packageID) ==
      if FirstMatch(a, taskID, packageID) < |a| then FirstMatch(a, taskID, packageID)
      else |a| + FirstMatch(b, taskID, packageID)
  {
    if a == [] {
      assert a + b == b;
    } else {
      assert (a + b)[0] == a[0];
      assert (a + b)[1..] == a[1..] + b;
      FirstMatchAppend(a[1..], b, taskID, packageID);
    }
  }

  /** Rows that pair the same task and parcel at the same positions give the same lookup result position. */
  lemma SamePairsSameMatch(a: seq<DeliveryTaskPackageRow>, b: seq<DeliveryTaskPackageRow>,
                           taskID: string, packageID: string)
    requires |a| == |b|
    requires forall i :: 0 <= i < |a| ==> (Pairs(a[i], taskID, packageID) <==> Pairs(b[i], taskID, packageID))
    ensures FirstMatch(a, taskID, packageID) == FirstMatch(b, taskID, packageID)
  {
  }

  /** A row appended to the table is found only when no earlier row pairs the task and the parcel. */
  lemma BindingSnoc(links: seq<DeliveryTaskPackageRow>, row: DeliveryTaskPackageRow, taskID: string,
                    packageID: string)
    ensures Binding(links + [row], taskID, packageID) ==
      if Binding(links, taskID, packageID).Some? then Binding(links, taskID, packageID)
      else if Pairs(row, taskID, packageID) then Some(row)
      else None
  {
    FirstMatchAppend(links, [row], taskID, packageID);
    assert [row][1..] == [];
  }

  /** The lookup finds the same binding whether it scans the whole table or only the task's own rows. */
  lemma {:induction false} BindingOfRows(links: seq<DeliveryTaskPackageRow>, taskID: string, packageID: string)
    ensures Binding(links, taskID, packageID) == Binding(RowsOf(links, taskID), taskID, packageID)
  {
    if links != [] {
      var init := links[..|links| - 1];
      var last := links[|links| - 1];
      BindingOfRows(init, taskID, packageID);
      assert links == init + [last];
      BindingSnoc(init, last, taskID, packageID);
      if last.deliveryTaskID == taskID {
        assert RowsOf(links, taskID) == RowsOf(init, taskID) + [last];
        BindingSnoc(RowsOf(init, taskID), last, taskID, packageID);
      } else {
        assert RowsOf(links, taskID) == RowsOf(init, taskID) + [] == RowsOf(init, taskID);
      }
    }
  }

  /** A row survives the deletion exactly when it is stored and names another task. */
  lemma {:induction false} RowsNotOfMembers(links: seq<DeliveryTaskPackageRow>, taskID: string,
                                            row: DeliveryTaskPackageRow)
    ensures row in RowsNotOf(links, taskID) <==> row in links && row.deliveryTaskID != taskID
  {
    if links != [] {
      var init := links[..|links| - 1];
      RowsNotOfMembers(init, taskID, row);
      assert links == init + [links[|links| - 1]];
    }
  }

  /** Rewriting one row without changing the task it names leaves every task with as many rows. */
  lemma {:induction false} RowsOfRewrite(links: seq<DeliveryTaskPackageRow>, k: nat, row: DeliveryTaskPackageRow,
                                         taskID: string)
    requires k < |links| && row.deliveryTaskID == links[k].deliveryTaskID
    ensures |RowsOf(links[k := row], taskID)| == |RowsOf(links, taskID)|
  {
    var n := |links| - 1;
    if k < n {
      assert links[k := row][..n] == links[..n][k := row];
      RowsOfRewrite(links[..n], k, row, taskID);
    } else {
      assert links[k := row][..n] == links[..n];
    }
  }

  /** A task no row names has no rows. */
  lemma NoRowsForUnnamedTask(links: seq<DeliveryTaskPackageRow>, taskID: string)
    requires forall row :: row in links ==> row.deliveryTaskID != taskID
    ensures RowsOf(links, taskID) == []
  {
    if RowsOf(links, taskID) != [] {
      RowsOfMembers(links, taskID, RowsOf(links, taskID)[0]);
    }
  }

  /** After a re-bind, a row is either one of the task's new rows or a row of another task kept from before. */
  lemma BindKeepsRows(links: seq<DeliveryTaskPackageRow>, taskID: string, packageIDs: seq<string>, now: Instant,
                      row: DeliveryTaskPackageRow)
    requires row in RowsNotOf(links, taskID) + OrderedRows(taskID, packageIDs, now)
    ensures row.deliveryTaskID == taskID || row in links
  {
    RowsNotOfMembers(links, taskID, row);
    if row !in RowsNotOf(links, taskID) {
      OrderedRowsShape(taskID, packageIDs, now, taskID);
      var j :| 0 <= j < |OrderedRows(taskID, packageIDs, now)| && OrderedRows(taskID, packageIDs, now)[j] == row;
    }
  }

  /** A re-bind of one task leaves every other task's bindings, and so their sign-offs, as they were. */
  lemma BindKeepsBinding(links: seq<DeliveryTaskPackageRow>, taskID: string, packageIDs: seq<string>, now: Instant,
                         other: string, packageID: string)
    requires other != taskID
    ensures Binding(RowsNotOf(links, taskID) + OrderedRows(taskID, packageIDs, now), other, packageID)
         == Binding(links, other, packageID)
  {
    BindingOfRows(RowsNotOf(links, taskID) + OrderedRows(taskID, packageIDs, now), other, packageID);
    BindingOfRows(links, other, packageID);
    BindReplaces(links, taskID, packageIDs, now, other);
  }

  /** The delivery_tasks table and the delivery_task_packages join table. */
  class DeliveryRepository {
    var tasks: map<string, DeliveryTaskRow>
    var links: seq<DeliveryTaskPackageRow>

    /** Each task is stored under its own ID, the primary key. */
    ghost predicate Valid()
      reads this
    {
      forall id :: id in tasks ==> tasks[id].taskID == id
    }

    constructor ()
      ensures Valid() && tasks == map[] && links == []
    {
      tasks := map[];
      links := [];
    }

    /** Insert a task; its ID is the primary key. */
    method CreateTask(row: DeliveryTaskRow) returns (err: Outcome)
      requires Valid()
      modifies this`tasks
      ensures Valid()
      ensures err.Failure? <==> row.taskID in old(tasks)
      ensures err.Failure? ==> err.error == DuplicateKey && tasks == old(tasks)
      ensures err.Success? ==> tasks == old(tasks)[row.taskID := row]
    {
      if row.taskID in tasks {
        return Failure(DuplicateKey);
      }
      tasks := tasks[row.taskID := row];
      err := Success;
    }

    /** Load a task into a fresh in-memory object; a missing task is ErrDeliveryTaskNotFound. */
    method GetTaskByID(taskID: string) returns (r: Result<DeliveryTask>)
      requires Valid()
      ensures r.Ok? <==> taskID in tasks
      ensures r.Ok? ==> fresh(r.value) && r.value.Data() == tasks[taskID] && r.value.taskID == taskID
      ensures r.Err? ==> r.error == DeliveryTaskNotFound
    {
      if taskID !in tasks {
        return Err(DeliveryTaskNotFound);
      }
      var task := new DeliveryTask.FromRow(tasks[taskID]);
      r := Ok(task);
    }

    /**
     * Save the task under its ID, inserting it when no row has that ID. The
     * store library stamps the update time, on the task object and on the
     * saved row.
     */
    method UpdateTask(task: DeliveryTask, now: Instant)
      requires Valid()
      modifies this`tasks, task`updatedAt
      ensures Valid()
      ensures task.Data() == old(task.Data()).(updatedAt := now)
      ensures tasks == old(tasks)[task.taskID := task.Data()]
    {
      task.updatedAt := now;
      tasks := tasks[task.taskID := task.Data()];
    }

    /** Replace the task's bindings: delete all its rows, then insert one row per listed ID, numbered from 1. */
    method BindPackages(taskID: string, packageIDs: seq<string>, now: Instant)
      modifies this`links
      ensures links == RowsNotOf(old(links), taskID) + OrderedRows(taskID, packageIDs, now)
    {
      var taskPackages: seq<DeliveryTaskPackageRow> := [];
      var i := 0;
      while i < |packageIDs|
        invariant 0 <= i <= |packageIDs|
        invariant taskPackages == OrderedRows(taskID, packageIDs[..i], now)
      {
        assert packageIDs[..i + 1][..i] == packageIDs[..i];
        taskPackages := taskPackages + [DeliveryTaskPackageRow(taskID, packageIDs[i], i + 1, NotSigned, now)];
        i := i + 1;
      }
      assert packageIDs[..i] == packageIDs;
      var kept: seq<DeliveryTaskPackageRow> := [];
      var j := 0;
      while j < |links|
        invariant 0 <= j <= |links|
        invariant kept == RowsNotOf(links[..j], taskID)
      {
        assert links[..j + 1][..j] == links[..j];
        if links[j].deliveryTaskID != taskID {
          kept := kept + [links[j]];
        }
        j := j + 1;
      }
      assert links[..j] == links;
      links := kept + taskPackages;
    }

    /** The IDs of the parcels bound to the task, by ascending delivery order. */
    method GetPackageIDsByTaskID(taskID: string) returns (ids: seq<string>)
      ensures ids == BoundIDs(links, taskID)
      ensures |ids| == |RowsOf(links, taskID)|
      ensures forall id :: id in ids <==> exists row :: row in links && Pairs(row, taskID, id)
    {
      ids := IDsOf(SortBy(RowsOf(links, taskID), DeliveryOrder));
      IDsOfLength(SortBy(RowsOf(links, taskID), DeliveryOrder));
      forall id ensures id in ids <==> exists row :: row in links && Pairs(row, taskID, id) {
        BoundIDsMembers(links, taskID, id);
      }
    }

    /** The number of join rows of the task. */
    method CountPackagesByTaskID(taskID: string) returns (count: nat)
      ensures count == |RowsOf(links, taskID)|
    {
      count := 0;
      var i := 0;
      while i < |links|
        invariant 0 <= i <= |links|
        invariant count == |RowsOf(links[..i], taskID)|
      {
        assert links[..i + 1][..i] == links[..i];
        if links[i].deliveryTaskID == taskID {
          count := count + 1;
        }
        i := i + 1;
      }
      assert links[..i] == links;
    }

    /** The query "WHERE delivery_task_id = ? AND package_id = ?" with First(): the position of its row. */
    method FindRow(taskID: string, packageID: string) returns (k: nat)
      ensures k == FirstMatch(links, taskID, packageID)
    {
      k := 0;
      while k < |links| && !Pairs(links[k], taskID, packageID)
        invariant 0 <= k <= |links|
        invariant FirstMatch(links, taskID, packageID) == k + FirstMatch(links[k..], taskID, packageID)
      {
        assert links[k..][1..] == links[k + 1..];
        k := k + 1;
      }
      assert k < |links| ==> links[k..][0] == links[k];
    }

    /** The binding of the parcel to the task, or ErrPackageNotBindToDeliveryTask. */
    method GetDeliveryTaskPackage(taskID: string, packageID: string) returns (r: Result<DeliveryTaskPackageRow>)
      ensures r.Ok? <==> exists row :: row in links && Pairs(row, taskID, packageID)
      ensures r.Ok? ==> r.value == links[FirstMatch(links, taskID, packageID)] && Pairs(r.value, taskID, packageID)
      ensures r.Ok? <==> Binding(links, taskID, packageID).Some?
      ensures r.Ok? ==> r.value == Binding(links, taskID, packageID).value
      ensures r.Err? ==> r.error == PackageNotBindToDeliveryTask
    {
      var k := FindRow(taskID, packageID);
      if k == |links| {
        return Err(PackageNotBindToDeliveryTask);
      }
      r := Ok(links[k]);
    }

    /** Sign the parcel off on its binding: only that row's sign-off changes. */
    method SignPackage(taskID: string, packageID: string, signerName: string, signerPhone: string,
                       signType: string, remark: string, now: Instant) returns (err: Outcome)
      modifies this`links
      ensures err.Failure? <==> !exists row :: row in old(links) && Pairs(row, taskID, packageID)
      ensures err.Failure? ==> err.error == PackageNotBindToDeliveryTask && links == old(links)
      ensures err.Success? ==>
        var k := FirstMatch(old(links), taskID, packageID);
        links == old(links)[k := old(links)[k].(signInfo := SignInfo(signerName, signerPhone, now, signType, remark))]
    {
      var k := FindRow(taskID, packageID);
      if k == |links| {
        return Failure(PackageNotBindToDeliveryTask);
      }
      var dtp := new DeliveryTaskPackage.FromRow(links[k]);
      dtp.SignPackage(signerName, signerPhone, signType, remark, now);
      links := links[k := dtp.Data()];
      err := Success;
    }
  }
}
