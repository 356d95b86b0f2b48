/**
 * The transport coordinator: creates transport tasks, drives them through
 * their state machine, keeps the bound parcels' statuses in step, and binds
 * sorted parcels to a task.
 */
module TransportService {
  import opened Common
  import opened StateMachine
  import opened TransportModel
  import opened TransportRepo
  import PackageModel
  import PackageRepo

  /** The fields a caller supplies to create a transport task; the distance is an opaque measurement. */
  datatype CreateTransportTaskReq = CreateTransportTaskReq(
    startNode: string,
    endNode: string,
    vehicleID: string,
    driverID: string,
    driverName: string,
    estimatedTime: Time,
    routeJSON: string,
    distance: real)

  /** The prefix of every generated transport task ID. */
  const TransportIDPrefix := "TRAN"

  /** Every task is stored under a non-empty ID and every join row names a stored task. */
  ghost predicate WellFormed(tasks: map<string, TransportTaskRow>, links: seq<TransportTaskPackage>) {
    && "" !in tasks
    && (forall l :: l in links ==> l.transportTaskID in tasks)
  }

  /**
   * The state the coordinator means to keep across calls: well-formed, and
   * every task's package_count is the number of its join rows.
   */
  ghost predicate Consistent(tasks: map<string, TransportTaskRow>, links: seq<TransportTaskPackage>) {
    && WellFormed(tasks, links)
    && (forall id :: id in tasks ==> tasks[id].packageCount == |BoundIDs(links, id)|)
  }

  /** The parcel status that moving a transport task to `newStatus` propagates to its parcels, if any. */
  function PropagatedStatus(newStatus: string): Option<string> {
    if newStatus == Transporting then Some(PackageModel.Transporting)
    else if newStatus == Arrived then Some(PackageModel.Arrived)
    else None
  }

  /**
   * The gate applied before binding: Success when every listed parcel
   * exists and is sorted; otherwise the error for the first that is not.
   */
  function SortedGate(pkgs: map<string, PackageModel.Package>, packageIDs: seq<string>): Outcome {
    var k := PackageRepo.FirstWithoutStatus(pkgs, packageIDs, PackageModel.Sorted);
    if k == |packageIDs| then Success
    else if packageIDs[k] !in pkgs then Failure(RecordNotFound)
    else Failure(PackageNotSorted(packageIDs[k], pkgs[packageIDs[k]].status))
  }

  /**
   * Binding keeps the coordinator's state consistent: the bound task's count
   * is recomputed from its rows, the new rows name that task, and no other
   * task gains or loses a row.
   */
  lemma BindKeepsConsistent(tasks: map<string, TransportTaskRow>, links: seq<TransportTaskPackage>, taskID: string,
                            packageIDs: seq<string>, now: Instant)
    requires Consistent(tasks, links) && taskID in tasks
    ensures var links' := links + NewLinks(Existing(links, taskID), packageIDs, taskID, now);
      Consistent(tasks[taskID := tasks[taskID].(packageCount := |BoundIDs(links', taskID)|, updatedAt := now)],
                 links')
  {
    var added := NewLinks(Existing(links, taskID), packageIDs, taskID, now);
    forall other | other != taskID
      ensures BoundIDs(links + added, other) == BoundIDs(links, other)
    {
      NewLinksIDs(Existing(links, taskID), packageIDs, taskID, now, other);
      BoundIDsAppend(links, added, other);
    }
    NewLinksIDs(Existing(links, taskID), packageIDs, taskID, now, taskID);
  }

  /** Any bind of a stored task keeps the state well-formed, whatever count it stores. */
  lemma BindKeepsWellFormed(tasks: map<string, TransportTaskRow>, links: seq<TransportTaskPackage>, taskID: string,
                            packageIDs: seq<string>, now: Instant, row: TransportTaskRow)
    requires WellFormed(tasks, links) && taskID in tasks
    ensures WellFormed(tasks[taskID := row], links + NewLinks(Existing(links, taskID), packageIDs, taskID, now))
  {
  }

  /**
   * The as-written bind keeps the state consistent exactly when the list is
   * empty or some row is inserted: otherwise the stored count is the old
   * count raised by the list's length over an unchanged set of rows.
   */
  lemma StaleCountIffNothingInserted(tasks: map<string, TransportTaskRow>, links: seq<TransportTaskPackage>,
                                     taskID: string, packageIDs: seq<string>, now: Instant)
    requires Consistent(tasks, links) && taskID in tasks
    ensures var added := NewLinks(Existing(links, taskID), packageIDs, taskID, now);
      var links' := links + added;
      var count := if added == [] then tasks[taskID].packageCount + |packageIDs| else |BoundIDs(links', taskID)|;
      var tasks' := tasks[taskID := tasks[taskID].(packageCount := count, updatedAt := now)];
      Consistent(tasks', links') <==> packageIDs == [] || added != []
  {
    var added := NewLinks(Existing(links, taskID), packageIDs, taskID, now);
    BindKeepsConsistent(tasks, links, taskID, packageIDs, now);
    if added == [] {
      assert links + added == links;
    }
  }

  /** A fresh pending task "T" in an otherwise empty store. */
  method FreshStore() returns (repo: TransportRepository)
    ensures fresh(repo) && repo.Valid()
    ensures repo.links == [] && repo.tasks.Keys == {"T"} && repo.tasks["T"].status == Pending
    ensures repo.tasks["T"].packageCount == 0
  {
    repo := new TransportRepository();
    var created := repo.CreateTask(TransportTaskRow("T", "A", "B", Pending, "V", "D", "N", 0, 0, 0, 0,
                                                    TransportRoute("", 0.0), NoAbnormal));
  }

  /**
   * The first half of one round of the coordinator's bind sequence for
   * parcel P on task T: the count is raised by one and stored. Whether the
   * repository bind then inserts a row depends only on whether P is bound.
   */
  method RaiseCountForP(repo: TransportRepository, now: Instant)
    requires repo.Valid() && repo.tasks.Keys == {"T"} && repo.tasks["T"].status == Pending
    requires repo.links == [] || repo.links == [TransportTaskPackage("T", "P", now)]
    modifies repo`tasks
    ensures repo.Valid() && repo.tasks.Keys == {"T"} && repo.tasks["T"].status == Pending
    ensures repo.tasks["T"].packageCount == old(repo.tasks["T"].packageCount) + 1
    ensures NewLinks(Existing(repo.links, "T"), ["P"], "T", now) ==
      if repo.links == [] then [TransportTaskPackage("T", "P", now)] else []
  {
    var task := new TransportTask.FromRow(repo.tasks["T"]);
    var bound := task.BindPackage(["P"], now);
    repo.UpdateTask(task, now);
    OnlyFirstBindInsertsP(repo.links, now);
  }

  /** The rows [P] give task T exactly one bound ID. */
  lemma OneRowForP(now: Instant)
    ensures BoundIDs([TransportTaskPackage("T", "P", now)], "T") == ["P"]
  {
    assert [TransportTaskPackage("T", "P", now)][..0] == [];
  }

  /** Binding P to T inserts a row the first time and none once P is bound. */
  lemma OnlyFirstBindInsertsP(links: seq<TransportTaskPackage>, now: Instant)
    requires links == [] || links == [TransportTaskPackage("T", "P", now)]
    ensures NewLinks(Existing(links, "T"), ["P"], "T", now) ==
      if links == [] then [TransportTaskPackage("T", "P", now)] else []
  {
    OneRowForP(now);
    assert Existing(links, "T") == if links == [] then {} else {"P"};
    assert ["P"][..0] == [];
  }

  /** One round of binding P to T with the repository bind as written: the raised count is kept. */
  method BindPRoundAsWritten(repo: TransportRepository, now: Instant)
    requires repo.Valid() && repo.tasks.Keys == {"T"} && repo.tasks["T"].status == Pending
    requires repo.links == [] || repo.links == [TransportTaskPackage("T", "P", now)]
    modifies repo`tasks, repo`links
    ensures repo.Valid() && repo.tasks.Keys == {"T"} && repo.tasks["T"].status == Pending
    ensures repo.links == [TransportTaskPackage("T", "P", now)]
    ensures repo.tasks["T"].packageCount == if old(repo.links) == [] then 1 else old(repo.tasks["T"].packageCount) + 1
  {
    RaiseCountForP(repo, now);
    OneRowForP(now);
    var bound := repo.BindPackagesAsWritten("T", ["P"], now);
  }

  /** One round of binding P to T with the corrected repository bind: the count is recounted from the rows. */
  method BindPRound(repo: TransportRepository, now: Instant)
    requires repo.Valid() && repo.tasks.Keys == {"T"} && repo.tasks["T"].status == Pending
    requires repo.links == [] || repo.links == [TransportTaskPackage("T", "P", now)]
    modifies repo`tasks, repo`links
    ensures repo.Valid() && repo.tasks.Keys == {"T"} && repo.tasks["T"].status == Pending
    ensures repo.links == [TransportTaskPackage("T", "P", now)]
    ensures repo.tasks["T"].packageCount == 1
  {
    RaiseCountForP(repo, now);
    OneRowForP(now);
    var bound := repo.BindPackages("T", ["P"], now);
  }

  /**
   * Binding parcel P to task T `times` times with the repository bind as
   * written: every round after the first inserts no row, so the recount is
   * skipped and the raised count stays. The task ends with package_count
   * `times` over a single join row.
   */
  method RebindSameParcelAsWritten(times: nat, now: Instant) returns (count: int, rows: nat)
    requires times >= 1
    ensures count == times && rows == 1
  {
    var repo := FreshStore();
    var round := 0;
    while round < times
      invariant 0 <= round <= times && repo.Valid() && repo.tasks.Keys == {"T"} && repo.tasks["T"].status == Pending
      invariant repo.links == if round == 0 then [] else [TransportTaskPackage("T", "P", now)]
      invariant repo.tasks["T"].packageCount == round
    {
      BindPRoundAsWritten(repo, now);
      round := round + 1;
    }
    count := repo.tasks["T"].packageCount;
    rows := repo.CountPackagesByTaskID("T");
    OneRowForP(now);
  }

  /** The same rounds with the corrected repository bind: the count follows the rows. */
  method RebindSameParcel(times: nat, now: Instant) returns (count: int, rows: nat)
    requires times >= 1
    ensures count == 1 && rows == 1
  {
    var repo := FreshStore();
    var round := 0;
    while round < times
      invariant 0 <= round <= times && repo.Valid() && repo.tasks.Keys == {"T"} && repo.tasks["T"].status == Pending
      invariant repo.links == if round == 0 then [] else [TransportTaskPackage("T", "P", now)]
      invariant repo.tasks["T"].packageCount == if round == 0 then 0 else 1
    {
      BindPRound(repo, now);
      round := round + 1;
    }
    count := repo.tasks["T"].packageCount;
    rows := repo.CountPackagesByTaskID("T");
    OneRowForP(now);
  }

  class TransportSvc {
    const transportRepo: TransportRepository
    const packageRepo: PackageRepo.PackageRepository

    ghost predicate Valid()
      reads this, transportRepo
    {
      transportRepo.Valid() && WellFormed(transportRepo.tasks, transportRepo.links)
    }

    constructor (transportRepo: TransportRepository, packageRepo: PackageRepo.PackageRepository)
      requires transportRepo.Valid() && WellFormed(transportRepo.tasks, transportRepo.links)
      ensures Valid()
      ensures old(Consistent(transportRepo.tasks, transportRepo.links)) ==>
              Consistent(transportRepo.tasks, transportRepo.links)
      ensures this.transportRepo == transportRepo && this.packageRepo == packageRepo
    {
      this.transportRepo := transportRepo;
      this.packageRepo := packageRepo;
    }

    /** Create a pending task; the start node, end node and vehicle are required. */
    method CreateTransportTask(req: CreateTransportTaskReq, stamp: string) returns (r: Result<TransportTaskRow>)
      requires Valid()
      modifies transportRepo`tasks
      ensures Valid()
      ensures old(Consistent(transportRepo.tasks, transportRepo.links)) ==>
              Consistent(transportRepo.tasks, transportRepo.links)
      ensures req.startNode == "" || req.endNode == "" || req.vehicleID == "" ==>
        r == Err(ParamInvalid) && transportRepo.tasks == old(transportRepo.tasks)
      ensures r.Ok? ==>
        && r.value == TransportTaskRow(StampedID(TransportIDPrefix, stamp), req.startNode, req.endNode, Pending, req.vehicleID,
                                       req.driverID, req.driverName, 0, req.estimatedTime, 0, 0,
                                       TransportRoute(req.routeJSON, req.distance), NoAbnormal)
        && StampedID(TransportIDPrefix, stamp) !in old(transportRepo.tasks)
        && transportRepo.tasks == old(transportRepo.tasks)[r.value.taskID := r.value]
      ensures r.Err? ==> transportRepo.tasks == old(transportRepo.tasks)
      ensures req.startNode != "" && req.endNode != "" && req.vehicleID != "" ==>
        (r.Ok? <==> StampedID(TransportIDPrefix, stamp) !in old(transportRepo.tasks))
    {
      if req.startNode == "" || req.endNode == "" || req.vehicleID == "" {
        return Err(ParamInvalid);
      }
      var task := TransportTaskRow(StampedID(TransportIDPrefix, stamp), req.startNode, req.endNode, Pending, req.vehicleID,
                                   req.driverID, req.driverName, 0, req.estimatedTime, 0, 0,
                                   TransportRoute(req.routeJSON, req.distance), NoAbnormal);
      var err := transportRepo.CreateTask(task);
      if err.Failure? {
        return Err(err.error);
      }
      forall l | l in transportRepo.links ensures l.transportTaskID != task.taskID {
      }
      NoRowsForUnnamedTask(transportRepo.links, task.taskID);
      r := Ok(task);
    }

    /**
     * Move a task through its state machine; on a move to transporting or
     * arrived, give every bound parcel that status; then store the task.
     * A rejected move writes nothing.
     */
    method ChangeTaskStatus(taskID: string, newStatus: string, now: Instant) returns (err: Outcome)
      requires Valid()
      modifies transportRepo`tasks, packageRepo`packages
      ensures Valid()
      ensures old(Consistent(transportRepo.tasks, transportRepo.links)) ==>
              Consistent(transportRepo.tasks, transportRepo.links)
      ensures taskID !in old(transportRepo.tasks) ==>
        err == Failure(TransportTaskNotFound) && unchanged(transportRepo, packageRepo)
      ensures taskID in old(transportRepo.tasks) ==>
        var task := old(transportRepo.tasks)[taskID];
        if !CanTransition(TransportFlow, task.status, newStatus) then
          err == Failure(TransportStatusInvalid) && unchanged(transportRepo, packageRepo)
        else
          && err == Success
          && transportRepo.tasks ==
               old(transportRepo.tasks)[taskID := Transitioned(task, newStatus, now).(updatedAt := now)]
          && packageRepo.packages ==
               match PropagatedStatus(newStatus)
               case Some(status) =>
                 PackageRepo.PatchAll(old(packageRepo.packages), BoundIDs(transportRepo.links, taskID),
                                      status, "", "", now)
               case None => old(packageRepo.packages)
    {
      var loaded := transportRepo.GetTaskByID(taskID);
      if loaded.Err? {
        return Failure(loaded.error);
      }
      var task := loaded.value;
      err := task.ChangeStatus(newStatus, now);
      if err.Failure? {
        return err;
      }
      if newStatus == Transporting {
        var pkgIDs := transportRepo.GetPackageIDsByTaskID(taskID);
        PackageRepo.UpdateStatusForEach(packageRepo, pkgIDs, PackageModel.Transporting, "", "", now);
      } else if newStatus == Arrived {
        var pkgIDs := transportRepo.GetPackageIDsByTaskID(taskID);
        PackageRepo.UpdateStatusForEach(packageRepo, pkgIDs, PackageModel.Arrived, "", "", now);
      }
      transportRepo.UpdateTask(task, now);
    }

    /**
     * Bind parcels to a task: every listed parcel must exist and be sorted,
     * and the task must be pending or transporting; then the task and the
     * new join rows are stored and package_count is recomputed from the rows.
     */
    method BindPackagesToTask(taskID: string, packageIDs: seq<string>, now: Instant) returns (err: Outcome)
      requires Valid()
      modifies transportRepo`tasks, transportRepo`links
      ensures Valid()
      ensures old(Consistent(transportRepo.tasks, transportRepo.links)) ==>
              Consistent(transportRepo.tasks, transportRepo.links)
      ensures unchanged(packageRepo)
      ensures taskID !in old(transportRepo.tasks) ==>
        err == Failure(TransportTaskNotFound) && unchanged(transportRepo)
      ensures taskID in old(transportRepo.tasks) && SortedGate(packageRepo.packages, packageIDs).Failure? ==>
        err == SortedGate(packageRepo.packages, packageIDs) && unchanged(transportRepo)
      ensures taskID in old(transportRepo.tasks) && SortedGate(packageRepo.packages, packageIDs).Success? &&
              !Bindable(old(transportRepo.tasks)[taskID].status) ==>
        err == Failure(TransportTaskNotBindable) && unchanged(transportRepo)
      ensures taskID in old(transportRepo.tasks) && SortedGate(packageRepo.packages, packageIDs).Success? &&
              Bindable(old(transportRepo.tasks)[taskID].status) ==>
        && err == (if packageIDs == [] then Failure(EmptyPackageList) else Success)
        && transportRepo.links ==
             old(transportRepo.links) + NewLinks(Existing(old(transportRepo.links), taskID), packageIDs, taskID, now)
        && transportRepo.tasks ==
             old(transportRepo.tasks)[taskID := old(transportRepo.tasks)[taskID].(
               packageCount := if packageIDs == [] then old(transportRepo.tasks)[taskID].packageCount
                               else |BoundIDs(transportRepo.links, taskID)|,
               updatedAt := now)]
    {
      var loaded := transportRepo.GetTaskByID(taskID);
      if loaded.Err? {
        return Failure(loaded.error);
      }
      var task := loaded.value;
      err := CheckSorted(packageIDs);
      if err.Failure? {
        return err;
      }
      err := BindLoaded(task, packageIDs, now);
    }

    /** The task half of a bind: a bindable task has its count raised by the list's length and is stored. */
    method StoreBound(task: TransportTask, packageIDs: seq<string>, now: Instant) returns (err: Outcome)
      requires transportRepo.Valid() && task.taskID in transportRepo.tasks
      requires task.Data() == transportRepo.tasks[task.taskID]
      modifies task, transportRepo`tasks
      ensures transportRepo.Valid()
      ensures !Bindable(old(task.status)) ==>
        err == Failure(TransportTaskNotBindable) && transportRepo.tasks == old(transportRepo.tasks)
      ensures Bindable(old(task.status)) ==>
        && err == Success
        && transportRepo.tasks ==
             old(transportRepo.tasks)[task.taskID := old(task.Data()).(
               packageCount := old(task.packageCount) + |packageIDs|, updatedAt := now)]
    {
      err := task.BindPackage(packageIDs, now);
      if err.Failure? {
        return err;
      }
      transportRepo.UpdateTask(task, now);
    }

    /**
     * Binding once the gate has passed: the loaded task must be bindable;
     * it is stored with its raised count, then the repository binds and
     * recounts.
     */
    method BindLoaded(task: TransportTask, packageIDs: seq<string>, now: Instant) returns (err: Outcome)
      requires Valid() && task.taskID in transportRepo.tasks && task.Data() == transportRepo.tasks[task.taskID]
      modifies task, transportRepo`tasks, transportRepo`links
      ensures Valid()
      ensures old(Consistent(transportRepo.tasks, transportRepo.links)) ==>
              Consistent(transportRepo.tasks, transportRepo.links)
      ensures !Bindable(old(task.status)) ==> err == Failure(TransportTaskNotBindable) && unchanged(transportRepo)
      ensures Bindable(old(task.status)) ==>
        && err == (if packageIDs == [] then Failure(EmptyPackageList) else Success)
        && transportRepo.links ==
             old(transportRepo.links) + NewLinks(Existing(old(transportRepo.links), task.taskID), packageIDs,
                                                 task.taskID, now)
        && transportRepo.tasks ==
             old(transportRepo.tasks)[task.taskID := old(task.Data()).(
               packageCount := if packageIDs == [] then old(task.packageCount)
                               else |BoundIDs(transportRepo.links, task.taskID)|,
               updatedAt := now)]
    {
      ghost var oldLinks := transportRepo.links;
      ghost var oldTasks := transportRepo.tasks;
      ghost var oldRow := task.Data();
      err := StoreBound(task, packageIDs, now);
      if err.Failure? {
        return err;
      }
      err := transportRepo.BindPackages(task.taskID, packageIDs, now);
      ghost var added := NewLinks(Existing(oldLinks, task.taskID), packageIDs, task.taskID, now);
      ghost var row := oldRow.(packageCount := if packageIDs == [] then oldRow.packageCount
                                               else |BoundIDs(oldLinks + added, task.taskID)|,
                               updatedAt := now);
      assert transportRepo.tasks == oldTasks[task.taskID := row];
      BindKeepsWellFormed(oldTasks, oldLinks, task.taskID, packageIDs, now, row);
      if Consistent(oldTasks, oldLinks) {
        BindKeepsConsistent(oldTasks, oldLinks, task.taskID, packageIDs, now);
      }
    }

    /**
     * Bind parcels to a task as the coordinator is written, over the
     * repository bind that skips the recount when it inserts nothing: the
     * stored count is then the raised one, and the state stays consistent
     * exactly when the list is empty or some row was inserted.
     */
    method BindPackagesToTaskAsWritten(taskID: string, packageIDs: seq<string>, now: Instant) returns (err: Outcome)
      requires Valid()
      modifies transportRepo`tasks, transportRepo`links
      ensures Valid()
      ensures unchanged(packageRepo)
      ensures taskID !in old(transportRepo.tasks) ==>
        err == Failure(TransportTaskNotFound) && unchanged(transportRepo)
      ensures taskID in old(transportRepo.tasks) && SortedGate(packageRepo.packages, packageIDs).Failure? ==>
        err == SortedGate(packageRepo.packages, packageIDs) && unchanged(transportRepo)
      ensures taskID in old(transportRepo.tasks) && SortedGate(packageRepo.packages, packageIDs).Success? &&
              !Bindable(old(transportRepo.tasks)[taskID].status) ==>
        err == Failure(TransportTaskNotBindable) && unchanged(transportRepo)
      ensures taskID in old(transportRepo.tasks) && SortedGate(packageRepo.packages, packageIDs).Success? &&
              Bindable(old(transportRepo.tasks)[taskID].status) ==>
        var row := old(transportRepo.tasks)[taskID];
        var added := NewLinks(Existing(old(transportRepo.links), taskID), packageIDs, taskID, now);
        && err == (if packageIDs == [] then Failure(EmptyPackageList) else Success)
        && transportRepo.links == old(transportRepo.links) + added
        && transportRepo.tasks ==
             old(transportRepo.tasks)[taskID := row.(
               packageCount := if added == [] then row.packageCount + |packageIDs|
                               else |BoundIDs(transportRepo.links, taskID)|,
               updatedAt := now)]
        && (old(Consistent(transportRepo.tasks, transportRepo.links)) ==>
              (Consistent(transportRepo.tasks, transportRepo.links) <==> packageIDs == [] || added != []))
    {
      var loaded := transportRepo.GetTaskByID(taskID);
      if loaded.Err? {
        return Failure(loaded.error);
      }
      var task := loaded.value;
      err := CheckSorted(packageIDs);
      if err.Failure? {
        return err;
      }
      err := BindLoadedAsWritten(task, packageIDs, now);
    }

    /**
     * Binding once the gate has passed, as written: the task is stored
     * with its raised count, then the repository bind recounts only when
     * it inserted a row.
     */
    method BindLoadedAsWritten(task: TransportTask, packageIDs: seq<string>, now: Instant) returns (err: Outcome)
      requires Valid() && task.taskID in transportRepo.tasks && task.Data() == transportRepo.tasks[task.taskID]
      modifies task, transportRepo`tasks, transportRepo`links
      ensures Valid()
      ensures !Bindable(old(task.status)) ==> err == Failure(TransportTaskNotBindable) && unchanged(transportRepo)
      ensures Bindable(old(task.status)) ==>
        var added := NewLinks(Existing(old(transportRepo.links), task.taskID), packageIDs, task.taskID, now);
        && err == (if packageIDs == [] then Failure(EmptyPackageList) else Success)
        && transportRepo.links == old(transportRepo.links) + added
        && transportRepo.tasks ==
             old(transportRepo.tasks)[task.taskID := old(task.Data()).(
               packageCount := if added == [] then old(task.packageCount) + |packageIDs|
                               else |BoundIDs(transportRepo.links, task.taskID)|,
               updatedAt := now)]
        && (old(Consistent(transportRepo.tasks, transportRepo.links)) ==>
              (Consistent(transportRepo.tasks, transportRepo.links) <==> packageIDs == [] || added != []))
    {
      ghost var oldLinks := transportRepo.links;
      ghost var oldTasks := transportRepo.tasks;
      ghost var oldRow := task.Data();
      err := StoreBound(task, packageIDs, now);
      if err.Failure? {
        return err;
      }
      err := transportRepo.BindPackagesAsWritten(task.taskID, packageIDs, now);
      ghost var added := NewLinks(Existing(oldLinks, task.taskID), packageIDs, task.taskID, now);
      ghost var row := oldRow.(packageCount := if added == [] then oldRow.packageCount + |packageIDs|
                                               else |BoundIDs(oldLinks + added, task.taskID)|,
                               updatedAt := now);
      assert transportRepo.tasks == oldTasks[task.taskID := row];
      BindKeepsWellFormed(oldTasks, oldLinks, task.taskID, packageIDs, now, row);
      if Consistent(oldTasks, oldLinks) {
        StaleCountIffNothingInserted(oldTasks, oldLinks, task.taskID, packageIDs, now);
      }
    }

    /**
     * The gate applied before binding: each listed parcel in turn must exist
     * and be sorted; the first that is not decides the error.
     */
    method CheckSorted(packageIDs: seq<string>) returns (err: Outcome)
      ensures err == SortedGate(packageRepo.packages, packageIDs)
    {
      var i := 0;
      while i < |packageIDs|
        invariant 0 <= i <= |packageIDs|
        invariant PackageRepo.FirstWithoutStatus(packageRepo.packages, packageIDs, PackageModel.Sorted)
          == i + PackageRepo.FirstWithoutStatus(packageRepo.packages, packageIDs[i..], PackageModel.Sorted)
      {
        var pkg := packageRepo.GetByID(packageIDs[i]);
        if pkg.Err? {
          return Failure(pkg.error);
        }
        if pkg.value.status != PackageModel.Sorted {
          return Failure(PackageNotSorted(packageIDs[i], pkg.value.status));
        }
        assert packageIDs[i..][1..] == packageIDs[i + 1..];
        i := i + 1;
      }
      err := Success;
    }

    /**
     * Force the task to abnormal whatever its status, record the abnormal
     * info, give every bound parcel status transport_abnormal with the
     * reason and handler, then store the task.
     */
    method ReportTransportAbnormal(taskID: string, abnormalType: string, reason: string, handler: string,
                                   now: Instant) returns (err: Outcome)
      requires Valid()
      modifies transportRepo`tasks, packageRepo`packages
      ensures Valid()
      ensures old(Consistent(transportRepo.tasks, transportRepo.links)) ==>
              Consistent(transportRepo.tasks, transportRepo.links)
      ensures taskID !in old(transportRepo.tasks) ==>
        err == Failure(TransportTaskNotFound) && unchanged(transportRepo, packageRepo)
      ensures taskID in old(transportRepo.tasks) ==>
        && err == Success
        && transportRepo.tasks == old(transportRepo.tasks)[taskID := old(transportRepo.tasks)[taskID].(
             status := Abnormal, abnormal := TransportAbnormal(abnormalType, reason, handler, now, ""),
             updatedAt := now)]
        && packageRepo.packages ==
             PackageRepo.PatchAll(old(packageRepo.packages), BoundIDs(transportRepo.links, taskID),
                                  PackageModel.TransportAbnormal, reason, handler, now)
    {
      var loaded := transportRepo.GetTaskByID(taskID);
      if loaded.Err? {
        return Failure(loaded.error);
      }
      var task := loaded.value;
      task.ReportAbnormal(abnormalType, reason, handler, now);
      var pkgIDs := transportRepo.GetPackageIDsByTaskID(taskID);
      PackageRepo.UpdateStatusForEach(packageRepo, pkgIDs, PackageModel.TransportAbnormal, reason, handler, now);
      transportRepo.UpdateTask(task, now);
      err := Success;
    }

    /**
     * The bound parcels of a task, in join-row order, for the driver who
     * owns it; any bound parcel that cannot be loaded fails the whole call.
     */
    method GetDriverTaskPackages(driverID: string, taskID: string) returns (r: Result<seq<PackageModel.Package>>)
      requires Valid()
      ensures taskID !in transportRepo.tasks ==> r == Err(TransportTaskNotFound)
      ensures taskID in transportRepo.tasks && transportRepo.tasks[taskID].driverID != driverID ==>
        r == Err(TransportTaskNotBelongToDriver)
      ensures taskID in transportRepo.tasks && transportRepo.tasks[taskID].driverID == driverID ==>
        var ids := BoundIDs(transportRepo.links, taskID);
        if forall id :: id in ids ==> id in packageRepo.packages then
          && r.Ok?
          && |r.value| == |ids|
          && forall i :: 0 <= i < |ids| ==> r.value[i] == packageRepo.packages[ids[i]]
        else
          r == Err(RecordNotFound)
    {
      var loaded := transportRepo.GetTaskByID(taskID);
      if loaded.Err? {
        return Err(loaded.error);
      }
      var task := loaded.value;
      if task.driverID != driverID {
        return Err(TransportTaskNotBelongToDriver);
      }
      var pkgIDs := transportRepo.GetPackageIDsByTaskID(taskID);
      var packages: seq<PackageModel.Package> := [];
      var i := 0;
      while i < |pkgIDs|
        invariant 0 <= i <= |pkgIDs|
        invariant |packages| == i
        invariant forall j :: 0 <= j < i ==>
          pkgIDs[j] in packageRepo.packages && packages[j] == packageRepo.packages[pkgIDs[j]]
      {
        var pkg := packageRepo.GetByID(pkgIDs[i]);
        if pkg.Err? {
          return Err(pkg.error);
        }
        packages := packages + [pkg.value];
        i := i + 1;
      }
      r := Ok(packages);
    }
  }
}
