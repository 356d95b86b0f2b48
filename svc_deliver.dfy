/**
 * The delivery coordinator: creates delivery tasks, drives them through
 * their state machine, binds arrived parcels to a task, and records the
 * recipient's sign-off.
 */
module DeliveryService {
  import opened Common
  import opened StateMachine
  import opened DeliveryModel
  import opened DeliveryRepo
  import PackageModel
  import PackageRepo

  /** The fields a caller supplies to create a delivery task. */
  datatype CreateDeliveryTaskReq = CreateDeliveryTaskReq(
    deliveryArea: string,
    courierID: string,
    courierName: string,
    startNode: string)

  /** The prefix of every generated delivery task ID. */
  const DeliveryIDPrefix := "DELI"

  /**
   * The signer's phone as stored: an 11-character number keeps only its
   * last four characters behind seven asterisks; any other length is kept
   * as given.
   */
  function MaskPhone(phone: string): (masked: string)
    ensures |masked| == |phone|
    ensures |phone| != 11 ==> masked == phone
    ensures |phone| == 11 ==> (forall i :: 0 <= i < 7 ==> masked[i] == '*') && masked[7..] == phone[7..]
  {
    if |phone| != 11 then phone else "*******" + phone[7..]
  }

  /** Masking a masked number changes nothing more. */
  lemma MaskPhoneIdempotent(phone: string)
    ensures MaskPhone(MaskPhone(phone)) == MaskPhone(phone)
  {
    if |phone| == 11 {
      var m := MaskPhone(phone);
      assert m == m[..7] + m[7..];
      assert m[..7] == "*******";
    }
  }

  /**
   * Only the last four characters of an 11-character number survive
   * masking: two such numbers are stored alike exactly when they end alike.
   */
  lemma MaskPhoneKeepsOnlyLastFour(a: string, b: string)
    requires |a| == 11 && |b| == 11
    ensures MaskPhone(a) == MaskPhone(b) <==> a[7..] == b[7..]
  {
    var ma, mb := MaskPhone(a), MaskPhone(b);
    if a[7..] == b[7..] {
      assert ma == ma[..7] + ma[7..] && mb == mb[..7] + mb[7..];
      assert ma[..7] == mb[..7];
    }
  }

  /** Every join row of the task is a binding that carries a sign-off. */
  ghost predicate AllSigned(links: seq<DeliveryTaskPackageRow>, taskID: string) {
    forall row :: row in links && row.deliveryTaskID == taskID ==> SignedBinding(links, taskID, row.packageID)
  }

  /**
   * The state the coordinator keeps across calls: every join row names a
   * stored task, every task's package_count is the number of its join rows,
   * and a completed task has every bound parcel signed off.
   */
  ghost predicate Consistent(tasks: map<string, DeliveryTaskRow>, links: seq<DeliveryTaskPackageRow>) {
    && (forall row :: row in links ==> row.deliveryTaskID in tasks)
    && (forall id :: id in tasks ==> tasks[id].packageCount == |RowsOf(links, id)|)
    && (forall id :: id in tasks && tasks[id].status == Completed ==> AllSigned(links, id))
  }

  /**
   * The position of the first listed parcel whose binding to the task is
   * missing or not signed off, scanning in list order; |ids| when every
   * one is signed.
   */
  function FirstUnsigned(links: seq<DeliveryTaskPackageRow>, taskID: string, ids: seq<string>): (k: nat)
    ensures k <= |ids|
    ensures forall j :: 0 <= j < k ==> SignedBinding(links, taskID, ids[j])
    ensures k < |ids| ==> !SignedBinding(links, taskID, ids[k])
  {
    if ids == [] then 0
    else if !SignedBinding(links, taskID, ids[0]) then 0
    else 1 + FirstUnsigned(links, taskID, ids[1..])
  }

  /** The error completion reports for a parcel that stops it: no binding, or a binding not signed off. */
  function UnsignedError(links: seq<DeliveryTaskPackageRow>, taskID: string, packageID: string): Outcome {
    if Binding(links, taskID, packageID).None? then Failure(PackageNotBindToDeliveryTask)
    else Failure(PackageNotSigned(packageID))
  }

  /**
   * The gate applied before binding: Success when every listed parcel
   * exists and has arrived; otherwise the error for the first that has not.
   */
  function ArrivedGate(pkgs: map<string, PackageModel.Package>, packageIDs: seq<string>): Outcome {
    var k := PackageRepo.FirstWithoutStatus(pkgs, packageIDs, PackageModel.Arrived);
    if k == |packageIDs| then Success
    else if packageIDs[k] !in pkgs then Failure(RecordNotFound)
    else Failure(PackageNotArrived(packageIDs[k], pkgs[packageIDs[k]].status))
  }

  /** Completing a task whose bound parcels are all signed off keeps the state consistent. */
  lemma CompleteKeepsConsistent(tasks: map<string, DeliveryTaskRow>, links: seq<DeliveryTaskPackageRow>,
                                taskID: string, now: Instant)
    requires Consistent(tasks, links) && taskID in tasks
    requires forall id :: id in BoundIDs(links, taskID) ==> SignedBinding(links, taskID, id)
    ensures AllSigned(links, taskID)
    ensures Consistent(tasks[taskID := Transitioned(tasks[taskID], Completed, now).(updatedAt := now)], links)
  {
    forall row | row in links && row.deliveryTaskID == taskID
      ensures SignedBinding(links, taskID, row.packageID)
    {
      BoundIDsMembers(links, taskID, row.packageID);
    }
  }

  /** Any other legal move keeps the state consistent: the count is untouched and the task is not completed. */
  lemma MoveKeepsConsistent(tasks: map<string, DeliveryTaskRow>, links: seq<DeliveryTaskPackageRow>,
                            taskID: string, newStatus: string, now: Instant)
    requires Consistent(tasks, links) && taskID in tasks && newStatus != Completed
    ensures Consistent(tasks[taskID := Transitioned(tasks[taskID], newStatus, now).(updatedAt := now)], links)
  {
  }

  /** Signing rewrites one row in place, so every task keeps its number of rows. */
  lemma SignKeepsCounts(links: seq<DeliveryTaskPackageRow>, k: nat, info: SignInfo, id: string)
    requires k < |links|
    ensures |RowsOf(links[k := links[k].(signInfo := info)], id)| == |RowsOf(links, id)|
  {
    RowsOfRewrite(links, k, links[k].(signInfo := info), id);
  }

  /** Signing a bound binding leaves every signed-off binding signed off. */
  lemma SignKeepsSignoffs(links: seq<DeliveryTaskPackageRow>, k: nat, info: SignInfo, id: string, pid: string)
    requires k < |links| && info.signTime != 0 && SignedBinding(links, id, pid)
    ensures SignedBinding(links[k := links[k].(signInfo := info)], id, pid)
  {
    var links' := links[k := links[k].(signInfo := info)];
    SamePairsSameMatch(links', links, id, pid);
  }

  /**
   * Signing a bound parcel keeps the state consistent: no task gains or
   * loses a row, and a binding that was signed off stays signed off.
   */
  lemma SignKeepsConsistent(tasks: map<string, DeliveryTaskRow>, links: seq<DeliveryTaskPackageRow>,
                            taskID: string, packageID: string, info: SignInfo)
    requires Consistent(tasks, links)
    requires FirstMatch(links, taskID, packageID) < |links| && info.signTime != 0
    ensures var k := FirstMatch(links, taskID, packageID);
      Consistent(tasks, links[k := links[k].(signInfo := info)])
  {
    var k := FirstMatch(links, taskID, packageID);
    var links' := links[k := links[k].(signInfo := info)];
    forall id | id in tasks ensures tasks[id].packageCount == |RowsOf(links', id)| {
      SignKeepsCounts(links, k, info, id);
    }
    forall row | row in links' ensures row.deliveryTaskID in tasks {
      var j :| 0 <= j < |links'| && links'[j] == row;
      assert j != k ==> row == links[j];
    }
    forall id, row | id in tasks && tasks[id].status == Completed && row in links' && row.deliveryTaskID == id
      ensures SignedBinding(links', id, row.packageID)
    {
      var j :| 0 <= j < |links'| && links'[j] == row;
      assert links[j].packageID == row.packageID && links[j].deliveryTaskID == id;
      SignKeepsSignoffs(links, k, info, id, row.packageID);
    }
  }

  /** After a re-bind the task owns exactly its new rows and every other task its old ones. */
  lemma BindKeepsCounts(links: seq<DeliveryTaskPackageRow>, taskID: string, packageIDs: seq<string>, now: Instant,
                        id: string)
    ensures var links' := RowsNotOf(links, taskID) + OrderedRows(taskID, packageIDs, now);
      |RowsOf(links', id)| == if id == taskID then |packageIDs| else |RowsOf(links, id)|
  {
    BindReplaces(links, taskID, packageIDs, now, id);
    OrderedRowsEach(taskID, packageIDs, now);
  }

  /** A re-bind of one task leaves every signed-off binding of another task signed off. */
  lemma BindKeepsSignoffs(links: seq<DeliveryTaskPackageRow>, taskID: string, packageIDs: seq<string>, now: Instant,
                          id: string, row: DeliveryTaskPackageRow)
    requires id != taskID && AllSigned(links, id)
    requires row in RowsNotOf(links, taskID) + OrderedRows(taskID, packageIDs, now) && row.deliveryTaskID == id
    ensures SignedBinding(RowsNotOf(links, taskID) + OrderedRows(taskID, packageIDs, now), id, row.packageID)
  {
    BindKeepsRows(links, taskID, packageIDs, now, row);
    BindKeepsBinding(links, taskID, packageIDs, now, id, row.packageID);
  }

  /**
   * Re-binding a pending task keeps the state consistent: the task's count
   * is the number of its new rows, the new rows name that task, and every
   * other task keeps its rows and so its sign-offs.
   */
  lemma BindKeepsConsistent(tasks: map<string, DeliveryTaskRow>, links: seq<DeliveryTaskPackageRow>, taskID: string,
                            packageIDs: seq<string>, now: Instant)
    requires Consistent(tasks, links) && taskID in tasks && tasks[taskID].status == Pending
    ensures var links' := RowsNotOf(links, taskID) + OrderedRows(taskID, packageIDs, now);
      Consistent(tasks[taskID := tasks[taskID].(packageCount := |packageIDs|, updatedAt := now)], links')
  {
    var links' := RowsNotOf(links, taskID) + OrderedRows(taskID, packageIDs, now);
    var tasks' := tasks[taskID := tasks[taskID].(packageCount := |packageIDs|, updatedAt := now)];
    assert forall row :: row in links' ==> row.deliveryTaskID in tasks' by {
      forall row | row in links' ensures row.deliveryTaskID in tasks' {
        BindKeepsRows(links, taskID, packageIDs, now, row);
      }
    }
    assert forall id :: id in tasks' ==> tasks'[id].packageCount == |RowsOf(links', id)| by {
      forall id | id in tasks' ensures tasks'[id].packageCount == |RowsOf(links', id)| {
        BindKeepsCounts(links, taskID, packageIDs, now, id);
      }
    }
    assert forall id :: id in tasks' && tasks'[id].status == Completed ==> AllSigned(links', id) by {
      forall id | id in tasks' && tasks'[id].status == Completed ensures AllSigned(links', id) {
        forall row | row in links' && row.deliveryTaskID == id ensures SignedBinding(links', id, row.packageID) {
          BindKeepsSignoffs(links, taskID, packageIDs, now, id, row);
        }
      }
    }
  }

  class DeliverySvc {
    const deliveryRepo: DeliveryRepository
    const packageRepo: PackageRepo.PackageRepository

    ghost predicate Valid()
      reads this, deliveryRepo
    {
      deliveryRepo.Valid() && Consistent(deliveryRepo.tasks, deliveryRepo.links)
    }

    constructor (deliveryRepo: DeliveryRepository, packageRepo: PackageRepo.PackageRepository)
      requires deliveryRepo.Valid() && Consistent(deliveryRepo.tasks, deliveryRepo.links)
      ensures Valid()
      ensures this.deliveryRepo == deliveryRepo && this.packageRepo == packageRepo
    {
      this.deliveryRepo := deliveryRepo;
      this.packageRepo := packageRepo;
    }

    /** Create a pending task; the delivery area, courier and start node are required. */
    method CreateDeliveryTask(req: CreateDeliveryTaskReq, stamp: string) returns (r: Result<DeliveryTaskRow>)
      requires Valid()
      modifies deliveryRepo`tasks
      ensures Valid()
      ensures req.deliveryArea == "" || req.courierID == "" || req.startNode == "" ==>
        r == Err(ParamInvalid) && deliveryRepo.tasks == old(deliveryRepo.tasks)
      ensures r.Ok? ==>
        && r.value == DeliveryTaskRow(StampedID(DeliveryIDPrefix, stamp), req.deliveryArea, req.courierID, req.courierName,
                                      Pending, 0, 0, 0, req.startNode, 0, NoAbnormal)
        && StampedID(DeliveryIDPrefix, stamp) !in old(deliveryRepo.tasks)
        && deliveryRepo.tasks == old(deliveryRepo.tasks)[r.value.taskID := r.value]
      ensures r.Err? ==> deliveryRepo.tasks == old(deliveryRepo.tasks)
      ensures req.deliveryArea != "" && req.courierID != "" && req.startNode != "" ==>
        (r.Ok? <==> StampedID(DeliveryIDPrefix, stamp) !in old(deliveryRepo.tasks))
    {
      if req.deliveryArea == "" || req.courierID == "" || req.startNode == "" {
        return Err(ParamInvalid);
      }
      var task := DeliveryTaskRow(StampedID(DeliveryIDPrefix, stamp), req.deliveryArea, req.courierID, req.courierName,
                                  Pending, 0, 0, 0, req.startNode, 0, NoAbnormal);
      var err := deliveryRepo.CreateTask(task);
      if err.Failure? {
        return Err(err.error);
      }
      NoRowsForUnnamedTask(deliveryRepo.links, task.taskID);
      r := Ok(task);
    }

    /**
     * Move a task through its state machine. On a move to delivering every
     * bound parcel becomes delivering. On a move to completed the bound
     * parcels are checked in delivery order: each signed-off parcel becomes
     * delivered, and the first that is unbound or unsigned stops the call
     * with an error, leaving the parcels before it delivered and the task
     * as it was. The task is stored only when the call succeeds.
     */
    method ChangeTaskStatus(taskID: string, newStatus: string, now: Instant) returns (err: Outcome)
      requires Valid()
      modifies deliveryRepo`tasks, packageRepo`packages
      ensures Valid()
      ensures taskID !in old(deliveryRepo.tasks) ==>
        err == Failure(DeliveryTaskNotFound) && unchanged(deliveryRepo, packageRepo)
      ensures taskID in old(deliveryRepo.tasks) &&
              !CanTransition(DeliveryFlow, old(deliveryRepo.tasks)[taskID].status, newStatus) ==>
        err == Failure(DeliveryStatusInvalid) && unchanged(deliveryRepo, packageRepo)
      ensures taskID in old(deliveryRepo.tasks) &&
              CanTransition(DeliveryFlow, old(deliveryRepo.tasks)[taskID].status, newStatus) &&
              newStatus == Completed ==>
        var ids := BoundIDs(deliveryRepo.links, taskID);
        var k := FirstUnsigned(deliveryRepo.links, taskID, ids);
        && packageRepo.packages ==
             PackageRepo.PatchAll(old(packageRepo.packages), ids[..k], PackageModel.Delivered, "", "", now)
        && if k < |ids| then
             err == UnsignedError(deliveryRepo.links, taskID, ids[k]) && unchanged(deliveryRepo)
           else
             && err == Success
             && deliveryRepo.tasks ==
                  old(deliveryRepo.tasks)[taskID :=
                    Transitioned(old(deliveryRepo.tasks)[taskID], Completed, now).(updatedAt := now)]
      ensures taskID in old(deliveryRepo.tasks) &&
              CanTransition(DeliveryFlow, old(deliveryRepo.tasks)[taskID].status, newStatus) &&
              newStatus != Completed ==>
        && err == Success
        && deliveryRepo.tasks ==
             old(deliveryRepo.tasks)[taskID :=
               Transitioned(old(deliveryRepo.tasks)[taskID], newStatus, now).(updatedAt := now)]
        && packageRepo.packages ==
             if newStatus == Delivering then
               PackageRepo.PatchAll(old(packageRepo.packages), BoundIDs(deliveryRepo.links, taskID),
                                    PackageModel.Delivering, "", "", now)
             else old(packageRepo.packages)
      ensures newStatus == Completed && err.Success? ==>
        && (forall row :: row in deliveryRepo.links && row.deliveryTaskID == taskID ==>
              SignedBinding(deliveryRepo.links, taskID, row.packageID))
        && (forall id :: id in BoundIDs(deliveryRepo.links, taskID) && id in packageRepo.packages ==>
              packageRepo.packages[id].status == PackageModel.Delivered)
    {
      var loaded := deliveryRepo.GetTaskByID(taskID);
      if loaded.Err? {
        return Failure(loaded.error);
      }
      var task := loaded.value;
      ghost var oldTasks := deliveryRepo.tasks;
      err := task.ChangeStatus(newStatus, now);
      if err.Failure? {
        return err;
      }
      if newStatus == Completed {
        var pkgIDs := deliveryRepo.GetPackageIDsByTaskID(taskID);
        err := DeliverSigned(taskID, pkgIDs, now);
        assert pkgIDs[..|pkgIDs|] == pkgIDs;
        if err.Failure? {
          return err;
        }
        CompleteKeepsConsistent(oldTasks, deliveryRepo.links, taskID, now);
        PackageRepo.PatchAllEffect(old(packageRepo.packages), pkgIDs, PackageModel.Delivered, "", "", now);
      } else {
        if newStatus == Delivering {
          var pkgIDs := deliveryRepo.GetPackageIDsByTaskID(taskID);
          PackageRepo.UpdateStatusForEach(packageRepo, pkgIDs, PackageModel.Delivering, "", "", now);
        }
        MoveKeepsConsistent(oldTasks, deliveryRepo.links, taskID, newStatus, now);
      }
      deliveryRepo.UpdateTask(task, now);
    }

    /**
     * The completion loop: each listed parcel in turn must have a signed-off
     * binding to the task, and then becomes delivered; the first that has
     * none decides the error.
     */
    method DeliverSigned(taskID: string, pkgIDs: seq<string>, now: Instant) returns (err: Outcome)
      modifies packageRepo`packages
      ensures var k := FirstUnsigned(deliveryRepo.links, taskID, pkgIDs);
        && err == (if k == |pkgIDs| then Success else UnsignedError(deliveryRepo.links, taskID, pkgIDs[k]))
        && packageRepo.packages ==
             PackageRepo.PatchAll(old(packageRepo.packages), pkgIDs[..k], PackageModel.Delivered, "", "", now)
    {
      var i := 0;
      while i < |pkgIDs|
        invariant 0 <= i <= |pkgIDs|
        invariant FirstUnsigned(deliveryRepo.links, taskID, pkgIDs)
          == i + FirstUnsigned(deliveryRepo.links, taskID, pkgIDs[i..])
        invariant packageRepo.packages ==
          PackageRepo.PatchAll(old(packageRepo.packages), pkgIDs[..i], PackageModel.Delivered, "", "", now)
      {
        var dtp := deliveryRepo.GetDeliveryTaskPackage(taskID, pkgIDs[i]);
        if dtp.Err? {
          return Failure(dtp.error);
        }
        if dtp.value.signInfo.signTime == 0 {
          return Failure(PackageNotSigned(pkgIDs[i]));
        }
        assert pkgIDs[..i + 1][..i] == pkgIDs[..i];
        assert pkgIDs[i..][1..] == pkgIDs[i + 1..];
        packageRepo.UpdateStatus(pkgIDs[i], PackageModel.Delivered, "", "", now);
        i := i + 1;
      }
      assert pkgIDs[..i] == pkgIDs;
      err := Success;
    }

    /**
     * Bind parcels to a task, replacing its earlier bindings: every listed
     * parcel must exist and have arrived, and the task must be pending; then
     * the task is stored with package_count set to the list's length, and
     * the list is stored as the task's bindings in delivery order.
     */
    method BindPackagesToTask(taskID: string, packageIDs: seq<string>, now: Instant) returns (err: Outcome)
      requires Valid()
      modifies deliveryRepo`tasks, deliveryRepo`links
      ensures Valid()
      ensures unchanged(packageRepo)
      ensures taskID !in old(deliveryRepo.tasks) ==>
        err == Failure(DeliveryTaskNotFound) && unchanged(deliveryRepo)
      ensures taskID in old(deliveryRepo.tasks) && ArrivedGate(packageRepo.packages, packageIDs).Failure? ==>
        err == ArrivedGate(packageRepo.packages, packageIDs) && unchanged(deliveryRepo)
      ensures taskID in old(deliveryRepo.tasks) && ArrivedGate(packageRepo.packages, packageIDs).Success? &&
              old(deliveryRepo.tasks)[taskID].status != Pending ==>
        err == Failure(DeliveryTaskNotBindable) && unchanged(deliveryRepo)
      ensures taskID in old(deliveryRepo.tasks) && ArrivedGate(packageRepo.packages, packageIDs).Success? &&
              old(deliveryRepo.tasks)[taskID].status == Pending ==>
        && err == Success
        && deliveryRepo.tasks ==
             old(deliveryRepo.tasks)[taskID := old(deliveryRepo.tasks)[taskID].(packageCount := |packageIDs|,
                                                                                 updatedAt := now)]
        && deliveryRepo.links == RowsNotOf(old(deliveryRepo.links), taskID) + OrderedRows(taskID, packageIDs, now)
      ensures err.Success? ==> BoundIDs(deliveryRepo.links, taskID) == packageIDs
    {
      var loaded := deliveryRepo.GetTaskByID(taskID);
      if loaded.Err? {
        return Failure(loaded.error);
      }
      var task := loaded.value;
      err := CheckArrived(packageIDs);
      if err.Failure? {
        return err;
      }
      err := BindLoaded(task, packageIDs, now);
    }

    /**
     * Binding once the gate has passed: the loaded task must be pending; it
     * is stored with the list's length as its count, then its bindings are
     * replaced by the list.
     */
    method BindLoaded(task: DeliveryTask, packageIDs: seq<string>, now: Instant) returns (err: Outcome)
      requires Valid() && task.taskID in deliveryRepo.tasks && task.Data() == deliveryRepo.tasks[task.taskID]
      modifies task, deliveryRepo`tasks, deliveryRepo`links
      ensures Valid()
      ensures old(task.status) != Pending ==> err == Failure(DeliveryTaskNotBindable) && unchanged(deliveryRepo)
      ensures old(task.status) == Pending ==>
        && err == Success
        && deliveryRepo.tasks ==
             old(deliveryRepo.tasks)[task.taskID := old(task.Data()).(packageCount := |packageIDs|, updatedAt := now)]
        && deliveryRepo.links ==
             RowsNotOf(old(deliveryRepo.links), task.taskID) + OrderedRows(task.taskID, packageIDs, now)
        && BoundIDs(deliveryRepo.links, task.taskID) == packageIDs
    {
      ghost var oldLinks := deliveryRepo.links;
      ghost var oldTasks := deliveryRepo.tasks;
      err := StoreBound(task, packageIDs, now);
      if err.Failure? {
        return err;
      }
      deliveryRepo.BindPackages(task.taskID, packageIDs, now);
      BindKeepsConsistent(oldTasks, oldLinks, task.taskID, packageIDs, now);
      BindReplaces(oldLinks, task.taskID, packageIDs, now, task.taskID);
    }

    /** The task half of a bind: a pending task takes the list's length as its count and is stored. */
    method StoreBound(task: DeliveryTask, packageIDs: seq<string>, now: Instant) returns (err: Outcome)
      requires deliveryRepo.Valid() && task.taskID in deliveryRepo.tasks
      requires task.Data() == deliveryRepo.tasks[task.taskID]
      modifies task, deliveryRepo`tasks
      ensures deliveryRepo.Valid()
      ensures old(task.status) != Pending ==>
        err == Failure(DeliveryTaskNotBindable) && deliveryRepo.tasks == old(deliveryRepo.tasks)
      ensures old(task.status) == Pending ==>
        && err == Success
        && deliveryRepo.tasks ==
             old(deliveryRepo.tasks)[task.taskID := old(task.Data()).(packageCount := |packageIDs|, updatedAt := now)]
    {
      err := task.BindPackage(packageIDs, now);
      if err.Failure? {
        return err;
      }
      deliveryRepo.UpdateTask(task, now);
    }

    /**
     * The gate applied before binding: each listed parcel in turn must exist
     * and have arrived; the first that does not decides the error.
     */
    method CheckArrived(packageIDs: seq<string>) returns (err: Outcome)
      ensures err == ArrivedGate(packageRepo.packages, packageIDs)
    {
      var i := 0;
      while i < |packageIDs|
        invariant 0 <= i <= |packageIDs|
        invariant PackageRepo.FirstWithoutStatus(packageRepo.packages, packageIDs, PackageModel.Arrived)
          == i + PackageRepo.FirstWithoutStatus(packageRepo.packages, packageIDs[i..], PackageModel.Arrived)
      {
        var pkg := packageRepo.GetByID(packageIDs[i]);
        if pkg.Err? {
          return Failure(pkg.error);
        }
        if pkg.value.status != PackageModel.Arrived {
          return Failure(PackageNotArrived(packageIDs[i], pkg.value.status));
        }
        assert packageIDs[i..][1..] == packageIDs[i + 1..];
        i := i + 1;
      }
      err := Success;
    }

    /**
     * Force the task to abnormal whatever its status, record the abnormal
     * info, give every bound parcel status delivery_abnormal with the
     * reason and handler, then store the task.
     */
    method ReportDeliveryAbnormal(taskID: string, abnormalType: string, reason: string, handler: string,
                                  now: Instant) returns (err: Outcome)
      requires Valid()
      modifies deliveryRepo`tasks, packageRepo`packages
      ensures Valid()
      ensures taskID !in old(deliveryRepo.tasks) ==>
        err == Failure(DeliveryTaskNotFound) && unchanged(deliveryRepo, packageRepo)
      ensures taskID in old(deliveryRepo.tasks) ==>
        && err == Success
        && deliveryRepo.tasks == old(deliveryRepo.tasks)[taskID := old(deliveryRepo.tasks)[taskID].(
             status := Abnormal, abnormal := DeliveryAbnormal(abnormalType, reason, handler, now, ""),
             updatedAt := now)]
        && packageRepo.packages ==
             PackageRepo.PatchAll(old(packageRepo.packages), BoundIDs(deliveryRepo.links, taskID),
                                  PackageModel.DeliveryAbnormal, reason, handler, now)
    {
      var loaded := deliveryRepo.GetTaskByID(taskID);
      if loaded.Err? {
        return Failure(loaded.error);
      }
      var task := loaded.value;
      task.ReportAbnormal(abnormalType, reason, handler, now);
      var pkgIDs := deliveryRepo.GetPackageIDsByTaskID(taskID);
      PackageRepo.UpdateStatusForEach(packageRepo, pkgIDs, PackageModel.DeliveryAbnormal, reason, handler, now);
      deliveryRepo.UpdateTask(task, now);
      err := Success;
    }

    /**
     * Sign a parcel off for the courier who owns the task: the binding gets
     * the signer, the masked phone and the sign-off time, and the parcel
     * becomes delivered.
     */
    method SignPackage(taskID: string, packageID: string, courierID: string, signerName: string,
                       signerPhone: string, signType: string, remark: string, now: Instant) returns (err: Outcome)
      requires Valid()
      modifies deliveryRepo`links, packageRepo`packages
      ensures Valid()
      ensures taskID !in old(deliveryRepo.tasks) ==>
        err == Failure(DeliveryTaskNotFound) && unchanged(deliveryRepo, packageRepo)
      ensures taskID in old(deliveryRepo.tasks) && old(deliveryRepo.tasks)[taskID].courierID != courierID ==>
        err == Failure(DeliveryTaskNotBelongToCourier) && unchanged(deliveryRepo, packageRepo)
      ensures taskID in old(deliveryRepo.tasks) && old(deliveryRepo.tasks)[taskID].courierID == courierID ==>
        var k := FirstMatch(old(deliveryRepo.links), taskID, packageID);
        if k == |old(deliveryRepo.links)| then
          err == Failure(PackageNotBindToDeliveryTask) && unchanged(deliveryRepo, packageRepo)
        else
          && err == Success
          && deliveryRepo.links == old(deliveryRepo.links)[k := old(deliveryRepo.links)[k].(
               signInfo := SignInfo(signerName, MaskPhone(signerPhone), now, signType, remark))]
          && packageRepo.packages ==
               PackageRepo.PatchOne(old(packageRepo.packages), packageID, PackageModel.Delivered, "", "", now)
          && SignedBinding(deliveryRepo.links, taskID, packageID)
    {
      var loaded := deliveryRepo.GetTaskByID(taskID);
      if loaded.Err? {
        return Failure(loaded.error);
      }
      var task := loaded.value;
      if task.courierID != courierID {
        return Failure(DeliveryTaskNotBelongToCourier);
      }
      var masked := MaskPhone(signerPhone);
      ghost var oldLinks := deliveryRepo.links;
      err := deliveryRepo.SignPackage(taskID, packageID, signerName, masked, signType, remark, now);
      if err.Failure? {
        return err;
      }
      SignKeepsConsistent(deliveryRepo.tasks, oldLinks, taskID, packageID,
                          SignInfo(signerName, masked, now, signType, remark));
      SamePairsSameMatch(deliveryRepo.links, oldLinks, taskID, packageID);
      packageRepo.UpdateStatus(packageID, PackageModel.Delivered, "", "", now);
    }

    /**
     * The bound parcels of a task, in delivery order, for the courier who
     * owns it; any bound parcel that cannot be loaded fails the whole call.
     */
    method GetCourierTaskPackages(courierID: string, taskID: string) returns (r: Result<seq<PackageModel.Package>>)
      requires deliveryRepo.Valid()
      ensures taskID !in deliveryRepo.tasks ==> r == Err(DeliveryTaskNotFound)
      ensures taskID in deliveryRepo.tasks && deliveryRepo.tasks[taskID].courierID != courierID ==>
        r == Err(DeliveryTaskNotBelongToCourier)
      ensures taskID in deliveryRepo.tasks && deliveryRepo.tasks[taskID].courierID == courierID ==>
        var ids := BoundIDs(deliveryRepo.links, taskID);
        if forall id :: id in ids ==> id in packageRepo.packages then
          && r.Ok?
          && |r.value| == |ids|
          && forall i :: 0 <= i < |ids| ==> r.value[i] == packageRepo.packages[ids[i]]
        else
          r == Err(RecordNotFound)
    {
      var loaded := deliveryRepo.GetTaskByID(taskID);
      if loaded.Err? {
        return Err(loaded.error);
      }
      var task := loaded.value;
      if task.courierID != courierID {
        return Err(DeliveryTaskNotBelongToCourier);
      }
      var pkgIDs := deliveryRepo.GetPackageIDsByTaskID(taskID);
      r := LoadPackages(pkgIDs);
    }

    /** The parcels of the listed IDs in list order, failing at the first ID with no parcel. */
    method LoadPackages(ids: seq<string>) returns (r: Result<seq<PackageModel.Package>>)
      ensures (forall id :: id in ids ==> id in packageRepo.packages) ==>
        && r.Ok?
        && |r.value| == |ids|
        && forall i :: 0 <= i < |ids| ==> r.value[i] == packageRepo.packages[ids[i]]
      ensures !(forall id :: id in ids ==> id in packageRepo.packages) ==> r == Err(RecordNotFound)
    {
      var packages: seq<PackageModel.Package> := [];
      var i := 0;
      while i < |ids|
        invariant 0 <= i <= |ids|
        invariant |packages| == i
        invariant forall j :: 0 <= j < i ==> ids[j] in packageRepo.packages && packages[j] == packageRepo.packages[ids[j]]
      {
        var pkg := packageRepo.GetByID(ids[i]);
        if pkg.Err? {
          return Err(pkg.error);
        }
        packages := packages + [pkg.value];
        i := i + 1;
      }
      r := Ok(packages);
    }
  }
}
