/** The delivery task entity, its state machine, and the sign-off of a bound parcel. */
module DeliveryModel {
  import opened Common
  import opened StateMachine

  // Delivery task statuses.
  const Pending := "pending"
  const Delivering := "delivering"
  const Completed := "completed"
  const Abnormal := "abnormal"

  /** The status-flow table of a delivery task. */
  const DeliveryFlow: Flow := map[
    Pending := [Delivering, Abnormal],
    Delivering := [Completed, Abnormal],
    Abnormal := [Delivering, Completed],
    Completed := []
  ]

  /** The same table, written out as the set of its edges. */
  predicate DeliveryEdge(from: string, to: string) {
    || (from == Pending && (to == Delivering || to == Abnormal))
    || (from == Delivering && (to == Completed || to == Abnormal))
    || (from == Abnormal && (to == Delivering || to == Completed))
  }

  /** The abnormal-info value object embedded in a delivery task. */
  datatype DeliveryAbnormal = DeliveryAbnormal(
    abnormalType: string,
    abnormalReason: string,
    handler: string,
    handleTime: Time,
    handleResult: string)

  const NoAbnormal := DeliveryAbnormal("", "", "", 0, "")

  /** The sign-off value object of a bound parcel; a zero sign time means "not signed". */
  datatype SignInfo = SignInfo(
    signerName: string,
    signerPhone: string,
    signTime: Time,
    signType: string,
    signRemark: string)

  const NotSigned := SignInfo("", "", 0, "", "")

  /** A delivery task as stored in the delivery_tasks table. */
  datatype DeliveryTaskRow = DeliveryTaskRow(
    taskID: string,
    deliveryArea: string,
    courierID: string,
    courierName: string,
    status: string,
    packageCount: int,
    startTime: Time,
    completeTime: Time,
    startNode: string,
    updatedAt: Time,
    abnormal: DeliveryAbnormal)

  /** A row of the delivery_task_packages join table. */
  datatype DeliveryTaskPackageRow = DeliveryTaskPackageRow(
    deliveryTaskID: string,
    packageID: string,
    deliveryOrder: nat,
    signInfo: SignInfo,
    addedTime: Time)

  predicate IsSigned(row: DeliveryTaskPackageRow) {
    row.signInfo.signTime != 0
  }

  /** The task after a legal move: `delivering` stamps the start time, `completed` the completion time. */
  function Transitioned(t: DeliveryTaskRow, newStatus: string, now: Instant): DeliveryTaskRow {
    t.(status := newStatus,
       startTime := if newStatus == Delivering then now else t.startTime,
       completeTime := if newStatus == Completed then now else t.completeTime)
  }

  /** The table agrees with its edge list, in both directions. */
  lemma DeliveryFlowIsTable(from: string, to: string)
    ensures CanTransition(DeliveryFlow, from, to) <==> DeliveryEdge(from, to)
  {
  }

  /** `completed` is terminal. */
  lemma CompletedIsTerminal(to: string)
    ensures !CanTransition(DeliveryFlow, Completed, to)
  {
  }

  /** No status may move to itself. */
  lemma NoSelfTransition(s: string)
    ensures !CanTransition(DeliveryFlow, s, s)
  {
    DeliveryFlowIsTable(s, s);
  }

  /** From `abnormal` only `delivering` and `completed` are reachable in one step. */
  lemma LeavingAbnormal(to: string)
    ensures CanTransition(DeliveryFlow, Abnormal, to) <==> to == Delivering || to == Completed
  {
    DeliveryFlowIsTable(Abnormal, to);
  }

  /** The delivery task as loaded into memory: its methods change it in place. */
  class DeliveryTask {
    const taskID: string
    const deliveryArea: string
    const courierID: string
    const courierName: string
    var status: string
    var packageCount: int
    var startTime: Time
    var completeTime: Time
    const startNode: string
    var updatedAt: Time
    var abnormal: DeliveryAbnormal

    /** The row that persisting this task writes. */
    function Data(): DeliveryTaskRow
      reads this
    {
      DeliveryTaskRow(taskID, deliveryArea, courierID, courierName, status, packageCount,
                      startTime, completeTime, startNode, updatedAt, abnormal)
    }

    constructor FromRow(row: DeliveryTaskRow)
      ensures Data() == row
    {
      taskID := row.taskID;
      deliveryArea := row.deliveryArea;
      courierID := row.courierID;
      courierName := row.courierName;
      status := row.status;
      packageCount := row.packageCount;
      startTime := row.startTime;
      completeTime := row.completeTime;
      startNode := row.startNode;
      updatedAt := row.updatedAt;
      abnormal := row.abnormal;
    }

    /** Move to `newStatus` if the table allows it; a rejected move changes nothing. */
    method ChangeStatus(newStatus: string, now: Instant) returns (err: Outcome)
      modifies this
      ensures err.Success? <==> CanTransition(DeliveryFlow, old(status), newStatus)
      ensures err.Failure? ==> err.error == DeliveryStatusInvalid && Data() == old(Data())
      ensures err.Success? ==> Data() == Transitioned(old(Data()), newStatus, now)
    {
      var allow := ValidateTransition(DeliveryFlow, status, newStatus);
      if !allow {
        return Failure(DeliveryStatusInvalid);
      }
      status := newStatus;
      if newStatus == Delivering {
        startTime := now;
      } else if newStatus == Completed {
        completeTime := now;
      }
      err := Success;
    }

    /** Parcels may be bound only while pending; the count is replaced by the list length. */
    method BindPackage(packageIDs: seq<string>, now: Instant) returns (err: Outcome)
      modifies this
      ensures err.Success? <==> old(status) == Pending
      ensures err.Failure? ==> err.error == DeliveryTaskNotBindable && Data() == old(Data())
      ensures err.Success? ==> Data() == old(Data()).(packageCount := |packageIDs|, updatedAt := now)
    {
      if status != Pending {
        return Failure(DeliveryTaskNotBindable);
      }
      packageCount := |packageIDs|;
      updatedAt := now;
      err := Success;
    }

    /** Force the task to `abnormal` whatever its status, replacing the abnormal info wholesale. */
    method ReportAbnormal(abnormalType: string, reason: string, handler: string, now: Instant)
      modifies this
      ensures Data() == old(Data()).(status := Abnormal,
                                     abnormal := DeliveryAbnormal(abnormalType, reason, handler, now, ""),
                                     updatedAt := now)
    {
      status := Abnormal;
      abnormal := DeliveryAbnormal(abnormalType, reason, handler, now, "");
      updatedAt := now;
    }

    /**
     * Record the handling result of an abnormal task, then move it on through
     * the table. The result is recorded even when the move is rejected.
     */
    method HandleAbnormal(result: string, newStatus: string, now: Instant) returns (err: Outcome)
      modifies this
      ensures old(status) != Abnormal ==> err == Failure(DeliveryTaskNotAbnormal) && Data() == old(Data())
      ensures old(status) == Abnormal ==>
        var recorded := old(Data()).(abnormal := old(abnormal).(handleResult := result));
        if newStatus == Delivering || newStatus == Completed then
          err == Success && Data() == Transitioned(recorded, newStatus, now).(updatedAt := now)
        else
          err == Failure(DeliveryStatusInvalid) && Data() == recorded
    {
      if status != Abnormal {
        return Failure(DeliveryTaskNotAbnormal);
      }
      abnormal := abnormal.(handleResult := result);
      LeavingAbnormal(newStatus);
      err := ChangeStatus(newStatus, now);
      if err.Failure? {
        return err;
      }
      updatedAt := now;
    }
  }

  /** A delivery_task_packages row as loaded into memory, so that signing can change it in place. */
  class DeliveryTaskPackage {
    const deliveryTaskID: string
    const packageID: string
    const deliveryOrder: nat
    var signInfo: SignInfo
    const addedTime: Time

    function Data(): DeliveryTaskPackageRow
      reads this
    {
      DeliveryTaskPackageRow(deliveryTaskID, packageID, deliveryOrder, signInfo, addedTime)
    }

    constructor FromRow(row: DeliveryTaskPackageRow)
      ensures Data() == row
    {
      deliveryTaskID := row.deliveryTaskID;
      packageID := row.packageID;
      deliveryOrder := row.deliveryOrder;
      signInfo := row.signInfo;
      addedTime := row.addedTime;
    }

    /** Replace the whole sign-off with the given fields, stamped now; nothing else changes. */
    method SignPackage(signerName: string, signerPhone: string, signType: string, remark: string, now: Instant)
      modifies this
      ensures Data() == old(Data()).(signInfo := SignInfo(signerName, signerPhone, now, signType, remark))
      ensures IsSigned(Data())
    {
      signInfo := SignInfo(signerName, signerPhone, now, signType, remark);
    }
  }
}
