/** The transport task entity and its state machine. */
module TransportModel {
  import opened Common
  import opened StateMachine

  // Transport task statuses.
  const Pending := "pending"
  const Transporting := "transporting"
  const Arrived := "arrived"
  const Completed := "completed"
  const Abnormal := "abnormal"

  /** The status-flow table of a transport task. */
  const TransportFlow: Flow := map[
    Pending := [Transporting, Abnormal],
    Transporting := [Arrived, Abnormal],
    Arrived := [Completed, Abnormal],
    Abnormal := [Transporting, Completed],
    Completed := []
  ]

  /** The same table, written out as the set of its edges. */
  predicate TransportEdge(from: string, to: string) {
    || (from == Pending && (to == Transporting || to == Abnormal))
    || (from == Transporting && (to == Arrived || to == Abnormal))
    || (from == Arrived && (to == Completed || to == Abnormal))
    || (from == Abnormal && (to == Transporting || to == Completed))
  }

  /** The route value object; the distance is an opaque measurement. */
  datatype TransportRoute = TransportRoute(routeJSON: string, distance: real)

  /** The abnormal-info value object embedded in a transport task. */
  datatype TransportAbnormal = TransportAbnormal(
    abnormalType: string,
    abnormalReason: string,
    handler: string,
    handleTime: Time,
    handleResult: string)

  const NoAbnormal := TransportAbnormal("", "", "", 0, "")

  /** A transport task as stored in the transport_tasks table. */
  datatype TransportTaskRow = TransportTaskRow(
    taskID: string,
    startNode: string,
    endNode: string,
    status: string,
    vehicleID: string,
    driverID: string,
    driverName: string,
    packageCount: int,
    estimatedTime: Time,
    actualArriveTime: Time,
    updatedAt: Time,
    route: TransportRoute,
    abnormal: TransportAbnormal)

  /** A row of the transport_task_packages join table. */
  datatype TransportTaskPackage = TransportTaskPackage(
    transportTaskID: string,
    packageID: string,
    addedTime: Time)

  /** Parcels may be bound to a task only while it is pending or transporting. */
  predicate Bindable(status: string) {
    status == Pending || status == Transporting
  }

  /** The task after a legal move to `newStatus`: the arrival time is stamped only on `arrived`. */
  function Transitioned(t: TransportTaskRow, newStatus: string, now: Instant): TransportTaskRow {
    t.(status := newStatus,
       actualArriveTime := if newStatus == Arrived then now else t.actualArriveTime)
  }

  /** The table agrees with its edge list, in both directions. */
  lemma TransportFlowIsTable(from: string, to: string)
    ensures CanTransition(TransportFlow, from, to) <==> TransportEdge(from, to)
  {
  }

  /** `completed` is terminal. */
  lemma CompletedIsTerminal(to: string)
    ensures !CanTransition(TransportFlow, Completed, to)
  {
  }

  /** No status may move to itself. */
  lemma NoSelfTransition(s: string)
    ensures !CanTransition(TransportFlow, s, s)
  {
    TransportFlowIsTable(s, s);
  }

  /** From `abnormal` only `transporting` and `completed` are reachable in one step. */
  lemma LeavingAbnormal(to: string)
    ensures CanTransition(TransportFlow, Abnormal, to) <==> to == Transporting || to == Completed
  {
    TransportFlowIsTable(Abnormal, to);
  }

  /** A status absent from the table (for example a parcel status) can move nowhere. */
  lemma UnknownTransportStatusIsStuck(s: string, to: string)
    requires s !in TransportFlow
    ensures !CanTransition(TransportFlow, s, to)
  {
  }

  /** The transport task as loaded into memory: its methods change it in place. */
  class TransportTask {
    const taskID: string
    const startNode: string
    const endNode: string
    var status: string
    const vehicleID: string
    const driverID: string
    const driverName: string
    var packageCount: int
    const estimatedTime: Time
    var actualArriveTime: Time
    var updatedAt: Time
    const route: TransportRoute
    var abnormal: TransportAbnormal

    /** The row that persisting this task writes. */
    function Data(): TransportTaskRow
      reads this
    {
      TransportTaskRow(taskID, startNode, endNode, status, vehicleID, driverID, driverName,
                       packageCount, estimatedTime, actualArriveTime, updatedAt, route, abnormal)
    }

    constructor FromRow(row: TransportTaskRow)
      ensures Data() == row
    {
      taskID := row.taskID;
      startNode := row.startNode;
      endNode := row.endNode;
      status := row.status;
      vehicleID := row.vehicleID;
      driverID := row.driverID;
      driverName := row.driverName;
      packageCount := row.packageCount;
      estimatedTime := row.estimatedTime;
      actualArriveTime := row.actualArriveTime;
      updatedAt := row.updatedAt;
      route := row.route;
      abnormal := row.abnormal;
    }

    /** Move to `newStatus` if the table allows it; a rejected move changes nothing. */
    method ChangeStatus(newStatus: string, now: Instant) returns (err: Outcome)
      modifies this
      ensures err.Success? <==> CanTransition(TransportFlow, old(status), newStatus)
      ensures err.Failure? ==> err.error == TransportStatusInvalid && Data() == old(Data())
      ensures err.Success? ==> Data() == Transitioned(old(Data()), newStatus, now)
    {
      var allow := ValidateTransition(TransportFlow, status, newStatus);
      if !allow {
        return Failure(TransportStatusInvalid);
      }
      status := newStatus;
      if newStatus == Arrived {
        actualArriveTime := now;
      }
      err := Success;
    }

    /** Parcels may be bound only while pending or transporting; the count grows by the list length. */
    method BindPackage(packageIDs: seq<string>, now: Instant) returns (err: Outcome)
      modifies this
      ensures err.Success? <==> Bindable(old(status))
      ensures err.Failure? ==> err.error == TransportTaskNotBindable && Data() == old(Data())
      ensures err.Success? ==>
        Data() == old(Data()).(packageCount := old(packageCount) + |packageIDs|, updatedAt := now)
    {
      if status != Pending && status != Transporting {
        return Failure(TransportTaskNotBindable);
      }
      packageCount := packageCount + |packageIDs|;
      updatedAt := now;
      err := Success;
    }

    /** Force the task to `abnormal` whatever its status, replacing the abnormal info wholesale. */
    method ReportAbnormal(abnormalType: string, reason: string, handler: string, now: Instant)
      modifies this
      ensures Data() == old(Data()).(status := Abnormal,
                                     abnormal := TransportAbnormal(abnormalType, reason, handler, now, ""),
                                     updatedAt := now)
    {
      status := Abnormal;
      abnormal := TransportAbnormal(abnormalType, reason, handler, now, "");
      updatedAt := now;
    }

    /**
     * Record the handling result of an abnormal task, then move it on through
     * the table. The result is recorded even when the move is rejected.
     */
    method HandleAbnormal(result: string, newStatus: string, now: Instant) returns (err: Outcome)
      modifies this
      ensures old(status) != Abnormal ==> err == Failure(TransportTaskNotAbnormal) && Data() == old(Data())
      ensures old(status) == Abnormal ==>
        var recorded := old(Data()).(abnormal := old(abnormal).(handleResult := result));
        if newStatus == Transporting || newStatus == Completed then
          err == Success && Data() == Transitioned(recorded, newStatus, now).(updatedAt := now)
        else
          err == Failure(TransportStatusInvalid) && Data() == recorded
    {
      if status != Abnormal {
        return Failure(TransportTaskNotAbnormal);
      }
      abnormal := abnormal.(handleResult := result);
      LeavingAbnormal(newStatus);
      err := ChangeStatus(newStatus, now);
      if err.Failure? {
        return err;
      }
      updatedAt := now;
    }
  }
}
