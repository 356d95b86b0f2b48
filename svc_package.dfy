/**
 * The parcel coordinator: registers parcels with their collection trace,
 * changes a parcel's status, records sorting exceptions, and assembles a
 * parcel's detail view from its trace log.
 */
module PackageService {
  import opened Common
  import opened Ordering
  import opened PackageModel
  import opened PackageRepo

  const CollectionNode := "collection"
  const CollectionRemark := "包裹已揽收"
  const AbnormalNode := "abnormal"
  const SortingCenter := "分拣中心"
  const SortingAbnormalRemark := "分拣异常："
  const SortingAbnormalType := "sorting"
  const RecordPending := "pending"
  /** The current position shown for a parcel with no trace. */
  const NoTraceYet := "暂无轨迹信息"
  /** The next node shown when there is none. */
  const NoNextNode := "暂无后续节点"
  /** The fixed estimated arrival the detail view carries. */
  const EstimatedArrival := "2025-12-01 10:00"

  /** One entry of the trace history in the detail view. */
  datatype TraceEntry = TraceEntry(nodeType: string, nodeName: string, operationTime: Time, remark: string)

  /** The detail view of a parcel. */
  datatype PackageDetail = PackageDetail(
    packageID: string,
    senderName: string,
    senderPhone: string,
    senderAddress: string,
    receiverName: string,
    receiverPhone: string,
    receiverAddress: string,
    currentStatus: string,
    currentPosition: string,
    nextNode: string,
    estimatedArrival: string,
    traceHistory: seq<TraceEntry>)

  function EntryOf(t: PackageTrace): TraceEntry {
    TraceEntry(t.nodeType, t.nodeName, t.operationTime, t.remark)
  }

  /** The node the parcel was last seen at: the last trace's node, or the fallback when there is none. */
  function CurrentPosition(traces: seq<PackageTrace>): string {
    if traces == [] then NoTraceYet else traces[|traces| - 1].nodeName
  }

  /** The collection trace a new parcel gets; a failed geocoding lookup gives the coordinates (0, 0). */
  function CollectionTrace(packageID: string, operator: string, nodeName: string, nodeAddr: string,
                           geo: Option<(real, real)>, now: Instant): PackageTrace
  {
    var (lng, lat) := if geo.Some? then geo.value else (0.0, 0.0);
    PackageTrace("", packageID, CollectionNode, nodeName, nodeAddr, lng, lat, now, operator, CollectionRemark)
  }

  /** The record a sorting exception files: type sorting, awaiting processing. */
  function SortingRecord(packageID: string, reason: string, handler: string): AbnormalRecord {
    AbnormalRecord("", packageID, SortingAbnormalType, reason, "", handler, 0, RecordPending)
  }

  /** The trace a sorting exception leaves: an abnormal node at the sorting centre, the reason in the remark. */
  function SortingTrace(packageID: string, reason: string, handler: string, now: Instant): PackageTrace {
    PackageTrace("", packageID, AbnormalNode, SortingCenter, "", 0.0, 0.0, now, handler, SortingAbnormalRemark + reason)
  }

  /**
   * The position shown is the node of the parcel's latest trace: a trace of
   * that parcel whose operation time no other trace of it exceeds.
   */
  lemma CurrentIsLatest(traces: seq<PackageTrace>, packageID: string)
    requires TraceLog(traces, packageID) != []
    ensures exists t :: && t in traces && t.packageID == packageID
                        && t.nodeName == CurrentPosition(TraceLog(traces, packageID))
                        && forall u :: u in traces && u.packageID == packageID ==> u.operationTime <= t.operationTime
  {
    var log := TraceLog(traces, packageID);
    var last := log[|log| - 1];
    assert last in multiset(log);
    TracesOfMembers(traces, packageID, last);
    forall u | u in traces && u.packageID == packageID ensures u.operationTime <= last.operationTime {
      TracesOfMembers(traces, packageID, u);
      assert u in multiset(TracesOf(traces, packageID));
      assert u in log;
      SortedLastIsMax(log, OperationTime, u);
    }
  }

  /** A parcel with no trace shows the fallback position. */
  lemma NoTraceShowsFallback(traces: seq<PackageTrace>, packageID: string)
    requires forall t :: t in traces ==> t.packageID != packageID
    ensures CurrentPosition(TraceLog(traces, packageID)) == NoTraceYet
  {
    var log := TraceLog(traces, packageID);
    if log != [] {
      assert log[0] in multiset(log);
      TracesOfMembers(traces, packageID, log[0]);
    }
  }

  class PackageSvc {
    const pkgRepo: PackageRepository

    constructor (pkgRepo: PackageRepository)
      ensures this.pkgRepo == pkgRepo
    {
      this.pkgRepo := pkgRepo;
    }

    /** Set a parcel's status; the abnormal reason and handler are left as they were. */
    method ChangeStatus(packageID: string, status: string, now: Instant)
      modifies pkgRepo`packages
      ensures pkgRepo.packages == PatchOne(old(pkgRepo.packages), packageID, status, "", "", now)
      ensures pkgRepo.packages.Keys == old(pkgRepo.packages).Keys
      ensures packageID in pkgRepo.packages ==>
        && pkgRepo.packages[packageID].status == status
        && pkgRepo.packages[packageID].abnormalReason == old(pkgRepo.packages)[packageID].abnormalReason
        && pkgRepo.packages[packageID].abnormalHandler == old(pkgRepo.packages)[packageID].abnormalHandler
    {
      pkgRepo.UpdateStatus(packageID, status, "", "", now);
    }

    /**
     * Register a parcel: it gets the supplied tracking ID only when it has
     * none, starts collected, and gets one collection trace. A duplicate
     * parcel ID stores nothing; a duplicate trace ID leaves the parcel
     * stored without its trace.
     */
    method CreatePackage(pkg: Package, operator: string, nodeName: string, nodeAddr: string, freshPackageID: string,
                         geo: Option<(real, real)>, freshTraceID: string, now: Instant) returns (r: Result<Package>)
      modifies pkgRepo`packages, pkgRepo`traces
      ensures var id := if pkg.packageID == "" then freshPackageID else pkg.packageID;
        var stored := pkg.(packageID := id, status := Collected);
        var trace := CollectionTrace(id, operator, nodeName, nodeAddr, geo, now).(traceID := freshTraceID);
        if id in old(pkgRepo.packages) then
          r == Err(DuplicateKey) && unchanged(pkgRepo)
        else
          && pkgRepo.packages == old(pkgRepo.packages)[id := stored]
          && if HasTrace(old(pkgRepo.traces), freshTraceID) then
               r == Err(DuplicateKey) && pkgRepo.traces == old(pkgRepo.traces)
             else
               r == Ok(stored) && pkgRepo.traces == old(pkgRepo.traces) + [trace]
      ensures r.Ok? ==>
        && r.value.status == Collected
        && pkgRepo.packages[r.value.packageID] == r.value
        && |pkgRepo.traces| == |old(pkgRepo.traces)| + 1
        && TracesOf(pkgRepo.traces, r.value.packageID)
           == TracesOf(old(pkgRepo.traces), r.value.packageID) + [pkgRepo.traces[|pkgRepo.traces| - 1]]
        && pkgRepo.traces[|pkgRepo.traces| - 1].nodeType == CollectionNode
    {
      var stored := pkg;
      if stored.packageID == "" {
        stored := stored.(packageID := freshPackageID);
      }
      stored := stored.(status := Collected);
      var err := pkgRepo.Create(stored);
      if err.Failure? {
        return Err(err.error);
      }
      var lng, lat := 0.0, 0.0;
      if geo.Some? {
        lng, lat := geo.value.0, geo.value.1;
      }
      var trace := PackageTrace("", stored.packageID, CollectionNode, nodeName, nodeAddr, lng, lat, now, operator,
                                CollectionRemark);
      var traceErr, _ := pkgRepo.CreateTrace(trace, freshTraceID, now);
      if traceErr.Failure? {
        return Err(traceErr.error);
      }
      r := Ok(stored);
    }

    /**
     * Record a sorting exception against a parcel, whatever its status: the
     * parcel becomes abnormal with the reason and handler, then a pending
     * sorting record and an abnormal trace are appended. A missing parcel is
     * not an error: the record and the trace are still appended.
     */
    method HandleSortingAbnormal(packageID: string, reason: string, handler: string, freshRecordID: string,
                                 freshTraceID: string, now: Instant) returns (err: Outcome)
      modifies pkgRepo`packages, pkgRepo`records, pkgRepo`traces
      ensures pkgRepo.packages == PatchOne(old(pkgRepo.packages), packageID, Abnormal, reason, handler, now)
      ensures HasRecord(old(pkgRepo.records), freshRecordID) ==>
        err == Failure(DuplicateKey) && pkgRepo.records == old(pkgRepo.records) &&
        pkgRepo.traces == old(pkgRepo.traces)
      ensures !HasRecord(old(pkgRepo.records), freshRecordID) ==>
        && pkgRepo.records == old(pkgRepo.records) + [SortingRecord(packageID, reason, handler).(recordID := freshRecordID)]
        && if HasTrace(old(pkgRepo.traces), freshTraceID) then
             err == Failure(DuplicateKey) && pkgRepo.traces == old(pkgRepo.traces)
           else
             && err == Success
             && pkgRepo.traces ==
                  old(pkgRepo.traces) + [SortingTrace(packageID, reason, handler, now).(traceID := freshTraceID)]
    {
      pkgRepo.UpdateStatus(packageID, Abnormal, reason, handler, now);
      var record := AbnormalRecord("", packageID, SortingAbnormalType, reason, "", handler, 0, RecordPending);
      var recordErr, _ := pkgRepo.CreateAbnormalRecord(record, freshRecordID);
      if recordErr.Failure? {
        return recordErr;
      }
      var trace := PackageTrace("", packageID, AbnormalNode, SortingCenter, "", 0.0, 0.0, now, handler,
                                SortingAbnormalRemark + reason);
      var stored;
      err, stored := pkgRepo.CreateTrace(trace, freshTraceID, now);
    }

    /**
     * Walk the parcel's ordered traces once, building the history and
     * tracking the current trace and the one after it.
     */
    static method SummariseTraces(traces: seq<PackageTrace>)
      returns (history: seq<TraceEntry>, current: string, next: string)
      ensures |history| == |traces|
      ensures forall i :: 0 <= i < |traces| ==> history[i] == EntryOf(traces[i])
      ensures current == CurrentPosition(traces)
      ensures next == NoNextNode
    {
      history := [];
      var currentNode: Option<PackageTrace> := None;
      var nextNode: Option<PackageTrace> := None;
      var i := 0;
      while i < |traces|
        invariant 0 <= i <= |traces|
        invariant |history| == i
        invariant forall j :: 0 <= j < i ==> history[j] == EntryOf(traces[j])
        invariant currentNode == if i == 0 then None else Some(traces[i - 1])
        invariant nextNode == if 0 < i < |traces| then Some(traces[i]) else None
      {
        history := history + [EntryOf(traces[i])];
        currentNode := Some(traces[i]);
        if i < |traces| - 1 {
          nextNode := Some(traces[i + 1]);
        } else {
          nextNode := None;
        }
        i := i + 1;
      }
      current := match currentNode case Some(t) => t.nodeName case None => NoTraceYet;
      next := match nextNode case Some(t) => t.nodeName case None => NoNextNode;
    }

    /**
     * The parcel's detail view: its sender and receiver, its status, the
     * node of its latest trace, and its trace history in time order. A
     * missing parcel is an error.
     */
    method GetPackageDetail(packageID: string) returns (r: Result<PackageDetail>)
      ensures packageID !in pkgRepo.packages ==> r == Err(RecordNotFound)
      ensures packageID in pkgRepo.packages ==>
        var p := pkgRepo.packages[packageID];
        var log := TraceLog(pkgRepo.traces, packageID);
        && r.Ok?
        && r.value.packageID == p.packageID
        && r.value.senderName == p.senderName && r.value.senderPhone == p.senderPhone
        && r.value.senderAddress == p.senderAddress
        && r.value.receiverName == p.receiverName && r.value.receiverPhone == p.receiverPhone
        && r.value.receiverAddress == p.receiverAddress
        && r.value.currentStatus == p.status
        && r.value.currentPosition == CurrentPosition(log)
        && r.value.nextNode == NoNextNode
        && r.value.estimatedArrival == EstimatedArrival
        && |r.value.traceHistory| == |log|
        && (forall i :: 0 <= i < |log| ==> r.value.traceHistory[i] == EntryOf(log[i]))
    {
      var loaded := pkgRepo.GetByID(packageID);
      if loaded.Err? {
        return Err(loaded.error);
      }
      var p := loaded.value;
      var traces := pkgRepo.GetTracesByPackageID(packageID);
      var history, current, next := SummariseTraces(traces);
      r := Ok(PackageDetail(p.packageID, p.senderName, p.senderPhone, p.senderAddress, p.receiverName,
                            p.receiverPhone, p.receiverAddress, p.status, current, next, EstimatedArrival, history));
    }
  }
}
