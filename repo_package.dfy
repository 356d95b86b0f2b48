/** Data access for the parcel registry: parcels, their trace log and their abnormal records. */
module PackageRepo {
  import opened Common
  import opened Ordering
  import opened PackageModel

  /**
   * The parcel after UpdateStatus: the status is always written, the
   * abnormal reason and handler only when the argument is non-empty.
   */
  function Patched(p: Package, status: string, reason: string, handler: string, now: Instant): Package {
    p.(status := status,
       abnormalReason := if reason != "" then reason else p.abnormalReason,
       abnormalHandler := if handler != "" then handler else p.abnormalHandler,
       updatedAt := now)
  }

  /** UpdateStatus on the parcel table: an UPDATE that matches no row changes nothing and is no error. */
  function PatchOne(pkgs: map<string, Package>, id: string, status: string, reason: string, handler: string,
                    now: Instant): map<string, Package>
  {
    if id in pkgs then pkgs[id := Patched(pkgs[id], status, reason, handler, now)] else pkgs
  }

  /** UpdateStatus applied to each listed ID in turn, as the coordinators' propagation loops do. */
  function PatchAll(pkgs: map<string, Package>, ids: seq<string>, status: string, reason: string, handler: string,
                    now: Instant): map<string, Package>
  {
    if ids == [] then pkgs
    else PatchOne(PatchAll(pkgs, ids[..|ids| - 1], status, reason, handler, now), ids[|ids| - 1],
                  status, reason, handler, now)
  }

  /** The fields UpdateStatus leaves alone, the overwrite rule for the abnormal fields, and the new update time. */
  lemma PatchedFields(p: Package, status: string, reason: string, handler: string, now: Instant)
    ensures var q := Patched(p, status, reason, handler, now);
      && q.status == status
      && (reason != "" ==> q.abnormalReason == reason)
      && (reason == "" ==> q.abnormalReason == p.abnormalReason)
      && (handler != "" ==> q.abnormalHandler == handler)
      && (handler == "" ==> q.abnormalHandler == p.abnormalHandler)
      && q.updatedAt == now
      && q.(status := p.status, abnormalReason := p.abnormalReason, abnormalHandler := p.abnormalHandler,
            updatedAt := p.updatedAt) == p
  {
  }

  /**
   * Propagation touches exactly the listed parcels that exist, each as a
   * single UpdateStatus would (repeating an ID changes nothing more), and
   * leaves every other parcel as it was.
   */
  lemma {:induction false} PatchAllEffect(pkgs: map<string, Package>, ids: seq<string>, status: string,
                                          reason: string, handler: string, now: Instant)
    ensures var r := PatchAll(pkgs, ids, status, reason, handler, now);
      && r.Keys == pkgs.Keys
      && (forall id :: id in pkgs && id in ids ==> r[id] == Patched(pkgs[id], status, reason, handler, now))
      && (forall id :: id in pkgs && id !in ids ==> r[id] == pkgs[id])
  {
    if ids != [] {
      var init := ids[..|ids| - 1];
      PatchAllEffect(pkgs, init, status, reason, handler, now);
      assert ids == init + [ids[|ids| - 1]];
    }
  }

  /**
   * The position of the first listed ID whose parcel is missing or is not
   * in status `required`, scanning in list order; |ids| when every listed
   * parcel exists and has that status. This is the gate both coordinators
   * apply before binding.
   */
  function FirstWithoutStatus(pkgs: map<string, Package>, ids: seq<string>, required: string): (k: nat)
    ensures k <= |ids|
    ensures forall j :: 0 <= j < k ==> ids[j] in pkgs && pkgs[ids[j]].status == required
    ensures k < |ids| ==> ids[k] !in pkgs || pkgs[ids[k]].status != required
  {
    if ids == [] then 0
    else if ids[0] !in pkgs || pkgs[ids[0]].status != required then 0
    else 1 + FirstWithoutStatus(pkgs, ids[1..], required)
  }

  /** Every listed parcel passes the gate exactly when the scan runs off the end of the list. */
  lemma AllHaveStatus(pkgs: map<string, Package>, ids: seq<string>, required: string)
    ensures FirstWithoutStatus(pkgs, ids, required) == |ids| <==>
            forall id :: id in ids ==> id in pkgs && pkgs[id].status == required
  {
    var k := FirstWithoutStatus(pkgs, ids, required);
    if k == |ids| {
      forall id | id in ids ensures id in pkgs && pkgs[id].status == required {
        var j :| 0 <= j < |ids| && ids[j] == id;
      }
    } else {
      assert ids[k] in ids;
    }
  }

  /** The rows of the trace log that belong to parcel `packageID`, in storage order. */
  function TracesOf(traces: seq<PackageTrace>, packageID: string): seq<PackageTrace> {
    if traces == [] then []
    else
      var last := traces[|traces| - 1];
      TracesOf(traces[..|traces| - 1], packageID) + (if last.packageID == packageID then [last] else [])
  }

  /** A trace is among a parcel's traces exactly when it is in the log and carries that parcel's ID. */
  lemma {:induction false} TracesOfMembers(traces: seq<PackageTrace>, packageID: string, t: PackageTrace)
    ensures t in TracesOf(traces, packageID) <==> t in traces && t.packageID == packageID
  {
    if traces != [] {
      var init := traces[..|traces| - 1];
      TracesOfMembers(init, packageID, t);
      assert traces == init + [traces[|traces| - 1]];
    }
  }

  /** The sort key of the trace query. */
  function OperationTime(t: PackageTrace): nat {
    t.operationTime
  }

  /** What the trace query returns: the parcel's traces ordered by operation time. */
  function TraceLog(traces: seq<PackageTrace>, packageID: string): seq<PackageTrace> {
    SortBy(TracesOf(traces, packageID), OperationTime)
  }

  predicate HasTrace(traces: seq<PackageTrace>, traceID: string) {
    exists t :: t in traces && t.traceID == traceID
  }

  predicate HasRecord(records: seq<AbnormalRecord>, recordID: string) {
    exists r :: r in records && r.recordID == recordID
  }

  /**
   * The propagation loop both coordinators run: UpdateStatus for each
   * listed parcel in turn, a missing parcel being skipped silently.
   */
  method UpdateStatusForEach(repo: PackageRepository, ids: seq<string>, status: string, reason: string,
                             handler: string, now: Instant)
    modifies repo`packages
    ensures repo.packages == PatchAll(old(repo.packages), ids, status, reason, handler, now)
  {
    var i := 0;
    while i < |ids|
      invariant 0 <= i <= |ids|
      invariant repo.packages == PatchAll(old(repo.packages), ids[..i], status, reason, handler, now)
    {
      assert ids[..i + 1][..i] == ids[..i];
      repo.UpdateStatus(ids[i], status, reason, handler, now);
      i := i + 1;
    }
    assert ids[..i] == ids;
  }

  /** The parcel table, the trace log and the abnormal-record table. */
  class PackageRepository {
    var packages: map<string, Package>
    var traces: seq<PackageTrace>
    var records: seq<AbnormalRecord>

    constructor ()
      ensures packages == map[] && traces == [] && records == []
    {
      packages := map[];
      traces := [];
      records := [];
    }

    /** Insert a parcel; its ID is the primary key. */
    method Create(pkg: Package) returns (err: Outcome)
      modifies this`packages
      ensures err.Failure? <==> pkg.packageID in old(packages)
      ensures err.Failure? ==> err.error == DuplicateKey && packages == old(packages)
      ensures err.Success? ==> packages == old(packages)[pkg.packageID := pkg]
    {
      if pkg.packageID in packages {
        return Failure(DuplicateKey);
      }
      packages := packages[pkg.packageID := pkg];
      err := Success;
    }

    /** Look a parcel up by its tracking ID. */
    method GetByID(packageID: string) returns (r: Result<Package>)
      ensures r.Ok? <==> packageID in packages
      ensures r.Ok? ==> r.value == packages[packageID]
      ensures r.Err? ==> r.error == RecordNotFound
    {
      if packageID !in packages {
        return Err(RecordNotFound);
      }
      r := Ok(packages[packageID]);
    }

    /** Overwrite the status of one parcel, and its abnormal reason and handler when given. */
    method UpdateStatus(packageID: string, status: string, reason: string, handler: string, now: Instant)
      modifies this`packages
      ensures packages == PatchOne(old(packages), packageID, status, reason, handler, now)
    {
      if packageID in packages {
        var p := packages[packageID];
        var patched := p.(status := status, updatedAt := now);
        if reason != "" {
          patched := patched.(abnormalReason := reason);
        }
        if handler != "" {
          patched := patched.(abnormalHandler := handler);
        }
        packages := packages[packageID := patched];
      }
    }

    /**
     * Append a trace, giving it a fresh ID when it has none and stamping it
     * now when its operation time is zero; the ID is the primary key.
     */
    method CreateTrace(trace: PackageTrace, freshID: string, now: Instant) returns (err: Outcome, stored: PackageTrace)
      modifies this`traces
      ensures stored.traceID == if trace.traceID == "" then freshID else trace.traceID
      ensures stored.operationTime == if trace.operationTime == 0 then now else trace.operationTime
      ensures stored.operationTime != 0
      ensures stored == trace.(traceID := stored.traceID, operationTime := stored.operationTime)
      ensures err.Failure? <==> HasTrace(old(traces), stored.traceID)
      ensures err.Failure? ==> err.error == DuplicateKey && traces == old(traces)
      ensures err.Success? ==> traces == old(traces) + [stored]
    {
      stored := trace;
      if stored.traceID == "" {
        stored := stored.(traceID := freshID);
      }
      if stored.operationTime == 0 {
        stored := stored.(operationTime := now);
      }
      if HasTrace(traces, stored.traceID) {
        return Failure(DuplicateKey), stored;
      }
      traces := traces + [stored];
      err := Success;
    }

    /** The parcel's traces, and only those, in non-decreasing operation time. */
    method GetTracesByPackageID(packageID: string) returns (r: seq<PackageTrace>)
      ensures r == TraceLog(traces, packageID)
      ensures forall t :: t in r <==> t in traces && t.packageID == packageID
      ensures multiset(r) == multiset(TracesOf(traces, packageID))
      ensures SortedBy(r, OperationTime)
    {
      var found: seq<PackageTrace> := [];
      var i := 0;
      while i < |traces|
        invariant 0 <= i <= |traces|
        invariant found == TracesOf(traces[..i], packageID)
      {
        assert traces[..i + 1][..i] == traces[..i];
        if traces[i].packageID == packageID {
          found := found + [traces[i]];
        }
        i := i + 1;
      }
      assert traces[..i] == traces;
      r := SortBy(found, OperationTime);
      forall t ensures t in r <==> t in traces && t.packageID == packageID {
        TracesOfMembers(traces, packageID, t);
        assert t in r <==> t in multiset(r);
        assert t in found <==> t in multiset(found);
      }
    }

    /** Append an abnormal record, giving it a fresh ID when it has none; the ID is the primary key. */
    method CreateAbnormalRecord(record: AbnormalRecord, freshID: string) returns (err: Outcome, stored: AbnormalRecord)
      modifies this`records
      ensures stored == record.(recordID := if record.recordID == "" then freshID else record.recordID)
      ensures err.Failure? <==> HasRecord(old(records), stored.recordID)
      ensures err.Failure? ==> err.error == DuplicateKey && records == old(records)
      ensures err.Success? ==> records == old(records) + [stored]
    {
      stored := record;
      if stored.recordID == "" {
        stored := stored.(recordID := freshID);
      }
      if HasRecord(records, stored.recordID) {
        return Failure(DuplicateKey), stored;
      }
      records := records + [stored];
      err := Success;
    }
  }
}
