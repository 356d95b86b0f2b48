# Courier task and parcel core, modelled in Dafny

This project models the status logic of a courier back end. It has three layers:

- **Task state machines.** A transport task moves pending → transporting → arrived → completed. A delivery task moves pending → delivering → completed. Either kind may detour through `abnormal`. Each checks a requested status against a fixed table. Binding parcels is gated by the task's status.
- **Coordinators.** `TransportSvc`, `DeliverySvc` and the parcel service load a task and run its state machine. They then:
  - push the derived status onto every bound parcel;
  - gate binding on each parcel's status (`sorted` for transport, `arrived` for delivery);
  - block delivery completion on any binding that is not signed off;
  - mask the signer's phone when signing;
  - record sorting exceptions;
  - build a parcel's detail view from its trace log.
- **Repositories.** In-memory tables:
  - transport and delivery tasks, each a map keyed by task ID;
  - the two join tables, each a sequence of rows;
  - parcels;
  - the trace log;
  - abnormal records.

  Transport binding de-duplicates against existing rows and recounts. Delivery binding deletes the task's rows and re-inserts them numbered 1, 2, …. A parcel status update always overwrites the status, but overwrites the abnormal reason and handler only when they are non-empty.

How each layer is modelled:

- **Tasks.** A task loaded from a repository is a class object (`TransportTask`, `DeliveryTask`, `DeliveryTaskPackage`) whose methods update its fields in place. Persisting it writes its `Data()` row back.
- **Repositories.** Each repository is a class owning its tables.
- **Coordinators.** Each coordinator is a class holding its repositories. A ghost predicate `Consistent` says:
  - every join row names a stored task;
  - every task's `package_count` equals its number of join rows;
  - for delivery, a completed task has every binding signed off.

  The delivery coordinator keeps it as its class invariant. The transport coordinator's class invariant is only the well-formed part (`WellFormed`: stored tasks have non-empty IDs and every join row names one), because the transport bind as written (see "## Findings") can leave a count that overstates the rows, and the coordinator keeps running from there. Each transport operation promises that it keeps `Consistent` when it held before, except the bind as written, whose contract says exactly when it does. That bind is modelled twice: as written, and corrected.
- **Inputs from outside.**
  - The clock is a parameter `now` (positive; 0 is the zero time).
  - Generated IDs are parameters (the ID stamp, fresh parcel, trace and record IDs).
  - Geocoding is an `Option` parameter.

Modules, one per core file plus three shared ones:

| module | file |
|---|---|
| `Common` | error kinds, `Outcome`, `Result`, `Option`, clock types |
| `StateMachine` | one transition check shared by both task kinds |
| `Ordering` | the stable sort behind `ORDER BY … ASC` |
| `TransportModel` | `internal/model/transport.go` |
| `DeliveryModel` | `internal/model/deliver.go` |
| `PackageModel` | the record types of `internal/model/package.go` |
| `TransportRepo` | `internal/repository/transport.go` |
| `DeliveryRepo` | `internal/repository/deliver.go` |
| `PackageRepo` | `internal/repository/package.go` |
| `TransportService` | `internal/service/transport.go` |
| `DeliveryService` | `internal/service/deliver.go` |
| `PackageService` | `internal/service/package.go` |

Behaviours of the code worth knowing:

- **Repeated IDs in one transport bind.** A parcel ID listed twice in one transport bind yields two join rows. The code de-duplicates only against rows that existed before the call (`TransportRepo.RowsPerListing`).
- **The masked phone.** An 11-character number is stored as seven `*` followed by its last four characters. Two numbers are stored alike exactly when they end alike (`DeliveryService.MaskPhoneKeepsOnlyLastFour`).
- **The recount after a transport bind.** The recount is skipped when nothing new is inserted. See "## Findings".

## Model

| member | source | states |
|---|---|---|
| StateMachine.ValidateTransition | internal/model/transport.go:66-76 | the scan over the allowed list finds the requested status exactly when the table lists it for the current status; a status missing from the table has an empty list |
| StateMachine.UnknownStatusIsStuck | internal/model/transport.go:66-67 | a current status that is not a key of the table allows no move at all |
| TransportModel.TransportFlowIsTable | internal/model/transport.go:58-64 | a transport move is legal if and only if it is one of the edges pending→{transporting, abnormal}, transporting→{arrived, abnormal}, arrived→{completed, abnormal}, abnormal→{transporting, completed} |
| TransportModel.CompletedIsTerminal | internal/model/transport.go:63 | no move out of `completed` is legal |
| TransportModel.NoSelfTransition | internal/model/transport.go:58-77 | no status may move to itself |
| TransportModel.LeavingAbnormal | internal/model/transport.go:62 | from `abnormal` exactly `transporting` and `completed` are legal |
| TransportModel.UnknownTransportStatusIsStuck | internal/model/transport.go:66-77 | a status outside the table (a parcel status, say) cannot move |
| TransportModel.TransportTask.ChangeStatus | internal/model/transport.go:57-85 | succeeds if and only if the table allows the move; a rejected move returns the invalid-status error and leaves every field as it was; a legal move sets the status and stamps the arrival time only on `arrived` |
| TransportModel.TransportTask.BindPackage | internal/model/transport.go:88-97 | succeeds if and only if the status is pending or transporting; then the count grows by exactly the list length; otherwise not-bindable and nothing changes |
| TransportModel.TransportTask.ReportAbnormal | internal/model/transport.go:100-109 | from any status: the status becomes abnormal and the abnormal record is replaced wholesale with an empty handle result |
| TransportModel.TransportTask.HandleAbnormal | internal/model/transport.go:112-124 | a task that is not abnormal gets not-abnormal and is unchanged; otherwise the handle result is recorded first, then only transporting or completed are accepted, and a rejected move still keeps the recorded result |
| DeliveryModel.DeliveryFlowIsTable | internal/model/deliver.go:63-68 | a delivery move is legal if and only if it is one of pending→{delivering, abnormal}, delivering→{completed, abnormal}, abnormal→{delivering, completed} |
| DeliveryModel.CompletedIsTerminal | internal/model/deliver.go:67 | no move out of `completed` is legal |
| DeliveryModel.NoSelfTransition | internal/model/deliver.go:63-81 | no status may move to itself |
| DeliveryModel.LeavingAbnormal | internal/model/deliver.go:66 | from `abnormal` exactly `delivering` and `completed` are legal |
| DeliveryModel.DeliveryTask.ChangeStatus | internal/model/deliver.go:61-90 | succeeds if and only if the table allows the move; a rejected move leaves the task unchanged; `delivering` stamps the start time, `completed` the completion time, other moves only the status |
| DeliveryModel.DeliveryTask.BindPackage | internal/model/deliver.go:93-102 | succeeds if and only if the status is pending; the count is replaced by the list length, not added to |
| DeliveryModel.DeliveryTask.ReportAbnormal | internal/model/deliver.go:105-114 | from any status: abnormal, with the abnormal record replaced wholesale |
| DeliveryModel.DeliveryTask.HandleAbnormal | internal/model/deliver.go:117-129 | not abnormal gives not-abnormal and no change; otherwise the handle result is recorded and only delivering or completed are accepted |
| DeliveryModel.DeliveryTaskPackage.SignPackage | internal/model/deliver.go:132-140 | the binding's sign-off is replaced by the given fields with a non-zero sign time; no other field of the binding changes |
| Ordering.SortBy | internal/repository/package.go:82-84 | the ordered query's result is sorted by the key and is a permutation of its input |
| Ordering.SortBySortedIsIdentity | internal/repository/deliver.go:99-102 | ordering rows that are already in key order returns them unchanged |
| PackageRepo.PatchedFields | internal/repository/package.go:51-66 | a status update always writes the status; it writes the abnormal reason or handler when non-empty and keeps the old one when empty; the update time becomes `now`; no other parcel field changes |
| PackageRepo.PatchAllEffect | internal/service/transport.go:73-84 | the propagation loop changes exactly the listed parcels that exist, each as one update would, and leaves every other parcel and the key set alone |
| PackageRepo.FirstWithoutStatus | internal/service/transport.go:98-106 | the gate scan stops at the first listed ID that is missing or has the wrong status; every ID before it exists and has the required status |
| PackageRepo.AllHaveStatus | internal/service/transport.go:98-106 | the scan passes the whole list if and only if every listed parcel exists with the required status |
| PackageRepo.TracesOfMembers | internal/repository/package.go:82 | a trace is selected for a parcel if and only if it is in the log and carries that parcel's ID |
| PackageRepo.UpdateStatusForEach | internal/service/transport.go:73-75 | the propagation loop leaves the parcel table as the listed updates applied in order |
| PackageRepo.PackageRepository.Create | internal/repository/package.go:37-39 | inserts the parcel unless its ID is already a key, in which case it fails and stores nothing |
| PackageRepo.PackageRepository.GetByID | internal/repository/package.go:42-48 | returns the stored parcel if and only if the ID is a key, else not-found |
| PackageRepo.PackageRepository.UpdateStatus | internal/repository/package.go:51-66 | patches only the addressed parcel; an ID with no parcel changes nothing and is not an error |
| PackageRepo.PackageRepository.CreateTrace | internal/repository/package.go:69-77 | a fresh trace ID only when the ID is empty, the current time only when the operation time is zero, every other field as given; a taken ID appends nothing |
| PackageRepo.PackageRepository.GetTracesByPackageID | internal/repository/package.go:80-88 | returns exactly the parcel's traces, as a permutation of them, in non-decreasing operation time |
| PackageRepo.PackageRepository.CreateAbnormalRecord | internal/repository/package.go:91-96 | a fresh record ID only when the ID is empty; the record is appended unless the ID is taken |
| TransportRepo.BoundIDsAppend | internal/repository/transport.go:171-173 | filtering join rows by task distributes over appending rows |
| TransportRepo.BoundIDsMembers | internal/repository/transport.go:169-175 | an ID is bound to a task if and only if some join row pairs them |
| TransportRepo.UnboundMembers | internal/repository/transport.go:126-132 | an ID is inserted if and only if it is listed, non-empty and not already bound |
| TransportRepo.NewLinksIDs | internal/repository/transport.go:125-138 | the inserted rows all name the bound task and carry exactly the inserted IDs; other tasks see none of them |
| TransportRepo.UnboundCount | internal/repository/transport.go:125-138 | an ID is kept as many times as it is listed when it is non-empty and unbound before the call, and never otherwise |
| TransportRepo.RowsPerListing | internal/repository/transport.go:119-138 | one call inserts one row per listing: an ID listed k times and unbound before the call gets k rows, because only rows that existed before the call are checked |
| TransportRepo.TransportRepository.CreateTask | internal/repository/transport.go:40-42 | inserts the task unless its ID is taken |
| TransportRepo.TransportRepository.GetTaskByID | internal/repository/transport.go:45-54 | a fresh task object equal to the stored row if and only if it exists; a missing task is transport-task-not-found |
| TransportRepo.TransportRepository.UpdateTask | internal/repository/transport.go:70-72 | stamps the task's update time with `now` (the column is `autoUpdateTime`), then writes its row over the stored row; a task with no row changes nothing in the store |
| TransportRepo.TransportRepository.UpdatePackageCount | internal/repository/transport.go:90-97 | an empty task ID fails; otherwise only the task's package_count and update time are rewritten |
| TransportRepo.TransportRepository.GetPackageIDsByTaskID | internal/repository/transport.go:169-175 | returns the task's bound IDs in join-row order; an ID is returned if and only if a row pairs it with the task |
| TransportRepo.TransportRepository.CountPackagesByTaskID | internal/repository/transport.go:178-184 | the count is the number of the task's join rows |
| TransportRepo.TransportRepository.InsertUnbound | internal/repository/transport.go:109-154 | appends one row per listed ID that is non-empty and not bound before the call, in list order, and reports how many |
| TransportRepo.TransportRepository.BindPackagesAsWritten | internal/repository/transport.go:100-166 | the bind as written: empty task ID or empty list fail with no change; the new rows are appended; the count is recomputed only when some row was inserted |
| TransportRepo.TransportRepository.BindPackages | internal/repository/transport.go:100-166 | the corrected bind: the same rows, and afterwards package_count equals the task's number of join rows |
| DeliveryRepo.RowsNotOfSelect | internal/repository/deliver.go:90 | deleting a task's rows leaves none of its own and every other task's rows as they were |
| DeliveryRepo.OrderedRowsEach | internal/repository/deliver.go:81-88 | the i-th listed ID gets a row of the task with delivery order i+1 and no sign-off |
| DeliveryRepo.OrderedRowsOwned | internal/repository/deliver.go:81-88 | the inserted rows all belong to the bound task and to no other |
| DeliveryRepo.OrderedRowsIDs | internal/repository/deliver.go:81-88 | the inserted rows carry exactly the listed IDs, in list order |
| DeliveryRepo.OrderedRowsShape | internal/repository/deliver.go:81-88 | the three facts above together |
| DeliveryRepo.OrderedRowsSorted | internal/repository/deliver.go:85 | rows numbered 1, 2, … are already in delivery order |
| DeliveryRepo.BindReplaces | internal/repository/deliver.go:78-94 | after a bind, the task's rows are exactly the new ones whatever was bound before (a second bind leaves only the second list), its ordered IDs are the list, and every other task's rows are unchanged |
| DeliveryRepo.IDsOfLength | internal/repository/deliver.go:99-102 | the query returns one ID per row |
| DeliveryRepo.IDsOfMembers | internal/repository/deliver.go:102 | an ID is returned if and only if one of the rows carries it |
| DeliveryRepo.RowsOfMembers | internal/repository/deliver.go:100 | a row is selected for a task if and only if it is stored and names the task |
| DeliveryRepo.BoundIDsMembers | internal/repository/deliver.go:97-104 | an ID is bound to a task if and only if some row pairs them |
| DeliveryRepo.FirstMatchAppend | internal/repository/deliver.go:118 | the first-row lookup scans earlier rows before appended ones |
| DeliveryRepo.BindingSnoc | internal/repository/deliver.go:132 | an appended row is found only when no earlier row pairs the task and parcel |
| DeliveryRepo.BindingOfRows | internal/repository/deliver.go:132 | the lookup finds the same binding scanning the whole table or only the task's own rows |
| DeliveryRepo.RowsNotOfMembers | internal/repository/deliver.go:90 | a row survives the deletion if and only if it names another task |
| DeliveryRepo.RowsOfRewrite | internal/repository/deliver.go:125-126 | saving a row back with the same task leaves every task's row count unchanged |
| DeliveryRepo.BindKeepsRows | internal/repository/deliver.go:78-94 | after a bind, every row is the task's own or was stored before |
| DeliveryRepo.BindKeepsBinding | internal/repository/deliver.go:78-94 | binding one task leaves every other task's bindings, sign-offs included, as they were |
| DeliveryRepo.DeliveryRepository.CreateTask | internal/repository/deliver.go:43-45 | inserts the task unless its ID is taken |
| DeliveryRepo.DeliveryRepository.GetTaskByID | internal/repository/deliver.go:48-57 | a fresh task object equal to the stored row if and only if it exists; else delivery-task-not-found |
| DeliveryRepo.DeliveryRepository.UpdateTask | internal/repository/deliver.go:73-75 | stamps the task's update time with `now` (the column is `autoUpdateTime`), then saves its row under its ID |
| DeliveryRepo.DeliveryRepository.BindPackages | internal/repository/deliver.go:78-94 | the join table becomes the other tasks' rows followed by the new rows numbered 1, 2, … |
| DeliveryRepo.DeliveryRepository.GetPackageIDsByTaskID | internal/repository/deliver.go:97-104 | the task's IDs by ascending delivery order, one per row; an ID is returned if and only if a row pairs it with the task |
| DeliveryRepo.DeliveryRepository.CountPackagesByTaskID | internal/repository/deliver.go:107-113 | the number of the task's join rows |
| DeliveryRepo.DeliveryRepository.FindRow | internal/repository/deliver.go:118 | the position of the first row pairing the task and the parcel, or the table's length |
| DeliveryRepo.DeliveryRepository.GetDeliveryTaskPackage | internal/repository/deliver.go:130-139 | returns the first pairing row if and only if one exists, else not-bound |
| DeliveryRepo.DeliveryRepository.SignPackage | internal/repository/deliver.go:116-127 | fails with not-bound, changing nothing, if and only if no row pairs them; otherwise only that row's sign-off changes |
| Common.StampedID | internal/service/transport.go:184-187 | a generated ID is its kind's prefix ("TRAN" here, "DELI" at internal/service/deliver.go:203-205) followed by the stamp, and nothing else |
| Common.StampedIDsDistinct | internal/service/deliver.go:203-205 | two generated IDs with equal-length prefixes coincide if and only if both prefix and stamp do, so transport and delivery IDs never collide |
| TransportService.SortedGate | internal/service/transport.go:98-106 | the bind gate: success, or not-found / not-sorted for the first listed parcel that fails |
| TransportService.BindKeepsConsistent | internal/repository/transport.go:157-163 | a bind followed by the recount keeps every task's count equal to its rows, and every row naming a stored task |
| TransportService.BindKeepsWellFormed | internal/repository/transport.go:124-137 | a bind of a stored task keeps every join row naming a stored task, whatever count is stored with it |
| TransportService.StaleCountIffNothingInserted | internal/repository/transport.go:140-143 | the bind as written keeps the invariant if and only if the list is empty or some row is inserted; otherwise the count is the old one raised by the list length over unchanged rows |
| TransportService.RebindSameParcelAsWritten | internal/repository/transport.go:140-143 | with the bind as written, binding one parcel n times (n >= 1) ends with package_count n over one join row |
| TransportService.RebindSameParcel | internal/repository/transport.go:156-163 | with the corrected bind, the same n rounds end with package_count 1 over one join row |
| TransportService.TransportSvc.CreateTransportTask | internal/service/transport.go:27-53 | an empty start node, end node or vehicle gives param-invalid and stores nothing; otherwise a pending task with zero count is stored under a fresh ID; well-formedness is kept, and consistency when it held |
| TransportService.TransportSvc.ChangeTaskStatus | internal/service/transport.go:56-88 | a missing task or a rejected move writes nothing; a legal move stores the transitioned task, its update time stamped with `now`, and gives every bound parcel `transporting` or `arrived` for those two moves, touching no parcel otherwise; well-formedness is kept, and consistency when it held |
| TransportService.TransportSvc.BindPackagesToTask | internal/service/transport.go:91-121 | with the corrected repository bind: a missing task, a failing parcel gate or an unbindable task each fail before any write; otherwise the new rows are appended and the stored count equals the task's rows; an empty list stores the task with its count unchanged and reports the empty-list error; well-formedness is kept, and consistency when it held |
| TransportService.TransportSvc.StoreBound | internal/service/transport.go:108-118 | a bindable task is stored with its count raised by the list length; an unbindable one is not stored |
| TransportService.TransportSvc.BindLoaded | internal/service/transport.go:107-120 | with the corrected repository bind, after the gate: not-bindable changes nothing; otherwise rows appended and the count recomputed (an empty list leaves the count and rows as they were); well-formedness is kept, and consistency when it held |
| TransportService.TransportSvc.BindPackagesToTaskAsWritten | internal/service/transport.go:91-121 | the coordinator as written: the same gate errors with no write; otherwise the new rows are appended, and the stored count is the recount when a row was inserted but the old count plus the list length when none was; it needs and keeps only well-formedness, so it also runs from a stale count; from a consistent state, consistency then holds if and only if the list was empty or a row was inserted |
| TransportService.TransportSvc.BindLoadedAsWritten | internal/service/transport.go:107-120 | after the gate, as written: not-bindable changes nothing; otherwise the raised count is stored, and is replaced by the recount only when a row is inserted |
| TransportService.TransportSvc.CheckSorted | internal/service/transport.go:98-106 | the gate loop returns exactly the gate's verdict, checking parcels in list order |
| TransportService.TransportSvc.ReportTransportAbnormal | internal/service/transport.go:124-142 | the task becomes abnormal whatever its status, and every bound parcel becomes `transport_abnormal` with the reason and handler; well-formedness is kept, and consistency when it held |
| TransportService.TransportSvc.GetDriverTaskPackages | internal/service/transport.go:145-169 | not-found, not-the-driver's, or a missing bound parcel are errors; otherwise the bound parcels in binding order |
| DeliveryService.MaskPhone | internal/service/deliver.go:208-213 | length is preserved; input that is not 11 characters is returned unchanged; otherwise seven `*` then the last four characters |
| DeliveryService.MaskPhoneIdempotent | internal/service/deliver.go:208-213 | masking a masked number changes nothing |
| DeliveryService.MaskPhoneKeepsOnlyLastFour | internal/service/deliver.go:208-213 | two 11-character numbers are stored alike if and only if their last four characters agree: nothing else survives masking |
| DeliveryService.FirstUnsigned | internal/service/deliver.go:81-90 | the completion scan stops at the first bound parcel without a signed-off binding; all before it are signed |
| DeliveryService.ArrivedGate | internal/service/deliver.go:104-112 | the bind gate: success, or not-found / not-arrived for the first listed parcel that fails |
| DeliveryService.CompleteKeepsConsistent | internal/service/deliver.go:75-93 | completing a task whose bound parcels are all signed keeps the invariant, and every row of the task is signed |
| DeliveryService.MoveKeepsConsistent | internal/service/deliver.go:62-93 | any other legal move keeps the invariant |
| DeliveryService.SignKeepsCounts | internal/repository/deliver.go:125-126 | signing keeps every task's row count |
| DeliveryService.SignKeepsSignoffs | internal/repository/deliver.go:125-126 | signing keeps every signed-off binding signed off |
| DeliveryService.SignKeepsConsistent | internal/service/deliver.go:147-164 | signing a bound parcel keeps the invariant |
| DeliveryService.BindKeepsCounts | internal/repository/deliver.go:78-94 | after a re-bind the task has as many rows as listed IDs and every other task keeps its count |
| DeliveryService.BindKeepsSignoffs | internal/repository/deliver.go:78-94 | re-binding one task leaves every signed-off binding of another task signed off |
| DeliveryService.BindKeepsConsistent | internal/service/deliver.go:97-123 | re-binding a pending task with count := list length keeps the invariant |
| DeliveryService.DeliverySvc.CreateDeliveryTask | internal/service/deliver.go:28-52 | an empty area, courier or start node gives param-invalid and stores nothing; otherwise a pending task with zero count is stored under a fresh ID |
| DeliveryService.DeliverySvc.ChangeTaskStatus | internal/service/deliver.go:55-94 | a missing task or a rejected move writes nothing. `delivering` sets every bound parcel to delivering. `completed` visits bound parcels in delivery order: the first unbound or unsigned one stops the call with an error after the earlier ones became delivered, and the task is not stored. When all are signed, all become delivered and the task is stored completed. A stored task's update time is stamped with `now` |
| DeliveryService.DeliverySvc.DeliverSigned | internal/service/deliver.go:81-90 | the completion loop: the parcels before the first unsigned binding become delivered, and that binding decides the error |
| DeliveryService.DeliverySvc.BindPackagesToTask | internal/service/deliver.go:97-123 | a missing task, a failing parcel gate or a non-pending task each fail before any write; otherwise count := list length and the bindings are replaced by the list in order |
| DeliveryService.DeliverySvc.BindLoaded | internal/service/deliver.go:113-122 | after the gate: a non-pending task changes nothing; otherwise the task and its bindings are replaced and the ordered query returns the list |
| DeliveryService.DeliverySvc.StoreBound | internal/service/deliver.go:113-120 | a pending task is stored with count := list length; another is not stored |
| DeliveryService.DeliverySvc.CheckArrived | internal/service/deliver.go:104-112 | the gate loop returns exactly the gate's verdict |
| DeliveryService.DeliverySvc.ReportDeliveryAbnormal | internal/service/deliver.go:126-144 | the task becomes abnormal whatever its status, and every bound parcel becomes `delivery_abnormal` with the reason and handler |
| DeliveryService.DeliverySvc.SignPackage | internal/service/deliver.go:147-164 | a missing task, another courier's task or an unbound parcel fail with nothing written; otherwise that binding gets the masked phone and a sign time, and the parcel becomes delivered, whatever the task's status |
| DeliveryService.DeliverySvc.GetCourierTaskPackages | internal/service/deliver.go:167-191 | not-found, not-the-courier's, or a missing bound parcel are errors; otherwise the bound parcels in delivery order |
| DeliveryService.DeliverySvc.LoadPackages | internal/service/deliver.go:182-190 | the parcels of the listed IDs in order, or not-found if any is missing |
| PackageService.CurrentIsLatest | internal/service/package.go:143-169 | the shown position is the node of a trace of that parcel with the greatest operation time |
| PackageService.NoTraceShowsFallback | internal/service/package.go:164-169 | a parcel with no trace shows the fallback position |
| PackageService.PackageSvc.ChangeStatus | internal/service/package.go:38-42 | sets the status only; the abnormal reason and handler stay as they were |
| PackageService.PackageSvc.CreatePackage | internal/service/package.go:45-82 | the fresh ID is used only when the parcel has none; the status is always collected; a duplicate ID stores nothing; otherwise exactly one collection trace is appended, with (0, 0) when geocoding fails, unless its trace ID is taken, which keeps the parcel and reports duplicate |
| PackageService.PackageSvc.HandleSortingAbnormal | internal/service/package.go:204-234 | whatever the prior status, the parcel becomes abnormal with reason and handler; then a pending `sorting` record and an `abnormal` trace are appended |
| PackageService.PackageSvc.SummariseTraces | internal/service/package.go:138-176 | the history mirrors the traces; the current node is the last trace's or the fallback; the next node is always the fallback |
| PackageService.PackageSvc.GetPackageDetail | internal/service/package.go:85-200 | a missing parcel is an error; otherwise the parcel's fields, the latest trace's node, the fallback next node, the fixed estimate, and the time-ordered history |

## Left out

- HTTP handlers, routing, configuration, database connection and seed data: I/O plumbing, not status logic.
- Geocoding is a network call; its result is an `Option` parameter, and failure gives (0, 0).
- ID generation (the time-and-random task IDs, the parcel, trace and record IDs) and `time.Now()` are parameters.
- Store failures other than "not found" and "duplicate key" (connection loss, failed batch inserts, count queries that error) are not modelled. Every such path in the source simply returns the error.
- `GetTasksByDriverID`, `GetTasksByCourierID` and `GetBoundPackageCount` are unordered or duplicate queries. No coordinator in the core calls them.
- `TransportTask.HandleAbnormal` and `DeliveryTask.HandleAbnormal` are modelled on the task classes. No coordinator in the core calls them.
- Error message texts, and the wrapping of errors with extra text, are not modelled. Errors are constructors of `Common.Error`, keeping the parcel ID and status where the source formats them.
- Time formatting of the trace history is not modelled. Operation times are kept as numbers.
- Distance, weight, dimensions and coordinates are opaque `real` values with no arithmetic.
- The soft delete of the store library and its automatic creation timestamps are not modelled. The automatic update time is modelled: every task write (`UpdateTask`, `UpdatePackageCount`) stamps it, as do the places where the source sets `UpdatedAt` itself; the time is a parameter `now`.
- The order of rows that share a sort key is modelled as storage order (a stable sort). The database does not guarantee this.
- Concurrency: the model is single-threaded. The read-modify-write races between binding and status changes are out of scope.
- TransportRepo.TransportRepository.UpdateTask writes the whole row. The store library's `Updates` skips zero-valued fields, so, for example, an emptied handle result is not written back. This is not modelled.
- DeliveryService.MaskPhone counts characters. Go's `len` counts bytes, which differs for non-ASCII input.
- TransportService.TransportSvc.BindPackagesToTask uses the corrected repository bind from "## Findings", which always recounts. So it promises count = rows where the code as written can store the raised count. The code's own behaviour is `TransportService.TransportSvc.BindPackagesToTaskAsWritten`.
- TransportService.TransportSvc.BindLoaded uses the same corrected recount. `TransportService.TransportSvc.BindLoadedAsWritten` models the code as written.
- DeliveryRepo.DeliveryRepository.BindPackages with an empty list deletes the task's rows and inserts none. The store library's handling of an empty batch insert is not modelled.

## Findings

| source | as written | input that shows it | evidently intended | confidence | as-written member | corrected member |
|---|---|---|---|---|---|---|
| internal/repository/transport.go:140-143 | When every listed ID is empty or already bound, the bind returns before the recount. By then, internal/service/transport.go:108-118 has already stored `PackageCount + len(packageIDs)`, so the stored count overstates the join rows. | Bind `["P"]` twice to a pending task with no rows: the second round inserts nothing, and package_count ends at 2 over one join row (n times gives n). | The recount at lines 156-163 always runs, so package_count equals the number of the task's join rows. | high, not executed | TransportService.RebindSameParcelAsWritten | TransportService.RebindSameParcel |
