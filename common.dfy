/** Error kinds, success/failure wrappers and the abstract clock shared by every module. */
module Common {

  /** Time is a count of ticks; 0 is Go's zero time.Time. */
  type Time = nat

  /** A reading of the wall clock: time.Now() is never the zero time. */
  type Instant = t: nat | t > 0 witness 1

  /** The error values the core returns (the errno constants and the ad-hoc fmt.Errorf errors). */
  datatype Error =
    | ParamInvalid
      // transport domain
    | TransportStatusInvalid
    | TransportTaskNotBindable
    | TransportTaskNotAbnormal
    | TransportTaskNotFound
    | TransportTaskNotBelongToDriver
      // delivery domain
    | DeliveryStatusInvalid
    | DeliveryTaskNotBindable
    | DeliveryTaskNotAbnormal
    | DeliveryTaskNotFound
    | PackageNotBindToDeliveryTask
    | DeliveryTaskNotBelongToCourier
      // errors built with fmt.Errorf / errors.New or raised by the store
    | PackageNotSorted(packageID: string, status: string)
    | PackageNotArrived(packageID: string, status: string)
    | PackageNotSigned(packageID: string)
    | EmptyTaskID
    | EmptyPackageList
    | RecordNotFound
    | DuplicateKey

  /** The result of an operation that returns only `error`. */
  datatype Outcome = Success | Failure(error: Error)

  /** The result of an operation that returns a value and an `error`. */
  datatype Result<T> = Ok(value: T) | Err(error: Error)

  /** A value that may be absent. */
  datatype Option<T> = None | Some(value: T)

  /** A generated task ID: a fixed prefix naming the task kind, then an opaque time-and-random stamp. */
  function StampedID(prefix: string, stamp: string): (id: string)
    ensures |id| == |prefix| + |stamp|
    ensures id[..|prefix|] == prefix && id[|prefix|..] == stamp
  {
    prefix + stamp
  }

  /**
   * Two generated IDs with prefixes of one length are equal exactly when
   * both the prefixes and the stamps are: IDs of different task kinds
   * never collide.
   */
  lemma StampedIDsDistinct(p1: string, s1: string, p2: string, s2: string)
    requires |p1| == |p2|
    ensures StampedID(p1, s1) == StampedID(p2, s2) <==> p1 == p2 && s1 == s2
  {
    var a, b := StampedID(p1, s1), StampedID(p2, s2);
    if a == b {
      assert p1 == a[..|p1|] == b[..|p2|] == p2;
      assert s1 == a[|p1|..] == b[|p2|..] == s2;
    }
  }
}
