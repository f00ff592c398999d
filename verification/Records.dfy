/** Vocabulary shared by every model: identifiers, time and record statuses. */
module Records {

  /** Identifiers are strings compared by equality; "" is the missing identifier. */
  type Id = string

  /** Instants and durations, in integer nanoseconds. */
  type Time = int

  const SECOND: Time := 1_000_000_000

  datatype Option<+T> = None | Some(value: T)

  /** A call either yields a value or reports an error. */
  datatype Result<+T> = Ok(value: T) | Err

  datatype WorkloadStatus = Unspecified | Starting | Running | Stopping | Stopped | Failed

  datatype VolumeStatus = Provisioning | Active | Deprovisioning | Deleted | VolumeFailed

  /** The record of a disk that exists or is about to. */
  predicate IsOpen(status: VolumeStatus) {
    status.Provisioning? || status.Active? || status.Deprovisioning?
  }

  predicate IsActive(status: WorkloadStatus) {
    status.Starting? || status.Running? || status.Stopping?
  }

  predicate IsEnded(status: WorkloadStatus) {
    status.Stopped? || status.Failed?
  }
}
