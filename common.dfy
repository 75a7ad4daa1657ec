/** Optional values, results and the errors the scheduler layer reports. */
module Common {

  datatype Option<+T> = None | Some(value: T)

  datatype Result<+T, +E> = Success(value: T) | Failure(error: E)

  /** Every error the core can return. Backend errors are passed through unchanged. */
  datatype Error =
    /** *ProcessNotFoundError: a scale request named a process that has no service. */
    | ProcessNotFound(process: string)
    /** The backend's answer to an update or delete of a service that does not exist. */
    | ServiceNotFound(service: string)
    /** Any other failure reported by a backend call or by resource-id extraction. */
    | Failed(reason: string)
}
