/** What the modules share: results of lookups and of operations that throw, and the constants of the worker pool. */
module Common {

  datatype Option<+T> = None | Some(value: T)

  /** Success carries the value returned, Failure the reason for which an exception was thrown. */
  datatype Result<+T> = Success(value: T) | Failure(error: string)

  const MAX_WORKER_THREADS: nat := 10
  const INITIAL_WORKERS: nat := 5

  datatype WorkerState = SLEEP_WAIT | SLEEP_TIME | RESUME | TERMINATE
}
