/** Values, errors and result records shared by every cache variant. */
module CacheTypes {

  datatype Option<+T> = None | Some(value: T)

  /** A call that either yields a value or fails with one of the library's errors. */
  datatype Result<+R> = Success(value: R) | Failure(error: Error)

  /** A cached payload. Values are untyped in the library and may be nil. */
  datatype Value<+T> = Nil | Val(payload: T)

  /** The errors the library returns, one constructor per exported error value,
      plus errors produced by caller-supplied code (loaders, partitioners, delegates)
      and the "unexpected error: ..." errors made from recovered faults. */
  datatype Error =
    | Timeout                        // ErrTimeout
    | Unknown                        // ErrUnknown
    | AttemptToUseInvalidCache       // ErrAttemptToUseInvalidCache
    | InvalidValueToAddToCache       // ErrInvalidValueToAddToCache
    | InvalidMaxEntries              // ErrInvalidMaxEntries
    | InvalidContext                 // ErrInvalidContext
    | InvalidLoader                  // ErrInvalidLoader
    | InvalidPartition               // ErrInvalidPartition
    | InvalidPartitioner             // ErrInvalidPartitioner
    | InvalidPartitionInfo           // ErrInvalidPartitionInfo
    | PartitionWithNoCache           // ErrPartitionWithNoCache
    | PartitionInfoHasDuplicates     // ErrPartitionInfoHasDuplicates
    | Unexpected(detail: string)     // "unexpected error: <detail>"
    | External(detail: string)       // an error returned by caller-supplied code

  datatype KeyVal<K, T> = KeyVal(key: K, value: Value<T>)

  /** The outcome of retrieving one key of a batch. */
  datatype CacheResult<K, T> = CacheResult(key: K, value: Value<T>, ok: bool, err: Option<Error>)

  /** The three results of a single-key Get. */
  datatype GetOutcome<T> = GetOutcome(value: Value<T>, ok: bool, err: Option<Error>)

  /** How the wait for the actor's reply ends, for calls that also watch a context:
      the reply arrives, the per-cache timeout fires first, or the context is done first.
      `serviced` says whether the actor had already applied the request by then. */
  datatype Wait = Replied | TimedOut(serviced: bool) | Cancelled(serviced: bool)

  /** How the wait ends for calls that take no context (Len, Remove). */
  datatype Deadline = Met | Missed(serviced: bool)

  /** Get as GetBatch of one key: the first result of the batch, an error
      passed through, or ErrUnknown when the batch came back empty. */
  function FirstResult<K, T>(batch: Result<seq<CacheResult<K, T>>>): (r: GetOutcome<T>)
    ensures batch.Failure? ==> r == GetOutcome(Nil, false, Some(batch.error))
    ensures batch.Success? && batch.value == [] ==> r == GetOutcome(Nil, false, Some(Unknown))
    ensures batch.Success? && batch.value != [] ==>
              r == GetOutcome(batch.value[0].value, batch.value[0].ok, batch.value[0].err)
  {
    match batch
    case Failure(e) => GetOutcome(Nil, false, Some(e))
    case Success(res) =>
      if |res| == 0 then GetOutcome(Nil, false, Some(Unknown))
      else GetOutcome(res[0].value, res[0].ok, res[0].err)
  }
}
