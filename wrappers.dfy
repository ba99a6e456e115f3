/** Failure-compatible Option and Result datatypes, and the error conditions of the engine. */
module Wrappers {

  /** A value that may be missing; `None` plays the part of pandas' NaN. */
  datatype Option<+T> = None | Some(value: T)

  /** The outcome of an operation that may raise: its value, or the error it raises. */
  datatype Result<+T, +E> = Success(value: T) | Failure(error: E) {

    predicate IsFailure() {
      Failure?
    }

    function PropagateFailure<U>(): Result<U, E>
      requires Failure?
    {
      Failure(error)
    }

    function Extract(): T
      requires Success?
    {
      value
    }
  }
}

/** The exceptions the valuation engine raises, one constructor per distinct cause. */
module Errors {

  datatype Error =
    /** The price source raised or returned nothing for this asset and window. */
    | DataUnavailable(asset: string)
    /** `MultiIndex.from_tuples` was given no tuples: an empty header or sub-header (TypeError). */
    | EmptyMultiIndex
    /** `pd.concat` was given an empty list of frames. */
    | NoObjectsToConcatenate
    /** `.loc[:, keys]` named a column that no concatenated frame has (KeyError). */
    | MissingColumn(field: string)
    /** `df.columns = multi_header` with a header of the wrong length (ValueError). */
    | LengthMismatch(expected: nat, actual: nat)
    /** `_build_multi_index_data_frame` called with this many positional arguments, counting `self`,
        instead of 4 (TypeError). */
    | WrongArgumentCount(given: nat)
    /** The ledger has no rows (`index[0]` on an empty index). */
    | EmptyLedger
    /** `prices['Close'][asset]` for an asset that has no close column (KeyError). */
    | UnknownAsset(asset: string)
    /** A `.loc`/`[]` lookup of a date that is not on the price calendar (KeyError). */
    | DateNotInIndex(day: int)
    /** `pivot` found two ledger rows for the same asset and date (ValueError). */
    | DuplicateEntries
    /** `np.dot` of two rows of different lengths (ValueError). */
    | ShapesNotAligned(left: nat, right: nat)
    /** `index[-1]` on an allocation table whose business-day index is empty (IndexError). */
    | EmptyIndex
}
