/** How an operation of the display layer ends: with a value, with one of the
    errors the Rust code returns through `anyhow`, or with a panic (an
    `unwrap` of `None` or an out-of-bounds index). */
module Outcomes {
  import opened Machine

  datatype Option<+T> = None | Some(value: T)

  /** The errors the code bails out with, one per `anyhow::bail!` site. */
  datatype Error =
    | BufferSizesFailed(sizesCode: uint32)  // GetDisplayConfigBufferSizes returned non-zero
    | QueryFailed(queryCode: uint32)        // QueryDisplayConfig returned non-zero
    | NameQueryFailed(nameCode: int32)      // the target-name device-info query failed
    | DpiQueryFailed(dpiCode: int32)        // the DPI device-info query failed
    | DpiIndexOutOfRange                    // the current DPI index lies outside the catalog
    | SetConfigFailed(setCode: int32)       // SetDisplayConfig returned non-zero
    | SetDpiFailed(setDpiCode: int32)       // the DPI device-info set returned non-zero

  /** The places where the code panics instead of returning an error. */
  datatype PanicSite =
    | PathNotFound                // `find(..).unwrap()` on the re-queried paths
    | ModeIndexOutOfBounds        // `modes[mode_idx]` with an index past the buffer
    | RecommendedIndexOutOfBounds // `DPI_VALUES[rec_index]` with an index past the catalog
    | RecommendedNotInCatalog     // `position(..).unwrap()` on the recommended percentage
    | TargetNotInCatalog          // `position(..).unwrap()` on the requested percentage

  datatype Failure = Err(error: Error) | Panic(site: PanicSite)

  /** Ok or Fail; failure-compatible, so `:-` plays the part of Rust's `?`
      (a panic also ends the whole operation). */
  datatype Outcome<+T> = Ok(value: T) | Fail(why: Failure) {
    predicate IsFailure() {
      Fail?
    }

    function PropagateFailure<U>(): Outcome<U>
      requires Fail?
    {
      Fail(why)
    }

    function Extract(): T
      requires Ok?
    {
      value
    }
  }
}
