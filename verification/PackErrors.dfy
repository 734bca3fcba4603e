/** Failure codes of the pack and shader activation commands. */
module PackErrors {
  import opened Results

  datatype PackError =
    | Busy
    | Changed
    | ConfirmStopped
    | ConfirmRuntime
    | Format
    | Selection
    | Path

  type PackResult<+T> = Result<T, PackError>
}
