/** Values shared by every module: optional values, the two ways the source aborts, and results. */
module Results {

  /** A JavaScript value that may be `null` or `undefined` (both are `None` here). */
  datatype Option<+T> = None | Some(value: T)

  /**
   * The two ways the source aborts a run:
   * - `InvalidSchema`: an explicit `throw new Error("invalid schema")`;
   * - `TypeError`: the error JavaScript raises when code reads a property of `undefined`.
   */
  datatype Fault = InvalidSchema | TypeError

  /** What a throwing JavaScript function returns: a value, or the fault it threw. */
  datatype Result<+T> = Ok(value: T) | Err(fault: Fault)

  /** JavaScript truthiness of a `string | null | undefined`: present and not empty. */
  predicate Truthy(o: Option<string>) {
    o.Some? && |o.value| > 0
  }
}
