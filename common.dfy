/** Small value types shared by every module of the scripting model. */
module Common {

  /** A value that may be absent: a null pointer or a failed lookup in the engine. */
  datatype Option<+T> = None | Some(value: T)

  /** Why an engine call that looks something up by name could not complete
      (the `at` of an unordered map throws in the engine). */
  datatype Error =
    | ClassNotFound(className: string)
    | InstanceNotFound(entity: UUID, className: string)

  datatype Result<+T> = Ok(value: T) | Err(error: Error)

  /** The 64-bit entity identifier that keys every per-entity map. */
  newtype UUID = x: int | 0 <= x < 0x1_0000_0000_0000_0000

  /** A garbage-collector handle: an opaque index into the handle table. */
  type Handle = nat
}
