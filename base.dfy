/** Small shared vocabulary: bytes, optional values, errno codes and call outcomes. */
module Base {

  /** One byte of the binary output. */
  newtype byte = x: int | 0 <= x < 256

  datatype Option<T> = None | Some(value: T)

  /** Linux errno values used by the topology compiler (returned negated). */
  const EIO: int := 5
  const EINVAL: int := 22

  /**
   * The outcome of an emitter or build call: an `int` return code, or the
   * process exit that the emitter performs when its offset check fails.
   */
  datatype Status = Ret(code: int) | Exit(status: int) {
    /** The caller must stop: an exit, or a negative return code. */
    predicate Stops() {
      Exit? || code < 0
    }
  }
}
