/** Values shared by both drivers: a nullable-pointer stand-in and the
    kernel error numbers the two drivers return (negated, as the kernel does). */
module KernelTypes {

  /** A pointer that may be NULL. */
  datatype Option<+T> = None | Some(value: T)

  /** errno values from the kernel's uapi errno headers. */
  const ENXIO: int := 6
  const ENODEV: int := 19

  /** The largest errno an ERR_PTR may carry. */
  const MAX_ERRNO: int := 4095

  /** IS_ERR on a pointer-encoded error: a negated errno in [-MAX_ERRNO, -1]. */
  predicate IsErrValue(e: int) {
    -MAX_ERRNO <= e < 0
  }
}
