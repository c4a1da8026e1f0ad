/*
 * Things shared by every part of the library: the integer status code that
 * the C functions return next to the values they write through pointers, the
 * optional output pointer, and the clock reading.
 */
module Status {

  /** A C return code together with what the call wrote through its output pointers. */
  datatype Ret<T> = Ret(code: int, out: T)

  /**
   * An output pointer that may be NULL. Several pose-math routines test it and
   * return an error code before writing anything.
   */
  datatype Dest<T> = Null | Out(value: T)

  /** A value that an initialiser may fail to produce. */
  datatype Option<T> = None | Some(value: T)

  /** A gettimeofday() reading: whole seconds and microseconds. */
  datatype Timeval = Timeval(sec: nat, usec: nat)
}
