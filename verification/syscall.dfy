/** How the system-call entry points receive their arguments. */
module Syscall {

  /** What a call `argint(n, &x)` leaves behind: the status it returned and
      the value then held by `x`. `argint` itself is not part of this model,
      so both are inputs; when the fetch fails, `value` stands for whatever
      the uninitialised local happens to hold. */
  datatype ArgFetch = ArgFetch(status: int, value: int)

  /** The guard every entry point here puts on argument 0:
      `argint(0, &x) < -1`. A status of exactly -1 does not reject. */
  predicate FirstArgRejected(a: ArgFetch)
  {
    a.status < -1
  }

  /** The guard clone and join put on arguments 1 and 2:
      `argint(n, &x) < 0`. */
  predicate LaterArgRejected(a: ArgFetch)
  {
    a.status < 0
  }
}
