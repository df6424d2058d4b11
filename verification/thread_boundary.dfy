/** The system-call boundary of the thread lifecycle: `sys_clone`,
    `sys_join` and `sys_texit`. Each fetches its integer arguments, returns
    -1 if a fetch guard fires, and otherwise calls the kernel operation. */
module ThreadBoundary {
  import opened Spinlock
  import opened Syscall

  /** The boundary's decision: return -1, or call `clone`, `join` or
      `exit` with the fetched arguments. */
  datatype ThreadOutcome =
    | Refuse
    | Clone(func: int, arg: int, stack: int)
    | Join(pid: int, stack: int, retval: int)
    | Exit

  /** What a system call hands back to the caller: a value, nothing defined
      (an `int` function that ends without a `return`), or no return at all. */
  datatype Return = Value(v: int) | Undefined | NoReturn

  /** `sys_clone`: argument 0 (the entry function) under the `< -1` guard,
      arguments 1 and 2 (its argument and the stack) under `< 0`. */
  function SysClone(a0: ArgFetch, a1: ArgFetch, a2: ArgFetch): (o: ThreadOutcome)
    ensures o == Refuse || o == Clone(a0.value, a1.value, a2.value)
    ensures LaterArgRejected(a1) || LaterArgRejected(a2) ==> o == Refuse
  {
    if FirstArgRejected(a0) then Refuse
    else if LaterArgRejected(a1) then Refuse
    else if LaterArgRejected(a2) then Refuse
    else Clone(a0.value, a1.value, a2.value)
  }

  /** `sys_join`: argument 0 (the pid) under the `< -1` guard, arguments 1
      and 2 (where to store the stack and the return value) under `< 0`. */
  function SysJoin(a0: ArgFetch, a1: ArgFetch, a2: ArgFetch): (o: ThreadOutcome)
    ensures o == Refuse || o == Join(a0.value, a1.value, a2.value)
    ensures LaterArgRejected(a1) || LaterArgRejected(a2) ==> o == Refuse
  {
    if FirstArgRejected(a0) then Refuse
    else if LaterArgRejected(a1) then Refuse
    else if LaterArgRejected(a2) then Refuse
    else Join(a0.value, a1.value, a2.value)
  }

  /** What the entry point returns after its decision: -1 when it refuses;
      `sys_clone` and `sys_join` fall off their end after the kernel call, and
      `sys_texit` never gets back from `exit`. */
  function ReturnOf(o: ThreadOutcome): (r: Return)
    ensures r.Value? <==> o == Refuse
    ensures r.Value? ==> r.v == -1
    ensures r == NoReturn <==> o == Exit
  {
    match o
    case Refuse => Value(-1)
    case Clone(_, _, _) => Undefined
    case Join(_, _, _) => Undefined
    case Exit => NoReturn
  }

  /** Clone and join refuse exactly when one of their three guards fires. */
  lemma CloneJoinRefuseOnlyFor(a0: ArgFetch, a1: ArgFetch, a2: ArgFetch)
    ensures SysClone(a0, a1, a2) == Refuse <==>
              FirstArgRejected(a0) || LaterArgRejected(a1) || LaterArgRejected(a2)
    ensures SysJoin(a0, a1, a2) == Refuse <==>
              FirstArgRejected(a0) || LaterArgRejected(a1) || LaterArgRejected(a2)
  {
  }

  /** The guards are not uniform: a fetch status of -1 on argument 0 goes
      through, while the same status on argument 1 or 2 refuses. */
  lemma FirstArgGuardWeaker(f: int, a: int, s: int)
    ensures SysClone(ArgFetch(-1, f), ArgFetch(0, a), ArgFetch(0, s)) == Clone(f, a, s)
    ensures SysClone(ArgFetch(0, f), ArgFetch(-1, a), ArgFetch(0, s)) == Refuse
    ensures SysClone(ArgFetch(0, f), ArgFetch(0, a), ArgFetch(-1, s)) == Refuse
    ensures SysJoin(ArgFetch(-1, f), ArgFetch(0, a), ArgFetch(0, s)) == Join(f, a, s)
    ensures SysJoin(ArgFetch(0, f), ArgFetch(-1, a), ArgFetch(0, s)) == Refuse
    ensures SysJoin(ArgFetch(0, f), ArgFetch(0, a), ArgFetch(-1, s)) == Refuse
  {
  }

  /** Neither clone nor join returns a defined value once it has called the
      kernel: the only value either entry point returns is the -1 of a
      refusal. */
  lemma DispatchedCloneJoinReturnUndefined(a0: ArgFetch, a1: ArgFetch, a2: ArgFetch)
    ensures SysClone(a0, a1, a2) != Refuse ==> ReturnOf(SysClone(a0, a1, a2)) == Undefined
    ensures SysJoin(a0, a1, a2) != Refuse ==> ReturnOf(SysJoin(a0, a1, a2)) == Undefined
  {
  }

  /** The calling process: the part of it the thread and mutex entry
      points touch. */
  class Proc {
    /** `proc->mutex_table`. The mutex validators take the table as a value;
        the field is here so that `SysTexit`'s frame, which names only
        `retval`, shows that texit leaves the table alone. */
    var mutexTable: MutexTable
    /** `proc->retval`, the value a later join collects. */
    var retval: int

    /** `sys_texit`: unless the fetch guard fires, stores the fetched value
        in `retval` and then calls `exit`, which does not return. Nothing else
        of the process is written. */
    method SysTexit(a0: ArgFetch) returns (o: ThreadOutcome, r: Return)
      modifies this`retval
      ensures o == Refuse <==> FirstArgRejected(a0)
      ensures o == Refuse || o == Exit
      ensures r == ReturnOf(o)
      ensures retval == if o == Exit then a0.value else old(retval)
    {
      if FirstArgRejected(a0) {
        return Refuse, Value(-1);
      }
      retval := a0.value;
      o, r := Exit, NoReturn;
    }
  }
}
