# xv6 thread and mutex system-call boundary

This project models the system-call entry points that an xv6 teaching kernel
gains with its user-level threads and mutexes. It covers the part of
`sysproc.c` that checks untrusted arguments before calling into the kernel.

- **Mutex validators.** `sys_mutex_destroy`, `sys_mutex_lock` and
  `sys_mutex_unlock` fetch a mutex id with `argint`. They test the id against
  the range 0..31 and read the addressed slot of the process's 32-slot mutex
  table. Each slot is a `mymutex`, holding a `flag` (0 unlocked, 1 locked) and a
  `mystate` (0 uninitialised or destroyed, 1 initialised). Each call then
  either returns -1 or returns the result of the kernel operation on that id.
  The validators are functions of the table (`MutexBoundary`). `MutexStep`
  composes a validator with the kernel operation, and `MutexTrace.Run` chains
  such calls.
- **Intended slot semantics.** `MutexSemantics` states a reference independent
  of the two ints: one tagged slot state (`Uninit | Unlocked | Locked`), and for
  every illegal request an error `InvalidArgument | InvalidState | Busy`.
  Destroy is legal only on an unlocked, initialised mutex; lock and unlock are
  legal on any initialised one. A lemma compares the boundary with this
  reference once the id-fetch guard has passed (status -1 or above). The
  boundary then rejects exactly the requests the reference refuses, provided
  the addressed slot follows the 0/1 encoding. No other slot is constrained.
- **Thread entry points.** `sys_clone`, `sys_join` and `sys_texit` fetch
  integer arguments and either return -1 or call `clone`, `join` or `exit`
  (`ThreadBoundary`). `sys_texit` stores its argument in `proc->retval` before
  calling `exit`. It is a method on the class `Proc`, which may write only
  that field.

Inputs:
- What `argint` reports is an input, `ArgFetch(status, value)`.
- The kernel mutex operations are an opaque function parameter (`KernelMutex`):
  they map an operation, an id and a table to a new table and a return value.
- `clone`, `join` and `exit` appear only as the outcome that names them.

Behaviour kept exactly as the code has it:
- Argument 0 of every entry point modelled here is guarded by `< -1`, so a
  fetch status of -1 does not reject. Elsewhere in the same file a failed fetch
  is tested with `< 0` (`sys_kill`, `sys_sbrk`, `sys_sleep`, at sysproc.c:34,
  51 and 65). The six modelled entry points use `< -1` for argument 0 instead.
- Arguments 1 and 2 of clone and join are guarded by `< 0`.
- Destroy tests the lock flag before the state.
- Lock and unlock never look at the flag.
- Once clone and join have called the kernel they return no defined value,
  because the C functions end without a `return`.

## Model

| member | source | states |
|---|---|---|
| `MutexBoundary.SysMutexDestroy` | sysproc.c:169-194 | only an in-range id whose slot is not locked and not uninitialised reaches `mutex_destroy`, and it is passed the caller's own id |
| `MutexBoundary.SysMutexLock` | sysproc.c:196-216 | only an in-range id whose slot is not uninitialised reaches `mutex_lock`, with the caller's id |
| `MutexBoundary.SysMutexUnlock` | sysproc.c:218-238 | only an in-range id whose slot is not uninitialised reaches `mutex_unlock`, with the caller's id |
| `MutexBoundary.MutexStep` | sysproc.c:169-238 | a rejected call returns -1 and leaves the table as it was; a dispatched call returns the kernel operation's result unchanged and leaves the table the kernel leaves |
| `MutexBoundary.IdRangeCheckedBeforeSlotRead` | sysproc.c:178-232 | an id below 0 or above 31 is rejected by all three validators whatever any table holds, so the range test precedes every slot read |
| `MutexBoundary.OnlyAddressedSlotRead` | sysproc.c:183-232 | two tables that agree on the addressed slot get the same decision |
| `MutexBoundary.IdFetchGuard` | sysproc.c:172-225 | an id-fetch status below -1 rejects; every status from -1 up behaves exactly like a successful fetch |
| `MutexBoundary.DestroyRejectsLocked` | sysproc.c:183-191 | destroy rejects a slot whose flag is 1 whatever its state holds |
| `MutexBoundary.DestroyRejectsOnlyFor` | sysproc.c:174-193 | destroy rejects if and only if the fetch guard, the range test, the flag test or the state test fires; otherwise it dispatches with the caller's id |
| `MutexBoundary.LockUnlockRejectOnlyFor` | sysproc.c:196-238 | lock and unlock reject if and only if the fetch guard, the range test or the state test fires; otherwise they dispatch with the caller's id |
| `MutexBoundary.LockUnlockIgnoreFlag` | sysproc.c:205-237 | rewriting the addressed slot's flag never changes the decision of lock or unlock |
| `MutexBoundary.HeldLockAndFreeUnlockDispatched` | sysproc.c:210-237 | locking a held initialised mutex and unlocking an unheld initialised mutex are both dispatched |
| `MutexBoundary.RejectionNeverMutates` | sysproc.c:169-238 | a rejected call yields the unchanged table and -1 whatever the kernel operations would do |
| `MutexSemantics.BoundaryMatchesIntended` | sysproc.c:169-238 | once the id-fetch guard has passed (status -1 or above), and provided the addressed slot follows the 0/1 encoding (no other slot is constrained), the boundary rejects exactly the requests the intended tagged-state semantics refuses (id out of range, uninitialised slot, destroy while locked) and dispatches every other one with the caller's id |
| `MutexSemantics.DestroyRefusesLockedUninit` | sysproc.c:183-191 | a slot with flag 1 and state 0 names no tagged state, and destroy, lock and unlock all reject it |
| `MutexTrace.Run` | sysproc.c:169-238 | over any run of mutex calls every call gets a return value, and every kernel operation reached carries an id in 0..31 |
| `MutexTrace.RejectedCallInvisible` | sysproc.c:169-238 | a rejected call in a run returns -1 and the run continues from the same table as if it had not been made |
| `MutexTrace.RejectedRunKeepsTable` | sysproc.c:169-238 | a run whose every call is rejected leaves the table unchanged, reaches no kernel operation and returns -1 from every call |
| `MutexTrace.OutOfRangeRunReachesNoKernel` | sysproc.c:178-230 | a run whose every id is out of range reaches no kernel operation and leaves the table unchanged |
| `ThreadBoundary.SysClone` | sysproc.c:106-126 | clone is called with the three fetched values or the call is refused; a negative status on argument 1 or 2 always refuses |
| `ThreadBoundary.SysJoin` | sysproc.c:128-148 | join is called with the three fetched values or the call is refused; a negative status on argument 1 or 2 always refuses |
| `ThreadBoundary.ReturnOf` | sysproc.c:106-161 | an entry point returns a value (-1) exactly when it refuses, and returns not at all exactly when it has called `exit` |
| `ThreadBoundary.CloneJoinRefuseOnlyFor` | sysproc.c:113-145 | clone and join refuse if and only if argument 0's status is below -1 or argument 1's or 2's is below 0 |
| `ThreadBoundary.FirstArgGuardWeaker` | sysproc.c:113-145 | a status of -1 passes on argument 0 but refuses on argument 1 or 2, for clone and for join |
| `ThreadBoundary.DispatchedCloneJoinReturnUndefined` | sysproc.c:125-148 | once clone or join has called the kernel its return value is undefined |
| `ThreadBoundary.Proc.SysTexit` | sysproc.c:150-161 | texit refuses with -1 exactly when argument 0's status is below -1 and then leaves `retval` alone; otherwise it stores the fetched value in `retval` and calls `exit`, never returning; no other field of the process is written |

## Left out

- `argint`: it is not part of this model. Its status and the value it leaves are inputs, so the model does not decide whether a status of -1 actually occurs.
- The order of the argument fetches: clone and join stop fetching at the first guard that fires. `argint` has no effect beyond the local it writes, so only the decision is modelled.
- The bodies of `mutex_init`, `mutex_destroy`, `mutex_lock`, `mutex_unlock`, `clone`, `join` and `exit`: they are not part of this model. The mutex operations are an arbitrary function parameter; the others appear only as outcomes.
- `sys_mutex_init`: a one-line pass-through to `mutex_init`, with nothing to check at the boundary.
- Blocking, the slots' spinlocks and wait channels, and the race between the boundary check and the kernel operation: these are about concurrency. `MutexTrace.Run` takes calls one at a time.
- The `int *` indirection of `flag` and `mystate`: slots hold the pointed-to ints by value, so aliasing and null pointers are not modelled.
- Integer width: `int` arguments and `proc->retval` (a `void *`) are unbounded integers. No code here does arithmetic on them, so 32-bit wrap-around never arises.
- `sys_fork`, `sys_exit`, `sys_wait`, `sys_kill`, `sys_getpid`, `sys_sbrk`: thin wrappers over kernel functions (`fork`, `exit`, `wait`, `kill`, `growproc`) that are not part of this model. `sys_kill` and `sys_sbrk` guard their `argint` with `< 0`, and `sys_sbrk` also reads `proc->sz` and returns -1 if `growproc` fails.
- `sys_sleep` and `sys_uptime`: timer-lock and sleep/wakeup plumbing.
- `sys_halt`: port I/O.
- The user-space wrapper `pthread.c`: every function passes straight through to a system call or to `malloc`/`free`, which are not part of this model.
