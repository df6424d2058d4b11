/** The system-call boundary of the mutex subsystem: `sys_mutex_destroy`,
    `sys_mutex_lock` and `sys_mutex_unlock`. Each one fetches an untrusted
    id, checks it against the range 0..31 and the addressed slot, and then
    either returns -1 or hands the id on to the kernel mutex operation. */
module MutexBoundary {
  import opened Spinlock
  import opened Syscall

  /** The kernel mutex operation a validated call is handed to. */
  datatype MutexOp = Destroy | Lock | Unlock

  /** The boundary's decision: return -1, or call the kernel operation
      `op` on mutex `id`. */
  datatype MutexOutcome = Reject | Dispatch(op: MutexOp, id: int)

  /** `sys_mutex_destroy`: the lock flag is tested before the state, and
      only an in-range, unlocked, initialised slot reaches `mutex_destroy`. */
  function SysMutexDestroy(table: MutexTable, arg: ArgFetch): (o: MutexOutcome)
    ensures o.Dispatch? ==>
              o == Dispatch(Destroy, arg.value) && ValidMutexId(arg.value) &&
              table[arg.value].flag != FlagLocked && table[arg.value].state != StateUninit
  {
    if FirstArgRejected(arg) then Reject
    else if arg.value < 0 || arg.value > 31 then Reject
    else if table[arg.value].flag == FlagLocked then Reject
    else if table[arg.value].state == StateUninit then Reject
    else Dispatch(Destroy, arg.value)
  }

  /** `sys_mutex_lock`: only an in-range, initialised slot reaches
      `mutex_lock`; the lock flag is not looked at. */
  function SysMutexLock(table: MutexTable, arg: ArgFetch): (o: MutexOutcome)
    ensures o.Dispatch? ==>
              o == Dispatch(Lock, arg.value) && ValidMutexId(arg.value) &&
              table[arg.value].state != StateUninit
  {
    if FirstArgRejected(arg) then Reject
    else if arg.value < 0 || arg.value > 31 then Reject
    else if table[arg.value].state == StateUninit then Reject
    else Dispatch(Lock, arg.value)
  }

  /** `sys_mutex_unlock`: only an in-range, initialised slot reaches
      `mutex_unlock`; the lock flag is not looked at. */
  function SysMutexUnlock(table: MutexTable, arg: ArgFetch): (o: MutexOutcome)
    ensures o.Dispatch? ==>
              o == Dispatch(Unlock, arg.value) && ValidMutexId(arg.value) &&
              table[arg.value].state != StateUninit
  {
    if FirstArgRejected(arg) then Reject
    else if arg.value < 0 || arg.value > 31 then Reject
    else if table[arg.value].state == StateUninit then Reject
    else Dispatch(Unlock, arg.value)
  }

  /** The validator of the entry point that leads to `op`. */
  function SysMutex(op: MutexOp, table: MutexTable, arg: ArgFetch): MutexOutcome
  {
    match op
    case Destroy => SysMutexDestroy(table, arg)
    case Lock => SysMutexLock(table, arg)
    case Unlock => SysMutexUnlock(table, arg)
  }

  /** The kernel operations `mutex_destroy`, `mutex_lock` and `mutex_unlock`,
      whose bodies are not part of this model: given the operation, the id
      and the table, the table they leave and the value they return. */
  type KernelMutex = (MutexOp, int, MutexTable) -> (MutexTable, int)

  /** The process's mutex table after a call, and the call's return value. */
  datatype StepResult = StepResult(table: MutexTable, ret: int)

  /** One complete mutex system call: the boundary's check, followed, when
      it lets the call through, by the kernel operation, whose return value
      the entry point returns unchanged. */
  function MutexStep(op: MutexOp, table: MutexTable, arg: ArgFetch, kernel: KernelMutex): (r: StepResult)
    ensures SysMutex(op, table, arg).Reject? ==> r == StepResult(table, -1)
    ensures SysMutex(op, table, arg).Dispatch? ==>
              (r.table, r.ret) == kernel(op, arg.value, table)
  {
    match SysMutex(op, table, arg)
    case Reject => StepResult(table, -1)
    case Dispatch(o, id) =>
      var (t, ret) := kernel(o, id, table);
      StepResult(t, ret)
  }

  /** The range test comes before any slot is read: an out-of-range id is
      rejected whatever the table holds. */
  lemma IdRangeCheckedBeforeSlotRead(op: MutexOp, t1: MutexTable, t2: MutexTable, arg: ArgFetch)
    requires !ValidMutexId(arg.value)
    ensures SysMutex(op, t1, arg) == Reject
    ensures SysMutex(op, t2, arg) == Reject
  {
  }

  /** The decision depends on the table only through the addressed slot. */
  lemma OnlyAddressedSlotRead(op: MutexOp, t1: MutexTable, t2: MutexTable, arg: ArgFetch)
    requires ValidMutexId(arg.value) && t1[arg.value] == t2[arg.value]
    ensures SysMutex(op, t1, arg) == SysMutex(op, t2, arg)
  {
  }

  /** Of the id-fetch status only a value below -1 matters: a status of
      -1 (or any other value from -1 up) behaves like a successful fetch. */
  lemma IdFetchGuard(op: MutexOp, table: MutexTable, arg: ArgFetch)
    ensures FirstArgRejected(arg) ==> SysMutex(op, table, arg) == Reject
    ensures !FirstArgRejected(arg) ==>
              SysMutex(op, table, arg) == SysMutex(op, table, ArgFetch(0, arg.value))
  {
  }

  /** Destroy rejects a locked slot whatever its state holds. */
  lemma DestroyRejectsLocked(table: MutexTable, arg: ArgFetch)
    requires ValidMutexId(arg.value) && table[arg.value].flag == FlagLocked
    ensures SysMutexDestroy(table, arg) == Reject
  {
  }

  /** Destroy reaches `mutex_destroy` exactly when the fetch guard, the range
      test, the flag test and the state test all pass. */
  lemma DestroyRejectsOnlyFor(table: MutexTable, arg: ArgFetch)
    ensures SysMutexDestroy(table, arg).Reject? <==>
              FirstArgRejected(arg) || !ValidMutexId(arg.value) ||
              table[arg.value].flag == FlagLocked || table[arg.value].state == StateUninit
    ensures SysMutexDestroy(table, arg).Dispatch? ==>
              SysMutexDestroy(table, arg) == Dispatch(Destroy, arg.value)
  {
  }

  /** Lock and unlock reject only for a failed fetch guard, an out-of-range
      id or an uninitialised slot. */
  lemma LockUnlockRejectOnlyFor(op: MutexOp, table: MutexTable, arg: ArgFetch)
    requires op != Destroy
    ensures SysMutex(op, table, arg).Reject? <==>
              FirstArgRejected(arg) || !ValidMutexId(arg.value) ||
              table[arg.value].state == StateUninit
    ensures SysMutex(op, table, arg).Dispatch? ==>
              SysMutex(op, table, arg) == Dispatch(op, arg.value)
  {
  }

  /** Lock and unlock never look at the lock flag: rewriting the addressed
      slot's flag does not change the decision. */
  lemma LockUnlockIgnoreFlag(op: MutexOp, table: MutexTable, arg: ArgFetch, flag: int)
    requires op != Destroy && ValidMutexId(arg.value)
    ensures SysMutex(op, table[arg.value := MutexSlot(flag, table[arg.value].state)], arg) ==
            SysMutex(op, table, arg)
  {
  }

  /** Two consequences: locking a mutex that is already held, and unlocking an
      initialised mutex that is not held, are both handed to the kernel. */
  lemma HeldLockAndFreeUnlockDispatched(table: MutexTable, arg: ArgFetch)
    requires !FirstArgRejected(arg) && ValidMutexId(arg.value)
    requires table[arg.value].state == StateInit
    ensures table[arg.value].flag == FlagLocked ==>
              SysMutexLock(table, arg) == Dispatch(Lock, arg.value)
    ensures table[arg.value].flag == FlagUnlocked ==>
              SysMutexUnlock(table, arg) == Dispatch(Unlock, arg.value)
  {
  }

  /** A rejected call leaves the table exactly as it was and returns -1,
      whatever the kernel operations would have done. */
  lemma RejectionNeverMutates(op: MutexOp, table: MutexTable, arg: ArgFetch, k1: KernelMutex, k2: KernelMutex)
    requires SysMutex(op, table, arg).Reject?
    ensures MutexStep(op, table, arg, k1) == MutexStep(op, table, arg, k2) == StepResult(table, -1)
  {
  }
}
