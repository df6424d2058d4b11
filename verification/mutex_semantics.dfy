/** The intended semantics of a mutex slot, stated independently of the two
    ints that encode it: one tagged state out of Uninit, Unlocked and Locked,
    and an error InvalidArgument, InvalidState or Busy for every request that
    is not legal. The boundary itself returns -1 for every such error; this
    module is the reference its decisions are compared with. */
module MutexSemantics {
  import opened Spinlock
  import opened Syscall
  import opened MutexBoundary

  datatype Option<T> = None | Some(value: T)

  /** The tagged state of one mutex slot. */
  datatype SlotState = Uninit | Unlocked | Locked

  /** Why a mutex request is not legal. */
  datatype MutexError = InvalidArgument | InvalidState | Busy

  /** Reading of a slot's two ints under the encoding `mystate` 0/1 =
      uninitialised/initialised, `flag` 0/1 = unlocked/locked. A locked flag on
      an uninitialised slot, and any other value, name no tagged state. */
  function Decode(s: MutexSlot): Option<SlotState>
  {
    if s == MutexSlot(FlagUnlocked, StateUninit) then Some(Uninit)
    else if s == MutexSlot(FlagUnlocked, StateInit) then Some(Unlocked)
    else if s == MutexSlot(FlagLocked, StateInit) then Some(Locked)
    else None
  }

  /** The tagged state of the slot an id addresses; `None` for an id outside
      0..31 or a slot that names no tagged state. */
  function SlotAt(table: MutexTable, id: int): Option<SlotState>
  {
    if ValidMutexId(id) then Decode(table[id]) else None
  }

  /** The intended verdict on a request for mutex `id`, whose slot is in the
      tagged state `slot` when the id is in range: `None` when the request is
      legal, otherwise why it is not. Destroy is legal only on an unlocked,
      initialised mutex; lock and unlock on any initialised one. */
  function IntendedCheck(op: MutexOp, id: int, slot: Option<SlotState>): Option<MutexError>
    requires ValidMutexId(id) ==> slot.Some?
  {
    if !ValidMutexId(id) then Some(InvalidArgument)
    else match slot.value
      case Uninit => Some(InvalidState)
      case Locked => if op == Destroy then Some(Busy) else None
      case Unlocked => None
  }

  /** Once the id-fetch guard has passed, and provided the addressed slot
      (the only one the boundary reads) names a tagged state, the boundary
      rejects exactly the requests the intended semantics refuses, and hands
      every other one to the kernel with the caller's id. No other slot of
      the table is constrained. */
  lemma BoundaryMatchesIntended(op: MutexOp, table: MutexTable, arg: ArgFetch)
    requires !FirstArgRejected(arg)
    requires ValidMutexId(arg.value) ==> Decode(table[arg.value]).Some?
    ensures SysMutex(op, table, arg).Reject? <==>
              IntendedCheck(op, arg.value, SlotAt(table, arg.value)).Some?
    ensures IntendedCheck(op, arg.value, SlotAt(table, arg.value)).None? <==>
              SysMutex(op, table, arg) == Dispatch(op, arg.value)
  {
  }

  /** Outside the encoding the boundary still never lets destroy through on
      a slot whose flag says locked, even one whose state says uninitialised,
      which names no tagged state; lock and unlock reject it too. */
  lemma DestroyRefusesLockedUninit(table: MutexTable, arg: ArgFetch)
    requires ValidMutexId(arg.value)
    requires table[arg.value] == MutexSlot(FlagLocked, StateUninit)
    ensures Decode(table[arg.value]) == None
    ensures SysMutexDestroy(table, arg) == Reject
    ensures SysMutexLock(table, arg) == Reject && SysMutexUnlock(table, arg) == Reject
  {
  }
}
