/** The shape of one per-process mutex slot (`struct mymutex`) and of the
    table of 32 such slots that every process carries. */
module Spinlock {

  /** Number of slots in a process's mutex table; valid ids are 0 to 31. */
  const MutexCount: nat := 32

  /** Values of a slot's `mystate`. */
  const StateUninit: int := 0
  const StateInit: int := 1

  /** Values of a slot's `flag`. */
  const FlagUnlocked: int := 0
  const FlagLocked: int := 1

  /** One `mymutex`, holding by value the two ints that its `flag` and
      `mystate` pointers designate. The slot's spinlock and wait channel are
      never read at the system-call boundary and are not modelled. */
  datatype MutexSlot = MutexSlot(flag: int, state: int)

  /** A process's mutex table: exactly `MutexCount` slots. */
  type MutexTable = t: seq<MutexSlot> | |t| == MutexCount
    witness seq(MutexCount, _ => MutexSlot(FlagUnlocked, StateUninit))

  /** A mutex id the boundary lets through its range test. */
  predicate ValidMutexId(id: int)
  {
    0 <= id < MutexCount
  }
}
