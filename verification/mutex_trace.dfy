/** A process's mutex system calls taken one after another: the boundary
    checks each call against the table as the previous calls left it, and
    only the calls it lets through reach the kernel operations. */
module MutexTrace {
  import opened Spinlock
  import opened Syscall
  import opened MutexBoundary

  /** One mutex system call: its entry point and what `argint(0, ...)`
      reported for its id. */
  datatype MutexCall = MutexCall(op: MutexOp, arg: ArgFetch)

  /** The table after a run of calls, each call's return value, and the
      kernel operations the boundary let through, in order. */
  datatype Trace = Trace(table: MutexTable, results: seq<int>, dispatched: seq<MutexOutcome>)

  /** Runs `calls` from `table`, with `kernel` standing for the kernel mutex
      operations. */
  function Run(table: MutexTable, calls: seq<MutexCall>, kernel: KernelMutex): (t: Trace)
    ensures |t.results| == |calls|
    ensures |t.dispatched| <= |calls|
    ensures forall k :: 0 <= k < |t.dispatched| ==>
              t.dispatched[k].Dispatch? && ValidMutexId(t.dispatched[k].id)
    decreases |calls|
  {
    if calls == [] then Trace(table, [], [])
    else
      var o := SysMutex(calls[0].op, table, calls[0].arg);
      var step := MutexStep(calls[0].op, table, calls[0].arg, kernel);
      var rest := Run(step.table, calls[1..], kernel);
      Trace(rest.table, [step.ret] + rest.results,
            (if o.Dispatch? then [o] else []) + rest.dispatched)
  }

  /** A call the boundary rejects leaves no trace: the run continues from
      the same table as if the call had not been made, and the call
      itself returns -1. */
  lemma RejectedCallInvisible(table: MutexTable, c: MutexCall, calls: seq<MutexCall>, kernel: KernelMutex)
    requires SysMutex(c.op, table, c.arg).Reject?
    ensures Run(table, [c] + calls, kernel) ==
            var rest := Run(table, calls, kernel);
            Trace(rest.table, [-1] + rest.results, rest.dispatched)
  {
  }

  /** A run in which the boundary rejects every call, checked against the
      starting table, never changes that table, never reaches a kernel
      operation and returns -1 from every call. */
  lemma {:induction false} RejectedRunKeepsTable(table: MutexTable, calls: seq<MutexCall>, kernel: KernelMutex)
    requires forall k :: 0 <= k < |calls| ==> SysMutex(calls[k].op, table, calls[k].arg).Reject?
    ensures Run(table, calls, kernel).table == table
    ensures Run(table, calls, kernel).dispatched == []
    ensures forall k :: 0 <= k < |calls| ==> Run(table, calls, kernel).results[k] == -1
    decreases |calls|
  {
    if calls != [] {
      assert SysMutex(calls[0].op, table, calls[0].arg).Reject?;
      var rest := calls[1..];
      assert forall k :: 0 <= k < |rest| ==> rest[k] == calls[k + 1];
      RejectedRunKeepsTable(table, rest, kernel);
    }
  }

  /** A run whose every call names an id outside 0..31 reaches no kernel
      operation and leaves the table as it found it, whatever the table
      holds and whatever the fetch statuses were. */
  lemma {:induction false} OutOfRangeRunReachesNoKernel(table: MutexTable, calls: seq<MutexCall>, kernel: KernelMutex)
    requires forall k :: 0 <= k < |calls| ==> !ValidMutexId(calls[k].arg.value)
    ensures Run(table, calls, kernel).table == table
    ensures Run(table, calls, kernel).dispatched == []
    decreases |calls|
  {
    if calls != [] {
      IdRangeCheckedBeforeSlotRead(calls[0].op, table, table, calls[0].arg);
      var rest := calls[1..];
      assert forall k :: 0 <= k < |rest| ==> rest[k] == calls[k + 1];
      OutOfRangeRunReachesNoKernel(table, rest, kernel);
    }
  }
}
