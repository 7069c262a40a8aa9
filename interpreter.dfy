/**
 * The parts of the interpreter plugin framework the Go loader talks to: process ids, the kind
 * tag of each interpreter, and the eBPF handler that owns the per-(kind, pid) proc-data map the
 * in-kernel unwinder reads.
 */
module Interpreter {
  import opened Wrappers
  import opened Errors

  /** `util.PID`, an unsigned 32-bit process id. */
  newtype PID = x: int | 0 <= x < 0x1_0000_0000

  /** `libpf.Address`, an unsigned 64-bit virtual address. */
  newtype Address = x: int | 0 <= x < 0x1_0000_0000_0000_0000

  /** `libpf.InterpreterType`: `Go`, and the kinds of the other interpreter plugins. */
  datatype InterpreterType = Go | OtherInterpreter(name: string)

  /** The key of one proc-data registration. */
  datatype ProcKey = ProcKey(kind: InterpreterType, pid: PID)

  /** One call made on the handler, with the error it returned (`None` is a nil error). */
  datatype ProcDataCall<Blob> =
    | UpdateCall(kind: InterpreterType, pid: PID, blob: Blob, result: Option<Error>)
    | DeleteCall(kind: InterpreterType, pid: PID, result: Option<Error>)

  /** The proc-data map after a successful `UpdateProcData`. */
  function Registered<Blob>(m: map<ProcKey, Blob>, kind: InterpreterType, pid: PID, blob: Blob)
    : (r: map<ProcKey, Blob>)
    ensures ProcKey(kind, pid) in r && r[ProcKey(kind, pid)] == blob
    ensures forall k :: k != ProcKey(kind, pid) ==> (k in r <==> k in m)
    ensures forall k :: k != ProcKey(kind, pid) && k in m ==> r[k] == m[k]
  {
    m[ProcKey(kind, pid) := blob]
  }

  /** The proc-data map after a successful `DeleteProcData`. */
  function Unregistered<Blob>(m: map<ProcKey, Blob>, kind: InterpreterType, pid: PID)
    : (r: map<ProcKey, Blob>)
    ensures ProcKey(kind, pid) !in r
    ensures forall k :: k != ProcKey(kind, pid) ==> (k in r <==> k in m)
    ensures forall k :: k != ProcKey(kind, pid) && k in m ==> r[k] == m[k]
  {
    m - {ProcKey(kind, pid)}
  }

  /** Deleting a key undoes registering it: only the state of other keys survives. */
  lemma UnregisterAfterRegister<Blob>(m: map<ProcKey, Blob>, kind: InterpreterType, pid: PID, blob: Blob)
    ensures Unregistered(Registered(m, kind, pid, blob), kind, pid) == Unregistered(m, kind, pid)
    ensures ProcKey(kind, pid) !in m ==> Unregistered(Registered(m, kind, pid, blob), kind, pid) == m
  {
  }

  /** Registrations under different keys do not interfere. */
  lemma RegisterDistinctKeysCommute<Blob>(m: map<ProcKey, Blob>, k1: InterpreterType, p1: PID, b1: Blob,
                                          k2: InterpreterType, p2: PID, b2: Blob)
    requires ProcKey(k1, p1) != ProcKey(k2, p2)
    ensures Registered(Registered(m, k1, p1, b1), k2, p2, b2)
         == Registered(Registered(m, k2, p2, b2), k1, p1, b1)
  {
  }

  /**
   * `interpreter.EbpfHandler`, as far as proc data goes: a map from (kind, pid) to the blob
   * the unwinder reads for that process. The kernel map update may fail for reasons outside
   * this model, so both calls may fail nondeterministically; a failed call leaves the map as
   * it was. `log` records every call and the error it returned.
   */
  class EbpfHandler<Blob> {
    var procData: map<ProcKey, Blob>
    ghost var log: seq<ProcDataCall<Blob>>

    constructor ()
      ensures procData == map[] && log == []
    {
      procData := map[];
      log := [];
    }

    /** Installs `blob` as the proc data of `(kind, pid)`. */
    method UpdateProcData(kind: InterpreterType, pid: PID, blob: Blob) returns (err: Option<Error>)
      modifies this
      ensures err.None? ==> procData == Registered(old(procData), kind, pid, blob)
      ensures err.Some? ==> procData == old(procData)
      ensures log == old(log) + [UpdateCall(kind, pid, blob, err)]
    {
      var rejection: Option<Error> := *;
      err := rejection;
      if err.None? {
        procData := procData[ProcKey(kind, pid) := blob];
      }
      log := log + [UpdateCall(kind, pid, blob, err)];
    }

    /** Removes the proc data of `(kind, pid)`. */
    method DeleteProcData(kind: InterpreterType, pid: PID) returns (err: Option<Error>)
      modifies this
      ensures err.None? ==> procData == Unregistered(old(procData), kind, pid)
      ensures err.Some? ==> procData == old(procData)
      ensures log == old(log) + [DeleteCall(kind, pid, err)]
    {
      var rejection: Option<Error> := *;
      err := rejection;
      if err.None? {
        procData := procData - {ProcKey(kind, pid)};
      }
      log := log + [DeleteCall(kind, pid, err)];
    }
  }
}
