/**
 * The Go interpreter plugin: `Loader` decides whether an executable is a Go binary whose
 * runtime layout is known, and the resulting `Data` registers that layout (the custom-labels
 * offsets) with the eBPF handler when a process is attached and removes it on detach.
 */
module Golang {
  import opened Wrappers
  import opened Errors
  import opened Interpreter

  /**
   * `C.GoCustomLabelsOffsets`: the byte offsets of the runtime structures the unwinder follows
   * to find a goroutine's custom labels. Their layout is cgo data outside this model, so the
   * record is kept opaque.
   */
  datatype Offsets = Offsets(fields: seq<int>)

  /** The sentinel `ReadGoVersion` returns (possibly wrapped) when the file is not a Go binary. */
  const NoGoVersion: Error := Sentinel("NoGoVersion")

  /** A handle on an opened ELF file; its contents are only seen through `ReadGoVersion`. */
  datatype ElfFile = ElfFile(path: string)

  /** `interpreter.LoaderInfo`: the file name and what `GetELF` returns for it. */
  datatype LoaderInfo = LoaderInfo(fileName: string, elf: Result<ElfFile, Error>)

  /** What `ReadGoVersion` returns: a version string and a possibly nil error. */
  datatype VersionRead = VersionRead(goVersion: string, err: Option<Error>)

  /** The `(interpreter.Data, error)` pair `Loader` returns; `None` stands for nil. */
  datatype LoaderResult = LoaderResult(data: Option<Data>, err: Option<Error>)

  /** The message of the error `Loader` returns for a version with no offsets table. */
  function NoOffsetsMessage(goVersion: string): (msg: string)
    ensures |msg| >= |goVersion| && msg[|msg| - |goVersion|..] == goVersion
  {
    "No offsets found for go version " + goVersion
  }

  /** Go's data for one detected binary: its version and that version's offsets. */
  datatype Data = Data(goVersion: string, offsets: Offsets)

  /**
   * `data.Attach`: registers the offsets of `d` for `pid` under the `Go` kind. `bias` and `rm`
   * are not used: the offsets are handed over as they are. The instance returned is a copy
   * of `d`.
   */
  method Attach(d: Data, ebpf: EbpfHandler<Offsets>, pid: PID, bias: Address, rm: RemoteMemory)
    returns (inst: Option<Data>, err: Option<Error>)
    modifies ebpf
    ensures ebpf.log == old(ebpf.log) + [UpdateCall(Go, pid, d.offsets, err)]
    ensures err.Some? ==> inst.None? && ebpf.procData == old(ebpf.procData)
    ensures err.None? ==> inst == Some(d)
    ensures err.None? ==> ebpf.procData == Registered(old(ebpf.procData), Go, pid, d.offsets)
  {
    var updateErr := ebpf.UpdateProcData(Go, pid, d.offsets);
    if updateErr.Some? {
      return None, updateErr;
    }
    return Some(d), None;
  }

  /** `data.Detach`: removes the registration of `pid` under the `Go` kind, returning the
      handler's error. */
  method Detach(d: Data, ebpf: EbpfHandler<Offsets>, pid: PID) returns (err: Option<Error>)
    modifies ebpf
    ensures ebpf.log == old(ebpf.log) + [DeleteCall(Go, pid, err)]
    ensures err.None? ==> ebpf.procData == Unregistered(old(ebpf.procData), Go, pid)
    ensures err.Some? ==> ebpf.procData == old(ebpf.procData)
  {
    err := ebpf.DeleteProcData(Go, pid);
  }

  /** `remotememory.RemoteMemory`, the reader of a process's memory; `Attach` does not use it. */
  datatype RemoteMemory = RemoteMemory(pid: PID)

  /**
   * `Loader`: classifies one executable. The eBPF handler is not a parameter because `Loader`
   * ignores it. `readGoVersion` is `ReadGoVersion` and `allOffsets` the table of supported
   * versions.
   */
  function Loader(info: LoaderInfo, readGoVersion: ElfFile -> VersionRead,
                  allOffsets: map<string, Offsets>): (r: LoaderResult)
    // exactly one of data and error is set, except for the silent skip of a non-Go binary
    ensures r.data.Some? ==> r.err.None?
    ensures r.data.None? && r.err.None? <==>
              info.elf.Success? && var v := readGoVersion(info.elf.value);
              v.err.Some? && Is(v.err.value, NoGoVersion)
    // data is only ever returned for a version in the table, with that version's offsets
    ensures r.data.Some? ==>
              info.elf.Success? && readGoVersion(info.elf.value).err.None?
              && r.data.value.goVersion == readGoVersion(info.elf.value).goVersion
              && r.data.value.goVersion in allOffsets
              && r.data.value.offsets == allOffsets[r.data.value.goVersion]
  {
    match info.elf
    case Failure(err) => LoaderResult(None, Some(err))
    case Success(file) =>
      var v := readGoVersion(file);
      if v.err.Some? && Is(v.err.value, NoGoVersion) then
        LoaderResult(None, None)
      else if v.err.Some? then
        LoaderResult(None, v.err)
      else if v.goVersion !in allOffsets then
        LoaderResult(None, Some(Message(NoOffsetsMessage(v.goVersion))))
      else
        LoaderResult(Some(Data(v.goVersion, allOffsets[v.goVersion])), None)
  }

  /** If `GetELF` fails, that error is returned and no data. */
  lemma LoaderElfFailure(info: LoaderInfo, readGoVersion: ElfFile -> VersionRead,
                         allOffsets: map<string, Offsets>)
    requires info.elf.Failure?
    ensures Loader(info, readGoVersion, allOffsets) == LoaderResult(None, Some(info.elf.error))
  {
  }

  /** A binary `ReadGoVersion` reports as not Go, however the sentinel is wrapped, is skipped
      silently: no data and no error. */
  lemma LoaderNotGo(info: LoaderInfo, readGoVersion: ElfFile -> VersionRead,
                    allOffsets: map<string, Offsets>, context: string, depth: nat)
    requires info.elf.Success?
    requires readGoVersion(info.elf.value).err == Some(WrapN(NoGoVersion, context, depth))
    ensures Loader(info, readGoVersion, allOffsets) == LoaderResult(None, None)
  {
    IsThroughWrapping(NoGoVersion, NoGoVersion, context, depth);
  }

  /** Any other `ReadGoVersion` error is returned unchanged, with no data. */
  lemma LoaderVersionError(info: LoaderInfo, readGoVersion: ElfFile -> VersionRead,
                           allOffsets: map<string, Offsets>)
    requires info.elf.Success?
    requires readGoVersion(info.elf.value).err.Some?
    requires !Is(readGoVersion(info.elf.value).err.value, NoGoVersion)
    ensures Loader(info, readGoVersion, allOffsets)
         == LoaderResult(None, readGoVersion(info.elf.value).err)
  {
  }

  /** A detected version with no offsets table is an error naming that version, never the
      silent skip. */
  lemma LoaderUnsupportedVersion(info: LoaderInfo, readGoVersion: ElfFile -> VersionRead,
                                 allOffsets: map<string, Offsets>)
    requires info.elf.Success?
    requires readGoVersion(info.elf.value).err.None?
    requires readGoVersion(info.elf.value).goVersion !in allOffsets
    ensures var r := Loader(info, readGoVersion, allOffsets);
            var v := readGoVersion(info.elf.value).goVersion;
            r.data.None? && r.err.Some? && r.err.value.Message?
            && |r.err.value.text| >= |v|
            && r.err.value.text[|r.err.value.text| - |v|..] == v
  {
  }

  /** A detected version with an offsets table yields exactly that version and its offsets. */
  lemma LoaderSupportedVersion(info: LoaderInfo, readGoVersion: ElfFile -> VersionRead,
                               allOffsets: map<string, Offsets>)
    requires info.elf.Success?
    requires readGoVersion(info.elf.value).err.None?
    requires readGoVersion(info.elf.value).goVersion in allOffsets
    ensures var v := readGoVersion(info.elf.value).goVersion;
            Loader(info, readGoVersion, allOffsets) == LoaderResult(Some(Data(v, allOffsets[v])), None)
  {
  }
}
