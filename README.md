# Go runtime loader and online-CPU notation, modelled in Dafny

This project models two pieces of a continuous profiler's agent.

**The Go interpreter plugin** (`interpreter/golang/golang.go`). For each executable the agent
sees, `Loader` decides whether it is a Go binary whose runtime layout is known. It opens the
ELF file, reads the Go version, and looks that version up in the table of custom-labels
offsets. The resulting `data` record registers the offsets with the eBPF handler when a
process is attached, under the key `(Go, pid)`. It removes them again on detach.

- `Golang.Loader` is a pure function of three inputs: what `GetELF` returned, a
  `readGoVersion` oracle giving a version and a possibly nil error, and the `allOffsets` map.
- The eBPF handler is the class `Interpreter.EbpfHandler`. Its field `procData` is the
  per-(kind, pid) map that the in-kernel unwinder reads. A ghost `log` records every
  `UpdateProcData` and `DeleteProcData` call with the error it returned. Either call may
  fail for kernel reasons outside the model, so the model chooses the outcome
  nondeterministically.
- `Golang.Attach` and `Golang.Detach` are the methods of Go's `data` type, with the receiver
  `d` as an explicit first parameter. They modify that handler.
- `Errors.Is` models Go's `errors.Is` for single-cause unwrap chains: an error matches a
  sentinel when it is that sentinel or unwraps, step by step, to it. So a wrapped
  `NoGoVersion` sentinel is also a silent skip.

**The online-CPU list notation** (`onlineCPUsFor`, pinned down by `TestOnlineCPUsFor`).
`CpuInfo.OnlineCPUsFor` writes a list of CPU ids as comma-separated single ids and inclusive
`first-last` ranges, e.g. `[0,1,2,5,6,7]` becomes `0-2,5-7`. Each maximal run of consecutive
ids collapses into one range, runs of two included. `CpuInfo.ReadCPURange` reads the
notation back. The proved properties are these:

- every non-empty list round-trips through the notation;
- a strictly ascending list splits into ascending, non-touching ranges;
- such canonical ranges are the only way to write that list;
- each of the eight cases of the test table holds.

`Text` holds the decimal numerals and the one-character split/join the notation needs.

Three facts about the code shape the model:

- `Attach` applies no load bias. It registers the offsets unchanged and ignores `bias` and `rm`.
- The instance keeps no Detected/Attached/Detached state. A second `Detach` is not rejected:
  it just calls `DeleteProcData` again.
- The unsupported-version error is an untyped message (`fmt.Errorf`) naming the version,
  not a typed error.

## Model

| member | source | states |
|---|---|---|
| `Golang.Loader` | interpreter/golang/golang.go:40-64 | Data and error are never both set. Data and error are both nil exactly when the ELF opened and the version error unwraps to `NoGoVersion`. Data is returned only when there is no version error and the version is in `allOffsets`, and it holds that version with `allOffsets[version]`. |
| `Golang.LoaderElfFailure` | interpreter/golang/golang.go:40-44 | If `GetELF` fails, `Loader` returns exactly that error and no data. |
| `Golang.LoaderNotGo` | interpreter/golang/golang.go:45-49 | If `ReadGoVersion` returns `NoGoVersion` wrapped any number of times, `Loader` returns no data and no error: a silent skip. |
| `Golang.LoaderVersionError` | interpreter/golang/golang.go:50-52 | Any other `ReadGoVersion` error is returned unchanged, with no data. |
| `Golang.LoaderUnsupportedVersion` | interpreter/golang/golang.go:55-58 | A detected version with no `allOffsets` entry yields no data and a non-nil error whose message ends with that version. It never yields `(nil, nil)`. |
| `Golang.LoaderSupportedVersion` | interpreter/golang/golang.go:55-63 | A detected version with an `allOffsets` entry yields exactly `data{version, allOffsets[version]}` and a nil error. |
| `Golang.NoOffsetsMessage` | interpreter/golang/golang.go:57 | The unsupported-version message ends with the version it names. |
| `Golang.Attach` | interpreter/golang/golang.go:26-34 | Appends exactly one `UpdateProcData(Go, pid, d.offsets)` call to the handler's log. The error that call returns is the error `Attach` returns. On failure there is no instance and the map is unchanged. On success the instance is a copy of `d` and the map gains `(Go, pid) -> d.offsets`. `bias` and `rm` play no part. |
| `Golang.Detach` | interpreter/golang/golang.go:36-38 | Appends exactly one `DeleteProcData(Go, pid)` call to the log and returns its error unchanged. On success only the `(Go, pid)` entry is removed. On failure the map is unchanged. |
| `Interpreter.EbpfHandler.UpdateProcData` | interpreter/golang/golang.go:29 | The handler either installs the blob under `(kind, pid)` and returns nil, or returns an error and leaves the map unchanged. Either way the call is logged. |
| `Interpreter.EbpfHandler.DeleteProcData` | interpreter/golang/golang.go:37 | The handler either removes `(kind, pid)` and returns nil, or returns an error and leaves the map unchanged. Either way the call is logged. |
| `Interpreter.Registered` | interpreter/golang/golang.go:29 | After a registration, the key maps to the blob, and every other key is present with the same value exactly when it was before. |
| `Interpreter.Unregistered` | interpreter/golang/golang.go:37 | After a removal, the key is absent, and every other key is present with the same value exactly when it was before. |
| `Interpreter.UnregisterAfterRegister` | interpreter/golang/golang.go:26-38 | A detach after an attach of the same pid leaves the map as a detach alone would. If the pid was not registered before, the map is back to what it was. |
| `Interpreter.RegisterDistinctKeysCommute` | interpreter/golang/golang.go:29 | Registrations under different `(kind, pid)` keys commute. |
| `Errors.IsThroughWrapping` | interpreter/golang/golang.go:46 | `errors.Is` still finds a sentinel however many layers of wrapping surround it. |
| `CpuInfo.OnlineCPUsFor` | hostmetadata/host/cpuinfo_test.go:90-114 | For ids in `0..7`, a non-empty list's notation reads back as exactly that list, and the empty list gives the empty string. |
| `CpuInfo.ReadCPURange` | hostmetadata/host/cpuinfo_test.go:76-83 | A successful read always yields a non-empty id list, and the empty string is rejected. |
| `CpuInfo.RunLengthIsRun` | hostmetadata/host/cpuinfo_test.go:100 | The head run is `ids[0], ids[0]+1, ...` and is maximal: the next id does not continue it. |
| `CpuInfo.Ranges` | hostmetadata/host/cpuinfo_test.go:100-105 | Every range has `first <= last`. There are no more ranges than ids, and none exactly when there are no ids. The first range starts at the first id. |
| `CpuInfo.ExpandRanges` | hostmetadata/host/cpuinfo_test.go:101-105 | The ranges written out denote exactly the input ids, in input order. |
| `CpuInfo.RangesCanonical` | hostmetadata/host/cpuinfo_test.go:101-105 | For a strictly ascending list, the ranges ascend, and there is a gap of at least one id between neighbours. So adjacent ids never end up in separate ranges. |
| `CpuInfo.RangesOfCanonical` | hostmetadata/host/cpuinfo_test.go:101-105 | Canonical ranges are recovered from the ids they denote, so the notation of a set of ids is unique. |
| `CpuInfo.EncodeRoundTrip` | hostmetadata/host/cpuinfo_test.go:97-106 | `ReadCPURange` of the notation of any non-empty id list is that list. |
| `CpuInfo.EncodeSingle` | hostmetadata/host/cpuinfo_test.go:98 | A single id is written as the bare number. |
| `CpuInfo.EncodeApart` | hostmetadata/host/cpuinfo_test.go:99 | Two non-consecutive ids are written as `a,b`. |
| `CpuInfo.EncodeAdjacentPair` | hostmetadata/host/cpuinfo_test.go:103-105 | Two consecutive ids are written as `a-b`, never `a,b`. |
| `CpuInfo.EncodeRun` | hostmetadata/host/cpuinfo_test.go:100 | A run of consecutive ids of any length is written as `first-last`. |
| `CpuInfo.OneCPUOnly` | hostmetadata/host/cpuinfo_test.go:98 | `[3]` gives `3`. |
| `CpuInfo.AComma` | hostmetadata/host/cpuinfo_test.go:99 | `[3,5]` gives `3,5`. |
| `CpuInfo.ARange` | hostmetadata/host/cpuinfo_test.go:100 | `[0,1,2,3]` gives `0-3`. |
| `CpuInfo.ARangeAndSingle` | hostmetadata/host/cpuinfo_test.go:101 | `[0,1,2,5]` gives `0-2,5`. |
| `CpuInfo.TwoRanges` | hostmetadata/host/cpuinfo_test.go:102 | `[0,1,2,5,6,7]` gives `0-2,5-7`. |
| `CpuInfo.RangesAndCommas` | hostmetadata/host/cpuinfo_test.go:103 | `[1,2,4,6,7]` gives `1-2,4,6-7`. |
| `CpuInfo.MultipleComma` | hostmetadata/host/cpuinfo_test.go:104 | `[1,2,4,7]` gives `1-2,4,7`. |
| `CpuInfo.MultipleMixesMultipleTimes` | hostmetadata/host/cpuinfo_test.go:105 | `[0,1,3,4,6,7]` gives `0-1,3-4,6-7`. |

## Left out

- ELF parsing and the body of `ReadGoVersion` are not part of this model. `GetELF`'s result is
  an input, and `readGoVersion` is an oracle returning a version and a possibly nil error.
- The contents of `allOffsets` and the layout of the C struct `GoCustomLabelsOffsets` are cgo
  data. `Offsets` is an opaque record and `allOffsets` an arbitrary map.
- The real kernel map update and the `unsafe.Pointer` hand-over are not modelled. The handler
  stores the `Offsets` value itself. Why the kernel might refuse an update or a delete is
  not modelled either: the outcome is chosen nondeterministically.
- `Loader`'s eBPF-handler parameter is unnamed in the source and never used, so the model
  leaves it out. This is how the model shows that `Loader` never touches the handler.
- Debug logging in `Loader` has no behavioural content and is left out.
- The other `interpreter.Instance` methods come from the embedded `InstanceStubs`, which is not
  part of this model.
- Concurrency between attach and detach for different pids is left out. Calls are sequential.
- `support/support_amd64.go` only embeds the eBPF object file and holds no logic.
- `readCPUInfo` and the sysfs and `/proc` reads checked in `TestReadCPUInfo` are host I/O and
  are left out.
- `OnlineCPUsFor`: the `siblings` argument is kept but has no effect. No filtering by it is
  modelled, and the ids are required to lie in `0..7`, the range every tested id falls in.
  The result for the empty list and for unsorted or repeated ids is not pinned down by the
  tests; the model gives `""` for the empty list. The model still
  gives such lists a notation that reads back as the same list, but the canonical-form
  lemmas assume strictly ascending ids.
- `ReadCPURange`: the bodies of `readCPURange` and `onlineCPUsFor` are not part of the
  sources. The decoder reads the Linux online-CPU list notation. Each comma-separated piece
  is `n` or `first-last` with `first <= last`. Anything else, including the empty string, is
  an error. Whatever whitespace handling and integer width the real parser has are not
  modelled: `ParseNat` is unbounded and accepts leading zeros.
- `Errors.Is`: Go compares `errors.New` sentinels by identity, while the model identifies a
  sentinel by its name. Go's `errors.Is` also honours an error's own `Is(error) bool` method
  and `Unwrap() []error` with several causes; neither occurs on the loader's path, and
  neither is modelled.
