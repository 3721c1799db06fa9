# procreader: the `docker top` metric layer, in Dafny

This project models the ps / `docker top` metric layer of procreader's
`examples/proc_read_dockerfields.go`. That layer turns one parsed `/proc`
record of a process (its `stat` and `status` fields and its `cmdline`) into
the columns of `ps -o c,comm,command,cputime,...`:

- the controlling terminal (`getTty`): the 32-bit device number is decoded
  into a 12-bit major and a 20-bit minor, and the device is named from the
  first matching row of the kernel's tty driver table, whose lines are read
  as `getTtyMajorMinor` reads them;
- the scheduler state name (`getState`) and the state flags
  (`getStateFlags`);
- the command line (`formatCommand`);
- CPU percentage, the `C` column and memory percentage (`calculatePcpu`,
  `calculateC`, `calculatePmem`, with `getHertz` = 100);
- the record itself (`toDocker`).

What the layer reads from `/proc` arrives as parameters:

- the system uptime, in whole seconds, as the code truncates it;
- the total memory, in kB;
- the lines of `/proc/tty/drivers`.

Go's integer widths are explicit:

- `uint32(tty_nr)` keeps the low 32 bits.
- `Utime + Stime` wraps at 2^64, and so does `total_time * 100`.
- `int64(Tgid)` reinterprets the top bit.

Division by zero keeps its IEEE result (`+Inf` or `NaN`).

Modules, one file each: `Wrappers` (Option, Result, the stop-at-first-error
loop), `Ints` (Go integer widths), `Text` (what `fmt` and `strings` do to the
text involved), `ProcRecord` (the record and three fixture processes of
`procreader_test.go`), `Tty` and `TtyProperties` (tty.dfy), `Metrics`,
`State`, `Command` and `DockerTopRecord`.

Where the code and a plain description of it part ways, the functions
that model the code follow the code (`Metrics.CalculatePcpu`,
`Metrics.CalculateC`, `State.StateFlags`, `Tty.ParseMinors`):

- `calculatePcpu` does not clamp the percentage; only `calculateC` does.
- `getStateFlags` does not deduplicate; it appends `lock` twice.
- A minors field such as `5x` is not an error: `%d-%d` scans one number,
  and the row covers the single minor 5.

The record of `DockerTopRecord.Columns` and `DockerTopRecord.ToDocker` is
the exception: it is built from the corrected definitions of the two
Findings below, not from the code's.

## Model

| member | source | states |
|---|---|---|
| Ints.ToInt64 | examples/proc_read_dockerfields.go:332 | `int64(Tgid)`: the same number below 2^63, the number minus 2^64 above |
| Ints.AddU64 | examples/proc_read_dockerfields.go:177 | `Utime + Stime` in `uint64`: the sum modulo 2^64, equal to the sum when it fits |
| Wrappers.AllOk | examples/proc_read_dockerfields.go:237-261 | the line loop's outcome: all values in order iff every step succeeded, otherwise the error of the first failing step |
| Wrappers.AllOkFirstErr | examples/proc_read_dockerfields.go:244-258 | the error reported is the first failing line's |
| Text.DecimalRoundTrip | examples/proc_read_dockerfields.go:293-295 | the digits `%d` writes read back as the number |
| Text.LeadingDigitsOf | examples/proc_read_dockerfields.go:252 | `%d` consumes exactly the leading digits |
| Text.FieldsOfJoin | examples/proc_read_dockerfields.go:242-243 | words joined by spaces scan back, as `%s` tokens, as the same words |
| Text.FieldsAreWords | examples/proc_read_dockerfields.go:242-243 | every token `%s` reads is non-empty and free of white space |
| Text.SplitJoin | examples/proc_read_dockerfields.go:351-352 | splitting a join at a separator no item holds gives the items back |
| Text.SplitPiecesLackSep | examples/proc_read_dockerfields.go:351-352 | no piece of a split holds the separator |
| Text.TrimPrefix | examples/proc_read_dockerfields.go:298 | one leading prefix is removed when present; otherwise the text is unchanged |
| Tty.UnpackPack | examples/proc_read_dockerfields.go:278-280 | unpacking the kernel's packing of a 12-bit major and a 20-bit minor gives them back |
| Tty.PackUnpack | examples/proc_read_dockerfields.go:278-280 | every 32-bit number unpacks to a major of at most 0xfff and a minor of at most 0xfffff that pack back to it |
| Tty.Decode | examples/proc_read_dockerfields.go:278-280 | the major and minor of `uint32(tty_nr)` are within 12 and 20 bits |
| Tty.DecodePack | examples/proc_read_dockerfields.go:278-280 | decoding a packed device gives the device |
| Tty.ParseMinors | examples/proc_read_dockerfields.go:252-258 | a minors field is an error (`BadMinorRange`) exactly when it does not start with a number below 2^32; otherwise the range starts at that number (its end is pinned by `TtyProperties.MinorsRoundTrip` and `MinorsTrailingTextIgnored`) |
| Tty.ParseDriverLine | examples/proc_read_dockerfields.go:242-258 | a line with fewer than five tokens, a third token that is not all digits, or a major of 2^32 or more is a scan error; otherwise a minors field that does not scan is the line's error, `BadMinorRange`; a parsed row's name, node and type are single tokens |
| TtyProperties.ParseOfFields | examples/proc_read_dockerfields.go:242-258 | a line of five or more tokens with a 32-bit major and scannable minors reads as the row of its first five tokens; later tokens are not read |
| Tty.ParseDriverTable | examples/proc_read_dockerfields.go:237-263 | the append loop returns every row in order, or stops at the first bad line with its error |
| Tty.FirstMatch | examples/proc_read_dockerfields.go:287-288 | none iff no row holds the device; otherwise the first row that holds it |
| Tty.FirstMatchStep | examples/proc_read_dockerfields.go:287-300 | one iteration of the search: no match so far, then row `i` decides |
| Tty.LookupTty | examples/proc_read_dockerfields.go:287-305 | the search loop returns the first matching row's name, `"?"` when none matches |
| Tty.GetTty | examples/proc_read_dockerfields.go:267-306 | `"?"` for `tty_nr` 0 before any table is read; otherwise the table's error or the looked-up name |
| TtyProperties.MinorsRoundTrip | examples/proc_read_dockerfields.go:252-258 | `a` reads as the range a..a and `a-b` as a..b, with `a <= b` not required |
| TtyProperties.MinorsTrailingTextIgnored | examples/proc_read_dockerfields.go:252-254 | text after the first number that is not `-` and a number is ignored: a single minor |
| TtyProperties.MinorsNeedLeadingNumber | examples/proc_read_dockerfields.go:255-257 | a minors field that does not start with a digit is an error |
| TtyProperties.DriverLineRoundTrip | examples/proc_read_dockerfields.go:242-258 | every well-formed row, written as a table line, parses back as itself |
| TtyProperties.ParsedRowIsCanonical | examples/proc_read_dockerfields.go:242-258 | any parsed line re-renders to a canonical line that parses to the same row |
| TtyProperties.ShortLineRejected | examples/proc_read_dockerfields.go:242-251 | a line of fewer than five tokens is an error, whatever the tokens |
| TtyProperties.DriverTableRoundTrip | examples/proc_read_dockerfields.go:237-263 | a table of well-formed rows, written out line by line, reads back as the same table |
| TtyProperties.FirstMatchWins | examples/proc_read_dockerfields.go:287-299 | rows after the first match are never consulted |
| TtyProperties.NonMatchingRowsSkipped | examples/proc_read_dockerfields.go:287-288 | rows that do not hold the device change no name, wherever they stand in front |
| TtyProperties.NoRowNoName | examples/proc_read_dockerfields.go:305 | without a matching row the name is `"?"` |
| TtyProperties.TtyNameOfPacked | examples/proc_read_dockerfields.go:274-288 | a packed non-zero device number is looked up as the device it packs |
| TtyProperties.SingleMinorName | examples/proc_read_dockerfields.go:289-291 | any single-minor row names its device after its node, with one leading `/dev/` removed |
| TtyProperties.RangedName | examples/proc_read_dockerfields.go:292-298 | any ranged row with node `/dev/<base>` names minor m `<base>/<m - min>` for `/dev/pts` and `/dev/ptm`, `<base><m - min>` otherwise |
| TtyProperties.RangedNameOffset | examples/proc_read_dockerfields.go:292-298 | the minor reads back from any ranged row's name: the base (and `/`) then the decimal offset from the row's first minor |
| TtyProperties.PtySlaveName | examples/proc_read_dockerfields.go:292-298 | minor k of the `/dev/pts` row is named `pts/k`: separator added, `/dev/` removed |
| TtyProperties.PtsNameRoundTrip | examples/proc_read_dockerfields.go:292-298 | the minor reads back from every pseudo-terminal name |
| TtyProperties.PtsExample | procreader_test.go:27 | the fixture's `tty_nr` 34817 is major 136, minor 1, named `pts/1` |
| TtyProperties.ConsoleExample | examples/proc_read_dockerfields.go:289-291 | a single-minor row keeps its node's name (`console`) |
| TtyProperties.SerialExample | examples/proc_read_dockerfields.go:294-295 | a ranged row appends the minor's offset with no separator (`ttyS1`) |
| TtyProperties.UnknownMajorExample | examples/proc_read_dockerfields.go:305 | a major no row lists is `"?"` |
| TtyProperties.ResolveExamples | examples/proc_read_dockerfields.go:274-306 | the example table read from text names the fixture's terminal `pts/1`; `tty_nr` 0 is `"?"` whatever the table |
| Metrics.Quotient | examples/proc_read_dockerfields.go:180 | float division of non-negatives: finite iff the divisor is non-zero, `NaN` iff both are zero |
| Metrics.CpuSeconds | examples/proc_read_dockerfields.go:367 | CPU time times `Hertz` is the wrapped tick total |
| Metrics.CalculatePcpu | examples/proc_read_dockerfields.go:162-187 | 0 when the start lies after the uptime; finite iff the elapsed seconds are non-zero; then the percentage ticks per elapsed second |
| Metrics.PcpuDivisionByZero | examples/proc_read_dockerfields.go:178-180 | at zero elapsed seconds the result is `+Inf`, or `NaN` when the percent ticks, taken modulo 2^64, are 0 |
| Metrics.PcpuDivisionByZeroExample | procreader_test.go:27 | the fixture shell read at uptime 1311 s gets `+Inf` |
| Metrics.Pcpu | examples/proc_read_dockerfields.go:177-184 | the guarded percentage: non-negative, 0 unless a second has elapsed, else the code's value |
| Metrics.PcpuAgrees | examples/proc_read_dockerfields.go:177-184 | wherever the code's percentage is finite, the guarded one equals it |
| Metrics.PcpuMeaning | examples/proc_read_dockerfields.go:177-180 | without wrap-around, percentage times elapsed seconds is 100 times the CPU seconds |
| Metrics.PcpuMonotone | examples/proc_read_dockerfields.go:177-180 | more CPU ticks (`Utime + Stime`) never lower the percentage, as long as the larger total times 100 stays below 2^64 |
| Metrics.PcpuNotClamped | examples/proc_read_dockerfields.go:162-187 | the percentage is not clamped (200 for 20 CPU seconds over 10 s), while `C` is 99 |
| Metrics.TruncateClamped | examples/proc_read_dockerfields.go:154-157 | at most 99; the floor of the value below 99; 99 from 99 up |
| Metrics.TruncateClampedMonotone | examples/proc_read_dockerfields.go:154-157 | clamping and truncating keep the order |
| Metrics.CalculateC | examples/proc_read_dockerfields.go:148-160 | at most 99; the truncated clamped percentage when finite; 99 for `+Inf`; undefined exactly for `NaN` |
| Metrics.C | examples/proc_read_dockerfields.go:148-160 | always defined, at most 99, and the code's value wherever the percentage is finite |
| Metrics.CalculatePmem | examples/proc_read_dockerfields.go:189-204 | finite values lie in [0, 99.9]; `NaN` iff both sizes are 0; never `+Inf`; below the clamp, value times total is 100 times resident |
| Metrics.PercentScale | examples/proc_read_dockerfields.go:197-199 | the clamp test `rss/total*100 > 99.9` is `1000 rss > 999 total` |
| Metrics.PmemMonotone | examples/proc_read_dockerfields.go:197-201 | more resident memory never lowers the percentage |
| Metrics.PmemExample | procreader_test.go:29 | the fixture shell's 3940 kB on a 1000000 kB machine is 0.394 per cent |
| State.StateName | examples/proc_read_dockerfields.go:206-221 | `unknown` exactly for the letters other than R, S, D, Z and T |
| State.StateNameRoundTrip | examples/proc_read_dockerfields.go:206-221 | each known letter has its own name, which maps back to it; `unknown` maps to no letter |
| State.StateExample | procreader_test.go:27-43 | the fixture shell is `sleeping`, the script `running` |
| State.StateFlags | examples/proc_read_dockerfields.go:309-348 | the appended flags are the words of the seven tests, in order, selected by their conditions |
| State.SelectedCount | examples/proc_read_dockerfields.go:309-348 | a word occurs in a selection once per selected position naming it; the length is the number of conditions that hold |
| State.StateFlagsFacts | examples/proc_read_dockerfields.go:309-348 | each word appears iff its condition holds; never both `low` and `high`; `lock` 0 or 2 times; at most 6 words |
| State.FlagCount | examples/proc_read_dockerfields.go:309-348 | how often each word occurs, per condition |
| State.LockFlagTwice | examples/proc_read_dockerfields.go:322-330 | with locked memory, two adjacent entries are both `lock` |
| State.PsStateFlags | examples/proc_read_dockerfields.go:309-348 | the flags with `lock` tested once: at most six words |
| State.PsStateFlagsFacts | examples/proc_read_dockerfields.go:309-348 | the corrected flags hold the same words as the code's, none twice, at most 5 |
| State.CodeFlagsRepeatLock | examples/proc_read_dockerfields.go:322-330 | the code's flags are the corrected flags with a second `lock` inserted right after the first |
| State.FlagsExample | examples/proc_read_dockerfields.go:312-345 | a niced, locking, threaded foreground leader gets `low lock lock leader threads foreground` |
| State.PsFlagsExample | examples/proc_read_dockerfields.go:312-345 | the same process gets `lock` once from the corrected flags |
| State.FixtureFlagsExample | procreader_test.go:27-43 | under the corrected flags (`State.PsStateFlags`) the fixture shell leads its session (`leader`) and the script has no flags |
| Command.FormatCommand | examples/proc_read_dockerfields.go:350-355 | without arguments, the name in brackets, recoverable from the result; with arguments none of which holds a space, splitting the command at spaces gives the arguments back |
| Command.CommandRoundTrip | examples/proc_read_dockerfields.go:350-352 | the arguments split back out of the command iff none of them holds a space |
| Command.SpaceInArgumentIsLost | examples/proc_read_dockerfields.go:350-352 | one argument holding a space and the same text as two arguments give the same command |
| Command.CommandExamples | procreader_test.go:30-59 | the fixture shell's command is `-bash`, the daemon's `/usr/sbin/sshd`; any process named `kthreadd` without arguments shows `[kthreadd]` |
| Command.ScriptCommandAmbiguous | procreader_test.go:44 | the fixture script's command does not split back into its arguments |
| DockerTopRecord.Columns | examples/proc_read_dockerfields.go:361-396 | every column is named: `Lwp = Pid`; `Comm`, `Nice`, `Pgid`, `Ppid` and `Psr` copied from `stat`; `Gid`/`Rgid`, `Uid`/`Ruid`, `Rss` and `Vsz` from `status` (effective and real ids); `Command` the formatted command; `State` the state name; `Cputime` the CPU seconds (times `Hertz` the tick total); `Pmem` the memory percentage in [0, 99.9]; `pcpu`, `C` and the flags the corrected ones of the Findings, the flags without repeats |
| DockerTopRecord.PcpuColumnMeaning | examples/proc_read_dockerfields.go:367-375 | without wrap-around, the percentage column times elapsed seconds is 100 times the CPU-time column |
| DockerTopRecord.ToDocker | examples/proc_read_dockerfields.go:357-397 | an error iff the process has a terminal and the driver table does not parse, with that table's error; otherwise the columns with the terminal's name, `"?"` for none |
| DockerTopRecord.ShellColumnsExample | procreader_test.go:27-30 | the fixture shell at uptime 1400 s: `-bash`, `sleeping`, `leader`, percentage 61/89, `C` 0, memory 0.394 |
| DockerTopRecord.ShellRecordExample | procreader_test.go:27 | with the example table as text, the fixture shell's record names its terminal `pts/1` |

## Left out

- Reading `/proc`: `getUptime`, `getSystemMemory`, and the file open and line scanner of `getTtyMajorMinor`. Uptime, total memory and the table's lines are parameters; `NoNewlines` stands for the scanner's splitting into lines. Their I/O and parse errors are not modelled.
- `getStartTime` and `getSystemStartTime`, and with them the `Start_time` column. They depend on the wall clock, and they subtract a tick count from epoch seconds, mixing units.
- Floating point: percentages, CPU time and the clamps are computed over exact reals. `float32` and `float64` rounding is not modelled; only the IEEE results of dividing by zero (`+Inf`, `NaN`) are.
- `calculateC` and `calculatePcpu` each read the uptime separately. The model gives both the same uptime.
- Metrics.CalculateC: a `NaN` percentage gives `None`. Go leaves the `uint64` value of `NaN` to the platform.
- DockerTopRecord.Columns: differs from the record the code builds in three columns. `pcpu` and `C` come from `Metrics.Pcpu` and `Metrics.C`, which give 0 and 0 at zero elapsed seconds where the code gives `+Inf` (or `NaN`) and 99. `State_flags` comes from `State.PsStateFlags`, which lists `lock` once where the code lists it twice. The code's values for these columns are `Metrics.CalculatePcpu`, `Metrics.CalculateC` and `State.StateFlags`.
- DockerTopRecord.ToDocker: deliberately differs from the code in the two places listed under Findings. It uses the guarded percentage (`Metrics.Pcpu`, `Metrics.C`) where the code would produce `+Inf`/`NaN`, and the flags with `lock` once (`State.PsStateFlags`).
- Strings are sequences of characters. Go's strings are bytes; `Fields`, `Split`, `Join` and `TrimPrefix` agree on valid text, but behaviour on invalid UTF-8 is not modelled.
- The parsers of `stat`, `statm`, `status`, `cmdline` and `environ`, and `readProc`, are not part of this model. The record arrives already parsed.
- `main`, flag handling and JSON output of the three example programs.

## Findings

| source | as written | input that shows it | evidently intended | confidence | as-written member | corrected member |
|---|---|---|---|---|---|---|
| examples/proc_read_dockerfields.go:178-180 | the guard `uptime >= start/Hertz` lets zero elapsed seconds through to the division, so the percentage is `+Inf`, or `NaN` when the percent ticks, taken modulo 2^64, are 0 | the fixture shell (start tick 131158, 61 ticks) read at uptime 1311 s | a percentage of 0 until a whole second has elapsed, as the `else` branch does for a later start | not executed | Metrics.CalculatePcpu, Metrics.PcpuDivisionByZeroExample | Metrics.Pcpu |
| examples/proc_read_dockerfields.go:322-330 | the `VmLck > 0` test appears twice, so `lock` is appended twice | any process with `VmLck > 0`, e.g. `State.LockingLeader`: `low lock lock leader threads foreground` | one word per `ps` flag letter (`L` once) | not executed | State.StateFlags, State.LockFlagTwice | State.PsStateFlags, State.PsStateFlagsFacts |
