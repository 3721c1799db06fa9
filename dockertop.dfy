/**
 * `toDocker`: the `docker top` record of one process, filled from its
 * parsed `/proc` record, the system uptime (whole seconds), the total
 * memory (kB) and the lines of the tty driver table.
 */
module DockerTopRecord {
  import opened Wrappers
  import opened Ints
  import opened ProcRecord
  import opened Tty
  import opened TtyProperties
  import opened Metrics
  import opened State
  import opened Command

  /** The columns of `ps -o c,comm,command,...`, less `start_time`. */
  datatype DockerTop = DockerTop(
    c: nat,
    comm: string,
    command: string,
    cputime: real,
    gid: u64,
    lwp: u64,
    nice: i32,
    pcpu: real,
    pid: u64,
    pgid: i64,
    pmem: Float,
    ppid: i64,
    psr: u64,
    rgid: u64,
    rss: u64,
    ruid: u64,
    state: string,
    stateFlags: seq<string>,
    tty: string,
    uid: u64,
    vsz: u64)

  /**
   * The columns of the record of `proc` once its terminal is named: the
   * field copies of `toDocker` and the derived columns. The CPU columns use
   * the guarded percentage and the flags name `lock` once.
   */
  function Columns(proc: Proc, uptime: u64, memTotal: u64, tty: string): (d: DockerTop)
    ensures d.lwp == d.pid == proc.stat.pid && d.tty == tty
    ensures d.c <= 99 && d.pcpu >= 0.0 && d.c == TruncateClamped(d.pcpu)
    ensures uptime <= StartSeconds(proc.stat) ==> d.pcpu == 0.0
    ensures CalculatePcpu(proc.stat, uptime).Finite? ==> CalculatePcpu(proc.stat, uptime) == Finite(d.pcpu)
    ensures d.cputime * Hertz as real == TotalTicks(proc.stat) as real
    ensures d.pmem.Finite? ==> 0.0 <= d.pmem.value <= 99.9
    ensures d.state == "unknown" <==> proc.stat.state !in KnownCodes
    ensures forall i, j :: 0 <= i < j < |d.stateFlags| ==> d.stateFlags[i] != d.stateFlags[j]
    ensures d.stateFlags == PsStateFlags(proc) && d.state == StateName(proc.stat.state)
    ensures d.command == FormatCommand(proc) && d.comm == proc.stat.tcomm
    ensures d.pmem == CalculatePmem(proc.status.vmRss, memTotal) && d.pcpu == Pcpu(proc.stat, uptime)
    ensures d.cputime == CpuSeconds(proc.stat) && d.c == C(proc.stat, uptime)
    ensures d.gid == proc.status.gid.effectiveId && d.rgid == proc.status.gid.realId
    ensures d.uid == proc.status.uid.effectiveId && d.ruid == proc.status.uid.realId
    ensures d.psr == proc.stat.taskCpu && d.rss == proc.status.vmRss && d.vsz == proc.status.vmSize
    ensures d.nice == proc.stat.nice && d.pgid == proc.stat.pgrp && d.ppid == proc.stat.ppid
  {
    PsStateFlagsFacts(proc);
    DockerTop(
      c := C(proc.stat, uptime),
      comm := proc.stat.tcomm,
      command := FormatCommand(proc),
      cputime := CpuSeconds(proc.stat),
      gid := proc.status.gid.effectiveId,
      lwp := proc.stat.pid,
      nice := proc.stat.nice,
      pcpu := Pcpu(proc.stat, uptime),
      pid := proc.stat.pid,
      pgid := proc.stat.pgrp,
      pmem := CalculatePmem(proc.status.vmRss, memTotal),
      ppid := proc.stat.ppid,
      psr := proc.stat.taskCpu,
      rgid := proc.status.gid.realId,
      rss := proc.status.vmRss,
      ruid := proc.status.uid.realId,
      state := StateName(proc.stat.state),
      stateFlags := PsStateFlags(proc),
      tty := tty,
      uid := proc.status.uid.effectiveId,
      vsz := proc.status.vmSize)
  }

  /**
   * Without tick wrap-around, the percentage column is CPU time per elapsed
   * second, times 100.
   */
  lemma PcpuColumnMeaning(proc: Proc, uptime: u64, memTotal: u64, tty: string)
    requires uptime > StartSeconds(proc.stat) && (proc.stat.utime + proc.stat.stime) * 100 < TwoTo64
    ensures var d := Columns(proc, uptime, memTotal, tty);
      d.pcpu * (uptime - StartSeconds(proc.stat)) as real == 100.0 * d.cputime
  {
    var d := Columns(proc, uptime, memTotal, tty);
    PcpuPerCpuSecond(proc.stat, uptime, d);
  }

  lemma PcpuPerCpuSecond(stat: Stat, uptime: u64, d: DockerTop)
    requires uptime > StartSeconds(stat) && (stat.utime + stat.stime) * 100 < TwoTo64
    requires d.pcpu == Pcpu(stat, uptime) && d.cputime == CpuSeconds(stat)
    ensures d.pcpu * (uptime - StartSeconds(stat)) as real == 100.0 * d.cputime
  {
    PcpuMeaning(stat, uptime);
  }

  /**
   * `toDocker`. The only failure left once the `/proc` reads are parameters
   * is a driver table that does not parse, and it matters only for a
   * process that has a terminal.
   */
  function ToDocker(proc: Proc, uptime: u64, memTotal: u64, driverLines: seq<string>): (r: Result<DockerTop, ParseError>)
    requires NoNewlines(driverLines)
    ensures r.Err? <==> proc.stat.ttyNr != 0 && DriverTable(driverLines).Err?
    ensures r.Err? ==> r.error == DriverTable(driverLines).error
    ensures r.Ok? && proc.stat.ttyNr == 0 ==> r.value.tty == "?"
    ensures r.Ok? && proc.stat.ttyNr != 0 ==> r.value.tty == TtyName(proc.stat.ttyNr, DriverTable(driverLines).value)
    ensures r.Ok? ==> r.value == Columns(proc, uptime, memTotal, r.value.tty)
  {
    match ResolveTty(proc.stat.ttyNr, driverLines)
    case Err(e) => Err(e)
    case Ok(tty) => Ok(Columns(proc, uptime, memTotal, tty))
  }

  /**
   * The fixture shell read at uptime 1400 s on a 1000000 kB machine: 61
   * ticks over 89 s of life.
   */
  lemma ShellColumnsExample(tty: string)
    ensures var d := Columns(Bash15220, 1400, 1000000, tty);
      && d.command == "-bash"
      && d.state == "sleeping"
      && d.stateFlags == ["leader"]
      && d.pcpu == 61.0 / 89.0
      && d.c == 0
      && d.pmem == Finite(0.394)
  {
    FixtureFlagsExample();
    PmemExample();
    SingleArgument(Bash15220);
    assert StartSeconds(Bash15220.stat) == 1311;
    assert TotalTicks(Bash15220.stat) == 61;
    assert PercentTicks(Bash15220.stat) == 61;
  }

  /** With the example driver table as text, the shell's record names its terminal `pts/1`. */
  lemma ShellRecordExample()
    ensures NoNewlines(FormatTable(ExampleTable))
    ensures var r := ToDocker(Bash15220, 1400, 1000000, FormatTable(ExampleTable));
      r.Ok? && r.value.tty == "pts/1" && r.value.stateFlags == ["leader"]
  {
    ResolveExamples([]);
    ExampleTableWellFormed();
    DriverTableRoundTrip(ExampleTable);
    PtsExample();
    ShellColumnsExample("pts/1");
  }
}
