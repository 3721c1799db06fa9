/**
 * The parts of a parsed process record (`procreader.Proc`) that the ps /
 * `docker top` metric layer reads. Field widths follow the Go record: the
 * fields shown unsigned are `uint64`, `Nice` is `int32`, and the process
 * group, session, terminal and foreground-group numbers are signed.
 */
module ProcRecord {
  import opened Ints

  /** Real and effective ids out of a `Uid:` or `Gid:` line of `status`. */
  datatype Ids = Ids(realId: u64, effectiveId: u64)

  /** Fields of `/proc/<pid>/stat`. */
  datatype Stat = Stat(
    pid: u64,
    tcomm: string,
    state: string,
    ppid: i64,
    pgrp: i64,
    sid: i64,
    ttyNr: i64,
    ttyPgrp: i64,
    utime: u64,
    stime: u64,
    nice: i32,
    startTime: u64,
    taskCpu: u64)

  /** Fields of `/proc/<pid>/status`; the memory sizes are in kB. */
  datatype Status = Status(
    tgid: u64,
    uid: Ids,
    gid: Ids,
    vmLck: u64,
    vmRss: u64,
    vmSize: u64,
    threads: u64)

  /** One process: its `stat` and `status` records and its `cmdline` arguments. */
  datatype Proc = Proc(stat: Stat, status: Status, cmdline: seq<string>)

  // ---------------------------------------------------------------------------
  // The three processes of the reader's test fixtures (procreader_test.go)

  /** An interactive shell on `pts/1`, leader of its session. */
  const Bash15220: Proc := Proc(
    Stat(15220, "bash", "S", 15160, 15220, 15220, 34817, 29367, 28, 33, 0, 131158, 0),
    Status(15220, Ids(0, 0), Ids(0, 0), 0, 3940, 21420, 1),
    ["-bash"])

  /** A script with spaces and parentheses in its name and arguments. */
  const Script29821: Proc := Proc(
    Stat(29821, ":-) 0 1 2 3 4 5", "R", 15220, 29821, 15220, 34817, 29852, 3980, 3, 0, 5829898, 0),
    Status(29821, Ids(0, 0), Ids(0, 0), 0, 1172, 11124, 1),
    ["/bin/bash", "/root/gops/procreader/testdata/:-) 0 1 2 3 4 5 6 "])

  /** A daemon without a controlling terminal. */
  const Sshd29167: Proc := Proc(
    Stat(29167, "sshd", "S", 1, 29167, 29167, 0, -1, 495, 2615, 0, 53885311, 0),
    Status(29167, Ids(0, 0), Ids(0, 0), 0, 1200, 48904, 1),
    ["/usr/sbin/sshd"])
}
