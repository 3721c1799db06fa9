/**
 * The controlling-terminal column: decoding the packed device number of a
 * process's `stat` record and naming it from the kernel's tty driver table
 * (`/proc/tty/drivers`), after procps' `devname.c`. The table arrives as the
 * lines of that file; reading the file is not part of the model.
 */
module Tty {
  import opened Wrappers
  import opened Ints
  import opened Text
  import opened ProcRecord

  // ---------------------------------------------------------------------------
  // Device numbers

  /** A major (driver) and minor (instance) device number. */
  datatype Device = Device(major: nat, minor: nat)

  /** Majors have 12 bits and minors 20 in the kernel's 32-bit encoding. */
  predicate Encodable(dev: Device) {
    dev.major <= 0xfff && dev.minor <= 0xfffff
  }

  /** Go's `uint32(n)`: the low 32 bits of `n`. */
  function Truncate32(n: int): bv32 {
    (n % TwoTo32) as bv32
  }

  /** Bits 8-19 of a 32-bit device number. */
  function MajorBits(d: bv32): bv32 {
    (d >> 8) & 0xfff
  }

  /** Bits 0-7 of a 32-bit device number, followed by bits 20-31. */
  function MinorBits(d: bv32): bv32 {
    (d & 0xff) | ((d & 0xfff0_0000) >> 12)
  }

  /** The kernel's packing of a major and a minor into 32 bits. */
  function PackBits(major: bv32, minor: bv32): bv32 {
    (minor & 0xff) | (major << 8) | ((minor & 0xfff00) << 12)
  }

  /** Unpacking undoes packing ... */
  lemma UnpackPack(major: bv32, minor: bv32)
    requires major <= 0xfff && minor <= 0xfffff
    ensures MajorBits(PackBits(major, minor)) == major
    ensures MinorBits(PackBits(major, minor)) == minor
  {
  }

  /** ... and packing undoes unpacking: every 32-bit number is one major and one minor. */
  lemma PackUnpack(d: bv32)
    ensures MajorBits(d) <= 0xfff && MinorBits(d) <= 0xfffff
    ensures PackBits(MajorBits(d), MinorBits(d)) == d
  {
  }

  /** Splits a 32-bit device number into its major and minor. */
  function DecodeBits(d: bv32): (dev: Device)
    ensures Encodable(dev)
  {
    PackUnpack(d);
    Device(MajorBits(d) as nat, MinorBits(d) as nat)
  }

  /** The device number of a `stat` record's `tty_nr` field. */
  function Decode(ttyNr: int): (dev: Device)
    ensures Encodable(dev)
  {
    DecodeBits(Truncate32(ttyNr))
  }

  /** Decoding a packed major and minor gives them back. */
  lemma DecodePack(major: bv32, minor: bv32)
    requires major <= 0xfff && minor <= 0xfffff
    ensures DecodeBits(PackBits(major, minor)) == Device(major as nat, minor as nat)
  {
    UnpackPack(major, minor);
  }

  /** A number below 2^32 is its own low 32 bits. */
  lemma Truncate32Of(d: bv32)
    ensures Truncate32(d as int) == d
  {
    BvRoundTrip(d);
    ModIdentity(d as int);
  }

  lemma BvRoundTrip(d: bv32)
    ensures 0 <= d as int < TwoTo32 && (d as int) as bv32 == d
  {
  }

  lemma ModIdentity(n: int)
    requires 0 <= n < TwoTo32
    ensures Truncate32(n) == n as bv32
  {
    assert n % TwoTo32 == n;
  }

  // ---------------------------------------------------------------------------
  // The driver table

  /** One row of `/proc/tty/drivers`. */
  datatype TtyDriver = TtyDriver(
    name: string,
    defaultNode: string,
    major: u32,
    minorMin: u32,
    minorMax: u32,
    ttyType: string)

  datatype ParseError =
    | ScanFailed(line: string)      // `fmt.Sscanf` could not read the five fields
    | BadMinorRange(minors: string) // the minors field did not start with a 32-bit number

  /**
   * The minors field as `fmt.Sscanf(minors, "%d-%d", ...)` reads it: a
   * 32-bit number `a`, then optionally `-` and a 32-bit number `b`. When the
   * second number cannot be read, only one value was scanned and the range is
   * the single minor `a`.
   */
  function ParseMinors(minors: string): (r: Result<(u32, u32), ParseError>)
    ensures r.Err? <==> LeadingDigits(minors) == [] || DigitsValue(LeadingDigits(minors)) >= TwoTo32
    ensures r.Err? ==> r.error == BadMinorRange(minors)
    ensures r.Ok? ==> r.value.0 == DigitsValue(LeadingDigits(minors))
  {
    var a := LeadingDigits(minors);
    if a == [] || DigitsValue(a) >= TwoTo32 then Err(BadMinorRange(minors))
    else
      var rest := minors[|a|..];
      var b := if rest != [] && rest[0] == '-' then LeadingDigits(rest[1..]) else [];
      if b != [] && DigitsValue(b) < TwoTo32 then Ok((DigitsValue(a), DigitsValue(b)))
      else Ok((DigitsValue(a), DigitsValue(a)))
  }

  /**
   * One line as `fmt.Sscanf(line, "%s\t%s\t%d\t%s\t%s", ...)` reads it, then
   * its minors field. The scan needs five space-separated tokens, the third
   * all digits and below 2^32; anything after the fifth token is not read.
   */
  function ParseDriverLine(line: string): (r: Result<TtyDriver, ParseError>)
    requires '\n' !in line
    ensures |Fields(line)| < 5 ==> r == Err(ScanFailed(line))
    ensures |Fields(line)| >= 5 && !AllDigits(Fields(line)[2]) ==> r == Err(ScanFailed(line))
    ensures |Fields(line)| >= 5 && AllDigits(Fields(line)[2]) && DigitsValue(Fields(line)[2]) >= TwoTo32 ==>
      r == Err(ScanFailed(line))
    ensures && |Fields(line)| >= 5 && AllDigits(Fields(line)[2]) && DigitsValue(Fields(line)[2]) < TwoTo32
            && ParseMinors(Fields(line)[3]).Err?
            ==> r == Err(ParseMinors(Fields(line)[3]).error)
    ensures r.Ok? ==> IsWord(r.value.name) && IsWord(r.value.defaultNode) && IsWord(r.value.ttyType)
  {
    FieldsAreWords(line);
    var f := Fields(line);
    if |f| < 5 || !AllDigits(f[2]) || DigitsValue(f[2]) >= TwoTo32 then Err(ScanFailed(line))
    else
      match ParseMinors(f[3])
      case Err(e) => Err(e)
      case Ok((lo, hi)) => Ok(TtyDriver(f[0], f[1], DigitsValue(f[2]), lo, hi, f[4]))
  }

  predicate NoNewlines(lines: seq<string>) {
    forall i :: 0 <= i < |lines| ==> '\n' !in lines[i]
  }

  /** Each line's parse, in order. */
  function ParsedLines(lines: seq<string>): (rs: seq<Result<TtyDriver, ParseError>>)
    requires NoNewlines(lines)
    ensures |rs| == |lines|
    ensures forall i :: 0 <= i < |lines| ==> rs[i] == ParseDriverLine(lines[i])
  {
    seq(|lines|, i requires 0 <= i < |lines| => ParseDriverLine(lines[i]))
  }

  /**
   * The whole table: every line parsed in order, or the error of the first
   * line that does not parse.
   */
  function DriverTable(lines: seq<string>): Result<seq<TtyDriver>, ParseError>
    requires NoNewlines(lines)
  {
    AllOk(ParsedLines(lines))
  }

  /** The per-line loop of `getTtyMajorMinor`: appends each parsed row, stops at the first bad line. */
  method ParseDriverTable(lines: seq<string>) returns (r: Result<seq<TtyDriver>, ParseError>)
    requires NoNewlines(lines)
    ensures r == DriverTable(lines)
  {
    ghost var rs := ParsedLines(lines);
    var result: seq<TtyDriver> := [];
    for i := 0 to |lines|
      invariant |result| == i
      invariant forall j :: 0 <= j < i ==> rs[j] == Ok(result[j])
    {
      var td := ParseDriverLine(lines[i]);
      assert td == rs[i];
      if td.Err? {
        ErrAfterOks(rs, result);
        return Err(td.error);
      }
      OkPrefixStep(rs, result, td.value);
      result := result + [td.value];
    }
    AllOkValues(rs, result);
    return Ok(result);
  }

  // ---------------------------------------------------------------------------
  // Naming a device

  /** Whether a row's major matches and its minor range holds the minor. */
  predicate Matches(drv: TtyDriver, dev: Device) {
    drv.major == dev.major && drv.minorMin <= dev.minor && drv.minorMax >= dev.minor
  }

  /** The index of the first row that matches `dev`, if any. */
  function FirstMatch(drivers: seq<TtyDriver>, dev: Device): (r: Option<nat>)
    ensures r.None? <==> forall j :: 0 <= j < |drivers| ==> !Matches(drivers[j], dev)
    ensures r.Some? ==> r.value < |drivers| && Matches(drivers[r.value], dev)
    ensures r.Some? ==> forall j :: 0 <= j < r.value ==> !Matches(drivers[j], dev)
  {
    if drivers == [] then None
    else if Matches(drivers[0], dev) then Some(0)
    else
      match FirstMatch(drivers[1..], dev)
      case None => None
      case Some(k) => Some(k + 1)
  }

  /** One step of the search: no match among the first `i` rows, then row `i` decides. */
  lemma FirstMatchStep(drivers: seq<TtyDriver>, dev: Device, i: nat)
    requires i < |drivers| && FirstMatch(drivers[..i], dev).None?
    ensures Matches(drivers[i], dev) ==> FirstMatch(drivers, dev) == Some(i)
    ensures !Matches(drivers[i], dev) ==> FirstMatch(drivers[..i + 1], dev).None?
  {
    assert forall j :: 0 <= j < i ==> drivers[..i][j] == drivers[j];
    assert forall j :: 0 <= j < i + 1 ==> drivers[..i + 1][j] == drivers[j];
    if Matches(drivers[i], dev) {
      var r := FirstMatch(drivers, dev);
      assert r.Some?;
      assert r.value == i;
    }
  }

  /** The pseudo-terminal families, whose devices are named `<node>/<n>`. */
  predicate IsPtyNode(node: string) {
    node == "/dev/pts" || node == "/dev/ptm"
  }

  /**
   * The name of minor `minor` of row `drv`: the row's node for a single-minor
   * row, `<node>/<offset>` for a pseudo-terminal family and `<node><offset>`
   * otherwise, with one leading `/dev/` removed.
   */
  function DeviceName(drv: TtyDriver, minor: nat): string
    requires drv.minorMin <= minor
  {
    var name :=
      if drv.minorMin == drv.minorMax then drv.defaultNode
      else if IsPtyNode(drv.defaultNode) then drv.defaultNode + "/" + Decimal(minor - drv.minorMin)
      else drv.defaultNode + Decimal(minor - drv.minorMin);
    TrimPrefix(name, "/dev/")
  }

  /** The name of `dev` under a parsed table: the first matching row names it, `"?"` when none does. */
  function NameFromTable(drivers: seq<TtyDriver>, dev: Device): string {
    match FirstMatch(drivers, dev)
    case None => "?"
    case Some(i) => DeviceName(drivers[i], dev.minor)
  }

  /** The terminal name of `tty_nr` under a parsed driver table; `"?"` for none. */
  function TtyName(ttyNr: int, drivers: seq<TtyDriver>): string {
    if ttyNr == 0 then "?" else NameFromTable(drivers, Decode(ttyNr))
  }

  /** `getTty`'s outcome given the lines of the driver table. */
  function ResolveTty(ttyNr: int, lines: seq<string>): Result<string, ParseError>
    requires NoNewlines(lines)
  {
    if ttyNr == 0 then Ok("?")
    else
      match DriverTable(lines)
      case Err(e) => Err(e)
      case Ok(drivers) => Ok(TtyName(ttyNr, drivers))
  }

  /** The search loop of `getTty`: returns at the first row that holds the device. */
  method LookupTty(drivers: seq<TtyDriver>, dev: Device) returns (name: string)
    ensures name == NameFromTable(drivers, dev)
  {
    var major, minor := dev.major, dev.minor;
    for i := 0 to |drivers|
      invariant FirstMatch(drivers[..i], dev).None?
    {
      var drv := drivers[i];
      FirstMatchStep(drivers, dev, i);
      if drv.major == major && drv.minorMin <= minor && drv.minorMax >= minor {
        return DeviceName(drv, minor);
      }
    }
    assert drivers[..|drivers|] == drivers;
    return "?";
  }

  /** `getTty`: no terminal is `"?"` before the table is read; otherwise the first matching row names it. */
  method GetTty(proc: Proc, lines: seq<string>) returns (r: Result<string, ParseError>)
    requires NoNewlines(lines)
    ensures proc.stat.ttyNr == 0 ==> r == Ok("?")
    ensures r == ResolveTty(proc.stat.ttyNr, lines)
  {
    if proc.stat.ttyNr == 0 {
      return Ok("?");
    }
    var dev := Decode(proc.stat.ttyNr);
    var table := ParseDriverTable(lines);
    if table.Err? {
      return Err(table.error);
    }
    var name := LookupTty(table.value, dev);
    return Ok(name);
  }
}

/** Properties of the controlling-terminal column. */
module TtyProperties {
  import opened Wrappers
  import opened Ints
  import opened Text
  import opened Tty

  // ---------------------------------------------------------------------------
  // Driver rows: rendering a row as a line of the table and reading it back

  /** The minors field as the kernel lists it: one number, or `min-max`. */
  function MinorsText(lo: u32, hi: u32): (s: string)
    ensures IsWord(s)
  {
    if lo == hi then Decimal(lo) else Decimal(lo) + "-" + Decimal(hi)
  }

  /** A row whose name, node and type are single tokens, as in the kernel's table. */
  predicate WellFormedRow(drv: TtyDriver) {
    IsWord(drv.name) && IsWord(drv.defaultNode) && IsWord(drv.ttyType)
  }

  /** A row as one line of `/proc/tty/drivers`. */
  function FormatDriverLine(drv: TtyDriver): string {
    Join([drv.name, drv.defaultNode, Decimal(drv.major), MinorsText(drv.minorMin, drv.minorMax), drv.ttyType], " ")
  }

  /** Both forms of the minors field read back as the range they denote; `min <= max` is not required. */
  lemma MinorsRoundTrip(lo: u32, hi: u32)
    ensures ParseMinors(MinorsText(lo, hi)) == Ok((lo, hi))
  {
    var a := Decimal(lo);
    DecimalRoundTrip(lo);
    if lo == hi {
      LeadingDigitsOf(a, []);
      assert a + [] == a;
    } else {
      var b := Decimal(hi);
      DecimalRoundTrip(hi);
      var m := a + "-" + b;
      assert m == a + ("-" + b);
      LeadingDigitsOf(a, "-" + b);
      assert m[|a|..] == "-" + b;
      assert ("-" + b)[1..] == b;
      LeadingDigitsOf(b, []);
      assert b + [] == b;
    }
  }

  /** After the first number, text that is not `-` and a number is ignored: the row is a single minor. */
  lemma MinorsTrailingTextIgnored(lo: u32, rest: string)
    requires rest != [] && !IsDigit(rest[0])
    requires rest[0] == '-' ==> |rest| == 1 || !IsDigit(rest[1])
    ensures ParseMinors(Decimal(lo) + rest) == Ok((lo, lo))
  {
    var a := Decimal(lo);
    DecimalRoundTrip(lo);
    LeadingDigitsOf(a, rest);
    assert (a + rest)[|a|..] == rest;
    if rest[0] == '-' && |rest| > 1 {
      assert LeadingDigits(rest[1..]) == [];
    }
  }

  /** A minors field that does not start with a digit is an error. */
  lemma MinorsNeedLeadingNumber(minors: string)
    requires minors == [] || !IsDigit(minors[0])
    ensures ParseMinors(minors) == Err(BadMinorRange(minors))
  {
  }

  lemma {:induction false} NoNewlineInJoin(ws: seq<string>)
    requires forall i :: 0 <= i < |ws| ==> IsWord(ws[i])
    ensures '\n' !in Join(ws, " ")
  {
    if |ws| == 1 {
      assert IsWord(ws[0]);
      assert IsSpace('\n');
    } else if |ws| > 1 {
      assert IsWord(ws[0]) && IsSpace('\n');
      assert forall i :: 0 <= i < |ws[1..]| ==> ws[1..][i] == ws[i + 1];
      NoNewlineInJoin(ws[1..]);
    }
  }

  /** Every well-formed row, written as a line of the table, reads back as itself. */
  lemma DriverLineRoundTrip(drv: TtyDriver)
    requires WellFormedRow(drv)
    ensures '\n' !in FormatDriverLine(drv)
    ensures ParseDriverLine(FormatDriverLine(drv)) == Ok(drv)
  {
    var ws := [drv.name, drv.defaultNode, Decimal(drv.major), MinorsText(drv.minorMin, drv.minorMax), drv.ttyType];
    assert forall i :: 0 <= i < |ws| ==> IsWord(ws[i]);
    NoNewlineInJoin(ws);
    FieldsOfJoin(ws);
    DecimalRoundTrip(drv.major);
    MinorsRoundTrip(drv.minorMin, drv.minorMax);
    ParseOfFields(FormatDriverLine(drv), ws);
  }

  /** The parse of a line is determined by its first five tokens; any further tokens are not read. */
  lemma ParseOfFields(line: string, ws: seq<string>)
    requires '\n' !in line && Fields(line) == ws && |ws| >= 5
    requires AllDigits(ws[2]) && DigitsValue(ws[2]) < TwoTo32
    requires ParseMinors(ws[3]).Ok?
    ensures ParseDriverLine(line)
         == Ok(TtyDriver(ws[0], ws[1], DigitsValue(ws[2]), ParseMinors(ws[3]).value.0, ParseMinors(ws[3]).value.1, ws[4]))
  {
  }

  /** A row read from any line re-renders to a canonical line that reads back as the same row. */
  lemma ParsedRowIsCanonical(line: string, drv: TtyDriver)
    requires '\n' !in line && ParseDriverLine(line) == Ok(drv)
    ensures '\n' !in FormatDriverLine(drv)
    ensures ParseDriverLine(FormatDriverLine(drv)) == ParseDriverLine(line)
  {
    DriverLineRoundTrip(drv);
  }

  /** A line with fewer than five tokens is an error, whatever the tokens. */
  lemma ShortLineRejected(ws: seq<string>)
    requires |ws| < 5 && forall i :: 0 <= i < |ws| ==> IsWord(ws[i])
    ensures '\n' !in Join(ws, " ")
    ensures ParseDriverLine(Join(ws, " ")).Err?
  {
    NoNewlineInJoin(ws);
    FieldsOfJoin(ws);
  }

  function FormatTable(rows: seq<TtyDriver>): (lines: seq<string>)
    ensures |lines| == |rows|
  {
    seq(|rows|, i requires 0 <= i < |rows| => FormatDriverLine(rows[i]))
  }

  /** A table of well-formed rows, written out line by line, reads back as the same table. */
  lemma DriverTableRoundTrip(rows: seq<TtyDriver>)
    requires forall i :: 0 <= i < |rows| ==> WellFormedRow(rows[i])
    ensures NoNewlines(FormatTable(rows))
    ensures DriverTable(FormatTable(rows)) == Ok(rows)
  {
    var lines := FormatTable(rows);
    forall i | 0 <= i < |rows|
      ensures '\n' !in lines[i] && ParseDriverLine(lines[i]) == Ok(rows[i])
    {
      DriverLineRoundTrip(rows[i]);
    }
    var r := DriverTable(lines);
    assert r.Ok?;
    assert r.value == rows;
  }

  // ---------------------------------------------------------------------------
  // The search: order of rows

  /** Rows after the first match are never consulted. */
  lemma FirstMatchWins(drivers: seq<TtyDriver>, more: seq<TtyDriver>, dev: Device)
    requires FirstMatch(drivers, dev).Some?
    ensures NameFromTable(drivers + more, dev) == NameFromTable(drivers, dev)
  {
    var k := FirstMatch(drivers, dev).value;
    var all := drivers + more;
    assert all[k] == drivers[k];
    assert forall j :: 0 <= j < k ==> all[j] == drivers[j];
    var r := FirstMatch(all, dev);
    assert r.Some?;
    assert r.value == k;
  }

  /** Rows that do not hold the device change nothing, wherever they stand in front. */
  lemma NonMatchingRowsSkipped(skip: seq<TtyDriver>, drivers: seq<TtyDriver>, dev: Device)
    requires forall j :: 0 <= j < |skip| ==> !Matches(skip[j], dev)
    ensures NameFromTable(skip + drivers, dev) == NameFromTable(drivers, dev)
  {
    var all := skip + drivers;
    assert forall j :: 0 <= j < |drivers| ==> all[|skip| + j] == drivers[j];
    match FirstMatch(drivers, dev)
    case None =>
      assert forall j :: 0 <= j < |all| ==> !Matches(all[j], dev) by {
        forall j | 0 <= j < |all| ensures !Matches(all[j], dev) {
          if j >= |skip| {
            assert all[j] == drivers[j - |skip|];
          }
        }
      }
    case Some(k) =>
      assert all[|skip| + k] == drivers[k];
      forall j | 0 <= j < |skip| + k ensures !Matches(all[j], dev) {
        if j >= |skip| {
          assert all[j] == drivers[j - |skip|];
        }
      }
      FirstMatchIs(all, dev, |skip| + k);
  }

  lemma FirstMatchIs(drivers: seq<TtyDriver>, dev: Device, k: nat)
    requires k < |drivers| && Matches(drivers[k], dev)
    requires forall j :: 0 <= j < k ==> !Matches(drivers[j], dev)
    ensures FirstMatch(drivers, dev) == Some(k)
  {
    var r := FirstMatch(drivers, dev);
    assert r.Some?;
    assert r.value == k;
  }

  /** Without a matching row the name is `"?"`. */
  lemma NoRowNoName(drivers: seq<TtyDriver>, ttyNr: int)
    requires forall j :: 0 <= j < |drivers| ==> !Matches(drivers[j], Decode(ttyNr))
    ensures TtyName(ttyNr, drivers) == "?"
  {
  }

  // ---------------------------------------------------------------------------
  // From a packed device number to a name

  /** A packed non-zero device number is looked up as the device it packs. */
  lemma TtyNameOfPacked(major: bv32, minor: bv32, drivers: seq<TtyDriver>)
    requires major <= 0xfff && minor <= 0xfffff && (major != 0 || minor != 0)
    ensures PackBits(major, minor) as int != 0
    ensures TtyName(PackBits(major, minor) as int, drivers)
         == NameFromTable(drivers, Device(major as nat, minor as nat))
  {
    var d := PackBits(major, minor);
    UnpackPack(major, minor);
    Truncate32Of(d);
    DecodePack(major, minor);
  }

  /** A single-minor row names its one device after its node, less one leading `/dev/`. */
  lemma SingleMinorName(drv: TtyDriver, minor: nat)
    requires drv.minorMin <= minor && drv.minorMin == drv.minorMax
    ensures DeviceName(drv, minor) == TrimPrefix(drv.defaultNode, "/dev/")
  {
  }

  /**
   * A ranged row under `/dev/` names minor `m` after its node with the
   * offset `m - minorMin` appended: after a `/` for the pseudo-terminal
   * families, directly otherwise.
   */
  lemma RangedName(drv: TtyDriver, minor: nat, base: string)
    requires drv.minorMin <= minor && drv.minorMin != drv.minorMax && drv.defaultNode == "/dev/" + base
    ensures IsPtyNode(drv.defaultNode) ==> DeviceName(drv, minor) == base + "/" + Decimal(minor - drv.minorMin)
    ensures !IsPtyNode(drv.defaultNode) ==> DeviceName(drv, minor) == base + Decimal(minor - drv.minorMin)
  {
    var tail := if IsPtyNode(drv.defaultNode) then "/" + Decimal(minor - drv.minorMin) else Decimal(minor - drv.minorMin);
    var full := drv.defaultNode + tail;
    assert full == "/dev/" + (base + tail);
    assert full[..5] == "/dev/";
  }

  /** The minor reads back from the name a ranged row gives it. */
  lemma RangedNameOffset(drv: TtyDriver, minor: nat, base: string)
    requires drv.minorMin <= minor && drv.minorMin != drv.minorMax && drv.defaultNode == "/dev/" + base
    ensures var name, k := DeviceName(drv, minor), if IsPtyNode(drv.defaultNode) then |base| + 1 else |base|;
      && k < |name|
      && name[..k] == (if IsPtyNode(drv.defaultNode) then base + "/" else base)
      && AllDigits(name[k..])
      && drv.minorMin + DigitsValue(name[k..]) == minor
  {
    RangedName(drv, minor, base);
    var d := Decimal(minor - drv.minorMin);
    DecimalRoundTrip(minor - drv.minorMin);
    var name := DeviceName(drv, minor);
    if IsPtyNode(drv.defaultNode) {
      assert name == (base + "/") + d;
      assert name[..|base| + 1] == base + "/" && name[|base| + 1..] == d;
    } else {
      assert name[..|base|] == base && name[|base|..] == d;
    }
  }

  const PtySlave: TtyDriver := TtyDriver("pty_slave", "/dev/pts", 136, 0, 1048575, "pty:slave")

  /** Minor `k` of the pseudo-terminal row is named `pts/<k>`. */
  lemma PtySlaveName(minor: nat)
    ensures DeviceName(PtySlave, minor) == "pts/" + Decimal(minor)
  {
    var full := "/dev/pts" + "/" + Decimal(minor);
    assert full == "/dev/" + ("pts/" + Decimal(minor));
    assert full[..5] == "/dev/";
  }

  /** With the pseudo-terminal row first, every minor it holds is named `pts/<minor>`. */
  lemma PtsName(minor: nat, rest: seq<TtyDriver>)
    requires minor <= 0xfffff
    ensures NameFromTable([PtySlave] + rest, Device(136, minor)) == "pts/" + Decimal(minor)
  {
    FirstMatchIs([PtySlave] + rest, Device(136, minor), 0);
    PtySlaveName(minor);
  }

  /** The minor reads back from every pseudo-terminal name. */
  lemma PtsNameRoundTrip(minor: nat, rest: seq<TtyDriver>)
    requires minor <= 0xfffff
    ensures var name := NameFromTable([PtySlave] + rest, Device(136, minor));
      |name| > 4 && name[..4] == "pts/" && AllDigits(name[4..]) && DigitsValue(name[4..]) == minor
  {
    PtsName(minor, rest);
    var name := "pts/" + Decimal(minor);
    assert name[..4] == "pts/" && name[4..] == Decimal(minor);
    DecimalRoundTrip(minor);
  }

  // ---------------------------------------------------------------------------
  // Concrete cases

  /** A driver table as the kernel lists it on a typical machine. */
  const ExampleTable: seq<TtyDriver> := [
    TtyDriver("/dev/tty", "/dev/tty", 5, 0, 0, "system:/dev/tty"),
    TtyDriver("/dev/console", "/dev/console", 5, 1, 1, "system:console"),
    TtyDriver("/dev/ptmx", "/dev/ptmx", 5, 2, 2, "system"),
    TtyDriver("serial", "/dev/ttyS", 4, 64, 111, "serial"),
    PtySlave,
    TtyDriver("pty_master", "/dev/ptm", 128, 0, 1048575, "pty:master"),
    TtyDriver("unknown", "/dev/tty", 4, 1, 63, "console")]

  lemma DecodeLiteral(d: bv32, n: int)
    requires d as int == n
    ensures Decode(n) == DecodeBits(d)
  {
    Truncate32Of(d);
  }

  /** The fixture's `tty_nr` 34817 (0x8801) is major 136, minor 1, named `pts/1`. */
  lemma PtsExample()
    ensures Decode(34817) == Device(136, 1)
    ensures TtyName(34817, ExampleTable) == "pts/1"
  {
    DecodeLiteral(0x8801, 34817);
    assert DecodeBits(0x8801) == Device(136, 1);
    FirstMatchIs(ExampleTable, Device(136, 1), 4);
    PtySlaveName(1);
    assert Decimal(1) == "1";
  }

  /** A single-minor row keeps its node's name. */
  lemma ConsoleExample()
    ensures TtyName(0x0501, ExampleTable) == "console"
  {
    DecodeLiteral(0x0501, 0x0501);
    assert DecodeBits(0x0501) == Device(5, 1);
    FirstMatchIs(ExampleTable, Device(5, 1), 1);
    var full := "/dev/console";
    assert full[..5] == "/dev/" && full[5..] == "console";
  }

  /** A ranged row appends the offset of the minor in its range. */
  lemma SerialExample()
    ensures TtyName(0x0441, ExampleTable) == "ttyS1"
  {
    DecodeLiteral(0x0441, 0x0441);
    assert DecodeBits(0x0441) == Device(4, 65);
    FirstMatchIs(ExampleTable, Device(4, 65), 3);
    assert Decimal(1) == "1";
    var full := "/dev/ttyS" + "1";
    assert full[..5] == "/dev/" && full[5..] == "ttyS1";
  }

  /** A major no row lists has no name. */
  lemma UnknownMajorExample()
    ensures TtyName(0x0700, ExampleTable) == "?"
  {
    DecodeLiteral(0x0700, 0x0700);
    assert DecodeBits(0x0700) == Device(7, 0);
  }

  lemma ExampleTableWellFormed()
    ensures forall i :: 0 <= i < |ExampleTable| ==> WellFormedRow(ExampleTable[i])
  {
    ConsoleRowsWellFormed();
    SerialRowsWellFormed();
    PtyRowsWellFormed();
  }

  lemma ConsoleRowsWellFormed()
    ensures forall i :: 0 <= i < 3 ==> WellFormedRow(ExampleTable[i])
  {
    forall i | 0 <= i < 3 ensures WellFormedRow(ExampleTable[i]) {
      var drv := ExampleTable[i];
      PrintableIsWord(drv.name);
      PrintableIsWord(drv.defaultNode);
      PrintableIsWord(drv.ttyType);
    }
  }

  lemma SerialRowsWellFormed()
    ensures WellFormedRow(ExampleTable[3]) && WellFormedRow(ExampleTable[6])
  {
    PrintableIsWord(ExampleTable[3].name);
    PrintableIsWord(ExampleTable[3].defaultNode);
    PrintableIsWord(ExampleTable[3].ttyType);
    PrintableIsWord(ExampleTable[6].name);
    PrintableIsWord(ExampleTable[6].defaultNode);
    PrintableIsWord(ExampleTable[6].ttyType);
  }

  lemma PtyRowsWellFormed()
    ensures forall i :: 4 <= i < 6 ==> WellFormedRow(ExampleTable[i])
  {
    forall i | 4 <= i < 6 ensures WellFormedRow(ExampleTable[i]) {
      var drv := ExampleTable[i];
      PrintableIsWord(drv.name);
      PrintableIsWord(drv.defaultNode);
      PrintableIsWord(drv.ttyType);
    }
  }

  /** Visible ASCII text, as in the kernel's table. */
  predicate Printable(s: string) {
    s != [] && forall i :: 0 <= i < |s| ==> '!' <= s[i] <= '~'
  }

  lemma PrintableIsWord(s: string)
    requires Printable(s)
    ensures IsWord(s)
  {
  }

  /** Read from its text, the example table resolves the fixture's terminal; no terminal needs no table. */
  lemma ResolveExamples(garbage: seq<string>)
    requires NoNewlines(garbage)
    ensures NoNewlines(FormatTable(ExampleTable))
    ensures ResolveTty(34817, FormatTable(ExampleTable)) == Ok("pts/1")
    ensures ResolveTty(0, garbage) == Ok("?")
  {
    ExampleTableWellFormed();
    DriverTableRoundTrip(ExampleTable);
    PtsExample();
  }
}
