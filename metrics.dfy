/**
 * The numeric columns of the ps / `docker top` record: CPU percentage, the
 * `C` column, memory percentage and CPU time. System uptime (whole seconds,
 * as the code truncates it) and total memory (kB) are parameters; reading
 * them from `/proc` is not part of the model.
 *
 * The code computes in `float32`; the model computes over `real`, keeps the
 * `uint64` wrap-around of the tick arithmetic, and keeps the non-finite
 * results of a division by zero (`Float`).
 */
module Metrics {
  import opened Wrappers
  import opened Ints
  import opened ProcRecord

  /** `getHertz`: clock ticks per second. */
  const Hertz: nat := 100

  /** A non-negative IEEE quotient: finite, `+Inf` or `NaN`. */
  datatype Float = Finite(value: real) | PosInf | NaN

  /** `a / b` in floating point, for non-negative operands. */
  function Quotient(a: nat, b: nat): (q: Float)
    ensures q.Finite? <==> b > 0
    ensures q.Finite? ==> q.value >= 0.0 && q.value * b as real == a as real
    ensures q.NaN? <==> a == 0 && b == 0
  {
    if b > 0 then Finite(a as real / b as real)
    else if a > 0 then PosInf
    else NaN
  }

  // ---------------------------------------------------------------------------
  // CPU percentage

  /** Seconds from boot to the process's start: `Start_time / Hertz`, rounded down. */
  function StartSeconds(stat: Stat): nat {
    stat.startTime / Hertz
  }

  /** `Utime + Stime` in `uint64`. */
  function TotalTicks(stat: Stat): u64 {
    AddU64(stat.utime, stat.stime)
  }

  /** `total_time*100/Hertz`: the product wraps at 2^64, the quotient rounds down. */
  function PercentTicks(stat: Stat): nat {
    (TotalTicks(stat) * 100 % TwoTo64) / Hertz
  }

  /** CPU time in seconds, the `Cputime` column. */
  function CpuSeconds(stat: Stat): (t: real)
    ensures t >= 0.0 && t * Hertz as real == TotalTicks(stat) as real
  {
    TotalTicks(stat) as real / Hertz as real
  }

  /**
   * `calculatePcpu` as written: zero for a process that seems to start after
   * `uptime`, otherwise the percentage ticks over the elapsed seconds, with
   * no guard against zero elapsed seconds.
   */
  function CalculatePcpu(stat: Stat, uptime: u64): (p: Float)
    ensures uptime < StartSeconds(stat) ==> p == Finite(0.0)
    ensures p.Finite? <==> uptime != StartSeconds(stat)
    ensures p.Finite? ==> p.value >= 0.0
    ensures uptime > StartSeconds(stat) ==> p.value * (uptime - StartSeconds(stat)) as real == PercentTicks(stat) as real
  {
    if uptime >= StartSeconds(stat) then Quotient(PercentTicks(stat), uptime - StartSeconds(stat))
    else Finite(0.0)
  }

  /** A process whose start falls in the current uptime second gets `+Inf`, or `NaN` if it has used no time. */
  lemma PcpuDivisionByZero(stat: Stat, uptime: u64)
    requires uptime == StartSeconds(stat)
    ensures CalculatePcpu(stat, uptime) == if PercentTicks(stat) > 0 then PosInf else NaN
  {
  }

  /** The fixture shell (pid 15220, started at tick 131158, 61 ticks used) read at uptime 1311 s. */
  lemma PcpuDivisionByZeroExample()
    ensures CalculatePcpu(Bash15220.stat, 1311) == PosInf
  {
    assert StartSeconds(Bash15220.stat) == 1311;
    assert TotalTicks(Bash15220.stat) == 61;
    assert PercentTicks(Bash15220.stat) == 61;
  }

  /**
   * The CPU percentage with the evident intent of the fallback branch: zero
   * unless at least one whole second has elapsed since the start.
   */
  function Pcpu(stat: Stat, uptime: u64): (p: real)
    ensures p >= 0.0
    ensures uptime <= StartSeconds(stat) ==> p == 0.0
    ensures uptime > StartSeconds(stat) ==> CalculatePcpu(stat, uptime) == Finite(p)
  {
    if uptime > StartSeconds(stat) then PercentTicks(stat) as real / (uptime - StartSeconds(stat)) as real
    else 0.0
  }

  /** Wherever the code's result is finite, the guarded percentage equals it. */
  lemma PcpuAgrees(stat: Stat, uptime: u64)
    requires CalculatePcpu(stat, uptime).Finite?
    ensures CalculatePcpu(stat, uptime) == Finite(Pcpu(stat, uptime))
  {
  }

  /**
   * Without wrap-around, the percentage is CPU seconds per elapsed second,
   * times 100.
   */
  lemma PcpuMeaning(stat: Stat, uptime: u64)
    requires uptime > StartSeconds(stat)
    requires (stat.utime + stat.stime) * 100 < TwoTo64
    ensures Pcpu(stat, uptime) * (uptime - StartSeconds(stat)) as real == 100.0 * CpuSeconds(stat)
  {
    var total := stat.utime + stat.stime;
    NoWrapPercentTicks(stat);
    var e := (uptime - StartSeconds(stat)) as real;
    assert Pcpu(stat, uptime) == total as real / e;
    assert (total as real / e) * e == total as real;
  }

  /**
   * More CPU ticks never lower the percentage, as long as the larger tick
   * total times 100 does not wrap around 2^64.
   */
  lemma {:induction false} PcpuMonotone(stat: Stat, stat': Stat, uptime: u64)
    requires stat'.startTime == stat.startTime
    requires stat.utime + stat.stime <= stat'.utime + stat'.stime
    requires (stat'.utime + stat'.stime) * 100 < TwoTo64
    ensures Pcpu(stat, uptime) <= Pcpu(stat', uptime)
  {
    NoWrapPercentTicks(stat);
    NoWrapPercentTicks(stat');
    if uptime > StartSeconds(stat) {
      var e := (uptime - StartSeconds(stat)) as real;
      DivideMonotone(PercentTicks(stat) as real, PercentTicks(stat') as real, e);
    }
  }

  /** Without wrap-around, the percent ticks are the plain tick total. */
  lemma NoWrapPercentTicks(stat: Stat)
    requires (stat.utime + stat.stime) * 100 < TwoTo64
    ensures PercentTicks(stat) == stat.utime + stat.stime
  {
    var total := stat.utime + stat.stime;
    assert TotalTicks(stat) == total;
    assert total * 100 % TwoTo64 == total * 100;
  }

  lemma DivideMonotone(a: real, b: real, e: real)
    requires 0.0 <= a <= b && e > 0.0
    ensures a / e <= b / e
  {
  }

  /**
   * There is no clamp: 20 s of CPU over 10 s of life, as on two busy cores,
   * is 200 per cent.
   */
  lemma PcpuNotClamped()
    ensures var stat := Stat(1, "cc", "R", 0, 1, 1, 0, -1, 1500, 500, 0, 0, 0);
      Pcpu(stat, 10) == 200.0 && CalculateC(stat, 10) == Some(99)
  {
    var stat := Stat(1, "cc", "R", 0, 1, 1, 0, -1, 1500, 500, 0, 0, 0);
    assert TotalTicks(stat) == 2000;
    assert PercentTicks(stat) == 2000;
  }

  // ---------------------------------------------------------------------------
  // The C column

  /** `uint64(pcpu)` after clamping `pcpu` to 99.9. */
  function TruncateClamped(v: real): (c: nat)
    requires v >= 0.0
    ensures c <= 99
    ensures v < 99.0 ==> c as real <= v < c as real + 1.0
    ensures v >= 99.0 ==> c == 99
  {
    if v > 99.9 then 99 else v.Floor
  }

  lemma TruncateClampedMonotone(v: real, w: real)
    requires 0.0 <= v <= w
    ensures TruncateClamped(v) <= TruncateClamped(w)
  {
  }

  /**
   * `calculateC` as written. `+Inf` is above the clamp and gives 99; Go does
   * not define the integer value of `NaN`, which is `None` here.
   */
  function CalculateC(stat: Stat, uptime: u64): (c: Option<nat>)
    ensures c.Some? ==> c.value <= 99
    ensures c.None? <==> CalculatePcpu(stat, uptime).NaN?
    ensures CalculatePcpu(stat, uptime).PosInf? ==> c == Some(99)
    ensures CalculatePcpu(stat, uptime).Finite? ==> c == Some(TruncateClamped(CalculatePcpu(stat, uptime).value))
  {
    match CalculatePcpu(stat, uptime)
    case Finite(v) => Some(TruncateClamped(v))
    case PosInf => Some(99)
    case NaN => None
  }

  /** The C column over the guarded percentage: always defined, at most 99, and the code's value wherever that is finite. */
  function C(stat: Stat, uptime: u64): (c: nat)
    ensures c <= 99
    ensures CalculatePcpu(stat, uptime).Finite? ==> CalculateC(stat, uptime) == Some(c)
  {
    TruncateClamped(Pcpu(stat, uptime))
  }

  // ---------------------------------------------------------------------------
  // Memory percentage

  /**
   * `calculatePmem`: resident kB over total kB, times 100, clamped to 99.9.
   * A resident size with no total is `+Inf` before the clamp; nothing over
   * nothing stays `NaN`.
   */
  function CalculatePmem(vmRss: u64, memTotal: u64): (p: Float)
    ensures p.Finite? ==> 0.0 <= p.value <= 99.9
    ensures p.NaN? <==> vmRss == 0 && memTotal == 0
    ensures !p.PosInf?
    ensures memTotal > 0 && 1000 * vmRss <= 999 * memTotal ==> p.Finite? && p.value * memTotal as real == 100.0 * vmRss as real
    ensures 1000 * vmRss > 999 * memTotal ==> p == Finite(99.9)
  {
    match Quotient(vmRss, memTotal)
    case Finite(q) =>
      PercentScale(vmRss, memTotal);
      if q * 100.0 > 99.9 then Finite(99.9) else Finite(q * 100.0)
    case PosInf => Finite(99.9)
    case NaN => NaN
  }

  /** The clamp test `v / t * 100 > 99.9` in integers. */
  lemma PercentScale(v: nat, t: nat)
    requires t > 0
    ensures (v as real / t as real) * 100.0 * t as real == 100.0 * v as real
    ensures (v as real / t as real) * 100.0 > 99.9 <==> 1000 * v > 999 * t
  {
    var p := (v as real / t as real) * 100.0;
    PercentTimesTotal(v as real, t as real);
    assert p > 99.9 <==> 100.0 * v as real > 99.9 * t as real by {
      ProductCompare(p, t as real, 100.0 * v as real, 99.9);
    }
    ScaledCompare(v, t);
  }

  lemma PercentTimesTotal(v: real, t: real)
    requires t > 0.0
    ensures (v / t) * 100.0 * t == 100.0 * v
  {
    var q := v / t;
    assert q * t == v;
    assert q * 100.0 * t == 100.0 * (q * t);
  }

  /** `100 v > 99.9 t` in whole numbers. */
  lemma ScaledCompare(v: nat, t: nat)
    ensures 100.0 * v as real > 99.9 * t as real <==> 1000 * v > 999 * t
  {
    assert (1000 * v) as real == 10.0 * (100.0 * v as real);
    assert (999 * t) as real == 10.0 * (99.9 * t as real);
  }

  /** Comparing a quotient with a bound is comparing its product with the scaled bound. */
  lemma ProductCompare(p: real, t: real, x: real, bound: real)
    requires t > 0.0 && p * t == x
    ensures p > bound <==> x > bound * t
  {
    MultiplyStrict(p, bound, t);
  }

  /** Products with the same positive factor order their other factors. */
  lemma ProductOrder(p: real, p': real, t: real, x: real, x': real)
    requires t > 0.0 && p * t == x && p' * t == x' && x <= x'
    ensures p <= p'
  {
    MultiplyStrict(p, p', t);
  }

  lemma MultiplyStrict(a: real, b: real, t: real)
    requires t > 0.0
    ensures a > b <==> a * t > b * t
  {
    assert a * t - b * t == (a - b) * t;
  }

  /** For a fixed total, more resident memory never lowers the percentage. */
  lemma PmemMonotone(vmRss: u64, vmRss': u64, memTotal: u64)
    requires vmRss <= vmRss' && memTotal > 0
    ensures CalculatePmem(vmRss, memTotal).value <= CalculatePmem(vmRss', memTotal).value
  {
    var t := memTotal as real;
    var p, p' := CalculatePmem(vmRss, memTotal).value, CalculatePmem(vmRss', memTotal).value;
    if 1000 * vmRss' <= 999 * memTotal {
      assert 1000 * vmRss <= 999 * memTotal;
      ProductOrder(p, p', t, 100.0 * vmRss as real, 100.0 * vmRss' as real);
    } else {
      assert CalculatePmem(vmRss, memTotal).Finite?;
    }
  }

  /** The fixture shell's 3940 kB resident on a 1000000 kB machine is 0.394 per cent. */
  lemma PmemExample()
    ensures CalculatePmem(Bash15220.status.vmRss, 1000000) == Finite(0.394)
  {
  }
}
