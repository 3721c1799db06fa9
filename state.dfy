/**
 * The `State` and `State_flags` columns: the human name of the one-letter
 * scheduler state, and the suffix letters of `ps -o stat` spelled as words.
 */
module State {
  import opened Wrappers
  import opened Ints
  import opened ProcRecord

  // ---------------------------------------------------------------------------
  // State names

  /** The state letters that have a name. */
  const KnownCodes: set<string> := {"R", "S", "D", "Z", "T"}

  /** `getState`; the misspelling `uninteruptible` is the code's. */
  function StateName(code: string): (name: string)
    ensures name == "unknown" <==> code !in KnownCodes
  {
    if code == "R" then "running"
    else if code == "S" then "sleeping"
    else if code == "D" then "uninteruptible"
    else if code == "Z" then "zombie"
    else if code == "T" then "stopped"
    else "unknown"
  }

  /** The letter a name stands for. */
  function StateCode(name: string): (code: Option<string>)
    ensures code.Some? ==> code.value in KnownCodes
  {
    if name == "running" then Some("R")
    else if name == "sleeping" then Some("S")
    else if name == "uninteruptible" then Some("D")
    else if name == "zombie" then Some("Z")
    else if name == "stopped" then Some("T")
    else None
  }

  /** Every known letter has its own name, and only `unknown` stands for no letter. */
  lemma StateNameRoundTrip(code: string)
    ensures code in KnownCodes ==> StateCode(StateName(code)) == Some(code)
    ensures code !in KnownCodes ==> StateCode(StateName(code)) == None
  {
  }

  /** The fixture shell is sleeping. */
  lemma StateExample()
    ensures StateName(Bash15220.stat.state) == "sleeping"
    ensures StateName(Script29821.stat.state) == "running"
  {
  }

  // ---------------------------------------------------------------------------
  // State flags

  /** The words of `getStateFlags`, in the order the code tests them. */
  const FlagNames: seq<string> := ["low", "high", "lock", "lock", "leader", "threads", "foreground"]

  /** The test that selects each word of `FlagNames`. */
  function FlagConditions(proc: Proc): (conds: seq<bool>)
    ensures |conds| == |FlagNames|
  {
    [proc.stat.nice > 0,
     proc.stat.nice < 0,
     proc.status.vmLck > 0,
     proc.status.vmLck > 0,
     ToInt64(proc.status.tgid) == proc.stat.sid,
     proc.status.threads > 1,
     proc.stat.pgrp == proc.stat.ttyPgrp]
  }

  /** The first `n` words whose condition holds, in order. */
  function Selected<T>(names: seq<T>, conds: seq<bool>, n: nat): (r: seq<T>)
    requires n <= |names| == |conds|
    ensures |r| <= n
  {
    if n == 0 then [] else Selected(names, conds, n - 1) + Opt(conds[n - 1], names[n - 1])
  }

  /** A word if its condition holds. */
  function Opt<T>(c: bool, name: T): (r: seq<T>)
    ensures |r| == Count(c)
  {
    if c then [name] else []
  }

  function Count(b: bool): nat {
    if b then 1 else 0
  }

  /** `getStateFlags`: appends one word per condition that holds, in the fixed order. */
  method StateFlags(proc: Proc) returns (flags: seq<string>)
    ensures flags == Selected(FlagNames, FlagConditions(proc), |FlagNames|)
  {
    ghost var c := FlagConditions(proc);
    flags := [];
    if proc.stat.nice > 0 {
      flags := flags + ["low"];
    }
    assert flags == Selected(FlagNames, c, 1);
    if proc.stat.nice < 0 {
      flags := flags + ["high"];
    }
    assert flags == Selected(FlagNames, c, 2);
    if proc.status.vmLck > 0 {
      flags := flags + ["lock"];
    }
    assert flags == Selected(FlagNames, c, 3);
    if proc.status.vmLck > 0 {
      flags := flags + ["lock"];
    }
    assert flags == Selected(FlagNames, c, 4);
    if ToInt64(proc.status.tgid) == proc.stat.sid {
      flags := flags + ["leader"];
    }
    assert flags == Selected(FlagNames, c, 5);
    if proc.status.threads > 1 {
      flags := flags + ["threads"];
    }
    assert flags == Selected(FlagNames, c, 6);
    if proc.stat.pgrp == proc.stat.ttyPgrp {
      flags := flags + ["foreground"];
    }
  }

  // ---------------------------------------------------------------------------
  // Counting the words of a selection

  /** How many of the first `n` selected words are `w`. */
  function Hits<T(==)>(names: seq<T>, conds: seq<bool>, w: T, n: nat): nat
    requires n <= |names| == |conds|
  {
    if n == 0 then 0 else Hits(names, conds, w, n - 1) + Count(conds[n - 1] && names[n - 1] == w)
  }

  /** How many of the first `n` conditions hold. */
  function Holding(conds: seq<bool>, n: nat): nat
    requires n <= |conds|
  {
    if n == 0 then 0 else Holding(conds, n - 1) + Count(conds[n - 1])
  }

  lemma AddOpt<T>(p: seq<T>, c: bool, x: T, w: T)
    ensures multiset(p + Opt(c, x))[w] == multiset(p)[w] + Count(c && x == w)
    ensures |p + Opt(c, x)| == |p| + Count(c)
  {
    assert multiset(p + Opt(c, x)) == multiset(p) + multiset(Opt(c, x));
    if c {
      assert multiset(Opt(c, x)) == multiset{x};
    } else {
      assert multiset(Opt(c, x)) == multiset{};
    }
  }

  /** A word occurs in a selection once per position that names it and is selected. */
  lemma {:induction false} SelectedCount<T>(names: seq<T>, conds: seq<bool>, w: T, n: nat)
    requires n <= |names| == |conds|
    ensures multiset(Selected(names, conds, n))[w] == Hits(names, conds, w, n)
    ensures |Selected(names, conds, n)| == Holding(conds, n)
  {
    if n > 0 {
      var prev := Selected(names, conds, n - 1);
      SelectedCount(names, conds, w, n - 1);
      CountStep(prev, conds[n - 1], names[n - 1], w, Hits(names, conds, w, n - 1), Holding(conds, n - 1));
    }
  }

  lemma CountStep<T>(prev: seq<T>, c: bool, x: T, w: T, hits: nat, holding: nat)
    requires multiset(prev)[w] == hits && |prev| == holding
    ensures multiset(prev + Opt(c, x))[w] == hits + Count(c && x == w)
    ensures |prev + Opt(c, x)| == holding + Count(c)
  {
    AddOpt(prev, c, x, w);
  }

  lemma FlagWordsDistinct()
    ensures "low" != "high" && "low" != "lock" && "low" != "leader" && "low" != "threads" && "low" != "foreground"
    ensures "high" != "lock" && "high" != "leader" && "high" != "threads" && "high" != "foreground"
    ensures "lock" != "leader" && "lock" != "threads" && "lock" != "foreground"
    ensures "leader" != "threads" && "leader" != "foreground" && "threads" != "foreground"
  {
    assert "high"[0] != "lock"[0];
    assert "lock"[1] != "leader"[1];
  }

  /** The flag count of one word, written out over the seven tests. */
  lemma FlagHits(proc: Proc, w: string)
    ensures var c := FlagConditions(proc);
      Hits(FlagNames, c, w, 7)
      == Count(c[0] && "low" == w) + Count(c[1] && "high" == w) + Count(c[2] && "lock" == w)
       + Count(c[3] && "lock" == w) + Count(c[4] && "leader" == w) + Count(c[5] && "threads" == w)
       + Count(c[6] && "foreground" == w)
  {
    var c := FlagConditions(proc);
    assert Hits(FlagNames, c, w, 1) == Count(c[0] && "low" == w);
    assert Hits(FlagNames, c, w, 2) == Hits(FlagNames, c, w, 1) + Count(c[1] && "high" == w);
    assert Hits(FlagNames, c, w, 3) == Hits(FlagNames, c, w, 2) + Count(c[2] && "lock" == w);
    assert Hits(FlagNames, c, w, 4) == Hits(FlagNames, c, w, 3) + Count(c[3] && "lock" == w);
    assert Hits(FlagNames, c, w, 5) == Hits(FlagNames, c, w, 4) + Count(c[4] && "leader" == w);
    assert Hits(FlagNames, c, w, 6) == Hits(FlagNames, c, w, 5) + Count(c[5] && "threads" == w);
  }

  /**
   * What the flags of a process say: each word appears exactly when its
   * condition holds, `low` and `high` exclude each other, and `lock`
   * appears twice or not at all.
   */
  lemma StateFlagsFacts(proc: Proc)
    ensures var flags := Selected(FlagNames, FlagConditions(proc), |FlagNames|);
      && ("low" in flags <==> proc.stat.nice > 0)
      && ("high" in flags <==> proc.stat.nice < 0)
      && ("lock" in flags <==> proc.status.vmLck > 0)
      && ("leader" in flags <==> ToInt64(proc.status.tgid) == proc.stat.sid)
      && ("threads" in flags <==> proc.status.threads > 1)
      && ("foreground" in flags <==> proc.stat.pgrp == proc.stat.ttyPgrp)
      && !("low" in flags && "high" in flags)
      && multiset(flags)["lock"] == (if proc.status.vmLck > 0 then 2 else 0)
      && |flags| <= 6
  {
    var c := FlagConditions(proc);
    FlagCount(proc, "low");
    FlagCount(proc, "high");
    FlagCount(proc, "lock");
    FlagCount(proc, "leader");
    FlagCount(proc, "threads");
    FlagCount(proc, "foreground");
    SelectedCount(FlagNames, c, "lock", 7);
    assert Holding(c, 7) <= 6 by {
      assert Holding(c, 1) == Count(c[0]);
      assert Holding(c, 2) == Count(c[0]) + Count(c[1]);
      HoldingBound(c, 2, 7);
    }
  }

  /** How often a word occurs among the code's flags. */
  lemma FlagCount(proc: Proc, w: string)
    ensures var c := FlagConditions(proc);
      multiset(Selected(FlagNames, c, |FlagNames|))[w]
      == if w == "low" then Count(c[0])
         else if w == "high" then Count(c[1])
         else if w == "lock" then Count(c[2]) + Count(c[3])
         else if w == "leader" then Count(c[4])
         else if w == "threads" then Count(c[5])
         else if w == "foreground" then Count(c[6])
         else 0
  {
    FlagWordsDistinct();
    SelectedCount(FlagNames, FlagConditions(proc), w, 7);
    FlagHits(proc, w);
  }

  lemma {:induction false} HoldingBound(conds: seq<bool>, m: nat, n: nat)
    requires m <= n <= |conds|
    ensures Holding(conds, n) <= Holding(conds, m) + (n - m)
  {
    if m < n {
      HoldingBound(conds, m, n - 1);
    }
  }

  /** A shorter selection is a prefix of a longer one. */
  lemma {:induction false} SelectedPrefix(names: seq<string>, conds: seq<bool>, m: nat, n: nat)
    requires m <= n <= |names| == |conds|
    ensures |Selected(names, conds, m)| <= |Selected(names, conds, n)|
    ensures Selected(names, conds, n)[..|Selected(names, conds, m)|] == Selected(names, conds, m)
  {
    if m < n {
      SelectedPrefix(names, conds, m, n - 1);
      var a := Selected(names, conds, n - 1);
      var k := |Selected(names, conds, m)|;
      assert (a + Opt(conds[n - 1], names[n - 1]))[..k] == a[..k];
    }
  }

  /** As written, a process with locked memory is reported with `lock` twice, one after the other. */
  lemma LockFlagTwice(proc: Proc)
    requires proc.status.vmLck > 0
    ensures var flags := Selected(FlagNames, FlagConditions(proc), |FlagNames|);
      exists k :: 0 <= k < |flags| - 1 && flags[k] == flags[k + 1] == "lock"
  {
    var c := FlagConditions(proc);
    var flags := Selected(FlagNames, c, 7);
    var k := |Selected(FlagNames, c, 2)|;
    assert Selected(FlagNames, c, 3) == Selected(FlagNames, c, 2) + ["lock"];
    assert Selected(FlagNames, c, 4) == Selected(FlagNames, c, 3) + ["lock"];
    assert |Selected(FlagNames, c, 4)| == k + 2;
    SelectedPrefix(FlagNames, c, 4, 7);
    assert flags[..k + 2] == Selected(FlagNames, c, 4);
    assert flags[k] == "lock" && flags[k + 1] == "lock";
  }

  // ---------------------------------------------------------------------------
  // The flags as `ps -o stat` reports them

  /** One word per `ps` suffix letter: `lock` (L) is tested once. */
  const PsFlagNames: seq<string> := ["low", "high", "lock", "leader", "threads", "foreground"]

  function PsFlagConditions(proc: Proc): (conds: seq<bool>)
    ensures |conds| == |PsFlagNames|
  {
    [proc.stat.nice > 0,
     proc.stat.nice < 0,
     proc.status.vmLck > 0,
     ToInt64(proc.status.tgid) == proc.stat.sid,
     proc.status.threads > 1,
     proc.stat.pgrp == proc.stat.ttyPgrp]
  }

  /** The state flags with each word at most once, in the code's order. */
  function PsStateFlags(proc: Proc): (flags: seq<string>)
    ensures |flags| <= |PsFlagNames|
  {
    Selected(PsFlagNames, PsFlagConditions(proc), |PsFlagNames|)
  }

  lemma PsFlagHits(proc: Proc, w: string)
    ensures var c := PsFlagConditions(proc);
      Hits(PsFlagNames, c, w, 6)
      == Count(c[0] && "low" == w) + Count(c[1] && "high" == w) + Count(c[2] && "lock" == w)
       + Count(c[3] && "leader" == w) + Count(c[4] && "threads" == w) + Count(c[5] && "foreground" == w)
  {
    var c := PsFlagConditions(proc);
    assert Hits(PsFlagNames, c, w, 1) == Count(c[0] && "low" == w);
    assert Hits(PsFlagNames, c, w, 2) == Hits(PsFlagNames, c, w, 1) + Count(c[1] && "high" == w);
    assert Hits(PsFlagNames, c, w, 3) == Hits(PsFlagNames, c, w, 2) + Count(c[2] && "lock" == w);
    assert Hits(PsFlagNames, c, w, 4) == Hits(PsFlagNames, c, w, 3) + Count(c[3] && "leader" == w);
    assert Hits(PsFlagNames, c, w, 5) == Hits(PsFlagNames, c, w, 4) + Count(c[4] && "threads" == w);
  }

  /** A sequence in which no value counts twice repeats nothing. */
  lemma NoRepeats(s: seq<string>)
    requires forall w :: multiset(s)[w] <= 1
    ensures forall i, j :: 0 <= i < j < |s| ==> s[i] != s[j]
  {
    forall i, j | 0 <= i < j < |s|
      ensures s[i] != s[j]
    {
      assert s == s[..j] + s[j..];
      assert multiset(s) == multiset(s[..j]) + multiset(s[j..]);
      assert s[i] in s[..j] && s[j] in s[j..];
      assert multiset(s)[s[j]] >= multiset(s[..j])[s[j]] + 1;
    }
  }

  lemma PsFlagCount(proc: Proc, w: string)
    ensures var flags := PsStateFlags(proc);
      && multiset(flags)[w] <= 1
      && (w in flags <==> w in Selected(FlagNames, FlagConditions(proc), |FlagNames|))
  {
    FlagCount(proc, w);
    PsFlagCountOf(proc, w);
  }

  /** How often a word occurs among the `ps` flags. */
  lemma PsFlagCountOf(proc: Proc, w: string)
    ensures var c := PsFlagConditions(proc);
      multiset(PsStateFlags(proc))[w]
      == if w == "low" then Count(c[0])
         else if w == "high" then Count(c[1])
         else if w == "lock" then Count(c[2])
         else if w == "leader" then Count(c[3])
         else if w == "threads" then Count(c[4])
         else if w == "foreground" then Count(c[5])
         else 0
  {
    FlagWordsDistinct();
    SelectedCount(PsFlagNames, PsFlagConditions(proc), w, 6);
    PsFlagHits(proc, w);
  }

  /**
   * The corrected flags hold the same words as the code's, in the same
   * order, and none of them twice.
   */
  lemma PsStateFlagsFacts(proc: Proc)
    ensures var flags := PsStateFlags(proc);
      && (forall w :: w in flags <==> w in Selected(FlagNames, FlagConditions(proc), |FlagNames|))
      && (forall i, j :: 0 <= i < j < |flags| ==> flags[i] != flags[j])
      && |flags| <= 5
  {
    var c, pc := FlagConditions(proc), PsFlagConditions(proc);
    var flags, code := PsStateFlags(proc), Selected(FlagNames, c, 7);
    forall w
      ensures multiset(flags)[w] <= 1
      ensures w in flags <==> w in code
    {
      PsFlagCount(proc, w);
    }
    NoRepeats(flags);
    SelectedCount(PsFlagNames, pc, "lock", 6);
    assert Holding(pc, 6) <= 5 by {
      assert Holding(pc, 1) == Count(pc[0]);
      assert Holding(pc, 2) == Count(pc[0]) + Count(pc[1]);
      HoldingBound(pc, 2, 6);
    }
  }

  /**
   * The code's flags are the `ps` flags with a second `lock` inserted right
   * after the first, and are otherwise the same, in the same order.
   */
  lemma CodeFlagsRepeatLock(proc: Proc)
    ensures var code, flags := Selected(FlagNames, FlagConditions(proc), |FlagNames|), PsStateFlags(proc);
      var k := |Selected(PsFlagNames, PsFlagConditions(proc), 3)|;
      && k <= |flags|
      && code == flags[..k] + Opt(proc.status.vmLck > 0, "lock") + flags[k..]
      && (proc.status.vmLck > 0 ==> 0 < k && flags[k - 1] == "lock")
  {
    var c, pc := FlagConditions(proc), PsFlagConditions(proc);
    var p3 := Selected(PsFlagNames, pc, 3);
    var tail := Opt(c[4], "leader") + Opt(c[5], "threads") + Opt(c[6], "foreground");
    CodeFlagsSplit(proc);
    PsFlagsSplit(proc);
    var flags := PsStateFlags(proc);
    assert flags[..|p3|] == p3 && flags[|p3|..] == tail;
  }

  /** The code's flags: the first three `ps` words, the repeated `lock`, then the last three tests. */
  lemma CodeFlagsSplit(proc: Proc)
    ensures var c, pc := FlagConditions(proc), PsFlagConditions(proc);
      Selected(FlagNames, c, 7)
      == Selected(PsFlagNames, pc, 3) + Opt(c[3], "lock")
         + (Opt(c[4], "leader") + Opt(c[5], "threads") + Opt(c[6], "foreground"))
  {
    var c, pc := FlagConditions(proc), PsFlagConditions(proc);
    assert FlagNames[..3] == PsFlagNames[..3];
    assert c[..3] == pc[..3];
    SelectedAgree(FlagNames, c, PsFlagNames, pc, 3);
    SelectedFour(FlagNames, c, 3);
  }

  /** Selections agree as far as their words and tests do. */
  lemma {:induction false} SelectedAgree<T>(a: seq<T>, ca: seq<bool>, b: seq<T>, cb: seq<bool>, n: nat)
    requires n <= |a| == |ca| && n <= |b| == |cb|
    requires a[..n] == b[..n] && ca[..n] == cb[..n]
    ensures Selected(a, ca, n) == Selected(b, cb, n)
  {
    if n > 0 {
      assert a[..n - 1] == a[..n][..n - 1] && b[..n - 1] == b[..n][..n - 1];
      assert ca[..n - 1] == ca[..n][..n - 1] && cb[..n - 1] == cb[..n][..n - 1];
      assert a[n - 1] == a[..n][n - 1] && b[n - 1] == b[..n][n - 1];
      assert ca[n - 1] == ca[..n][n - 1] && cb[n - 1] == cb[..n][n - 1];
      SelectedAgree(a, ca, b, cb, n - 1);
    }
  }

  /** Four more positions of a selection, grouped as the code's flags are. */
  lemma SelectedFour<T>(names: seq<T>, conds: seq<bool>, n: nat)
    requires n + 4 <= |names| == |conds|
    ensures Selected(names, conds, n + 4)
            == Selected(names, conds, n) + Opt(conds[n], names[n])
               + (Opt(conds[n + 1], names[n + 1]) + Opt(conds[n + 2], names[n + 2]) + Opt(conds[n + 3], names[n + 3]))
  {
    SelectedThree(names, conds, n + 1);
  }

  /** Three more positions of a selection, grouped as the last three flags are. */
  lemma SelectedThree<T>(names: seq<T>, conds: seq<bool>, n: nat)
    requires n + 3 <= |names| == |conds|
    ensures Selected(names, conds, n + 3)
            == Selected(names, conds, n)
               + (Opt(conds[n], names[n]) + Opt(conds[n + 1], names[n + 1]) + Opt(conds[n + 2], names[n + 2]))
  {
    var p, a, b, d := Selected(names, conds, n), Opt(conds[n], names[n]),
      Opt(conds[n + 1], names[n + 1]), Opt(conds[n + 2], names[n + 2]);
    assert Selected(names, conds, n + 1) == p + a;
    assert Selected(names, conds, n + 2) == p + a + b;
    assert Selected(names, conds, n + 3) == p + a + b + d;
    assert p + a + b + d == p + (a + b + d);
  }

  /** The `ps` flags: the first three words, then the last three tests. */
  lemma PsFlagsSplit(proc: Proc)
    ensures var c, pc := FlagConditions(proc), PsFlagConditions(proc);
      && PsStateFlags(proc)
         == Selected(PsFlagNames, pc, 3) + (Opt(c[4], "leader") + Opt(c[5], "threads") + Opt(c[6], "foreground"))
      && (c[3] ==> Selected(PsFlagNames, pc, 3) == Selected(PsFlagNames, pc, 2) + ["lock"])
  {
    var c, pc := FlagConditions(proc), PsFlagConditions(proc);
    assert pc[3..] == c[4..];
    SelectedThree(PsFlagNames, pc, 3);
  }

  /** A niced, memory-locking, multi-threaded session leader in the foreground. */
  const LockingLeader: Proc := Proc(Stat(7, "db", "S", 1, 7, 7, 34817, 7, 0, 0, 5, 0, 0),
                                    Status(7, Ids(0, 0), Ids(0, 0), 1, 0, 0, 4), [])

  /** The code lists `lock` twice for it. */
  lemma FlagsExample()
    ensures Selected(FlagNames, FlagConditions(LockingLeader), |FlagNames|)
            == ["low", "lock", "lock", "leader", "threads", "foreground"]
  {
    var c := FlagConditions(LockingLeader);
    assert c == [true, false, true, true, true, true, true];
    assert Selected(FlagNames, c, 1) == ["low"];
    assert Selected(FlagNames, c, 2) == ["low"];
    assert Selected(FlagNames, c, 3) == ["low", "lock"];
    assert Selected(FlagNames, c, 4) == ["low", "lock", "lock"];
    assert Selected(FlagNames, c, 5) == ["low", "lock", "lock", "leader"];
    assert Selected(FlagNames, c, 6) == ["low", "lock", "lock", "leader", "threads"];
  }

  /** `ps` lists it once. */
  lemma PsFlagsExample()
    ensures PsStateFlags(LockingLeader) == ["low", "lock", "leader", "threads", "foreground"]
  {
    var pc := PsFlagConditions(LockingLeader);
    assert pc == [true, false, true, true, true, true];
    assert Selected(PsFlagNames, pc, 1) == ["low"];
    assert Selected(PsFlagNames, pc, 2) == ["low"];
    assert Selected(PsFlagNames, pc, 3) == ["low", "lock"];
    assert Selected(PsFlagNames, pc, 4) == ["low", "lock", "leader"];
    assert Selected(PsFlagNames, pc, 5) == ["low", "lock", "leader", "threads"];
  }

  /** The fixture shell leads its session but is not in the foreground; the script does neither. */
  lemma FixtureFlagsExample()
    ensures PsStateFlags(Bash15220) == ["leader"]
    ensures PsStateFlags(Script29821) == []
  {
    var c := PsFlagConditions(Bash15220);
    assert c == [false, false, false, true, false, false];
    assert Selected(PsFlagNames, c, 1) == [];
    assert Selected(PsFlagNames, c, 2) == [];
    assert Selected(PsFlagNames, c, 3) == [];
    assert Selected(PsFlagNames, c, 4) == ["leader"];
    assert Selected(PsFlagNames, c, 5) == ["leader"];
    var d := PsFlagConditions(Script29821);
    assert d == [false, false, false, false, false, false];
    assert Selected(PsFlagNames, d, 1) == [];
    assert Selected(PsFlagNames, d, 2) == [];
    assert Selected(PsFlagNames, d, 3) == [];
    assert Selected(PsFlagNames, d, 4) == [];
    assert Selected(PsFlagNames, d, 5) == [];
  }
}
