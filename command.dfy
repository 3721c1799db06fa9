/**
 * The `command` column: the process's arguments joined by single spaces, or
 * its bracketed kernel name when it has no arguments (a kernel thread or a
 * zombie, whose `cmdline` is empty).
 */
module Command {
  import opened Text
  import opened ProcRecord

  /**
   * `formatCommand`. Without arguments the result is `[` + name + `]`, so the
   * name can be read back out of it; with arguments none of which holds a
   * space, splitting the result at spaces gives the arguments back.
   */
  function FormatCommand(proc: Proc): (s: string)
    ensures proc.cmdline == [] ==>
      |s| == |proc.stat.tcomm| + 2 && s[0] == '[' && s[|s| - 1] == ']' && s[1..|s| - 1] == proc.stat.tcomm
    ensures proc.cmdline != [] && (forall i :: 0 <= i < |proc.cmdline| ==> ' ' !in proc.cmdline[i]) ==>
      Split(s, ' ') == proc.cmdline
  {
    if |proc.cmdline| > 0 then
      JoinSplitsBack(proc.cmdline);
      Join(proc.cmdline, " ")
    else "[" + proc.stat.tcomm + "]"
  }

  lemma JoinSplitsBack(xs: seq<string>)
    requires xs != []
    ensures (forall i :: 0 <= i < |xs| ==> ' ' !in xs[i]) ==> Split(Join(xs, " "), ' ') == xs
  {
    if forall i :: 0 <= i < |xs| ==> ' ' !in xs[i] {
      SplitJoin(xs, ' ');
    }
  }

  /**
   * The arguments can be read back from the command by splitting at spaces
   * exactly when none of them contains a space.
   */
  lemma CommandRoundTrip(proc: Proc)
    requires proc.cmdline != []
    ensures Split(FormatCommand(proc), ' ') == proc.cmdline
      <==> forall i :: 0 <= i < |proc.cmdline| ==> ' ' !in proc.cmdline[i]
  {
    var xs := proc.cmdline;
    assert FormatCommand(proc) == Join(xs, [' ']);
    if forall i :: 0 <= i < |xs| ==> ' ' !in xs[i] {
      SplitJoin(xs, ' ');
    } else {
      SplitPiecesLackSep(FormatCommand(proc), ' ');
    }
  }

  /** One argument holding a space and the same text as two arguments give the same command. */
  lemma SpaceInArgumentIsLost(x: string, y: string, s: Stat, st: Status)
    ensures FormatCommand(Proc(s, st, [x + " " + y])) == FormatCommand(Proc(s, st, [x, y]))
  {
    assert [x, y][1..] == [y];
    assert Join([x, y], " ") == x + " " + y;
    assert FormatCommand(Proc(s, st, [x, y])) == Join([x, y], " ");
    assert FormatCommand(Proc(s, st, [x + " " + y])) == Join([x + " " + y], " ");
  }

  /**
   * The fixture shell and daemon show their one argument; a kernel thread
   * named `kthreadd`, whatever else its record holds, shows `[kthreadd]`.
   */
  lemma CommandExamples(kthreadd: Proc)
    requires kthreadd.cmdline == [] && kthreadd.stat.tcomm == "kthreadd"
    ensures FormatCommand(Bash15220) == "-bash"
    ensures FormatCommand(Sshd29167) == "/usr/sbin/sshd"
    ensures FormatCommand(kthreadd) == "[kthreadd]"
  {
    SingleArgument(Bash15220);
    SingleArgument(Sshd29167);
    NoArguments(kthreadd);
    KthreaddBrackets();
  }

  /**
   * The bracketed name as one literal, proved apart from `FormatCommand`:
   * next to its contract the solver unfolds `Split` over the literal.
   */
  lemma KthreaddBrackets()
    ensures "[" + "kthreadd" + "]" == "[kthreadd]"
  {
  }

  /** Without arguments the command is the bracketed name. */
  lemma NoArguments(proc: Proc)
    requires proc.cmdline == []
    ensures FormatCommand(proc) == "[" + proc.stat.tcomm + "]"
  {
  }

  /** A single argument is the whole command. */
  lemma SingleArgument(proc: Proc)
    requires |proc.cmdline| == 1
    ensures FormatCommand(proc) == proc.cmdline[0]
  {
  }

  /** The fixture script's second argument holds spaces, so its command does not split back into its arguments. */
  lemma ScriptCommandAmbiguous()
    ensures Split(FormatCommand(Script29821), ' ') != Script29821.cmdline
  {
    var arg := Script29821.cmdline[1];
    assert arg[34] == ' ';
    CommandRoundTrip(Script29821);
  }
}
