/**
 * The built-in commands `exit` and `cd` as `execute_cmd` recognises them
 * (code/lsh.c:148-191), and the older `check_built_ins` (code/lsh.c:127-146)
 * that `execute_cmd` still calls afterwards.
 *
 * The environment and the file system are abstract: `home` is what
 * `getenv("HOME")` returns, and `chdir(path)` succeeds exactly for the paths in
 * `enterable`, after which `path` is the working directory.
 */
module Builtins {
  import opened Wrappers
  import opened Commands

  datatype Os = Os(cwd: string, home: Option<string>, enterable: set<string>)

  /** `chdir(path)`: the new state on success, `None` on failure (a NULL path fails). */
  function Chdir(os: Os, path: Option<string>): (r: Option<Os>)
    ensures r.Some? <==> path.Some? && path.value in os.enterable
    ensures r.Some? ==> r.value == os.(cwd := path.value)
  {
    match path
    case Some(p) => if p in os.enterable then Some(os.(cwd := p)) else None
    case None => None
  }

  /** What `execute_cmd` does before it reaches the pipeline code. */
  datatype Outcome =
    | NoCommand          // cmd == NULL: returns -1
    | ExitTooManyArgs    // "exit: too many arguments": returns -1
    | ExitShell          // prints "\nexit\n" and ends the shell with status 0
    | CdTooManyArgs      // "cd: too many arguments": returns -1, no chdir
    | CdFailed           // perror("cd failed"): returns -1
    | CdChanged          // returns 0
    | NotBuiltin         // goes on to check_built_ins and the pipeline

  datatype Dispatched = Dispatched(outcome: Outcome, os: Os)

  /** The value `execute_cmd` returns for a built-in outcome; `None` where it does not return. */
  function ReturnValue(o: Outcome): (r: Option<int>)
    ensures r == Some(-1) <==> o in {NoCommand, ExitTooManyArgs, CdTooManyArgs, CdFailed}
    ensures r == Some(0) <==> o == CdChanged
  {
    match o
    case NoCommand => Some(-1)
    case ExitTooManyArgs => Some(-1)
    case ExitShell => None
    case CdTooManyArgs => Some(-1)
    case CdFailed => Some(-1)
    case CdChanged => Some(0)
    case NotBuiltin => None
  }

  /**
   * The command the parser hands over: its list is non-empty, the head's
   * argument vector is NULL-terminated and names a program, and every word of
   * every stage is a C string.
   */
  predicate WellFormed(cmd: Command)
  {
    cmd.pgm.Node? && None in cmd.pgm.pgmlist && |Words(cmd.pgm.pgmlist)| >= 1 &&
    forall argv :: argv in ToSeq(cmd.pgm) ==> CWords(argv)
  }

  /**
   * The built-in dispatch of `execute_cmd`.  Only the head of the `Pgm` list is
   * inspected, which is the LAST stage as typed.  The working directory changes
   * only on a successful `cd`, and then to an enterable path; everything other
   * than `exit` and `cd` is left to the pipeline code with the state untouched.
   */
  function Dispatch(cmd: Option<Command>, os: Os): (d: Dispatched)
    requires cmd.Some? ==> WellFormed(cmd.value)
    ensures d.os == os || (d.outcome == CdChanged && d.os == os.(cwd := d.os.cwd) && d.os.cwd in os.enterable)
    ensures d.outcome == NotBuiltin <==>
              cmd.Some? && Words(cmd.value.pgm.pgmlist)[0] != "exit" && Words(cmd.value.pgm.pgmlist)[0] != "cd"
    ensures d.outcome == NoCommand <==> cmd.None?
  {
    if cmd.None? then Dispatched(NoCommand, os)
    else
      var words := Words(cmd.value.pgm.pgmlist);
      var argc := |words|;
      if words[0] == "exit" then
        if argc > 1 then Dispatched(ExitTooManyArgs, os) else Dispatched(ExitShell, os)
      else if words[0] == "cd" then
        if argc > 2 then Dispatched(CdTooManyArgs, os)
        else
          var path := if argc == 1 then os.home else Some(words[1]);
          match Chdir(os, path)
          case Some(os') => Dispatched(CdChanged, os')
          case None => Dispatched(CdFailed, os)
      else Dispatched(NotBuiltin, os)
  }

  /** `exit` with arguments is refused and returns -1; alone it ends the shell. */
  lemma ExitRule(cmd: Command, os: Os)
    requires WellFormed(cmd) && Words(cmd.pgm.pgmlist)[0] == "exit"
    ensures |Words(cmd.pgm.pgmlist)| > 1 ==>
              Dispatch(Some(cmd), os) == Dispatched(ExitTooManyArgs, os) && ReturnValue(ExitTooManyArgs) == Some(-1)
    ensures |Words(cmd.pgm.pgmlist)| == 1 ==> Dispatch(Some(cmd), os) == Dispatched(ExitShell, os)
  {
  }

  /**
   * `cd` with two or more arguments is refused without a `chdir`; otherwise the
   * target is the argument, or HOME when there is none.  The directory changes
   * to the target when it can be entered and stays as it was otherwise.
   */
  lemma CdRule(cmd: Command, os: Os)
    requires WellFormed(cmd) && Words(cmd.pgm.pgmlist)[0] == "cd"
    ensures |Words(cmd.pgm.pgmlist)| > 2 ==> Dispatch(Some(cmd), os) == Dispatched(CdTooManyArgs, os)
    ensures |Words(cmd.pgm.pgmlist)| <= 2 ==>
              var words := Words(cmd.pgm.pgmlist);
              var target := if |words| == 1 then os.home else Some(words[1]);
              Dispatch(Some(cmd), os) ==
                if target.Some? && target.value in os.enterable
                then Dispatched(CdChanged, os.(cwd := target.value))
                else Dispatched(CdFailed, os)
  {
  }

  /**
   * Only the head node matters: two commands whose heads agree dispatch alike,
   * whatever stages precede the last one and whatever the redirections and
   * background flag say.  So `ls | cd /tmp` runs the built-in `cd`, and
   * `cd /tmp | cat` is handed to the pipeline code.
   */
  lemma HeadOnly(c1: Command, c2: Command, os: Os)
    requires WellFormed(c1) && WellFormed(c2)
    requires c1.pgm.pgmlist == c2.pgm.pgmlist
    ensures Dispatch(Some(c1), os) == Dispatch(Some(c2), os)
  {
  }

  /** What `check_built_ins` leads to: a return value and the new state, or the end of the shell. */
  datatype Checked = Returned(value: int, os: Os) | ShellEnded(status: int)

  /**
   * `check_built_ins`: `cd` without an argument reports it and returns 0; `cd`
   * with one tries `chdir` and returns 0 either way (extra arguments are
   * ignored); `exit` ends the shell with status 0; anything else returns 1.
   */
  function CheckBuiltIns(argv: Argv, os: Os): (c: Checked)
    requires |Words(argv)| >= 1
    ensures c.Returned? && c.value == 1 <==> Words(argv)[0] != "cd" && Words(argv)[0] != "exit"
    ensures c.Returned? && c.value == 1 ==> c.os == os
  {
    var words := Words(argv);
    if words[0] == "cd" then
      if |words| == 1 then Returned(0, os)
      else match Chdir(os, Some(words[1]))
        case Some(os') => Returned(0, os')
        case None => Returned(0, os)
    else if words[0] == "exit" then ShellEnded(0)
    else Returned(1, os)
  }

  /**
   * `check_built_ins` is reached only for a command `execute_cmd` did not treat
   * as a built-in, so its `cd` and `exit` branches never run: it returns 1 and
   * leaves the state alone.
   */
  lemma CheckBuiltInsDead(cmd: Command, os: Os)
    requires WellFormed(cmd)
    requires Dispatch(Some(cmd), os).outcome == NotBuiltin
    ensures CheckBuiltIns(cmd.pgm.pgmlist, os) == Returned(1, os)
  {
  }
}
