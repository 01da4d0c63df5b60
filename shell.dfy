/**
 * `execute_cmd` (code/lsh.c:148-224): the built-in dispatch, the stage count,
 * pipe creation, the launcher and the foreground wait, put together.
 */
module Shell {
  import opened Wrappers
  import opened Commands
  import opened Wiring
  import opened Builtins
  import opened Pipeline

  /** What the pipeline half of `execute_cmd` does (code/lsh.c:198-222). */
  datatype Launch = Launch(
    exitStatus: Option<int>,  // Some(1) when a pipe() failed and the shell exited
    children: seq<Child>,     // the processes forked, in fork order
    closes: seq<nat>,         // how many times the shell closed each slot of pipefds
    waits: nat)               // how many times it called wait(NULL)

  /** Everything one call of `execute_cmd` does that the model keeps. */
  datatype Run = Run(
    dispatched: Dispatched,   // the built-in outcome and the shell state after it
    returned: Option<int>,    // the value returned; None when the shell process ended
    exitStatus: Option<int>,  // the status the shell process ended with, if it did
    launch: Option<Launch>)   // the pipeline half, when it ran

  /**
   * The launch of a command that passed as not built in, with `n` stages: if a
   * `pipe()` fails the shell exits with status 1 before forking; if not, every
   * stage whose `fork()` succeeds gets one child, in typed order, wired to the
   * read end of pipe `k` and the write end of pipe `k - 1` as its position
   * allows, with both of its pipe ends still open in the shell when it was
   * forked; every slot is closed by the shell once if the one stage using it
   * was forked and never otherwise; the shell waits `n` times in the foreground
   * and not at all in the background.
   */
  ghost predicate LaunchSpec(l: Launch, c: Command, pipeOk: nat -> bool, forkOk: nat -> bool)
  {
    var n := |ToSeq(c.pgm)|;
    n >= 1 && |l.closes| == SlotCount(n) &&
    if FirstFailure(pipeOk, PipeCount(n)) < PipeCount(n) then
      l.exitStatus == Some(1) && l.children == [] && l.waits == 0 &&
      forall s :: 0 <= s < |l.closes| ==> l.closes[s] == 0
    else
      l.exitStatus == None &&
      l.waits == (if c.background then 0 else n) &&
      (forall s :: 0 <= s < |l.closes| ==> l.closes[s] == if forkOk(SlotUser(s)) then 1 else 0) &&
      |l.children| == Forks(0, n, forkOk) &&
      (forall i :: 0 <= i < |l.children| ==> forkOk(l.children[i].idx) && Wired(l.children[i], c.pgm, n) &&
                                                 l.children[i].closedAtFork == 0) &&
      (forall i, i' :: 0 <= i < i' < |l.children| ==> l.children[i].idx > l.children[i'].idx)
  }

  /**
   * With every `pipe()` and `fork()` succeeding, all `n` stages run and the
   * shell closes every slot exactly once, as `ClosesFrom(0, n)` does.
   */
  lemma AllSucceed(l: Launch, c: Command, pipeOk: nat -> bool, forkOk: nat -> bool)
    requires LaunchSpec(l, c, pipeOk, forkOk)
    requires forall j :: 0 <= j < PipeCount(|ToSeq(c.pgm)|) ==> pipeOk(j)
    requires forall k :: 0 <= k < |ToSeq(c.pgm)| ==> forkOk(k)
    ensures l.exitStatus == None && |l.children| == |ToSeq(c.pgm)|
    ensures forall s :: 0 <= s < |l.closes| ==> l.closes[s] == multiset(ClosesFrom(0, |ToSeq(c.pgm)|))[s] == 1
  {
    var n := |ToSeq(c.pgm)|;
    assert FirstFailure(pipeOk, PipeCount(n)) == PipeCount(n);
    AllForksSucceed(0, n, forkOk);
    forall s | 0 <= s < |l.closes| ensures l.closes[s] == multiset(ClosesFrom(0, n))[s] == 1 {
      ClosesFromCount(0, n, s);
    }
  }

  /** Lines 198-222 of `execute_cmd`: count, create the pipes, launch, wait. */
  method LaunchPipeline(c: Command, pipeOk: nat -> bool, forkOk: nat -> bool) returns (l: Launch)
    requires c.pgm.Node?
    ensures LaunchSpec(l, c, pipeOk, forkOk)
  {
    var n := CountCmds(c.pgm);
    var table := new PipeFds(n);
    var ok := table.CreatePipes(pipeOk);
    if !ok {
      // perror("pipe"); exit(1);
      return Launch(Some(1), [], table.closes[..], 0);
    }
    ghost var noCloses := table.closes[..];
    var children := table.ExecutePipeline(c.pgm, 0, forkOk);
    var waits := 0;
    if !c.background {
      for i := 0 to n
        invariant waits == i
      {
        waits := waits + 1;  // wait(NULL)
      }
    }
    forall i | 0 <= i < |children|
      ensures forkOk(children[i].idx) && Wired(children[i], c.pgm, n) && children[i].closedAtFork == 0
    {
      assert LaunchedAt(children[i], table.fds[..], n, ToSeq(c.pgm), 0, noCloses, forkOk);
      ChildWiring(table, children[i], c.pgm);
      assert children[i].closedAtFork == UsedCloses(noCloses, children[i].idx, n);
    }
    l := Launch(None, children, table.closes[..], waits);
  }

  /**
   * `execute_cmd`.  A NULL command or a built-in is handled as `Dispatch` says,
   * with no process, pipe or wait, and the return value `ReturnValue` gives
   * (`exit` alone ends the shell with status 0).  Anything else goes to the
   * pipeline half, after which the function returns 0 unless a `pipe()`
   * failure ended the shell with status 1.
   */
  method ExecuteCmd(cmd: Option<Command>, os: Os, pipeOk: nat -> bool, forkOk: nat -> bool) returns (run: Run)
    requires cmd.Some? ==> WellFormed(cmd.value)
    ensures run.dispatched == Dispatch(cmd, os)
    ensures run.dispatched.outcome != NotBuiltin ==>
              run.launch == None && run.returned == ReturnValue(run.dispatched.outcome) &&
              run.exitStatus == (if run.dispatched.outcome == ExitShell then Some(0) else None)
    ensures run.dispatched.outcome == NotBuiltin ==>
              run.launch.Some? && LaunchSpec(run.launch.value, cmd.value, pipeOk, forkOk) &&
              run.exitStatus == run.launch.value.exitStatus &&
              run.returned == (if run.exitStatus.Some? then None else Some(0))
  {
    if cmd.None? {
      return Run(Dispatched(NoCommand, os), Some(-1), None, None);
    }
    var c := cmd.value;
    var argv := c.pgm.pgmlist;
    var argc := CountArgs(argv);
    var name := argv[0].value;
    if name == "exit" {
      if argc > 1 {
        // fprintf(stderr, "exit: too many arguments\n")
        return Run(Dispatched(ExitTooManyArgs, os), Some(-1), None, None);
      }
      return Run(Dispatched(ExitShell, os), None, Some(0), None);
    }
    if name == "cd" {
      if argc > 2 {
        // fprintf(stderr, "cd: too many arguments\n")
        return Run(Dispatched(CdTooManyArgs, os), Some(-1), None, None);
      }
      var path := argv[1];
      if path == None {
        path := os.home;  // getenv("HOME")
      }
      match Chdir(os, path)
      case Some(os') =>
        return Run(Dispatched(CdChanged, os'), Some(0), None, None);
      case None =>
        // perror("cd failed")
        return Run(Dispatched(CdFailed, os), Some(-1), None, None);
    }
    // check_built_ins only ever sees what is neither `exit` nor `cd`, so it returns 1
    CheckBuiltInsDead(c, os);
    var checked := CheckBuiltIns(argv, os);
    assert checked == Returned(1, os);
    var l := LaunchPipeline(c, pipeOk, forkOk);
    run := Run(Dispatched(NotBuiltin, os), if l.exitStatus.Some? then None else Some(0), l.exitStatus, Some(l));
  }

  /**
   * A child of the `n`-stage list `p` wired as the chain demands: the argument
   * vector of its node, standard input from the read end of pipe `idx` unless
   * it is the first stage typed, standard output to the write end of pipe
   * `idx - 1` unless it is the last.
   */
  ghost predicate Wired(c: Child, p: Pgm, n: nat)
  {
    c.idx < n && n == |ToSeq(p)| &&
    c.argv == ToSeq(p)[c.idx] &&
    c.stdin == (if c.idx < n - 1 then Some(PipeEnd(c.idx, Read)) else None) &&
    c.stdout == (if c.idx > 0 then Some(PipeEnd(c.idx - 1, Write)) else None)
  }

  lemma ChildWiring(table: PipeFds, c: Child, p: Pgm)
    requires table.Valid() && c.idx < table.numCmds && |ToSeq(p)| == table.numCmds
    requires forall s :: 0 <= s < table.fds.Length ==> table.fds[s] == CreatedFd(s)
    requires c == ChildAt(table.fds[..], table.numCmds, c.idx, ToSeq(p)[c.idx], c.closedAtFork)
    ensures Wired(c, p, table.numCmds)
  {
    var k := c.idx;
    if k < table.numCmds - 1 {
      assert table.fds[2 * k] == CreatedFd(2 * k);
    }
    if k > 0 {
      assert table.fds[2 * (k - 1) + 1] == CreatedFd(2 * (k - 1) + 1);
    }
  }
}
