/**
 * Pipe creation and the recursive launcher of `execute_cmd`/`execute_pipeline`
 * (code/lsh.c:203-214, 227-272) over the descriptor array `pipefds`.
 *
 * `pipe()` and `fork()` are not modelled; whether each call succeeds is a
 * parameter.  What is kept is what lands in each slot of `pipefds`, how each
 * forked child is wired, and a count of the `close` calls the shell makes on
 * each slot.
 */
module Pipeline {
  import opened Wrappers
  import opened Commands
  import opened Wiring

  datatype End = Read | Write

  /** The content of one slot of `pipefds`: not yet set, or an end of pipe `pipe`. */
  datatype Fd = Unset | PipeEnd(pipe: nat, end: End)

  /** What `pipe(pipefds + 2 * j)` stores at slot `s` of pipe `j = s / 2`. */
  function CreatedFd(s: nat): (fd: Fd)
    ensures fd.PipeEnd? && fd.pipe == s / 2
    ensures fd.end == Read <==> s % 2 == 0
  {
    PipeEnd(s / 2, if s % 2 == 0 then Read else Write)
  }

  /** The first `j` in `from .. m - 1` for which `pipe()` fails, or `m` when none does. */
  function FirstFailureFrom(pipeOk: nat -> bool, from: nat, m: nat): (r: nat)
    requires from <= m
    ensures from <= r <= m
    ensures forall j :: from <= j < r ==> pipeOk(j)
    ensures r < m ==> !pipeOk(r)
    decreases m - from
  {
    if from == m then m else if !pipeOk(from) then from else FirstFailureFrom(pipeOk, from + 1, m)
  }

  /** How many pipes the creation loop makes before it stops. */
  function FirstFailure(pipeOk: nat -> bool, m: nat): nat
  {
    FirstFailureFrom(pipeOk, 0, m)
  }

  /** The number of stages in `k .. n - 1` whose `fork()` succeeds. */
  function Forks(k: nat, n: nat, forkOk: nat -> bool): (r: nat)
    requires k <= n
    ensures r <= n - k
    ensures r == n - k ==> forall i :: k <= i < n ==> forkOk(i)
    decreases n - k
  {
    if k == n then 0 else Forks(k + 1, n, forkOk) + (if forkOk(k) then 1 else 0)
  }

  lemma {:induction false} AllForksSucceed(k: nat, n: nat, forkOk: nat -> bool)
    requires k <= n
    requires forall i :: k <= i < n ==> forkOk(i)
    ensures Forks(k, n, forkOk) == n - k
    decreases n - k
  {
    if k < n {
      AllForksSucceed(k + 1, n, forkOk);
    }
  }

  /**
   * A forked child: its list index, the vector handed to `execvp`, what `dup2`
   * put on its standard input and output (`None`: inherited), and how many
   * `close` calls the shell had already made on those slots when it forked
   * the child (0: both ends were still open in the shell).
   */
  datatype Child = Child(idx: nat, argv: Argv, stdin: Option<Fd>, stdout: Option<Fd>, closedAtFork: nat)

  /** The shell's closes so far on the slots stage `k` uses, given the per-slot counts `cl`. */
  function UsedCloses(cl: seq<nat>, k: nat, n: nat): (r: nat)
    requires k < n && |cl| == SlotCount(n)
    ensures r == 0 <==> forall s :: 0 <= s < |cl| && SlotUser(s) == k ==> cl[s] == 0
  {
    UsersOf(k, n);
    (if k < n - 1 then cl[2 * k] else 0) + (if k > 0 then cl[2 * k - 1] else 0)
  }

  /** Counts that agree on the slots stage `k` uses give the same `UsedCloses`. */
  lemma UsedClosesUntouched(cl: seq<nat>, cl': seq<nat>, k: nat, n: nat)
    requires k < n && |cl| == |cl'| == SlotCount(n)
    requires forall s :: 0 <= s < |cl| && SlotUser(s) == k ==> cl'[s] == cl[s]
    ensures UsedCloses(cl', k, n) == UsedCloses(cl, k, n)
  {
    UsersOf(k, n);
  }

  /** The slots stage `k` uses are `2k` (unless it is the first typed) and `2k - 1` (unless it is the last). */
  lemma UsersOf(k: nat, n: nat)
    requires k < n
    ensures forall s :: 0 <= s < SlotCount(n) && SlotUser(s) == k ==>
              (s == 2 * k && k < n - 1) || (s == 2 * k - 1 && k > 0)
    ensures k < n - 1 ==> SlotUser(2 * k) == k
    ensures k > 0 ==> SlotUser(2 * k - 1) == k
  {
  }

  /**
   * The per-slot close counts `after` are `before` with one more close on each
   * slot whose stage is among `k ..` and was forked.
   */
  predicate ClosedFrom(after: seq<nat>, before: seq<nat>, k: nat, forkOk: nat -> bool)
  {
    |after| == |before| &&
    forall s :: 0 <= s < |after| ==>
      after[s] == before[s] + (if k <= SlotUser(s) && forkOk(SlotUser(s)) then 1 else 0)
  }

  /** Past the last stage nothing more is closed. */
  lemma NothingClosed(cl: seq<nat>, n: nat, forkOk: nat -> bool)
    requires n >= 1 && |cl| == SlotCount(n)
    ensures ClosedFrom(cl, cl, n, forkOk)
  {
  }

  /** `after` is `before` with one more close on each slot stage `k` uses. */
  predicate StageClosed(after: seq<nat>, before: seq<nat>, k: nat)
  {
    |after| == |before| &&
    forall s :: 0 <= s < |after| ==> after[s] == before[s] + (if SlotUser(s) == k then 1 else 0)
  }

  /**
   * One step of `execute_pipeline`: `ClosedFrom` at `k + 1`, followed by the
   * closes for stage `k` when its fork succeeded and none when it failed, is
   * `ClosedFrom` at `k`.
   */
  lemma ClosedFromStep(before: seq<nat>, mid: seq<nat>, after: seq<nat>, k: nat, forkOk: nat -> bool)
    requires ClosedFrom(mid, before, k + 1, forkOk)
    requires forkOk(k) ==> StageClosed(after, mid, k)
    requires !forkOk(k) ==> after == mid
    ensures ClosedFrom(after, before, k, forkOk)
  {
  }

  /** The children come in strictly falling list index: the order in which they were forked. */
  predicate FallingIdx(children: seq<Child>)
  {
    forall i, i' :: 0 <= i < i' < |children| ==> children[i].idx > children[i'].idx
  }

  lemma FallingAppend(children: seq<Child>, child: Child)
    requires FallingIdx(children)
    requires forall i :: 0 <= i < |children| ==> children[i].idx > child.idx
    ensures FallingIdx(children + [child])
  {
    var all := children + [child];
    forall i, i' | 0 <= i < i' < |all| ensures all[i].idx > all[i'].idx {
      assert all[i] == children[i];
    }
  }

  /** The descriptor a child gets from slot `slot` of the descriptor array `fds`, if any. */
  function SlotFd(fds: seq<Fd>, slot: Option<nat>): (r: Option<Fd>)
    requires slot.Some? ==> slot.value < |fds|
    ensures r.Some? <==> slot.Some?
    ensures r.Some? ==> r.value == fds[slot.value]
  {
    match slot
    case Some(s) => Some(fds[s])
    case None => None
  }

  /**
   * The child for list index `k` of `n` stages: `dup2(pipefds[2 * k], STDIN_FILENO)`
   * unless it is the first stage typed, `dup2(pipefds[2 * (k - 1) + 1], STDOUT_FILENO)`
   * unless it is the last.
   */
  function ChildAt(fds: seq<Fd>, n: nat, k: nat, argv: Argv, closed: nat): (c: Child)
    requires k < n && |fds| == SlotCount(n)
    ensures c.idx == k && c.argv == argv && c.closedAtFork == closed
    ensures c.stdin.Some? <==> k < n - 1
    ensures c.stdout.Some? <==> k > 0
  {
    Child(k, argv, SlotFd(fds, ReadSlot(k, n)), SlotFd(fds, WriteSlot(k, n)), closed)
  }

  /**
   * The children launched for the stages `rest`, which start at list index
   * `k` of `n`: each has an index in `k .. n - 1` whose `fork()` succeeded and
   * is the child `ChildAt` builds for that index from its stage and the closes
   * `before` on its slots; they come in falling index order.
   */
  predicate Launched(children: seq<Child>, fds: seq<Fd>, n: nat, rest: seq<Argv>, k: nat,
                     before: seq<nat>, forkOk: nat -> bool)
  {
    n >= 1 && |fds| == |before| == SlotCount(n) &&
    (forall i {:trigger LaunchedAt(children[i], fds, n, rest, k, before, forkOk)} :: 0 <= i < |children| ==> LaunchedAt(children[i], fds, n, rest, k, before, forkOk)) &&
    FallingIdx(children)
  }

  predicate LaunchedAt(c: Child, fds: seq<Fd>, n: nat, rest: seq<Argv>, k: nat,
                       before: seq<nat>, forkOk: nat -> bool)
  {
    n >= 1 && |fds| == |before| == SlotCount(n) &&
    k <= c.idx < n && c.idx - k < |rest| && forkOk(c.idx) &&
    c == ChildAt(fds, n, c.idx, rest[c.idx - k], UsedCloses(before, c.idx, n))
  }

  /** The children of the stages after the head are children of the whole list. */
  lemma LaunchedShift(children: seq<Child>, fds: seq<Fd>, n: nat, p: Pgm, k: nat,
                      before: seq<nat>, forkOk: nat -> bool)
    requires p.Node? && Launched(children, fds, n, ToSeq(p.next), k + 1, before, forkOk)
    ensures Launched(children, fds, n, ToSeq(p), k, before, forkOk)
  {
    forall i | 0 <= i < |children| ensures LaunchedAt(children[i], fds, n, ToSeq(p), k, before, forkOk) {
      assert LaunchedAt(children[i], fds, n, ToSeq(p.next), k + 1, before, forkOk);
      ToSeqOfNode(p);
    }
  }

  /** Forking the head after the stages behind it keeps the children in falling index order. */
  lemma LaunchedAppend(children: seq<Child>, child: Child, fds: seq<Fd>, n: nat, p: Pgm, k: nat,
                       before: seq<nat>, forkOk: nat -> bool)
    requires p.Node? && Launched(children, fds, n, ToSeq(p.next), k + 1, before, forkOk)
    requires k < n && forkOk(k)
    requires child == ChildAt(fds, n, k, p.pgmlist, UsedCloses(before, k, n))
    ensures Launched(children + [child], fds, n, ToSeq(p), k, before, forkOk)
  {
    LaunchedShift(children, fds, n, p, k, before, forkOk);
    var all := children + [child];
    assert LaunchedAt(child, fds, n, ToSeq(p), k, before, forkOk);
    forall i | 0 <= i < |all| ensures LaunchedAt(all[i], fds, n, ToSeq(p), k, before, forkOk) {
      if i < |children| {
        assert all[i] == children[i];
      }
    }
    forall i | 0 <= i < |children| ensures children[i].idx > child.idx {
      assert LaunchedAt(children[i], fds, n, ToSeq(p.next), k + 1, before, forkOk);
    }
    FallingAppend(children, child);
  }

  /** The descriptor array of one command, and the shell's `close` calls on it. */
  class PipeFds {
    /** `num_cmds`. */
    const numCmds: nat
    /** `int pipefds[2 * (num_cmds - 1)]`. */
    const fds: array<Fd>
    /** How many times the shell has closed each slot. */
    const closes: array<nat>

    ghost predicate Valid()
      reads this
    {
      numCmds >= 1 && fds.Length == SlotCount(numCmds) && closes.Length == SlotCount(numCmds)
    }

    constructor (n: nat)
      requires n >= 1
      ensures Valid() && numCmds == n && fresh(fds) && fresh(closes)
      ensures forall s :: 0 <= s < fds.Length ==> fds[s] == Unset
      ensures forall s :: 0 <= s < closes.Length ==> closes[s] == 0
    {
      numCmds := n;
      fds := new Fd[SlotCount(n)](_ => Unset);
      closes := new nat[SlotCount(n)](_ => 0);
    }

    /**
     * The creation loop: `pipe(pipefds + 2 * i)` for each `i < num_cmds - 1`.
     * It stops at the first failure (where the code calls `exit(1)`); every pipe
     * made before that has its read end at `2i` and its write end at `2i + 1`,
     * and the other slots are untouched.
     */
    method CreatePipes(pipeOk: nat -> bool) returns (ok: bool)
      requires Valid()
      modifies fds
      ensures ok <==> FirstFailure(pipeOk, PipeCount(numCmds)) == PipeCount(numCmds)
      ensures forall s :: 0 <= s < fds.Length ==>
                fds[s] == if s / 2 < FirstFailure(pipeOk, PipeCount(numCmds)) then CreatedFd(s) else old(fds[s])
    {
      var i := 0;
      while i < numCmds - 1
        invariant 0 <= i <= numCmds - 1
        invariant forall j :: 0 <= j < i ==> pipeOk(j)
        invariant forall s :: 0 <= s < fds.Length ==> fds[s] == if s / 2 < i then CreatedFd(s) else old(fds[s])
      {
        if !pipeOk(i) {
          return false;
        }
        fds[2 * i] := PipeEnd(i, Read);
        fds[2 * i + 1] := PipeEnd(i, Write);
        i := i + 1;
      }
      return true;
    }

    /**
     * `execute_pipeline(p, k, ...)`: recurse over the rest of the list first,
     * then fork the stage at `k`; on success the shell closes the slots that
     * child uses, on failure it returns without closing them.  Afterwards each
     * slot has been closed once more exactly when the one stage that uses it is
     * among `k ..` and was forked; the children come out in fork order, which is
     * the typed order (falling list index), each wired by `ChildAt`.
     */
    method ExecutePipeline(p: Pgm, k: nat, forkOk: nat -> bool) returns (children: seq<Child>)
      requires Valid() && k + |ToSeq(p)| == numCmds
      modifies closes
      ensures ClosedFrom(closes[..], old(closes[..]), k, forkOk)
      ensures |children| == Forks(k, numCmds, forkOk)
      ensures Launched(children, fds[..], numCmds, ToSeq(p), k, old(closes[..]), forkOk)
      decreases p
    {
      ghost var before := closes[..];
      ghost var fs := fds[..];
      if p.Nil? {
        NothingClosed(before, k, forkOk);
        return [];
      }
      children := ExecutePipeline(p.next, k + 1, forkOk);
      ghost var mid := closes[..];
      if !forkOk(k) {
        // perror("Fork failed"); return -1;
        LaunchedShift(children, fs, numCmds, p, k, before, forkOk);
        ClosedFromStep(before, mid, mid, k, forkOk);
        return;
      }
      // the recursion closed only slots of later stages, so stage k's slots are as they were
      UsedClosesUntouched(before, mid, k, numCmds);
      var child := ForkStage(k, p.pgmlist);
      ClosedFromStep(before, mid, closes[..], k, forkOk);
      LaunchedAppend(children, child, fs, numCmds, p, k, before, forkOk);
      children := children + [child];
      assert fds[..] == fs;
    }

    /**
     * A successful `fork()` of stage `k` seen from the shell: the child wired by
     * `ChildAt`, carrying the closes made so far on its slots, and then the
     * parent's `close` calls on those slots.
     */
    method ForkStage(k: nat, argv: Argv) returns (child: Child)
      requires Valid() && k < numCmds
      modifies closes
      ensures child == ChildAt(fds[..], numCmds, k, argv, UsedCloses(old(closes[..]), k, numCmds))
      ensures StageClosed(closes[..], old(closes[..]), k)
    {
      var closed := (if k < numCmds - 1 then closes[2 * k] else 0) + (if k > 0 then closes[2 * k - 1] else 0);
      child := ChildAt(fds[..], numCmds, k, argv, closed);
      CloseUsed(k);
    }

    /**
     * The parent's `close` calls after forking stage `k` (code/lsh.c:266-269):
     * exactly the slots stage `k` uses are closed once more.
     */
    method CloseUsed(k: nat)
      requires Valid() && k < numCmds
      modifies closes
      ensures forall s :: 0 <= s < closes.Length ==>
                closes[s] == old(closes[s]) + (if SlotUser(s) == k then 1 else 0)
    {
      if k < numCmds - 1 {
        closes[2 * k] := closes[2 * k] + 1;
      }
      if k > 0 {
        closes[2 * (k - 1) + 1] := closes[2 * (k - 1) + 1] + 1;
      }
    }
  }
}
