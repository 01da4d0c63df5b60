/**
 * The descriptor-slot arithmetic of `execute_cmd` and `execute_pipeline`
 * (code/lsh.c:199-212, 227-272), as functions of the list index `k` of a stage
 * and the number of stages `n`.
 *
 * Pipe `j` occupies `pipefds[2j]` (read end) and `pipefds[2j + 1]` (write end).
 * List index 0 is the head of the `Pgm` list, the last stage as typed; list
 * index `n - 1` is the first stage as typed.
 */
module Wiring {
  import opened Wrappers

  /** `num_cmds - 1` pipes for `num_cmds` stages. */
  function PipeCount(n: nat): nat
    requires n >= 1
  {
    n - 1
  }

  /** The length of `int pipefds[2 * (num_cmds - 1)]`. */
  function SlotCount(n: nat): nat
    requires n >= 1
  {
    2 * PipeCount(n)
  }

  /** The read end of pipe `j`. */
  function ReadEndSlot(j: nat): nat { 2 * j }

  /** The write end of pipe `j`. */
  function WriteEndSlot(j: nat): nat { 2 * j + 1 }

  /**
   * The slot stage `k` takes its standard input from: `pipefds[2 * cmd_idx]`
   * when `cmd_idx < num_cmds - 1`.  It is the read end of a pipe, in bounds,
   * and every stage but the first typed one has it.
   */
  function ReadSlot(k: nat, n: nat): (r: Option<nat>)
    requires k < n
    ensures r.Some? <==> k < n - 1
    ensures r.Some? ==> r.value < SlotCount(n) && r.value == ReadEndSlot(k)
  {
    if k < n - 1 then Some(2 * k) else None
  }

  /**
   * The slot stage `k` sends its standard output to:
   * `pipefds[2 * (cmd_idx - 1) + 1]` when `cmd_idx > 0`.  It is the write end
   * of a pipe, in bounds, and every stage but the last typed one has it.
   */
  function WriteSlot(k: nat, n: nat): (r: Option<nat>)
    requires k < n
    ensures r.Some? <==> k > 0
    ensures r.Some? ==> r.value < SlotCount(n) && r.value == WriteEndSlot(k - 1)
  {
    if k > 0 then Some(2 * (k - 1) + 1) else None
  }

  /** Stage `k` reads or writes slot `s`. */
  predicate Uses(k: nat, n: nat, s: nat)
    requires k < n
  {
    ReadSlot(k, n) == Some(s) || WriteSlot(k, n) == Some(s)
  }

  /** The one stage that uses slot `s`: the reader of an even slot, the writer of an odd one. */
  function SlotUser(s: nat): nat
  {
    if s % 2 == 0 then s / 2 else s / 2 + 1
  }

  /**
   * Every slot that the wiring reads or writes is inside `pipefds`, and each slot
   * of `pipefds` is used by exactly one stage, `SlotUser(s)`.
   */
  lemma UsedByExactlyOne(k: nat, n: nat, s: nat)
    requires k < n
    ensures Uses(k, n, s) ==> s < SlotCount(n)
    ensures s < SlotCount(n) ==> (Uses(k, n, s) <==> SlotUser(s) == k)
  {
  }

  /**
   * The pipes form a chain: pipe `j` is read by exactly stage `j` and written
   * by exactly stage `j + 1`; stage 0 (the last typed) writes no pipe and stage
   * `n - 1` (the first typed) reads none.
   */
  lemma Chain(n: nat, j: nat, k: nat)
    requires n >= 1 && j < PipeCount(n) && k < n
    ensures ReadSlot(k, n) == Some(ReadEndSlot(j)) <==> k == j
    ensures WriteSlot(k, n) == Some(WriteEndSlot(j)) <==> k == j + 1
    ensures WriteSlot(0, n) == None && ReadSlot(n - 1, n) == None
  {
  }

  /**
   * In typed order: the `t`-th stage as typed writes the pipe that the
   * `(t + 1)`-th stage as typed reads.
   */
  lemma TypedOrderFlow(n: nat, t: nat)
    requires t + 1 < n
    ensures var writer := n - 1 - t;
            var reader := n - 2 - t;
            WriteSlot(writer, n) == Some(WriteEndSlot(reader)) && ReadSlot(reader, n) == Some(ReadEndSlot(reader))
  {
  }

  /** The slots the parent closes after forking stage `k` (code/lsh.c:266-269), in order. */
  function ParentCloses(k: nat, n: nat): (c: seq<nat>)
    requires k < n
    ensures forall s :: s in c <==> Uses(k, n, s)
  {
    (if k < n - 1 then [2 * k] else []) + (if k > 0 then [2 * (k - 1) + 1] else [])
  }

  /**
   * Everything the parent closes while stages `k .. n - 1` are forked, in
   * fork order: `execute_pipeline` recurses to the end of the list first, so
   * the stage with the highest list index (the first typed) is forked first.
   */
  function ClosesFrom(k: nat, n: nat): (c: seq<nat>)
    requires k <= n
    ensures forall s :: s in c ==> FirstSlotFrom(k) <= s && s + 2 < 2 * n
    decreases n - k
  {
    if k == n then [] else ClosesFrom(k + 1, n) + ParentCloses(k, n)
  }

  /** The slots `0 .. m - 1` in order. */
  function Range(m: nat): (r: seq<nat>)
    ensures |r| == m && forall i :: 0 <= i < m ==> r[i] == i
  {
    if m == 0 then [] else Range(m - 1) + [m - 1]
  }

  /** The first slot stage `k` can use; stages `k ..` together use the slots from here up. */
  function FirstSlotFrom(k: nat): nat
  {
    if k == 0 then 0 else 2 * k - 1
  }

  lemma {:induction false} ClosesFromCount(k: nat, n: nat, s: nat)
    requires 1 <= n && k <= n
    ensures multiset(ClosesFrom(k, n))[s] == if FirstSlotFrom(k) <= s < SlotCount(n) then 1 else 0
    decreases n - k
  {
    if k < n {
      ClosesFromCount(k + 1, n, s);
      var rest, mine := ClosesFrom(k + 1, n), ParentCloses(k, n);
      assert ClosesFrom(k, n) == rest + mine;
      CountOfConcat(rest, mine, s);
      ParentClosesCount(k, n, s);
      SlotsFromStep(k, n, s);
    }
  }

  lemma CountOfConcat(a: seq<nat>, b: seq<nat>, s: nat)
    ensures multiset(a + b)[s] == multiset(a)[s] + multiset(b)[s]
  {
    assert multiset(a + b) == multiset(a) + multiset(b);
  }

  lemma SingletonCount(x: nat, s: nat)
    ensures multiset([x])[s] == if s == x then 1 else 0
  {
  }

  /** Stage `k`'s own slots extend the run used by stages `k + 1 ..` down to `FirstSlotFrom(k)`. */
  lemma SlotsFromStep(k: nat, n: nat, s: nat)
    requires k < n
    ensures (if FirstSlotFrom(k + 1) <= s < SlotCount(n) then 1 else 0)
            + (if k < n - 1 && s == 2 * k then 1 else 0) + (if k > 0 && s == 2 * k - 1 then 1 else 0)
            == if FirstSlotFrom(k) <= s < SlotCount(n) then 1 else 0
  {
  }

  /** How often stage `k`'s closes name slot `s`: once for each end it uses. */
  lemma ParentClosesCount(k: nat, n: nat, s: nat)
    requires k < n
    ensures multiset(ParentCloses(k, n))[s] ==
            (if k < n - 1 && s == 2 * k then 1 else 0) + (if k > 0 && s == 2 * k - 1 then 1 else 0)
  {
    var r: seq<nat> := if k < n - 1 then [2 * k] else [];
    var w: seq<nat> := if k > 0 then [2 * k - 1] else [];
    assert ParentCloses(k, n) == r + w;
    assert multiset(r + w) == multiset(r) + multiset(w);
    assert multiset(r)[s] == if k < n - 1 && s == 2 * k then 1 else 0;
    assert multiset(w)[s] == if k > 0 && s == 2 * k - 1 then 1 else 0;
  }

  lemma {:induction false} RangeCount(m: nat, s: nat)
    ensures multiset(Range(m))[s] == if s < m then 1 else 0
  {
    if m == 0 {
      assert Range(m) == [];
    } else {
      RangeCount(m - 1, s);
      var front := Range(m - 1);
      assert Range(m) == front + [m - 1];
      CountOfConcat(front, [m - 1], s);
      SingletonCount(m - 1, s);
      assert multiset(Range(m))[s] == multiset(front)[s] + multiset([m - 1])[s];
    }
  }

  /**
   * Parent hygiene: over the whole pipeline the parent closes every slot of
   * `pipefds` exactly once, and nothing else — its closes are a permutation of
   * the slots `0 .. 2(n - 1) - 1`.
   */
  lemma ParentClosesEverySlotOnce(n: nat)
    requires n >= 1
    ensures multiset(ClosesFrom(0, n)) == multiset(Range(SlotCount(n)))
    ensures |ClosesFrom(0, n)| == SlotCount(n)
  {
    forall s ensures multiset(ClosesFrom(0, n))[s] == multiset(Range(SlotCount(n)))[s] {
      ClosesFromCount(0, n, s);
      RangeCount(SlotCount(n), s);
    }
    assert multiset(ClosesFrom(0, n)) == multiset(Range(SlotCount(n)));
    assert |multiset(ClosesFrom(0, n))| == |multiset(Range(SlotCount(n)))|;
  }
}
