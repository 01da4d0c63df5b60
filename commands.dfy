/**
 * The parsed command handed to the executor: a `Command` holding a linked list of
 * `Pgm` nodes (code/lsh.c:88-98, 148-224), and the two counting loops over it
 * (code/lsh.c:156-158 and 199-201).
 */
module Commands {
  import opened Wrappers

  /**
   * A `char **pgmlist`: the program name and its arguments, ended by NULL
   * (`None`).  Entries after the first NULL are never looked at.
   */
  type Argv = seq<Option<string>>

  /** The words of an argument vector: the strings before its first NULL. */
  function Words(argv: Argv): (ws: seq<string>)
    ensures |ws| <= |argv|
    ensures forall k :: 0 <= k < |ws| ==> argv[k] == Some(ws[k])
    ensures |ws| < |argv| ==> argv[|ws|] == None
  {
    if argv == [] || argv[0].None? then [] else [argv[0].value] + Words(argv[1..])
  }

  /** Every word is a C string: it holds no NUL character. */
  predicate CWords(argv: Argv)
  {
    forall w :: w in Words(argv) ==> '\0' !in w
  }

  /**
   * The `Pgm` list.  It is stored in reverse: the head is the LAST program of
   * the pipeline as typed, and the last node is the first program.
   */
  datatype Pgm = Nil | Node(pgmlist: Argv, next: Pgm)

  /** A parsed command line; the redirections are only ever printed. */
  datatype Command = Command(pgm: Pgm, rstdin: Option<string>, rstdout: Option<string>, background: bool)

  /** The nodes of a `Pgm` list in list order: index 0 is the head. */
  function ToSeq(p: Pgm): (s: seq<Argv>)
    ensures p.Node? ==> |s| >= 1 && s[0] == p.pgmlist
  {
    match p
    case Nil => []
    case Node(argv, next) => [argv] + ToSeq(next)
  }

  /** The list after the head, index by index. */
  lemma ToSeqOfNode(p: Pgm)
    requires p.Node?
    ensures |ToSeq(p)| == |ToSeq(p.next)| + 1
    ensures forall j :: 1 <= j < |ToSeq(p)| ==> ToSeq(p)[j] == ToSeq(p.next)[j - 1]
  {
    assert ToSeq(p) == [p.pgmlist] + ToSeq(p.next);
  }

  /** The reverse of a sequence. */
  function Reverse<T>(s: seq<T>): (r: seq<T>)
    ensures |r| == |s|
    ensures forall k :: 0 <= k < |s| ==> r[k] == s[|s| - 1 - k]
  {
    if s == [] then [] else Reverse(s[1..]) + [s[0]]
  }

  /** The stages of the pipeline in the order they were typed. */
  function Stages(p: Pgm): (s: seq<Argv>)
    ensures |s| == |ToSeq(p)|
    ensures forall t :: 0 <= t < |s| ==> s[t] == ToSeq(p)[|s| - 1 - t]
  {
    Reverse(ToSeq(p))
  }

  /** Typed order is list order reversed: the head node is the last typed stage. */
  lemma {:induction false} StagesOfNode(argv: Argv, next: Pgm)
    ensures Stages(Node(argv, next)) == Stages(next) + [argv]
  {
    assert ToSeq(Node(argv, next))[1..] == ToSeq(next);
  }

  /**
   * `argc` in `execute_cmd`: `while (pgmlist[argc] != NULL) argc++;`.  The
   * result is the index of the first NULL, which is the number of words.
   */
  method CountArgs(argv: Argv) returns (argc: nat)
    requires None in argv
    ensures argc < |argv| && argv[argc] == None
    ensures forall k :: 0 <= k < argc ==> argv[k].Some?
    ensures argc == |Words(argv)|
  {
    argc := 0;
    while argv[argc] != None
      invariant argc < |argv|
      invariant forall k :: 0 <= k < argc ==> argv[k].Some?
      invariant None in argv[argc..]
      decreases |argv| - argc
    {
      assert argv[argc..] == [argv[argc]] + argv[argc + 1..];
      argc := argc + 1;
    }
    WordsCount(argv, argc);
  }

  /** The number of words is the index of the first NULL. */
  lemma {:induction false} WordsCount(argv: Argv, n: nat)
    requires n < |argv| && argv[n] == None
    requires forall k :: 0 <= k < n ==> argv[k].Some?
    ensures |Words(argv)| == n
  {
    if n > 0 {
      WordsCount(argv[1..], n - 1);
    }
  }

  /**
   * `num_cmds` in `execute_cmd`: `for (tmp = pgm; tmp; tmp = tmp->next) num_cmds++;`.
   * The result is the length of the list, at least one for a non-empty list.
   */
  method CountCmds(p: Pgm) returns (n: nat)
    ensures n == |ToSeq(p)|
    ensures p.Node? ==> n >= 1
  {
    n := 0;
    var tmp := p;
    while tmp.Node?
      invariant n + |ToSeq(tmp)| == |ToSeq(p)|
      decreases tmp
    {
      n := n + 1;
      tmp := tmp.next;
    }
  }
}
