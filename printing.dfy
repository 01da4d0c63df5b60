/**
 * The debugging printout of a parsed command: `print_pgm` (code/lsh.c:104-125)
 * and `print_cmd` (code/lsh.c:88-98), as functions returning the text written
 * to standard output.
 */
module Printing {
  import opened Wrappers
  import opened Commands

  /** The text printed before the words of one program. */
  const LinePrefix: string := "            * [ "

  /** `while (*pl) printf("%s ", *pl++);`: every word followed by one space. */
  function WordsText(ws: seq<string>): (r: string)
    ensures ws == [] <==> r == []
    ensures ws != [] ==> |ws[0]| < |r| && r[..|ws[0]|] == ws[0] && r[|r| - 1] == ' '
  {
    if ws == [] then "" else ws[0] + " " + WordsText(ws[1..])
  }

  /** The line `print_pgm` prints for one node. */
  function PgmLine(argv: Argv): (r: string)
    ensures |r| >= |LinePrefix| + 2
    ensures r[..|LinePrefix|] == LinePrefix && r[|r| - 2..] == LineEnd
  {
    LinePrefix + WordsText(Words(argv)) + LineEnd
  }

  /**
   * `print_pgm`: prints the rest of the list first, then this node, so that
   * the reversed list comes out in typed order.  A NULL list prints nothing.
   */
  function PrintPgm(p: Pgm): (r: string)
    ensures p.Nil? <==> r == []
    ensures p.Node? ==> |PgmLine(p.pgmlist)| <= |r| && r[|r| - |PgmLine(p.pgmlist)|..] == PgmLine(p.pgmlist)
  {
    match p
    case Nil => ""
    case Node(argv, next) => PrintPgm(next) + PgmLine(argv)
  }

  /** Reference rendering: one line per stage, from the first stage to the last. */
  function Render(stages: seq<Argv>): string
  {
    if stages == [] then "" else PgmLine(stages[0]) + Render(stages[1..])
  }

  lemma {:induction false} RenderAppend(a: seq<Argv>, b: seq<Argv>)
    ensures Render(a + b) == Render(a) + Render(b)
  {
    if a == [] {
      assert a + b == b;
    } else {
      assert (a + b)[0] == a[0];
      assert (a + b)[1..] == a[1..] + b;
      RenderAppend(a[1..], b);
    }
  }

  /**
   * `print_pgm` prints one line per program, in the order the pipeline was
   * typed (the reverse of list order); an empty list prints nothing.
   */
  lemma {:induction false} PrintPgmInTypedOrder(p: Pgm)
    ensures PrintPgm(p) == Render(Stages(p))
  {
    match p
    case Nil =>
    case Node(argv, next) =>
      PrintPgmInTypedOrder(next);
      StagesOfNode(argv, next);
      RenderAppend(Stages(next), [argv]);
      assert Render([argv]) == PgmLine(argv);
  }

  /** The number of newline characters in a string. */
  function Newlines(s: string): nat
  {
    if s == [] then 0 else (if s[0] == '\n' then 1 else 0) + Newlines(s[1..])
  }

  lemma {:induction false} NewlinesAppend(a: string, b: string)
    ensures Newlines(a + b) == Newlines(a) + Newlines(b)
  {
    if a == [] {
      assert a + b == b;
    } else {
      assert (a + b)[0] == a[0];
      assert (a + b)[1..] == a[1..] + b;
      NewlinesAppend(a[1..], b);
    }
  }

  /** No word of the vector contains a newline. */
  predicate OneLineArgs(argv: Argv)
  {
    forall w :: w in Words(argv) ==> '\n' !in w
  }

  predicate OneLinePgms(p: Pgm)
  {
    forall argv :: argv in ToSeq(p) ==> OneLineArgs(argv)
  }

  lemma {:induction false} WordsTextNewlines(ws: seq<string>)
    requires forall w :: w in ws ==> '\n' !in w
    ensures Newlines(WordsText(ws)) == 0
  {
    if ws != [] {
      assert ws[0] in ws;
      NoNewlines(ws[0]);
      NoNewlines(" ");
      WordsTextNewlines(ws[1..]);
      NewlinesAppend(ws[0], " ");
      NewlinesAppend(ws[0] + " ", WordsText(ws[1..]));
    }
  }

  lemma {:induction false} NoNewlines(s: string)
    requires '\n' !in s
    ensures Newlines(s) == 0
  {
    if s != [] {
      assert s[0] != '\n';
      NoNewlines(s[1..]);
    }
  }

  /** Each program is printed on exactly one line when its words hold no newline. */
  lemma PgmLineNewlines(argv: Argv)
    requires OneLineArgs(argv)
    ensures Newlines(PgmLine(argv)) == 1
  {
    var words := WordsText(Words(argv));
    WordsTextNewlines(Words(argv));
    PrefixNewlines();
    EndNewlines();
    NewlinesAppend(LinePrefix, words);
    NewlinesAppend(LinePrefix + words, LineEnd);
  }

  const LineEnd: string := "]\n"

  lemma PrefixNewlines()
    ensures Newlines(LinePrefix) == 0
  {
    NoNewlines(LinePrefix);
  }

  lemma EndNewlines()
    ensures Newlines(LineEnd) == 1
  {
    assert LineEnd == "]" + "\n";
    NewlinesAppend("]", "\n");
  }

  /** `print_pgm` prints exactly as many lines as the list has nodes. */
  lemma {:induction false} PrintPgmLines(p: Pgm)
    requires OneLinePgms(p)
    ensures Newlines(PrintPgm(p)) == |ToSeq(p)|
  {
    match p
    case Nil =>
    case Node(argv, next) =>
      assert ToSeq(p) == [argv] + ToSeq(next);
      assert argv in ToSeq(p);
      assert OneLinePgms(next) by {
        forall a | a in ToSeq(next) ensures OneLineArgs(a) { assert a in ToSeq(p); }
      }
      PrintPgmLines(next);
      PgmLineNewlines(argv);
      NewlinesAppend(PrintPgm(next), PgmLine(argv));
  }

  const Rule: string := "------------------------------\n"

  /** `cond ? path : "<none>"` for the two redirections. */
  function PathOrNone(path: Option<string>): string
  {
    match path
    case Some(s) => s
    case None => "<none>"
  }

  /** The six lines `print_cmd` writes before the programs. */
  function CmdHeader(cmd: Command): (r: string)
    ensures |r| >= |Rule| + 6 && r[..|Rule|] == Rule && r[|r| - 6..] == "Pgms:\n"
  {
    Rule + "Parse OK\n"
    + "stdin:      " + PathOrNone(cmd.rstdin) + "\n"
    + "stdout:     " + PathOrNone(cmd.rstdout) + "\n"
    + "background: " + (if cmd.background then "true" else "false") + "\n"
    + "Pgms:\n"
  }

  /** `print_cmd`: a fixed header, the programs as `print_pgm` prints them, a rule. */
  function PrintCmd(cmd: Command): (r: string)
    ensures |r| >= 2 * |Rule| && r[..|Rule|] == Rule && r[|r| - |Rule|..] == Rule
  {
    CmdHeader(cmd) + PrintPgm(cmd.pgm) + Rule
  }

  /**
   * `print_cmd` prints the fixed header, then the programs in typed order, one
   * line each, then the closing rule.
   */
  lemma PrintCmdLayout(cmd: Command)
    ensures PrintCmd(cmd) == CmdHeader(cmd) + Render(Stages(cmd.pgm)) + Rule
    ensures OneLinePgms(cmd.pgm) ==> Newlines(PrintPgm(cmd.pgm)) == |ToSeq(cmd.pgm)|
  {
    PrintPgmInTypedOrder(cmd.pgm);
    if OneLinePgms(cmd.pgm) {
      PrintPgmLines(cmd.pgm);
    }
  }
}
