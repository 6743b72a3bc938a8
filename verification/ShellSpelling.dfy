/** What the shell's texts are made of, lexeme by lexeme, and the grammar of
    commands over lexemes. */
module ShellSpelling {

  import opened ShellGrammar

  // ---- commands with their words ------------------------------------------

  datatype Tree =
    | TExec(words: seq<string>)
    | TRedir(cmd: Tree, file: string, mode: Mode)
    | TPipe(left: Tree, right: Tree)
    | TList(left: Tree, right: Tree)
    | TBack(cmd: Tree)

  function Text(s: string, w: Span): string {
    if w.q <= w.eq <= |s| then s[w.q..w.eq] else ""
  }

  function Texts(s: string, ws: seq<Span>): (r: seq<string>)
    ensures |r| == |ws| && forall i :: 0 <= i < |r| ==> r[i] == Text(s, ws[i])
  {
    if ws == [] then [] else Texts(s, ws[..|ws| - 1]) + [Text(s, ws[|ws| - 1])]
  }

  /** The command that c stands for in the text s. */
  function TreeOf(s: string, c: Cmd): Tree {
    match c
    case Exec(args) => TExec(Texts(s, args))
    case Redir(c1, file, mode) => TRedir(TreeOf(s, c1), Text(s, file), mode)
    case Pipe(l, r) => TPipe(TreeOf(s, l), TreeOf(s, r))
    case List(l, r) => TList(TreeOf(s, l), TreeOf(s, r))
    case Back(c1) => TBack(TreeOf(s, c1))
  }

  // ---- lexemes ------------------------------------------------------------

  /** A mark is a symbol, or '+' for ">>". */
  datatype Lexeme = Word(text: string) | Mark(c: char)

  ghost predicate Plain(w: string) {
    w != "" && forall i :: 0 <= i < |w| ==> !Delimiter(w[i])
  }

  ghost predicate Proper(x: Lexeme) {
    match x
    case Word(w) => Plain(w)
    case Mark(c) => Symbol(c) || c == '+'
  }

  function Spelling(x: Lexeme): string {
    match x
    case Word(w) => w
    case Mark(c) => if c == '+' then ">>" else [c]
  }

  /** From a to b stands x: a word goes on to the next delimiter, and ">" is not
      followed by another one. */
  ghost predicate Stands(s: string, a: nat, b: nat, x: Lexeme) {
    && a < b <= |s| && Proper(x) && s[a..b] == Spelling(x)
    && (b < |s| ==> (x.Word? ==> Delimiter(s[b])) && (x == Mark('>') ==> s[b] != '>'))
  }

  ghost predicate AllWhite(s: string, p: nat, q: nat) {
    p <= q <= |s| && forall i :: p <= i < q ==> White(s[i])
  }

  /** From p on the text consists of these lexemes, with any white space around
      them. */
  ghost predicate Spaced(s: string, p: nat, xs: seq<Lexeme>)
    decreases |xs|
  {
    if xs == [] then AllWhite(s, p, |s|)
    else exists a: nat, b: nat :: AllWhite(s, p, a) && Stands(s, a, b, xs[0]) && Spaced(s, b, xs[1..])
  }

  // ---- the grammar --------------------------------------------------------

  predicate IsArrow(x: Lexeme) {
    x == Mark('<') || x == Mark('>') || x == Mark('+')
  }

  datatype Target = Target(file: string, mode: Mode)

  function TargetOf(arrow: Lexeme, file: Lexeme): Target
    requires file.Word?
  {
    Target(file.text, if arrow == Mark('<') then In else Out)
  }

  /** Words and redirections in any order, or something else. */
  datatype Parts = Neither | Parts(words: seq<string>, targets: seq<Target>)

  function PartsOf(xs: seq<Lexeme>): Parts {
    if xs == [] then Parts([], [])
    else if xs[0].Word? then WithWord(xs[0].text, PartsOf(xs[1..]))
    else if |xs| >= 2 && IsArrow(xs[0]) && xs[1].Word? then WithTarget(TargetOf(xs[0], xs[1]), PartsOf(xs[2..]))
    else Neither
  }

  function WithWord(w: string, p: Parts): Parts {
    if p.Neither? then p else Parts([w] + p.words, p.targets)
  }

  function WithTarget(g: Target, p: Parts): Parts {
    if p.Neither? then p else Parts(p.words, [g] + p.targets)
  }

  /** The command inside the redirections, the first of them innermost. */
  function Redirected(t: Tree, targets: seq<Target>): Tree {
    if targets == [] then t
    else
      var last := targets[|targets| - 1];
      TRedir(Redirected(t, targets[..|targets| - 1]), last.file, last.mode)
  }

  /** The grammar: a line is commands separated by ';', a command a pipeline with
      any number of '&' behind it, a pipeline simple commands or blocks separated
      by '|', and a block a line in parentheses with redirections behind it. */
  ghost predicate SpellsLine(xs: seq<Lexeme>, t: Tree)
    decreases |xs|, 4
  {
    SpellsBacked(xs, t) || (t.TList? && exists m: nat :: ListAt(xs, m, t))
  }

  ghost predicate ListAt(xs: seq<Lexeme>, m: nat, t: Tree)
    requires t.TList?
    decreases |xs|, 3
  {
    m < |xs| && xs[m] == Mark(';') && SpellsBacked(xs[..m], t.left) && SpellsLine(xs[m + 1..], t.right)
  }

  ghost predicate SpellsBacked(xs: seq<Lexeme>, t: Tree)
    decreases |xs|, 3
  {
    || SpellsPipe(xs, t)
    || (t.TBack? && xs != [] && xs[|xs| - 1] == Mark('&') && SpellsBacked(xs[..|xs| - 1], t.cmd))
  }

  ghost predicate SpellsPipe(xs: seq<Lexeme>, t: Tree)
    decreases |xs|, 2
  {
    SpellsExec(xs, t) || (t.TPipe? && exists m: nat :: PipeAt(xs, m, t))
  }

  ghost predicate PipeAt(xs: seq<Lexeme>, m: nat, t: Tree)
    requires t.TPipe?
    decreases |xs|, 1
  {
    m < |xs| && xs[m] == Mark('|') && SpellsExec(xs[..m], t.left) && SpellsPipe(xs[m + 1..], t.right)
  }

  ghost predicate SpellsExec(xs: seq<Lexeme>, t: Tree)
    decreases |xs|, 1
  {
    SpellsSimple(xs, t) || exists m: nat :: BlockAt(xs, m, t)
  }

  predicate SpellsSimple(xs: seq<Lexeme>, t: Tree) {
    var p := PartsOf(xs);
    p.Parts? && |p.words| < MAXARGS && t == Redirected(TExec(p.words), p.targets)
  }

  /** Parentheses up to m and redirections after them. */
  ghost predicate BlockAt(xs: seq<Lexeme>, m: nat, t: Tree)
    decreases |xs|, 0
  {
    && 0 < m < |xs| && xs[0] == Mark('(') && xs[m] == Mark(')')
    && var p := PartsOf(xs[m + 1..]);
       p.Parts? && p.words == [] && exists t1 :: SpellsLine(xs[1..m], t1) && t == Redirected(t1, p.targets)
  }

  /** The text s spells the command t. */
  ghost predicate Spells(s: string, t: Tree) {
    exists xs :: Spaced(s, 0, xs) && SpellsLine(xs, t)
  }

  // ---- putting spellings together -----------------------------------------

  lemma ListMade(xs: seq<Lexeme>, ys: seq<Lexeme>, l: Tree, r: Tree)
    requires SpellsBacked(xs, l) && SpellsLine(ys, r)
    ensures SpellsLine(xs + [Mark(';')] + ys, TList(l, r))
  {
    var zs := xs + [Mark(';')] + ys;
    assert zs[..|xs|] == xs && zs[|xs| + 1..] == ys;
    assert ListAt(zs, |xs|, TList(l, r));
  }

  lemma PipeMade(xs: seq<Lexeme>, ys: seq<Lexeme>, l: Tree, r: Tree)
    requires SpellsExec(xs, l) && SpellsPipe(ys, r)
    ensures SpellsPipe(xs + [Mark('|')] + ys, TPipe(l, r))
  {
    var zs := xs + [Mark('|')] + ys;
    assert zs[..|xs|] == xs && zs[|xs| + 1..] == ys;
    assert PipeAt(zs, |xs|, TPipe(l, r));
  }

  lemma BackMade(xs: seq<Lexeme>, t: Tree)
    requires SpellsBacked(xs, t)
    ensures SpellsBacked(xs + [Mark('&')], TBack(t))
  {
    assert (xs + [Mark('&')])[..|xs|] == xs;
  }

  lemma BlockMade(xs: seq<Lexeme>, ys: seq<Lexeme>, t: Tree, targets: seq<Target>)
    requires SpellsLine(xs, t) && PartsOf(ys) == Parts([], targets)
    ensures SpellsExec([Mark('(')] + xs + [Mark(')')] + ys, Redirected(t, targets))
  {
    var zs := [Mark('(')] + xs + [Mark(')')] + ys;
    assert zs[1..|xs| + 1] == xs && zs[|xs| + 2..] == ys;
    assert BlockAt(zs, |xs| + 1, Redirected(t, targets));
  }

  lemma WordFirst(w: string, xs: seq<Lexeme>)
    ensures PartsOf([Word(w)] + xs) == WithWord(w, PartsOf(xs))
  {
    assert ([Word(w)] + xs)[1..] == xs;
  }

  lemma TargetFirst(arrow: Lexeme, w: string, xs: seq<Lexeme>)
    requires IsArrow(arrow)
    ensures PartsOf([arrow, Word(w)] + xs) == WithTarget(TargetOf(arrow, Word(w)), PartsOf(xs))
  {
    assert ([arrow, Word(w)] + xs)[2..] == xs;
  }

  /** Redirections may be added behind a simple command or a block. */
  lemma RedirMade(xs: seq<Lexeme>, arrow: Lexeme, w: string, t: Tree)
    requires SpellsExec(xs, t) && IsArrow(arrow)
    ensures var g := TargetOf(arrow, Word(w));
      SpellsExec(xs + [arrow, Word(w)], TRedir(t, g.file, g.mode))
  {
    var g := TargetOf(arrow, Word(w));
    if SpellsSimple(xs, t) {
      PartsMore(xs, arrow, w);
      RedirectedMore(TExec(PartsOf(xs).words), PartsOf(xs).targets, g);
      assert SpellsSimple(xs + [arrow, Word(w)], TRedir(t, g.file, g.mode));
    } else {
      var m: nat :| BlockAt(xs, m, t);
      BlockMore(xs, m, arrow, w, t);
    }
  }

  lemma BlockMore(xs: seq<Lexeme>, m: nat, arrow: Lexeme, w: string, t: Tree)
    requires BlockAt(xs, m, t) && IsArrow(arrow)
    ensures var g := TargetOf(arrow, Word(w));
      SpellsExec(xs + [arrow, Word(w)], TRedir(t, g.file, g.mode))
  {
    var g := TargetOf(arrow, Word(w));
    var inner, tail := xs[1..m], xs[m + 1..];
    var targets := PartsOf(tail).targets;
    var t1 :| SpellsLine(inner, t1) && t == Redirected(t1, targets);
    PartsMore(tail, arrow, w);
    RedirectedMore(t1, targets, g);
    BlockMade(inner, tail + [arrow, Word(w)], t1, targets + [g]);
    BlockCut(xs, m, [arrow, Word(w)]);
  }

  /** A block is "(", its inside, ")" and the redirections. */
  lemma BlockCut(xs: seq<Lexeme>, m: nat, rest: seq<Lexeme>)
    requires 0 < m < |xs| && xs[0] == Mark('(') && xs[m] == Mark(')')
    ensures xs + rest == [Mark('(')] + xs[1..m] + [Mark(')')] + (xs[m + 1..] + rest)
  {
  }

  lemma RedirectedMore(t: Tree, targets: seq<Target>, g: Target)
    ensures Redirected(t, targets + [g]) == TRedir(Redirected(t, targets), g.file, g.mode)
  {
    assert (targets + [g])[..|targets|] == targets;
  }

  lemma {:induction false} PartsMore(xs: seq<Lexeme>, arrow: Lexeme, w: string)
    requires PartsOf(xs).Parts? && IsArrow(arrow)
    ensures var q := PartsOf(xs);
      PartsOf(xs + [arrow, Word(w)]) == Parts(q.words, q.targets + [TargetOf(arrow, Word(w))])
    decreases |xs|
  {
    var ys := [arrow, Word(w)];
    if xs == [] {
      assert xs + ys == ys + [];
      TargetFirst(arrow, w, []);
    } else if xs[0].Word? {
      PartsMore(xs[1..], arrow, w);
      assert xs + ys == [Word(xs[0].text)] + (xs[1..] + ys);
      WordFirst(xs[0].text, xs[1..] + ys);
    } else {
      PartsMore(xs[2..], arrow, w);
      assert xs + ys == [xs[0], Word(xs[1].text)] + (xs[2..] + ys);
      TargetFirst(xs[0], xs[1].text, xs[2..] + ys);
    }
  }

  // ---- printing -----------------------------------------------------------

  /** Fewer than MAXARGS words per command, all of them plain. */
  ghost predicate Fine(t: Tree) {
    match t
    case TExec(words) => |words| < MAXARGS && forall i :: 0 <= i < |words| ==> Plain(words[i])
    case TRedir(t1, file, _) => Fine(t1) && Plain(file)
    case TPipe(l, r) => Fine(l) && Fine(r)
    case TList(l, r) => Fine(l) && Fine(r)
    case TBack(t1) => Fine(t1)
  }

  function WordLexemes(words: seq<string>): seq<Lexeme> {
    if words == [] then [] else [Word(words[0])] + WordLexemes(words[1..])
  }

  function Block(xs: seq<Lexeme>): seq<Lexeme> {
    [Mark('(')] + xs + [Mark(')')]
  }

  /** The lexemes of t as a simple command or block, as a pipeline, with '&'
      behind it, and as a line: parentheses stand only where one of these is
      needed and t is not one. */
  function ExecOut(t: Tree): seq<Lexeme>
    decreases t, 0
  {
    match t
    case TExec(words) => WordLexemes(words)
    case TRedir(t1, file, mode) => ExecOut(t1) + [if mode == In then Mark('<') else Mark('>'), Word(file)]
    case TPipe(l, r) => Block(ExecOut(l) + [Mark('|')] + PipeOut(r))
    case TList(l, r) => Block(BackedOut(l) + [Mark(';')] + LineOut(r))
    case TBack(t1) => Block(BackedOut(t1) + [Mark('&')])
  }

  function PipeOut(t: Tree): seq<Lexeme>
    decreases t, 1
  {
    if t.TPipe? then ExecOut(t.left) + [Mark('|')] + PipeOut(t.right) else ExecOut(t)
  }

  function BackedOut(t: Tree): seq<Lexeme>
    decreases t, 2
  {
    if t.TBack? then BackedOut(t.cmd) + [Mark('&')] else PipeOut(t)
  }

  function LineOut(t: Tree): seq<Lexeme>
    decreases t, 3
  {
    if t.TList? then BackedOut(t.left) + [Mark(';')] + LineOut(t.right) else BackedOut(t)
  }

  lemma BlockOnly(xs: seq<Lexeme>, t: Tree)
    requires SpellsLine(xs, t)
    ensures SpellsExec(Block(xs), t)
  {
    BlockMade(xs, [], t, []);
    assert Block(xs) + [] == Block(xs);
  }

  lemma {:induction false} WordsOut(words: seq<string>)
    ensures PartsOf(WordLexemes(words)) == Parts(words, [])
  {
    if words != [] {
      WordsOut(words[1..]);
      WordFirst(words[0], WordLexemes(words[1..]));
    }
  }

  /** What is printed keeps to the grammar. */
  lemma {:induction false} ExecOutSpells(t: Tree)
    requires Fine(t)
    ensures SpellsExec(ExecOut(t), t)
    decreases t, 0
  {
    match t
    case TExec(words) =>
      WordsOut(words);
    case TRedir(t1, file, mode) =>
      ExecOutSpells(t1);
      RedirMade(ExecOut(t1), if mode == In then Mark('<') else Mark('>'), file, t1);
    case TPipe(l, r) =>
      ExecOutSpells(l);
      PipeOutSpells(r);
      PipeMade(ExecOut(l), PipeOut(r), l, r);
      BlockOnly(ExecOut(l) + [Mark('|')] + PipeOut(r), t);
    case TList(l, r) =>
      BackedOutSpells(l);
      LineOutSpells(r);
      ListMade(BackedOut(l), LineOut(r), l, r);
      BlockOnly(BackedOut(l) + [Mark(';')] + LineOut(r), t);
    case TBack(t1) =>
      BackedOutSpells(t1);
      BackMade(BackedOut(t1), t1);
      BlockOnly(BackedOut(t1) + [Mark('&')], t);
  }

  lemma {:induction false} PipeOutSpells(t: Tree)
    requires Fine(t)
    ensures SpellsPipe(PipeOut(t), t)
    decreases t, 1
  {
    if t.TPipe? {
      ExecOutSpells(t.left);
      PipeOutSpells(t.right);
      PipeMade(ExecOut(t.left), PipeOut(t.right), t.left, t.right);
    } else {
      ExecOutSpells(t);
    }
  }

  lemma {:induction false} BackedOutSpells(t: Tree)
    requires Fine(t)
    ensures SpellsBacked(BackedOut(t), t)
    decreases t, 2
  {
    if t.TBack? {
      BackedOutSpells(t.cmd);
      BackMade(BackedOut(t.cmd), t.cmd);
    } else {
      PipeOutSpells(t);
    }
  }

  lemma {:induction false} LineOutSpells(t: Tree)
    requires Fine(t)
    ensures SpellsLine(LineOut(t), t)
    decreases t, 3
  {
    if t.TList? {
      BackedOutSpells(t.left);
      LineOutSpells(t.right);
      ListMade(BackedOut(t.left), LineOut(t.right), t.left, t.right);
    } else {
      BackedOutSpells(t);
    }
  }

  ghost predicate AllProper(xs: seq<Lexeme>) {
    forall i :: 0 <= i < |xs| ==> Proper(xs[i])
  }

  lemma {:induction false} OutProper(t: Tree)
    requires Fine(t)
    ensures AllProper(ExecOut(t)) && AllProper(PipeOut(t)) && AllProper(BackedOut(t)) && AllProper(LineOut(t))
    decreases t
  {
    match t
    case TExec(words) => WordsProper(words);
    case TRedir(t1, _, _) => OutProper(t1);
    case TPipe(l, r) =>
      OutProper(l);
      OutProper(r);
      ProperBoth(ExecOut(l), '|', PipeOut(r));
    case TList(l, r) =>
      OutProper(l);
      OutProper(r);
      ProperBoth(BackedOut(l), ';', LineOut(r));
    case TBack(t1) =>
      OutProper(t1);
      ProperBoth(BackedOut(t1), '&', []);
      assert BackedOut(t1) + [Mark('&')] + [] == BackedOut(t1) + [Mark('&')];
  }

  lemma ProperBoth(xs: seq<Lexeme>, c: char, ys: seq<Lexeme>)
    requires AllProper(xs) && AllProper(ys) && Symbol(c)
    ensures AllProper(xs + [Mark(c)] + ys) && AllProper(Block(xs + [Mark(c)] + ys))
  {
  }

  lemma {:induction false} WordsProper(words: seq<string>)
    requires forall i :: 0 <= i < |words| ==> Plain(words[i])
    ensures AllProper(WordLexemes(words))
  {
    if words != [] {
      WordsProper(words[1..]);
    }
  }

  /** Lexemes with a space behind each. */
  function Write(xs: seq<Lexeme>): string {
    if xs == [] then "" else Spelling(xs[0]) + " " + Write(xs[1..])
  }

  lemma {:induction false} WriteSpaced(s: string, p: nat, xs: seq<Lexeme>)
    requires p <= |s| && s[p..] == Write(xs) && AllProper(xs)
    ensures Spaced(s, p, xs)
    decreases |xs|
  {
    if xs == [] {
      assert p == |s|;
    } else {
      var x, more := Spelling(xs[0]), Write(xs[1..]);
      var b := p + |x|;
      assert s[p..] == x + " " + more;
      assert s[p..b] == s[p..][..|x|] == x && s[b] == s[p..][|x|] == ' ' && s[b + 1..] == s[p..][|x| + 1..] == more;
      WriteSpaced(s, b + 1, xs[1..]);
      SpaceFirst(s, b, xs[1..]);
      assert AllWhite(s, p, p) && Stands(s, p, b, xs[0]);
    }
  }

  lemma SpaceFirst(s: string, p: nat, xs: seq<Lexeme>)
    requires p < |s| && White(s[p]) && Spaced(s, p + 1, xs)
    ensures Spaced(s, p, xs)
  {
    if xs != [] {
      var a: nat, b: nat :| AllWhite(s, p + 1, a) && Stands(s, a, b, xs[0]) && Spaced(s, b, xs[1..]);
      assert AllWhite(s, p, a);
    }
  }

  lemma {:induction false} WriteNoNul(xs: seq<Lexeme>)
    requires AllProper(xs)
    ensures forall i :: 0 <= i < |Write(xs)| ==> Write(xs)[i] != '\0'
  {
    if xs != [] {
      assert Proper(xs[0]);
      WriteNoNul(xs[1..]);
    }
  }
}
