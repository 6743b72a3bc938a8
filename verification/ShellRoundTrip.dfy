/** The parser accepts exactly the texts that spell a command, and finds the
    command they spell; so what is printed comes back. */
module ShellRoundTrip {

  import opened ShellGrammar
  import opened ShellSpelling

  // ---- the lexemes of a text ----------------------------------------------

  function LexemeOf(s: string, t: Token): Lexeme {
    if t.tok == 'a' then Word(Text(s, t.word)) else Mark(t.tok)
  }

  /** The lexemes that gettoken finds from p on. */
  function Lexemes(s: string, p: nat): seq<Lexeme>
    requires p <= |s|
    decreases |s| - p
  {
    var t := GetToken(s, p);
    if t.tok == '\0' then [] else [LexemeOf(s, t)] + Lexemes(s, t.next)
  }

  lemma SkipTwice(s: string, p: nat)
    requires p <= |s|
    ensures SkipWhite(s, SkipWhite(s, p)) == SkipWhite(s, p)
    ensures Lexemes(s, SkipWhite(s, p)) == Lexemes(s, p)
  {
  }

  /** A symbol comes next, which peek sees. */
  predicate Begins(xs: seq<Lexeme>, marks: set<char>) {
    xs != [] && xs[0].Mark? && xs[0].c in marks
  }

  const ARROWS: set<char> := {'<', '>', '+'}
  const ENDS: set<char> := {'|', ')', '&', ';'}

  lemma PeekSymbol(s: string, p: nat, c: char)
    requires p <= |s| && Symbol(c) && c != '<' && c != '>'
    ensures Peek(s, p, {c}) <==> Begins(Lexemes(s, p), {c})
    ensures Peek(s, p, {c}) ==> Lexemes(s, p) == [Mark(c)] + Lexemes(s, GetToken(s, p).next)
  {
  }

  lemma PeekArrow(s: string, p: nat)
    requires p <= |s|
    ensures Peek(s, p, {'<', '>'}) <==> Begins(Lexemes(s, p), ARROWS)
    ensures Peek(s, p, {'<', '>'}) ==> IsArrow(LexemeOf(s, GetToken(s, p)))
  {
  }

  lemma PeekEnds(s: string, p: nat)
    requires p <= |s|
    ensures Peek(s, p, {'|', ')', '&', ';'}) <==> Begins(Lexemes(s, p), ENDS)
  {
  }

  // ---- simple commands ----------------------------------------------------

  function Targets(s: string, redirs: seq<Redirection>): (r: seq<Target>)
    ensures |r| == |redirs| && forall i :: 0 <= i < |r| ==> r[i] == Target(Text(s, redirs[i].file), redirs[i].mode)
  {
    if redirs == [] then []
    else
      var last := redirs[|redirs| - 1];
      Targets(s, redirs[..|redirs| - 1]) + [Target(Text(s, last.file), last.mode)]
  }

  lemma {:induction false} WrapTree(s: string, c: Cmd, redirs: seq<Redirection>)
    ensures TreeOf(s, Wrap(c, redirs)) == Redirected(TreeOf(s, c), Targets(s, redirs))
    decreases |redirs|
  {
    if redirs != [] {
      WrapTree(s, c, redirs[..|redirs| - 1]);
      assert Targets(s, redirs)[..|redirs| - 1] == Targets(s, redirs[..|redirs| - 1]);
    }
  }

  /** What was found, and then the words and redirections of q. */
  function SimpleTree(s: string, args: seq<Span>, redirs: seq<Redirection>, q: Parts): Tree
    requires q.Parts?
  {
    Redirected(TExec(Texts(s, args) + q.words), Targets(s, redirs) + q.targets)
  }

  lemma TreeWord(s: string, args: seq<Span>, redirs: seq<Redirection>, w: Span, q: Parts)
    requires q.Parts?
    ensures SimpleTree(s, args + [w], redirs, q) == SimpleTree(s, args, redirs, WithWord(Text(s, w), q))
  {
    assert Texts(s, args + [w]) == Texts(s, args) + [Text(s, w)];
    assert Texts(s, args + [w]) + q.words == Texts(s, args) + ([Text(s, w)] + q.words);
  }

  lemma TreeTarget(s: string, args: seq<Span>, redirs: seq<Redirection>, r: Redirection, q: Parts)
    requires q.Parts?
    ensures SimpleTree(s, args, redirs + [r], q)
         == SimpleTree(s, args, redirs, WithTarget(Target(Text(s, r.file), r.mode), q))
  {
    var g := Target(Text(s, r.file), r.mode);
    assert Targets(s, redirs + [r]) == Targets(s, redirs) + [g];
    assert Targets(s, redirs + [r]) + q.targets == Targets(s, redirs) + ([g] + q.targets);
  }

  lemma TreeEnd(s: string, args: seq<Span>, redirs: seq<Redirection>)
    ensures TreeOf(s, Wrap(Exec(args), redirs)) == SimpleTree(s, args, redirs, Parts([], []))
  {
    WrapTree(s, Exec(args), redirs);
    assert Texts(s, args) + [] == Texts(s, args) && Targets(s, redirs) + [] == Targets(s, redirs);
  }

  /** The rest of parseexec: redirections, and then the loop over the words. */
  function Continue(s: string, p: nat, args: seq<Span>, redirs: seq<Redirection>): (r: Parsed)
    requires p <= |s|
    ensures r.Got? ==> p <= r.at <= |s|
  {
    var rs := ParseRedirs(s, p, redirs);
    if rs.RPanic? then Panic else ParseArgs(s, rs.at, args, rs.redirs)
  }

  function FoundRedir(s: string, p: nat): Redirection
    requires p <= |s|
  {
    var op := GetToken(s, p);
    Redirection(GetToken(s, op.next).word, if op.tok == '<' then In else Out)
  }

  lemma AtArrow(s: string, p: nat, args: seq<Span>, redirs: seq<Redirection>)
    requires p <= |s| && Begins(Lexemes(s, p), ARROWS)
    ensures var file := GetToken(s, GetToken(s, p).next);
      Continue(s, p, args, redirs) ==
      if file.tok != 'a' then Panic else Continue(s, file.next, args, redirs + [FoundRedir(s, p)])
  {
    PeekArrow(s, p);
  }

  lemma AtWord(s: string, p: nat, args: seq<Span>, redirs: seq<Redirection>)
    requires p <= |s| && Lexemes(s, p) != [] && Lexemes(s, p)[0].Word?
    ensures var t := GetToken(s, p);
      t.tok == 'a' && Continue(s, p, args, redirs) ==
      if |args| + 1 >= MAXARGS then Panic else Continue(s, t.next, args + [t.word], redirs)
  {
    PeekArrow(s, p);
    PeekEnds(s, p);
    SkipTwice(s, p);
    PeekEnds(s, SkipWhite(s, p));
  }

  predicate EndsSimple(xs: seq<Lexeme>) {
    xs == [] || Begins(xs, ENDS)
  }

  lemma AtEnd(s: string, p: nat, args: seq<Span>, redirs: seq<Redirection>)
    requires p <= |s| && EndsSimple(Lexemes(s, p))
    ensures Continue(s, p, args, redirs) == Got(Wrap(Exec(args), redirs), SkipWhite(s, p))
  {
    PeekArrow(s, p);
    SkipTwice(s, p);
    PeekEnds(s, SkipWhite(s, p));
  }

  lemma AtOther(s: string, p: nat, args: seq<Span>, redirs: seq<Redirection>)
    requires p <= |s| && Lexemes(s, p) != [] && Lexemes(s, p)[0].Mark?
    requires !Begins(Lexemes(s, p), ARROWS) && !Begins(Lexemes(s, p), ENDS)
    ensures Continue(s, p, args, redirs) == Panic
  {
    PeekArrow(s, p);
    SkipTwice(s, p);
    PeekEnds(s, SkipWhite(s, p));
  }

  function Arrow(s: string, p: nat): Lexeme
    requires p <= |s|
  {
    LexemeOf(s, GetToken(s, p))
  }

  function FileAt(s: string, p: nat): Token
    requires p <= |s|
  {
    GetToken(s, GetToken(s, p).next)
  }

  lemma ArrowLexemes(s: string, p: nat)
    requires p <= |s| && Begins(Lexemes(s, p), ARROWS)
    ensures IsArrow(Arrow(s, p)) && p < FileAt(s, p).next
    ensures FileAt(s, p).tok == 'a' <==> |Lexemes(s, p)| >= 2 && Lexemes(s, p)[1].Word?
    ensures FileAt(s, p).tok == 'a' ==>
      var w := Text(s, FileAt(s, p).word);
      && Lexemes(s, p) == [Arrow(s, p), Word(w)] + Lexemes(s, FileAt(s, p).next)
      && TargetOf(Arrow(s, p), Word(w)) == Target(Text(s, FoundRedir(s, p).file), FoundRedir(s, p).mode)
  {
    PeekArrow(s, p);
    var op := GetToken(s, p);
    assert Lexemes(s, p) == [Arrow(s, p)] + Lexemes(s, op.next);
    if FileAt(s, p).tok == 'a' {
      assert Lexemes(s, op.next) == [Word(Text(s, FileAt(s, p).word))] + Lexemes(s, FileAt(s, p).next);
    }
  }

  /** r takes the words and redirections of q and leaves rest. */
  ghost predicate Takes(s: string, args: seq<Span>, redirs: seq<Redirection>, q: Parts, rest: seq<Lexeme>, r: Parsed) {
    && r.Got? && r.at <= |s| && Lexemes(s, r.at) == rest
    && q.Parts? && |args| + |q.words| < MAXARGS && TreeOf(s, r.cmd) == SimpleTree(s, args, redirs, q)
  }

  lemma TakesWord(s: string, args: seq<Span>, redirs: seq<Redirection>, w: Span, q: Parts, rest: seq<Lexeme>, r: Parsed)
    requires Takes(s, args + [w], redirs, q, rest, r)
    ensures Takes(s, args, redirs, WithWord(Text(s, w), q), rest, r)
  {
    TreeWord(s, args, redirs, w, q);
  }

  lemma TakesTarget(s: string, args: seq<Span>, redirs: seq<Redirection>, g: Redirection, q: Parts, rest: seq<Lexeme>,
                    r: Parsed)
    requires Takes(s, args, redirs + [g], q, rest, r)
    ensures Takes(s, args, redirs, WithTarget(Target(Text(s, g.file), g.mode), q), rest, r)
  {
    TreeTarget(s, args, redirs, g, q);
  }

  lemma TakesNone(s: string, p: nat, args: seq<Span>, redirs: seq<Redirection>)
    requires p <= |s| && EndsSimple(Lexemes(s, p)) && |args| < MAXARGS
    ensures Takes(s, args, redirs, Parts([], []), Lexemes(s, p), Continue(s, p, args, redirs))
  {
    AtEnd(s, p, args, redirs);
    SkipTwice(s, p);
    TreeEnd(s, args, redirs);
  }

  lemma WordThen(s: string, p: nat, xs: seq<Lexeme>, rest: seq<Lexeme>)
    requires p <= |s| && Lexemes(s, p) == xs + rest && xs != [] && xs[0].Word?
    ensures Lexemes(s, p)[0] == xs[0] && Lexemes(s, GetToken(s, p).next) == xs[1..] + rest
    ensures PartsOf(xs) == WithWord(Text(s, GetToken(s, p).word), PartsOf(xs[1..]))
  {
    assert (xs + rest)[1..] == xs[1..] + rest;
  }

  lemma ArrowThen(s: string, p: nat, xs: seq<Lexeme>, rest: seq<Lexeme>)
    requires p <= |s| && Lexemes(s, p) == xs + rest && |xs| >= 2 && IsArrow(xs[0]) && xs[1].Word?
    ensures Begins(Lexemes(s, p), ARROWS) && FileAt(s, p).tok == 'a'
    ensures Lexemes(s, FileAt(s, p).next) == xs[2..] + rest
    ensures PartsOf(xs) == WithTarget(Target(Text(s, FoundRedir(s, p).file), FoundRedir(s, p).mode), PartsOf(xs[2..]))
  {
    var ls := Lexemes(s, p);
    assert ls[0] == xs[0] && ls[1] == xs[1];
    ArrowLexemes(s, p);
    PastTwo(xs, rest, Arrow(s, p), Word(Text(s, FileAt(s, p).word)), Lexemes(s, FileAt(s, p).next));
    TargetParts(xs, Arrow(s, p), Text(s, FileAt(s, p).word));
  }

  lemma PastTwo(xs: seq<Lexeme>, rest: seq<Lexeme>, a: Lexeme, b: Lexeme, more: seq<Lexeme>)
    requires |xs| >= 2 && xs + rest == [a, b] + more
    ensures xs[0] == a && xs[1] == b && xs[2..] + rest == more
  {
    var all := xs + rest;
    assert all[0] == a && all[1] == b && all[2..] == more;
  }

  lemma TargetParts(xs: seq<Lexeme>, arrow: Lexeme, w: string)
    requires |xs| >= 2 && IsArrow(arrow) && xs[0] == arrow && xs[1] == Word(w)
    ensures PartsOf(xs) == WithTarget(TargetOf(arrow, Word(w)), PartsOf(xs[2..]))
  {
  }

  lemma Chain(xs: seq<Lexeme>, ys: seq<Lexeme>, zs: seq<Lexeme>)
    ensures xs + (ys + zs) == xs + ys + zs
  {
  }

  lemma {:induction false} SimpleSound(s: string, p: nat, args: seq<Span>, redirs: seq<Redirection>)
    returns (xs: seq<Lexeme>)
    requires p <= |s| && |args| < MAXARGS && Continue(s, p, args, redirs).Got?
    ensures var r := Continue(s, p, args, redirs);
      Lexemes(s, p) == xs + Lexemes(s, r.at) && Takes(s, args, redirs, PartsOf(xs), Lexemes(s, r.at), r)
    decreases |s| - p
  {
    var ls, r := Lexemes(s, p), Continue(s, p, args, redirs);
    var rest := Lexemes(s, r.at);
    if EndsSimple(ls) {
      TakesNone(s, p, args, redirs);
      xs := [];
      assert xs + ls == ls;
    } else if ls[0].Word? {
      AtWord(s, p, args, redirs);
      var t := GetToken(s, p);
      var more := SimpleSound(s, t.next, args + [t.word], redirs);
      xs := [ls[0]] + more;
      WordFirst(ls[0].text, more);
      TakesWord(s, args, redirs, t.word, PartsOf(more), rest, r);
      Chain([ls[0]], more, rest);
    } else {
      if !Begins(ls, ARROWS) {
        AtOther(s, p, args, redirs);
      }
      AtArrow(s, p, args, redirs);
      ArrowLexemes(s, p);
      var w := Text(s, FileAt(s, p).word);
      var more := SimpleSound(s, FileAt(s, p).next, args, redirs + [FoundRedir(s, p)]);
      xs := [Arrow(s, p), Word(w)] + more;
      TargetFirst(Arrow(s, p), w, more);
      TakesTarget(s, args, redirs, FoundRedir(s, p), PartsOf(more), rest, r);
      Chain([Arrow(s, p), Word(w)], more, rest);
    }
  }

  lemma {:induction false} SimpleComplete(s: string, p: nat, args: seq<Span>, redirs: seq<Redirection>,
                                          xs: seq<Lexeme>, rest: seq<Lexeme>)
    requires p <= |s| && Lexemes(s, p) == xs + rest && EndsSimple(rest)
    requires PartsOf(xs).Parts? && |args| + |PartsOf(xs).words| < MAXARGS
    ensures Takes(s, args, redirs, PartsOf(xs), rest, Continue(s, p, args, redirs))
    decreases |xs|
  {
    if xs == [] {
      assert xs + rest == rest;
      TakesNone(s, p, args, redirs);
    } else if xs[0].Word? {
      WordThen(s, p, xs, rest);
      AtWord(s, p, args, redirs);
      var t := GetToken(s, p);
      SimpleComplete(s, t.next, args + [t.word], redirs, xs[1..], rest);
      TakesWord(s, args, redirs, t.word, PartsOf(xs[1..]), rest, Continue(s, p, args, redirs));
    } else {
      ArrowThen(s, p, xs, rest);
      AtArrow(s, p, args, redirs);
      SimpleComplete(s, FileAt(s, p).next, args, redirs + [FoundRedir(s, p)], xs[2..], rest);
      TakesTarget(s, args, redirs, FoundRedir(s, p), PartsOf(xs[2..]), rest, Continue(s, p, args, redirs));
    }
  }

  // ---- redirections behind a block ----------------------------------------

  ghost predicate TakesTargets(s: string, redirs: seq<Redirection>, q: Parts, rest: seq<Lexeme>, r: Redirs) {
    && r.RGot? && r.at <= |s| && Lexemes(s, r.at) == rest
    && q.Parts? && q.words == [] && Targets(s, r.redirs) == Targets(s, redirs) + q.targets
  }

  lemma TargetsMore(s: string, redirs: seq<Redirection>, g: Redirection, q: Parts, rest: seq<Lexeme>, r: Redirs)
    requires TakesTargets(s, redirs + [g], q, rest, r)
    ensures TakesTargets(s, redirs, WithTarget(Target(Text(s, g.file), g.mode), q), rest, r)
  {
    var x := Target(Text(s, g.file), g.mode);
    assert Targets(s, redirs + [g]) == Targets(s, redirs) + [x];
    assert Targets(s, redirs) + [x] + q.targets == Targets(s, redirs) + ([x] + q.targets);
  }

  lemma TargetsNone(s: string, p: nat, redirs: seq<Redirection>)
    requires p <= |s| && !Begins(Lexemes(s, p), ARROWS)
    ensures TakesTargets(s, redirs, Parts([], []), Lexemes(s, p), ParseRedirs(s, p, redirs))
  {
    PeekArrow(s, p);
    SkipTwice(s, p);
    assert Targets(s, redirs) + [] == Targets(s, redirs);
  }

  lemma RedirsAtArrow(s: string, p: nat, redirs: seq<Redirection>)
    requires p <= |s| && Begins(Lexemes(s, p), ARROWS)
    ensures ParseRedirs(s, p, redirs) ==
      if FileAt(s, p).tok != 'a' then RPanic else ParseRedirs(s, FileAt(s, p).next, redirs + [FoundRedir(s, p)])
  {
    PeekArrow(s, p);
  }

  lemma {:induction false} RedirsSound(s: string, p: nat, redirs: seq<Redirection>) returns (xs: seq<Lexeme>)
    requires p <= |s| && ParseRedirs(s, p, redirs).RGot?
    ensures var r := ParseRedirs(s, p, redirs);
      Lexemes(s, p) == xs + Lexemes(s, r.at) && TakesTargets(s, redirs, PartsOf(xs), Lexemes(s, r.at), r)
    decreases |s| - p
  {
    var r := ParseRedirs(s, p, redirs);
    var rest := Lexemes(s, r.at);
    if !Begins(Lexemes(s, p), ARROWS) {
      TargetsNone(s, p, redirs);
      xs := [];
      assert xs + rest == rest;
    } else {
      RedirsAtArrow(s, p, redirs);
      ArrowLexemes(s, p);
      var w := Text(s, FileAt(s, p).word);
      var more := RedirsSound(s, FileAt(s, p).next, redirs + [FoundRedir(s, p)]);
      xs := [Arrow(s, p), Word(w)] + more;
      TargetFirst(Arrow(s, p), w, more);
      TargetsMore(s, redirs, FoundRedir(s, p), PartsOf(more), rest, r);
      Chain([Arrow(s, p), Word(w)], more, rest);
    }
  }

  lemma {:induction false} RedirsComplete(s: string, p: nat, redirs: seq<Redirection>, xs: seq<Lexeme>,
                                          rest: seq<Lexeme>)
    requires p <= |s| && Lexemes(s, p) == xs + rest && !Begins(rest, ARROWS)
    requires PartsOf(xs).Parts? && PartsOf(xs).words == []
    ensures TakesTargets(s, redirs, PartsOf(xs), rest, ParseRedirs(s, p, redirs))
    decreases |xs|
  {
    if xs == [] {
      assert xs + rest == rest;
      TargetsNone(s, p, redirs);
    } else {
      ArrowThen(s, p, xs, rest);
      RedirsAtArrow(s, p, redirs);
      RedirsComplete(s, FileAt(s, p).next, redirs + [FoundRedir(s, p)], xs[2..], rest);
      TargetsMore(s, redirs, FoundRedir(s, p), PartsOf(xs[2..]), rest, ParseRedirs(s, p, redirs));
    }
  }

  // ---- one step of each parse function ------------------------------------

  /** r has t and leaves rest. */
  ghost predicate Reads(s: string, t: Tree, rest: seq<Lexeme>, r: Parsed) {
    r.Got? && r.at <= |s| && TreeOf(s, r.cmd) == t && Lexemes(s, r.at) == rest
  }

  lemma BlockIs(s: string, p: nat)
    requires p <= |s| && Begins(Lexemes(s, p), {'('})
    ensures var inner := ParseLine(s, GetToken(s, p).next);
      ParseExec(s, p) ==
      if inner.Panic? || !Begins(Lexemes(s, inner.at), {')'}) then Panic
      else
        var rs := ParseRedirs(s, GetToken(s, inner.at).next, []);
        if rs.RPanic? then Panic else Got(Wrap(inner.cmd, rs.redirs), rs.at)
  {
    PeekSymbol(s, p, '(');
    SkipTwice(s, p);
    PeekSymbol(s, SkipWhite(s, p), '(');
    var inner := ParseLine(s, GetToken(s, p).next);
    if inner.Got? {
      PeekSymbol(s, inner.at, ')');
    }
  }

  lemma SimpleIs(s: string, p: nat)
    requires p <= |s| && !Begins(Lexemes(s, p), {'('})
    ensures ParseExec(s, p) == Continue(s, SkipWhite(s, p), [], [])
  {
    PeekSymbol(s, p, '(');
    assert !Peek(s, p, {'('});
  }

  lemma PipeIs(s: string, p: nat)
    requires p <= |s|
    ensures var first := ParseExec(s, p);
      ParsePipe(s, p) ==
      if first.Panic? then Panic
      else if !Begins(Lexemes(s, first.at), {'|'}) then Got(first.cmd, SkipWhite(s, first.at))
      else
        var rest := ParsePipe(s, GetToken(s, first.at).next);
        if rest.Panic? then Panic else Got(Pipe(first.cmd, rest.cmd), rest.at)
  {
    var first := ParseExec(s, p);
    if first.Got? {
      PeekSymbol(s, first.at, '|');
    }
  }

  lemma BacksIs(s: string, p: nat, c: Cmd)
    requires p <= |s|
    ensures Backs(s, p, c) ==
      if Begins(Lexemes(s, p), {'&'}) then Backs(s, GetToken(s, p).next, Back(c)) else Got(c, SkipWhite(s, p))
  {
    PeekSymbol(s, p, '&');
  }

  lemma LineIs(s: string, p: nat)
    requires p <= |s|
    ensures var first := ParsePipe(s, p);
      ParseLine(s, p) ==
      if first.Panic? then Panic
      else
        var b := Backs(s, first.at, first.cmd);
        if !Begins(Lexemes(s, b.at), {';'}) then Got(b.cmd, SkipWhite(s, b.at))
        else
          var rest := ParseLine(s, GetToken(s, b.at).next);
          if rest.Panic? then Panic else Got(List(b.cmd, rest.cmd), rest.at)
  {
    var first := ParsePipe(s, p);
    if first.Got? {
      PeekSymbol(s, Backs(s, first.at, first.cmd).at, ';');
    }
  }

  // ---- what is parsed is spelled ------------------------------------------

  /** The lexemes from p on are xs and then those that r leaves. */
  ghost predicate Consumes(s: string, p: nat, xs: seq<Lexeme>, r: Parsed) {
    p <= |s| && r.Got? && r.at <= |s| && Lexemes(s, p) == xs + Lexemes(s, r.at)
  }

  /** A symbol, then what comes after it. */
  lemma SymbolThen(s: string, p: nat, c: char)
    requires p <= |s| && Symbol(c) && c != '<' && c != '>' && Begins(Lexemes(s, p), {c})
    ensures Lexemes(s, p) == [Mark(c)] + Lexemes(s, GetToken(s, p).next) && p < GetToken(s, p).next
  {
    PeekSymbol(s, p, c);
  }

  lemma {:induction false} LineSound(s: string, p: nat) returns (xs: seq<Lexeme>)
    requires p <= |s| && ParseLine(s, p).Got?
    ensures Consumes(s, p, xs, ParseLine(s, p)) && SpellsLine(xs, TreeOf(s, ParseLine(s, p).cmd))
    decreases |s| - p, 4
  {
    LineIs(s, p);
    var first := ParsePipe(s, p);
    var ys := PipeSound(s, p);
    var b := Backs(s, first.at, first.cmd);
    var zs := BacksSound(s, p, first.at, first.cmd, ys);
    if Begins(Lexemes(s, b.at), {';'}) {
      xs := ListSound(s, p, zs, b);
    } else {
      xs := zs;
      SkipTwice(s, b.at);
    }
  }

  /** zs is spelled before the ';' at b.at, and the rest of the line follows. */
  lemma {:induction false} ListSound(s: string, p: nat, zs: seq<Lexeme>, b: Parsed) returns (xs: seq<Lexeme>)
    requires Consumes(s, p, zs, b) && SpellsBacked(zs, TreeOf(s, b.cmd)) && Begins(Lexemes(s, b.at), {';'})
    requires ParseLine(s, GetToken(s, b.at).next).Got?
    ensures var rest := ParseLine(s, GetToken(s, b.at).next);
      Consumes(s, p, xs, Got(List(b.cmd, rest.cmd), rest.at)) && SpellsLine(xs, TreeOf(s, List(b.cmd, rest.cmd)))
    decreases |s| - b.at, 3
  {
    SymbolThen(s, b.at, ';');
    var next := GetToken(s, b.at).next;
    var rest := ParseLine(s, next);
    var more := LineSound(s, next);
    ListMade(zs, more, TreeOf(s, b.cmd), TreeOf(s, rest.cmd));
    xs := ConsumesBoth(s, p, zs, b, ';', more, Got(List(b.cmd, rest.cmd), rest.at));
  }

  /** Something, a symbol, and something more. */
  lemma ConsumesBoth(s: string, p: nat, ys: seq<Lexeme>, b: Parsed, c: char, zs: seq<Lexeme>, r: Parsed)
    returns (xs: seq<Lexeme>)
    requires Consumes(s, p, ys, b) && r.Got? && r.at <= |s|
    requires Lexemes(s, b.at) == [Mark(c)] + (zs + Lexemes(s, r.at))
    ensures xs == ys + [Mark(c)] + zs && Consumes(s, p, xs, r)
  {
    xs := ys + [Mark(c)] + zs;
    Join3(ys, Mark(c), zs, Lexemes(s, r.at));
  }

  lemma Join3(xs: seq<Lexeme>, x: Lexeme, ys: seq<Lexeme>, rest: seq<Lexeme>)
    ensures xs + ([x] + (ys + rest)) == xs + [x] + ys + rest
  {
  }

  /** What stands before position q is zs, and the '&' from there on are added. */
  lemma {:induction false} BacksSound(s: string, p: nat, q: nat, c: Cmd, zs: seq<Lexeme>) returns (xs: seq<Lexeme>)
    requires p <= |s| && q <= |s| && Lexemes(s, p) == zs + Lexemes(s, q) && SpellsBacked(zs, TreeOf(s, c))
    ensures Consumes(s, p, xs, Backs(s, q, c)) && SpellsBacked(xs, TreeOf(s, Backs(s, q, c).cmd))
    decreases |s| - q
  {
    BacksIs(s, q, c);
    if Begins(Lexemes(s, q), {'&'}) {
      SymbolThen(s, q, '&');
      var next := GetToken(s, q).next;
      Chain(zs, [Mark('&')], Lexemes(s, next));
      BackMade(zs, TreeOf(s, c));
      xs := BacksSound(s, p, next, Back(c), zs + [Mark('&')]);
    } else {
      xs := zs;
      SkipTwice(s, q);
    }
  }

  lemma {:induction false} PipeSound(s: string, p: nat) returns (xs: seq<Lexeme>)
    requires p <= |s| && ParsePipe(s, p).Got?
    ensures Consumes(s, p, xs, ParsePipe(s, p)) && SpellsPipe(xs, TreeOf(s, ParsePipe(s, p).cmd))
    decreases |s| - p, 3
  {
    PipeIs(s, p);
    var first := ParseExec(s, p);
    var ys := ExecSound(s, p);
    if Begins(Lexemes(s, first.at), {'|'}) {
      SymbolThen(s, first.at, '|');
      var next := GetToken(s, first.at).next;
      var more := PipeSound(s, next);
      PipeMade(ys, more, TreeOf(s, first.cmd), TreeOf(s, ParsePipe(s, next).cmd));
      xs := ConsumesBoth(s, p, ys, first, '|', more, ParsePipe(s, p));
    } else {
      xs := ys;
      SkipTwice(s, first.at);
    }
  }

  lemma {:induction false} ExecSound(s: string, p: nat) returns (xs: seq<Lexeme>)
    requires p <= |s| && ParseExec(s, p).Got?
    ensures Consumes(s, p, xs, ParseExec(s, p)) && SpellsExec(xs, TreeOf(s, ParseExec(s, p).cmd))
    decreases |s| - p, 2
  {
    if Begins(Lexemes(s, p), {'('}) {
      xs := BlockSound(s, p);
    } else {
      SimpleIs(s, p);
      SkipTwice(s, p);
      xs := SimpleSound(s, SkipWhite(s, p), [], []);
      SimpleWhole(s, PartsOf(xs));
      assert SpellsSimple(xs, TreeOf(s, ParseExec(s, p).cmd));
    }
  }

  lemma SimpleWhole(s: string, q: Parts)
    requires q.Parts?
    ensures SimpleTree(s, [], [], q) == Redirected(TExec(q.words), q.targets)
  {
    assert Texts(s, []) + q.words == q.words && Targets(s, []) + q.targets == q.targets;
  }

  lemma {:induction false} BlockSound(s: string, p: nat) returns (xs: seq<Lexeme>)
    requires p <= |s| && ParseExec(s, p).Got? && Begins(Lexemes(s, p), {'('})
    ensures Consumes(s, p, xs, ParseExec(s, p)) && SpellsExec(xs, TreeOf(s, ParseExec(s, p).cmd))
    decreases |s| - p, 1
  {
    BlockIs(s, p);
    SymbolThen(s, p, '(');
    var inner := ParseLine(s, GetToken(s, p).next);
    var ys := LineSound(s, GetToken(s, p).next);
    SymbolThen(s, inner.at, ')');
    var after := GetToken(s, inner.at).next;
    var zs := RedirsSound(s, after, []);
    var rs := ParseRedirs(s, after, []);
    BlockTree(s, inner.cmd, PartsOf(zs), rs);
    BlockMade(ys, zs, TreeOf(s, inner.cmd), PartsOf(zs).targets);
    xs := [Mark('(')] + ys + [Mark(')')] + zs;
    Join4(Mark('('), ys, Mark(')'), zs, Lexemes(s, rs.at));
  }

  lemma Join4(x: Lexeme, ys: seq<Lexeme>, y: Lexeme, zs: seq<Lexeme>, rest: seq<Lexeme>)
    ensures [x] + (ys + ([y] + (zs + rest))) == [x] + ys + [y] + zs + rest == [x] + ys + [y] + (zs + rest)
  {
  }

  lemma BlockTree(s: string, c: Cmd, q: Parts, rs: Redirs)
    requires rs.RGot? && q.Parts? && Targets(s, rs.redirs) == Targets(s, []) + q.targets
    ensures TreeOf(s, Wrap(c, rs.redirs)) == Redirected(TreeOf(s, c), q.targets)
  {
    WrapTree(s, c, rs.redirs);
    assert Targets(s, []) + q.targets == q.targets;
  }

  // ---- what is spelled is parsed ------------------------------------------

  /** A line may end here. */
  predicate EndsLine(xs: seq<Lexeme>) {
    xs == [] || xs[0] == Mark(')')
  }

  lemma {:induction false} ExecComplete(s: string, p: nat, xs: seq<Lexeme>, t: Tree, rest: seq<Lexeme>)
    requires p <= |s| && Lexemes(s, p) == xs + rest && SpellsExec(xs, t) && EndsSimple(rest)
    ensures Reads(s, t, rest, ParseExec(s, p))
    decreases |xs|, 1
  {
    if SpellsSimple(xs, t) {
      SimpleBegins(xs, rest);
      SimpleIs(s, p);
      SkipTwice(s, p);
      SimpleComplete(s, SkipWhite(s, p), [], [], xs, rest);
      SimpleWhole(s, PartsOf(xs));
    } else {
      var m: nat :| BlockAt(xs, m, t);
      var q := PartsOf(xs[m + 1..]);
      var t1 :| SpellsLine(xs[1..m], t1) && t == Redirected(t1, q.targets);
      BlockCut(xs, m, rest);
      Join4(Mark('('), xs[1..m], Mark(')'), xs[m + 1..], rest);
      BlockComplete(s, p, xs[1..m], t1, xs[m + 1..], rest);
    }
  }

  lemma SimpleBegins(xs: seq<Lexeme>, rest: seq<Lexeme>)
    requires PartsOf(xs).Parts? && EndsSimple(rest)
    ensures !Begins(xs + rest, {'('})
  {
  }

  /** A block with ys inside and the redirections zs behind it. */
  lemma {:induction false} BlockComplete(s: string, p: nat, ys: seq<Lexeme>, t: Tree, zs: seq<Lexeme>,
                                         rest: seq<Lexeme>)
    requires p <= |s| && Lexemes(s, p) == [Mark('(')] + (ys + ([Mark(')')] + (zs + rest))) && EndsSimple(rest)
    requires SpellsLine(ys, t) && PartsOf(zs).Parts? && PartsOf(zs).words == []
    ensures Reads(s, Redirected(t, PartsOf(zs).targets), rest, ParseExec(s, p))
    decreases |ys|, 5
  {
    SymbolFirst(s, p, '(', ys + ([Mark(')')] + (zs + rest)));
    LineComplete(s, GetToken(s, p).next, ys, t, [Mark(')')] + (zs + rest));
    var inner := ParseLine(s, GetToken(s, p).next);
    SymbolFirst(s, inner.at, ')', zs + rest);
    var after := GetToken(s, inner.at).next;
    RedirsComplete(s, after, [], zs, rest);
    BlockIs(s, p);
    BlockTree(s, inner.cmd, PartsOf(zs), ParseRedirs(s, after, []));
    BlockReads(s, inner.cmd, t, PartsOf(zs), ParseRedirs(s, after, []), rest, ParseExec(s, p));
  }

  lemma BlockReads(s: string, c: Cmd, t: Tree, q: Parts, rs: Redirs, rest: seq<Lexeme>, whole: Parsed)
    requires TakesTargets(s, [], q, rest, rs) && whole == Got(Wrap(c, rs.redirs), rs.at)
    requires TreeOf(s, c) == t && TreeOf(s, Wrap(c, rs.redirs)) == Redirected(t, q.targets)
    ensures Reads(s, Redirected(t, q.targets), rest, whole)
  {
  }

  lemma SymbolFirst(s: string, p: nat, c: char, more: seq<Lexeme>)
    requires p <= |s| && Symbol(c) && c != '<' && c != '>' && Lexemes(s, p) == [Mark(c)] + more
    ensures Begins(Lexemes(s, p), {c}) && Lexemes(s, GetToken(s, p).next) == more
  {
    PeekSymbol(s, p, c);
    assert ([Mark(c)] + more)[1..] == more;
    assert ([Mark(c)] + Lexemes(s, GetToken(s, p).next))[1..] == Lexemes(s, GetToken(s, p).next);
  }

  lemma {:induction false} PipeComplete(s: string, p: nat, xs: seq<Lexeme>, t: Tree, rest: seq<Lexeme>)
    requires p <= |s| && Lexemes(s, p) == xs + rest && SpellsPipe(xs, t) && EndsSimple(rest) && !Begins(rest, {'|'})
    ensures Reads(s, t, rest, ParsePipe(s, p))
    decreases |xs|, 2
  {
    if SpellsExec(xs, t) {
      ExecComplete(s, p, xs, t, rest);
      PipeIs(s, p);
      SkipTwice(s, ParseExec(s, p).at);
    } else {
      var m: nat :| PipeAt(xs, m, t);
      MarkCut(xs, m, rest);
      ExecComplete(s, p, xs[..m], t.left, [Mark('|')] + (xs[m + 1..] + rest));
      var next := PipeGoesOn(s, p, t.left, xs[m + 1..] + rest);
      PipeComplete(s, next, xs[m + 1..], t.right, rest);
      PipeTree(s, ParseExec(s, p).cmd, ParsePipe(s, next), t.left, t.right, rest, ParsePipe(s, p));
    }
  }

  lemma PipeGoesOn(s: string, p: nat, l: Tree, more: seq<Lexeme>) returns (next: nat)
    requires p <= |s| && Reads(s, l, [Mark('|')] + more, ParseExec(s, p))
    ensures next <= |s| && Lexemes(s, next) == more
    ensures var first, rest := ParseExec(s, p), ParsePipe(s, next);
      ParsePipe(s, p) == if rest.Panic? then Panic else Got(Pipe(first.cmd, rest.cmd), rest.at)
  {
    var first := ParseExec(s, p);
    SymbolFirst(s, first.at, '|', more);
    PipeIs(s, p);
    next := GetToken(s, first.at).next;
  }

  lemma MarkCut(xs: seq<Lexeme>, m: nat, rest: seq<Lexeme>)
    requires m < |xs|
    ensures xs + rest == xs[..m] + ([xs[m]] + (xs[m + 1..] + rest))
  {
  }

  /** What parsepipe found at p, with the '&' behind it, is c, and rest is left
      from q on. */
  ghost predicate BackedTo(s: string, p: nat, c: Cmd, q: nat, rest: seq<Lexeme>) {
    && p <= |s| && q <= |s| && ParsePipe(s, p).Got? && Lexemes(s, q) == rest
    && Backs(s, ParsePipe(s, p).at, ParsePipe(s, p).cmd) == Backs(s, q, c)
  }

  lemma {:induction false} BackedComplete(s: string, p: nat, xs: seq<Lexeme>, t: Tree, rest: seq<Lexeme>)
    returns (c: Cmd, q: nat)
    requires p <= |s| && Lexemes(s, p) == xs + rest && SpellsBacked(xs, t) && EndsSimple(rest) && !Begins(rest, {'|'})
    ensures TreeOf(s, c) == t && BackedTo(s, p, c, q, rest)
    decreases |xs|, 3
  {
    if SpellsPipe(xs, t) {
      PipeComplete(s, p, xs, t, rest);
      c, q := ParsePipe(s, p).cmd, ParsePipe(s, p).at;
    } else {
      var ys := xs[..|xs| - 1];
      assert xs + rest == ys + ([Mark('&')] + rest);
      var c1, q1 := BackedComplete(s, p, ys, t.cmd, [Mark('&')] + rest);
      SymbolFirst(s, q1, '&', rest);
      BacksIs(s, q1, c1);
      c, q := Back(c1), GetToken(s, q1).next;
    }
  }

  lemma {:induction false} LineComplete(s: string, p: nat, xs: seq<Lexeme>, t: Tree, rest: seq<Lexeme>)
    requires p <= |s| && Lexemes(s, p) == xs + rest && SpellsLine(xs, t) && EndsLine(rest)
    ensures Reads(s, t, rest, ParseLine(s, p))
    decreases |xs|, 4
  {
    if SpellsBacked(xs, t) {
      var c, q := BackedComplete(s, p, xs, t, rest);
      LineEnds(s, p, c, q, rest);
    } else {
      var m: nat :| ListAt(xs, m, t);
      MarkCut(xs, m, rest);
      ListComplete(s, p, xs[..m], t.left, xs[m + 1..], t.right, rest);
    }
  }

  lemma {:induction false} ListComplete(s: string, p: nat, ys: seq<Lexeme>, l: Tree, zs: seq<Lexeme>, r: Tree,
                                        rest: seq<Lexeme>)
    requires p <= |s| && Lexemes(s, p) == ys + ([Mark(';')] + (zs + rest)) && EndsLine(rest)
    requires SpellsBacked(ys, l) && SpellsLine(zs, r)
    ensures Reads(s, TList(l, r), rest, ParseLine(s, p))
    decreases |ys| + |zs| + 1, 3
  {
    var c, q := BackedComplete(s, p, ys, l, [Mark(';')] + (zs + rest));
    var next := ListGoesOn(s, p, c, q, zs + rest);
    LineComplete(s, next, zs, r, rest);
    ListTree(s, c, ParseLine(s, next), l, r, rest, ParseLine(s, p));
  }

  lemma ListTree(s: string, c: Cmd, d: Parsed, l: Tree, r: Tree, rest: seq<Lexeme>, whole: Parsed)
    requires TreeOf(s, c) == l && Reads(s, r, rest, d) && whole == Got(List(c, d.cmd), d.at)
    ensures Reads(s, TList(l, r), rest, whole)
  {
  }

  lemma PipeTree(s: string, c: Cmd, d: Parsed, l: Tree, r: Tree, rest: seq<Lexeme>, whole: Parsed)
    requires TreeOf(s, c) == l && Reads(s, r, rest, d) && whole == Got(Pipe(c, d.cmd), d.at)
    ensures Reads(s, TPipe(l, r), rest, whole)
  {
  }

  lemma ListGoesOn(s: string, p: nat, c: Cmd, q: nat, more: seq<Lexeme>) returns (next: nat)
    requires BackedTo(s, p, c, q, [Mark(';')] + more)
    ensures next <= |s| && Lexemes(s, next) == more
    ensures var rest := ParseLine(s, next);
      ParseLine(s, p) == if rest.Panic? then Panic else Got(List(c, rest.cmd), rest.at)
  {
    LineIs(s, p);
    BacksIs(s, q, c);
    SkipTwice(s, q);
    SymbolFirst(s, SkipWhite(s, q), ';', more);
    next := GetToken(s, SkipWhite(s, q)).next;
  }

  lemma LineEnds(s: string, p: nat, c: Cmd, q: nat, rest: seq<Lexeme>)
    requires BackedTo(s, p, c, q, rest) && EndsLine(rest)
    ensures Reads(s, TreeOf(s, c), rest, ParseLine(s, p))
  {
    LineIs(s, p);
    BacksIs(s, q, c);
    SkipTwice(s, q);
    SkipTwice(s, SkipWhite(s, q));
  }

  // ---- lexemes and white space --------------------------------------------

  /** A C string has no NUL before its end. */
  ghost predicate NoNul(s: string) {
    forall i :: 0 <= i < |s| ==> s[i] != '\0'
  }

  /** A token is spelled as its lexeme is. */
  lemma TokenStands(s: string, q: nat)
    requires q < |s| && NoNul(s) && !White(s[q])
    ensures var (tok, e) := TokenEnd(s, q);
      tok != '\0' && Stands(s, q, e, LexemeOf(s, Token(tok, Span(q, e), e)))
  {
    var (tok, e) := TokenEnd(s, q);
    if tok == 'a' {
      WordEndIs(s, q);
    } else {
      assert s[q..e] == Spelling(Mark(tok));
    }
  }

  lemma FirstLexeme(s: string, p: nat)
    requires p <= |s| && NoNul(s) && SkipWhite(s, p) < |s|
    ensures var q := SkipWhite(s, p);
      var (tok, e) := TokenEnd(s, q);
      tok != '\0' && Lexemes(s, p) == [LexemeOf(s, Token(tok, Span(q, e), e))] + Lexemes(s, e)
  {
    var q := SkipWhite(s, p);
    TokenStands(s, q);
    SkipTwice(s, TokenEnd(s, q).1);
  }

  lemma NoLexeme(s: string, p: nat)
    requires p <= |s| && SkipWhite(s, p) == |s|
    ensures Lexemes(s, p) == []
  {
  }

  /** The lexemes are what the text consists of. */
  lemma {:induction false} LexSound(s: string, p: nat)
    requires p <= |s| && NoNul(s)
    ensures Spaced(s, p, Lexemes(s, p))
    decreases |s| - p
  {
    var q := SkipWhite(s, p);
    SkipWhiteIs(s, p, q);
    assert AllWhite(s, p, q);
    if q == |s| {
      NoLexeme(s, p);
    } else {
      FirstLexeme(s, p);
      TokenStands(s, q);
      var e := TokenEnd(s, q).1;
      LexSound(s, e);
      assert Lexemes(s, p)[1..] == Lexemes(s, e);
    }
  }

  lemma WordIs(s: string, q: nat, e: nat, w: string)
    requires Stands(s, q, e, Word(w)) && NoNul(s)
    ensures WordEnd(s, q) == e && !Delimiter(s[q])
  {
    forall i | q <= i < e ensures !Delimiter(s[i]) {
      assert s[q..e][i - q] == s[i];
    }
    WordEndIs(s, q);
  }

  /** Whatever stands in the text is what gettoken finds. */
  lemma StandsToken(s: string, q: nat, e: nat, x: Lexeme)
    requires Stands(s, q, e, x) && NoNul(s)
    ensures !White(s[q])
    ensures var (tok, e') := TokenEnd(s, q);
      e' == e && LexemeOf(s, Token(tok, Span(q, e), e)) == x
  {
    assert s[q..e][0] == s[q];
    if x.Word? {
      WordIs(s, q, e, x.text);
    } else if x.c == '+' {
      assert s[q..e][1] == s[q + 1];
    }
  }

  lemma {:induction false} LexComplete(s: string, p: nat, xs: seq<Lexeme>)
    requires p <= |s| && NoNul(s) && Spaced(s, p, xs)
    ensures Lexemes(s, p) == xs
    decreases |xs|
  {
    if xs == [] {
      SkipWhiteIs(s, p, |s|);
      NoLexeme(s, p);
    } else {
      var a: nat, b: nat :| AllWhite(s, p, a) && Stands(s, a, b, xs[0]) && Spaced(s, b, xs[1..]);
      StandsToken(s, a, b, xs[0]);
      SkipWhiteIs(s, p, a);
      FirstLexeme(s, p);
      LexComplete(s, b, xs[1..]);
    }
  }

  // ---- the parser and the grammar -----------------------------------------

  /** parsecmd finds the command t in a text if and only if the text spells t,
      whatever the white space. */
  lemma ParsesExactly(s: string, t: Tree)
    requires NoNul(s)
    ensures ParseCmd(s).Got? && TreeOf(s, ParseCmd(s).cmd) == t <==> Spells(s, t)
  {
    if ParseCmd(s).Got? {
      CmdSound(s);
    }
    if Spells(s, t) {
      var xs :| Spaced(s, 0, xs) && SpellsLine(xs, t);
      LexComplete(s, 0, xs);
      CmdComplete(s, xs, t);
    }
  }

  /** The texts that parsecmd accepts are those that spell a command, and no text
      spells two. */
  lemma AcceptsSpellings(s: string)
    requires NoNul(s)
    ensures ParseCmd(s).Got? <==> exists t :: Spells(s, t)
    ensures forall t, u :: Spells(s, t) && Spells(s, u) ==> t == u
  {
    forall t ensures ParseCmd(s).Got? && TreeOf(s, ParseCmd(s).cmd) == t <==> Spells(s, t) {
      ParsesExactly(s, t);
    }
    if ParseCmd(s).Got? {
      assert Spells(s, TreeOf(s, ParseCmd(s).cmd));
    }
  }

  lemma CmdSound(s: string)
    requires NoNul(s) && ParseCmd(s).Got?
    ensures Spells(s, TreeOf(s, ParseCmd(s).cmd))
  {
    var r := ParseLine(s, 0);
    var xs := LineSound(s, 0);
    assert Lexemes(s, r.at) == [];
    assert xs + [] == xs;
    LexSound(s, 0);
  }

  lemma CmdComplete(s: string, xs: seq<Lexeme>, t: Tree)
    requires NoNul(s) && Lexemes(s, 0) == xs && SpellsLine(xs, t)
    ensures ParseCmd(s).Got? && TreeOf(s, ParseCmd(s).cmd) == t
  {
    assert xs + [] == xs;
    LineComplete(s, 0, xs, t, []);
  }

  /** Every command with fewer than MAXARGS words at a time and no delimiters in
      its words survives printing and parsing. */
  lemma RoundTrip(t: Tree)
    requires Fine(t)
    ensures var s := Write(LineOut(t)); ParseCmd(s).Got? && TreeOf(s, ParseCmd(s).cmd) == t
  {
    var xs := LineOut(t);
    OutProper(t);
    LineOutSpells(t);
    WriteNoNul(xs);
    assert Write(xs)[0..] == Write(xs);
    WriteSpaced(Write(xs), 0, xs);
    ParsesExactly(Write(xs), t);
  }
}
