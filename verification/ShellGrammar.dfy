/** What the parser of sh.c computes, as functions of the text and a position in
    it.  Words are kept as positions in the text, as the parser keeps them. */
module ShellGrammar {

  const MAXARGS: nat := 10

  /** A word from q up to, but not including, eq. */
  datatype Span = Span(q: nat, eq: nat)

  /** In opens for reading on 0; Out creates and opens for writing on 1, for ">>"
      as for ">". */
  datatype Mode = In | Out

  datatype Cmd =
    | Exec(args: seq<Span>)
    | Redir(cmd: Cmd, file: Span, mode: Mode)
    | Pipe(left: Cmd, right: Cmd)
    | List(left: Cmd, right: Cmd)
    | Back(cmd: Cmd)

  /** A parse function either panics or has a command and the position after it. */
  datatype Parsed = Panic | Got(cmd: Cmd, at: nat)

  predicate White(c: char) {
    c == ' ' || c == '\t' || c == '\r' || c == '\n' || c == 11 as char
  }

  predicate Symbol(c: char) {
    c == '<' || c == '|' || c == '>' || c == '&' || c == ';' || c == '(' || c == ')'
  }

  predicate Delimiter(c: char) {
    White(c) || Symbol(c) || c == '\0'
  }

  /** What *p reads: the text is ended by NUL. */
  function At(s: string, p: nat): char {
    if p < |s| then s[p] else '\0'
  }

  // ---- tokens -------------------------------------------------------------

  function SkipWhite(s: string, p: nat): (r: nat)
    requires p <= |s|
    ensures p <= r <= |s| && !White(At(s, r))
    decreases |s| - p
  {
    if p < |s| && White(s[p]) then SkipWhite(s, p + 1) else p
  }

  function WordEnd(s: string, p: nat): (r: nat)
    requires p <= |s|
    ensures p <= r <= |s| && (r == p ==> White(At(s, p)) || Symbol(At(s, p)) || p == |s|)
    decreases |s| - p
  {
    if p < |s| && !White(s[p]) && !Symbol(s[p]) then WordEnd(s, p + 1) else p
  }

  /** tok is NUL at the end, 'a' for a word, '+' for ">>", and else the symbol. */
  datatype Token = Token(tok: char, word: Span, next: nat)

  function TokenEnd(s: string, p: nat): (r: (char, nat))
    requires p <= |s| && !White(At(s, p))
    ensures p <= r.1 <= |s| && (r.0 == '\0' ==> r.1 == p) && (r.0 != '\0' ==> p < r.1)
  {
    var c := At(s, p);
    if c == '\0' then (c, p)
    else if c == '|' || c == '(' || c == ')' || c == ';' || c == '&' || c == '<' then (c, p + 1)
    else if c == '>' then if At(s, p + 1) == '>' then ('+', p + 2) else ('>', p + 1)
    else ('a', WordEnd(s, p))
  }

  function GetToken(s: string, p: nat): (t: Token)
    requires p <= |s|
    ensures p <= t.next <= |s| && (t.tok != '\0' ==> p < t.next)
  {
    var q := SkipWhite(s, p);
    var (tok, eq) := TokenEnd(s, q);
    Token(tok, Span(q, eq), SkipWhite(s, eq))
  }

  /** peek: the next character that is not white is one of toks. */
  predicate Peek(s: string, p: nat, toks: set<char>)
    requires p <= |s|
  {
    var c := At(s, SkipWhite(s, p)); c != '\0' && c in toks
  }

  // ---- commands -----------------------------------------------------------

  datatype Redirection = Redirection(file: Span, mode: Mode)

  /** The redirections found, or a panic when a file is missing. */
  datatype Redirs = RPanic | RGot(redirs: seq<Redirection>, at: nat)

  function ParseRedirs(s: string, p: nat, redirs: seq<Redirection>): (r: Redirs)
    requires p <= |s|
    ensures r.RGot? ==> p <= r.at <= |s|
    decreases |s| - p
  {
    if !Peek(s, p, {'<', '>'}) then RGot(redirs, SkipWhite(s, p))
    else
      var op := GetToken(s, p);
      var file := GetToken(s, op.next);
      if file.tok != 'a' then RPanic
      else ParseRedirs(s, file.next, redirs + [Redirection(file.word, if op.tok == '<' then In else Out)])
  }

  /** The command inside the redirections, the first of them innermost. */
  function Wrap(c: Cmd, redirs: seq<Redirection>): (r: Cmd)
    decreases |redirs|
  {
    if redirs == [] then c
    else
      var last := redirs[|redirs| - 1];
      Redir(Wrap(c, redirs[..|redirs| - 1]), last.file, last.mode)
  }

  function ParseLine(s: string, p: nat): (r: Parsed)
    requires p <= |s|
    ensures r.Got? ==> p <= r.at <= |s|
    decreases |s| - p, 4
  {
    var first := ParsePipe(s, p);
    if first.Panic? then Panic
    else
      var b := Backs(s, first.at, first.cmd);
      if !Peek(s, b.at, {';'}) then Got(b.cmd, SkipWhite(s, b.at))
      else
        var rest := ParseLine(s, GetToken(s, b.at).next);
        if rest.Panic? then Panic else Got(List(b.cmd, rest.cmd), rest.at)
  }

  /** parseline's loop over "&". */
  function Backs(s: string, p: nat, c: Cmd): (r: Parsed)
    requires p <= |s|
    ensures r.Got? && p <= r.at <= |s|
    decreases |s| - p, 0
  {
    if Peek(s, p, {'&'}) then Backs(s, GetToken(s, p).next, Back(c)) else Got(c, SkipWhite(s, p))
  }

  function ParsePipe(s: string, p: nat): (r: Parsed)
    requires p <= |s|
    ensures r.Got? ==> p <= r.at <= |s|
    decreases |s| - p, 3
  {
    var first := ParseExec(s, p);
    if first.Panic? then Panic
    else if !Peek(s, first.at, {'|'}) then Got(first.cmd, SkipWhite(s, first.at))
    else
      var rest := ParsePipe(s, GetToken(s, first.at).next);
      if rest.Panic? then Panic else Got(Pipe(first.cmd, rest.cmd), rest.at)
  }

  function ParseBlock(s: string, p: nat): (r: Parsed)
    requires p <= |s|
    ensures r.Got? ==> p <= r.at <= |s|
    decreases |s| - p, 1
  {
    if !Peek(s, p, {'('}) then Panic
    else
      var inner := ParseLine(s, GetToken(s, p).next);
      if inner.Panic? || !Peek(s, inner.at, {')'}) then Panic
      else
        var rs := ParseRedirs(s, GetToken(s, inner.at).next, []);
        if rs.RPanic? then Panic
        else Got(Wrap(inner.cmd, rs.redirs), rs.at)
  }

  function ParseExec(s: string, p: nat): (r: Parsed)
    requires p <= |s|
    ensures r.Got? ==> p <= r.at <= |s|
    decreases |s| - p, 2
  {
    if Peek(s, p, {'('}) then ParseBlock(s, SkipWhite(s, p))
    else
      var rs := ParseRedirs(s, SkipWhite(s, p), []);
      if rs.RPanic? then Panic else ParseArgs(s, rs.at, [], rs.redirs)
  }

  /** parseexec's loop: words and redirections until a symbol or the end. */
  function ParseArgs(s: string, p: nat, args: seq<Span>, redirs: seq<Redirection>): (r: Parsed)
    requires p <= |s|
    ensures r.Got? ==> p <= r.at <= |s|
    decreases |s| - p, 0
  {
    if Peek(s, p, {'|', ')', '&', ';'}) then Got(Wrap(Exec(args), redirs), SkipWhite(s, p))
    else
      var t := GetToken(s, p);
      if t.tok == '\0' then Got(Wrap(Exec(args), redirs), t.next)
      else if t.tok != 'a' || |args| + 1 >= MAXARGS then Panic
      else
        var rs := ParseRedirs(s, t.next, redirs);
        if rs.RPanic? then Panic else ParseArgs(s, rs.at, args + [t.word], rs.redirs)
  }

  /** parsecmd, before nulterminate. */
  function ParseCmd(s: string): (r: Parsed) {
    var r := ParseLine(s, 0);
    if r.Panic? || SkipWhite(s, r.at) != |s| then Panic else Got(r.cmd, |s|)
  }

  // ---- the words ----------------------------------------------------------

  /** A stored word is a whole token: no delimiter in it, and one right after. */
  predicate WordAt(s: string, w: Span) {
    && w.q < w.eq <= |s| && (w.eq < |s| ==> Delimiter(s[w.eq]))
    && forall i :: w.q <= i < w.eq ==> !White(s[i]) && !Symbol(s[i])
  }

  predicate Words(s: string, c: Cmd) {
    match c
    case Exec(args) => |args| < MAXARGS && forall i :: 0 <= i < |args| ==> WordAt(s, args[i])
    case Redir(c1, file, _) => Words(s, c1) && WordAt(s, file)
    case Pipe(l, r) => Words(s, l) && Words(s, r)
    case List(l, r) => Words(s, l) && Words(s, r)
    case Back(c1) => Words(s, c1)
  }

  predicate Good(s: string, r: Parsed) {
    r.Got? ==> Words(s, r.cmd)
  }

  predicate GoodRedirs(s: string, redirs: seq<Redirection>) {
    forall i :: 0 <= i < |redirs| ==> WordAt(s, redirs[i].file)
  }

  lemma {:induction false} WrapWords(s: string, c: Cmd, redirs: seq<Redirection>)
    requires Words(s, c) && GoodRedirs(s, redirs)
    ensures Words(s, Wrap(c, redirs))
    decreases |redirs|
  {
    if redirs != [] {
      WrapWords(s, c, redirs[..|redirs| - 1]);
    }
  }

  /** Only white space is skipped, and all of it. */
  lemma {:induction false} SkipWhiteIs(s: string, p: nat, q: nat)
    requires p <= q <= |s|
    ensures q == SkipWhite(s, p) <==> !White(At(s, q)) && forall i :: p <= i < q ==> White(s[i])
    decreases q - p
  {
    if p < q && White(s[p]) {
      SkipWhiteIs(s, p + 1, q);
    }
  }

  /** A word runs to the next white space or symbol. */
  lemma {:induction false} WordEndIs(s: string, p: nat)
    requires p <= |s|
    ensures var r := WordEnd(s, p);
      (forall i :: p <= i < r ==> !White(s[i]) && !Symbol(s[i])) && (r < |s| ==> White(s[r]) || Symbol(s[r]))
    decreases |s| - p
  {
    if p < |s| && !White(s[p]) && !Symbol(s[p]) {
      WordEndIs(s, p + 1);
    }
  }

  lemma TokenWord(s: string, p: nat)
    requires p <= |s| && GetToken(s, p).tok == 'a'
    ensures WordAt(s, GetToken(s, p).word)
  {
    WordEndIs(s, SkipWhite(s, p));
  }

  lemma {:induction false} RedirsWords(s: string, p: nat, redirs: seq<Redirection>)
    requires p <= |s| && GoodRedirs(s, redirs)
    ensures ParseRedirs(s, p, redirs).RGot? ==> GoodRedirs(s, ParseRedirs(s, p, redirs).redirs)
    decreases |s| - p
  {
    if Peek(s, p, {'<', '>'}) {
      var op := GetToken(s, p);
      var file := GetToken(s, op.next);
      if file.tok == 'a' {
        TokenWord(s, op.next);
        RedirsWords(s, file.next, redirs + [Redirection(file.word, if op.tok == '<' then In else Out)]);
      }
    }
  }

  lemma {:induction false} BacksWords(s: string, p: nat, c: Cmd)
    requires p <= |s| && Words(s, c)
    ensures Good(s, Backs(s, p, c))
    decreases |s| - p
  {
    if Peek(s, p, {'&'}) {
      BacksWords(s, GetToken(s, p).next, Back(c));
    }
  }

  lemma {:induction false} ArgsWords(s: string, p: nat, args: seq<Span>, redirs: seq<Redirection>)
    requires p <= |s| && GoodRedirs(s, redirs) && Words(s, Exec(args))
    ensures Good(s, ParseArgs(s, p, args, redirs))
    decreases |s| - p
  {
    WrapWords(s, Exec(args), redirs);
    var t := GetToken(s, p);
    if !Peek(s, p, {'|', ')', '&', ';'}) && t.tok == 'a' && |args| + 1 < MAXARGS {
      TokenWord(s, p);
      RedirsWords(s, t.next, redirs);
      var rs := ParseRedirs(s, t.next, redirs);
      if rs.RGot? {
        ArgsWords(s, rs.at, args + [t.word], rs.redirs);
      }
    }
  }

  lemma {:induction false} LineWords(s: string, p: nat)
    requires p <= |s|
    ensures Good(s, ParseLine(s, p))
    decreases |s| - p, 4
  {
    PipeWords(s, p);
    var first := ParsePipe(s, p);
    if first.Got? {
      BacksWords(s, first.at, first.cmd);
      var b := Backs(s, first.at, first.cmd);
      if Peek(s, b.at, {';'}) {
        LineWords(s, GetToken(s, b.at).next);
      }
    }
  }

  lemma {:induction false} PipeWords(s: string, p: nat)
    requires p <= |s|
    ensures Good(s, ParsePipe(s, p))
    decreases |s| - p, 3
  {
    ExecWords(s, p);
    var first := ParseExec(s, p);
    if first.Got? && Peek(s, first.at, {'|'}) {
      PipeWords(s, GetToken(s, first.at).next);
    }
  }

  lemma {:induction false} ExecWords(s: string, p: nat)
    requires p <= |s|
    ensures Good(s, ParseExec(s, p))
    decreases |s| - p, 2
  {
    if Peek(s, p, {'('}) {
      BlockWords(s, SkipWhite(s, p));
    } else {
      RedirsWords(s, SkipWhite(s, p), []);
      var rs := ParseRedirs(s, SkipWhite(s, p), []);
      if rs.RGot? {
        ArgsWords(s, rs.at, [], rs.redirs);
      }
    }
  }

  lemma {:induction false} BlockWords(s: string, p: nat)
    requires p <= |s|
    ensures Good(s, ParseBlock(s, p))
    decreases |s| - p, 1
  {
    if Peek(s, p, {'('}) {
      LineWords(s, GetToken(s, p).next);
      var inner := ParseLine(s, GetToken(s, p).next);
      if inner.Got? && Peek(s, inner.at, {')'}) {
        RedirsWords(s, GetToken(s, inner.at).next, []);
        var rs := ParseRedirs(s, GetToken(s, inner.at).next, []);
        if rs.RGot? {
          WrapWords(s, inner.cmd, rs.redirs);
        }
      }
    }
  }

  /** Every word that a parsed command keeps is a whole token of the text. */
  lemma ParsedWords(s: string)
    ensures Good(s, ParseCmd(s))
  {
    LineWords(s, 0);
  }
}
