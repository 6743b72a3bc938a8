/** The parser of sh.c with its loops, and nulterminate on the buffer. */
module ShellParser {

  import opened ShellGrammar

  /** gettoken. */
  method NextToken(s: string, p: nat) returns (t: Token)
    requires p <= |s|
    ensures t == GetToken(s, p)
  {
    var q := SkipSpace(s, p);
    var tok, eq := At(s, q), q;
    if tok == '\0' {
    } else if tok == '|' || tok == '(' || tok == ')' || tok == ';' || tok == '&' || tok == '<' {
      eq := eq + 1;
    } else if tok == '>' {
      eq := eq + 1;
      if At(s, eq) == '>' {
        tok := '+';
        eq := eq + 1;
      }
    } else {
      tok := 'a';
      while eq < |s| && !White(s[eq]) && !Symbol(s[eq])
        invariant q <= eq <= |s| && WordEnd(s, eq) == WordEnd(s, q)
      {
        eq := eq + 1;
      }
    }
    var next := SkipSpace(s, eq);
    return Token(tok, Span(q, eq), next);
  }

  method SkipSpace(s: string, p: nat) returns (q: nat)
    requires p <= |s|
    ensures q == SkipWhite(s, p)
  {
    q := p;
    while q < |s| && White(s[q])
      invariant p <= q <= |s| && SkipWhite(s, q) == SkipWhite(s, p)
    {
      q := q + 1;
    }
  }

  /** peek: also moves over the white space. */
  method Look(s: string, p: nat, toks: set<char>) returns (found: bool, q: nat)
    requires p <= |s|
    ensures q == SkipWhite(s, p) && found == Peek(s, p, toks)
  {
    q := SkipSpace(s, p);
    found := At(s, q) != '\0' && At(s, q) in toks;
  }

  /** Moving over white space first changes neither a token nor a peek. */
  lemma Skipped(s: string, p: nat)
    requires p <= |s|
    ensures SkipWhite(s, SkipWhite(s, p)) == SkipWhite(s, p)
    ensures GetToken(s, SkipWhite(s, p)) == GetToken(s, p)
    ensures forall toks :: Peek(s, SkipWhite(s, p), toks) == Peek(s, p, toks)
  {
  }

  /** parseredirs. */
  method Redirections(s: string, p: nat, redirs: seq<Redirection>) returns (r: Redirs)
    requires p <= |s|
    ensures r == ParseRedirs(s, p, redirs)
  {
    var at, found, rs := p, false, redirs;
    while true
      invariant at <= |s| && ParseRedirs(s, at, rs) == ParseRedirs(s, p, redirs)
      decreases |s| - at
    {
      Skipped(s, at);
      found, at := Look(s, at, {'<', '>'});
      if !found {
        return RGot(rs, at);
      }
      var op := NextToken(s, at);
      var file := NextToken(s, op.next);
      if file.tok != 'a' {
        return RPanic;
      }
      rs := rs + [Redirection(file.word, if op.tok == '<' then In else Out)];
      at := file.next;
    }
  }

  /** parseline. */
  method Line(s: string, p: nat) returns (r: Parsed)
    requires p <= |s|
    ensures r == ParseLine(s, p)
    decreases |s| - p, 4
  {
    r := Pipeline(s, p);
    if r.Panic? {
      return;
    }
    var cmd, at := r.cmd, r.at;
    ghost var first := r;
    while true
      invariant p <= at <= |s| && Backs(s, at, cmd) == Backs(s, first.at, first.cmd)
      decreases |s| - at
    {
      Skipped(s, at);
      var amp;
      amp, at := Look(s, at, {'&'});
      if !amp {
        break;
      }
      var t := NextToken(s, at);
      cmd, at := Back(cmd), t.next;
    }
    Skipped(s, at);
    assert Backs(s, first.at, first.cmd) == Got(cmd, at);
    var semi;
    semi, at := Look(s, at, {';'});
    if semi {
      var t := NextToken(s, at);
      var rest := Line(s, t.next);
      return if rest.Panic? then Panic else Got(List(cmd, rest.cmd), rest.at);
    }
    return Got(cmd, at);
  }

  /** parsepipe. */
  method Pipeline(s: string, p: nat) returns (r: Parsed)
    requires p <= |s|
    ensures r == ParsePipe(s, p)
    decreases |s| - p, 3
  {
    r := Command(s, p);
    if r.Panic? {
      return;
    }
    Skipped(s, r.at);
    var bar, at := Look(s, r.at, {'|'});
    if bar {
      var t := NextToken(s, at);
      var rest := Pipeline(s, t.next);
      return if rest.Panic? then Panic else Got(Pipe(r.cmd, rest.cmd), rest.at);
    }
    return Got(r.cmd, at);
  }

  /** parseblock. */
  method Block(s: string, p: nat) returns (r: Parsed)
    requires p <= |s|
    ensures r == ParseBlock(s, p)
    decreases |s| - p, 1
  {
    Skipped(s, p);
    var open, at := Look(s, p, {'('});
    if !open {
      return Panic;
    }
    var t := NextToken(s, at);
    r := Line(s, t.next);
    if r.Panic? {
      return;
    }
    Skipped(s, r.at);
    var close;
    close, at := Look(s, r.at, {')'});
    if !close {
      return Panic;
    }
    t := NextToken(s, at);
    var rs := Redirections(s, t.next, []);
    return if rs.RPanic? then Panic else Got(Wrap(r.cmd, rs.redirs), rs.at);
  }

  /** parseexec.  The command being built is the words so far; the redirections
      around it are put on at the end. */
  method Command(s: string, p: nat) returns (r: Parsed)
    requires p <= |s|
    ensures r == ParseExec(s, p)
    decreases |s| - p, 2
  {
    Skipped(s, p);
    var open, at := Look(s, p, {'('});
    if open {
      r := Block(s, at);
      return;
    }
    var rs := Redirections(s, at, []);
    if rs.RPanic? {
      return Panic;
    }
    r := Arguments(s, rs.at, rs.redirs);
  }

  method Arguments(s: string, p: nat, redirs: seq<Redirection>) returns (r: Parsed)
    requires p <= |s|
    ensures r == ParseArgs(s, p, [], redirs)
  {
    var at, args, rs := p, [], redirs;
    while true
      invariant p <= at <= |s| && ParseArgs(s, at, args, rs) == ParseArgs(s, p, [], redirs)
      decreases |s| - at
    {
      Skipped(s, at);
      var stop;
      stop, at := Look(s, at, {'|', ')', '&', ';'});
      if stop {
        return Got(Wrap(Exec(args), rs), at);
      }
      var t := NextToken(s, at);
      if t.tok == '\0' {
        return Got(Wrap(Exec(args), rs), t.next);
      }
      if t.tok != 'a' {
        return Panic;
      }
      if |args| + 1 >= MAXARGS {
        return Panic;
      }
      var more := Redirections(s, t.next, rs);
      if more.RPanic? {
        return Panic;
      }
      args, rs, at := args + [t.word], more.redirs, more.at;
    }
  }

  /** parsecmd up to its check for leftovers. */
  method Parse(s: string) returns (r: Parsed)
    ensures r == ParseCmd(s)
  {
    r := Line(s, 0);
    if r.Panic? {
      return;
    }
    var at := SkipSpace(s, r.at);
    return if at != |s| then Panic else Got(r.cmd, at);
  }

  // ---- nulterminate -------------------------------------------------------

  /** The words that a command keeps, in the order nulterminate comes to them. */
  function Spans(c: Cmd): seq<Span> {
    match c
    case Exec(args) => args
    case Redir(c1, file, _) => Spans(c1) + [file]
    case Pipe(l, r) => Spans(l) + Spans(r)
    case List(l, r) => Spans(l) + Spans(r)
    case Back(c1) => Spans(c1)
  }

  predicate EndsIn(ws: seq<Span>, n: nat) {
    forall i :: 0 <= i < |ws| ==> ws[i].eq < n
  }

  /** The buffer b with a NUL at the end of each word. */
  function Ended(ws: seq<Span>, b: seq<char>): (r: seq<char>)
    requires EndsIn(ws, |b|)
    ensures |r| == |b|
  {
    if ws == [] then b else Ended(ws[..|ws| - 1], b)[ws[|ws| - 1].eq := '\0']
  }

  lemma {:induction false} EndedTwice(v: seq<Span>, w: seq<Span>, b: seq<char>)
    requires EndsIn(v, |b|) && EndsIn(w, |b|)
    ensures EndsIn(v + w, |b|) && Ended(v + w, b) == Ended(w, Ended(v, b))
    decreases |w|
  {
    if w == [] {
      assert v + w == v;
    } else {
      assert (v + w)[..|v + w| - 1] == v + w[..|w| - 1];
      EndedTwice(v, w[..|w| - 1], b);
    }
  }

  method NulTerminate(c: Cmd, buf: array<char>)
    requires EndsIn(Spans(c), buf.Length)
    modifies buf
    ensures buf[..] == Ended(Spans(c), old(buf[..]))
    decreases c
  {
    match c
    case Exec(args) =>
      for i := 0 to |args|
        invariant EndsIn(args[..i], buf.Length) && buf[..] == Ended(args[..i], old(buf[..]))
      {
        assert args[..i + 1][..i] == args[..i];
        buf[args[i].eq] := '\0';
      }
      assert args[..|args|] == args;
    case Redir(c1, file, _) =>
      assert Spans(c)[..|Spans(c1)|] == Spans(c1) && Spans(c)[|Spans(c1)|] == file;
      NulTerminate(c1, buf);
      buf[file.eq] := '\0';
    case Pipe(l, r) =>
      Halves(Spans(l), Spans(r), buf.Length);
      EndedTwice(Spans(l), Spans(r), buf[..]);
      NulTerminate(l, buf);
      NulTerminate(r, buf);
    case List(l, r) =>
      Halves(Spans(l), Spans(r), buf.Length);
      EndedTwice(Spans(l), Spans(r), buf[..]);
      NulTerminate(l, buf);
      NulTerminate(r, buf);
    case Back(c1) =>
      NulTerminate(c1, buf);
  }

  lemma Halves(v: seq<Span>, w: seq<Span>, n: nat)
    requires EndsIn(v + w, n)
    ensures EndsIn(v, n) && EndsIn(w, n)
  {
    assert forall i :: 0 <= i < |v| ==> (v + w)[i] == v[i];
    assert forall i :: 0 <= i < |w| ==> (v + w)[|v| + i] == w[i];
  }

  /** The NULs fall on the ends of the words and nowhere else. */
  lemma {:induction false} EndedAt(ws: seq<Span>, b: seq<char>, k: nat)
    requires EndsIn(ws, |b|) && k < |b|
    ensures Ended(ws, b)[k] == if exists i :: 0 <= i < |ws| && ws[i].eq == k then '\0' else b[k]
    decreases |ws|
  {
    if ws != [] {
      var rest, last := ws[..|ws| - 1], ws[|ws| - 1];
      EndedAt(rest, b, k);
      if i :| 0 <= i < |ws| && ws[i].eq == k && i < |rest| {
        assert rest[i].eq == k;
      }
      if last.eq == k {
        assert ws[|ws| - 1].eq == k;
      }
    }
  }

  /** The string that starts at q. */
  function CString(b: seq<char>, q: nat): string
    decreases |b| - q
  {
    if q < |b| && b[q] != '\0' then [b[q]] + CString(b, q + 1) else ""
  }

  lemma {:induction false} CStringIs(b: seq<char>, q: nat, eq: nat)
    requires q <= eq < |b| && b[eq] == '\0' && forall i :: q <= i < eq ==> b[i] != '\0'
    ensures CString(b, q) == b[q..eq]
    decreases eq - q
  {
    if q < eq {
      CStringIs(b, q + 1, eq);
      assert b[q..eq] == [b[q]] + b[q + 1..eq];
    }
  }

  lemma {:induction false} SpansAreWords(s: string, c: Cmd)
    requires Words(s, c)
    ensures forall i :: 0 <= i < |Spans(c)| ==> WordAt(s, Spans(c)[i])
  {
    match c
    case Exec(_) =>
    case Redir(c1, _, _) => SpansAreWords(s, c1);
    case Pipe(l, r) =>
      SpansAreWords(s, l);
      SpansAreWords(s, r);
    case List(l, r) =>
      SpansAreWords(s, l);
      SpansAreWords(s, r);
    case Back(c1) => SpansAreWords(s, c1);
  }

  /** After nulterminate on the parsed text every stored word is, as a string,
      exactly its token: no word damages another. */
  lemma WordsTerminated(s: string, k: nat)
    requires (forall i :: 0 <= i < |s| ==> s[i] != '\0') && ParseCmd(s).Got? && k < |Spans(ParseCmd(s).cmd)|
    ensures var ws := Spans(ParseCmd(s).cmd);
      && EndsIn(ws, |s| + 1) && ws[k].q < ws[k].eq <= |s|
      && CString(Ended(ws, s + ['\0']), ws[k].q) == s[ws[k].q..ws[k].eq]
  {
    var c := ParseCmd(s).cmd;
    ParsedWords(s);
    SpansAreWords(s, c);
    TerminatedIn(s, s + ['\0'], Spans(c), k);
  }

  lemma TerminatedIn(s: string, b: seq<char>, ws: seq<Span>, k: nat)
    requires (forall i :: 0 <= i < |s| ==> s[i] != '\0') && (forall i :: 0 <= i < |ws| ==> WordAt(s, ws[i])) && k < |ws|
    requires s + ['\0'] <= b
    ensures EndsIn(ws, |b|) && ws[k].q < ws[k].eq <= |s|
    ensures CString(Ended(ws, b), ws[k].q) == s[ws[k].q..ws[k].eq]
  {
    assert forall i :: 0 <= i <= |s| ==> b[i] == (s + ['\0'])[i];
    var b' := Ended(ws, b);
    var w := ws[k];
    assert WordAt(s, w);
    EndedAt(ws, b, w.eq);
    forall i | w.q <= i < w.eq ensures b'[i] == s[i] && b'[i] != '\0' {
      EndedAt(ws, b, i);
      NotAnEnd(s, ws, w, i);
    }
    CStringIs(b', w.q, w.eq);
    assert b'[w.q..w.eq] == s[w.q..w.eq];
  }

  /** Inside a word no word ends. */
  lemma NotAnEnd(s: string, ws: seq<Span>, w: Span, i: nat)
    requires (forall j :: 0 <= j < |s| ==> s[j] != '\0') && (forall j :: 0 <= j < |ws| ==> WordAt(s, ws[j]))
    requires WordAt(s, w) && w.q <= i < w.eq
    ensures forall j :: 0 <= j < |ws| ==> ws[j].eq != i
  {
    forall j | 0 <= j < |ws| ensures ws[j].eq != i {
      assert WordAt(s, ws[j]);
    }
  }
}
