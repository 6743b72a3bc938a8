/** parsecmd in full, on the buffer that holds the line: the command it returns, with
    every argument and file name read where the command says, is the one that the
    line spells. */
module ShellCommand {
  import opened ShellGrammar
  import opened ShellSpelling
  import opened ShellRoundTrip
  import opened ShellParser

  /** The command as runcmd sees it: each word is the string at its beginning. */
  ghost function ReadBack(b: seq<char>, c: Cmd): Tree {
    match c
    case Exec(args) => TExec(seq(|args|, i requires 0 <= i < |args| => CString(b, args[i].q)))
    case Redir(c1, file, mode) => TRedir(ReadBack(b, c1), CString(b, file.q), mode)
    case Pipe(l, r) => TPipe(ReadBack(b, l), ReadBack(b, r))
    case List(l, r) => TList(ReadBack(b, l), ReadBack(b, r))
    case Back(c1) => TBack(ReadBack(b, c1))
  }

  /** In b the words ws of the text s are strings. */
  ghost predicate AllRead(s: string, b: seq<char>, ws: seq<Span>) {
    forall i :: 0 <= i < |ws| ==> CString(b, ws[i].q) == Text(s, ws[i])
  }

  lemma ReadHalves(s: string, b: seq<char>, v: seq<Span>, w: seq<Span>)
    requires AllRead(s, b, v + w)
    ensures AllRead(s, b, v) && AllRead(s, b, w)
  {
    assert forall i :: 0 <= i < |v| ==> (v + w)[i] == v[i];
    assert forall i :: 0 <= i < |w| ==> (v + w)[|v| + i] == w[i];
  }

  lemma {:induction false} ReadsTree(s: string, b: seq<char>, c: Cmd)
    requires AllRead(s, b, Spans(c))
    ensures ReadBack(b, c) == TreeOf(s, c)
  {
    match c
    case Exec(args) =>
      assert ReadBack(b, c).words == Texts(s, args);
    case Redir(c1, file, _) =>
      ReadHalves(s, b, Spans(c1), [file]);
      assert [file][0] == file;
      ReadsTree(s, b, c1);
    case Pipe(l, r) =>
      ReadHalves(s, b, Spans(l), Spans(r));
      ReadsTree(s, b, l);
      ReadsTree(s, b, r);
    case List(l, r) =>
      ReadHalves(s, b, Spans(l), Spans(r));
      ReadsTree(s, b, l);
      ReadsTree(s, b, r);
    case Back(c1) => ReadsTree(s, b, c1);
  }

  /** After nulterminate the command reads as the one that was parsed: every word is
      ended, and no end damages another word. */
  lemma TerminatedTree(s: string, b: seq<char>)
    requires NoNul(s) && ParseCmd(s).Got? && s + ['\0'] <= b
    ensures var c := ParseCmd(s).cmd;
      EndsIn(Spans(c), |b|) && ReadBack(Ended(Spans(c), b), c) == TreeOf(s, c)
  {
    var c := ParseCmd(s).cmd;
    var ws := Spans(c);
    ParsedWords(s);
    SpansAreWords(s, c);
    assert EndsIn(ws, |b|);
    forall i | 0 <= i < |ws| ensures CString(Ended(ws, b), ws[i].q) == Text(s, ws[i]) {
      TerminatedIn(s, b, ws, i);
    }
    ReadsTree(s, Ended(ws, b), c);
  }

  /** parsecmd.  It returns a command exactly when the line spells one, and what the
      command then reads in the buffer is what the line spells. */
  method ParseCommand(buf: array<char>) returns (r: Parsed)
    requires exists k :: 0 <= k < buf.Length && buf[k] == '\0'
    modifies buf
    ensures r.Got? <==> exists t :: Spells(old(CString(buf[..], 0)), t)
    ensures r.Got? ==> Spells(old(CString(buf[..], 0)), ReadBack(buf[..], r.cmd))
    ensures r.Panic? ==> buf[..] == old(buf[..])
  {
    var n := 0;
    while buf[n] != '\0'
      invariant 0 <= n < buf.Length && forall i :: 0 <= i < n ==> buf[i] != '\0'
      decreases buf.Length - n
    {
      n := n + 1;
    }
    var s := buf[..n];
    CStringIs(buf[..], 0, n);
    assert buf[..][0..n] == s && s + ['\0'] <= buf[..];
    AcceptsSpellings(s);
    r := Parse(s);
    if r.Got? {
      TerminatedTree(s, buf[..]);
      NulTerminate(r.cmd, buf);
      ParsesExactly(s, TreeOf(s, r.cmd));
    }
  }
}
