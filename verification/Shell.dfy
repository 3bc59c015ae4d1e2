/** The parser of user/sh.c in its own form: a cursor that the recursive routines advance
    through the line, and the NUL termination of the parsed strings in place. A command node
    holds the positions of its strings in the line.
 */
module Shell {
  import opened ShellSyntax
  import opened ShellLex

  datatype Span = Span(q: nat, eq: nat)

  /** A maximal run of word characters. */
  ghost predicate SpanOk(b: string, w: Span)
  {
    && w.q < w.eq <= |b| && (forall i :: w.q <= i < w.eq ==> WordChar(b[i]))
    && (w.eq < |b| ==> !WordChar(b[w.eq]))
  }

  function Text(b: string, w: Span): string
  {
    if w.q <= w.eq <= |b| then b[w.q..w.eq] else ""
  }

  function Texts(b: string, ws: seq<Span>): (r: seq<string>)
    ensures |r| == |ws| && forall i :: 0 <= i < |ws| ==> r[i] == Text(b, ws[i])
  {
    if ws == [] then [] else Texts(b, ws[..|ws| - 1]) + [Text(b, ws[|ws| - 1])]
  }

  function RedirTexts(b: string, rs: seq<(Kind, Span)>): (r: Redirs)
    ensures |r| == |rs|
  {
    if rs == [] then [] else RedirTexts(b, rs[..|rs| - 1]) + [(rs[|rs| - 1].0, Text(b, rs[|rs| - 1].1))]
  }

  /** The tree with its strings as text. */
  function TextOf(b: string, c: Cmd<Span>): Cmd<string>
  {
    match c
    case Exec(argv) => Exec(Texts(b, argv))
    case Redir(d, k, f) => Redir(TextOf(b, d), k, Text(b, f))
    case Pipe(l, r) => Pipe(TextOf(b, l), TextOf(b, r))
    case List(l, r) => List(TextOf(b, l), TextOf(b, r))
    case Back(d) => Back(TextOf(b, d))
  }

  ghost predicate SpansOk(b: string, c: Cmd<Span>)
  {
    match c
    case Exec(argv) => forall i :: 0 <= i < |argv| ==> SpanOk(b, argv[i])
    case Redir(d, _, f) => SpansOk(b, d) && SpanOk(b, f)
    case Pipe(l, r) => SpansOk(b, l) && SpansOk(b, r)
    case List(l, r) => SpansOk(b, l) && SpansOk(b, r)
    case Back(d) => SpansOk(b, d)
  }

  ghost predicate RedirsOk(b: string, rs: seq<(Kind, Span)>)
  {
    forall i :: 0 <= i < |rs| ==> SpanOk(b, rs[i].1)
  }

  lemma {:induction false} WrapText(b: string, c: Cmd<Span>, rs: seq<(Kind, Span)>)
    ensures TextOf(b, Wrap(c, rs)) == Wrap(TextOf(b, c), RedirTexts(b, rs))
    ensures SpansOk(b, c) && RedirsOk(b, rs) ==> SpansOk(b, Wrap(c, rs))
    decreases |rs|
  {
    if rs != [] {
      var n := |rs| - 1;
      WrapText(b, c, rs[..n]);
      var ts := RedirTexts(b, rs);
      assert ts[..n] == RedirTexts(b, rs[..n]);
    }
  }

  lemma RedirTextsSnoc(b: string, rs: seq<(Kind, Span)>, k: Kind, w: Span)
    ensures RedirTexts(b, rs + [(k, w)]) == RedirTexts(b, rs) + [(k, Text(b, w))]
  {
    assert (rs + [(k, w)])[..|rs|] == rs;
  }

  lemma TextsSnoc(b: string, ws: seq<Span>, w: Span)
    ensures Texts(b, ws + [w]) == Texts(b, ws) + [Text(b, w)]
  {
    assert (ws + [w])[..|ws|] == ws;
  }

  // ---------------------------------------------------------------- looking at the next token

  /** What gettoken returns for a token. */
  function Code(t: Tok): char
  {
    match t
    case Word(_) => 'a'
    case Bar => '|'
    case Open => '('
    case Close => ')'
    case Semi => ';'
    case Amp => '&'
    case To(k) => match k { case Input => '<' case Output => '>' case Append => '+' }
  }

  /** The character a token starts with. */
  function Lead(t: Tok): char
  {
    match t
    case Word(w) => if w == [] then NUL else w[0]
    case To(k) => if k == Input then '<' else '>'
    case _ => Code(t)
  }

  lemma LeadAt(b: string, p: nat)
    requires p < |b| && !IsSpace(b[p])
    ensures Lead(TokAt(b, p)) == b[p] && (TokAt(b, p).Word? <==> !IsSymbol(b[p]))
  {
  }

  /** A symbol is recognised by the character it starts with. */
  lemma Symbols(b: string, s: nat)
    requires s <= |b| && Lex(b, s) != []
    ensures var t := Lex(b, s)[0];
            && (Lead(t) == '|' <==> t == Bar) && (Lead(t) == '(' <==> t == Open) && (Lead(t) == ')' <==> t == Close)
            && (Lead(t) == ';' <==> t == Semi)
            && (Lead(t) == '&' <==> t == Amp)
            && (Lead(t) == '<' || Lead(t) == '>' <==> t.To?)
  {
    hide TokEnd, Skip, TokAt;
    LeadAt(b, Skip(b, s));
  }

  ghost predicate NoNul(b: string)
  {
    forall i :: 0 <= i < |b| ==> b[i] != NUL
  }

  class Parser {
    const text: string          // the line, up to its terminating NUL
    var s: nat                  // *ps

    ghost predicate Valid()
      reads this
    {
      s <= |text| && NoNul(text)
    }

    constructor (text: string)
      requires NoNul(text)
      ensures Valid() && this.text == text && s == 0
    {
      this.text, s := text, 0;
    }

    /** Moves past white space. */
    method Blanks(from: nat) returns (p: nat)
      requires from <= |text|
      ensures p == Skip(text, from)
    {
      p := from;
      while p < |text| && IsSpace(text[p])
        invariant from <= p <= |text| && Skip(text, p) == Skip(text, from)
      {
        p := p + 1;
      }
    }

    /** gettoken */
    method Gettoken() returns (ret: char, q: nat, eq: nat)
      requires Valid()
      modifies this
      ensures Valid() && s >= old(s)
      ensures Lex(text, old(s)) == [] ==> ret == NUL && Lex(text, s) == []
      ensures Lex(text, old(s)) != [] ==>
                var t := Lex(text, old(s))[0];
                && ret == Code(t) && Lex(text, s) == Lex(text, old(s))[1..] && s > old(s)
                && (t.Word? ==> SpanOk(text, Span(q, eq)) && Text(text, Span(q, eq)) == t.w)
    {
      hide Lex;
      var p := Blanks(s);
      q := p;
      LexSkip(text, s);
      if p == |text| {
        LexEnd(text);
        s := p;
        return NUL, q, p;
      }
      LexTok(text, p);
      ret := text[p];
      if ret == '|' || ret == '(' || ret == ')' || ret == ';' || ret == '&' || ret == '<' {
        p := p + 1;
      } else if ret == '>' {
        p := p + 1;
        if p < |text| && text[p] == '>' {
          ret := '+';
          p := p + 1;
        }
      } else {
        ret := 'a';
        while p < |text| && !IsSpace(text[p]) && !IsSymbol(text[p])
          invariant q <= p <= |text| && WordEnd(text, p) == WordEnd(text, q)
        {
          p := p + 1;
        }
      }
      eq := p;
      p := Blanks(p);
      LexSkip(text, eq);
      s := p;
    }

    /** peek */
    method Peek(toks: string) returns (r: bool)
      requires Valid()
      modifies this
      ensures Valid() && s == Skip(text, old(s)) && Lex(text, s) == Lex(text, old(s))
      ensures r <==> Lex(text, s) != [] && Lead(Lex(text, s)[0]) in toks
    {
      hide Lex;
      LexSkip(text, s);
      s := Blanks(s);
      if s < |text| {
        LexTok(text, s);
        LeadAt(text, s);
        r := text[s] in toks;
      } else {
        LexEnd(text);
        r := false;
      }
    }

    /** parseredirs; the redirections are put around the command by the caller. */
    method ParseRedirs(before: seq<(Kind, Span)>) returns (rs: seq<(Kind, Span)>, panicked: bool)
      requires Valid() && RedirsOk(text, before)
      modifies this
      ensures Valid() && s >= old(s) && RedirsOk(text, rs)
      ensures ShellSyntax.ParseRedirs(Lex(text, old(s)), RedirTexts(text, before)) ==
                if panicked then NoFile else Redirected(RedirTexts(text, rs), Lex(text, s))
    {
      hide Lex, Skip, RedirTexts;
      rs := before;
      ghost var goal := ShellSyntax.ParseRedirs(Lex(text, s), RedirTexts(text, before));
      var more := Peek("<>");
      while more
        invariant Valid() && s >= old(s) && RedirsOk(text, rs)
        invariant ShellSyntax.ParseRedirs(Lex(text, s), RedirTexts(text, rs)) == goal
        invariant more <==> Lex(text, s) != [] && Lead(Lex(text, s)[0]) in "<>"
        decreases |text| - s
      {
        Symbols(text, s);
        ghost var ts := Lex(text, s);
        var tok, _, _ := Gettoken();
        assert Lex(text, s) == ts[1..];
        var c, q, eq := Gettoken();
        if c != 'a' {
          return rs, true;
        }
        var kind := if tok == '<' then Input else if tok == '>' then Output else Append;
        RedirTextsSnoc(text, rs, kind, Span(q, eq));
        rs := rs + [(kind, Span(q, eq))];
        assert ts[2..] == Lex(text, s);
        more := Peek("<>");
      }
      if Lex(text, s) != [] {
        Symbols(text, s);
      }
      panicked := false;
    }

    /** parseexec */
    method ParseExec() returns (cmd: Cmd<Span>, panicked: bool)
      requires Valid()
      modifies this
      ensures Valid() && s >= old(s) && (!panicked ==> SpansOk(text, cmd))
      ensures ShellSyntax.ParseExec(Lex(text, old(s))) == if panicked then Panicked
              else Parsed(TextOf(text, cmd), Lex(text, s))
      decreases |text| - s, 1
    {
      hide Lex, Skip, RedirTexts, Texts, TextOf, SpansOk;
      cmd := Exec([]);
      var block := Peek("(");
      if Lex(text, s) != [] {
        Symbols(text, s);
      }
      if block {
        cmd, panicked := ParseBlock();
        return;
      }
      NoTexts(text);
      var rs;
      rs, panicked := ParseRedirs([]);
      if panicked {
        return;
      }
      cmd, panicked := ParseArgs(rs);
    }

    /** The loop of parseexec. */
    method ParseArgs(before: seq<(Kind, Span)>) returns (cmd: Cmd<Span>, panicked: bool)
      requires Valid() && RedirsOk(text, before)
      modifies this
      ensures Valid() && s >= old(s) && (!panicked ==> SpansOk(text, cmd))
      ensures ShellSyntax.ParseArgs(Lex(text, old(s)), [], RedirTexts(text, before)) ==
                if panicked then Panicked else Parsed(TextOf(text, cmd), Lex(text, s))
    {
      hide Lex, Skip, RedirTexts, Texts, Wrap;
      cmd := Exec([]);
      NoTexts(text);
      var argv, rs := [], before;
      ghost var goal := ShellSyntax.ParseArgs(Lex(text, s), [], RedirTexts(text, before));
      var stop := Peek("|)&;");
      while !stop
        invariant Valid() && s >= old(s) && RedirsOk(text, rs) && |argv| < MAXARGS
        invariant forall i :: 0 <= i < |argv| ==> SpanOk(text, argv[i])
        invariant ShellSyntax.ParseArgs(Lex(text, s), Texts(text, argv), RedirTexts(text, rs)) == goal
        invariant stop <==> Lex(text, s) != [] && Lead(Lex(text, s)[0]) in "|)&;"
        decreases |text| - s
      {
        ghost var ts := Lex(text, s);
        if ts != [] {
          Symbols(text, s);
        }
        var tok, q, eq := Gettoken();
        if tok == NUL {
          CodeIsNotNul(ts);
          break;
        }
        if tok != 'a' {
          return cmd, true;
        }
        TextsSnoc(text, argv, Span(q, eq));
        argv := argv + [Span(q, eq)];
        if |argv| >= MAXARGS {
          return cmd, true;
        }
        rs, panicked := ParseRedirs(rs);
        if panicked {
          return cmd, true;
        }
        stop := Peek("|)&;");
      }
      if Lex(text, s) != [] {
        Symbols(text, s);
      }
      cmd := Wrap(Exec(argv), rs);
      WrapText(text, Exec(argv), rs);
      panicked := false;
    }

    /** parseblock */
    method ParseBlock() returns (cmd: Cmd<Span>, panicked: bool)
      requires Valid() && First(Lex(text, s), Open)
      modifies this
      ensures Valid() && s >= old(s) && (!panicked ==> SpansOk(text, cmd))
      ensures ShellSyntax.ParseBlock(Lex(text, old(s))) == if panicked then Panicked
              else Parsed(TextOf(text, cmd), Lex(text, s))
      decreases |text| - s, 0
    {
      hide Lex, Skip, RedirTexts, Texts, TextOf, SpansOk, Wrap;
      var _, _, _ := Gettoken();
      cmd, panicked := ParseLine();
      if panicked {
        return;
      }
      var close := Peek(")");
      if Lex(text, s) != [] {
        Symbols(text, s);
      }
      if !close {
        return cmd, true;
      }
      var _, _, _ := Gettoken();
      NoTexts(text);
      var rs;
      rs, panicked := ParseRedirs([]);
      if !panicked {
        WrapText(text, cmd, rs);
        cmd := Wrap(cmd, rs);
      }
    }

    /** parsepipe */
    method ParsePipe() returns (cmd: Cmd<Span>, panicked: bool)
      requires Valid()
      modifies this
      ensures Valid() && s >= old(s) && (!panicked ==> SpansOk(text, cmd))
      ensures ShellSyntax.ParsePipe(Lex(text, old(s))) == if panicked then Panicked
              else Parsed(TextOf(text, cmd), Lex(text, s))
      decreases |text| - s, 2
    {
      hide Lex, Skip, Texts;
      cmd, panicked := ParseExec();
      if panicked {
        return;
      }
      var bar := Peek("|");
      if Lex(text, s) != [] {
        Symbols(text, s);
      }
      if bar {
        var _, _, _ := Gettoken();
        var right;
        right, panicked := ParsePipe();
        cmd := Pipe(cmd, right);
      }
    }

    /** parseline */
    method ParseLine() returns (cmd: Cmd<Span>, panicked: bool)
      requires Valid()
      modifies this
      ensures Valid() && s >= old(s) && (!panicked ==> SpansOk(text, cmd))
      ensures ShellSyntax.ParseLine(Lex(text, old(s))) == if panicked then Panicked
              else Parsed(TextOf(text, cmd), Lex(text, s))
      decreases |text| - s, 3
    {
      hide Lex, Skip, Texts;
      cmd, panicked := ParsePipe();
      if panicked {
        return;
      }
      ghost var goal := ParseAmps(TextOf(text, cmd), Lex(text, s));
      var amp := Peek("&");
      while amp
        invariant Valid() && s >= old(s) && SpansOk(text, cmd)
        invariant ParseAmps(TextOf(text, cmd), Lex(text, s)) == goal
        invariant amp <==> Lex(text, s) != [] && Lead(Lex(text, s)[0]) in "&"
        decreases |text| - s
      {
        Symbols(text, s);
        var _, _, _ := Gettoken();
        cmd := Back(cmd);
        amp := Peek("&");
      }
      if Lex(text, s) != [] {
        Symbols(text, s);
      }
      assert goal == Parsed(TextOf(text, cmd), Lex(text, s));
      var semi := Peek(";");
      if semi {
        var _, _, _ := Gettoken();
        var right;
        right, panicked := ParseLine();
        cmd := List(cmd, right);
      }
    }

    /** parsecmd, up to the termination of the strings. */
    method ParseCmd() returns (cmd: Cmd<Span>, panicked: bool)
      requires Valid() && s == 0
      modifies this
      ensures Valid() && (!panicked ==> SpansOk(text, cmd))
      ensures ShellSyntax.ParseCmd(Lex(text, 0)) == if panicked then Panicked else Parsed(TextOf(text, cmd), [])
    {
      hide TextOf, SpansOk, ShellSyntax.ParseLine, TokAt, TokEnd;
      cmd, panicked := ParseLine();
      if panicked {
        return;
      }
      var _ := Peek("");
      LexSkip(text, s);
      if s != |text| {
        return cmd, true;
      }
    }
  }

  lemma NoTexts(b: string)
    ensures Texts(b, []) == [] && RedirTexts(b, []) == []
  {
  }

  lemma CodeIsNotNul(ts: seq<Tok>)
    ensures ts != [] ==> Code(ts[0]) != NUL
  {
  }

  // ---------------------------------------------------------------- terminating the strings

  /** The string a C program reads at position i. */
  function CString(m: string, i: nat): string
    requires i <= |m|
    decreases |m| - i
  {
    if i == |m| || m[i] == NUL then "" else [m[i]] + CString(m, i + 1)
  }

  function CStringAt(m: string, w: Span): string
  {
    if w.q <= |m| then CString(m, w.q) else ""
  }

  function CStringsAt(m: string, ws: seq<Span>): (r: seq<string>)
    ensures |r| == |ws| && forall i :: 0 <= i < |ws| ==> r[i] == CStringAt(m, ws[i])
  {
    if ws == [] then [] else CStringsAt(m, ws[..|ws| - 1]) + [CStringAt(m, ws[|ws| - 1])]
  }

  /** The tree with its strings as a C program reads them. */
  function CStrings(m: string, c: Cmd<Span>): Cmd<string>
  {
    match c
    case Exec(argv) => Exec(CStringsAt(m, argv))
    case Redir(d, k, f) => Redir(CStrings(m, d), k, CStringAt(m, f))
    case Pipe(l, r) => Pipe(CStrings(m, l), CStrings(m, r))
    case List(l, r) => List(CStrings(m, l), CStrings(m, r))
    case Back(d) => Back(CStrings(m, d))
  }

  /** The line b with some characters between the words overwritten by NULs. */
  ghost predicate Marked(b: string, m: string)
  {
    |m| > |b| && m[|b|] == NUL && forall i :: 0 <= i < |b| ==> m[i] == b[i] || (m[i] == NUL && !WordChar(b[i]))
  }

  /** Every string of the tree is followed by a NUL. */
  ghost predicate Ended(m: string, c: Cmd<Span>)
  {
    match c
    case Exec(argv) => forall i :: 0 <= i < |argv| ==> argv[i].eq < |m| && m[argv[i].eq] == NUL
    case Redir(d, _, f) => Ended(m, d) && f.eq < |m| && m[f.eq] == NUL
    case Pipe(l, r) => Ended(m, l) && Ended(m, r)
    case List(l, r) => Ended(m, l) && Ended(m, r)
    case Back(d) => Ended(m, d)
  }

  /** NULs stay. */
  ghost predicate MoreNuls(m: string, m': string)
  {
    |m| == |m'| && forall i :: 0 <= i < |m| && m[i] == NUL ==> m'[i] == NUL
  }

  lemma {:induction false} StillEnded(m: string, m': string, c: Cmd<Span>)
    requires Ended(m, c) && MoreNuls(m, m')
    ensures Ended(m', c)
  {
    match c
    case Exec(_) =>
    case Redir(d, _, _) => StillEnded(m, m', d);
    case Pipe(l, r) => StillEnded(m, m', l); StillEnded(m, m', r);
    case List(l, r) => StillEnded(m, m', l); StillEnded(m, m', r);
    case Back(d) => StillEnded(m, m', d);
  }

  lemma {:induction false} ReadsWord(b: string, m: string, q: nat, eq: nat)
    requires Marked(b, m) && NoNul(b) && q <= eq <= |b| && m[eq] == NUL && forall i :: q <= i < eq ==> WordChar(b[i])
    ensures CString(m, q) == b[q..eq]
    decreases eq - q
  {
    if q < eq {
      ReadsWord(b, m, q + 1, eq);
      assert b[q..eq] == [b[q]] + b[q + 1..eq];
    }
  }

  /** In a line marked up so that every string is ended, each string reads as its token. */
  lemma {:induction false} ReadsTree(b: string, m: string, c: Cmd<Span>)
    requires Marked(b, m) && NoNul(b) && SpansOk(b, c) && Ended(m, c)
    ensures CStrings(m, c) == TextOf(b, c)
  {
    match c
    case Exec(argv) =>
      forall i | 0 <= i < |argv|
        ensures CStringAt(m, argv[i]) == Text(b, argv[i])
      {
        ReadsWord(b, m, argv[i].q, argv[i].eq);
      }
      assert CStringsAt(m, argv) == Texts(b, argv);
    case Redir(d, _, f) =>
      ReadsTree(b, m, d);
      ReadsWord(b, m, f.q, f.eq);
    case Pipe(l, r) => ReadsTree(b, m, l); ReadsTree(b, m, r);
    case List(l, r) => ReadsTree(b, m, l); ReadsTree(b, m, r);
    case Back(d) => ReadsTree(b, m, d);
  }

  /** nulterminate */
  method Nulterminate(buf: array<char>, cmd: Cmd<Span>, ghost b: string)
    requires Marked(b, buf[..]) && SpansOk(b, cmd)
    modifies buf
    ensures Marked(b, buf[..]) && MoreNuls(old(buf[..]), buf[..]) && Ended(buf[..], cmd)
    decreases cmd
  {
    match cmd
    case Exec(argv) =>
      var i := 0;
      while i < |argv|
        invariant 0 <= i <= |argv| && Marked(b, buf[..]) && MoreNuls(old(buf[..]), buf[..])
        invariant forall j :: 0 <= j < i ==> argv[j].eq < buf.Length && buf[argv[j].eq] == NUL
      {
        buf[argv[i].eq] := NUL;
        i := i + 1;
      }
    case Redir(d, _, f) =>
      Nulterminate(buf, d, b);
      ghost var m := buf[..];
      buf[f.eq] := NUL;
      StillEnded(m, buf[..], d);
    case Pipe(l, r) =>
      Nulterminate(buf, l, b);
      ghost var m := buf[..];
      Nulterminate(buf, r, b);
      StillEnded(m, buf[..], l);
    case List(l, r) =>
      Nulterminate(buf, l, b);
      ghost var m := buf[..];
      Nulterminate(buf, r, b);
      StillEnded(m, buf[..], l);
    case Back(d) =>
      Nulterminate(buf, d, b);
  }

  method Strlen(buf: array<char>) returns (n: nat)
    requires exists i :: 0 <= i < buf.Length && buf[i] == NUL
    ensures n < buf.Length && buf[n] == NUL && NoNul(buf[..n])
  {
    n := 0;
    while buf[n] != NUL
      invariant n < buf.Length && NoNul(buf[..n]) && exists i :: n <= i < buf.Length && buf[i] == NUL
      decreases buf.Length - n
    {
      n := n + 1;
    }
  }

  /** parsecmd: the line is accepted exactly if it stands for a command, and then every string of the
      tree, read from the buffer in place, makes it that command; in particular the printed form of a
      command tree gives that tree back. */
  method Parsecmd(buf: array<char>) returns (cmd: Cmd<Span>, panicked: bool, ghost line: string)
    requires exists i :: 0 <= i < buf.Length && buf[i] == NUL
    modifies buf
    ensures line <= old(buf[..]) && |line| < buf.Length && old(buf[..])[|line|] == NUL && NoNul(line)
    ensures panicked <==> forall c :: !Says(line, c)
    ensures !panicked ==> forall c :: Says(line, c) <==> c == CStrings(buf[..], cmd)
    ensures forall c :: GoodWords(c) && Fits(c) && line == Print(c) ==> !panicked && CStrings(buf[..], cmd) == c
  {
    hide Says, Print, GoodWords, Fits, ShellSyntax.ParseCmd;
    var es := Strlen(buf);
    line := buf[..es];
    var p := new Parser(buf[..es]);
    cmd, panicked := p.ParseCmd();
    if !panicked {
      Nulterminate(buf, cmd, line);
      ReadsTree(line, buf[..], cmd);
    }
    forall c
      ensures ShellSyntax.ParseCmd(Lex(line, 0)) == Parsed(c, []) <==> Says(line, c)
    {
      ParsesExactly(line, c);
    }
    forall c | GoodWords(c) && Fits(c) && line == Print(c)
      ensures !panicked && CStrings(buf[..], cmd) == c
    {
      RoundTrip(c);
    }
  }
}
