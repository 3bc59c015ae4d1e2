/** Characters to tokens, as gettoken and peek of user/sh.c see them, and back. */
module ShellLex {
  import opened ShellSyntax

  const NUL: char := '\0'

  predicate IsSpace(c: char)
  {
    c == ' ' || c == '\t' || c == '\r' || c == '\n' || c == 11 as char
  }

  predicate IsSymbol(c: char)
  {
    c == '<' || c == '|' || c == '>' || c == '&' || c == ';' || c == '(' || c == ')'
  }

  predicate WordChar(c: char)
  {
    !IsSpace(c) && !IsSymbol(c)
  }

  /** The first position from s on that is not white space. */
  function Skip(b: string, s: nat): (p: nat)
    requires s <= |b|
    ensures s <= p <= |b| && (p < |b| ==> !IsSpace(b[p])) && forall i :: s <= i < p ==> IsSpace(b[i])
    decreases |b| - s
  {
    if s < |b| && IsSpace(b[s]) then Skip(b, s + 1) else s
  }

  /** Where a word that starts at s ends. */
  function WordEnd(b: string, s: nat): (e: nat)
    requires s <= |b|
    ensures s <= e <= |b| && (e < |b| ==> !WordChar(b[e])) && forall i :: s <= i < e ==> WordChar(b[i])
    decreases |b| - s
  {
    if s < |b| && WordChar(b[s]) then WordEnd(b, s + 1) else s
  }

  /** Where the token at p ends. */
  function TokEnd(b: string, p: nat): (e: nat)
    requires p < |b| && !IsSpace(b[p])
    ensures p < e <= |b|
  {
    if !IsSymbol(b[p]) then WordEnd(b, p)
    else if b[p] == '>' && p + 1 < |b| && b[p + 1] == '>' then p + 2
    else p + 1
  }

  function TokAt(b: string, p: nat): Tok
    requires p < |b| && !IsSpace(b[p])
  {
    match b[p]
    case '|' => Bar
    case '(' => Open
    case ')' => Close
    case ';' => Semi
    case '&' => Amp
    case '<' => To(Input)
    case '>' => if TokEnd(b, p) == p + 2 then To(Append) else To(Output)
    case _ => Word(b[p..WordEnd(b, p)])
  }

  /** The tokens from s on. */
  function Lex(b: string, s: nat): seq<Tok>
    requires s <= |b|
    decreases |b| - s
  {
    var p := Skip(b, s);
    if p == |b| then [] else [TokAt(b, p)] + Lex(b, TokEnd(b, p))
  }

  lemma LexSkip(b: string, s: nat)
    requires s <= |b|
    ensures Skip(b, Skip(b, s)) == Skip(b, s) && Lex(b, Skip(b, s)) == Lex(b, s)
  {
  }

  // ---------------------------------------------------------------- writing tokens down

  function Spell(t: Tok): string
  {
    match t
    case Word(w) => w
    case Bar => "|"
    case Open => "("
    case Close => ")"
    case Semi => ";"
    case Amp => "&"
    case To(k) => match k { case Input => "<" case Output => ">" case Append => ">>" }
  }

  /** Blank, tab, carriage return, newline and vertical tab. */
  predicate Blank(g: string)
  {
    forall i :: 0 <= i < |g| ==> g[i] in [' ', '\t', '\r', '\n', 11 as char]
  }

  /** A word is anything without white space and without <, |, >, &, ; and parentheses. */
  predicate GoodWord(w: string)
  {
    w != [] && forall i :: 0 <= i < |w| ==> !Blank([w[i]]) && w[i] !in "<|>&;()"
  }

  /** A token with the white space before it. */
  datatype Piece = Piece(gap: string, tok: Tok)

  function Laid(ps: seq<Piece>, tail: string): string
  {
    if ps == [] then tail else ps[0].gap + Spell(ps[0].tok) + Laid(ps[1..], tail)
  }

  function Toks(ps: seq<Piece>): seq<Tok>
  {
    if ps == [] then [] else [ps[0].tok] + Toks(ps[1..])
  }

  /** What may follow a token directly: a word ends where a word cannot go on, and > is not followed by >. */
  predicate Apart(t: Tok, next: string)
  {
    && (t.Word? && next != "" ==> !GoodWord([next[0]]))
    && (t == To(Output) && next != "" ==> next[0] != '>')
  }

  /** Tokens laid out on a line, with white space between them where it is needed or liked. */
  predicate Layout(ps: seq<Piece>, tail: string)
  {
    if ps == [] then Blank(tail)
    else
      && Blank(ps[0].gap) && (ps[0].tok.Word? ==> GoodWord(ps[0].tok.w)) && Apart(ps[0].tok, Laid(ps[1..], tail))
      && Layout(ps[1..], tail)
  }

  lemma Characters(c: char)
    ensures IsSpace(c) <==> Blank([c])
    ensures WordChar(c) <==> GoodWord([c])
    ensures IsSymbol(c) <==> c in "<|>&;()"
  {
    assert [c][0] == c;
    if WordChar(c) {
      assert !Blank([c]);
    }
  }

  lemma WordChars(w: string)
    ensures GoodWord(w) <==> w != [] && forall i :: 0 <= i < |w| ==> WordChar(w[i])
  {
    forall i | 0 <= i < |w|
      ensures WordChar(w[i]) <==> !Blank([w[i]]) && w[i] !in "<|>&;()"
    {
      Characters(w[i]);
    }
  }

  lemma {:induction false} WordBack(b: string, p: nat, e: nat)
    requires p <= e <= |b| && (forall i :: p <= i < e ==> WordChar(b[i])) && (e < |b| ==> !WordChar(b[e]))
    ensures WordEnd(b, p) == e
    decreases e - p
  {
    if p < e {
      WordBack(b, p + 1, e);
    }
  }

  lemma NotSpace(c: char)
    ensures WordChar(c) ==> !IsSpace(c) && !IsSymbol(c)
  {
  }

  /** A token that stands at p, with what may follow it, is read. */
  lemma TokBack(b: string, p: nat, t: Tok)
    requires (t.Word? ==> GoodWord(t.w)) && p + |Spell(t)| <= |b| && b[p..p + |Spell(t)|] == Spell(t)
    requires Apart(t, b[p + |Spell(t)|..])
    ensures p < |b| && !IsSpace(b[p]) && TokAt(b, p) == t && TokEnd(b, p) == p + |Spell(t)|
  {
    var w, e := Spell(t), p + |Spell(t)|;
    assert forall i :: 0 <= i < |w| ==> b[p + i] == w[i];
    if t.Word? {
      hide WordChar, GoodWord;
      WordChars(w);
      forall i | p <= i < e
        ensures WordChar(b[i])
      {
        assert b[i] == w[i - p];
      }
      if e < |b| {
        Characters(b[e]);
        assert b[e..][0] == b[e] && !GoodWord([b[e]]);
      }
      NotSpace(b[p]);
      WordBack(b, p, e);
    } else {
      assert b[p] == w[0];
      if t == To(Output) && e < |b| {
        assert b[e..][0] == b[e];
      } else if t == To(Append) {
        assert b[p + 1] == w[1];
      }
    }
  }

  /** What is read at p is the token that stands there. */
  lemma TokRead(b: string, p: nat)
    requires p < |b| && !IsSpace(b[p])
    ensures var t := TokAt(b, p);
            && TokEnd(b, p) <= |b| && b[p..TokEnd(b, p)] == Spell(t) && (t.Word? ==> GoodWord(t.w))
            && Apart(t, b[TokEnd(b, p)..])
  {
    var t, e := TokAt(b, p), TokEnd(b, p);
    if t.Word? {
      WordChars(t.w);
      if e < |b| {
        Characters(b[e]);
        assert b[e..][0] == b[e];
      }
    } else if e < |b| {
      assert b[e..][0] == b[e];
    }
  }

  lemma LexTok(b: string, p: nat)
    requires p < |b| && !IsSpace(b[p])
    ensures Lex(b, p) == [TokAt(b, p)] + Lex(b, TokEnd(b, p))
  {
    hide TokAt, TokEnd;
    assert Skip(b, p) == p;
  }

  lemma LexEnd(b: string)
    ensures Lex(b, |b|) == []
  {
  }

  /** White space is skipped. */
  lemma {:induction false} SkipBlank(b: string, s: nat, p: nat)
    requires s <= p <= |b| && Blank(b[s..p]) && (p < |b| ==> !IsSpace(b[p]))
    ensures Skip(b, s) == p
    decreases p - s
  {
    if s < p {
      assert b[s..p][0] == b[s];
      Characters(b[s]);
      assert [b[s]][0] == b[s] && Blank([b[s]]);
      assert b[s + 1..p] == b[s..p][1..];
      SkipBlank(b, s + 1, p);
    }
  }

  lemma SkippedIsBlank(b: string, s: nat)
    requires s <= |b|
    ensures Blank(b[s..Skip(b, s)])
  {
    var g := b[s..Skip(b, s)];
    forall i | 0 <= i < |g|
      ensures g[i] in [' ', '\t', '\r', '\n', 11 as char]
    {
      Characters(g[i]);
      assert [g[i]][0] == g[i];
    }
  }

  // ---------------------------------------------------------------- reading inverts writing

  lemma {:induction false} LexLaid(pre: string, ps: seq<Piece>, tail: string)
    requires Layout(ps, tail)
    ensures Lex(pre + Laid(ps, tail), |pre|) == Toks(ps)
    decreases |ps|
  {
    hide Lex, TokAt, TokEnd, Spell, Blank, Apart, GoodWord;
    var b, s := pre + Laid(ps, tail), |pre|;
    if ps == [] {
      assert b[s..|b|] == tail;
      SkipBlank(b, s, |b|);
      LexSkip(b, s);
      LexEnd(b);
    } else {
      var gap, w := ps[0].gap, Spell(ps[0].tok);
      var p := s + |gap|;
      var pre' := pre + gap + w;
      Places(pre, gap, w, Laid(ps[1..], tail), b);
      TokBack(b, p, ps[0].tok);
      SkipBlank(b, s, p);
      LexSkip(b, s);
      LexTok(b, p);
      LexLaid(pre', ps[1..], tail);
    }
  }

  lemma Places(pre: string, gap: string, w: string, more: string, b: string)
    requires b == pre + (gap + w + more)
    ensures b == pre + gap + w + more && |pre + gap + w| == |pre| + |gap| + |w| <= |b|
    ensures b[|pre|..|pre| + |gap|] == gap && b[|pre| + |gap|..|pre| + |gap| + |w|] == w
    ensures b[|pre| + |gap| + |w|..] == more
  {
  }

  /** Every line is its tokens, laid out. */
  lemma {:induction false} LaidOut(b: string, s: nat) returns (ps: seq<Piece>, tail: string)
    requires s <= |b|
    ensures b[s..] == Laid(ps, tail) && Layout(ps, tail) && Toks(ps) == Lex(b, s)
    decreases |b| - s
  {
    hide TokAt, TokEnd, Spell, Blank, Apart, GoodWord;
    var p := Skip(b, s);
    SkippedIsBlank(b, s);
    if p == |b| {
      ps, tail := [], b[s..p];
    } else {
      var e := TokEnd(b, p);
      TokRead(b, p);
      var rest;
      rest, tail := LaidOut(b, e);
      ps := [Piece(b[s..p], TokAt(b, p))] + rest;
      assert ps[1..] == rest;
      assert b[s..] == b[s..p] + b[p..e] + b[e..];
    }
  }

  // ---------------------------------------------------------------- whole commands

  /** The line stands for the command: tokens that may be written, laid out. */
  ghost predicate Says(b: string, c: Cmd<string>)
  {
    exists t, ps, tail ::
      Good(t, 3) && Meant(t) == c && Layout(ps, tail) && Toks(ps) == Written(t) && Laid(ps, tail) == b
  }

  /** parsecmd accepts exactly the lines that stand for a command, and gives the command. */
  lemma ParsesExactly(b: string, c: Cmd<string>)
    ensures ParseCmd(Lex(b, 0)) == Parsed(c, []) <==> Says(b, c)
  {
    hide Lex, ParseCmd, Written, Meant, Good, Layout;
    if ParseCmd(Lex(b, 0)) == Parsed(c, []) {
      var t := ParsesNothingElse(Lex(b, 0));
      var ps, tail := LaidOut(b, 0);
      assert b[0..] == b;
    }
    if Says(b, c) {
      var t, ps, tail :|
        Good(t, 3) && Meant(t) == c && Layout(ps, tail) && Toks(ps) == Written(t) && Laid(ps, tail) == b;
      LexLaid("", ps, tail);
      assert "" + b == b;
      ParsesWhatIsWritten(t);
    }
  }

  /** Every token with a blank before it. */
  function Spaced(ts: seq<Tok>): seq<Piece>
  {
    if ts == [] then [] else [Piece(" ", ts[0])] + Spaced(ts[1..])
  }

  /** A command printed as text. */
  function Print(c: Cmd<string>): string
  {
    Laid(Spaced(Written(Syntax(c))), "")
  }

  predicate GoodToks(ts: seq<Tok>)
  {
    forall i :: 0 <= i < |ts| && ts[i].Word? ==> GoodWord(ts[i].w)
  }

  lemma {:induction false} SpacedLayout(ts: seq<Tok>)
    requires GoodToks(ts)
    ensures Layout(Spaced(ts), "") && Toks(Spaced(ts)) == ts
    ensures ts != [] ==> Laid(Spaced(ts), "") != "" && Laid(Spaced(ts), "")[0] == ' '
    decreases |ts|
  {
    if ts != [] {
      var ps := Spaced(ts);
      assert ps[1..] == Spaced(ts[1..]) && ts == [ts[0]] + ts[1..];
      SpacedLayout(ts[1..]);
      Characters(' ');
    }
  }

  predicate GoodWords(c: Cmd<string>)
  {
    match c
    case Exec(argv) => forall i :: 0 <= i < |argv| ==> GoodWord(argv[i])
    case Redir(d, _, f) => GoodWords(d) && GoodWord(f)
    case Pipe(l, r) => GoodWords(l) && GoodWords(r)
    case List(l, r) => GoodWords(l) && GoodWords(r)
    case Back(d) => GoodWords(d)
  }

  lemma {:induction false} WordsGood(argv: seq<string>)
    requires forall i :: 0 <= i < |argv| ==> GoodWord(argv[i])
    ensures GoodToks(ItemToks(Words(argv)))
    decreases |argv|
  {
    hide GoodWord;
    if argv != [] {
      WordsGood(argv[1..]);
      assert Words(argv)[1..] == Words(argv[1..]);
    }
  }

  lemma {:induction false} ItemToksSnoc(items: seq<Item>, k: Kind, f: string)
    ensures ItemToks(items + [Red(k, f)]) == ItemToks(items) + [To(k), Word(f)]
    decreases |items|
  {
    if items == [] {
      assert items + [Red(k, f)] == [Red(k, f)] && [Red(k, f)][1..] == [];
    } else {
      assert (items + [Red(k, f)])[1..] == items[1..] + [Red(k, f)];
      ItemToksSnoc(items[1..], k, f);
    }
  }

  lemma {:induction false} RedirToksSnoc(rs: Redirs, k: Kind, f: string)
    ensures RedirToks(rs + [(k, f)]) == RedirToks(rs) + [To(k), Word(f)]
    decreases |rs|
  {
    if rs == [] {
      assert rs + [(k, f)] == [(k, f)] && [(k, f)][1..] == [];
    } else {
      assert (rs + [(k, f)])[1..] == rs[1..] + [(k, f)];
      RedirToksSnoc(rs[1..], k, f);
    }
  }

  lemma WrittenWithRedir(t: Tree, k: Kind, f: string)
    requires t.Simple? || t.Paren?
    ensures Written(WithRedir(t, k, f)) == Written(t) + [To(k), Word(f)]
  {
    if t.Simple? {
      ItemToksSnoc(t.items, k, f);
    } else {
      RedirToksSnoc(t.redirs, k, f);
    }
  }

  lemma GoodJoin(a: seq<Tok>, b: seq<Tok>)
    ensures GoodToks(a) && GoodToks(b) ==> GoodToks(a + b)
  {
  }

  lemma GoodMarks(k: Kind, f: string)
    ensures GoodToks([Open]) && GoodToks([Close]) && GoodToks([Bar]) && GoodToks([Semi]) && GoodToks([Amp])
    ensures GoodWord(f) ==> GoodToks([To(k), Word(f)])
    ensures GoodToks(RedirToks([]))
  {
  }

  /** Parentheses around well-formed words. */
  lemma GoodParen(t: Tree, level: nat)
    requires GoodToks(Written(t))
    ensures GoodToks(Written(Atom(t))) && GoodToks(Written(Below(t, level)))
  {
    hide GoodToks, Good;
    GoodMarks(Input, "");
    GoodJoin([Open], Written(t));
    GoodJoin([Open] + Written(t), [Close]);
    GoodJoin([Open] + Written(t) + [Close], RedirToks([]));
  }

  lemma GoodPair(a: seq<Tok>, sep: Tok, b: seq<Tok>)
    requires GoodToks(a) && GoodToks(b) && !sep.Word?
    ensures GoodToks(a + [sep] + b) && GoodToks(a + [sep])
  {
  }

  lemma {:induction false} PrintGood(c: Cmd<string>)
    requires GoodWords(c)
    ensures GoodToks(Written(Syntax(c)))
  {
    hide GoodWord, GoodToks, Atom, Below, ItemToks;
    match c
    case Exec(argv) => WordsGood(argv);
    case Redir(d, k, f) =>
      PrintGood(d);
      GoodParen(Syntax(d), 0);
      WrittenWithRedir(Atom(Syntax(d)), k, f);
      GoodMarks(k, f);
      GoodJoin(Written(Atom(Syntax(d))), [To(k), Word(f)]);
    case Pipe(l, r) =>
      PrintGood(l);
      PrintGood(r);
      GoodParen(Syntax(l), 0);
      GoodParen(Syntax(r), 1);
      GoodPair(Written(Atom(Syntax(l))), Bar, Written(Below(Syntax(r), 1)));
    case List(l, r) =>
      PrintGood(l);
      PrintGood(r);
      GoodParen(Syntax(l), 2);
      GoodPair(Written(Below(Syntax(l), 2)), Semi, Written(Syntax(r)));
    case Back(d) =>
      PrintGood(d);
      GoodParen(Syntax(d), 2);
      GoodPair(Written(Below(Syntax(d), 2)), Amp, []);
  }

  /** For every command tree with well-formed words, fewer than ten in a simple command,
      what parsecmd makes of its printed text is the tree. */
  lemma RoundTrip(c: Cmd<string>)
    requires GoodWords(c) && Fits(c)
    ensures ParseCmd(Lex(Print(c), 0)) == Parsed(c, [])
  {
    hide GoodWord, Lex, ParseCmd;
    PrintGood(c);
    SpacedLayout(Written(Syntax(c)));
    LexLaid("", Spaced(Written(Syntax(c))), "");
    assert "" + Print(c) == Print(c);
    PrintParse(c);
  }
}
