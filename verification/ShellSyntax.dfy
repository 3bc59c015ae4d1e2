/** The command language of user/sh.c on tokens: its recursive-descent parser, the grammar of what may be
    written, and the proof that the parser accepts exactly what may be written, and what it means.
 */
module ShellSyntax {

  const MAXARGS: nat := 10

  /** The three redirections, each with its open mode and file descriptor. */
  datatype Kind = Input | Output | Append

  datatype Cmd<W> =
    | Exec(argv: seq<W>)
    | Redir(cmd: Cmd<W>, kind: Kind, file: W)
    | Pipe(left: Cmd<W>, right: Cmd<W>)
    | List(left: Cmd<W>, right: Cmd<W>)
    | Back(cmd: Cmd<W>)

  datatype Tok = Word(w: string) | Bar | Open | Close | Semi | Amp | To(kind: Kind)

  datatype Result = Parsed(cmd: Cmd<string>, rest: seq<Tok>) | Panicked

  // ---------------------------------------------------------------- the parser

  function First(ts: seq<Tok>, t: Tok): bool
  {
    ts != [] && ts[0] == t
  }

  type Redirs = seq<(Kind, string)>

  datatype RedirResult = Redirected(redirs: Redirs, rest: seq<Tok>) | NoFile

  /** Redirections put around a command, the first innermost. */
  function Wrap<W>(c: Cmd<W>, rs: seq<(Kind, W)>): Cmd<W>
  {
    if rs == [] then c else Redir(Wrap(c, rs[..|rs| - 1]), rs[|rs| - 1].0, rs[|rs| - 1].1)
  }

  /** parseredirs */
  function ParseRedirs(ts: seq<Tok>, rs: Redirs): (r: RedirResult)
    ensures r.Redirected? ==> |r.rest| <= |ts|
    decreases |ts|
  {
    if ts != [] && ts[0].To? then
      if |ts| > 1 && ts[1].Word? then ParseRedirs(ts[2..], rs + [(ts[0].kind, ts[1].w)]) else NoFile
    else Redirected(rs, ts)
  }

  /** The loop of parseexec, after the first redirections. */
  function ParseArgs(ts: seq<Tok>, args: seq<string>, rs: Redirs): (r: Result)
    ensures r.Parsed? ==> |r.rest| <= |ts|
    decreases |ts|
  {
    if ts == [] || ts[0] in {Bar, Close, Amp, Semi} then Parsed(Wrap(Exec(args), rs), ts)
    else if !ts[0].Word? then Panicked
    else if |args| + 1 >= MAXARGS then Panicked
    else
      match ParseRedirs(ts[1..], rs)
      case NoFile => Panicked
      case Redirected(rs', rest) => ParseArgs(rest, args + [ts[0].w], rs')
  }

  function ParseExec(ts: seq<Tok>): (r: Result)
    ensures r.Parsed? ==> |r.rest| <= |ts|
    decreases |ts|, 1
  {
    if First(ts, Open) then ParseBlock(ts)
    else
      match ParseRedirs(ts, [])
      case NoFile => Panicked
      case Redirected(rs, rest) => ParseArgs(rest, [], rs)
  }

  function ParseBlock(ts: seq<Tok>): (r: Result)
    requires First(ts, Open)
    ensures r.Parsed? ==> |r.rest| < |ts|
    decreases |ts|, 0
  {
    match ParseLine(ts[1..])
    case Panicked => Panicked
    case Parsed(c, rest) =>
      if !First(rest, Close) then Panicked
      else
        match ParseRedirs(rest[1..], [])
        case NoFile => Panicked
        case Redirected(rs, rest') => Parsed(Wrap(c, rs), rest')
  }

  function ParsePipe(ts: seq<Tok>): (r: Result)
    ensures r.Parsed? ==> |r.rest| <= |ts|
    decreases |ts|, 2
  {
    match ParseExec(ts)
    case Panicked => Panicked
    case Parsed(c, rest) =>
      if First(rest, Bar) then
        match ParsePipe(rest[1..])
        case Panicked => Panicked
        case Parsed(d, rest') => Parsed(Pipe(c, d), rest')
      else Parsed(c, rest)
  }

  /** The & loop of parseline. */
  function ParseAmps(c: Cmd<string>, ts: seq<Tok>): (r: Result)
    ensures r.Parsed? && |r.rest| <= |ts| && !First(r.rest, Amp)
    decreases |ts|
  {
    if First(ts, Amp) then ParseAmps(Back(c), ts[1..]) else Parsed(c, ts)
  }

  function ParseLine(ts: seq<Tok>): (r: Result)
    ensures r.Parsed? ==> |r.rest| <= |ts|
    decreases |ts|, 3
  {
    match ParsePipe(ts)
    case Panicked => Panicked
    case Parsed(c0, rest0) =>
      var Parsed(c, rest) := ParseAmps(c0, rest0);
      if First(rest, Semi) then
        match ParseLine(rest[1..])
        case Panicked => Panicked
        case Parsed(d, rest') => Parsed(List(c, d), rest')
      else Parsed(c, rest)
  }

  /** parsecmd: nothing may be left over. */
  function ParseCmd(ts: seq<Tok>): Result
  {
    match ParseLine(ts)
    case Panicked => Panicked
    case Parsed(c, rest) => if rest == [] then Parsed(c, []) else Panicked
  }

  // ---------------------------------------------------------------- the grammar

  /** A simple command is words and redirections in any order. */
  datatype Item = Arg(w: string) | Red(kind: Kind, file: string)

  /** How a command may be written. */
  datatype Tree =
    | Simple(items: seq<Item>)
    | Paren(body: Tree, redirs: Redirs)
    | Piped(left: Tree, right: Tree)
    | Ampersand(body: Tree)
    | Sequence(left: Tree, right: Tree)

  function Args(items: seq<Item>): seq<string>
  {
    if items == [] then [] else (if items[0].Arg? then [items[0].w] else []) + Args(items[1..])
  }

  function Reds(items: seq<Item>): Redirs
  {
    if items == [] then [] else (if items[0].Red? then [(items[0].kind, items[0].file)] else []) + Reds(items[1..])
  }

  /** Binding strength: words and parentheses (0), pipelines (1), & (2) and ; (3). A simple command has fewer
      than ten words. */
  predicate Good(t: Tree, level: nat)
  {
    match t
    case Simple(items) => |Args(items)| < 10
    case Paren(b, _) => Good(b, 3)
    case Piped(l, r) => level >= 1 && Good(l, 0) && Good(r, 1)
    case Ampersand(b) => level >= 2 && Good(b, 2)
    case Sequence(l, r) => level >= 3 && Good(l, 2) && Good(r, 3)
  }

  function ItemToks(items: seq<Item>): seq<Tok>
  {
    if items == [] then []
    else (match items[0] case Arg(w) => [Word(w)] case Red(k, f) => [To(k), Word(f)]) + ItemToks(items[1..])
  }

  function RedirToks(rs: Redirs): seq<Tok>
  {
    if rs == [] then [] else [To(rs[0].0), Word(rs[0].1)] + RedirToks(rs[1..])
  }

  /** What stands on the line. */
  function Written(t: Tree): seq<Tok>
  {
    match t
    case Simple(items) => ItemToks(items)
    case Paren(b, rs) => [Open] + Written(b) + [Close] + RedirToks(rs)
    case Piped(l, r) => Written(l) + [Bar] + Written(r)
    case Ampersand(b) => Written(b) + [Amp]
    case Sequence(l, r) => Written(l) + [Semi] + Written(r)
  }

  /** The command it stands for: the words in order, with the redirections around them in order. */
  function Meant(t: Tree): Cmd<string>
  {
    match t
    case Simple(items) => Wrap(Exec(Args(items)), Reds(items))
    case Paren(b, rs) => Wrap(Meant(b), rs)
    case Piped(l, r) => Pipe(Meant(l), Meant(r))
    case Ampersand(b) => Back(Meant(b))
    case Sequence(l, r) => List(Meant(l), Meant(r))
  }

  /** What may follow a command of each level. */
  predicate Follows(rest: seq<Tok>, level: nat)
  {
    || rest == [] || rest[0] == Close || (level <= 2 && rest[0] == Semi) || (level <= 1 && rest[0] == Amp)
    || (level == 0 && rest[0] == Bar)
  }

  // ---------------------------------------------------------------- simple commands

  /** parseexec from where redirections are looked for. */
  function ParseItems(ts: seq<Tok>, args: seq<string>, rs: Redirs): Result
  {
    match ParseRedirs(ts, rs)
    case NoFile => Panicked
    case Redirected(rs', rest) => ParseArgs(rest, args, rs')
  }

  lemma ItemRedirection(k: Kind, f: string, ts: seq<Tok>, args: seq<string>, rs: Redirs)
    ensures ParseItems([To(k), Word(f)] + ts, args, rs) == ParseItems(ts, args, rs + [(k, f)])
  {
    assert ([To(k), Word(f)] + ts)[2..] == ts;
  }

  lemma ItemWord(w: string, ts: seq<Tok>, args: seq<string>, rs: Redirs)
    requires |args| + 1 < MAXARGS
    ensures ParseItems([Word(w)] + ts, args, rs) == ParseItems(ts, args + [w], rs)
  {
    assert ([Word(w)] + ts)[1..] == ts;
  }

  lemma ItemsEnd(rest: seq<Tok>, args: seq<string>, rs: Redirs)
    requires Follows(rest, 0)
    ensures ParseItems(rest, args, rs) == Parsed(Wrap(Exec(args), rs), rest)
  {
  }

  /** One more item in front. */
  lemma ArgFirst(w: string, items: seq<Item>, args: seq<string>, rest: seq<Tok>)
    ensures var all := [Arg(w)] + items;
            && args + Args(all) == args + [w] + Args(items) && Reds(all) == Reds(items) && all[1..] == items
            && ItemToks(all) + rest == [Word(w)] + (ItemToks(items) + rest)
  {
    assert ([Arg(w)] + items)[1..] == items;
  }

  lemma RedFirst(k: Kind, f: string, items: seq<Item>, rs: Redirs, rest: seq<Tok>)
    ensures var all := [Red(k, f)] + items;
            && rs + Reds(all) == rs + [(k, f)] + Reds(items) && Args(all) == Args(items) && all[1..] == items
            && ItemToks(all) + rest == [To(k), Word(f)] + (ItemToks(items) + rest)
  {
    assert ([Red(k, f)] + items)[1..] == items;
  }

  lemma NoItems(args: seq<string>, rs: Redirs, rest: seq<Tok>)
    ensures ItemToks([]) + rest == rest && args + Args([]) == args && rs + Reds([]) == rs
  {
  }

  lemma {:induction false} ItemsParsed(items: seq<Item>, args: seq<string>, rs: Redirs, rest: seq<Tok>)
    requires |args| + |Args(items)| < MAXARGS && Follows(rest, 0)
    ensures ParseItems(ItemToks(items) + rest, args, rs) ==
              Parsed(Wrap(Exec(args + Args(items)), rs + Reds(items)), rest)
    decreases |items|
  {
    hide ParseItems, Wrap, ItemToks, Args, Reds;
    NoItems(args, rs, rest);
    if items == [] {
      ItemsEnd(rest, args, rs);
    } else {
      var tail := items[1..];
      var more := ItemToks(tail) + rest;
      assert items == [items[0]] + tail;
      match items[0]
      case Arg(w) =>
        ArgFirst(w, tail, args, rest);
        ItemWord(w, more, args, rs);
        ItemsParsed(tail, args + [w], rs, rest);
      case Red(k, f) =>
        RedFirst(k, f, tail, rs, rest);
        ItemRedirection(k, f, more, args, rs);
        ItemsParsed(tail, args, rs + [(k, f)], rest);
    }
  }

  /** What parseexec does with the next token. */
  lemma NextItem(ts: seq<Tok>, args: seq<string>, rs: Redirs)
    requires ParseItems(ts, args, rs).Parsed? && |args| < MAXARGS
    ensures ts != [] && ts[0].To? ==> |ts| > 1 && ts[1].Word?
    ensures ts != [] && ts[0].Word? ==> |args| + 1 < MAXARGS
    ensures !(ts != [] && (ts[0].To? || ts[0].Word?)) ==>
              Follows(ts, 0) && ParseItems(ts, args, rs) == Parsed(Wrap(Exec(args), rs), ts)
  {
    hide Wrap;
  }

  lemma {:induction false} ItemsFound(ts: seq<Tok>, args: seq<string>, rs: Redirs) returns (items: seq<Item>)
    requires |args| < MAXARGS && ParseItems(ts, args, rs).Parsed?
    ensures var r := ParseItems(ts, args, rs);
            && ts == ItemToks(items) + r.rest && |args + Args(items)| < MAXARGS && Follows(r.rest, 0)
            && r.cmd == Wrap(Exec(args + Args(items)), rs + Reds(items))
    decreases |ts|
  {
    hide ParseItems, Wrap, ItemToks, Args, Reds, Follows;
    NextItem(ts, args, rs);
    var r := ParseItems(ts, args, rs);
    if ts != [] && ts[0].To? {
      var k, f, more := ts[0].kind, ts[1].w, ts[2..];
      assert ts == [To(k), Word(f)] + more;
      ItemRedirection(k, f, more, args, rs);
      var tail := ItemsFound(more, args, rs + [(k, f)]);
      RedFirst(k, f, tail, rs, r.rest);
      items := [Red(k, f)] + tail;
    } else if ts != [] && ts[0].Word? {
      var w, more := ts[0].w, ts[1..];
      assert ts == [Word(w)] + more;
      ItemWord(w, more, args, rs);
      var tail := ItemsFound(more, args + [w], rs);
      ArgFirst(w, tail, args, r.rest);
      items := [Arg(w)] + tail;
    } else {
      NoItems(args, rs, ts);
      items := [];
    }
  }

  lemma OneRedir(k: Kind, f: string, ts: seq<Tok>, acc: Redirs)
    ensures ParseRedirs([To(k), Word(f)] + ts, acc) == ParseRedirs(ts, acc + [(k, f)])
  {
    assert ([To(k), Word(f)] + ts)[2..] == ts;
  }

  lemma RedirFirst(k: Kind, f: string, rs: Redirs, acc: Redirs, rest: seq<Tok>)
    ensures var all := [(k, f)] + rs;
            && acc + all == acc + [(k, f)] + rs
            && RedirToks(all) + rest == [To(k), Word(f)] + (RedirToks(rs) + rest)
  {
    assert ([(k, f)] + rs)[1..] == rs;
  }

  lemma NoRedirs(acc: Redirs, rest: seq<Tok>)
    ensures RedirToks([]) + rest == rest && acc + [] == acc
    ensures rest == [] || !rest[0].To? ==> ParseRedirs(rest, acc) == Redirected(acc, rest)
  {
  }

  lemma {:induction false} RedirsParsed(rs: Redirs, acc: Redirs, rest: seq<Tok>)
    requires rest == [] || !rest[0].To?
    ensures ParseRedirs(RedirToks(rs) + rest, acc) == Redirected(acc + rs, rest)
    decreases |rs|
  {
    hide ParseRedirs, RedirToks;
    NoRedirs(acc, rest);
    if rs != [] {
      var k, f, tail := rs[0].0, rs[0].1, rs[1..];
      assert rs == [(k, f)] + tail;
      RedirFirst(k, f, tail, acc, rest);
      OneRedir(k, f, RedirToks(tail) + rest, acc);
      RedirsParsed(tail, acc + [(k, f)], rest);
    }
  }

  lemma {:induction false} RedirsFound(ts: seq<Tok>, acc: Redirs) returns (rs: Redirs)
    requires ParseRedirs(ts, acc).Redirected?
    ensures var r := ParseRedirs(ts, acc);
            ts == RedirToks(rs) + r.rest && r.redirs == acc + rs && (r.rest == [] || !r.rest[0].To?)
    decreases |ts|
  {
    hide RedirToks;
    NoRedirs(acc, ts);
    if ts != [] && ts[0].To? {
      var k, f, more := ts[0].kind, ts[1].w, ts[2..];
      assert ts == [To(k), Word(f)] + more;
      OneRedir(k, f, more, acc);
      var tail := RedirsFound(more, acc + [(k, f)]);
      RedirFirst(k, f, tail, acc, ParseRedirs(ts, acc).rest);
      rs := [(k, f)] + tail;
    } else {
      rs := [];
    }
  }

  // ---------------------------------------------------------------- what is written is parsed

  lemma SimpleParsed(items: seq<Item>, rest: seq<Tok>)
    requires |Args(items)| < MAXARGS && Follows(rest, 0)
    ensures ParseExec(ItemToks(items) + rest) == Parsed(Wrap(Exec(Args(items)), Reds(items)), rest)
  {
    hide ParseArgs, ParseRedirs, Wrap, ItemToks, ParseBlock;
    ItemsParsed(items, [], [], rest);
    assert [] + Args(items) == Args(items) && [] + Reds(items) == Reds(items);
    NotOpen(items, rest);
  }

  lemma {:induction false} ExecParsed(t: Tree, rest: seq<Tok>)
    requires Good(t, 0) && Follows(rest, 0)
    ensures ParseExec(Written(t) + rest) == Parsed(Meant(t), rest)
    decreases t, 0
  {
    hide ParseExec, ParseLine, ParseRedirs, Wrap, ItemToks, RedirToks;
    match t {
    case Simple(items) =>
      SimpleParsed(items, rest);
    case Paren(b, rs) =>
      var more := RedirToks(rs) + rest;
      LineParsed(b, [Close] + more);
      RedirsParsed(rs, [], rest);
      assert [] + rs == rs;
      ParenParsed(Written(b), Meant(b), rs, rest);
      assert Written(t) + rest == [Open] + (Written(b) + ([Close] + more));
    }
  }

  lemma NotOpen(items: seq<Item>, rest: seq<Tok>)
    requires Follows(rest, 0)
    ensures !First(ItemToks(items) + rest, Open)
  {
  }

  lemma ParenParsed(line: seq<Tok>, c: Cmd<string>, rs: Redirs, rest: seq<Tok>)
    requires ParseLine(line + ([Close] + (RedirToks(rs) + rest))) == Parsed(c, [Close] + (RedirToks(rs) + rest))
    requires ParseRedirs(RedirToks(rs) + rest, []) == Redirected(rs, rest)
    ensures ParseExec([Open] + (line + ([Close] + (RedirToks(rs) + rest)))) == Parsed(Wrap(c, rs), rest)
  {
    hide RedirToks, Wrap, ParseLine, ParseRedirs;
    var after := [Close] + (RedirToks(rs) + rest);
    var ts := [Open] + (line + after);
    assert ts[1..] == line + after && after[1..] == RedirToks(rs) + rest;
    assert ParseExec(ts) == ParseBlock(ts);
  }

  lemma {:induction false} PipeParsed(t: Tree, rest: seq<Tok>)
    requires Good(t, 1) && Follows(rest, 1)
    ensures ParsePipe(Written(t) + rest) == Parsed(Meant(t), rest)
    decreases t, 1
  {
    hide Written, ParseExec;
    if t.Piped? {
      var more := [Bar] + (Written(t.right) + rest);
      ExecParsed(t.left, more);
      PipeParsed(t.right, rest);
      WrittenPiped(t, rest);
      assert more[1..] == Written(t.right) + rest;
    } else {
      ExecParsed(t, rest);
    }
  }

  lemma WrittenPiped(t: Tree, rest: seq<Tok>)
    requires t.Piped?
    ensures Written(t) + rest == Written(t.left) + ([Bar] + (Written(t.right) + rest))
  {
  }

  /** A pipeline and the & signs after it. */
  function ParseBacked(ts: seq<Tok>): Result
  {
    match ParsePipe(ts)
    case Panicked => Panicked
    case Parsed(c, rest) => ParseAmps(c, rest)
  }

  lemma {:induction false} AmpsParsed(t: Tree, rest: seq<Tok>)
    requires Good(t, 2) && Follows(rest, 1)
    ensures ParseBacked(Written(t) + rest) == ParseAmps(Meant(t), rest)
    decreases t, 2
  {
    hide ParsePipe;
    if t.Ampersand? {
      AmpsParsed(t.body, [Amp] + rest);
      assert Written(t) + rest == Written(t.body) + ([Amp] + rest);
      assert ([Amp] + rest)[1..] == rest;
    } else {
      PipeParsed(t, rest);
    }
  }

  lemma {:induction false} LineParsed(t: Tree, rest: seq<Tok>)
    requires Good(t, 3) && Follows(rest, 3)
    ensures ParseLine(Written(t) + rest) == Parsed(Meant(t), rest)
    decreases t, 3
  {
    hide ParsePipe;
    if t.Sequence? {
      var more := [Semi] + (Written(t.right) + rest);
      AmpsParsed(t.left, more);
      LineParsed(t.right, rest);
      assert Written(t) + rest == Written(t.left) + more;
      assert more[1..] == Written(t.right) + rest;
      LineOfBacked(Meant(t.left), Written(t.left) + more, more);
    } else {
      AmpsParsed(t, rest);
      LineOfBacked(Meant(t), Written(t) + rest, rest);
    }
  }

  function Listed(c: Cmd<string>, r: Result): Result
  {
    if r.Panicked? then Panicked else Parsed(List(c, r.cmd), r.rest)
  }

  lemma LineOfBacked(c: Cmd<string>, ts: seq<Tok>, rest: seq<Tok>)
    requires ParseBacked(ts) == ParseAmps(c, rest) && !First(rest, Amp)
    ensures ParseLine(ts) == if First(rest, Semi) then Listed(c, ParseLine(rest[1..])) else Parsed(c, rest)
  {
    assert ParseAmps(c, rest) == Parsed(c, rest);
  }

  // ---------------------------------------------------------------- what is parsed was written

  lemma {:induction false} ExecFound(ts: seq<Tok>) returns (t: Tree)
    requires ParseExec(ts).Parsed?
    ensures Good(t, 0) && ts == Written(t) + ParseExec(ts).rest && ParseExec(ts).cmd == Meant(t)
    decreases |ts|, 1
  {
    if First(ts, Open) {
      t := BlockFound(ts);
    } else {
      var items := ItemsFound(ts, [], []);
      t := Simple(items);
      assert [] + Args(items) == Args(items) && [] + Reds(items) == Reds(items);
    }
  }

  lemma {:induction false} BlockFound(ts: seq<Tok>) returns (t: Tree)
    requires First(ts, Open) && ParseBlock(ts).Parsed?
    ensures t.Paren? && Good(t, 0) && ts == Written(t) + ParseBlock(ts).rest && ParseBlock(ts).cmd == Meant(t)
    decreases |ts|, 0
  {
    hide ParseRedirs, Wrap, RedirToks;
    var rest := ParseLine(ts[1..]).rest;
    var b := LineFound(ts[1..]);
    hide ParseLine;
    var rs := RedirsFound(rest[1..], []);
    t := Paren(b, rs);
    assert [] + rs == rs;
    Rejoined(ts, Written(b), rest, RedirToks(rs), ParseRedirs(rest[1..], []).rest);
  }

  lemma Rejoined(ts: seq<Tok>, line: seq<Tok>, rest: seq<Tok>, redirs: seq<Tok>, last: seq<Tok>)
    requires First(ts, Open) && First(rest, Close) && ts[1..] == line + rest && rest[1..] == redirs + last
    ensures ts == [Open] + line + [Close] + redirs + last
  {
    assert rest == [Close] + rest[1..] && ts == [Open] + ts[1..];
  }

  lemma Between(ts: seq<Tok>, left: seq<Tok>, sep: Tok, rest: seq<Tok>, right: seq<Tok>, last: seq<Tok>)
    requires ts == left + rest && First(rest, sep) && rest[1..] == right + last
    ensures ts == left + [sep] + right + last
  {
    assert rest == [sep] + rest[1..];
  }

  lemma {:induction false} PipeFound(ts: seq<Tok>) returns (t: Tree)
    requires ParsePipe(ts).Parsed?
    ensures Good(t, 1) && ts == Written(t) + ParsePipe(ts).rest && ParsePipe(ts).cmd == Meant(t)
    decreases |ts|, 2
  {
    t := ExecFound(ts);
    var rest := ParseExec(ts).rest;
    if First(rest, Bar) {
      var r := PipeFound(rest[1..]);
      Between(ts, Written(t), Bar, rest, Written(r), ParsePipe(rest[1..]).rest);
      t := Piped(t, r);
    } else {
      Stronger(t, 0, 1);
    }
  }

  lemma {:induction false} Stronger(t: Tree, level: nat, more: nat)
    requires Good(t, level) && level <= more
    ensures Good(t, more)
  {
  }

  lemma {:induction false} AmpsFound(t: Tree, ts: seq<Tok>) returns (t': Tree)
    requires Good(t, 2)
    ensures Good(t', 2) && Written(t) + ts == Written(t') + ParseAmps(Meant(t), ts).rest
    ensures ParseAmps(Meant(t), ts).cmd == Meant(t')
    decreases |ts|
  {
    if First(ts, Amp) {
      assert ts == [Amp] + ts[1..];
      assert Written(t) + ts == Written(Ampersand(t)) + ts[1..];
      t' := AmpsFound(Ampersand(t), ts[1..]);
    } else {
      t' := t;
    }
  }

  lemma {:induction false} LineFound(ts: seq<Tok>) returns (t: Tree)
    requires ParseLine(ts).Parsed?
    ensures Good(t, 3) && ts == Written(t) + ParseLine(ts).rest && ParseLine(ts).cmd == Meant(t)
    decreases |ts|, 3
  {
    t := PipeFound(ts);
    Stronger(t, 1, 2);
    var Parsed(c0, rest0) := ParsePipe(ts);
    t := AmpsFound(t, rest0);
    var rest := ParseAmps(c0, rest0).rest;
    if First(rest, Semi) {
      var r := LineFound(rest[1..]);
      Between(ts, Written(t), Semi, rest, Written(r), ParseLine(rest[1..]).rest);
      t := Sequence(t, r);
    } else {
      Stronger(t, 2, 3);
    }
  }

  // ---------------------------------------------------------------- the whole language

  /** parsecmd gives a command exactly for what may be written, and the command that was meant. */
  lemma ParsesWhatIsWritten(t: Tree)
    requires Good(t, 3)
    ensures ParseCmd(Written(t)) == Parsed(Meant(t), [])
  {
    LineParsed(t, []);
    assert Written(t) + [] == Written(t);
  }

  lemma ParsesNothingElse(ts: seq<Tok>) returns (t: Tree)
    requires ParseCmd(ts).Parsed?
    ensures Good(t, 3) && Written(t) == ts && ParseCmd(ts) == Parsed(Meant(t), [])
  {
    t := LineFound(ts);
    assert Written(t) + [] == Written(t);
  }

  /** The panics of parsecmd, all together: nothing that may be written stands on the line. */
  lemma PanicsExactly(ts: seq<Tok>)
    ensures ParseCmd(ts).Panicked? <==> forall t :: Good(t, 3) ==> Written(t) != ts
  {
    if ParseCmd(ts).Parsed? {
      var t := ParsesNothingElse(ts);
    } else {
      forall t | Good(t, 3)
        ensures Written(t) != ts
      {
        ParsesWhatIsWritten(t);
      }
    }
  }

  // ---------------------------------------------------------------- every command can be written

  /** Fewer than ten words in every simple command. */
  predicate Fits(t: Cmd<string>)
  {
    match t
    case Exec(argv) => |argv| < 10
    case Redir(c, _, _) => Fits(c)
    case Pipe(l, r) => Fits(l) && Fits(r)
    case List(l, r) => Fits(l) && Fits(r)
    case Back(c) => Fits(c)
  }

  function Words(argv: seq<string>): seq<Item>
  {
    if argv == [] then [] else [Arg(argv[0])] + Words(argv[1..])
  }

  /** A way to write a command: parentheses where the levels ask for them. */
  function Syntax(c: Cmd<string>): Tree
  {
    match c
    case Exec(argv) => Simple(Words(argv))
    case Redir(d, k, f) => WithRedir(Atom(Syntax(d)), k, f)
    case Pipe(l, r) => Piped(Atom(Syntax(l)), Below(Syntax(r), 1))
    case Back(d) => Ampersand(Below(Syntax(d), 2))
    case List(l, r) => Sequence(Below(Syntax(l), 2), Syntax(r))
  }

  function WithRedir(t: Tree, k: Kind, f: string): Tree
    requires t.Simple? || t.Paren?
  {
    if t.Simple? then Simple(t.items + [Red(k, f)]) else Paren(t.body, t.redirs + [(k, f)])
  }

  function Atom(t: Tree): (a: Tree)
    ensures a.Simple? || a.Paren?
  {
    if t.Simple? || t.Paren? then t else Paren(t, [])
  }

  function Below(t: Tree, level: nat): Tree
  {
    if Good(t, level) then t else Paren(t, [])
  }

  lemma {:induction false} WordsAre(argv: seq<string>)
    ensures Args(Words(argv)) == argv && Reds(Words(argv)) == []
    decreases |argv|
  {
    if argv != [] {
      WordsAre(argv[1..]);
      assert Words(argv)[1..] == Words(argv[1..]) && argv == [argv[0]] + argv[1..];
    }
  }

  lemma {:induction false} ItemsSnoc(items: seq<Item>, k: Kind, f: string)
    ensures Args(items + [Red(k, f)]) == Args(items) && Reds(items + [Red(k, f)]) == Reds(items) + [(k, f)]
    decreases |items|
  {
    if items == [] {
      assert items + [Red(k, f)] == [Red(k, f)];
    } else {
      assert (items + [Red(k, f)])[1..] == items[1..] + [Red(k, f)];
      ItemsSnoc(items[1..], k, f);
    }
  }

  lemma WrapSnoc(c: Cmd<string>, rs: Redirs, k: Kind, f: string)
    ensures Wrap(c, rs + [(k, f)]) == Redir(Wrap(c, rs), k, f)
  {
    assert (rs + [(k, f)])[..|rs|] == rs;
  }

  lemma {:induction false} SyntaxMeans(c: Cmd<string>)
    requires Fits(c)
    ensures Good(Syntax(c), 3) && Meant(Syntax(c)) == c
  {
    match c
    case Exec(argv) => WordsAre(argv);
    case Redir(d, k, f) =>
      SyntaxMeans(d);
      var t := Atom(Syntax(d));
      if t.Simple? {
        ItemsSnoc(t.items, k, f);
        WrapSnoc(Exec(Args(t.items)), Reds(t.items), k, f);
      } else {
        WrapSnoc(Meant(t.body), t.redirs, k, f);
      }
    case Pipe(l, r) => SyntaxMeans(l); SyntaxMeans(r);
    case List(l, r) => SyntaxMeans(l); SyntaxMeans(r);
    case Back(d) => SyntaxMeans(d);
  }

  /** Every command tree whose simple commands have fewer than ten words can be written, and parsing
      gives it back. */
  lemma PrintParse(c: Cmd<string>)
    requires Fits(c)
    ensures ParseCmd(Written(Syntax(c))) == Parsed(c, [])
  {
    SyntaxMeans(c);
    ParsesWhatIsWritten(Syntax(c));
  }
}
