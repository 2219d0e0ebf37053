/** The shell's command parser. A command line is a character sequence without its NUL; a cursor
    is a position in it; a tree refers to words by position until Nulterminate cuts them off in
    the buffer. Errors that end the shell process are Panic results. */
module Shell {

  const MAXARGS := 10
  const NUL := 0 as char

  predicate IsSpace(c: char) { c in " \t\r\n\U{0B}" }

  predicate IsSymbol(c: char) { c in "<|>&;()" }

  predicate Plain(c: char) { !IsSpace(c) && !IsSymbol(c) }

  /** A word: characters q .. eq - 1. */
  datatype Tok = Tok(q: nat, eq: nat)

  datatype Kind = In | Out | Append

  datatype Cmd =
    | Exec(argv: seq<Tok>)
    | Redir(cmd: Cmd, file: Tok, kind: Kind)
    | Pipe(left: Cmd, right: Cmd)
    | List(left: Cmd, right: Cmd)
    | Back(cmd: Cmd)

  // Tokens

  function SkipSpace(line: seq<char>, s: nat): (r: nat)
    requires s <= |line|
    ensures s <= r <= |line| && (r < |line| ==> !IsSpace(line[r])) && forall i :: s <= i < r ==> IsSpace(line[i])
    decreases |line| - s
  {
    if s < |line| && IsSpace(line[s]) then SkipSpace(line, s + 1) else s
  }

  function WordEnd(line: seq<char>, s: nat): (r: nat)
    requires s <= |line|
    ensures s <= r <= |line| && (r < |line| ==> !Plain(line[r])) && forall i :: s <= i < r ==> Plain(line[i])
    decreases |line| - s
  {
    if s < |line| && Plain(line[s]) then WordEnd(line, s + 1) else s
  }

  datatype Symbol = Eof | Sym(c: char) | Twice | Word

  /** gettoken's result: kind, extent, and the cursor afterwards. */
  datatype Token = Token(sym: Symbol, q: nat, eq: nat, next: nat)

  function GetToken(line: seq<char>, s: nat): (t: Token)
    requires s <= |line|
    ensures s <= t.q <= t.eq <= t.next <= |line| && (t.sym != Eof ==> t.q < t.eq)
    ensures t.sym == Word ==> TokOk(line, Tok(t.q, t.eq))
  {
    var q := SkipSpace(line, s);
    if q == |line| then Token(Eof, q, q, q)
    else if line[q] == '>' && q + 1 < |line| && line[q + 1] == '>' then Token(Twice, q, q + 2, SkipSpace(line, q + 2))
    else if IsSymbol(line[q]) then Token(Sym(line[q]), q, q + 1, SkipSpace(line, q + 1))
    else
      var e := WordEnd(line, q);
      Token(Word, q, e, SkipSpace(line, e))
  }

  /** peek. The cursor moves to SkipSpace(line, s). */
  predicate Peek(line: seq<char>, s: nat, toks: string)
    requires s <= |line|
  {
    var q := SkipSpace(line, s);
    q < |line| && line[q] in toks
  }

  /** A non-empty stretch of plain characters that stops where they stop. */
  ghost predicate TokOk(line: seq<char>, t: Tok) {
    && t.q < t.eq <= |line|
    && (forall i :: t.q <= i < t.eq ==> Plain(line[i]))
    && (t.eq < |line| ==> !Plain(line[t.eq]))
  }

  ghost predicate CmdOk(line: seq<char>, c: Cmd) {
    match c
    case Exec(argv) => |argv| < MAXARGS && forall i :: 0 <= i < |argv| ==> TokOk(line, argv[i])
    case Redir(d, file, _) => CmdOk(line, d) && TokOk(line, file)
    case Pipe(l, r) => CmdOk(line, l) && CmdOk(line, r)
    case List(l, r) => CmdOk(line, l) && CmdOk(line, r)
    case Back(d) => CmdOk(line, d)
  }

  // The grammar, as recursive functions

  datatype Result = Ok(cmd: Cmd, pos: nat) | Panic(why: string)

  datatype Target = Target(file: Tok, kind: Kind)

  datatype Targets = Targets(list: seq<Target>, pos: nat) | Missing

  ghost predicate TargetsOk(line: seq<char>, list: seq<Target>) {
    forall i :: 0 <= i < |list| ==> TokOk(line, list[i].file)
  }

  /** Redirections wrap from the inside out, in the order they are read. */
  function Wrap(c: Cmd, list: seq<Target>): (r: Cmd)
    decreases |list|
  {
    if list == [] then c else Redir(Wrap(c, list[..|list| - 1]), list[|list| - 1].file, list[|list| - 1].kind)
  }

  lemma {:induction false} WrapOk(line: seq<char>, c: Cmd, list: seq<Target>)
    requires CmdOk(line, c) && TargetsOk(line, list)
    ensures CmdOk(line, Wrap(c, list))
    decreases |list|
  {
    if list != [] { WrapOk(line, c, list[..|list| - 1]); }
  }

  function KindOf(s: Symbol): (k: Kind) {
    if s == Sym('<') then In else if s == Sym('>') then Out else Append
  }

  /** parseredirs, adding to the redirections found so far. */
  function Redirs(line: seq<char>, s: nat, found: seq<Target>): (r: Targets)
    requires s <= |line|
    ensures r.Targets? ==> s <= r.pos <= |line| && found <= r.list
    ensures r.Targets? && TargetsOk(line, found) ==> TargetsOk(line, r.list)
    ensures r.Targets? ==> r.pos == SkipSpace(line, r.pos) && !Peek(line, r.pos, "<>")
    decreases |line| - s
  {
    if !Peek(line, s, "<>") then
      Targets(found, SkipSpace(line, s))
    else
      var t := GetToken(line, s);
      var f := GetToken(line, t.next);
      if f.sym != Word then Missing
      else Redirs(line, f.next, found + [Target(Tok(f.q, f.eq), KindOf(t.sym))])
  }

  /** The argument loop of parseexec. */
  function Args(line: seq<char>, s: nat, argv: seq<Tok>, found: seq<Target>): (r: Result)
    requires s <= |line| && |argv| < MAXARGS
    ensures r.Ok? ==> s <= r.pos <= |line|
    ensures r.Ok? && TargetsOk(line, found) && (forall i :: 0 <= i < |argv| ==> TokOk(line, argv[i])) ==>
              CmdOk(line, r.cmd)
    decreases |line| - s
  {
    if Peek(line, s, "|)&;") then
      WrapOkIf(line, Exec(argv), found);
      Ok(Wrap(Exec(argv), found), SkipSpace(line, s))
    else
      var t := GetToken(line, s);
      if t.sym == Eof then
        WrapOkIf(line, Exec(argv), found);
        Ok(Wrap(Exec(argv), found), t.next)
      else if t.sym != Word then Panic("syntax")
      else if |argv| + 1 >= MAXARGS then Panic("too many args")
      else
        var r := Redirs(line, t.next, found);
        if r.Missing? then Panic("missing file for redirection") else Args(line, r.pos, argv + [Tok(t.q, t.eq)], r.list)
  }

  lemma WrapOkIf(line: seq<char>, c: Cmd, list: seq<Target>)
    ensures CmdOk(line, c) && TargetsOk(line, list) ==> CmdOk(line, Wrap(c, list))
  {
    if CmdOk(line, c) && TargetsOk(line, list) { WrapOk(line, c, list); }
  }

  /** parseexec. */
  function ExecCmd(line: seq<char>, s: nat): (r: Result)
    requires s <= |line|
    ensures r.Ok? ==> s <= r.pos <= |line| && CmdOk(line, r.cmd)
    decreases |line| - s, 1
  {
    if Peek(line, s, "(") then Block(line, s)
    else
      var t := Redirs(line, s, []);
      if t.Missing? then Panic("missing file for redirection") else Args(line, t.pos, [], t.list)
  }

  /** parseblock. */
  function Block(line: seq<char>, s: nat): (r: Result)
    requires s <= |line|
    ensures r.Ok? ==> s <= r.pos <= |line| && CmdOk(line, r.cmd)
    decreases |line| - s, 0
  {
    if !Peek(line, s, "(") then Panic("parseblock")
    else
      var inner := Line(line, GetToken(line, s).next);
      if inner.Panic? then inner
      else if !Peek(line, inner.pos, ")") then Panic("syntax - missing )")
      else
        var t := Redirs(line, GetToken(line, inner.pos).next, []);
        if t.Missing? then Panic("missing file for redirection")
        else
          WrapOkIf(line, inner.cmd, t.list);
          Ok(Wrap(inner.cmd, t.list), t.pos)
  }

  /** parsepipe. */
  function Pipeline(line: seq<char>, s: nat): (r: Result)
    requires s <= |line|
    ensures r.Ok? ==> s <= r.pos <= |line| && CmdOk(line, r.cmd)
    decreases |line| - s, 2
  {
    var l := ExecCmd(line, s);
    if l.Panic? || !Peek(line, l.pos, "|") then l
    else
      var r := Pipeline(line, GetToken(line, l.pos).next);
      if r.Panic? then r else Ok(Pipe(l.cmd, r.cmd), r.pos)
  }

  /** parseline's loop over '&'. */
  function Backs(line: seq<char>, s: nat, c: Cmd): (r: Result)
    requires s <= |line|
    ensures r.Ok? && s <= r.pos <= |line| && (CmdOk(line, c) ==> CmdOk(line, r.cmd))
    decreases |line| - s
  {
    if Peek(line, s, "&") then Backs(line, GetToken(line, s).next, Back(c)) else Ok(c, SkipSpace(line, s))
  }

  /** parseline. */
  function Line(line: seq<char>, s: nat): (r: Result)
    requires s <= |line|
    ensures r.Ok? ==> s <= r.pos <= |line| && CmdOk(line, r.cmd)
    decreases |line| - s, 3
  {
    var p := Pipeline(line, s);
    if p.Panic? then p
    else
      var l := Backs(line, p.pos, p.cmd);
      if !Peek(line, l.pos, ";") then l
      else
        var r := Line(line, GetToken(line, l.pos).next);
        if r.Panic? then r else Ok(List(l.cmd, r.cmd), r.pos)
  }

  /** parsecmd, up to nulterminate. */
  function Command(line: seq<char>): (r: Result)
    ensures r.Ok? ==> CmdOk(line, r.cmd)
  {
    var r := Line(line, 0);
    if r.Panic? then r
    else if SkipSpace(line, r.pos) != |line| then Panic("syntax")
    else r
  }

  // Command trees over words, and their printing

  datatype Tree =
    | TExec(words: seq<string>)
    | TRedir(cmd: Tree, file: string, kind: Kind)
    | TPipe(left: Tree, right: Tree)
    | TList(left: Tree, right: Tree)
    | TBack(cmd: Tree)

  /** The tree a parse stands for. */
  ghost function Meaning(line: seq<char>, c: Cmd): (t: Tree)
    requires CmdOk(line, c)
  {
    match c
    case Exec(argv) => TExec(Words(line, argv))
    case Redir(d, file, kind) => TRedir(Meaning(line, d), WordAt(line, file), kind)
    case Pipe(l, r) => TPipe(Meaning(line, l), Meaning(line, r))
    case List(l, r) => TList(Meaning(line, l), Meaning(line, r))
    case Back(d) => TBack(Meaning(line, d))
  }

  ghost function WordAt(line: seq<char>, t: Tok): (w: string)
    requires TokOk(line, t)
  {
    line[t.q..t.eq]
  }

  ghost function Words(line: seq<char>, argv: seq<Tok>): (w: seq<string>)
    requires forall i :: 0 <= i < |argv| ==> TokOk(line, argv[i])
  {
    if argv == [] then [] else Words(line, argv[..|argv| - 1]) + [WordAt(line, argv[|argv| - 1])]
  }

  predicate IsWord(w: string) {
    w != [] && forall i :: 0 <= i < |w| ==> Plain(w[i]) && w[i] != NUL
  }

  predicate Printable(t: Tree) {
    match t
    case TExec(words) => |words| < MAXARGS && forall i :: 0 <= i < |words| ==> IsWord(words[i])
    case TRedir(d, file, _) => Printable(d) && IsWord(file)
    case TPipe(l, r) => Printable(l) && Printable(r)
    case TList(l, r) => Printable(l) && Printable(r)
    case TBack(d) => Printable(d)
  }

  function PrintWords(words: seq<string>): (s: string) {
    if words == [] then "" else if |words| == 1 then words[0] else words[0] + " " + PrintWords(words[1..])
  }

  function PrintKind(k: Kind): (s: string) {
    match k case In => "<" case Out => ">" case Append => ">>"
  }

  /** Every subcommand in parentheses. */
  function Print(t: Tree): (s: string) {
    match t
    case TExec(words) => PrintWords(words)
    case TRedir(d, file, kind) => "(" + Print(d) + ")" + PrintKind(kind) + file
    case TPipe(l, r) => "(" + Print(l) + ")|(" + Print(r) + ")"
    case TList(l, r) => "(" + Print(l) + ");(" + Print(r) + ")"
    case TBack(d) => "(" + Print(d) + ")&"
  }

  // The round trip

  /** s stands at position p of the line. */
  ghost predicate At(line: seq<char>, p: nat, s: seq<char>) {
    p + |s| <= |line| && forall i :: 0 <= i < |s| ==> line[p + i] == s[i]
  }

  lemma AtSplit(line: seq<char>, p: nat, a: seq<char>, b: seq<char>)
    requires At(line, p, a + b)
    ensures At(line, p, a) && At(line, p + |a|, b)
  {
    forall i | 0 <= i < |a| ensures line[p + i] == a[i] { assert (a + b)[i] == a[i]; }
    forall i | 0 <= i < |b| ensures line[p + |a| + i] == b[i] { assert (a + b)[|a| + i] == b[i]; }
  }

  /** The end of the line, or a closing parenthesis. */
  ghost predicate Stop(line: seq<char>, p: nat) {
    p == |line| || (p < |line| && line[p] == ')')
  }

  lemma NoSpace(line: seq<char>, p: nat)
    requires p <= |line| && (p < |line| ==> !IsSpace(line[p]))
    ensures SkipSpace(line, p) == p
  {
  }

  lemma WordStands(line: seq<char>, p: nat, w: string)
    requires At(line, p, w) && IsWord(w) && (p + |w| < |line| ==> !Plain(line[p + |w|]))
    ensures var t := GetToken(line, p);
      t.sym == Word && t.q == p && t.eq == p + |w| && t.next == SkipSpace(line, p + |w|) &&
      WordAt(line, Tok(t.q, t.eq)) == w
  {
    assert line[p] == w[0];
    var e := WordEnd(line, p);
    forall i | p <= i < p + |w| ensures Plain(line[i]) { assert line[p + (i - p)] == w[i - p]; }
    assert e == p + |w|;
    assert line[p..p + |w|] == w;
  }

  lemma WordsMore(line: seq<char>, argv: seq<Tok>, t: Tok)
    requires (forall i :: 0 <= i < |argv| ==> TokOk(line, argv[i])) && TokOk(line, t)
    ensures (forall i :: 0 <= i < |argv + [t]| ==> TokOk(line, (argv + [t])[i])) &&
            Words(line, argv + [t]) == Words(line, argv) + [WordAt(line, t)]
  {
    assert (argv + [t])[..|argv|] == argv;
  }

  lemma PlainIsNot(c: char)
    ensures Plain(c) ==> c !in "|)&;" && c !in "(" && c !in "<>" && !IsSpace(c)
    ensures c == ')' ==> c in "|)&;" && c !in "(" && c !in "<>" && c !in "|" && c !in "&" && c !in ";" && !IsSpace(c)
  {
  }

  /** One turn of the argument loop. */
  lemma OneArg(line: seq<char>, p: nat, argv: seq<Tok>, w: string, next: nat)
    requires At(line, p, w) && IsWord(w) && (p + |w| < |line| ==> !Plain(line[p + |w|])) && |argv| + 1 < MAXARGS
    requires next == SkipSpace(line, p + |w|) && (next < |line| ==> line[next] !in "<>")
    ensures Args(line, p, argv, []) == Args(line, next, argv + [Tok(p, p + |w|)], [])
    ensures TokOk(line, Tok(p, p + |w|)) && WordAt(line, Tok(p, p + |w|)) == w
  {
    hide Peek, GetToken, SkipSpace, Redirs, Plain, IsSpace, IsSymbol;
    WordIsArg(line, p, w);
    WordStands(line, p, w);
    NoTargets(line, next);
  }

  lemma WordIsArg(line: seq<char>, p: nat, w: string)
    requires At(line, p, w) && IsWord(w)
    ensures !Peek(line, p, "|)&;")
  {
    CharAt(line, p, w);
    PlainIsNot(line[p]);
    NoSpace(line, p);
  }

  /** The argument loop reads back printed words. */
  lemma {:induction false} ArgsReadBack(line: seq<char>, p: nat, argv: seq<Tok>, words: seq<string>)
    requires At(line, p, PrintWords(words)) && Stop(line, p + |PrintWords(words)|)
    requires |argv| + |words| < MAXARGS && (forall i :: 0 <= i < |argv| ==> TokOk(line, argv[i])) &&
             forall i :: 0 <= i < |words| ==> IsWord(words[i])
    ensures var r := Args(line, p, argv, []);
      r.Ok? && r.pos == p + |PrintWords(words)| && CmdOk(line, r.cmd) &&
      Meaning(line, r.cmd) == TExec(Words(line, argv) + words)
    decreases |words|
  {
    hide Args, GetToken, SkipSpace, Redirs, Plain, IsSpace, IsSymbol, TokOk, Words, At, IsWord;
    if words == [] {
      NoArgsLeft(line, p, argv);
      assert Words(line, argv) + words == Words(line, argv);
    } else {
      var w, rest := words[0], words[1..];
      var tail := if rest == [] then "" else " " + PrintWords(rest);
      assert PrintWords(words) == w + tail;
      AtSplit(line, p, w, tail);
      assert IsWord(w);
      var e := p + |w|;
      AfterWord(line, e, rest);
      var next := if rest == [] then e else e + 1;
      OneArg(line, p, argv, w, next);
      WordsMore(line, argv, Tok(p, e));
      ArgsReadBack(line, next, argv + [Tok(p, e)], rest);
      assert Words(line, argv) + words == Words(line, argv) + [w] + rest;
    }
  }

  lemma NoArgsLeft(line: seq<char>, p: nat, argv: seq<Tok>)
    requires Stop(line, p) && |argv| < MAXARGS && forall i :: 0 <= i < |argv| ==> TokOk(line, argv[i])
    ensures Args(line, p, argv, []) == Ok(Exec(argv), p)
  {
    NoSpace(line, p);
    if p < |line| { PlainIsNot(line[p]); }
  }

  /** After a printed word comes a space and the next word, or a stop. */
  lemma AfterWord(line: seq<char>, e: nat, rest: seq<string>)
    requires e <= |line| && forall i :: 0 <= i < |rest| ==> IsWord(rest[i])
    requires rest == [] ==> Stop(line, e)
    requires rest != [] ==> At(line, e, " " + PrintWords(rest))
    ensures e < |line| ==> !Plain(line[e])
    ensures var next := if rest == [] then e else e + 1;
      && next <= |line| && SkipSpace(line, e) == next && (next < |line| ==> !IsSpace(line[next]) && line[next] !in "<>")
      && At(line, next, PrintWords(rest))
  {
    if rest == [] {
      NoSpace(line, e);
    } else {
      AtSplit(line, e, " ", PrintWords(rest));
      assert line[e + 0] == " "[0];
      assert IsWord(rest[0]) && PrintWords(rest)[0] == rest[0][0];
      assert line[e + 1 + 0] == PrintWords(rest)[0];
      NoSpace(line, e + 1);
    }
  }

  lemma CharAt(line: seq<char>, p: nat, s: seq<char>)
    requires At(line, p, s) && s != []
    ensures p < |line| && line[p] == s[0]
  {
    assert line[p + 0] == s[0];
  }

  /** A one-character symbol at p: what gettoken and peek find there. */
  lemma SymbolStands(line: seq<char>, p: nat)
    requires p < |line| && line[p] in "(|)&;"
    ensures GetToken(line, p).next == SkipSpace(line, p + 1) && SkipSpace(line, p) == p
    ensures forall toks: string :: Peek(line, p, toks) <==> line[p] in toks
  {
    NoSpace(line, p);
  }

  /** A printed tree starts with a parenthesis or a word, or is empty. */
  lemma PrintStarts(line: seq<char>, p: nat, t: Tree)
    requires At(line, p, Print(t)) && Stop(line, p + |Print(t)|) && Printable(t)
    ensures p <= |line| && SkipSpace(line, p) == p
    ensures p < |line| ==> !IsSpace(line[p]) && (t.TExec? ==> line[p] !in "(" && line[p] !in "<>")
  {
    hide At, Plain, IsSpace;
    if t.TExec? && t.words == [] {
      if p < |line| { PlainIsNot(line[p]); }
    } else {
      CharAt(line, p, Print(t));
      if t.TExec? { assert IsWord(t.words[0]) && PrintWords(t.words)[0] == t.words[0][0]; }
      PlainIsNot(line[p]);
      OpenIsNot(line[p]);
    }
    NoSpace(line, p);
  }

  lemma OpenIsNot(c: char)
    ensures c == '(' ==> !IsSpace(c)
  {
  }

  /** A stop ends whatever is being parsed. */
  lemma StopEnds(line: seq<char>, e: nat)
    requires e <= |line| && Stop(line, e)
    ensures SkipSpace(line, e) == e && !Peek(line, e, "|") && !Peek(line, e, "&") && !Peek(line, e, ";") &&
            !Peek(line, e, "<>")
    ensures e < |line| ==> !IsSpace(line[e]) && line[e] !in "<>" && !Plain(line[e])
  {
    if e < |line| { PlainIsNot(line[e]); }
    NoSpace(line, e);
  }

  // What the grammar does with what it finds

  lemma LineOfExec(line: seq<char>, p: nat)
    requires p <= |line| && ExecCmd(line, p).Ok? && Stop(line, ExecCmd(line, p).pos)
    ensures Line(line, p) == ExecCmd(line, p)
  {
    hide ExecCmd, Peek, SkipSpace, GetToken;
    StopEnds(line, ExecCmd(line, p).pos);
  }

  lemma LineOfBack(line: seq<char>, p: nat, c: Cmd, e: nat)
    requires p <= |line| && ExecCmd(line, p) == Ok(c, e) && e < |line| && line[e] == '&' && Stop(line, e + 1)
    ensures Line(line, p) == Ok(Back(c), e + 1)
  {
    hide ExecCmd, Peek, SkipSpace, GetToken;
    SymbolStands(line, e);
    StopEnds(line, e + 1);
    assert !Peek(line, e, "|") && Peek(line, e, "&");
    assert Pipeline(line, p) == Ok(c, e);
    assert Backs(line, e, c) == Ok(Back(c), e + 1);
  }

  lemma LineOfList(line: seq<char>, p: nat, c: Cmd, e: nat)
    requires p <= |line| && ExecCmd(line, p) == Ok(c, e) && e < |line| && line[e] == ';' &&
             SkipSpace(line, e + 1) == e + 1 && Line(line, e + 1).Ok?
    ensures Line(line, p) == Ok(List(c, Line(line, e + 1).cmd), Line(line, e + 1).pos)
  {
    hide ExecCmd, Peek, SkipSpace, GetToken;
    SymbolStands(line, e);
    assert !Peek(line, e, "|") && !Peek(line, e, "&") && Peek(line, e, ";");
    assert Pipeline(line, p) == Ok(c, e);
    assert Backs(line, e, c) == Ok(c, e);
  }

  lemma LineOfPipe(line: seq<char>, p: nat, c: Cmd, e: nat, d: Cmd, f: nat)
    requires p <= |line| && ExecCmd(line, p) == Ok(c, e) && e < |line| && line[e] == '|' &&
             SkipSpace(line, e + 1) == e + 1
    requires ExecCmd(line, e + 1) == Ok(d, f) && Stop(line, f)
    ensures Line(line, p) == Ok(Pipe(c, d), f)
  {
    hide ExecCmd, Peek, SkipSpace, GetToken;
    SymbolStands(line, e);
    StopEnds(line, f);
    assert Peek(line, e, "|");
    assert Pipeline(line, e + 1) == Ok(d, f);
    assert Pipeline(line, p) == Ok(Pipe(c, d), f);
  }

  /** A parenthesised line and its redirections. */
  lemma ExecOfBlock(line: seq<char>, p: nat, m: nat)
    requires p < m < |line| && line[p] ==
               '(' && SkipSpace(line, p + 1) == p + 1 && Line(line, p + 1).Ok? && Line(line, p + 1).pos == m &&
                 line[m] == ')'
    requires SkipSpace(line, m + 1) == m + 1 && Redirs(line, m + 1, []).Targets?
    ensures ExecCmd(line, p) == Ok(Wrap(Line(line, p + 1).cmd, Redirs(line, m + 1, []).list),
                                   Redirs(line, m + 1, []).pos)
  {
    hide Peek, SkipSpace, GetToken, Line, Redirs;
    SymbolStands(line, p);
    SymbolStands(line, m);
    assert Peek(line, p, "(") && Peek(line, m, ")");
  }

  // Reading back

  ghost predicate ReadsBack(line: seq<char>, p: nat, t: Tree) {
    p <= |line| && var r := Line(line, p); r.Ok? && r.pos == p + |Print(t)| && Meaning(line, r.cmd) == t
  }

  ghost predicate BlockReadsBack(line: seq<char>, p: nat, t: Tree) {
    p <= |line| && var r := ExecCmd(line, p); r.Ok? && r.pos == p + |Print(t)| + 2 && Meaning(line, r.cmd) == t
  }

  lemma ExecReadBack(line: seq<char>, p: nat, words: seq<string>)
    requires At(line, p, PrintWords(words)) && Stop(line, p + |PrintWords(words)|) && Printable(TExec(words))
    ensures ReadsBack(line, p, TExec(words))
  {
    hide Args, At, Line, PrintWords, Stop, IsWord;
    PrintStarts(line, p, TExec(words));
    assert !Peek(line, p, "(") && Redirs(line, p, []) == Targets([], p);
    hide Redirs, Peek;
    ArgsReadBack(line, p, [], words);
    assert Words(line, []) + words == words;
    LineOfExec(line, p);
  }

  /** "(" at p, then the printed tree, then ")". */
  lemma BlockStands(line: seq<char>, p: nat, t: Tree)
    requires Printable(t) && At(line, p, "(" + Print(t) + ")")
    ensures var m := p + 1 + |Print(t)|;
      && p < m < |line| && line[p] == '(' && line[m] == ')' && At(line, p + 1, Print(t)) && Stop(line, m)
      && SkipSpace(line, p) == p && SkipSpace(line, p + 1) == p + 1
  {
    hide At, SkipSpace, Print;
    AtSplit(line, p, "(" + Print(t), ")");
    AtSplit(line, p, "(", Print(t));
    CharAt(line, p, "(");
    CharAt(line, p + 1 + |Print(t)|, ")");
    PrintStarts(line, p + 1, t);
    OpenIsNot(line[p]);
    NoSpace(line, p);
  }

  /** A parenthesised tree, followed by no redirection, is read back by parseexec. */
  lemma {:induction false} BlockReadBack(line: seq<char>, p: nat, t: Tree)
    requires Printable(t) && At(line, p, "(" + Print(t) + ")")
    requires var e := p + |Print(t)| + 2; e < |line| ==> !IsSpace(line[e]) && line[e] !in "<>"
    ensures BlockReadsBack(line, p, t)
    decreases t, 2
  {
    hide At, Print, Printable, Line, ExecCmd, Meaning;
    var e := p + |Print(t)| + 2;
    BlockStands(line, p, t);
    RoundTrip(line, p + 1, t);
    NoSpace(line, e);
    NoTargets(line, e);
    hide Redirs, SkipSpace;
    ExecOfBlock(line, p, e - 1);
  }

  lemma NoTargets(line: seq<char>, e: nat)
    requires e <= |line| && (e < |line| ==> !IsSpace(line[e]) && line[e] !in "<>")
    ensures Redirs(line, e, []) == Targets([], e)
  {
    NoSpace(line, e);
  }

  /** Parsing the printing of any printable tree gives the tree back. */
  lemma {:induction false} RoundTrip(line: seq<char>, p: nat, t: Tree)
    requires Printable(t) && At(line, p, Print(t)) && Stop(line, p + |Print(t)|)
    ensures ReadsBack(line, p, t)
    decreases t, 1
  {
    hide ReadsBack, At, Stop;
    match t
    case TExec(words) => ExecReadBack(line, p, words);
    case TRedir(_, _, _) => RedirReadBack(line, p, t);
    case TPipe(_, _) => PipeReadBack(line, p, t);
    case TList(_, _) => ListReadBack(line, p, t);
    case TBack(_) => BackReadBack(line, p, t);
  }

  lemma {:induction false} BackReadBack(line: seq<char>, p: nat, t: Tree)
    requires t.TBack? && Printable(t) && At(line, p, Print(t)) && Stop(line, p + |Print(t)|)
    ensures ReadsBack(line, p, t)
    decreases t, 0
  {
    hide At, Line, ExecCmd, IsSpace;
    var block := "(" + Print(t.cmd) + ")";
    var e := p + |block|;
    assert Print(t) == block + "&";
    AtSplit(line, p, block, "&");
    CharAt(line, e, "&");
    SeparatorIsNot(line[e]);
    BlockReadBack(line, p, t.cmd);
    LineOfBack(line, p, ExecCmd(line, p).cmd, e);
  }

  lemma SeparatorIsNot(c: char)
    ensures c == '&' || c == ';' || c == '|' ==> !IsSpace(c) && c !in "<>"
  {
  }

  lemma {:induction false} ListReadBack(line: seq<char>, p: nat, t: Tree)
    requires t.TList? && Printable(t) && At(line, p, Print(t)) && Stop(line, p + |Print(t)|)
    ensures ReadsBack(line, p, t)
    decreases t, 0
  {
    hide At, Line, ExecCmd, IsSpace, SkipSpace;
    var block, block2 := "(" + Print(t.left) + ")", "(" + Print(t.right) + ")";
    var e := p + |block|;
    assert Print(t) == block + (";" + block2);
    AtSplit(line, p, block, ";" + block2);
    AtSplit(line, e, ";", block2);
    CharAt(line, e, ";");
    SeparatorIsNot(line[e]);
    BlockReadBack(line, p, t.left);
    StopEnds(line, e + 1 + |block2|);
    BlockReadBack(line, e + 1, t.right);
    BlockStands(line, e + 1, t.right);
    LineOfExec(line, e + 1);
    LineOfList(line, p, ExecCmd(line, p).cmd, e);
  }

  lemma {:induction false} PipeReadBack(line: seq<char>, p: nat, t: Tree)
    requires t.TPipe? && Printable(t) && At(line, p, Print(t)) && Stop(line, p + |Print(t)|)
    ensures ReadsBack(line, p, t)
    decreases t, 0
  {
    hide At, Line, ExecCmd, IsSpace, SkipSpace;
    var block, block2 := "(" + Print(t.left) + ")", "(" + Print(t.right) + ")";
    var e := p + |block|;
    assert Print(t) == block + ("|" + block2);
    AtSplit(line, p, block, "|" + block2);
    AtSplit(line, e, "|", block2);
    CharAt(line, e, "|");
    SeparatorIsNot(line[e]);
    BlockReadBack(line, p, t.left);
    StopEnds(line, e + 1 + |block2|);
    BlockReadBack(line, e + 1, t.right);
    BlockStands(line, e + 1, t.right);
    LineOfPipe(line, p, ExecCmd(line, p).cmd, e, ExecCmd(line, e + 1).cmd, e + 1 + |block2|);
  }

  lemma {:induction false} RedirReadBack(line: seq<char>, p: nat, t: Tree)
    requires t.TRedir? && Printable(t) && At(line, p, Print(t)) && Stop(line, p + |Print(t)|)
    ensures ReadsBack(line, p, t)
    decreases t, 0
  {
    hide At, Line, ExecCmd, IsSpace, SkipSpace, Redirs, PrintKind, IsWord, TokOk, WordAt;
    var block, op := "(" + Print(t.cmd) + ")", PrintKind(t.kind);
    var e := p + |block|;
    assert Print(t) == block + (op + t.file);
    AtSplit(line, p, block, op + t.file);
    AtSplit(line, e, op, t.file);
    BlockStands(line, p, t.cmd);
    RoundTrip(line, p + 1, t.cmd);
    TargetReadBack(line, e, t.kind, t.file);
    ExecOfBlock(line, p, e - 1);
    WrapOne(Line(line, p + 1).cmd, Target(Tok(e + |op|, e + |op| + |t.file|), t.kind));
    LineOfExec(line, p);
  }

  lemma WrapOne(c: Cmd, f: Target)
    ensures Wrap(c, [f]) == Redir(c, f.file, f.kind)
  {
  }

  /** The operator at e, and the file name after it. */
  lemma OperatorStands(line: seq<char>, e: nat, kind: Kind)
    requires At(line, e, PrintKind(kind)) && var q := e + |PrintKind(kind)|; q < |line| && Plain(line[q])
    ensures SkipSpace(line, e) == e && Peek(line, e, "<>")
    ensures var t := GetToken(line, e); t.next == e + |PrintKind(kind)| && KindOf(t.sym) == kind
  {
    CharAt(line, e, PrintKind(kind));
    assert kind == Append ==> line[e + 1] == PrintKind(kind)[1];
    var q := e + |PrintKind(kind)|;
    PlainIsNot(line[q]);
    hide At, Plain;
    NoSpace(line, e);
    NoSpace(line, q);
  }

  /** One redirection to file, the name starting at q, is what parseredirs finds at e. */
  ghost predicate TargetStands(line: seq<char>, e: nat, q: nat, kind: Kind, file: string) {
    && e <= |line| && SkipSpace(line, e) == e &&
       Redirs(line, e, []) == Targets([Target(Tok(q, q + |file|), kind)], q + |file|)
    && TokOk(line, Tok(q, q + |file|)) && WordAt(line, Tok(q, q + |file|)) == file
  }

  lemma TargetReadBack(line: seq<char>, e: nat, kind: Kind, file: string)
    requires At(line, e, PrintKind(kind)) && At(line, e + |PrintKind(kind)|, file) && IsWord(file) &&
             Stop(line, e + |PrintKind(kind)| + |file|)
    ensures TargetStands(line, e, e + |PrintKind(kind)|, kind, file)
  {
    hide At, GetToken, SkipSpace, Peek, Plain, PrintKind, KindOf, Redirs, IsSpace, IsSymbol;
    var q := e + |PrintKind(kind)|;
    CharAt(line, q, file);
    OperatorStands(line, e, kind);
    StopEnds(line, q + |file|);
    WordStands(line, q, file);
    OneTarget(line, e, q, q + |file|);
  }

  lemma OneTarget(line: seq<char>, e: nat, q: nat, f: nat)
    requires e <= q <= f <= |line| && Peek(line, e, "<>") && GetToken(line, e).next == q &&
             (f < |line| ==> !IsSpace(line[f]) && line[f] !in "<>")
    requires var t := GetToken(line, q); t.sym == Word && t.q == q && t.eq == f && t.next == f
    ensures Redirs(line, e, []) == Targets([Target(Tok(q, f), KindOf(GetToken(line, e).sym))], f)
  {
    NoSpace(line, f);
    hide GetToken, SkipSpace, IsSpace, KindOf;
    var list := [Target(Tok(q, f), KindOf(GetToken(line, e).sym))];
    assert [] + list == list;
    assert !Peek(line, f, "<>");
    assert Redirs(line, f, list) == Targets(list, f);
  }

  lemma AtStart(line: seq<char>)
    ensures At(line, 0, line)
  {
  }

  /** Printing, then parsing: the tree comes back, and nothing is left over. */
  lemma ParsePrint(t: Tree)
    requires Printable(t)
    ensures var r := Command(Print(t)); r.Ok? && Meaning(Print(t), r.cmd) == t
  {
    hide At, Line, SkipSpace, Meaning, Printable, Print, ExecCmd, Peek;
    var line := Print(t);
    AtStart(line);
    RoundTrip(line, 0, t);
    StopEnds(line, |line|);
  }

  // The parser as it runs

  method SkipSpaces(line: seq<char>, s: nat) returns (r: nat)
    requires s <= |line|
    ensures r == SkipSpace(line, s)
  {
    r := s;
    while r < |line| && IsSpace(line[r])
      invariant s <= r <= |line| && SkipSpace(line, r) == SkipSpace(line, s)
    {
      r := r + 1;
    }
  }

  method NextToken(line: seq<char>, s: nat) returns (t: Token)
    requires s <= |line|
    ensures t == GetToken(line, s)
  {
    var q := SkipSpaces(line, s);
    var e, sym := q, Eof;
    if q < |line| {
      if IsSymbol(line[q]) {
        e, sym := q + 1, Sym(line[q]);
        if line[q] == '>' && e < |line| && line[e] == '>' {
          e, sym := q + 2, Twice;
        }
      } else {
        sym := Word;
        while e < |line| && !IsSpace(line[e]) && !IsSymbol(line[e])
          invariant q <= e <= |line| && WordEnd(line, e) == WordEnd(line, q)
        {
          e := e + 1;
        }
      }
    }
    var next := SkipSpaces(line, e);
    t := Token(sym, q, e, next);
  }

  method ParseRedirs(line: seq<char>, s: nat, found: seq<Target>) returns (r: Targets)
    requires s <= |line|
    ensures r == Redirs(line, s, found)
  {
    var p, list := s, found;
    while Peek(line, p, "<>")
      invariant s <= p <= |line| && Redirs(line, p, list) == Redirs(line, s, found)
      decreases |line| - p
    {
      var t := NextToken(line, p);
      var f := NextToken(line, t.next);
      if f.sym != Word { return Missing; }
      list := list + [Target(Tok(f.q, f.eq), KindOf(t.sym))];
      p := f.next;
    }
    p := SkipSpaces(line, p);
    r := Targets(list, p);
  }

  /** parseexec: the words go into MAXARGS slots, the last of which stays free for the terminating null. */
  method ParseExec(line: seq<char>, s: nat) returns (r: Result)
    requires s <= |line|
    ensures r == ExecCmd(line, s)
    decreases |line| - s, 1
  {
    hide Redirs, GetToken, SkipSpace;
    if Peek(line, s, "(") {
      r := ParseBlock(line, s);
      return;
    }
    var t := ParseRedirs(line, s, []);
    if t.Missing? { return Panic("missing file for redirection"); }
    var argv := new Tok[MAXARGS](_ => Tok(0, 0));
    var argc, p, found := 0, t.pos, t.list;
    while !Peek(line, p, "|)&;")
      invariant 0 <= argc < MAXARGS && s <= p <= |line| && argv.Length == MAXARGS && fresh(argv)
      invariant Args(line, p, argv[..argc], found) == ExecCmd(line, s)
      decreases |line| - p
    {
      var w := NextToken(line, p);
      if w.sym == Eof {
        return Ok(Wrap(Exec(argv[..argc]), found), w.next);
      }
      if w.sym != Word { return Panic("syntax"); }
      argv[argc] := Tok(w.q, w.eq);
      assert argv[..argc + 1] == argv[..argc] + [Tok(w.q, w.eq)];
      argc := argc + 1;
      if argc >= MAXARGS { return Panic("too many args"); }
      t := ParseRedirs(line, w.next, found);
      if t.Missing? { return Panic("missing file for redirection"); }
      p, found := t.pos, t.list;
    }
    p := SkipSpaces(line, p);
    r := Ok(Wrap(Exec(argv[..argc]), found), p);
  }

  method ParseBlock(line: seq<char>, s: nat) returns (r: Result)
    requires s <= |line|
    ensures r == Block(line, s)
    decreases |line| - s, 0
  {
    hide Redirs, SkipSpace, Args;
    if !Peek(line, s, "(") { return Panic("parseblock"); }
    var t := NextToken(line, s);
    var inner := ParseLine(line, t.next);
    if inner.Panic? { return inner; }
    if !Peek(line, inner.pos, ")") { return Panic("syntax - missing )"); }
    t := NextToken(line, inner.pos);
    var f := ParseRedirs(line, t.next, []);
    if f.Missing? { return Panic("missing file for redirection"); }
    r := Ok(Wrap(inner.cmd, f.list), f.pos);
  }

  method ParsePipe(line: seq<char>, s: nat) returns (r: Result)
    requires s <= |line|
    ensures r == Pipeline(line, s)
    decreases |line| - s, 2
  {
    r := ParseExec(line, s);
    if r.Ok? && Peek(line, r.pos, "|") {
      var t := NextToken(line, r.pos);
      var right := ParsePipe(line, t.next);
      if right.Panic? { return right; }
      r := Ok(Pipe(r.cmd, right.cmd), right.pos);
    }
  }

  method ParseLine(line: seq<char>, s: nat) returns (r: Result)
    requires s <= |line|
    ensures r == Line(line, s)
    decreases |line| - s, 3
  {
    r := ParsePipe(line, s);
    if r.Panic? { return; }
    var c, p := r.cmd, r.pos;
    while Peek(line, p, "&")
      invariant s <= p <= |line| && Backs(line, p, c) == Backs(line, r.pos, r.cmd)
      decreases |line| - p
    {
      var t := NextToken(line, p);
      c, p := Back(c), t.next;
    }
    p := SkipSpaces(line, p);
    if Peek(line, p, ";") {
      var t := NextToken(line, p);
      var right := ParseLine(line, t.next);
      if right.Panic? { return right; }
      return Ok(List(c, right.cmd), right.pos);
    }
    r := Ok(c, p);
  }

  // Cutting the words off

  /** The words of a command. */
  function Toks(c: Cmd): (s: set<Tok>) {
    match c
    case Exec(argv) => set i | 0 <= i < |argv| :: argv[i]
    case Redir(d, file, _) => Toks(d) + {file}
    case Pipe(l, r) => Toks(l) + Toks(r)
    case List(l, r) => Toks(l) + Toks(r)
    case Back(d) => Toks(d)
  }

  lemma {:induction false} ToksOk(line: seq<char>, c: Cmd, t: Tok)
    requires CmdOk(line, c) && t in Toks(c)
    ensures TokOk(line, t)
  {
    match c
    case Exec(argv) =>
    case Redir(d, file, _) => if t in Toks(d) { ToksOk(line, d, t); }
    case Pipe(l, r) => if t in Toks(l) { ToksOk(line, l, t); } else { ToksOk(line, r, t); }
    case List(l, r) => if t in Toks(l) { ToksOk(line, l, t); } else { ToksOk(line, r, t); }
    case Back(d) => ToksOk(line, d, t);
  }

  /** Every word of c ends inside the buffer. */
  ghost predicate EndsIn(c: Cmd, n: nat) {
    forall t :: t in Toks(c) ==> t.eq < n
  }

  ghost predicate EndOf(c: Cmd, i: nat) {
    exists t :: t in Toks(c) && t.eq == i
  }

  /** nulterminate: a NUL after every word, and no other write. */
  method Nulterminate(buf: array<char>, c: Cmd)
    requires EndsIn(c, buf.Length)
    modifies buf
    ensures forall i :: 0 <= i < buf.Length ==> buf[i] == if EndOf(c, i) then NUL else old(buf[i])
    decreases c
  {
    match c
    case Exec(argv) =>
      assert forall k :: 0 <= k < |argv| ==> argv[k] in Toks(c);
      var i := 0;
      while i < |argv|
        invariant 0 <= i <= |argv|
        invariant forall j :: 0 <= j < buf.Length ==> buf[j] == if EndOf(Exec(argv[..i]), j) then NUL else old(buf[j])
      {
        buf[argv[i].eq] := NUL;
        OneMoreEnd(argv, i);
        i := i + 1;
      }
      assert argv[..i] == argv;
    case Redir(d, file, _) =>
      Nulterminate(buf, d);
      buf[file.eq] := NUL;
    case Pipe(l, r) =>
      Nulterminate(buf, l);
      Nulterminate(buf, r);
    case List(l, r) =>
      Nulterminate(buf, l);
      Nulterminate(buf, r);
    case Back(d) => Nulterminate(buf, d);
  }

  lemma OneMoreEnd(argv: seq<Tok>, i: nat)
    requires i < |argv|
    ensures forall j: nat :: EndOf(Exec(argv[..i + 1]), j) <==> EndOf(Exec(argv[..i]), j) || argv[i].eq == j
  {
    var a, b := argv[..i], argv[..i + 1];
    forall j: nat ensures EndOf(Exec(b), j) <==> EndOf(Exec(a), j) || argv[i].eq == j {
      if EndOf(Exec(b), j) {
        var t :| t in Toks(Exec(b)) && t.eq == j;
        var k :| 0 <= k < |b| && b[k] == t;
        if k < i { assert a[k] == t; assert t in Toks(Exec(a)); }
      }
      if EndOf(Exec(a), j) {
        var t :| t in Toks(Exec(a)) && t.eq == j;
        var k :| 0 <= k < |a| && a[k] == t;
        assert b[k] == t;
        assert t in Toks(Exec(b));
      }
      assert b[i] == argv[i] && argv[i] in Toks(Exec(b));
    }
  }

  /** The C string at q. */
  ghost predicate StringIs(buf: seq<char>, q: nat, w: string) {
    q + |w| < |buf| && buf[q..q + |w|] == w && buf[q + |w|] == NUL && NUL !in w
  }

  /** Cutting one word off damages no other: a NUL goes where no word has a character. */
  lemma WordsSurvive(line: seq<char>, c: Cmd, buf: seq<char>, t: Tok)
    requires CmdOk(line, c) && |line| < |buf| && NUL !in line && t in Toks(c)
    requires forall i :: 0 <= i < |line| ==> buf[i] == if EndOf(c, i) then NUL else line[i]
    requires buf[|line|] == NUL
    ensures TokOk(line, t) && StringIs(buf, t.q, WordAt(line, t))
  {
    ToksOk(line, c, t);
    forall i | t.q <= i < t.eq ensures buf[i] == line[i] {
      if EndOf(c, i) {
        var u :| u in Toks(c) && u.eq == i;
        ToksOk(line, c, u);
      }
    }
    assert EndOf(c, t.eq);
    assert buf[t.q..t.eq] == line[t.q..t.eq];
  }

  /** parsecmd on a buffer holding a NUL-terminated line: afterwards each word of the tree is a C string of its own. */
  method ParseCmd(buf: array<char>, n: nat) returns (r: Result)
    requires n < buf.Length && buf[n] == NUL && NUL !in buf[..n]
    modifies buf
    ensures r == Command(old(buf[..n]))
    ensures r.Panic? ==> buf[..] == old(buf[..])
    ensures r.Ok? ==> forall t :: t in Toks(r.cmd) ==>
                                    TokOk(old(buf[..n]), t) && StringIs(buf[..], t.q, WordAt(old(buf[..n]), t))
  {
    hide Line, TokOk, WordAt, StringIs, CmdOk;
    var line := buf[..n];
    r := ParseLine(line, 0);
    if r.Panic? { return; }
    var p := SkipSpaces(line, r.pos);
    if p != n { return Panic("syntax"); }
    EndsInside(line, r.cmd, buf.Length);
    Nulterminate(buf, r.cmd);
    forall t | t in Toks(r.cmd) ensures TokOk(line, t) && StringIs(buf[..], t.q, WordAt(line, t)) {
      WordsSurvive(line, r.cmd, buf[..], t);
    }
  }

  lemma EndsInside(line: seq<char>, c: Cmd, n: nat)
    requires CmdOk(line, c) && |line| < n
    ensures EndsIn(c, n)
  {
    forall t | t in Toks(c) ensures t.eq < n { ToksOk(line, c, t); }
  }
}
