/** The shell's lexer and parser (sh.c), against the texts that spell a sequence of tokens, a grammar, and a printer. */
module Shell {
  const MAXARGS := 10

  datatype Redir = Redir(file: string, input: bool)    // < file, or > file

  datatype Cmd =
    | Exec(argv: seq<string>)
    | Redirected(cmd: Cmd, redir: Redir)
    | Pipe(left: Cmd, right: Cmd)
    | List(left: Cmd, right: Cmd)
    | Back(cmd: Cmd)

  // ---- Tokens ----

  predicate IsSpace(c: char) { c == ' ' || c == '\t' || c == '\r' || c == '\n' || c == '\U{0B}' }

  predicate IsSymbol(c: char) {
    c == '<' || c == '|' || c == '>' || c == '&' || c == ';' || c == '(' || c == ')'
  }

  /** How many characters at the start of s are white space, and how many belong to a word. */
  function Spaces(s: string): (n: nat)
    ensures n <= |s| && (forall i :: 0 <= i < n ==> IsSpace(s[i])) && (n < |s| ==> !IsSpace(s[n]))
  {
    if s != "" && IsSpace(s[0]) then 1 + Spaces(s[1..]) else 0
  }

  predicate InWord(c: char) { !IsSpace(c) && !IsSymbol(c) }

  function WordLength(s: string): (n: nat)
    ensures n <= |s| && (forall i :: 0 <= i < n ==> InWord(s[i])) && (n < |s| ==> !InWord(s[n]))
  {
    if s != "" && InWord(s[0]) then 1 + WordLength(s[1..]) else 0
  }

  function Skip(s: string): (r: string)
    ensures |r| <= |s| && (r != "" ==> !IsSpace(r[0]))
  {
    s[Spaces(s)..]
  }

  /** What the parser sees next: the end, a symbol ('+' for >>) or a word. */
  datatype Token = End | Symbol(c: char) | Word(text: string)

  predicate Plain(w: string) { w != "" && forall i :: 0 <= i < |w| ==> InWord(w[i]) }

  predicate Good(t: Token) {
    match t
    case End => false
    case Symbol(c) => IsSymbol(c) || c == '+'
    case Word(w) => Plain(w)
  }

  type Lexeme = t: Token | Good(t) witness Symbol('<')

  /** The token at the start of a string that does not start with white space, and its length. */
  function First(s: string): (t: (Token, nat))
    ensures t.1 <= |s| && (t.0 == End <==> s == "") && (s != "" && !IsSpace(s[0]) ==> 0 < t.1 && Good(t.0))
  {
    if s == "" then (End, 0)
    else if s[0] == '>' && 1 < |s| && s[1] == '>' then (Symbol('+'), 2)
    else if IsSymbol(s[0]) then (Symbol(s[0]), 1)
    else (Word(s[..WordLength(s)]), WordLength(s))
  }

  /** gettoken: the next token and the input after it and the white space around it. */
  function Token1(s: string): (r: (Token, string))
    ensures |r.1| <= |s| && (r.0 == End <==> Skip(s) == "") && (r.0 != End ==> |r.1| < |s| && Good(r.0))
  {
    var t := First(Skip(s));
    (t.0, Skip(Skip(s)[t.1..]))
  }

  /** What gettoken gives, called again and again. */
  function Tokens(s: string): (ts: seq<Lexeme>)
    decreases |s|
  {
    hide Token1, Skip, Good;
    var (t, rest) := Token1(s);
    if t == End then [] else [t] + Tokens(rest)
  }

  // ---- What the tokens of a text are ----

  /** The text of a token itself. */
  function Own(t: Token): string {
    match t
    case End => ""
    case Symbol(c) => if c == '+' then ">>" else [c]
    case Word(w) => w
  }

  predicate Blank(s: string) { forall i :: 0 <= i < |s| ==> IsSpace(s[i]) }

  /** Token t ends where the text `after` begins: a word before the end, white space or a symbol, and > not before >. */
  predicate EndsBefore(t: Token, after: string) {
    after == "" || match t
                   case End => false
                   case Symbol(c) => c == '>' ==> after[0] != '>'
                   case Word(_) => !InWord(after[0])
  }

  /** The text consists of the tokens, in order, with any white space before, between and after them, also none. */
  ghost predicate Spells(s: string, ts: seq<Lexeme>)
    decreases |ts|
  {
    if ts == [] then Blank(s) else exists n: nat :: SpellsAt(s, ts, n)
  }

  ghost predicate SpellsAt(s: string, ts: seq<Lexeme>, n: nat)
    requires ts != []
    decreases |ts|, 0
  {
    var m := n + |Own(ts[0])|;
    && m <= |s| && Blank(s[..n]) && s[n..m] == Own(ts[0]) && EndsBefore(ts[0], s[m..])
    && Spells(s[m..], ts[1..])
  }

  lemma {:induction false} SkipNothing(s: string)
    requires s == "" || !IsSpace(s[0])
    ensures Skip(s) == s && Spaces(s) == 0
  {
  }

  lemma SkipTwice(s: string)
    ensures Skip(Skip(s)) == Skip(s)
  {
    SkipNothing(Skip(s));
  }

  /** Skipping white space first makes no difference to the tokens. */
  lemma TokensSkip(s: string)
    ensures Tokens(Skip(s)) == Tokens(s)
  {
    hide Skip, First;
    SkipTwice(s);
  }

  /** The token gettoken finds stands at the start of the text behind the white space, and ends where it should; what
    is left is the text after it without white space in front. */
  lemma TokenText(s: string)
    ensures var (t, r) := Token1(s);
      Own(t) <= Skip(s) && EndsBefore(t, Skip(s)[|Own(t)|..]) && r == Skip(Skip(s)[|Own(t)|..])
  {
    var k := Skip(s);
    hide Skip;
    if k != "" {
      FirstText(k);
    }
  }

  lemma FirstText(k: string)
    requires k != "" && !IsSpace(k[0])
    ensures var (t, n) := First(k); n == |Own(t)| && Own(t) <= k && EndsBefore(t, k[n..])
  {
  }

  lemma {:induction false} WordIs(w: string, after: string)
    requires (forall i :: 0 <= i < |w| ==> InWord(w[i])) && (after == "" || !InWord(after[0]))
    ensures WordLength(w + after) == |w|
  {
    if w != "" {
      WordIs(w[1..], after);
      assert (w + after)[1..] == w[1..] + after;
    } else {
      assert w + after == after;
    }
  }

  /** A token that ends where it should is the one found. */
  lemma FirstIs(t: Lexeme, after: string)
    requires EndsBefore(t, after)
    ensures First(Own(t) + after) == (t, |Own(t)|) && !IsSpace((Own(t) + after)[0])
  {
    var s := Own(t) + after;
    if t.Word? {
      assert s[0] == t.text[0] && InWord(t.text[0]);
      WordIs(t.text, after);
      assert s[..|t.text|] == t.text;
    }
  }

  lemma {:induction false} SpacesAre(s: string, n: nat)
    requires n <= |s| && Blank(s[..n]) && (n < |s| ==> !IsSpace(s[n]))
    ensures Spaces(s) == n
  {
    if n > 0 {
      assert IsSpace(s[..n][0]);
      assert s[1..][..n - 1] == s[..n][1..];
      SpacesAre(s[1..], n - 1);
    }
  }

  /** The first token gettoken finds is spelled. */
  lemma TokenSpelled(s: string) returns (m: nat)
    requires Skip(s) != ""
    ensures Spaces(s) < m <= |s| && Token1(s).1 == Skip(s[m..])
    ensures s[Spaces(s)..m] == Own(Token1(s).0) && EndsBefore(Token1(s).0, s[m..]) && Blank(s[..Spaces(s)])
  {
    hide Token1, EndsBefore, IsSpace, Own, Spaces;
    TokenText(s);
    var n, o, k := Spaces(s), Own(Token1(s).0), Skip(s);
    OwnText(Token1(s).0);
    m := n + |o|;
    assert k == s[n..] && o == k[..|o|];
    hide Skip;
    Suffix(s, n, m);
    assert s[n..m] == k[..|o|];
    assert forall i :: 0 <= i < n ==> s[..n][i] == s[i];
  }

  lemma OwnText(t: Token)
    requires Good(t)
    ensures Own(t) != ""
  {
  }

  lemma {:induction false} TokensSpell(s: string)
    ensures Spells(s, Tokens(s))
    decreases |s|
  {
    hide Token1, Own, EndsBefore, IsSpace, Spaces, First;
    if Skip(s) == "" {
      assert s[..|s|] == s;
    } else {
      var m := TokenSpelled(s);
      TokensSpell(s[m..]);
      TokensSkip(s[m..]);
      assert Tokens(s)[1..] == Tokens(s[m..]);
      assert SpellsAt(s, Tokens(s), Spaces(s));
    }
  }

  /** The first token that is spelled is the one gettoken finds. */
  lemma FirstSpelled(s: string, n: nat, t: Lexeme, after: string)
    requires n <= |s| && s[n..] == Own(t) + after && Blank(s[..n]) && EndsBefore(t, after)
    ensures Skip(s) != "" && Token1(s) == (t, Skip(after))
  {
    hide First, Own, EndsBefore, IsSpace;
    FirstIs(t, after);
    assert (Own(t) + after)[0] == s[n];
    SpacesAre(s, n);
    assert s[n..][|Own(t)|..] == after;
  }

  lemma BlankEnds(s: string)
    requires Blank(s)
    ensures Tokens(s) == []
  {
    hide First, IsSpace;
    assert s[..|s|] == s;
    SpacesAre(s, |s|);
  }

  lemma {:induction false} SpelledTokens(s: string, ts: seq<Lexeme>)
    requires Spells(s, ts)
    ensures Tokens(s) == ts
    decreases |ts|
  {
    hide Own, EndsBefore, Blank, Token1, Skip;
    if ts == [] {
      BlankEnds(s);
    } else {
      var n: nat :| SpellsAt(s, ts, n);
      var m := n + |Own(ts[0])|;
      assert s[n..] == s[n..m] + s[m..];
      FirstSpelled(s, n, ts[0], s[m..]);
      TokensSkip(s[m..]);
      SpelledTokens(s[m..], ts[1..]);
    }
  }

  /** Main result of lexing: the tokens of a text are the one sequence it spells. */
  lemma Lexed(s: string, ts: seq<Lexeme>)
    ensures Spells(s, ts) <==> Tokens(s) == ts
  {
    hide Spells, Tokens;
    TokensSpell(s);
    if Spells(s, ts) {
      SpelledTokens(s, ts);
    }
  }

  // ---- The parser ----

  /** The first character of a symbol. */
  function Lead(t: Token): char
    requires t.Symbol?
  {
    if t.c == '+' then '>' else t.c
  }

  /** peek: whether the next token is one of the symbols given. */
  predicate Sees(ts: seq<Lexeme>, toks: string) { ts != [] && ts[0].Symbol? && Lead(ts[0]) in toks }

  datatype Result<T> = Ok(value: T, rest: seq<Lexeme>) | Err(why: string)

  predicate PlainRedirs(rs: seq<Redir>) { forall r :: r in rs ==> Plain(r.file) }

  /** A redirection: its two tokens, and what it says. */
  predicate RedirFirst(ts: seq<Lexeme>) { |ts| >= 2 && Sees(ts, "<>") && ts[1].Word? }

  function FirstRedir(ts: seq<Lexeme>): Redir
    requires RedirFirst(ts)
  {
    Redir(ts[1].text, ts[0] == Symbol('<'))
  }

  /** parseredirs, with the redirections found so far. */
  function ParseRedirs(rs: seq<Redir>, ts: seq<Lexeme>): (r: Result<seq<Redir>>)
    ensures r.Ok? ==> |r.rest| <= |ts| && (PlainRedirs(rs) ==> PlainRedirs(r.value))
    decreases |ts|
  {
    if !Sees(ts, "<>") then Ok(rs, ts)
    else if !RedirFirst(ts) then Err("missing file for redirection")
    else ParseRedirs(rs + [FirstRedir(ts)], ts[2..])
  }

  function Wrap(c: Cmd, rs: seq<Redir>): Cmd {
    if rs == [] then c else Redirected(Wrap(c, rs[..|rs| - 1]), rs[|rs| - 1])
  }

  predicate PlainWords(ws: seq<string>) { |ws| < MAXARGS && forall w :: w in ws ==> Plain(w) }

  /** The loop of parseexec, with the arguments and redirections found so far. */
  function ParseArgs(argv: seq<string>, rs: seq<Redir>, ts: seq<Lexeme>): (r: Result<Cmd>)
    requires PlainWords(argv) && PlainRedirs(rs)
    ensures r.Ok? ==> |r.rest| <= |ts| && Printable(r.value)
    decreases |ts|, 0
  {
    if Sees(ts, "|)&;") || ts == [] then PrintableWrap(Exec(argv), rs); Ok(Wrap(Exec(argv), rs), ts)
    else if !ts[0].Word? then Err("syntax")
    else if |argv| + 1 >= MAXARGS then Err("too many args")
    else ParseWords(argv + [ts[0].text], rs, ts[1..])
  }

  /** Redirections, then the loop. */
  function ParseWords(argv: seq<string>, rs: seq<Redir>, ts: seq<Lexeme>): (r: Result<Cmd>)
    requires PlainWords(argv) && PlainRedirs(rs)
    ensures r.Ok? ==> |r.rest| <= |ts| && Printable(r.value)
    decreases |ts|, 1
  {
    match ParseRedirs(rs, ts)
    case Err(w) => Err(w)
    case Ok(rs', ts') => ParseArgs(argv, rs', ts')
  }

  function ParseExec(ts: seq<Lexeme>): (r: Result<Cmd>)
    ensures r.Ok? ==> |r.rest| <= |ts| && Printable(r.value)
    decreases |ts|, 2
  {
    if Sees(ts, "(") then ParseBlock(ts) else ParseWords([], [], ts)
  }

  function ParseBlock(ts: seq<Lexeme>): (r: Result<Cmd>)
    ensures r.Ok? ==> |r.rest| <= |ts| && Printable(r.value)
    decreases |ts|, 1
  {
    if !Sees(ts, "(") then Err("parseblock")
    else
      match ParseLine(ts[1..])
      case Err(w) => Err(w)
      case Ok(c, ts1) =>
        if !Sees(ts1, ")") then Err("syntax - missing )")
        else
          match ParseRedirs([], ts1[1..])
          case Err(w) => Err(w)
          case Ok(rs, ts2) => PrintableWrap(c, rs); Ok(Wrap(c, rs), ts2)
  }

  function ParsePipe(ts: seq<Lexeme>): (r: Result<Cmd>)
    ensures r.Ok? ==> |r.rest| <= |ts| && Printable(r.value)
    decreases |ts|, 3
  {
    match ParseExec(ts)
    case Err(w) => Err(w)
    case Ok(c, ts1) =>
      if !Sees(ts1, "|") then Ok(c, ts1)
      else
        match ParsePipe(ts1[1..])
        case Err(w) => Err(w)
        case Ok(d, ts2) => Ok(Pipe(c, d), ts2)
  }

  /** The rest of parseline: & any number of times, then perhaps ; and another line. */
  function ParseTail(c: Cmd, ts: seq<Lexeme>): (r: Result<Cmd>)
    requires Printable(c)
    ensures r.Ok? ==> |r.rest| <= |ts| && Printable(r.value)
    decreases |ts|, 4
  {
    if Sees(ts, "&") then ParseTail(Back(c), ts[1..])
    else if !Sees(ts, ";") then Ok(c, ts)
    else
      match ParseLine(ts[1..])
      case Err(w) => Err(w)
      case Ok(d, ts1) => Ok(List(c, d), ts1)
  }

  function ParseLine(ts: seq<Lexeme>): (r: Result<Cmd>)
    ensures r.Ok? ==> |r.rest| <= |ts| && Printable(r.value)
    decreases |ts|, 5
  {
    match ParsePipe(ts)
    case Err(w) => Err(w)
    case Ok(c, ts1) => ParseTail(c, ts1)
  }

  /** parsecmd: the whole input is one command line. */
  function ParseCmd(ts: seq<Lexeme>): (r: Result<Cmd>)
    ensures r.Ok? ==> r.rest == [] && Printable(r.value)
  {
    match ParseLine(ts)
    case Err(w) => Err(w)
    case Ok(c, ts1) => if ts1 == [] then Ok(c, []) else Err("syntax")
  }

  /** Commands the shell can have: at most 9 plain words each, and plain file names. */
  predicate Printable(c: Cmd) {
    match c
    case Exec(argv) => PlainWords(argv)
    case Redirected(d, r) => Printable(d) && Plain(r.file)
    case Pipe(l, r) => Printable(l) && Printable(r)
    case List(l, r) => Printable(l) && Printable(r)
    case Back(d) => Printable(d)
  }

  lemma PrintableWrap(c: Cmd, rs: seq<Redir>)
    requires Printable(c) && PlainRedirs(rs)
    ensures Printable(Wrap(c, rs))
  {
    if rs != [] {
      PrintableWrap(c, rs[..|rs| - 1]);
    }
  }

  // ---- The grammar ----

  /** Words and redirections in any order, and these words and redirections. */
  predicate Simple(ts: seq<Lexeme>) {
    ts == [] || (ts[0].Word? && Simple(ts[1..])) || (RedirFirst(ts) && Simple(ts[2..]))
  }

  function Args(ts: seq<Lexeme>): seq<string>
    requires Simple(ts)
  {
    if ts == [] then [] else if ts[0].Word? then [ts[0].text] + Args(ts[1..]) else Args(ts[2..])
  }

  function Reds(ts: seq<Lexeme>): seq<Redir>
    requires Simple(ts)
  {
    if ts == [] then [] else if ts[0].Word? then Reds(ts[1..]) else [FirstRedir(ts)] + Reds(ts[2..])
  }

  lemma SimpleNone()
    ensures Simple([]) && Args([]) == [] && Reds([]) == []
  {
  }

  lemma SimpleWord(t: Lexeme, ts: seq<Lexeme>)
    requires t.Word? && Simple(ts)
    ensures Simple([t] + ts) && Args([t] + ts) == [t.text] + Args(ts) && Reds([t] + ts) == Reds(ts)
  {
    assert ([t] + ts)[1..] == ts;
  }

  lemma SimpleRedir(ts: seq<Lexeme>, k: nat)
    requires RedirFirst(ts) && 2 <= k <= |ts| && Simple(ts[2..k])
    ensures Simple(ts[..k]) && Args(ts[..k]) == Args(ts[2..k]) && Reds(ts[..k]) == [FirstRedir(ts)] + Reds(ts[2..k])
  {
    assert ts[..k][2..] == ts[2..k];
  }

  /** The redirections behind a block. */
  predicate OnlyRedirs(ts: seq<Lexeme>) { Simple(ts) && Args(ts) == [] }

  /** Tokens ts are a single command: words and redirections, or a line in parentheses with redirections. */
  ghost predicate IsExec(ts: seq<Lexeme>, c: Cmd)
    decreases |ts|, 0
  {
    || (Simple(ts) && |Args(ts)| < MAXARGS && c == Wrap(Exec(Args(ts)), Reds(ts)))
    || exists j: nat, b :: IsBlock(ts, c, j, b)
  }

  ghost predicate IsBlock(ts: seq<Lexeme>, c: Cmd, j: nat, b: Cmd)
    decreases |ts|, 0, 0
  {
    && 0 < j < |ts| && ts[0] == Symbol('(') && ts[j] == Symbol(')') && IsLine(ts[1..j], b)
    && OnlyRedirs(ts[j + 1..]) && c == Wrap(b, Reds(ts[j + 1..]))
  }

  /** A pipeline: single commands with | between them, grouped to the right. */
  ghost predicate IsPipe(ts: seq<Lexeme>, c: Cmd)
    decreases |ts|, 1
  {
    IsExec(ts, c) || exists i: nat :: BarAt(ts, c, i)
  }

  ghost predicate BarAt(ts: seq<Lexeme>, c: Cmd, i: nat)
    decreases |ts|, 0, 1
  {
    c.Pipe? && i < |ts| && ts[i] == Symbol('|') && IsExec(ts[..i], c.left) && IsPipe(ts[i + 1..], c.right)
  }

  /** A pipeline with any number of & behind it. */
  ghost predicate IsBack(ts: seq<Lexeme>, c: Cmd)
    decreases |ts|, 2
  {
    || IsPipe(ts, c)
    || (c.Back? && ts != [] && ts[|ts| - 1] == Symbol('&') && IsBack(ts[..|ts| - 1], c.cmd))
  }

  /** A line: such pipelines with ; between them, grouped to the right. */
  ghost predicate IsLine(ts: seq<Lexeme>, c: Cmd)
    decreases |ts|, 3
  {
    IsBack(ts, c) || exists i: nat :: SemicolonAt(ts, c, i)
  }

  ghost predicate SemicolonAt(ts: seq<Lexeme>, c: Cmd, i: nat)
    decreases |ts|, 2, 1
  {
    c.List? && i < |ts| && ts[i] == Symbol(';') && IsBack(ts[..i], c.left) && IsLine(ts[i + 1..], c.right)
  }

  // ---- The parser finds what the grammar allows ----

  /** What may follow a command, a pipeline and a line. */
  predicate Follows(ts: seq<Lexeme>, toks: string) { ts == [] || Sees(ts, toks) }

  lemma {:induction false} RedirsParsed(rs0: seq<Redir>, ts: seq<Lexeme>, rest: seq<Lexeme>)
    requires OnlyRedirs(ts) && !Sees(rest, "<>")
    ensures ParseRedirs(rs0, ts + rest) == Ok(rs0 + Reds(ts), rest)
    decreases |ts|
  {
    if ts == [] {
      assert ts + rest == rest && rs0 + [] == rs0;
    } else {
      assert RedirFirst(ts) && (ts + rest)[..2] == ts[..2] && (ts + rest)[2..] == ts[2..] + rest;
      RedirsParsed(rs0 + [FirstRedir(ts)], ts[2..], rest);
      assert rs0 + [FirstRedir(ts)] + Reds(ts[2..]) == rs0 + Reds(ts);
    }
  }

  // One token or redirection more.

  lemma WordFirst(argv: seq<string>, rs: seq<Redir>, ts: seq<Lexeme>)
    requires PlainWords(argv) && PlainRedirs(rs) && ts != [] && ts[0].Word?
    ensures |argv| + 1 < MAXARGS ==> PlainWords(argv + [ts[0].text])
    ensures ParseWords(argv, rs, ts) ==
            if |argv| + 1 >= MAXARGS then Err("too many args") else ParseWords(argv + [ts[0].text], rs, ts[1..])
  {
    hide Wrap, Plain, Printable;
  }

  lemma RedirNext(argv: seq<string>, rs: seq<Redir>, ts: seq<Lexeme>)
    requires PlainWords(argv) && PlainRedirs(rs) && RedirFirst(ts)
    ensures PlainRedirs(rs + [FirstRedir(ts)])
    ensures ParseWords(argv, rs, ts) == ParseWords(argv, rs + [FirstRedir(ts)], ts[2..])
  {
    hide Wrap, Printable;
  }

  lemma WordsEnd(argv: seq<string>, rs: seq<Redir>, ts: seq<Lexeme>)
    requires PlainWords(argv) && PlainRedirs(rs) && (ts != [] ==> !ts[0].Word?) && !RedirFirst(ts)
    ensures ParseWords(argv, rs, ts).Ok? <==> Follows(ts, "|)&;")
    ensures Follows(ts, "|)&;") ==> ParseWords(argv, rs, ts) == Ok(Wrap(Exec(argv), rs), ts)
  {
    hide Wrap, Plain, Printable;
  }

  /** Parsing gives the words and redirections found so far and those of ts, and the rest. */
  ghost predicate Reads(argv: seq<string>, rs: seq<Redir>, ts: seq<Lexeme>, all: seq<Lexeme>, rest: seq<Lexeme>)
    requires PlainWords(argv) && PlainRedirs(rs) && Simple(ts)
  {
    ParseWords(argv, rs, all) == Ok(Wrap(Exec(argv + Args(ts)), rs + Reds(ts)), rest)
  }

  lemma ReadsNone(argv: seq<string>, rs: seq<Redir>, rest: seq<Lexeme>)
    requires PlainWords(argv) && PlainRedirs(rs) && Follows(rest, "|)&;")
    ensures Simple([]) && Reads(argv, rs, [], rest, rest)
  {
    hide Wrap, ParseWords, PlainWords, PlainRedirs;
    WordsEnd(argv, rs, rest);
    assert argv + Args([]) == argv && rs + Reds([]) == rs;
  }

  lemma ReadsWord(argv: seq<string>, rs: seq<Redir>, t: Lexeme, ts: seq<Lexeme>, all: seq<Lexeme>, rest: seq<Lexeme>)
    requires PlainWords(argv) && PlainRedirs(rs) && t.Word? && |argv| + 1 < MAXARGS && PlainWords(argv + [t.text])
    requires Simple(ts) && Reads(argv + [t.text], rs, ts, all, rest)
    ensures Simple([t] + ts) && Reads(argv, rs, [t] + ts, [t] + all, rest)
  {
    hide Wrap, ParseWords, PlainWords, PlainRedirs, Simple, Args, Reds;
    SimpleWord(t, ts);
    WordFirst(argv, rs, [t] + all);
    assert ([t] + all)[1..] == all;
    assert argv + [t.text] + Args(ts) == argv + ([t.text] + Args(ts));
  }

  lemma ReadsRedir(argv: seq<string>, rs: seq<Redir>, a: Lexeme, b: Lexeme, ts: seq<Lexeme>, all: seq<Lexeme>,
                   rest: seq<Lexeme>)
    requires PlainWords(argv) && PlainRedirs(rs) && RedirFirst([a, b]) && PlainRedirs(rs + [FirstRedir([a, b])])
    requires Simple(ts) && Reads(argv, rs + [FirstRedir([a, b])], ts, all, rest)
    ensures Simple([a, b] + ts) && Reads(argv, rs, [a, b] + ts, [a, b] + all, rest)
  {
    hide Wrap, ParseWords, PlainWords, PlainRedirs, Simple, Args, Reds, Sees;
    var r := FirstRedir([a, b]);
    SameRedir([a, b], ts);
    SameRedir([a, b], all);
    var both := [a, b] + ts;
    assert both[..|both|] == both && both[2..|both|] == ts && [a, b][2..] == [];
    SimpleRedir(both, |both|);
    RedirNext(argv, rs, [a, b] + all);
    assert ([a, b] + all)[2..] == all;
    assert rs + [r] + Reds(ts) == rs + ([r] + Reds(ts));
  }

  lemma {:induction false} WordsParsed(argv: seq<string>, rs0: seq<Redir>, ts: seq<Lexeme>, rest: seq<Lexeme>)
    requires PlainWords(argv) && PlainRedirs(rs0) && Follows(rest, "|)&;")
    requires Simple(ts) && |argv| + |Args(ts)| < MAXARGS
    ensures Reads(argv, rs0, ts, ts + rest, rest)
    decreases |ts|
  {
    hide Reads, PlainWords, PlainRedirs, Sees, Wrap;
    if ts == [] {
      assert ts + rest == rest;
      ReadsNone(argv, rs0, rest);
    } else if ts[0].Word? {
      var more := ts[1..];
      PlainMore(argv, ts[0]);
      WordsParsed(argv + [ts[0].text], rs0, more, rest);
      ReadsWord(argv, rs0, ts[0], more, more + rest, rest);
      assert [ts[0]] + more == ts && [ts[0]] + (more + rest) == ts + rest;
    } else {
      var a, b, more := ts[0], ts[1], ts[2..];
      FirstTwo(ts);
      assert ts[..2] == [a, b];
      PlainMoreRedirs(rs0, ts);
      WordsParsed(argv, rs0 + [FirstRedir(ts)], more, rest);
      ReadsRedir(argv, rs0, a, b, more, more + rest, rest);
      assert [a, b] + more == ts && [a, b] + (more + rest) == ts + rest;
    }
  }

  lemma PlainMore(argv: seq<string>, t: Lexeme)
    requires PlainWords(argv) && |argv| + 1 < MAXARGS && t.Word?
    ensures PlainWords(argv + [t.text])
  {
  }

  lemma PlainMoreRedirs(rs: seq<Redir>, ts: seq<Lexeme>)
    requires PlainRedirs(rs) && RedirFirst(ts)
    ensures PlainRedirs(rs + [FirstRedir(ts)])
  {
  }

  lemma FirstTwo(ts: seq<Lexeme>)
    requires RedirFirst(ts)
    ensures RedirFirst(ts[..2]) && FirstRedir(ts[..2]) == FirstRedir(ts)
  {
  }

  lemma SameRedir(ts: seq<Lexeme>, rest: seq<Lexeme>)
    requires RedirFirst(ts)
    ensures RedirFirst(ts + rest) && FirstRedir(ts + rest) == FirstRedir(ts) && (ts + rest)[2..] == ts[2..] + rest
  {
  }

  lemma ExecParsed(ts: seq<Lexeme>, c: Cmd, rest: seq<Lexeme>)
    requires IsExec(ts, c) && Follows(rest, "|)&;")
    ensures ParseExec(ts + rest) == Ok(c, rest)
    decreases |ts|, 0
  {
    hide IsLine, ParseWords, Wrap, ParseLine, ParseRedirs, Plain, Printable;
    if Simple(ts) && |Args(ts)| < MAXARGS && c == Wrap(Exec(Args(ts)), Reds(ts)) {
      WordsParsed([], [], ts, rest);
      assert [] + Args(ts) == Args(ts) && [] + Reds(ts) == Reds(ts);
      assert ts == [] ==> ts + rest == rest;
    } else {
      var j: nat, b :| IsBlock(ts, c, j, b);
      BlockParsed(ts, c, j, b, rest);
    }
  }

  lemma BlockParsed(ts: seq<Lexeme>, c: Cmd, j: nat, b: Cmd, rest: seq<Lexeme>)
    requires IsBlock(ts, c, j, b) && Follows(rest, "|)&;")
    ensures ParseExec(ts + rest) == Ok(c, rest)
    decreases |ts|, 0, 0
  {
    hide IsLine, ParseWords, Wrap, ParseLine, ParseRedirs, Plain, Printable;
    var inner, tail := ts[1..j], ts[j + 1..];
    var more := [Symbol(')')] + (tail + rest);
    LineParsed(inner, b, more);
    assert (ts + rest)[0] == ts[0] && (ts + rest)[1..] == inner + more;
    assert more[1..] == tail + rest;
    RedirsParsed([], tail, rest);
    assert [] + Reds(tail) == Reds(tail);
  }

  lemma PipeParsed(ts: seq<Lexeme>, c: Cmd, rest: seq<Lexeme>)
    requires IsPipe(ts, c) && Follows(rest, ")&;")
    ensures ParsePipe(ts + rest) == Ok(c, rest)
    decreases |ts|, 1
  {
    hide IsExec, ParseExec, Printable;
    if IsExec(ts, c) {
      ExecParsed(ts, c, rest);
    } else {
      var i: nat :| BarAt(ts, c, i);
      BarParsed(ts, c, i, rest);
    }
  }

  lemma BarParsed(ts: seq<Lexeme>, c: Cmd, i: nat, rest: seq<Lexeme>)
    requires BarAt(ts, c, i) && Follows(rest, ")&;")
    ensures ParsePipe(ts + rest) == Ok(c, rest)
    decreases |ts|, 0, 1
  {
    hide IsExec, ParseExec, Printable, IsPipe;
    var right := ts[i + 1..] + rest;
    var more := [Symbol('|')] + right;
    assert ts + rest == ts[..i] + more && more[1..] == right;
    ExecParsed(ts[..i], c.left, more);
    PipeParsed(ts[i + 1..], c.right, rest);
  }

  lemma BackParsed(ts: seq<Lexeme>, c: Cmd, rest: seq<Lexeme>)
    requires IsBack(ts, c) && Follows(rest, ")&;")
    ensures Printable(c) && ParseLine(ts + rest) == ParseTail(c, rest)
    decreases |ts|, 2
  {
    hide IsPipe, ParsePipe;
    if IsPipe(ts, c) {
      PipeParsed(ts, c, rest);
    } else {
      var n := |ts| - 1;
      assert ts + rest == ts[..n] + ([ts[n]] + rest) && ([ts[n]] + rest)[1..] == rest;
      BackParsed(ts[..n], c.cmd, [ts[n]] + rest);
    }
  }

  lemma LineParsed(ts: seq<Lexeme>, c: Cmd, rest: seq<Lexeme>)
    requires IsLine(ts, c) && Follows(rest, ")")
    ensures ParseLine(ts + rest) == Ok(c, rest)
    decreases |ts|, 3
  {
    hide IsBack, ParsePipe;
    if IsBack(ts, c) {
      BackParsed(ts, c, rest);
    } else {
      var i: nat :| SemicolonAt(ts, c, i);
      var more := [Symbol(';')] + (ts[i + 1..] + rest);
      assert ts + rest == ts[..i] + more && more[1..] == ts[i + 1..] + rest;
      BackParsed(ts[..i], c.left, more);
      LineParsed(ts[i + 1..], c.right, rest);
    }
  }

  // ---- What the parser finds is in the grammar ----

  /** The result uses the first k tokens. */
  predicate Uses<T>(r: Result<T>, ts: seq<Lexeme>, k: nat) { r.Ok? && k <= |ts| && r.rest == ts[k..] }

  lemma {:induction false} RedirsSound(rs0: seq<Redir>, ts: seq<Lexeme>) returns (k: nat)
    requires ParseRedirs(rs0, ts).Ok?
    ensures var r := ParseRedirs(rs0, ts);
      Uses(r, ts, k) && OnlyRedirs(ts[..k]) && r.value == rs0 + Reds(ts[..k])
    decreases |ts|
  {
    hide Simple, Args, Reds, Sees, FirstRedir;
    SimpleNone();
    if !Sees(ts, "<>") {
      k := 0;
      assert ts[..0] == [] && ts[0..] == ts && rs0 + [] == rs0;
    } else {
      var n := RedirsSound(rs0 + [FirstRedir(ts)], ts[2..]);
      k := n + 2;
      assert ts[2..][..n] == ts[2..k] && ts[2..][n..] == ts[k..];
      SimpleRedir(ts, k);
      assert rs0 + [FirstRedir(ts)] + Reds(ts[2..k]) == rs0 + Reds(ts[..k]);
    }
  }

  lemma {:induction false} WordsSound(argv: seq<string>, rs0: seq<Redir>, ts: seq<Lexeme>) returns (k: nat)
    requires PlainWords(argv) && PlainRedirs(rs0) && ParseWords(argv, rs0, ts).Ok?
    ensures k <= |ts| && Simple(ts[..k]) && |argv| + |Args(ts[..k])| < MAXARGS
    ensures Reads(argv, rs0, ts[..k], ts, ts[k..])
    decreases |ts|
  {
    hide Reads, PlainWords, PlainRedirs, Sees, Wrap, ParseWords, Simple, Args, Reds;
    if ts != [] && ts[0].Word? {
      WordFirst(argv, rs0, ts);
      PlainMore(argv, ts[0]);
      var n := WordsSound(argv + [ts[0].text], rs0, ts[1..]);
      k := n + 1;
      SimpleWord(ts[0], ts[1..][..n]);
      ReadsWord(argv, rs0, ts[0], ts[1..][..n], ts[1..], ts[1..][n..]);
      assert ts[..k] == [ts[0]] + ts[1..][..n] && ts[1..][n..] == ts[k..] && [ts[0]] + ts[1..] == ts;
    } else if RedirFirst(ts) {
      RedirNext(argv, rs0, ts);
      var n := WordsSound(argv, rs0 + [FirstRedir(ts)], ts[2..]);
      k := n + 2;
      RedirSound(argv, rs0, ts, n);
    } else {
      WordsEnd(argv, rs0, ts);
      SimpleNone();
      k := 0;
      assert ts[..0] == [] && ts[0..] == ts && |argv| < MAXARGS by { FewWords(argv); }
      ReadsNone(argv, rs0, ts);
    }
  }

  lemma FewWords(argv: seq<string>)
    requires PlainWords(argv)
    ensures |argv| < MAXARGS
  {
  }

  lemma RedirSound(argv: seq<string>, rs: seq<Redir>, ts: seq<Lexeme>, n: nat)
    requires PlainWords(argv) && PlainRedirs(rs) && RedirFirst(ts) && PlainRedirs(rs + [FirstRedir(ts)])
    requires n <= |ts| - 2 && Simple(ts[2..][..n])
    requires Reads(argv, rs + [FirstRedir(ts)], ts[2..][..n], ts[2..], ts[2..][n..])
    ensures Simple(ts[..n + 2]) && Args(ts[..n + 2]) == Args(ts[2..][..n])
    ensures Reads(argv, rs, ts[..n + 2], ts, ts[n + 2..])
  {
    hide Reads, PlainWords, PlainRedirs, Sees, Wrap, ParseWords, Simple, Args, Reds;
    var a, b := ts[0], ts[1];
    FirstTwo(ts);
    assert ts[..2] == [a, b];
    assert ts[2..][..n] == ts[2..n + 2];
    SimpleRedir(ts, n + 2);
    ReadsRedir(argv, rs, a, b, ts[2..][..n], ts[2..], ts[2..][n..]);
    assert [a, b] + ts[2..][..n] == ts[..n + 2] && [a, b] + ts[2..] == ts && ts[2..][n..] == ts[n + 2..];
  }

  lemma ExecSound(ts: seq<Lexeme>) returns (k: nat)
    requires ParseExec(ts).Ok?
    ensures Uses(ParseExec(ts), ts, k) && IsExec(ts[..k], ParseExec(ts).value)
    decreases |ts|, 2
  {
    hide IsLine, ParseWords, Wrap, ParseLine, ParseRedirs, Plain, Printable;
    if Sees(ts, "(") {
      k := BlockSound(ts);
    } else {
      k := WordsSound([], [], ts);
      assert [] + Args(ts[..k]) == Args(ts[..k]) && [] + Reds(ts[..k]) == Reds(ts[..k]);
    }
  }

  lemma BlockSound(ts: seq<Lexeme>) returns (k: nat)
    requires ParseBlock(ts).Ok?
    ensures Uses(ParseBlock(ts), ts, k) && IsExec(ts[..k], ParseBlock(ts).value)
    decreases |ts|, 1
  {
    hide IsLine, Wrap, ParseLine, ParseRedirs, Plain, Printable, Simple, Args, Reds;
    var m := LineSound(ts[1..]);
    var line := ParseLine(ts[1..]);
    var j := m + 1;
    assert line.rest == ts[1..][m..] == ts[j..];
    assert line.rest[1..] == ts[j + 1..];
    var n := RedirsSound([], ts[j + 1..]);
    k := j + 1 + n;
    var tail := ts[j + 1..][..n];
    assert [] + Reds(tail) == Reds(tail);
    assert ts[j + 1..][n..] == ts[k..];
    BlockIs(ts[..k], line.value, j, ts[1..][..m], tail);
  }

  lemma BlockIs(ts: seq<Lexeme>, b: Cmd, j: nat, inner: seq<Lexeme>, tail: seq<Lexeme>)
    requires ts == [Symbol('(')] + inner + [Symbol(')')] + tail && j == |inner| + 1
    requires IsLine(inner, b) && OnlyRedirs(tail)
    ensures IsExec(ts, Wrap(b, Reds(tail)))
  {
    hide IsLine, Wrap, Simple, Args, Reds;
    assert ts[1..j] == inner && ts[j + 1..] == tail;
    assert IsBlock(ts, Wrap(b, Reds(tail)), j, b);
  }

  lemma PipeSound(ts: seq<Lexeme>) returns (k: nat)
    requires ParsePipe(ts).Ok?
    ensures Uses(ParsePipe(ts), ts, k) && IsPipe(ts[..k], ParsePipe(ts).value)
    decreases |ts|, 3
  {
    hide IsExec, ParseExec, Printable;
    var m := ExecSound(ts);
    if Sees(ts[m..], "|") {
      assert ts[m..][1..] == ts[m + 1..];
      var n := PipeSound(ts[m + 1..]);
      k := m + 1 + n;
      assert ts[..k][..m] == ts[..m] && ts[..k][m + 1..] == ts[m + 1..][..n] && ts[m + 1..][n..] == ts[k..];
      assert BarAt(ts[..k], ParsePipe(ts).value, m);
    } else {
      k := m;
    }
  }

  lemma AmpersandIs(u: seq<Lexeme>, c: Cmd)
    requires IsBack(u, c)
    ensures IsBack(u + [Symbol('&')], Back(c))
  {
    hide IsPipe;
    assert (u + [Symbol('&')])[..|u|] == u;
  }

  lemma SemicolonIs(u: seq<Lexeme>, c: Cmd, v: seq<Lexeme>, d: Cmd)
    requires IsBack(u, c) && IsLine(v, d)
    ensures IsLine(u + [Symbol(';')] + v, List(c, d))
  {
    hide IsBack;
    var ts := u + [Symbol(';')] + v;
    assert ts[..|u|] == u && ts[|u| + 1..] == v;
    assert SemicolonAt(ts, List(c, d), |u|);
  }

  lemma BackIsLine(u: seq<Lexeme>, c: Cmd)
    requires IsBack(u, c)
    ensures IsLine(u, c)
  {
  }

  /** With tokens u before them that are the pipeline parsed so far. */
  lemma TailSound(u: seq<Lexeme>, c: Cmd, ts: seq<Lexeme>) returns (k: nat)
    requires IsBack(u, c) && Printable(c) && ParseTail(c, ts).Ok?
    ensures Uses(ParseTail(c, ts), ts, k) && IsLine(u + ts[..k], ParseTail(c, ts).value)
    decreases |ts|, 4
  {
    hide IsBack, IsLine, ParseLine, Printable;
    if Sees(ts, "&") {
      assert ts[0] == Symbol('&');
      AmpersandIs(u, c);
      BackPrintable(c);
      var n := TailSound(u + [ts[0]], Back(c), ts[1..]);
      k := n + 1;
      assert u + [ts[0]] + ts[1..][..n] == u + ts[..k] && ts[1..][n..] == ts[k..];
    } else if !Sees(ts, ";") {
      k := 0;
      assert u + ts[..0] == u;
      BackIsLine(u, c);
    } else {
      assert ts[0] == Symbol(';');
      var n := LineSound(ts[1..]);
      k := n + 1;
      SemicolonIs(u, c, ts[1..][..n], ParseLine(ts[1..]).value);
      assert u + ts[..k] == u + [ts[0]] + ts[1..][..n] && ts[1..][n..] == ts[k..];
    }
  }

  lemma LineSound(ts: seq<Lexeme>) returns (k: nat)
    requires ParseLine(ts).Ok?
    ensures Uses(ParseLine(ts), ts, k) && IsLine(ts[..k], ParseLine(ts).value)
    decreases |ts|, 5
  {
    hide IsPipe, ParsePipe, ParseTail, Printable, IsLine;
    var m := PipeSound(ts);
    var n := TailSound(ts[..m], ParsePipe(ts).value, ts[m..]);
    k := m + n;
    assert ts[..m] + ts[m..][..n] == ts[..k] && ts[m..][n..] == ts[k..];
  }

  /** Main result of parsing: tokens are parsed, to a command, exactly when the grammar makes them that command. */
  lemma ParsesExactly(ts: seq<Lexeme>, c: Cmd)
    ensures ParseCmd(ts) == Ok(c, []) <==> IsLine(ts, c)
  {
    hide ParseLine, IsLine;
    if IsLine(ts, c) {
      LineParsed(ts, c, []);
      assert ts + [] == ts;
    }
    if ParseCmd(ts) == Ok(c, []) {
      var k := LineSound(ts);
      assert ts[..|ts|] == ts;
    }
  }

  /** So the grammar is unambiguous. */
  lemma Unambiguous(ts: seq<Lexeme>, c: Cmd, d: Cmd)
    requires IsLine(ts, c) && IsLine(ts, d)
    ensures c == d
  {
    hide ParseCmd, IsLine;
    ParsesExactly(ts, c);
    ParsesExactly(ts, d);
  }

  // ---- The printer ----

  function RedirTokens(rs: seq<Redir>): seq<Lexeme>
    requires PlainRedirs(rs)
  {
    if rs == [] then []
    else
      assert rs[0] in rs;
      [Symbol(if rs[0].input then '<' else '>'), Word(rs[0].file)] + RedirTokens(rs[1..])
  }

  function WordTokens(ws: seq<string>): seq<Lexeme>
    requires forall w :: w in ws ==> Plain(w)
  {
    if ws == [] then [] else assert ws[0] in ws; [Word(ws[0])] + WordTokens(ws[1..])
  }

  function Size(c: Cmd): nat {
    match c
    case Exec(_) => 1
    case Redirected(d, _) => 1 + Size(d)
    case Pipe(l, r) => 1 + Size(l) + Size(r)
    case List(l, r) => 1 + Size(l) + Size(r)
    case Back(d) => 1 + Size(d)
  }

  /** A command without its outermost redirections, and these redirections. */
  function Base(c: Cmd): (b: Cmd)
    ensures Size(b) <= Size(c) && !b.Redirected? && (c.Redirected? ==> Size(b) < Size(c))
    ensures (Printable(c) ==> Printable(b)) && (!c.Redirected? ==> b == c)
  {
    if c.Redirected? then Base(c.cmd) else c
  }

  function Redirs(c: Cmd): (rs: seq<Redir>)
    ensures Wrap(Base(c), rs) == c && (Printable(c) ==> PlainRedirs(rs))
  {
    if c.Redirected? then Redirs(c.cmd) + [c.redir] else []
  }

  /** The tokens of a command where a line, a line without ;, a pipeline and a single command are expected;
    parentheses are put where one of the others is needed. */
  function PrintLine(c: Cmd): seq<Lexeme>
    requires Printable(c)
    decreases Size(c), 3
  {
    if c.List? then PrintBack(c.left) + [Symbol(';')] + PrintLine(c.right) else PrintBack(c)
  }

  function PrintBack(c: Cmd): seq<Lexeme>
    requires Printable(c)
    decreases Size(c), if c.List? then 6 else 2
  {
    if c.Back? then PrintBack(c.cmd) + [Symbol('&')] else PrintPipe(c)
  }

  function PrintPipe(c: Cmd): seq<Lexeme>
    requires Printable(c)
    decreases Size(c), if c.List? || c.Back? then 5 else 1
  {
    if c.Pipe? then PrintExec(c.left) + [Symbol('|')] + PrintPipe(c.right) else PrintExec(c)
  }

  function PrintExec(c: Cmd): seq<Lexeme>
    requires Printable(c)
    decreases Size(c), if c.Exec? || c.Redirected? then 0 else 4
  {
    var b := Base(c);
    if b.Exec? then WordTokens(b.argv) + RedirTokens(Redirs(c))
    else [Symbol('(')] + PrintLine(b) + [Symbol(')')] + RedirTokens(Redirs(c))
  }

  // What is printed is in the grammar.

  lemma RedirsPrinted(rs: seq<Redir>)
    requires PlainRedirs(rs)
    ensures OnlyRedirs(RedirTokens(rs)) && Reds(RedirTokens(rs)) == rs
  {
    if rs != [] {
      RedirsPrinted(rs[1..]);
      assert RedirTokens(rs)[2..] == RedirTokens(rs[1..]);
      assert [rs[0]] + rs[1..] == rs;
    }
  }

  lemma {:induction false} WordsPrinted(ws: seq<string>, ts: seq<Lexeme>)
    requires (forall w :: w in ws ==> Plain(w)) && OnlyRedirs(ts)
    ensures var all := WordTokens(ws) + ts; Simple(all) && Args(all) == ws && Reds(all) == Reds(ts)
    decreases |ws|
  {
    hide Simple, Args, Reds, Plain;
    if ws == [] {
      assert WordTokens(ws) + ts == ts;
    } else {
      WordsPrinted(ws[1..], ts);
      assert ws[0] in ws;
      var t := WordTokens(ws)[0];
      assert WordTokens(ws) + ts == [t] + (WordTokens(ws[1..]) + ts);
      SimpleWord(t, WordTokens(ws[1..]) + ts);
      assert [ws[0]] + ws[1..] == ws;
    }
  }

  lemma ExecPrinted(c: Cmd)
    requires Printable(c)
    ensures IsExec(PrintExec(c), c)
    decreases Size(c), if c.Exec? || c.Redirected? then 0 else 4
  {
    hide IsLine, Wrap, Plain, Simple, Args, Reds, PrintLine, RedirTokens, WordTokens;
    var b, rs := Base(c), Redirs(c);
    RedirsPrinted(rs);
    if b.Exec? {
      WordsPrinted(b.argv, RedirTokens(rs));
    } else {
      LinePrinted(b);
      BlockIs(PrintExec(c), b, |PrintLine(b)| + 1, PrintLine(b), RedirTokens(rs));
    }
  }

  lemma PipePrinted(c: Cmd)
    requires Printable(c)
    ensures IsPipe(PrintPipe(c), c)
    decreases Size(c), if c.List? || c.Back? then 5 else 1
  {
    hide IsExec, PrintExec;
    if c.Pipe? {
      ExecPrinted(c.left);
      PipePrinted(c.right);
      var ts, i := PrintPipe(c), |PrintExec(c.left)|;
      assert ts[..i] == PrintExec(c.left) && ts[i] == Symbol('|') && ts[i + 1..] == PrintPipe(c.right);
      assert BarAt(ts, c, i);
    } else {
      ExecPrinted(c);
    }
  }

  lemma BackPrinted(c: Cmd)
    requires Printable(c)
    ensures IsBack(PrintBack(c), c)
    decreases Size(c), if c.List? then 6 else 2
  {
    hide IsPipe, PrintPipe;
    if c.Back? {
      BackPrinted(c.cmd);
      AmpersandIs(PrintBack(c.cmd), c.cmd);
    } else {
      PipePrinted(c);
    }
  }

  lemma LinePrinted(c: Cmd)
    requires Printable(c)
    ensures IsLine(PrintLine(c), c)
    decreases Size(c), 3
  {
    hide IsBack, PrintBack;
    if c.List? {
      BackPrinted(c.left);
      LinePrinted(c.right);
      SemicolonIs(PrintBack(c.left), c.left, PrintLine(c.right), c.right);
    } else {
      BackPrinted(c);
    }
  }

  /** Printing a command, as a text with any white space, and parsing the text gives the command and uses all input. */
  lemma RoundTrip(c: Cmd, s: string)
    requires Printable(c) && Spells(s, PrintLine(c))
    ensures ParseCmd(Tokens(s)) == Ok(c, [])
  {
    hide ParseCmd, PrintLine, Spells, Tokens, IsLine;
    Lexed(s, PrintLine(c));
    LinePrinted(c);
    ParsesExactly(PrintLine(c), c);
  }

  /** A text of a token sequence: every token followed by a space. */
  function Render(ts: seq<Lexeme>): string {
    if ts == [] then "" else Own(ts[0]) + " " + Render(ts[1..])
  }

  lemma {:induction false} Rendered(ts: seq<Lexeme>)
    ensures Spells(Render(ts), ts) && Spells(" " + Render(ts), ts)
    decreases |ts|
  {
    if ts != [] {
      hide Own, Spells, IsSpace;
      Rendered(ts[1..]);
      RenderedFirst(ts, "");
      RenderedFirst(ts, " ");
      assert "" + Render(ts) == Render(ts);
    }
  }

  lemma SpaceEnds(t: Lexeme, after: string)
    requires after != "" && after[0] == ' '
    ensures EndsBefore(t, after)
  {
    assert IsSpace(' ');
  }

  lemma ThreeParts(a: string, b: string, c: string)
    ensures var s := a + (b + c);
      s[..|a|] == a && s[|a|..|a| + |b|] == b && s[|a| + |b|..] == c
  {
  }

  lemma RenderedFirst(ts: seq<Lexeme>, gap: string)
    requires ts != [] && Blank(gap) && Spells(" " + Render(ts[1..]), ts[1..])
    ensures Spells(gap + Render(ts), ts)
  {
    hide Own, IsSymbol, IsSpace, InWord, EndsBefore, Blank;
    var own, more := Own(ts[0]), Render(ts[1..]);
    assert Render(ts) == own + (" " + more);
    hide Render;
    SpaceEnds(ts[0], " " + more);
    ThreeParts(gap, own, " " + more);
    assert SpellsAt(gap + Render(ts), ts, |gap|);
  }

  /** Whatever input was parsed, printing the command and parsing it again gives the same command. */
  lemma Stable(s: string)
    requires ParseCmd(Tokens(s)).Ok?
    ensures ParseCmd(Tokens(Render(PrintLine(ParseCmd(Tokens(s)).value)))) == ParseCmd(Tokens(s))
  {
    hide PrintLine, ParseLine, Tokens, Spells, Render;
    var c := ParseCmd(Tokens(s)).value;
    Rendered(PrintLine(c));
    RoundTrip(c, Render(PrintLine(c)));
  }

  // ---- The parser with its cursor ----

  lemma SkipStep(s: string)
    requires s != "" && IsSpace(s[0])
    ensures Skip(s) == Skip(s[1..])
  {
  }

  lemma Suffix(text: string, q: nat, p: nat)
    requires q <= p <= |text|
    ensures text[q..][p - q..] == text[p..]
  {
  }

  predicate AllSymbols(toks: string) { forall c :: c in toks ==> IsSymbol(c) }

  /** Looking at the next character tells the next token from the symbols given. */
  lemma PeekToken(s: string, toks: string)
    requires AllSymbols(toks)
    ensures (Skip(s) != "" && Skip(s)[0] in toks) <==> Sees(Tokens(s), toks)
    ensures Tokens(s) == [] <==> Skip(s) == ""
  {
    hide Skip;
  }

  lemma NoWords()
    ensures PlainWords([]) && PlainRedirs([])
  {
  }

  /** What a method of the parser returns: a value, or the panic it raises. */
  datatype Answer<T> = Got(value: T) | Panic(why: string)

  /** The answer and the tokens left are the result. */
  predicate Agrees<T(==)>(a: Answer<T>, ts: seq<Lexeme>, r: Result<T>) {
    match r
    case Ok(v, rest) => a == Got(v) && ts == rest
    case Err(w) => a == Panic(w)
  }

  /** The command line and the position *ps in it. */
  class Parser {
    const text: string
    var pos: nat

    ghost predicate Valid()
      reads this
    {
      pos <= |text|
    }

    /** The input from the position on. */
    ghost function Rest(): string
      requires Valid()
      reads this
    {
      text[pos..]
    }

    ghost function Toks(): seq<Lexeme>
      requires Valid()
      reads this
    {
      Tokens(Rest())
    }

    constructor (s: string)
      ensures Valid() && text == s && pos == 0
    {
      text, pos := s, 0;
    }

    method SkipSpaces()
      requires Valid()
      modifies this
      ensures Valid() && old(pos) <= pos && Rest() == Skip(old(Rest()))
    {
      hide Skip, IsSpace;
      while pos < |text| && IsSpace(text[pos])
        invariant Valid() && old(pos) <= pos && Skip(Rest()) == Skip(old(Rest()))
      {
        SkipStep(Rest());
        pos := pos + 1;
      }
      SkipNothing(Rest());
    }

    method Peek(toks: string) returns (b: bool)
      requires Valid()
      modifies this
      ensures Valid() && old(pos) <= pos && Rest() == Skip(old(Rest())) && Toks() == old(Toks())
      ensures b <==> Rest() != "" && Rest()[0] in toks
      ensures AllSymbols(toks) ==> (b <==> Sees(old(Toks()), toks))
    {
      hide Skip, Tokens;
      TokensSkip(Rest());
      if AllSymbols(toks) {
        PeekToken(Rest(), toks);
      }
      SkipSpaces();
      b := pos < |text| && text[pos] in toks;
    }

    method GetToken() returns (t: Token)
      requires Valid()
      modifies this
      ensures Valid() && old(pos) <= pos && (t, Rest()) == Token1(old(Rest()))
      ensures t == End <==> old(Toks()) == []
      ensures t == End ==> Toks() == []
      ensures t != End ==> old(Toks()) == [t] + Toks() && old(pos) < pos
    {
      hide Skip, First, IsSpace, IsSymbol, InWord, Plain, WordLength, Spaces;
      SkipSpaces();
      ghost var s := Rest();
      ghost var q := pos;
      t := Scan();
      Suffix(text, q, pos);
      SkipSpaces();
      if t == End {
        SkipNothing("");
      }
    }

    /** The switch of gettoken. */
    method Scan() returns (t: Token)
      requires Valid() && (Rest() != "" ==> !IsSpace(Rest()[0]))
      modifies this
      ensures Valid() && old(pos) <= pos && First(old(Rest())) == (t, pos - old(pos))
    {
      hide WordLength, IsSpace;
      if pos == |text| {
        return End;
      }
      var c := text[pos];
      assert c == Rest()[0];
      if c == '|' || c == '(' || c == ')' || c == ';' || c == '&' || c == '<' {
        t := Symbol(c);
        pos := pos + 1;
      } else if c == '>' {
        t := Symbol('>');
        pos := pos + 1;
        if pos < |text| && text[pos] == '>' {
          t := Symbol('+');
          pos := pos + 1;
        }
      } else {
        t := ScanWord();
      }
    }

    method ScanWord() returns (t: Token)
      requires Valid()
      modifies this
      ensures Valid() && old(pos) <= pos && pos - old(pos) == WordLength(old(Rest()))
      ensures t == Word(old(Rest())[..pos - old(pos)])
    {
      hide InWord;
      var q := pos;
      ghost var s := Rest();
      while pos < |text| && InWord(text[pos])
        invariant Valid() && q <= pos && WordLength(s) == pos - q + WordLength(Rest())
      {
        assert Rest()[1..] == text[pos + 1..];
        pos := pos + 1;
      }
      t := Word(text[q..pos]);
      assert s[..pos - q] == text[q..pos];
    }

    /** parseredirs: the redirections found so far and those that come next. */
    method ParseRedirections(rs0: seq<Redir>) returns (r: Answer<seq<Redir>>)
      requires Valid()
      modifies this
      ensures Valid() && old(pos) <= pos && Agrees(r, Toks(), ParseRedirs(rs0, old(Toks())))
    {
      hide Skip, Token1, Tokens, Plain;
      var rs := rs0;
      while true
        invariant Valid() && old(pos) <= pos && ParseRedirs(rs, Toks()) == ParseRedirs(rs0, old(Toks()))
        decreases |text| - pos
      {
        ghost var ts := Toks();
        var more := Peek("<>");
        if !more {
          return Got(rs);
        }
        var tok := GetToken();
        ghost var ts1 := Toks();
        assert ts == [tok] + ts1 && ts[1..] == ts1;
        var f := GetToken();
        if !f.Word? {
          return Panic("missing file for redirection");
        }
        assert ts1 == [f] + Toks() && ts[2..] == Toks();
        rs := rs + [Redir(f.text, tok == Symbol('<'))];
      }
    }

    method ParseSingle() returns (r: Answer<Cmd>)
      requires Valid()
      modifies this
      ensures Valid() && old(pos) <= pos && Agrees(r, Toks(), ParseExec(old(Toks())))
      decreases |text| - pos, 2
    {
      hide Skip, Token1, Tokens, Plain, ParseRedirs, ParseArgs, ParseBlock, Printable, PlainWords;
      NoWords();
      var block := Peek("(");
      if block {
        r := ParseParens();
        return;
      }
      var first := ParseRedirections([]);
      if first.Panic? {
        return Panic(first.why);
      }
      r := ParseArguments(first.value);
    }

    /** The loop of parseexec. */
    method ParseArguments(rs0: seq<Redir>) returns (r: Answer<Cmd>)
      requires Valid() && PlainRedirs(rs0) && PlainWords([])
      modifies this
      ensures Valid() && old(pos) <= pos && Agrees(r, Toks(), ParseArgs([], rs0, old(Toks())))
    {
      hide Skip, Token1, Tokens, Plain, ParseRedirs, Printable;
      var argv: seq<string>, rs := [], rs0;
      while true
        invariant Valid() && old(pos) <= pos && PlainWords(argv) && PlainRedirs(rs)
        invariant ParseArgs(argv, rs, Toks()) == ParseArgs([], rs0, old(Toks()))
        decreases |text| - pos
      {
        ghost var ts := Toks();
        var end := Peek("|)&;");
        if end {
          return Got(Wrap(Exec(argv), rs));
        }
        var tok := GetToken();
        if tok == End {
          return Got(Wrap(Exec(argv), rs));
        }
        assert ts[0] == tok && ts[1..] == Toks();
        if !tok.Word? {
          return Panic("syntax");
        }
        if |argv| + 1 >= MAXARGS {
          return Panic("too many args");
        }
        var more := ParseRedirections(rs);
        if more.Panic? {
          return Panic(more.why);
        }
        argv, rs := argv + [tok.text], more.value;
      }
    }

    method ParseParens() returns (r: Answer<Cmd>)
      requires Valid()
      modifies this
      ensures Valid() && old(pos) <= pos && Agrees(r, Toks(), ParseBlock(old(Toks())))
      decreases |text| - pos, 1
    {
      hide Skip, Token1, Tokens, Plain, ParseRedirs, ParseLine, Printable;
      ghost var ts := Toks();
      var open := Peek("(");
      if !open {
        return Panic("parseblock");
      }
      var _ := GetToken();
      assert ts[1..] == Toks();
      var line := ParseALine();
      if line.Panic? {
        return line;
      }
      ghost var ts1 := Toks();
      var close := Peek(")");
      if !close {
        return Panic("syntax - missing )");
      }
      var _ := GetToken();
      assert ts1[1..] == Toks();
      var rs := ParseRedirections([]);
      if rs.Panic? {
        return Panic(rs.why);
      }
      r := Got(Wrap(line.value, rs.value));
    }

    method ParseAPipe() returns (r: Answer<Cmd>)
      requires Valid()
      modifies this
      ensures Valid() && old(pos) <= pos && Agrees(r, Toks(), ParsePipe(old(Toks())))
      decreases |text| - pos, 3
    {
      hide Skip, Token1, Tokens, Plain, ParseExec, Printable;
      var left := ParseSingle();
      if left.Panic? {
        return left;
      }
      ghost var ts := Toks();
      var bar := Peek("|");
      if !bar {
        return left;
      }
      var _ := GetToken();
      assert ts[1..] == Toks();
      var right := ParseAPipe();
      if right.Panic? {
        return right;
      }
      r := Got(Pipe(left.value, right.value));
    }

    method ParseALine() returns (r: Answer<Cmd>)
      requires Valid()
      modifies this
      ensures Valid() && old(pos) <= pos && Agrees(r, Toks(), ParseLine(old(Toks())))
      decreases |text| - pos, 5
    {
      hide Skip, Token1, Tokens, Plain, ParsePipe, Printable;
      var pipe := ParseAPipe();
      if pipe.Panic? {
        return pipe;
      }
      var cmd := pipe.value;
      while true
        invariant Valid() && old(pos) <= pos && Printable(cmd) && ParseTail(cmd, Toks()) == ParseLine(old(Toks()))
        decreases |text| - pos
      {
        ghost var ts := Toks();
        var amp := Peek("&");
        if !amp {
          break;
        }
        var _ := GetToken();
        assert ts[1..] == Toks();
        BackPrintable(cmd);
        cmd := Back(cmd);
      }
      ghost var ts := Toks();
      var semi := Peek(";");
      if !semi {
        return Got(cmd);
      }
      var _ := GetToken();
      assert ts[1..] == Toks();
      var rest := ParseALine();
      if rest.Panic? {
        return rest;
      }
      r := Got(List(cmd, rest.value));
    }

    /** parsecmd. */
    method ParseCommand() returns (r: Answer<Cmd>)
      requires Valid() && pos == 0
      modifies this
      ensures Valid() && (r.Panic? || pos == |text|) && Agrees(r, [], ParseCmd(Tokens(text)))
    {
      hide Skip, Tokens, ParseLine, Printable;
      assert Rest() == text;
      var line := ParseALine();
      if line.Panic? {
        return line;
      }
      PeekToken(Rest(), "");
      var _ := Peek("");
      if pos != |text| {
        return Panic("syntax");
      }
      r := line;
    }
  }

  lemma BackPrintable(c: Cmd)
    requires Printable(c)
    ensures Printable(Back(c))
  {
  }
}
