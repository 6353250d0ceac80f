/**
 The shell's command language (user/sh.c): its grammar, as concrete syntax trees with
 the tokens they spell and the commands they stand for; and a parser over tokens, which
 is shown to accept exactly what the grammar derives.

   line   ::=  pipe '&'* [ ';' line ]
   pipe   ::=  exec [ '|' pipe ]
   exec   ::=  '(' line ')' redir*  |  redir* ( word redir* )*
   redir  ::=  '<' word  |  '>' word  |  '>>' word
 */
module ShellGrammar {

  /** A word is where it is in the line: from q up to eq. */
  datatype Word = Word(q: nat, eq: nat)

  datatype Tok = Sym(c: char) | Append | W(word: Word)

  datatype Kind = In | Out | Add

  datatype Redir = Redir(kind: Kind, file: Word)

  datatype Cmd =
    | Exec(args: seq<Word>)
    | Redirected(cmd: Cmd, redir: Redir)
    | Pipe(left: Cmd, right: Cmd)
    | List(left: Cmd, right: Cmd)
    | Back(cmd: Cmd)

  const MAXARGS: nat := 10

  // ---------------------------------------------------------------- the grammar

  /** A word and the redirections after it. */
  datatype Arg = Arg(word: Word, redirs: seq<Redir>)

  datatype ExecD = Simple(redirs: seq<Redir>, args: seq<Arg>) | Block(line: LineD, redirs: seq<Redir>)

  datatype PipeD = Last(exec: ExecD) | To(exec: ExecD, rest: PipeD)

  datatype LineD = End(pipe: PipeD, backs: nat) | Then(pipe: PipeD, backs: nat, rest: LineD)

  // What a tree spells, followed by the tokens k.

  function RedirTok(kind: Kind): Tok {
    match kind
    case In => Sym('<')
    case Out => Sym('>')
    case Add => Append
  }

  function RedirsToks(rs: seq<Redir>, k: seq<Tok>): seq<Tok> {
    if rs == [] then k else [RedirTok(rs[0].kind)] + ([W(rs[0].file)] + RedirsToks(rs[1..], k))
  }

  function ArgsToks(args: seq<Arg>, k: seq<Tok>): seq<Tok> {
    if args == [] then k else [W(args[0].word)] + RedirsToks(args[0].redirs, ArgsToks(args[1..], k))
  }

  function Ands(n: nat, k: seq<Tok>): seq<Tok> {
    if n == 0 then k else [Sym('&')] + Ands(n - 1, k)
  }

  function ExecToks(e: ExecD, k: seq<Tok>): seq<Tok>
    decreases e
  {
    match e
    case Simple(rs, args) => RedirsToks(rs, ArgsToks(args, k))
    case Block(line, rs) => [Sym('(')] + LineToks(line, [Sym(')')] + RedirsToks(rs, k))
  }

  function PipeToks(p: PipeD, k: seq<Tok>): seq<Tok>
    decreases p
  {
    match p
    case Last(e) => ExecToks(e, k)
    case To(e, rest) => ExecToks(e, [Sym('|')] + PipeToks(rest, k))
  }

  function LineToks(l: LineD, k: seq<Tok>): seq<Tok>
    decreases l
  {
    match l
    case End(p, n) => PipeToks(p, Ands(n, k))
    case Then(p, n, rest) => PipeToks(p, Ands(n, [Sym(';')] + LineToks(rest, k)))
  }

  // What a tree stands for.

  function Wrap(cmd: Cmd, rs: seq<Redir>): Cmd
    decreases |rs|
  {
    if rs == [] then cmd else Wrap(Redirected(cmd, rs[0]), rs[1..])
  }

  function ArgWords(args: seq<Arg>): (ws: seq<Word>)
    ensures |ws| == |args|
  {
    if args == [] then [] else [args[0].word] + ArgWords(args[1..])
  }

  function ArgRedirs(args: seq<Arg>): seq<Redir> {
    if args == [] then [] else args[0].redirs + ArgRedirs(args[1..])
  }

  function Backs(cmd: Cmd, n: nat): Cmd
    decreases n
  {
    if n == 0 then cmd else Backs(Back(cmd), n - 1)
  }

  lemma {:induction false} BacksMore(cmd: Cmd, n: nat)
    ensures Backs(cmd, n + 1) == Back(Backs(cmd, n))
    decreases n
  {
    if n > 0 { BacksMore(Back(cmd), n - 1); }
  }

  function ExecCmd(e: ExecD): Cmd {
    match e
    case Simple(rs, args) => Wrap(Exec(ArgWords(args)), rs + ArgRedirs(args))
    case Block(line, rs) => Wrap(LineCmd(line), rs)
  }

  function PipeCmd(p: PipeD): Cmd {
    match p
    case Last(e) => ExecCmd(e)
    case To(e, rest) => Pipe(ExecCmd(e), PipeCmd(rest))
  }

  function LineCmd(l: LineD): Cmd {
    match l
    case End(p, n) => Backs(PipeCmd(p), n)
    case Then(p, n, rest) => List(Backs(PipeCmd(p), n), LineCmd(rest))
  }

  /** No command has more arguments than there is room for. */
  predicate ExecFits(e: ExecD) {
    match e
    case Simple(_, args) => |args| < MAXARGS
    case Block(line, _) => LineFits(line)
  }

  predicate PipeFits(p: PipeD) {
    ExecFits(p.exec) && (p.To? ==> PipeFits(p.rest))
  }

  predicate LineFits(l: LineD) {
    PipeFits(l.pipe) && (l.Then? ==> LineFits(l.rest))
  }

  // ---------------------------------------------------------------- a parser over tokens

  datatype R<T> = Ok(value: T, rest: seq<Tok>) | Panic

  predicate StartsWith(ts: seq<Tok>, c: char) {
    ts != [] && ts[0] == Sym(c)
  }

  predicate IsRedir(t: Tok) {
    t == Sym('<') || t == Sym('>') || t == Append
  }

  function KindOf(t: Tok): Kind {
    if t == Sym('<') then In else if t == Sym('>') then Out else Add
  }

  function PRedirs(ts: seq<Tok>): (r: R<seq<Redir>>)
    ensures r.Ok? ==> |r.rest| <= |ts|
    decreases |ts|
  {
    if ts == [] || !IsRedir(ts[0]) then Ok([], ts)
    else if |ts| == 1 || !ts[1].W? then Panic
    else match PRedirs(ts[2..])
      case Ok(rs, rest) => Ok([Redir(KindOf(ts[0]), ts[1].word)] + rs, rest)
      case Panic => Panic
  }

  predicate EndsArgs(ts: seq<Tok>) {
    ts == [] || ts[0] == Sym('|') || ts[0] == Sym(')') || ts[0] == Sym('&') || ts[0] == Sym(';')
  }

  /** Arguments, with n before them. */
  function PArgs(ts: seq<Tok>, n: nat): (r: R<seq<Arg>>)
    ensures r.Ok? ==> |r.rest| <= |ts|
    decreases |ts|
  {
    if EndsArgs(ts) then Ok([], ts)
    else if !ts[0].W? || n + 1 >= MAXARGS then Panic
    else match PRedirs(ts[1..])
      case Panic => Panic
      case Ok(rs, rest) =>
        match PArgs(rest, n + 1)
        case Panic => Panic
        case Ok(args, rest') => Ok([Arg(ts[0].word, rs)] + args, rest')
  }

  function PExec(ts: seq<Tok>): (r: R<ExecD>)
    ensures r.Ok? ==> |r.rest| <= |ts|
    decreases |ts|, 0
  {
    if StartsWith(ts, '(') then PBlock(ts)
    else match PRedirs(ts)
      case Panic => Panic
      case Ok(rs, rest) =>
        match PArgs(rest, 0)
        case Panic => Panic
        case Ok(args, rest') => Ok(Simple(rs, args), rest')
  }

  function PBlock(ts: seq<Tok>): (r: R<ExecD>)
    requires StartsWith(ts, '(')
    ensures r.Ok? ==> |r.rest| <= |ts|
    decreases |ts| - 1, 3
  {
    match PLine(ts[1..])
    case Panic => Panic
    case Ok(l, rest) =>
      if !StartsWith(rest, ')') then Panic
      else match PRedirs(rest[1..])
        case Panic => Panic
        case Ok(rs, rest') => Ok(Block(l, rs), rest')
  }

  function PPipe(ts: seq<Tok>): (r: R<PipeD>)
    ensures r.Ok? ==> |r.rest| <= |ts|
    decreases |ts|, 1
  {
    match PExec(ts)
    case Panic => Panic
    case Ok(e, rest) =>
      if !StartsWith(rest, '|') then Ok(Last(e), rest)
      else match PPipe(rest[1..])
        case Panic => Panic
        case Ok(p, rest') => Ok(To(e, p), rest')
  }

  /** How many '&' the tokens start with. */
  function CountAnds(ts: seq<Tok>): (n: nat)
    ensures n <= |ts|
  {
    if StartsWith(ts, '&') then 1 + CountAnds(ts[1..]) else 0
  }

  function PLine(ts: seq<Tok>): (r: R<LineD>)
    ensures r.Ok? ==> |r.rest| <= |ts|
    decreases |ts|, 2
  {
    match PPipe(ts)
    case Panic => Panic
    case Ok(p, rest) =>
      var n := CountAnds(rest);
      var rest1 := rest[n..];
      if !StartsWith(rest1, ';') then Ok(End(p, n), rest1)
      else match PLine(rest1[1..])
        case Panic => Panic
        case Ok(l, rest2) => Ok(Then(p, n, l), rest2)
  }

  // ---------------------------------------------------------------- what is parsed was spelled

  lemma {:induction false} RedirsSound(ts: seq<Tok>)
    ensures var r := PRedirs(ts); r.Ok? ==> ts == RedirsToks(r.value, r.rest) && (r.rest == [] || !IsRedir(r.rest[0]))
    decreases |ts|
  {
    if ts != [] && IsRedir(ts[0]) && |ts| > 1 && ts[1].W? {
      RedirsSound(ts[2..]);
      if PRedirs(ts).Ok? {
        var rs := PRedirs(ts).value;
        assert rs[1..] == PRedirs(ts[2..]).value;
        assert ts == [ts[0]] + ([ts[1]] + ts[2..]);
      }
    }
  }

  lemma {:induction false} ArgsSound(ts: seq<Tok>, n: nat)
    ensures var r := PArgs(ts, n);
      r.Ok? ==> ts == ArgsToks(r.value, r.rest) && EndsArgs(r.rest) && (r.value != [] ==> n + |r.value| < MAXARGS)
    decreases |ts|
  {
    if !EndsArgs(ts) && ts[0].W? && n + 1 < MAXARGS && PRedirs(ts[1..]).Ok? {
      RedirsSound(ts[1..]);
      ArgsSound(PRedirs(ts[1..]).rest, n + 1);
      if PArgs(ts, n).Ok? {
        var args := PArgs(ts, n).value;
        assert args[1..] == PArgs(PRedirs(ts[1..]).rest, n + 1).value;
        assert ts == [ts[0]] + ts[1..];
      }
    }
  }

  lemma {:induction false} AndsSound(ts: seq<Tok>)
    ensures ts == Ands(CountAnds(ts), ts[CountAnds(ts)..]) && !StartsWith(ts[CountAnds(ts)..], '&')
    decreases |ts|
  {
    if StartsWith(ts, '&') {
      AndsSound(ts[1..]);
      var n := CountAnds(ts[1..]);
      assert ts[1..][n..] == ts[n + 1..];
      assert ts == [ts[0]] + ts[1..];
    }
  }

  lemma {:induction false} ExecSound(ts: seq<Tok>)
    ensures var r := PExec(ts); r.Ok? ==> ts == ExecToks(r.value, r.rest) && ExecFits(r.value)
    decreases |ts|, 0
  {
    if StartsWith(ts, '(') {
      BlockSound(ts);
    } else {
      RedirsSound(ts);
      if PRedirs(ts).Ok? { ArgsSound(PRedirs(ts).rest, 0); }
    }
  }

  lemma {:induction false} BlockSound(ts: seq<Tok>)
    requires StartsWith(ts, '(')
    ensures var r := PBlock(ts); r.Ok? ==> ts == ExecToks(r.value, r.rest) && ExecFits(r.value)
    decreases |ts| - 1, 3
  {
    LineSound(ts[1..]);
    if PBlock(ts).Ok? {
      var rest := PLine(ts[1..]).rest;
      RedirsSound(rest[1..]);
      assert ts == [ts[0]] + ts[1..] && rest == [rest[0]] + rest[1..];
    }
  }

  lemma {:induction false} PipeSound(ts: seq<Tok>)
    ensures var r := PPipe(ts); r.Ok? ==> ts == PipeToks(r.value, r.rest) && PipeFits(r.value)
    decreases |ts|, 1
  {
    ExecSound(ts);
    if PExec(ts).Ok? && StartsWith(PExec(ts).rest, '|') {
      var rest := PExec(ts).rest;
      PipeSound(rest[1..]);
      assert rest == [rest[0]] + rest[1..];
    }
  }

  lemma {:induction false} LineSound(ts: seq<Tok>)
    ensures var r := PLine(ts); r.Ok? ==> ts == LineToks(r.value, r.rest) && LineFits(r.value)
    decreases |ts|, 2
  {
    PipeSound(ts);
    if PPipe(ts).Ok? {
      var rest := PPipe(ts).rest;
      AndsSound(rest);
      var rest1 := rest[CountAnds(rest)..];
      if StartsWith(rest1, ';') {
        LineSound(rest1[1..]);
        assert rest1 == [rest1[0]] + rest1[1..];
      }
    }
  }

  // ---------------------------------------------------------------- what is spelled is parsed

  lemma {:induction false} RedirsComplete(rs: seq<Redir>, k: seq<Tok>)
    requires k == [] || !IsRedir(k[0])
    ensures PRedirs(RedirsToks(rs, k)) == Ok(rs, k)
  {
    if rs != [] {
      RedirsComplete(rs[1..], k);
      assert RedirsToks(rs, k)[2..] == RedirsToks(rs[1..], k);
      assert [rs[0]] + rs[1..] == rs;
    }
  }

  lemma {:induction false} ArgsComplete(args: seq<Arg>, n: nat, k: seq<Tok>)
    requires EndsArgs(k) && (args != [] ==> n + |args| < MAXARGS)
    ensures PArgs(ArgsToks(args, k), n) == Ok(args, k)
    decreases |args|
  {
    if args != [] {
      var rest := ArgsToks(args[1..], k);
      ArgsComplete(args[1..], n + 1, k);
      ArgsStart(args[1..], k);
      RedirsComplete(args[0].redirs, rest);
      assert Arg(args[0].word, args[0].redirs) == args[0] && [args[0]] + args[1..] == args;
      ArgFirst(args[0], RedirsToks(args[0].redirs, rest), n, rest, args[1..], k);
    }
  }

  /** One argument, from what comes of the tokens after it. */
  lemma {:induction false} ArgFirst(a: Arg, after: seq<Tok>, n: nat, rest: seq<Tok>, args: seq<Arg>, k: seq<Tok>)
    requires PRedirs(after) == Ok(a.redirs, rest) && PArgs(rest, n + 1) == Ok(args, k) && n + 1 < MAXARGS
    ensures PArgs([W(a.word)] + after, n) == Ok([Arg(a.word, a.redirs)] + args, k)
  {
    assert ([W(a.word)] + after)[1..] == after;
  }

  lemma {:induction false} ArgsStart(args: seq<Arg>, k: seq<Tok>)
    requires EndsArgs(k)
    ensures var ts := ArgsToks(args, k); (ts == [] || !IsRedir(ts[0])) && !StartsWith(ts, '(')
  {
  }

  lemma {:induction false} AndsComplete(n: nat, k: seq<Tok>)
    requires !StartsWith(k, '&')
    ensures CountAnds(Ands(n, k)) == n && Ands(n, k)[n..] == k
  {
    if n > 0 {
      AndsComplete(n - 1, k);
      assert Ands(n, k)[1..] == Ands(n - 1, k);
      assert Ands(n, k)[n..] == Ands(n, k)[1..][n - 1..];
    }
  }

  lemma {:induction false} ExecComplete(e: ExecD, k: seq<Tok>)
    requires ExecFits(e) && EndsArgs(k)
    ensures PExec(ExecToks(e, k)) == Ok(e, k)
    decreases e
  {
    match e
    case Simple(rs, args) =>
      ArgsStart(args, k);
      RedirsStart(rs, ArgsToks(args, k));
      RedirsComplete(rs, ArgsToks(args, k));
      ArgsComplete(args, 0, k);
    case Block(line, rs) =>
      var after := [Sym(')')] + RedirsToks(rs, k);
      assert ExecToks(e, k)[1..] == LineToks(line, after);
      LineComplete(line, after);
      assert after[1..] == RedirsToks(rs, k);
      RedirsComplete(rs, k);
  }

  lemma {:induction false} RedirsStart(rs: seq<Redir>, k: seq<Tok>)
    requires !StartsWith(k, '(')
    ensures !StartsWith(RedirsToks(rs, k), '(')
  {
  }

  lemma {:induction false} PipeComplete(p: PipeD, k: seq<Tok>)
    requires PipeFits(p) && EndsArgs(k) && !StartsWith(k, '|')
    ensures PPipe(PipeToks(p, k)) == Ok(p, k)
    decreases p
  {
    match p
    case Last(e) => ExecComplete(e, k);
    case To(e, next) =>
      var after := [Sym('|')] + PipeToks(next, k);
      ExecComplete(e, after);
      assert after[1..] == PipeToks(next, k);
      PipeComplete(next, k);
  }

  lemma {:induction false} LineComplete(l: LineD, k: seq<Tok>)
    requires LineFits(l) && (k == [] || k[0] == Sym(')'))
    ensures PLine(LineToks(l, k)) == Ok(l, k)
    decreases l
  {
    match l
    case End(p, n) =>
      AndsComplete(n, k);
      AndsStart(n, k);
      PipeComplete(p, Ands(n, k));
    case Then(p, n, next) =>
      var after := [Sym(';')] + LineToks(next, k);
      AndsComplete(n, after);
      AndsStart(n, after);
      PipeComplete(p, Ands(n, after));
      assert after[1..] == LineToks(next, k);
      LineComplete(next, k);
  }

  lemma {:induction false} AndsStart(n: nat, k: seq<Tok>)
    requires EndsArgs(k) && !StartsWith(k, '|')
    ensures EndsArgs(Ands(n, k)) && !StartsWith(Ands(n, k), '|')
  {
  }

  /** The parser accepts a whole line exactly when the grammar derives it, and then there is one way to derive it. */
  lemma {:induction false} ParsesWhatIsDerived(ts: seq<Tok>, l: LineD)
    ensures PLine(ts) == Ok(l, []) <==> LineToks(l, []) == ts && LineFits(l)
  {
    LineSound(ts);
    if LineToks(l, []) == ts && LineFits(l) {
      LineComplete(l, []);
    }
  }
}
