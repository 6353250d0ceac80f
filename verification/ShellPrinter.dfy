/**
 What the shell's parser (user/sh.c) makes of a line, told without its trees: a printer
 for commands, whose output is parsed back to the same command, and the words and
 redirections of a command, which are those of the line and in the same order.
 */
module ShellPrinter {

  import opened ShellGrammar

  // ---------------------------------------------------------------- printing

  // Each prints a command, followed by the tokens k; with parentheses where it would be read otherwise.

  function ShowLine(c: Cmd, k: seq<Tok>): seq<Tok>
    decreases c, 3
  {
    match c
    case List(l, r) => ShowBacked(l, [Sym(';')] + ShowLine(r, k))
    case _ => ShowBacked(c, k)
  }

  function ShowBacked(c: Cmd, k: seq<Tok>): seq<Tok>
    decreases c, 2
  {
    match c
    case Back(b) => ShowBacked(b, [Sym('&')] + k)
    case _ => ShowPipe(c, k)
  }

  function ShowPipe(c: Cmd, k: seq<Tok>): seq<Tok>
    decreases c, 1
  {
    match c
    case Pipe(l, r) => ShowExec(l, [Sym('|')] + ShowPipe(r, k))
    case _ => ShowExec(c, k)
  }

  function ShowExec(c: Cmd, k: seq<Tok>): seq<Tok>
    decreases c, 0
  {
    match c
    case Exec(args) => ShowWords(args, k)
    case Redirected(b, r) => ShowExec(b, ShowRedir(r, k))
    case Pipe(l, r) => [Sym('(')] + ShowExec(l, [Sym('|')] + ShowPipe(r, [Sym(')')] + k))
    case List(l, r) => [Sym('(')] + ShowBacked(l, [Sym(';')] + ShowLine(r, [Sym(')')] + k))
    case Back(b) => [Sym('(')] + ShowBacked(b, [Sym('&')] + ([Sym(')')] + k))
  }

  function ShowWords(ws: seq<Word>, k: seq<Tok>): seq<Tok> {
    if ws == [] then k else [W(ws[0])] + ShowWords(ws[1..], k)
  }

  function ShowRedir(r: Redir, k: seq<Tok>): seq<Tok> {
    match r.kind
    case In => [Sym('<')] + ([W(r.file)] + k)
    case Out => [Sym('>')] + ([W(r.file)] + k)
    case Add => [Append] + ([W(r.file)] + k)
  }

  /** No command in it has more arguments than there is room for. */
  predicate CmdFits(c: Cmd) {
    match c
    case Exec(args) => |args| < MAXARGS
    case Redirected(b, _) => CmdFits(b)
    case Pipe(l, r) => CmdFits(l) && CmdFits(r)
    case List(l, r) => CmdFits(l) && CmdFits(r)
    case Back(b) => CmdFits(b)
  }

  // A tree for what is printed.

  lemma {:induction false} LineTree(c: Cmd, k: seq<Tok>) returns (t: LineD)
    requires CmdFits(c)
    ensures LineToks(t, k) == ShowLine(c, k) && LineCmd(t) == c && LineFits(t)
    decreases c, 3
  {
    match c
    case List(l, r) =>
      var rest := LineTree(r, k);
      var p, n := BackedTree(l, [Sym(';')] + ShowLine(r, k));
      t := Then(p, n, rest);
    case _ =>
      var p, n := BackedTree(c, k);
      t := End(p, n);
  }

  lemma {:induction false} BackedTree(c: Cmd, k: seq<Tok>) returns (p: PipeD, n: nat)
    requires CmdFits(c)
    ensures PipeToks(p, Ands(n, k)) == ShowBacked(c, k) && Backs(PipeCmd(p), n) == c && PipeFits(p)
    decreases c, 2
  {
    match c
    case Back(b) =>
      var m;
      p, m := BackedTree(b, [Sym('&')] + k);
      n := m + 1;
      AndsMore(m, k);
      BacksMore(PipeCmd(p), m);
    case _ =>
      p := PipeTree(c, k);
      n := 0;
  }

  lemma {:induction false} AndsMore(n: nat, k: seq<Tok>)
    ensures Ands(n, [Sym('&')] + k) == Ands(n + 1, k)
  {
    if n > 0 { AndsMore(n - 1, k); }
  }

  lemma {:induction false} PipeTree(c: Cmd, k: seq<Tok>) returns (p: PipeD)
    requires CmdFits(c)
    ensures PipeToks(p, k) == ShowPipe(c, k) && PipeCmd(p) == c && PipeFits(p)
    decreases c, 1
  {
    match c
    case Pipe(l, r) =>
      var rest := PipeTree(r, k);
      var e := ExecTree(l, [], [Sym('|')] + ShowPipe(r, k));
      p := To(e, rest);
    case _ =>
      var e := ExecTree(c, [], k);
      p := Last(e);
  }

  /** With the redirections rs around it. */
  lemma {:induction false} ExecTree(c: Cmd, rs: seq<Redir>, k: seq<Tok>) returns (e: ExecD)
    requires CmdFits(c)
    ensures ExecToks(e, k) == ShowExec(c, RedirsToks(rs, k)) && ExecCmd(e) == Wrap(c, rs) && ExecFits(e)
    decreases c, 0
  {
    var k1 := [Sym(')')] + RedirsToks(rs, k);
    match c
    case Exec(args) =>
      e := SimpleTree(args, rs, k);
    case Redirected(b, r) =>
      e := ExecTree(b, [r] + rs, k);
      assert ([r] + rs)[1..] == rs;
    case Pipe(l, r) =>
      var rest := PipeTree(r, k1);
      var first := ExecTree(l, [], [Sym('|')] + ShowPipe(r, k1));
      var line := End(To(first, rest), 0);
      assert Wrap(l, []) == l && Backs(PipeCmd(line.pipe), 0) == c && Ands(0, k1) == k1;
      assert LineToks(line, k1) == PipeToks(line.pipe, k1) && PipeFits(line.pipe);
      e := Block(line, rs);
    case List(l, r) =>
      var rest := LineTree(r, k1);
      var p, n := BackedTree(l, [Sym(';')] + ShowLine(r, k1));
      var line := Then(p, n, rest);
      assert LineCmd(line) == c && LineFits(line);
      e := Block(line, rs);
    case Back(b) =>
      var p, n := BackedTree(b, [Sym('&')] + k1);
      AndsMore(n, k1);
      BacksMore(PipeCmd(p), n);
      var line := End(p, n + 1);
      assert LineCmd(line) == c && LineFits(line);
      e := Block(line, rs);
  }

  /** Words, with the redirections after the last. */
  lemma {:induction false} SimpleTree(ws: seq<Word>, rs: seq<Redir>, k: seq<Tok>) returns (e: ExecD)
    requires |ws| < MAXARGS
    ensures ExecToks(e, k) == ShowWords(ws, RedirsToks(rs, k)) && ExecCmd(e) == Wrap(Exec(ws), rs) && ExecFits(e)
  {
    if ws == [] {
      e := Simple(rs, []);
      assert rs + ArgRedirs([]) == rs;
    } else {
      var args := ArgsTree(ws, rs, k);
      e := Simple([], args);
      assert [] + ArgRedirs(args) == rs;
    }
  }

  lemma {:induction false} ArgsTree(ws: seq<Word>, rs: seq<Redir>, k: seq<Tok>) returns (args: seq<Arg>)
    requires ws != []
    ensures ArgsToks(args, k) == ShowWords(ws, RedirsToks(rs, k)) && ArgWords(args) == ws && ArgRedirs(args) == rs
    decreases |ws|
  {
    if |ws| == 1 {
      args := [Arg(ws[0], rs)];
      assert rs + ArgRedirs([]) == rs && ws[1..] == [];
    } else {
      var rest := ArgsTree(ws[1..], rs, k);
      args := [Arg(ws[0], [])] + rest;
      assert args[1..] == rest && [] + rs == rs;
    }
  }

  /** Every command, printed, is parsed back as itself. */
  lemma {:induction false} ParsedAsPrinted(c: Cmd)
    requires CmdFits(c)
    ensures var r := PLine(ShowLine(c, [])); r.Ok? && r.rest == [] && LineCmd(r.value) == c
  {
    var t := LineTree(c, []);
    ParsesWhatIsDerived(ShowLine(c, []), t);
  }

  // ---------------------------------------------------------------- words and redirections, in order

  /** The arguments of all commands, from left to right. */
  function Args(c: Cmd): seq<Word> {
    match c
    case Exec(args) => args
    case Redirected(b, _) => Args(b)
    case Pipe(l, r) => Args(l) + Args(r)
    case List(l, r) => Args(l) + Args(r)
    case Back(b) => Args(b)
  }

  /** The redirections, inner ones first. */
  function Files(c: Cmd): seq<Redir> {
    match c
    case Exec(_) => []
    case Redirected(b, r) => Files(b) + [r]
    case Pipe(l, r) => Files(l) + Files(r)
    case List(l, r) => Files(l) + Files(r)
    case Back(b) => Files(b)
  }

  /** The words among some tokens that do not come after a '<', '>' or '>>'. */
  function PlainWords(ts: seq<Tok>): seq<Word> {
    if ts == [] then []
    else if ts[0].W? then [ts[0].word] + PlainWords(ts[1..])
    else if ts[0] in {Sym('<'), Sym('>'), Append} && |ts| > 1 then PlainWords(ts[2..])
    else PlainWords(ts[1..])
  }

  /** Those that do, and which. */
  function Redirections(ts: seq<Tok>): seq<Redir> {
    if |ts| < 2 then []
    else if ts[0] == Sym('<') && ts[1].W? then [Redir(In, ts[1].word)] + Redirections(ts[2..])
    else if ts[0] == Sym('>') && ts[1].W? then [Redir(Out, ts[1].word)] + Redirections(ts[2..])
    else if ts[0] == Append && ts[1].W? then [Redir(Add, ts[1].word)] + Redirections(ts[2..])
    else Redirections(ts[1..])
  }

  /** Words and redirections are ws and rs, and then those of k. */
  ghost predicate Spells(ts: seq<Tok>, ws: seq<Word>, rs: seq<Redir>, k: seq<Tok>) {
    PlainWords(ts) == ws + PlainWords(k) && Redirections(ts) == rs + Redirections(k)
  }

  lemma {:induction false} SpellsBoth(ts: seq<Tok>, ws: seq<Word>, rs: seq<Redir>, k: seq<Tok>, ws': seq<Word>,
                                      rs': seq<Redir>, k': seq<Tok>)
    requires Spells(ts, ws, rs, k) && Spells(k, ws', rs', k')
    ensures Spells(ts, ws + ws', rs + rs', k')
  {
    assert ws + (ws' + PlainWords(k')) == (ws + ws') + PlainWords(k');
    assert rs + (rs' + Redirections(k')) == (rs + rs') + Redirections(k');
  }

  /** A symbol that is no redirection adds nothing. */
  lemma {:induction false} SpellsSym(c: char, k: seq<Tok>)
    requires c != '<' && c != '>'
    ensures Spells([Sym(c)] + k, [], [], k)
  {
    assert ([Sym(c)] + k)[1..] == k;
    assert [] + PlainWords(k) == PlainWords(k) && [] + Redirections(k) == Redirections(k);
    assert |k| == 0 ==> Redirections(k) == [];
  }

  lemma {:induction false} SpellsWord(w: Word, k: seq<Tok>)
    ensures Spells([W(w)] + k, [w], [], k)
  {
    assert ([W(w)] + k)[1..] == k && [] + Redirections(k) == Redirections(k);
    assert |k| == 0 ==> Redirections(k) == [];
  }

  lemma {:induction false} SpellsRedir(r: Redir, k: seq<Tok>)
    ensures Spells([RedirTok(r.kind)] + ([W(r.file)] + k), [], [r], k)
  {
    var ts := [RedirTok(r.kind)] + ([W(r.file)] + k);
    assert ts[2..] == k && ts[1] == W(r.file) && [] + PlainWords(k) == PlainWords(k);
  }

  lemma {:induction false} SpellsRedirs(rs: seq<Redir>, k: seq<Tok>)
    ensures Spells(RedirsToks(rs, k), [], rs, k)
  {
    if rs == [] {
      assert [] + PlainWords(k) == PlainWords(k) && [] + Redirections(k) == Redirections(k);
    } else {
      var rest := RedirsToks(rs[1..], k);
      SpellsRedirs(rs[1..], k);
      SpellsRedir(rs[0], rest);
      SpellsBoth(RedirsToks(rs, k), [], [rs[0]], rest, [], rs[1..], k);
      assert [rs[0]] + rs[1..] == rs;
    }
  }

  lemma {:induction false} SpellsArgs(args: seq<Arg>, k: seq<Tok>)
    ensures Spells(ArgsToks(args, k), ArgWords(args), ArgRedirs(args), k)
    decreases |args|
  {
    if args == [] {
      assert [] + PlainWords(k) == PlainWords(k) && [] + Redirections(k) == Redirections(k);
    } else {
      var rest := ArgsToks(args[1..], k);
      var after := RedirsToks(args[0].redirs, rest);
      SpellsArgs(args[1..], k);
      SpellsRedirs(args[0].redirs, rest);
      SpellsWord(args[0].word, after);
      SpellsBoth(ArgsToks(args, k), [args[0].word], [], after, [], args[0].redirs, rest);
      assert [args[0].word] + [] == [args[0].word] && [] + args[0].redirs == args[0].redirs;
      SpellsBoth(ArgsToks(args, k), [args[0].word], args[0].redirs, rest, ArgWords(args[1..]), ArgRedirs(args[1..]), k);
    }
  }

  lemma {:induction false} SpellsAnds(n: nat, k: seq<Tok>)
    ensures Spells(Ands(n, k), [], [], k)
  {
    if n == 0 {
      assert [] + PlainWords(k) == PlainWords(k) && [] + Redirections(k) == Redirections(k);
    } else {
      SpellsAnds(n - 1, k);
      SpellsSym('&', Ands(n - 1, k));
      SpellsBoth(Ands(n, k), [], [], Ands(n - 1, k), [], [], k);
    }
  }

  lemma {:induction false} WrapSame(c: Cmd, rs: seq<Redir>)
    ensures Args(Wrap(c, rs)) == Args(c) && Files(Wrap(c, rs)) == Files(c) + rs
    decreases |rs|
  {
    if rs != [] {
      WrapSame(Redirected(c, rs[0]), rs[1..]);
      assert (Files(c) + [rs[0]]) + rs[1..] == Files(c) + rs;
    }
  }

  lemma {:induction false} BacksSame(c: Cmd, n: nat)
    ensures Args(Backs(c, n)) == Args(c) && Files(Backs(c, n)) == Files(c)
    decreases n
  {
    if n > 0 { BacksSame(Back(c), n - 1); }
  }

  lemma {:induction false} SpellsExec(e: ExecD, k: seq<Tok>)
    ensures Spells(ExecToks(e, k), Args(ExecCmd(e)), Files(ExecCmd(e)), k)
    decreases e
  {
    var ts := ExecToks(e, k);
    match e
    case Simple(rs, args) =>
      var rest := ArgsToks(args, k);
      SpellsRedirs(rs, rest);
      SpellsArgs(args, k);
      SpellsBoth(ts, [], rs, rest, ArgWords(args), ArgRedirs(args), k);
      WrapSame(Exec(ArgWords(args)), rs + ArgRedirs(args));
      assert [] + ArgWords(args) == ArgWords(args) && [] + (rs + ArgRedirs(args)) == rs + ArgRedirs(args);
    case Block(line, rs) =>
      var c, after := LineCmd(line), RedirsToks(rs, k);
      var close := [Sym(')')] + after;
      SpellsRedirs(rs, k);
      SpellsSym(')', after);
      SpellsBoth(close, [], [], after, [], rs, k);
      SpellsLine(line, close);
      SpellsSym('(', LineToks(line, close));
      SpellsBoth(ts, [], [], LineToks(line, close), Args(c), Files(c), close);
      SpellsBoth(ts, [] + Args(c), [] + Files(c), close, [] + [], [] + rs, k);
      WrapSame(c, rs);
      assert ([] + Args(c)) + ([] + []) == Args(c) && ([] + Files(c)) + ([] + rs) == Files(c) + rs;
  }

  lemma {:induction false} SpellsPipe(p: PipeD, k: seq<Tok>)
    ensures Spells(PipeToks(p, k), Args(PipeCmd(p)), Files(PipeCmd(p)), k)
    decreases p
  {
    match p
    case Last(e) => SpellsExec(e, k);
    case To(e, next) =>
      var c, d, rest := ExecCmd(e), PipeCmd(next), PipeToks(next, k);
      SpellsPipe(next, k);
      SpellsExec(e, [Sym('|')] + rest);
      SpellsSym('|', rest);
      SpellsBoth(PipeToks(p, k), Args(c), Files(c), [Sym('|')] + rest, [], [], rest);
      assert Args(c) + [] == Args(c) && Files(c) + [] == Files(c);
      SpellsBoth(PipeToks(p, k), Args(c), Files(c), rest, Args(d), Files(d), k);
  }

  lemma {:induction false} SpellsLine(l: LineD, k: seq<Tok>)
    ensures Spells(LineToks(l, k), Args(LineCmd(l)), Files(LineCmd(l)), k)
    decreases l
  {
    var c := PipeCmd(l.pipe);
    BacksSame(c, l.backs);
    match l
    case End(p, n) =>
      SpellsPipe(p, Ands(n, k));
      SpellsAnds(n, k);
      SpellsBoth(LineToks(l, k), Args(c), Files(c), Ands(n, k), [], [], k);
      assert Args(c) + [] == Args(c) && Files(c) + [] == Files(c);
    case Then(p, n, next) =>
      var d, rest := LineCmd(next), LineToks(next, k);
      var after := [Sym(';')] + rest;
      SpellsLine(next, k);
      SpellsSym(';', rest);
      SpellsAnds(n, after);
      SpellsPipe(p, Ands(n, after));
      SpellsBoth(Ands(n, after), [], [], after, [], [], rest);
      SpellsBoth(LineToks(l, k), Args(c), Files(c), Ands(n, after), [] + [], [] + [], rest);
      assert Args(c) + ([] + []) == Args(c) && Files(c) + ([] + []) == Files(c);
      SpellsBoth(LineToks(l, k), Args(c), Files(c), rest, Args(d), Files(d), k);
  }

  /** The arguments and redirections of what is parsed are those of the line, each in the order in which they stand. */
  lemma {:induction false} InOrder(ts: seq<Tok>, l: LineD)
    requires PLine(ts) == Ok(l, [])
    ensures Args(LineCmd(l)) == PlainWords(ts) && Files(LineCmd(l)) == Redirections(ts)
  {
    ParsesWhatIsDerived(ts, l);
    SpellsLine(l, []);
    assert Args(LineCmd(l)) + PlainWords([]) == Args(LineCmd(l));
    assert Files(LineCmd(l)) + Redirections([]) == Files(LineCmd(l));
  }
}
