/**
 What parsecmd() (user/sh.c) leaves behind: the command, and every word of it a string in
 the line itself, ended by a NUL written over whatever came after the word.
 */
module ShellStrings {

  import opened ShellGrammar
  import opened ShellParser
  import opened ShellPrinter

  // ---------------------------------------------------------------- words become strings

  function SetOf(args: seq<Word>): set<Word> {
    set w | w in args
  }

  lemma {:induction false} SetOfMore(args: seq<Word>, i: nat)
    requires i < |args|
    ensures SetOf(args[..i + 1]) == SetOf(args[..i]) + {args[i]} && args[i] in SetOf(args)
  {
    assert args[..i + 1] == args[..i] + [args[i]];
  }

  /** There is room after every word for a NUL. */
  ghost predicate Within(ws: set<Word>, n: nat) {
    forall w {:trigger w in ws} :: w in ws ==> w.eq < n
  }

  /** The words of a command: arguments and files. */
  function Words(cmd: Cmd): set<Word> {
    match cmd
    case Exec(args) => SetOf(args)
    case Redirected(c, r) => Words(c) + {r.file}
    case Pipe(left, right) => Words(left) + Words(right)
    case List(left, right) => Words(left) + Words(right)
    case Back(c) => Words(c)
  }

  /** A NUL after each of the words, and nothing else changed. */
  ghost predicate Terminated(before: seq<char>, after: seq<char>, ws: set<Word>) {
    && |after| == |before|
    && (forall w {:trigger w in ws} :: w in ws ==> w.eq < |after| && after[w.eq] == '\0')
    && (forall i {:trigger after[i]} :: 0 <= i < |after| ==>
        after[i] == before[i] || (after[i] == '\0' && EndsOne(ws, i)))
  }

  ghost predicate EndsOne(ws: set<Word>, i: nat) {
    exists w :: w in ws && w.eq == i
  }

  lemma {:induction false} TerminatedBoth(a: seq<char>, b: seq<char>, c: seq<char>, us: set<Word>, ws: set<Word>)
    requires Terminated(a, b, us) && Terminated(b, c, ws)
    ensures Terminated(a, c, us + ws)
  {
    forall i {:trigger c[i]} | 0 <= i < |c| ensures c[i] == a[i] || (c[i] == '\0' && EndsOne(us + ws, i)) {
      if c[i] != b[i] {
        var w :| w in ws && w.eq == i;
        assert w in us + ws;
      } else if b[i] != a[i] {
        var w :| w in us && w.eq == i;
        assert w in us + ws;
      }
    }
    forall w {:trigger w in us + ws} | w in us + ws ensures w.eq < |c| && c[w.eq] == '\0' {
      if w in us { assert b[w.eq] == '\0'; }
    }
  }

  lemma {:induction false} TerminatedOne(a: seq<char>, w: Word)
    requires w.eq < |a|
    ensures Terminated(a, a[w.eq := '\0'], {w})
  {
    var b := a[w.eq := '\0'];
    forall i {:trigger b[i]} | 0 <= i < |b| ensures b[i] == a[i] || (b[i] == '\0' && EndsOne({w}, i)) {
      if i == w.eq { assert w in {w}; }
    }
  }

  lemma {:induction false} WithinPart(us: set<Word>, ws: set<Word>, n: nat)
    requires Within(ws, n) && us <= ws
    ensures Within(us, n)
  {
  }

  /** Overwrites, in place, the character after every word of the command. */
  method NulTerminate(buf: array<char>, cmd: Cmd)
    requires Within(Words(cmd), buf.Length)
    modifies buf
    ensures Terminated(old(buf[..]), buf[..], Words(cmd))
    decreases cmd
  {
    ghost var a := buf[..];
    match cmd {
      case Exec(args) =>
        var i := 0;
        while i < |args|
          invariant 0 <= i <= |args| && Terminated(a, buf[..], SetOf(args[..i]))
        {
          ghost var b := buf[..];
          SetOfMore(args, i);
          TerminatedOne(b, args[i]);
          buf[args[i].eq] := '\0';
          assert buf[..] == b[args[i].eq := '\0'];
          TerminatedBoth(a, b, buf[..], SetOf(args[..i]), {args[i]});
          i := i + 1;
        }
        assert args[..i] == args;
      case Redirected(c, r) =>
        WithinPart(Words(c), Words(cmd), buf.Length);
        NulTerminate(buf, c);
        ghost var b := buf[..];
        assert r.file in Words(cmd);
        TerminatedOne(b, r.file);
        buf[r.file.eq] := '\0';
        assert buf[..] == b[r.file.eq := '\0'];
        TerminatedBoth(a, b, buf[..], Words(c), {r.file});
      case Pipe(left, right) =>
        WithinPart(Words(left), Words(cmd), buf.Length);
        WithinPart(Words(right), Words(cmd), buf.Length);
        NulTerminate(buf, left);
        ghost var b := buf[..];
        NulTerminate(buf, right);
        TerminatedBoth(a, b, buf[..], Words(left), Words(right));
      case List(left, right) =>
        WithinPart(Words(left), Words(cmd), buf.Length);
        WithinPart(Words(right), Words(cmd), buf.Length);
        NulTerminate(buf, left);
        ghost var b := buf[..];
        NulTerminate(buf, right);
        TerminatedBoth(a, b, buf[..], Words(left), Words(right));
      case Back(c) =>
        NulTerminate(buf, c);
    }
  }

  // ---------------------------------------------------------------- where the words come from

  lemma {:induction false} RedirsWords(cmd: Cmd, rs: seq<Redir>, w: Word, k: seq<Tok>)
    requires w in Words(Wrap(cmd, rs))
    ensures w in Words(cmd) || W(w) in RedirsToks(rs, k)
    decreases |rs|
  {
    if rs != [] {
      RedirsWords(Redirected(cmd, rs[0]), rs[1..], w, k);
    }
  }

  lemma {:induction false} RedirsKeep(rs: seq<Redir>, k: seq<Tok>, t: Tok)
    requires t in k
    ensures t in RedirsToks(rs, k)
  {
    if rs != [] { RedirsKeep(rs[1..], k, t); }
  }

  lemma {:induction false} ArgsKeep(args: seq<Arg>, k: seq<Tok>, t: Tok)
    requires t in k
    ensures t in ArgsToks(args, k)
    decreases |args|
  {
    if args != [] {
      ArgsKeep(args[1..], k, t);
      RedirsKeep(args[0].redirs, ArgsToks(args[1..], k), t);
    }
  }

  lemma {:induction false} ArgsWords(args: seq<Arg>, w: Word, k: seq<Tok>)
    requires w in ArgWords(args) || exists i :: 0 <= i < |ArgRedirs(args)| && ArgRedirs(args)[i].file == w
    ensures W(w) in ArgsToks(args, k)
    decreases |args|
  {
    if args != [] {
      var rest := ArgsToks(args[1..], k);
      if w == args[0].word {
      } else if w in ArgWords(args[1..]) {
        ArgsWords(args[1..], w, k);
        RedirsKeep(args[0].redirs, rest, W(w));
      } else {
        var i :| 0 <= i < |ArgRedirs(args)| && ArgRedirs(args)[i].file == w;
        if i < |args[0].redirs| {
          RedirFile(args[0].redirs, i, rest);
        } else {
          assert ArgRedirs(args[1..])[i - |args[0].redirs|].file == w;
          ArgsWords(args[1..], w, k);
          RedirsKeep(args[0].redirs, rest, W(w));
        }
      }
    }
  }

  lemma {:induction false} RedirFile(rs: seq<Redir>, i: nat, k: seq<Tok>)
    requires i < |rs|
    ensures W(rs[i].file) in RedirsToks(rs, k)
  {
    if i > 0 { RedirFile(rs[1..], i - 1, k); }
  }

  lemma {:induction false} AndsKeep(n: nat, k: seq<Tok>, t: Tok)
    requires t in k
    ensures t in Ands(n, k)
  {
    if n > 0 { AndsKeep(n - 1, k, t); }
  }

  /** A wrapped command's words are its own or files. */
  lemma {:induction false} WrapWords(cmd: Cmd, rs: seq<Redir>, w: Word)
    requires w in Words(Wrap(cmd, rs))
    ensures w in Words(cmd) || exists i :: 0 <= i < |rs| && rs[i].file == w
    decreases |rs|
  {
    if rs != [] {
      WrapWords(Redirected(cmd, rs[0]), rs[1..], w);
      if w in Words(cmd) {
      } else if w == rs[0].file {
      } else {
        var i :| 0 <= i < |rs[1..]| && rs[1..][i].file == w;
        assert rs[i + 1].file == w;
      }
    }
  }

  lemma {:induction false} BacksWords(cmd: Cmd, n: nat)
    ensures Words(Backs(cmd, n)) == Words(cmd)
    decreases n
  {
    if n > 0 { BacksWords(Back(cmd), n - 1); }
  }

  /** A token that follows a tree, or a word of what it stands for, is among the tokens it spells. */
  lemma {:induction false} ExecWords(e: ExecD, w: Word, k: seq<Tok>)
    ensures w in Words(ExecCmd(e)) ==> W(w) in ExecToks(e, k)
    ensures W(w) in k ==> W(w) in ExecToks(e, k)
    decreases e
  {
    match e
    case Simple(rs, args) =>
      var rest := ArgsToks(args, k);
      if W(w) in k { ArgsKeep(args, k, W(w)); RedirsKeep(rs, rest, W(w)); }
      if w in Words(ExecCmd(e)) { SimpleWords(rs, args, w, k); }
    case Block(line, rs) =>
      var after := [Sym(')')] + RedirsToks(rs, k);
      if W(w) in k { RedirsKeep(rs, k, W(w)); }
      LineWords(line, w, after);
      if w in Words(ExecCmd(e)) {
        RedirsWords(LineCmd(line), rs, w, k);
      }
  }

  lemma {:induction false} SimpleWords(rs: seq<Redir>, args: seq<Arg>, w: Word, k: seq<Tok>)
    requires w in Words(Wrap(Exec(ArgWords(args)), rs + ArgRedirs(args)))
    ensures W(w) in RedirsToks(rs, ArgsToks(args, k))
  {
    var all, rest := rs + ArgRedirs(args), ArgsToks(args, k);
    WrapWords(Exec(ArgWords(args)), all, w);
    if w in ArgWords(args) {
      ArgsWords(args, w, k);
      RedirsKeep(rs, rest, W(w));
    } else {
      var i :| 0 <= i < |all| && all[i].file == w;
      if i < |rs| {
        RedirFile(rs, i, rest);
      } else {
        assert ArgRedirs(args)[i - |rs|].file == w;
        ArgsWords(args, w, k);
        RedirsKeep(rs, rest, W(w));
      }
    }
  }

  lemma {:induction false} PipeWords(p: PipeD, w: Word, k: seq<Tok>)
    ensures w in Words(PipeCmd(p)) ==> W(w) in PipeToks(p, k)
    ensures W(w) in k ==> W(w) in PipeToks(p, k)
    decreases p
  {
    match p
    case Last(e) => ExecWords(e, w, k);
    case To(e, next) =>
      PipeWords(next, w, k);
      ExecWords(e, w, [Sym('|')] + PipeToks(next, k));
  }

  lemma {:induction false} LineWords(l: LineD, w: Word, k: seq<Tok>)
    ensures w in Words(LineCmd(l)) ==> W(w) in LineToks(l, k)
    ensures W(w) in k ==> W(w) in LineToks(l, k)
    decreases l
  {
    BacksWords(PipeCmd(l.pipe), l.backs);
    match l
    case End(p, n) =>
      if W(w) in k { AndsKeep(n, k, W(w)); }
      PipeWords(p, w, Ands(n, k));
    case Then(p, n, next) =>
      var after := [Sym(';')] + LineToks(next, k);
      LineWords(next, w, k);
      if W(w) in after { AndsKeep(n, after, W(w)); }
      PipeWords(p, w, Ands(n, after));
  }

  // ---------------------------------------------------------------- the whole

  /** A string that starts at q in the buffer, up to the first NUL, is the word. */
  ghost predicate IsString(buf: seq<char>, line: string, w: Word) {
    && w.q <= w.eq < |buf| && w.eq <= |line| && buf[w.q..w.eq] == line[w.q..w.eq] && buf[w.eq] == '\0'
    && '\0' !in buf[w.q..w.eq]
  }

  /** A NUL after a word is never inside another one. */
  lemma {:induction false} WordIntact(line: string, before: seq<char>, after: seq<char>, ws: set<Word>, w: Word)
    requires before == line + "\0" && '\0' !in line && Terminated(before, after, ws) && w in ws
    requires forall u {:trigger u in ws} :: u in ws ==> IsWord(line, u)
    ensures IsString(after, line, w)
  {
    assert IsWord(line, w);
    forall i | w.q <= i < w.eq ensures after[i] == line[i] {
      assert InWord(line[i]) && before[i] == line[i];
    }
    assert after[w.q..w.eq] == line[w.q..w.eq];
  }

  /** What becomes of some tokens: the command the grammar derives them as, or a panic. */
  ghost predicate Meant(ts: seq<Tok>, r: Result<Cmd>) {
    match PLine(ts)
    case Panic => r == Panicked
    case Ok(l, rest) => if rest == [] then r == Good(LineCmd(l)) else r == Panicked
  }

  lemma {:induction false} MeantAsDerived(ts: seq<Tok>, r: Result<Cmd>)
    requires Meant(ts, r)
    ensures r.Good? <==> exists l :: LineToks(l, []) == ts && LineFits(l)
    ensures forall l {:trigger LineFits(l)} :: LineToks(l, []) == ts && LineFits(l) ==> r == Good(LineCmd(l))
  {
    forall l {:trigger LineFits(l)} ensures PLine(ts) == Ok(l, []) <==> LineToks(l, []) == ts && LineFits(l) {
      ParsesWhatIsDerived(ts, l);
    }
    if r.Good? {
      var l := PLine(ts).value;
      ParsesWhatIsDerived(ts, l);
      assert LineToks(l, []) == ts && LineFits(l);
    }
  }

  lemma {:induction false} MeantAsPrinted(ts: seq<Tok>, r: Result<Cmd>)
    requires Meant(ts, r)
    ensures forall c {:trigger CmdFits(c)} :: CmdFits(c) && ShowLine(c, []) == ts ==> r == Good(c)
    ensures r.Good? ==> Args(r.value) == PlainWords(ts) && Files(r.value) == Redirections(ts)
  {
    forall c {:trigger CmdFits(c)} | CmdFits(c) && ShowLine(c, []) == ts ensures r == Good(c) {
      ParsedAsPrinted(c);
    }
    if r.Good? { InOrder(ts, PLine(ts).value); }
  }

  /** parsecmd() up to the last call. */
  method ParseWhole(line: string) returns (r: Result<Cmd>)
    requires '\0' !in line
    ensures Meant(Tokens(line, 0), r)
    ensures r.Good? ==> forall w {:trigger w in Words(r.value)} :: w in Words(r.value) ==> IsWord(line, w)
  {
    var p := new Parser(line);
    r := p.ParseLine();
    if r == Panicked { return; }
    var _ := p.Peek("");
    if p.s != |line| { return Panicked; }
    ghost var l := PLine(Tokens(line, 0)).value;
    ParsesWhatIsDerived(Tokens(line, 0), l);
    AllWords(line, l);
  }

  /**
   parsecmd(): the command that the grammar derives the line as, which is the one whose printing the line is and has its
   words and redirections in order, with every word of it a string in the buffer; a panic exactly when the grammar
   does not derive it, or a command has too many words.
   */
  method ParseCmd(line: string) returns (r: Result<Cmd>, buf: array<char>)
    requires '\0' !in line
    ensures r.Good? <==> exists l :: LineToks(l, []) == Tokens(line, 0) && LineFits(l)
    ensures forall l {:trigger LineFits(l)} :: LineToks(l, []) == Tokens(line, 0) && LineFits(l) ==>
      r == Good(LineCmd(l))
    ensures forall c {:trigger CmdFits(c)} :: CmdFits(c) && ShowLine(c, []) == Tokens(line, 0) ==> r == Good(c)
    ensures r.Good? ==> Args(r.value) == PlainWords(Tokens(line, 0)) && Files(r.value) == Redirections(Tokens(line, 0))
    ensures r.Good? ==> forall w {:trigger w in Words(r.value)} :: w in Words(r.value) ==>
              IsWord(line, w) && IsString(buf[..], line, w)
  {
    buf := new char[|line| + 1](i requires 0 <= i <= |line| => if i < |line| then line[i] else '\0');
    assert buf[..] == line + "\0";
    r := ParseWhole(line);
    MeantAsDerived(Tokens(line, 0), r);
    MeantAsPrinted(Tokens(line, 0), r);
    if r == Panicked { return; }
    NulTerminate(buf, r.value);
    forall w | w in Words(r.value) ensures IsWord(line, w) && IsString(buf[..], line, w) {
      WordIntact(line, line + "\0", buf[..], Words(r.value), w);
    }
  }

  lemma {:induction false} AllWords(line: string, l: LineD)
    requires LineToks(l, []) == Tokens(line, 0)
    ensures forall w {:trigger w in Words(LineCmd(l))} :: w in Words(LineCmd(l)) ==> IsWord(line, w)
  {
    forall w {:trigger w in Words(LineCmd(l))} | w in Words(LineCmd(l)) ensures IsWord(line, w) {
      LineWords(l, w, []);
      TokensGood(line, 0, W(w));
    }
  }
}
