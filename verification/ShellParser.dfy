/**
 The shell's parser (user/sh.c), over characters: a cursor that moves along the line,
 looking one token ahead, and then NULs written over the line so that each word becomes
 a string in place.
 */
module ShellParser {

  import opened ShellGrammar

  predicate IsSpace(c: char) {
    c == ' ' || c == '\t' || c == '\r' || c == '\n' || c == '\U{000B}'
  }

  predicate IsSymbol(c: char) {
    c == '<' || c == '|' || c == '>' || c == '&' || c == ';' || c == '(' || c == ')'
  }

  predicate InWord(c: char) {
    !IsSpace(c) && !IsSymbol(c)
  }

  // ---------------------------------------------------------------- the tokens of a line

  function Skip(line: string, i: nat): (j: nat)
    requires i <= |line|
    ensures i <= j <= |line| && (j < |line| ==> !IsSpace(line[j])) && forall k :: i <= k < j ==> IsSpace(line[k])
    decreases |line| - i
  {
    if i < |line| && IsSpace(line[i]) then Skip(line, i + 1) else i
  }

  function WordEnd(line: string, i: nat): (j: nat)
    requires i <= |line|
    ensures i <= j <= |line| && (j < |line| ==> !InWord(line[j])) && forall k :: i <= k < j ==> InWord(line[k])
    decreases |line| - i
  {
    if i < |line| && InWord(line[i]) then WordEnd(line, i + 1) else i
  }

  /** The token at i, which is not a space. */
  function TokAt(line: string, i: nat): Tok
    requires i < |line| && !IsSpace(line[i])
  {
    if line[i] == '>' && i + 1 < |line| && line[i + 1] == '>' then Append
    else if IsSymbol(line[i]) then Sym(line[i])
    else W(Word(i, WordEnd(line, i)))
  }

  /** Where it ends. */
  function TokEnd(line: string, i: nat): (j: nat)
    requires i < |line| && !IsSpace(line[i])
    ensures i < j <= |line|
  {
    if line[i] == '>' && i + 1 < |line| && line[i + 1] == '>' then i + 2
    else if IsSymbol(line[i]) then i + 1
    else WordEnd(line, i)
  }

  function Tokens(line: string, i: nat): seq<Tok>
    requires i <= |line|
    decreases |line| - i
  {
    var j := Skip(line, i);
    if j == |line| then [] else [TokAt(line, j)] + Tokens(line, TokEnd(line, j))
  }

  lemma {:induction false} TokensSkip(line: string, i: nat)
    requires i <= |line|
    ensures Tokens(line, Skip(line, i)) == Tokens(line, i)
  {
    assert Skip(line, Skip(line, i)) == Skip(line, i);
  }

  /** The character that stands for a token: what gettoken() returns. */
  function TokChar(t: Tok): char {
    match t
    case Sym(c) => c
    case Append => '+'
    case W(_) => 'a'
  }

  /** The character a token starts with, if it is a symbol. */
  function Lead(t: Tok): char {
    if t.Append? then '>' else TokChar(t)
  }

  /** Every token of a line is a symbol or a word. */
  ghost predicate GoodTok(line: string, t: Tok) {
    match t
    case Sym(c) => IsSymbol(c)
    case Append => true
    case W(w) => IsWord(line, w)
  }

  /** The characters from q up to eq, and no more, make up a word. */
  ghost predicate IsWord(line: string, w: Word) {
    && w.q < w.eq <= |line| && (w.eq < |line| ==> !InWord(line[w.eq]))
    && forall k :: w.q <= k < w.eq ==> InWord(line[k])
  }

  lemma {:induction false} TokensGood(line: string, i: nat, t: Tok)
    requires i <= |line| && t in Tokens(line, i)
    ensures GoodTok(line, t)
    decreases |line| - i
  {
    var j := Skip(line, i);
    if t != TokAt(line, j) {
      TokensGood(line, TokEnd(line, j), t);
    }
  }

  // ---------------------------------------------------------------- the text of a line

  const WHITESPACE: string := " \t\r\n\U{000B}"
  const SYMBOLS: string := "<|>&;()"

  /** A token as it is written: a symbol, ">>", or the characters of a word. */
  datatype Piece = Symbol(c: char) | Twice | Text(w: string)

  function Spelling(p: Piece): string {
    match p
    case Symbol(c) => [c]
    case Twice => ">>"
    case Text(w) => w
  }

  predicate GoodPiece(p: Piece) {
    match p
    case Symbol(c) => c in SYMBOLS
    case Twice => true
    case Text(w) => w != [] && forall k :: 0 <= k < |w| ==> w[k] !in WHITESPACE && w[k] !in SYMBOLS
  }

  /** A word goes on as long as it can, and so does a ">". */
  predicate EndsAt(p: Piece, line: string, n: nat) {
    n < |line| ==>
      && (p.Text? ==> line[n] in WHITESPACE || line[n] in SYMBOLS)
      && (p == Symbol('>') ==> line[n] != '>')
  }

  /** From i on the line is these pieces, with whitespace before, between and after them. */
  ghost predicate Reads(line: string, i: nat, ps: seq<Piece>)
    decreases |ps|
  {
    if ps == [] then i <= |line| && Blank(line, i, |line|)
    else exists g: nat, n: nat {:trigger ReadsOne(line, i, ps[0], g, n)} ::
      ReadsOne(line, i, ps[0], g, n) && Reads(line, n, ps[1..])
  }

  ghost predicate Blank(line: string, i: nat, j: nat) {
    forall k :: i <= k < j && k < |line| ==> line[k] in WHITESPACE
  }

  ghost predicate ReadsOne(line: string, i: nat, p: Piece, g: nat, n: nat) {
    && i <= g <= n <= |line| && Blank(line, i, g) && GoodPiece(p) && line[g..n] == Spelling(p) && EndsAt(p, line, n)
  }

  function Pieces(line: string, ts: seq<Tok>): seq<Piece> {
    if ts == [] then [] else [PieceOf(line, ts[0])] + Pieces(line, ts[1..])
  }

  function PieceOf(line: string, t: Tok): Piece {
    match t
    case Sym(c) => Symbol(c)
    case Append => Twice
    case W(w) => Text(if w.q <= w.eq <= |line| then line[w.q..w.eq] else "")
  }

  lemma {:induction false} CharClasses(c: char)
    ensures IsSpace(c) <==> c in WHITESPACE
    ensures IsSymbol(c) <==> c in SYMBOLS
  {
    assert WHITESPACE[0] == ' ' && WHITESPACE[1] == '\t' && WHITESPACE[2] == '\r' && WHITESPACE[3] == '\n' &&
      WHITESPACE[4] == '\U{000B}';
    assert SYMBOLS[0] == '<' && SYMBOLS[1] == '|' && SYMBOLS[2] == '>' && SYMBOLS[3] == '&' && SYMBOLS[4] == ';' &&
      SYMBOLS[5] == '(' && SYMBOLS[6] == ')';
  }

  /** The piece read at g is the token there. */
  lemma {:induction false} PieceIsTok(line: string, i: nat, p: Piece, g: nat, n: nat)
    requires ReadsOne(line, i, p, g, n)
    ensures g == Skip(line, i) < |line| && n == TokEnd(line, g) && p == PieceOf(line, TokAt(line, g))
  {
    forall c: char ensures (IsSpace(c) <==> c in WHITESPACE) && (IsSymbol(c) <==> c in SYMBOLS) { CharClasses(c); }
    var w := Spelling(p);
    assert |w| == n - g && forall k :: 0 <= k < |w| ==> line[g + k] == w[k];
    assert !IsSpace(line[g]);
    match p
    case Symbol(c) => assert line[g] == c;
    case Twice => assert line[g] == '>' && line[g + 1] == '>';
    case Text(t) =>
      forall k | g <= k < n ensures InWord(line[k]) { assert line[k] == t[k - g]; }
      assert WordEnd(line, g) == n;
  }

  /** And the token there can be read. */
  lemma {:induction false} TokIsPiece(line: string, i: nat)
    requires i <= |line| && Skip(line, i) < |line|
    ensures var g := Skip(line, i); ReadsOne(line, i, PieceOf(line, TokAt(line, g)), g, TokEnd(line, g))
  {
    forall c: char ensures (IsSpace(c) <==> c in WHITESPACE) && (IsSymbol(c) <==> c in SYMBOLS) { CharClasses(c); }
  }

  /** The tokens of a line are the pieces it can be read as, and there is one way to read it. */
  lemma {:induction false} TokensAre(line: string, i: nat, ps: seq<Piece>)
    requires i <= |line|
    ensures Reads(line, i, ps) <==> Pieces(line, Tokens(line, i)) == ps
    decreases |line| - i
  {
    forall c: char ensures IsSpace(c) <==> c in WHITESPACE { CharClasses(c); }
    var j := Skip(line, i);
    if j == |line| {
      if ps != [] && Reads(line, i, ps) {
        var g: nat, n: nat :| ReadsOne(line, i, ps[0], g, n) && Reads(line, n, ps[1..]);
        PieceIsTok(line, i, ps[0], g, n);
      }
    } else {
      var n := TokEnd(line, j);
      TokIsPiece(line, i);
      var ts := Tokens(line, i);
      assert ts[1..] == Tokens(line, n);
      if ps == [] {
        assert line[j] !in WHITESPACE;
      } else {
        TokensAre(line, n, ps[1..]);
        if Reads(line, i, ps) {
          var g: nat, m: nat :| ReadsOne(line, i, ps[0], g, m) && Reads(line, m, ps[1..]);
          PieceIsTok(line, i, ps[0], g, m);
          assert [ps[0]] + ps[1..] == ps;
        }
        if Pieces(line, ts) == ps {
          assert ps[0] == PieceOf(line, ts[0]) && ps[1..] == Pieces(line, ts[1..]);
          assert ReadsOne(line, i, ps[0], j, n) && Reads(line, n, ps[1..]);
        }
      }
    }
  }

  // ---------------------------------------------------------------- the parser

  datatype Result<T> = Good(value: T) | Panicked

  /** What parseline() makes of some tokens: the command of the tree, and the tokens after it. */
  ghost predicate LineParsed(ts: seq<Tok>, r: Result<Cmd>, ahead: seq<Tok>) {
    match PLine(ts)
    case Ok(l, rest) => r == Good(LineCmd(l)) && ahead == rest
    case Panic => r == Panicked
  }

  /** And of a ';' and what follows, with a command before it. */
  ghost predicate RestParsed(ts: seq<Tok>, cmd: Cmd, r: Result<Cmd>, ahead: seq<Tok>) {
    if !StartsWith(ts, ';') then r == Good(cmd) && ahead == ts
    else match PLine(ts[1..])
      case Ok(l, rest) => r == Good(List(cmd, LineCmd(l))) && ahead == rest
      case Panic => r == Panicked
  }

  lemma {:induction false} LineStep(ts: seq<Tok>, first: Cmd, ts1: seq<Tok>, ts2: seq<Tok>, r: Result<Cmd>,
                                    ahead: seq<Tok>)
    requires PPipe(ts).Ok? && first == PipeCmd(PPipe(ts).value) && ts1 == PPipe(ts).rest
    requires ts2 == ts1[CountAnds(ts1)..] && RestParsed(ts2, Backs(first, CountAnds(ts1)), r, ahead)
    ensures LineParsed(ts, r, ahead)
  {
  }

  class Parser {
    const line: string
    var s: nat

    ghost predicate Valid()
      reads this
    {
      s <= |line| && '\0' !in line
    }

    /** The tokens still to come. */
    ghost function Ahead(): seq<Tok>
      reads this
      requires Valid()
    {
      Tokens(line, s)
    }

    constructor (line: string)
      requires '\0' !in line
      ensures Valid() && s == 0 && this.line == line
    {
      this.line := line;
      s := 0;
    }

    method SkipSpace(from: nat) returns (i: nat)
      requires from <= |line|
      ensures i == Skip(line, from)
    {
      i := from;
      while i < |line| && IsSpace(line[i])
        invariant from <= i <= |line| && Skip(line, i) == Skip(line, from)
      {
        i := i + 1;
      }
    }

    /** The next token, and where it begins and ends; NUL at the end of the line. */
    method GetToken() returns (ret: char, q: nat, eq: nat)
      requires Valid()
      modifies this
      ensures Valid() && old(s) <= s && q <= eq
      ensures old(Ahead()) == [] ==> ret == '\0' && Ahead() == []
      ensures old(Ahead()) != [] ==>
        && old(s) < s && Ahead() == old(Ahead())[1..] && ret == TokChar(old(Ahead())[0])
        && (old(Ahead())[0].W? ==> old(Ahead())[0].word == Word(q, eq)) && GoodTok(line, old(Ahead())[0])
    {
      q := SkipSpace(s);
      var i := q;
      if i == |line| {
        ret := '\0';
      } else if line[i] == '|' || line[i] == '(' || line[i] == ')' || line[i] == ';' || line[i] == '&' ||
        line[i] == '<' {
        ret := line[i];
        i := i + 1;
      } else if line[i] == '>' {
        ret := line[i];
        i := i + 1;
        if i < |line| && line[i] == '>' {
          ret := '+';
          i := i + 1;
        }
      } else {
        ret := 'a';
        while i < |line| && !IsSpace(line[i]) && !IsSymbol(line[i])
          invariant q <= i <= |line| && WordEnd(line, i) == WordEnd(line, q)
        {
          i := i + 1;
        }
      }
      eq := i;
      assert q < |line| ==> eq == TokEnd(line, q);
      i := SkipSpace(i);
      TokensSkip(line, eq);
      if q < |line| { TokensGood(line, s, TokAt(line, q)); }
      s := i;
    }

    /** Is the next token one that begins with one of these symbols?  The cursor moves past spaces only. */
    method Peek(toks: string) returns (b: bool)
      requires Valid() && forall k :: 0 <= k < |toks| ==> IsSymbol(toks[k])
      modifies this
      ensures Valid() && old(s) <= s && s == Skip(line, old(s)) && Ahead() == old(Ahead())
      ensures b <==> Ahead() != [] && Lead(Ahead()[0]) in toks
    {
      var i := SkipSpace(s);
      TokensSkip(line, s);
      s := i;
      b := i < |line| && line[i] in toks;
    }

    /** Redirections, in order. */
    method ParseRedirs() returns (r: Result<seq<Redir>>)
      requires Valid()
      modifies this
      ensures Valid() && old(s) <= s
      ensures match PRedirs(old(Ahead()))
              case Ok(rs, rest) => r == Good(rs) && Ahead() == rest
              case Panic => r == Panicked
    {
      var done: seq<Redir> := [];
      ghost var ts0 := Ahead();
      PrependedStart(ts0);
      var more := Peek("<>");
      AngleToks();
      while more
        invariant Valid() && old(s) <= s && (more <==> Ahead() != [] && IsRedir(Ahead()[0]))
        invariant Prepended(ts0, done, Ahead())
        decreases |line| - s
      {
        ghost var ts := Ahead();
        var tok, _, _ := GetToken();
        var word, q, eq := GetToken();
        RedirStep(ts0, done, ts);
        if word != 'a' { return Panicked; }
        done := done + [Redir(if tok == '<' then In else if tok == '>' then Out else Add, Word(q, eq))];
        more := Peek("<>");
      }
      PrependedEnd(ts0, done, Ahead());
      r := Good(done);
    }

    /**
     A command's words and redirections.  In the source the node for the command is made first and its words are put
     in it as they are found, inside the redirections that already lead to it; here it is made at the end.
     */
    method ParseExec() returns (r: Result<Cmd>)
      requires Valid()
      modifies this
      ensures Valid() && old(s) <= s
      ensures match PExec(old(Ahead()))
              case Ok(e, rest) => r == Good(ExecCmd(e)) && Ahead() == rest
              case Panic => r == Panicked
      decreases |line| - s, 0
    {
      OneTok('(');
      var block := Peek("(");
      if block {
        r := ParseBlock();
        return;
      }
      var first := ParseRedirs();
      if first == Panicked { return Panicked; }
      r := ParseArgs(first.value);
    }

    /** The words of a command, each with the redirections after it; rs0 came before them. */
    method ParseArgs(rs0: seq<Redir>) returns (r: Result<Cmd>)
      requires Valid()
      modifies this
      ensures Valid() && old(s) <= s
      ensures match PArgs(old(Ahead()), 0)
              case Ok(args, rest) => r == Good(Wrap(Exec(ArgWords(args)), rs0 + ArgRedirs(args))) && Ahead() == rest
              case Panic => r == Panicked
    {
      var argv: seq<Word>, redirs := [], rs0;
      ghost var done: seq<Arg>, ts0 := [], Ahead();
      ArgsStarted(ts0, rs0);
      EndToks();
      var stop := Peek("|)&;");
      while !stop
        invariant Valid() && old(s) <= s && (stop <==> Ahead() != [] && EndsArgs(Ahead()))
        invariant ArgsPrepended(ts0, done, Ahead()) && argv == ArgWords(done) && redirs == rs0 + ArgRedirs(done)
        decreases |line| - s
      {
        ghost var ts := Ahead();
        var tok, q, eq := GetToken();
        if tok == '\0' { break; }
        if tok != 'a' { return Panicked; }
        argv := argv + [Word(q, eq)];
        if |argv| >= MAXARGS { return Panicked; }
        var more := ParseRedirs();
        ArgsStep(ts0, done, ts);
        if more == Panicked { return Panicked; }
        ArgsMore(done, Arg(Word(q, eq), more.value), rs0);
        redirs := redirs + more.value;
        done := done + [Arg(Word(q, eq), more.value)];
        stop := Peek("|)&;");
      }
      ArgsEnded(ts0, done, Ahead());
      r := Good(Wrap(Exec(argv), redirs));
    }

    method ParseBlock() returns (r: Result<Cmd>)
      requires Valid() && StartsWith(Ahead(), '(')
      modifies this
      ensures Valid() && old(s) <= s
      ensures match PBlock(old(Ahead()))
              case Ok(e, rest) => r == Good(ExecCmd(e)) && Ahead() == rest
              case Panic => r == Panicked
      decreases |line| - s - 1, 3
    {
      var _, _, _ := GetToken();
      var inner := ParseLine();
      if inner == Panicked { return Panicked; }
      OneTok(')');
      var close := Peek(")");
      if !close { return Panicked; }
      var _, _, _ := GetToken();
      var rs := ParseRedirs();
      if rs == Panicked { return Panicked; }
      r := Good(Wrap(inner.value, rs.value));
    }

    method ParsePipe() returns (r: Result<Cmd>)
      requires Valid()
      modifies this
      ensures Valid() && old(s) <= s
      ensures match PPipe(old(Ahead()))
              case Ok(p, rest) => r == Good(PipeCmd(p)) && Ahead() == rest
              case Panic => r == Panicked
      decreases |line| - s, 1
    {
      var first := ParseExec();
      if first == Panicked { return Panicked; }
      OneTok('|');
      var more := Peek("|");
      if !more { return first; }
      var _, _, _ := GetToken();
      var rest := ParsePipe();
      if rest == Panicked { return Panicked; }
      r := Good(Pipe(first.value, rest.value));
    }

    method ParseLine() returns (r: Result<Cmd>)
      requires Valid()
      modifies this
      ensures Valid() && old(s) <= s
      ensures LineParsed(old(Ahead()), r, Ahead())
      decreases |line| - s, 2
    {
      var first := ParsePipe();
      if first == Panicked { return Panicked; }
      ghost var ts1 := Ahead();
      var cmd := ParseBacks(first.value);
      ghost var ts2 := Ahead();
      r := ParseRest(cmd);
      LineStep(old(Ahead()), first.value, ts1, ts2, r, Ahead());
    }

    /** The rest of a line, after a ';', if there is one. */
    method ParseRest(cmd: Cmd) returns (r: Result<Cmd>)
      requires Valid()
      modifies this
      ensures Valid() && old(s) <= s
      ensures RestParsed(old(Ahead()), cmd, r, Ahead())
      decreases |line| - s, 1
    {
      OneTok(';');
      var more := Peek(";");
      if !more { return Good(cmd); }
      var _, _, _ := GetToken();
      var rest := ParseLine();
      if rest == Panicked { return Panicked; }
      r := Good(List(cmd, rest.value));
    }

    /** As many '&' as there are. */
    method ParseBacks(first: Cmd) returns (cmd: Cmd)
      requires Valid()
      modifies this
      ensures Valid() && old(s) <= s
      ensures var n := CountAnds(old(Ahead())); cmd == Backs(first, n) && Ahead() == old(Ahead())[n..]
    {
      cmd := first;
      ghost var n, ts0 := 0, Ahead();
      OneTok('&');
      var more := Peek("&");
      while more
        invariant Valid() && old(s) <= s && (more <==> StartsWith(Ahead(), '&')) && cmd == Backs(first, n)
        invariant n <= |ts0| && Ahead() == ts0[n..] && CountAnds(ts0) == n + CountAnds(Ahead())
        decreases |line| - s
      {
        var _, _, _ := GetToken();
        BacksMore(first, n);
        cmd := Back(cmd);
        n := n + 1;
        more := Peek("&");
      }
    }
  }

  lemma {:induction false} AngleToks()
    ensures forall t {:trigger Lead(t)} :: Lead(t) in "<>" <==> IsRedir(t)
  {
    forall t {:trigger Lead(t)} ensures Lead(t) in "<>" <==> IsRedir(t) {
      assert "<>"[0] == '<' && "<>"[1] == '>';
    }
  }

  lemma {:induction false} PrependedStart(ts: seq<Tok>)
    ensures Prepended(ts, [], ts)
  {
    if PRedirs(ts).Ok? { assert [] + PRedirs(ts).value == PRedirs(ts).value; }
  }

  lemma {:induction false} PrependedEnd(ts0: seq<Tok>, done: seq<Redir>, ts: seq<Tok>)
    requires Prepended(ts0, done, ts) && (ts == [] || !IsRedir(ts[0]))
    ensures PRedirs(ts0) == Ok(done, ts)
  {
    assert done + [] == done;
  }

  lemma {:induction false} OneTok(c: char)
    requires IsSymbol(c) && c != '>'
    ensures forall t {:trigger Lead(t)} :: Lead(t) in [c] <==> t == Sym(c)
  {
  }

  lemma {:induction false} EndToks()
    ensures forall t {:trigger Lead(t)} :: Lead(t) in "|)&;" <==> EndsArgs([t])
  {
    forall t {:trigger Lead(t)} ensures Lead(t) in "|)&;" <==> EndsArgs([t]) {
      assert "|)&;"[0] == '|' && "|)&;"[1] == ')' && "|)&;"[2] == '&' && "|)&;"[3] == ';';
    }
  }

  /** Arguments parsed from ts0 are done, and then those parsed from ts. */
  ghost predicate ArgsPrepended(ts0: seq<Tok>, done: seq<Arg>, ts: seq<Tok>) {
    match PArgs(ts, |done|)
    case Ok(args, rest) => PArgs(ts0, 0) == Ok(done + args, rest)
    case Panic => PArgs(ts0, 0) == Panic
  }

  lemma {:induction false} ArgsStarted(ts: seq<Tok>, rs0: seq<Redir>)
    ensures ArgsPrepended(ts, [], ts) && ArgWords([]) == [] && rs0 + ArgRedirs([]) == rs0
  {
    if PArgs(ts, 0).Ok? { assert [] + PArgs(ts, 0).value == PArgs(ts, 0).value; }
  }

  lemma {:induction false} ArgsStep(ts0: seq<Tok>, done: seq<Arg>, ts: seq<Tok>)
    requires ArgsPrepended(ts0, done, ts) && !EndsArgs(ts) && ts[0].W? && |done| + 1 < MAXARGS
    ensures match PRedirs(ts[1..])
            case Ok(rs, rest) => ArgsPrepended(ts0, done + [Arg(ts[0].word, rs)], rest)
            case Panic => PArgs(ts0, 0) == Panic
  {
    match PRedirs(ts[1..])
    case Panic =>
    case Ok(rs, rest) =>
      if PArgs(rest, |done| + 1).Ok? {
        var a, args := Arg(ts[0].word, rs), PArgs(rest, |done| + 1).value;
        assert done + ([a] + args) == (done + [a]) + args;
      }
  }

  lemma {:induction false} ArgsEnded(ts0: seq<Tok>, done: seq<Arg>, ts: seq<Tok>)
    requires ArgsPrepended(ts0, done, ts) && EndsArgs(ts)
    ensures PArgs(ts0, 0) == Ok(done, ts)
  {
    assert done + [] == done;
  }

  lemma {:induction false} ArgsMore(done: seq<Arg>, a: Arg, rs0: seq<Redir>)
    ensures ArgWords(done + [a]) == ArgWords(done) + [a.word]
    ensures rs0 + ArgRedirs(done + [a]) == (rs0 + ArgRedirs(done)) + a.redirs
    decreases |done|
  {
    if done == [] {
      assert [] + [a] == [a];
      assert a.redirs + [] == a.redirs && rs0 + [] == rs0;
    } else {
      ArgsMore(done[1..], a, []);
      assert (done + [a])[1..] == done[1..] + [a];
      assert [] + ArgRedirs(done[1..] + [a]) == ArgRedirs(done[1..] + [a]) &&
        [] + ArgRedirs(done[1..]) == ArgRedirs(done[1..]);
      var d, e := done[0].redirs, ArgRedirs(done[1..]);
      assert rs0 + (d + (e + a.redirs)) == (rs0 + (d + e)) + a.redirs;
    }
  }

  /** What is parsed from ts0 is done, and then what is parsed from ts. */
  ghost predicate Prepended(ts0: seq<Tok>, done: seq<Redir>, ts: seq<Tok>) {
    match PRedirs(ts)
    case Ok(rs, rest) => PRedirs(ts0) == Ok(done + rs, rest)
    case Panic => PRedirs(ts0) == Panic
  }

  lemma {:induction false} RedirStep(ts0: seq<Tok>, done: seq<Redir>, ts: seq<Tok>)
    requires Prepended(ts0, done, ts) && ts != [] && IsRedir(ts[0])
    ensures |ts| > 1 && ts[1].W? ==> Prepended(ts0, done + [Redir(KindOf(ts[0]), ts[1].word)], ts[2..])
    ensures !(|ts| > 1 && ts[1].W?) ==> PRedirs(ts0) == Panic
  {
    if |ts| > 1 && ts[1].W? && PRedirs(ts[2..]).Ok? {
      var d, rs := Redir(KindOf(ts[0]), ts[1].word), PRedirs(ts[2..]).value;
      assert done + ([d] + rs) == (done + [d]) + rs;
    }
  }
}
