/**
 grep (user/grep.c): the matcher for patterns of literals, '.', 'c*', a leading '^' and
 a final '$', against what such a pattern denotes; and the loop that reads a file
 through a buffer of fixed size, editing it in place.

 Patterns and lines are C strings without their terminating NUL.
 */
module Grep {

  // ---------------------------------------------------------------- what a pattern denotes

  datatype Atom = Lit(c: char) | Any

  datatype Item = One(a: Atom) | Star(a: Atom)

  /** A pattern without its leading '^': items, and whether what they match must be followed by the end. */
  datatype Pattern = Pattern(items: seq<Item>, end: bool)

  function AtomOf(c: char): Atom {
    if c == '.' then Any else Lit(c)
  }

  predicate Fits(a: Atom, c: char) {
    a.Any? || a.c == c
  }

  function Parse(re: string): Pattern {
    if re == [] then Pattern([], false)
    else if |re| > 1 && re[1] == '*' then Then(Star(AtomOf(re[0])), Parse(re[2..]))
    else if re == "$" then Pattern([], true)
    else Then(One(AtomOf(re[0])), Parse(re[1..]))
  }

  function Then(item: Item, p: Pattern): Pattern {
    Pattern([item] + p.items, p.end)
  }

  ghost predicate AllFit(a: Atom, w: string) {
    forall i {:trigger w[i]} :: 0 <= i < |w| ==> Fits(a, w[i])
  }

  /** w is in the language of the items: for c*, any number of characters that fit. */
  ghost predicate InLang(items: seq<Item>, w: string)
    decreases |items|
  {
    if items == [] then w == []
    else match items[0]
      case One(a) => w != [] && Fits(a, w[0]) && InLang(items[1..], w[1..])
      case Star(a) => exists j :: 0 <= j <= |w| && AllFit(a, w[..j]) && InLang(items[1..], w[j..])
  }

  /** Some prefix of the text is in the language; the whole text, if the pattern says so. */
  ghost predicate MatchesHere(p: Pattern, text: string) {
    exists k :: Prefix(p, text, k)
  }

  ghost predicate Prefix(p: Pattern, text: string, k: int) {
    0 <= k <= |text| && InLang(p.items, text[..k]) && (p.end ==> k == |text|)
  }

  /** The pattern matches somewhere in the text; with '^', at its start. */
  ghost predicate Matches(re: string, text: string) {
    if re != [] && re[0] == '^' then MatchesHere(Parse(re[1..]), text)
    else exists i :: 0 <= i <= |text| && MatchesHere(Parse(re), text[i..])
  }

  // ---------------------------------------------------------------- how a pattern is written

  function SpellAtom(a: Atom): char {
    match a
    case Any => '.'
    case Lit(c) => c
  }

  function SpellItem(item: Item): string {
    match item
    case One(a) => [SpellAtom(a)]
    case Star(a) => [SpellAtom(a), '*']
  }

  function Spell(p: Pattern): string
    decreases |p.items|
  {
    if p.items == [] then (if p.end then "$" else "") else SpellItem(p.items[0]) + Spell(Rest(p))
  }

  function Rest(p: Pattern): Pattern
    requires p.items != []
  {
    Pattern(p.items[1..], p.end)
  }

  /**
   What can be written: a literal is no '.', a '*' does not come after a single character, and a '$' that is to be
   matched does not come last.
   */
  predicate CanSpell(p: Pattern)
    decreases |p.items|
  {
    p.items != [] ==>
      && p.items[0].a != Lit('.') && CanSpell(Rest(p))
      && (p.items[0].One? ==> if Spell(Rest(p)) == [] then p.items[0].a != Lit('$') else Spell(Rest(p))[0] != '*')
  }

  /** Every pattern that can be written is read as it was meant. */
  lemma {:induction false} ReadAsSpelled(p: Pattern)
    requires CanSpell(p)
    ensures Parse(Spell(p)) == p
    decreases |p.items|
  {
    if p.items != [] {
      var item, rest := p.items[0], Rest(p);
      ReadAsSpelled(rest);
      assert Then(item, rest) == p;
      var re := Spell(p);
      if item.Star? {
        assert re[2..] == Spell(rest);
      } else {
        assert re[1..] == Spell(rest);
      }
    }
  }

  /** And every string is the writing of the pattern it is read as. */
  lemma {:induction false} SpelledAsRead(re: string)
    ensures CanSpell(Parse(re)) && Spell(Parse(re)) == re
    decreases |re|
  {
    if re != [] && re != "$" {
      var star := |re| > 1 && re[1] == '*';
      var rest := if star then re[2..] else re[1..];
      SpelledAsRead(rest);
      assert Rest(Parse(re)) == Parse(rest);
      assert re == (if star then [re[0], '*'] else [re[0]]) + rest;
    }
  }

  /** What the strings mean: with a '^' in front a pattern must match at the start of the text, without one anywhere. */
  lemma {:induction false} MeansAsSpelled(p: Pattern, text: string)
    requires CanSpell(p)
    ensures Matches("^" + Spell(p), text) <==> MatchesHere(p, text)
    ensures (Spell(p) == [] || Spell(p)[0] != '^') ==>
      (Matches(Spell(p), text) <==> exists i :: 0 <= i <= |text| && MatchesHere(p, text[i..]))
  {
    ReadAsSpelled(p);
    assert ("^" + Spell(p))[1..] == Spell(p);
  }

  // ---------------------------------------------------------------- the matcher

  lemma {:induction false} OneHere(a: Atom, p: Pattern, text: string)
    ensures MatchesHere(Then(One(a), p), text) <==> text != [] && Fits(a, text[0]) && MatchesHere(p, text[1..])
  {
    var q := Then(One(a), p);
    assert q.items[1..] == p.items;
    if MatchesHere(q, text) {
      var k :| Prefix(q, text, k);
      assert text[..k][1..] == text[1..][..k - 1];
      assert Prefix(p, text[1..], k - 1);
    }
    if text != [] && Fits(a, text[0]) && MatchesHere(p, text[1..]) {
      var k :| Prefix(p, text[1..], k);
      assert text[..k + 1][1..] == text[1..][..k];
      assert Prefix(q, text, k + 1);
    }
  }

  /** After j characters that fit, the rest of the pattern matches. */
  ghost predicate StarAt(a: Atom, p: Pattern, text: string, j: int) {
    0 <= j <= |text| && AllFit(a, text[..j]) && MatchesHere(p, text[j..])
  }

  lemma {:induction false} StarHere(a: Atom, p: Pattern, text: string)
    ensures MatchesHere(Then(Star(a), p), text) <==> exists j :: StarAt(a, p, text, j)
  {
    var q := Then(Star(a), p);
    assert q.items[1..] == p.items;
    if MatchesHere(q, text) {
      var k :| Prefix(q, text, k);
      var j :| 0 <= j <= |text[..k]| && AllFit(a, text[..k][..j]) && InLang(p.items, text[..k][j..]);
      assert text[..k][..j] == text[..j] && text[..k][j..] == text[j..][..k - j];
      assert Prefix(p, text[j..], k - j);
      assert StarAt(a, p, text, j);
    }
    if exists j :: StarAt(a, p, text, j) {
      var j :| StarAt(a, p, text, j);
      var k :| Prefix(p, text[j..], k);
      assert text[..j + k][..j] == text[..j] && text[..j + k][j..] == text[j..][..k];
      assert Prefix(q, text, j + k);
    }
  }

  lemma {:induction false} EndHere(text: string)
    ensures MatchesHere(Pattern([], true), text) <==> text == []
  {
    assert Prefix(Pattern([], true), text, |text|) <==> text == [];
    if MatchesHere(Pattern([], true), text) {
      var k :| Prefix(Pattern([], true), text, k);
    }
  }

  /** How a string matches at the start of a text, character by character. */
  lemma {:induction false} MatchLaws(c: char, re: string, text: string)
    ensures MatchesHere(Parse(""), text) && (MatchesHere(Parse("$"), text) <==> text == [])
    ensures (re == [] || re[0] != '*') && [c] + re != "$" ==>
      (MatchesHere(Parse([c] + re), text) <==>
       text != [] && (c == '.' || c == text[0]) && MatchesHere(Parse(re), text[1..]))
    ensures MatchesHere(Parse([c, '*'] + re), text) <==>
      exists j :: 0 <= j <= |text| && (forall i :: 0 <= i < j ==> c == '.' || text[i] == c) &&
        MatchesHere(Parse(re), text[j..])
  {
    assert Prefix(Parse(""), text, 0);
    EndHere(text);
    var one, star := [c] + re, [c, '*'] + re;
    assert one[1..] == re && star[2..] == re;
    OneHere(AtomOf(c), Parse(re), text);
    StarHere(AtomOf(c), Parse(re), text);
    forall j | 0 <= j <= |text|
      ensures StarAt(AtomOf(c), Parse(re), text, j) <==>
        (forall i :: 0 <= i < j ==> c == '.' || text[i] == c) && MatchesHere(Parse(re), text[j..])
    {
      forall i | 0 <= i < j ensures Fits(AtomOf(c), text[..j][i]) <==> c == '.' || text[i] == c {}
    }
  }

  method MatchHere(re: string, text: string) returns (b: bool)
    ensures b <==> MatchesHere(Parse(re), text)
    decreases |re|, 0
  {
    if re == [] {
      assert Prefix(Parse(re), text, 0);
      return true;
    }
    if |re| > 1 && re[1] == '*' {
      assert Parse(re) == Then(Star(AtomOf(re[0])), Parse(re[2..]));
      StarHere(AtomOf(re[0]), Parse(re[2..]), text);
      b := MatchStar(re[0], re[2..], text);
      return;
    }
    if re[0] == '$' && |re| == 1 {
      assert re == "$";
      EndHere(text);
      b := text == [];
      return;
    }
    assert re != "$";
    OneHere(AtomOf(re[0]), Parse(re[1..]), text);
    if text != [] && (re[0] == '.' || re[0] == text[0]) {
      b := MatchHere(re[1..], text[1..]);
      return;
    }
    b := false;
  }

  method MatchStar(c: char, re: string, text: string) returns (b: bool)
    ensures b <==> exists j :: StarAt(AtomOf(c), Parse(re), text, j)
    decreases |re|, 1
  {
    var i := 0;
    while true
      invariant 0 <= i <= |text| && AllFit(AtomOf(c), text[..i])
      invariant forall j {:trigger StarAt(AtomOf(c), Parse(re), text, j)} :: 0 <= j < i ==>
        !StarAt(AtomOf(c), Parse(re), text, j)
      decreases |text| - i
    {
      var here := MatchHere(re, text[i..]);
      if here {
        assert StarAt(AtomOf(c), Parse(re), text, i);
        return true;
      }
      if i == |text| || !(text[i] == c || c == '.') {
        forall j {:trigger StarAt(AtomOf(c), Parse(re), text, j)} | i < j
          ensures !StarAt(AtomOf(c), Parse(re), text, j)
        {
          assert j <= |text| ==> text[..j][i] == text[i];
        }
        return false;
      }
      assert text[..i + 1] == text[..i] + [text[i]];
      i := i + 1;
    }
  }

  /** The matcher decides exactly what the pattern denotes. */
  method Match(re: string, text: string) returns (b: bool)
    ensures b <==> Matches(re, text)
  {
    if re != [] && re[0] == '^' {
      b := MatchHere(re[1..], text);
      return;
    }
    var i := 0;
    while true
      invariant 0 <= i <= |text|
      invariant forall j {:trigger text[j..]} :: 0 <= j < i ==> !MatchesHere(Parse(re), text[j..])
      decreases |text| - i
    {
      b := MatchHere(re, text[i..]);
      if b { return; }
      if i == |text| { return false; }
      i := i + 1;
    }
  }

  // ---------------------------------------------------------------- the loop

  const BUFSIZE: nat := 1024

  /** The first newline, or the length if there is none. */
  function FirstNewline(s: string): (i: nat)
    ensures i <= |s| && (i < |s| ==> s[i] == '\n') && forall j :: 0 <= j < i ==> s[j] != '\n'
  {
    if s == [] || s[0] == '\n' then 0 else 1 + FirstNewline(s[1..])
  }

  /** What grep should write: every line that ends in a newline and matches, with its newline. */
  ghost function MatchingLines(re: string, s: string): string
    decreases |s|
  {
    var i := FirstNewline(s);
    if i == |s| then [] else (if Matches(re, s[..i]) then s[..i + 1] else []) + MatchingLines(re, s[i + 1..])
  }

  /** A line, without its newline, that fills the buffer or in which strchr() finds a NUL first. */
  predicate Blocks(line: string) {
    |line| >= BUFSIZE - 1 || '\0' in line
  }

  /** What it does write: the same, up to the first line that blocks. */
  ghost function Emitted(re: string, s: string): string
    decreases |s|
  {
    var i := FirstNewline(s);
    if i == |s| || Blocks(s[..i]) then []
    else (if Matches(re, s[..i]) then s[..i + 1] else []) + Emitted(re, s[i + 1..])
  }

  /** The input from the first line on that blocks and ends in a newline. */
  function Unseen(s: string): string
    decreases |s|
  {
    var i := FirstNewline(s);
    if i == |s| then [] else if Blocks(s[..i]) then s else Unseen(s[i + 1..])
  }

  /** No line that ends in a newline matches. */
  ghost predicate NoneMatches(re: string, s: string)
    decreases |s|
  {
    var i := FirstNewline(s);
    i < |s| ==> !Matches(re, s[..i]) && NoneMatches(re, s[i + 1..])
  }

  lemma {:induction false} NoLines(re: string, s: string)
    ensures MatchingLines(re, s) == [] <==> NoneMatches(re, s)
    decreases |s|
  {
    var i := FirstNewline(s);
    if i < |s| {
      var line, rest := s[..i + 1], MatchingLines(re, s[i + 1..]);
      NoLines(re, s[i + 1..]);
      assert MatchingLines(re, s) == (if Matches(re, s[..i]) then line else []) + rest;
      assert |line| == i + 1 && |line + rest| == |line| + |rest|;
    }
  }

  lemma {:induction false} SeenAndUnseen(re: string, s: string)
    ensures MatchingLines(re, s) == Emitted(re, s) + MatchingLines(re, Unseen(s))
    decreases |s|
  {
    var i := FirstNewline(s);
    if i < |s| && !Blocks(s[..i]) {
      SeenAndUnseen(re, s[i + 1..]);
      var rest := s[i + 1..];
      Regroup(if Matches(re, s[..i]) then s[..i + 1] else [], Emitted(re, rest), MatchingLines(re, Unseen(rest)));
    }
  }

  /** It writes all it should exactly if no line from the first that blocks on matches. */
  lemma {:induction false} CompleteExactlyWhen(re: string, s: string)
    ensures Emitted(re, s) == MatchingLines(re, s) <==> NoneMatches(re, Unseen(s))
  {
    SeenAndUnseen(re, s);
    NoLines(re, Unseen(s));
  }

  /** Every line that ends in a newline is of at most 1022 characters and has no NUL. */
  predicate AllFitBuffer(s: string)
    decreases |s|
  {
    var i := FirstNewline(s);
    i < |s| ==> i <= 1022 && '\0' !in s[..i] && AllFitBuffer(s[i + 1..])
  }

  lemma {:induction false} CompleteIfShort(re: string, s: string)
    requires AllFitBuffer(s)
    ensures Emitted(re, s) == MatchingLines(re, s)
    decreases |s|
  {
    var i := FirstNewline(s);
    if i < |s| { CompleteIfShort(re, s[i + 1..]); }
  }

  /** A line of 1023 characters is lost. */
  lemma {:induction false} LongLineLost()
    ensures var s := seq(1023, _ => 'a') + "\n"; MatchingLines("a", s) == s && Emitted("a", s) == []
  {
    var line := seq(1023, _ => 'a');
    var s := line + "\n";
    assert s[..1023] == line && s[..1024] == s && s[1024..] == [];
    NewlineAt(s, 1023);
    assert Parse("a") == Then(One(Lit('a')), Parse("")) by { assert "a"[1..] == ""; }
    assert Prefix(Parse(""), line[1..], 0);
    OneHere(Lit('a'), Parse(""), line);
    assert line[0..] == line;
    assert Matches("a", line);
  }

  lemma {:induction false} NewlineAt(s: string, i: nat)
    requires i < |s| && s[i] == '\n' && forall j :: 0 <= j < i ==> s[j] != '\n'
    ensures FirstNewline(s) == i
  {
  }

  /** What will have been written in the end, if out has been and s is still to come. */
  ghost function Total(re: string, out: string, s: string): string {
    out + Emitted(re, s)
  }

  /**
   What read() returns: some of what is left, as much as it likes but no more than is asked for; nothing only at the
   end.
   */
  function ReadSize(chunk: nat, left: nat, asked: nat): (n: nat)
    ensures n <= left && n <= asked && (n == 0 <==> left == 0 || asked == 0)
  {
    var some := if chunk == 0 then 1 else chunk;
    if some <= left && some <= asked then some else if left <= asked then left else asked
  }

  /** There is no newline that strchr() would find. */
  ghost predicate Incomplete(s: string) {
    '\0' in s[..FirstNewline(s)] || FirstNewline(s) == |s|
  }

  /** strchr(p, '\n'): the next newline before any NUL, of which there is one at m; m if there is none. */
  method NextNewline(buf: array<char>, p: nat, m: nat) returns (q: nat)
    requires p <= m < buf.Length
    ensures p <= q <= m && (q == m ==> Incomplete(buf[p..m]))
    ensures q < m ==> buf[q] == '\n' && forall j :: p <= j < q ==> buf[j] != '\n' && buf[j] != '\0'
  {
    q := p;
    while q < m && buf[q] != '\n' && buf[q] != '\0'
      invariant p <= q <= m && forall j :: p <= j < q ==> buf[j] != '\n' && buf[j] != '\0'
    {
      q := q + 1;
    }
    if q < m && buf[q] == '\0' {
      NulFirst(buf[p..m], q - p);
      q := m;
    }
  }

  lemma {:induction false} NulFirst(s: string, i: nat)
    requires i < |s| && s[i] == '\0' && forall j :: 0 <= j < i ==> s[j] != '\n'
    ensures Incomplete(s)
  {
    assert i < FirstNewline(s) && s[..FirstNewline(s)][i] == '\0';
  }

  /** However the input arrives, grep writes the matching lines up to the first that blocks. */
  method Run(re: string, input: string, chunk: nat -> nat) returns (out: string)
    ensures out == Emitted(re, input)
  {
    var buf := new char[BUFSIZE];
    out := [];
    var m, pos, calls := 0, 0, 0;
    assert buf[..m] + input[pos..] == input;
    ghost var total := Total(re, out, input);
    assert total == Emitted(re, input);
    while true
      invariant 0 <= m < BUFSIZE && pos <= |input| && buf.Length == BUFSIZE
      invariant Incomplete(buf[..m])
      invariant Total(re, out, buf[..m] + input[pos..]) == total
      decreases |input| - pos
    {
      var n := ReadSize(chunk(calls), |input| - pos, BUFSIZE - m - 1);
      calls := calls + 1;
      if n == 0 {
        NothingMore(re, out, buf[..m], input[pos..]);
        return;
      }
      Fill(buf, m, input, pos, n);
      m, pos := m + n, pos + n;
      out, m := Lines(re, buf, m, out, input[pos..]);
    }
  }

  /** read() puts n more characters in the buffer, and a NUL goes after them. */
  method Fill(buf: array<char>, m: nat, input: string, pos: nat, n: nat)
    requires m + n < buf.Length && pos + n <= |input|
    modifies buf
    ensures buf[..m + n] + input[pos + n..] == old(buf[..m]) + input[pos..] && buf[m + n] == '\0'
  {
    ghost var pending := buf[..m];
    forall i | 0 <= i < n { buf[m + i] := input[pos + i]; }
    buf[m + n] := '\0';
    assert buf[..m + n] == pending + input[pos..pos + n];
    assert input[pos..] == input[pos..pos + n] + input[pos + n..];
  }

  /** At the end of the input, or with a line that fills the buffer, there is no more to write. */
  lemma {:induction false} NothingMore(re: string, out: string, pending: string, rest: string)
    requires Incomplete(pending) && (rest == [] || |pending| == BUFSIZE - 1)
    ensures Total(re, out, pending + rest) == out
  {
    var s := pending + rest;
    var i, k := FirstNewline(s), FirstNewline(pending);
    assert forall j :: 0 <= j < |pending| ==> s[j] == pending[j];
    if k < |pending| {
      NewlineAt(s, k);
      assert s[..k] == pending[..k];
    } else {
      assert pending[..k] == pending && i >= |pending|;
      assert rest == [] ==> s == pending;
    }
  }

  /** The complete lines in the buffer, and then what is left of it moved to its start. */
  method Lines(re: string, buf: array<char>, m: nat, so: string, ghost rest: string) returns (out: string, m': nat)
    requires m < BUFSIZE == buf.Length
    modifies buf
    ensures m' <= m && Incomplete(buf[..m'])
    ensures Total(re, out, buf[..m'] + rest) == Total(re, so, old(buf[..m]) + rest)
  {
    out := so;
    var p := 0;
    ghost var s := buf[..m];
    ghost var total := Total(re, so, s + rest);
    assert s[0..] == s;
    var q := NextNewline(buf, p, m);
    assert buf[0..m] == s[0..];
    while q < m
      invariant 0 <= p <= q <= m && |s| == m && forall j :: p <= j < m ==> buf[j] == s[j]
      invariant if q < m then NewlineNext(s, p, q) else Incomplete(s[p..])
      invariant Total(re, out, s[p..] + rest) == total
      decreases m - p
    {
      LineEmitted(re, out, s, p, q, rest);
      var line := Line(re, buf, p, q, s);
      out := out + line;
      p := q + 1;
      q := NextNewline(buf, p, m);
      assert buf[p..m] == s[p..];
    }
    m' := m - p;
    forall i | 0 <= i < m' { buf[i] := buf[p + i]; }
    assert buf[..m'] == s[p..];
  }

  /** strchr() finds the newline at q from p on. */
  ghost predicate NewlineNext(s: string, p: nat, q: nat) {
    p <= q < |s| && s[q] == '\n' && forall j :: p <= j < q ==> s[j] != '\n' && s[j] != '\0'
  }

  /** One line, from p to the newline at q, which is overwritten while it is matched; what is to be written of it. */
  method Line(re: string, buf: array<char>, p: nat, q: nat, ghost s: string) returns (line: string)
    requires p <= q < |s| < buf.Length && s[q] == '\n' && forall j :: p <= j < |s| ==> buf[j] == s[j]
    modifies buf
    ensures line == if Matches(re, s[p..q]) then s[p..q + 1] else []
    ensures forall j :: q < j < |s| ==> buf[j] == s[j]
  {
    line := [];
    buf[q] := '\0';
    assert buf[p..q] == s[p..q];
    var yes := Match(re, buf[p..q]);
    if yes {
      buf[q] := '\n';
      line := buf[p..q + 1];
      assert line == s[p..q + 1];
    }
  }

  lemma {:induction false} LineEmitted(re: string, out: string, s: string, p: nat, q: nat, rest: string)
    requires NewlineNext(s, p, q) && |s| < BUFSIZE
    ensures Total(re, out, s[p..] + rest) ==
            Total(re, out + (if Matches(re, s[p..q]) then s[p..q + 1] else []), s[q + 1..] + rest)
  {
    var t, i := s[p..] + rest, q - p;
    NewlineAt(t, i);
    assert t[..i] == s[p..q];
    assert t[..i + 1] == s[p..q + 1];
    assert t[i + 1..] == s[q + 1..] + rest;
    FirstLine(re, t);
    Regroup(out, if Matches(re, s[p..q]) then s[p..q + 1] else [], Emitted(re, s[q + 1..] + rest));
  }

  lemma {:induction false} FirstLine(re: string, t: string)
    requires FirstNewline(t) < |t| && !Blocks(t[..FirstNewline(t)])
    ensures var i := FirstNewline(t);
      Emitted(re, t) == (if Matches(re, t[..i]) then t[..i + 1] else []) + Emitted(re, t[i + 1..])
  {
  }

  lemma {:induction false} Regroup(a: string, b: string, c: string)
    ensures (a + b) + c == a + (b + c)
  {
  }
}
