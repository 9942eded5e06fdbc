/**
 The shell's parser on characters: gettoken, peek, the parse functions with their moving
 cursor, and nulterminate, which writes into the command line.
 */
module Shell {
  import opened ShellGrammar

  const NUL := '\0'

  /** A stretch of the command line, from q up to eq. */
  datatype Span = Span(q: nat, eq: nat)

  predicate White(c: char) {
    c == ' ' || c == '\t' || c == '\r' || c == '\n' || c == 11 as char
  }

  predicate Symbol(c: char) {
    c == '<' || c == '|' || c == '>' || c == '&' || c == ';' || c == '(' || c == ')'
  }

  predicate WordChar(c: char) {
    !White(c) && !Symbol(c) && c != NUL
  }

  ghost predicate NoNul(s: string) {
    forall i :: 0 <= i < |s| ==> s[i] != NUL
  }

  /** The character a pointer at i sees; the line ends with a NUL. */
  function At(s: string, i: nat): (c: char) {
    if i < |s| then s[i] else NUL
  }

  // ------------------------------------------------------------------------ tokens

  ghost function SkipWhite(s: string, i: nat): (j: nat)
    requires i <= |s|
    ensures i <= j <= |s| && (j < |s| ==> !White(s[j]))
    decreases |s| - i
  {
    if i < |s| && White(s[i]) then SkipWhite(s, i + 1) else i
  }

  ghost function WordEnd(s: string, i: nat): (j: nat)
    requires i <= |s|
    ensures i <= j <= |s| && (j < |s| ==> White(s[j]) || Symbol(s[j]))
    ensures forall k :: i <= k < j ==> !White(s[k]) && !Symbol(s[k])
    ensures i < |s| && !White(s[i]) && !Symbol(s[i]) ==> j > i
    decreases |s| - i
  {
    if i < |s| && !White(s[i]) && !Symbol(s[i]) then WordEnd(s, i + 1) else i
  }

  /** The token that begins at q, and where it ends. */
  ghost function TokenEnd(s: string, q: nat): (eq: nat)
    requires q < |s| && !White(s[q])
    ensures q < eq <= |s|
  {
    if s[q] == '>' && At(s, q + 1) == '>' then q + 2 else if Symbol(s[q]) then q + 1 else WordEnd(s, q)
  }

  ghost function TokenOf(s: string, q: nat): (t: Tok<Span>)
    requires q < |s| && !White(s[q])
  {
    if s[q] == '>' && At(s, q + 1) == '>' then Sym('+') else if Symbol(s[q]) then Sym(s[q])
    else Word(Span(q, WordEnd(s, q)))
  }

  /** The tokens from position i on. */
  ghost function LexFrom(s: string, i: nat): (ts: seq<Tok<Span>>)
    requires i <= |s|
    ensures |ts| <= |s| - i
    decreases |s| - i
  {
    var j := SkipWhite(s, i);
    if j == |s| then [] else [TokenOf(s, j)] + LexFrom(s, TokenEnd(s, j))
  }

  lemma {:induction false} SkipTwice(s: string, i: nat)
    requires i <= |s|
    ensures SkipWhite(s, SkipWhite(s, i)) == SkipWhite(s, i) && LexFrom(s, SkipWhite(s, i)) == LexFrom(s, i)
  {
  }

  /** Positions a to b are blank. */
  ghost predicate Blank(s: string, a: nat, b: nat)
    requires a <= b <= |s|
  {
    forall k :: a <= k < b ==> White(s[k])
  }

  /** From q to e stands the token t: a word with no word character after it, >>, or one of the
      other symbols, which > is only if no > follows. */
  ghost predicate TokenAt(s: string, q: nat, e: nat, t: Tok<Span>)
    requires q < e <= |s|
  {
    match t
    case Word(w) =>
      && w == Span(q, e) && (forall k :: q <= k < e ==> !White(s[k]) && !Symbol(s[k]))
      && (e == |s| || White(s[e]) || Symbol(s[e]))
    case Sym(c) =>
      if c == '+' then e == q + 2 && s[q] == s[q + 1] == '>'
      else e == q + 1 && s[q] == c && Symbol(c) && !(c == '>' && e < |s| && s[e] == '>')
  }

  /** From i on the line is the tokens ts, with blanks around them. */
  ghost predicate Spells(s: string, i: nat, ts: seq<Tok<Span>>)
    requires i <= |s|
    decreases |ts|
  {
    if ts == [] then Blank(s, i, |s|)
    else exists q, e {:trigger TokenAt(s, q, e, ts[0])} ::
           i <= q < e <= |s| && Blank(s, i, q) && TokenAt(s, q, e, ts[0]) && Spells(s, e, ts[1..])
  }

  lemma {:induction false} SkipIs(s: string, i: nat, q: nat)
    requires i <= q <= |s| && Blank(s, i, q) && (q < |s| ==> !White(s[q]))
    ensures SkipWhite(s, i) == q
    decreases q - i
  {
    if i < q {
      SkipIs(s, i + 1, q);
    }
  }

  lemma {:induction false} SkipBlank(s: string, i: nat)
    requires i <= |s|
    ensures Blank(s, i, SkipWhite(s, i))
    decreases |s| - i
  {
    if i < |s| && White(s[i]) {
      SkipBlank(s, i + 1);
    }
  }

  lemma {:induction false} WordEndIs(s: string, i: nat, e: nat)
    requires i <= e <= |s| && (forall k :: i <= k < e ==> !White(s[k]) && !Symbol(s[k]))
    requires e == |s| || White(s[e]) || Symbol(s[e])
    ensures WordEnd(s, i) == e
    decreases e - i
  {
    if i < e {
      WordEndIs(s, i + 1, e);
    }
  }

  lemma TokenIs(s: string, q: nat, e: nat, t: Tok<Span>)
    requires q < e <= |s| && TokenAt(s, q, e, t)
    ensures !White(s[q]) && TokenOf(s, q) == t && TokenEnd(s, q) == e
  {
    if t.Word? {
      WordEndIs(s, q, e);
    }
  }

  lemma {:induction false} LexSpells(s: string, i: nat)
    requires i <= |s|
    ensures Spells(s, i, LexFrom(s, i))
    decreases |s| - i
  {
    hide White, Symbol, WordEnd, TokenOf, TokenEnd;
    SkipBlank(s, i);
    var q := SkipWhite(s, i);
    if q < |s| {
      var ts := LexFrom(s, i);
      LexSpells(s, TokenEnd(s, q));
      TokenStands(s, q);
      assert TokenAt(s, q, TokenEnd(s, q), ts[0]) && Spells(s, TokenEnd(s, q), ts[1..]);
    }
  }

  lemma TokenStands(s: string, q: nat)
    requires q < |s| && !White(s[q])
    ensures TokenAt(s, q, TokenEnd(s, q), TokenOf(s, q))
  {
  }

  lemma {:induction false} SpellsLex(s: string, i: nat, ts: seq<Tok<Span>>)
    requires i <= |s| && Spells(s, i, ts)
    ensures ts == LexFrom(s, i)
    decreases |ts|
  {
    hide White, Symbol, TokenAt, TokenOf, TokenEnd, Blank;
    if ts == [] {
      SkipIs(s, i, |s|);
    } else {
      var q, e :| i <= q < e <= |s| && Blank(s, i, q) && TokenAt(s, q, e, ts[0]) && Spells(s, e, ts[1..]);
      TokenIs(s, q, e, ts[0]);
      SkipIs(s, i, q);
      SpellsLex(s, e, ts[1..]);
    }
  }

  /** The tokens from i on are what the line spells there, and it spells nothing else. */
  lemma LexIff(s: string, i: nat, ts: seq<Tok<Span>>)
    requires i <= |s|
    ensures Spells(s, i, ts) <==> ts == LexFrom(s, i)
  {
    LexSpells(s, i);
    if Spells(s, i, ts) {
      SpellsLex(s, i, ts);
    }
  }

  /** What gettoken returns for a token: its kind. */
  ghost function KindOf(t: Tok<Span>): (c: char) {
    if t.Word? then 'a' else t.c
  }

  method SkipBlanks(s: string, i: nat) returns (j: nat)
    requires i <= |s|
    ensures j == SkipWhite(s, i)
  {
    j := i;
    while j < |s| && White(s[j])
      invariant i <= j <= |s| && SkipWhite(s, j) == SkipWhite(s, i)
    {
      j := j + 1;
    }
  }

  /** gettoken: the next token's kind, 'a' for a word and NUL at the end, its extent, and the
      cursor after it. */
  method Gettoken(s: string, i: nat) returns (ret: char, q: nat, eq: nat, j: nat)
    requires i <= |s| && NoNul(s)
    ensures i <= j <= |s|
    ensures LexFrom(s, i) == [] ==> ret == NUL && LexFrom(s, j) == []
    ensures LexFrom(s, i) != [] ==> ret == KindOf(LexFrom(s, i)[0]) && LexFrom(s, j) == LexFrom(s, i)[1..]
    ensures LexFrom(s, i) != [] && LexFrom(s, i)[0].Word? ==> LexFrom(s, i)[0].w == Span(q, eq)
    ensures (ret == NUL <==> LexFrom(s, i) == []) && (ret == 'a' <==> LexFrom(s, i) != [] && LexFrom(s, i)[0].Word?)
  {
    hide White, LexFrom;
    var p := SkipBlanks(s, i);
    q := p;
    ret := At(s, p);
    if ret == NUL {
    } else if ret == '|' || ret == '(' || ret == ')' || ret == ';' || ret == '&' || ret == '<' {
      p := p + 1;
    } else if ret == '>' {
      p := p + 1;
      if At(s, p) == '>' {
        ret := '+';
        p := p + 1;
      }
    } else {
      ret := 'a';
      while p < |s| && !White(s[p]) && !Symbol(s[p])
        invariant q <= p <= |s| && WordEnd(s, p) == WordEnd(s, q)
      {
        p := p + 1;
      }
    }
    eq := p;
    j := SkipBlanks(s, p);
    LexUnfold(s, i);
    LexEnd(s);
    SkipTwice(s, p);
  }

  lemma LexUnfold(s: string, i: nat)
    requires i <= |s|
    ensures var q := SkipWhite(s, i);
            LexFrom(s, i) == if q == |s| then [] else [TokenOf(s, q)] + LexFrom(s, TokenEnd(s, q))
  {
  }

  lemma LexEnd(s: string)
    ensures LexFrom(s, |s|) == []
  {
  }

  /** The character that peek sees of a token. */
  ghost function FirstOf(t: Tok<Span>): (c: char) {
    if t.Word? then 'a' else if t.c == '+' then '>' else t.c
  }

  /** peek, for a string of symbols. */
  method Peek(s: string, i: nat, toks: string) returns (b: bool, j: nat)
    requires i <= |s| && NoNul(s) && forall k :: 0 <= k < |toks| ==> Symbol(toks[k])
    ensures i <= j <= |s| && LexFrom(s, j) == LexFrom(s, i)
    ensures b <==> LexFrom(s, i) != [] && !LexFrom(s, i)[0].Word? && FirstOf(LexFrom(s, i)[0]) in toks
    ensures LexFrom(s, i) == [] ==> j == |s|
  {
    hide LexFrom, White;
    j := SkipBlanks(s, i);
    SkipTwice(s, i);
    LexUnfold(s, i);
    b := At(s, j) != NUL && At(s, j) in toks;
  }

  // ---------------------------------------------------------------- the parse functions

  /** A parse method's result is what the grammar says about the tokens. */
  ghost predicate Agrees<T>(s: string, i: nat, r: Res<T, Span>, ok: bool, v: T, j: nat) {
    if r.Fail? then !ok else ok && v == r.value && i <= j <= |s| && LexFrom(s, j) == r.rest
  }

  ghost function Prepend(rs: seq<Red<Span>>, r: Res<seq<Red<Span>>, Span>): (r': Res<seq<Red<Span>>, Span>) {
    if r.Fail? then Fail else Done(rs + r.value, r.rest)
  }

  lemma PrependStep(ts: seq<Tok<Span>>, rs: seq<Red<Span>>)
    requires RedirNext(ts)
    ensures |ts| < 2 || !ts[1].Word? ==> Redirs(ts).Fail?
    ensures |ts| >= 2 && ts[1].Word? ==>
              Prepend(rs, Redirs(ts)) == Prepend(rs + [Red(ts[1].w, ts[0].c)], Redirs(ts[2..]))
  {
    if |ts| >= 2 && ts[1].Word? && Redirs(ts[2..]).Done? {
      var x, more := Red(ts[1].w, ts[0].c), Redirs(ts[2..]).value;
      assert rs + ([x] + more) == rs + [x] + more;
    }
  }

  lemma PrependNone(r: Res<seq<Red<Span>>, Span>)
    ensures Prepend([], r) == r
  {
    assert r.Done? ==> [] + r.value == r.value;
  }

  /** parseredirs, returning the redirections in order; false is the panic for a missing file. */
  method ParseRedirs(s: string, i: nat) returns (ok: bool, rs: seq<Red<Span>>, j: nat)
    requires i <= |s| && NoNul(s)
    ensures Agrees(s, i, Redirs(LexFrom(s, i)), ok, rs, j)
  {
    hide LexFrom, Redirs;
    rs, j := [], i;
    ghost var ts := LexFrom(s, i);
    PrependNone(Redirs(ts));
    var more;
    more, j := Peek(s, j, "<>");
    while more
      invariant i <= j <= |s| && Prepend(rs, Redirs(LexFrom(s, j))) == Redirs(ts)
      invariant (more <==> RedirNext(LexFrom(s, j)))
      decreases |LexFrom(s, j)|
    {
      PrependStep(LexFrom(s, j), rs);
      var tok, file, q, eq;
      tok, q, eq, j := Gettoken(s, j);
      file, q, eq, j := Gettoken(s, j);
      if file != 'a' {
        return false, [], 0;
      }
      rs := rs + [Red(Span(q, eq), tok)];
      more, j := Peek(s, j, "<>");
    }
    NoReds(LexFrom(s, j));
    assert rs + [] == rs;
    ok := true;
  }

  /** parseexec for a simple command: its words and redirections; false is a syntax error or
      too many arguments. */
  method ParseSimple(s: string, i: nat) returns (ok: bool, c: Cmd<Span>, j: nat)
    requires i <= |s| && NoNul(s) && !Next(LexFrom(s, i), '(')
    ensures Agrees(s, i, ParseExec(LexFrom(s, i)), ok, c, j)
  {
    hide LexFrom, Redirs, ParseExec, Args, Wrap;
    c, j := Exec([]), i;
    var rs, stop;
    ghost var ts := LexFrom(s, i);
    ok, rs, j := ParseRedirs(s, i);
    if !ok {
      ExecFail(ts);
      return false, c, 0;
    }
    ExecSimple(ts, rs, LexFrom(s, j));
    var args := [];
    stop, j := Peek(s, j, "|)&;");
    while !stop
      invariant i <= j <= |s| && ParseExec(ts) == Args(args, rs, LexFrom(s, j))
      invariant (LexFrom(s, j) != [] ==> (stop <==> AfterExec(LexFrom(s, j))))
      invariant |args| < MAXARGS
      decreases |LexFrom(s, j)|
    {
      ghost var now := LexFrom(s, j);
      var tok, q, eq;
      tok, q, eq, j := Gettoken(s, j);
      if tok == NUL {
        break;
      }
      if tok != 'a' {
        ArgsBad(args, rs, now);
        return false, c, 0;
      }
      args := args + [Span(q, eq)];
      if |args| >= MAXARGS {
        ArgsMany(args[..|args| - 1], rs, now);
        assert args[..|args| - 1] + [Span(q, eq)] == args;
        return false, c, 0;
      }
      ghost var before := args[..|args| - 1];
      var next;
      ok, next, j := ParseRedirs(s, j);
      ArgsGoOn(before, rs, now);
      if !ok {
        return false, c, 0;
      }
      rs := rs + next;
      stop, j := Peek(s, j, "|)&;");
    }
    ArgsEnd(args, rs, LexFrom(s, j));
    return true, Wrap(Exec(args), rs), j;
  }

  lemma ExecFail(ts: seq<Tok<Span>>)
    requires !Next(ts, '(') && Redirs(ts).Fail?
    ensures ParseExec(ts).Fail?
  {
    hide Redirs, Args, ParseLine;
  }

  lemma ArgsBad(args: seq<Span>, rs: seq<Red<Span>>, ts: seq<Tok<Span>>)
    requires ts != [] && !ts[0].Word? && !AfterExec(ts)
    ensures Args(args, rs, ts).Fail?
  {
  }

  lemma ArgsMany(args: seq<Span>, rs: seq<Red<Span>>, ts: seq<Tok<Span>>)
    requires ts != [] && ts[0].Word? && |args| + 1 >= MAXARGS
    ensures Args(args, rs, ts).Fail?
  {
  }

  lemma ArgsGoOn(args: seq<Span>, rs: seq<Red<Span>>, ts: seq<Tok<Span>>)
    requires ts != [] && ts[0].Word? && |args| + 1 < MAXARGS
    ensures var r := Redirs(ts[1..]);
            Args(args, rs, ts) == if r.Fail? then Fail else Args(args + [ts[0].w], rs + r.value, r.rest)
  {
    hide Redirs;
  }

  /** parseexec and parseblock. */
  method ParseExecAt(s: string, i: nat) returns (ok: bool, c: Cmd<Span>, j: nat)
    requires i <= |s| && NoNul(s)
    ensures Agrees(s, i, ParseExec(LexFrom(s, i)), ok, c, j)
    decreases |LexFrom(s, i)|, 0
  {
    hide LexFrom, Redirs, Args, Wrap, ParseLine;
    var open, close, rs, tok, q, eq;
    c := Exec([]);
    open, j := Peek(s, i, "(");
    if !open {
      ok, c, j := ParseSimple(s, j);
      return;
    }
    tok, q, eq, j := Gettoken(s, j);
    ok, c, j := ParseLineAt(s, j);
    if !ok {
      return;
    }
    close, j := Peek(s, j, ")");
    if !close {
      return false, c, 0;
    }
    tok, q, eq, j := Gettoken(s, j);
    ok, rs, j := ParseRedirs(s, j);
    if ok {
      c := Wrap(c, rs);
    }
  }

  /** parsepipe. */
  method ParsePipeAt(s: string, i: nat) returns (ok: bool, c: Cmd<Span>, j: nat)
    requires i <= |s| && NoNul(s)
    ensures Agrees(s, i, ParsePipe(LexFrom(s, i)), ok, c, j)
    decreases |LexFrom(s, i)|, 1
  {
    hide LexFrom, ParseExec;
    var bar, tok, q, eq, right;
    ok, c, j := ParseExecAt(s, i);
    if !ok {
      return;
    }
    bar, j := Peek(s, j, "|");
    if bar {
      tok, q, eq, j := Gettoken(s, j);
      ok, right, j := ParsePipeAt(s, j);
      c := Pipe(c, right);
    }
  }

  /** parseline. */
  method ParseLineAt(s: string, i: nat) returns (ok: bool, c: Cmd<Span>, j: nat)
    requires i <= |s| && NoNul(s)
    ensures Agrees(s, i, ParseLine(LexFrom(s, i)), ok, c, j)
    decreases |LexFrom(s, i)|, 3
  {
    hide LexFrom, ParsePipe;
    var amp, semi, tok, q, eq, right;
    ghost var goal := ParseLine(LexFrom(s, i));
    ok, c, j := ParsePipeAt(s, i);
    if !ok {
      return;
    }
    amp, j := Peek(s, j, "&");
    while amp
      invariant i <= j <= |s| && LineRest(c, LexFrom(s, j)) == goal && (amp <==> Next(LexFrom(s, j), '&'))
      invariant |LexFrom(s, j)| <= |LexFrom(s, i)|
      decreases |LexFrom(s, j)|
    {
      tok, q, eq, j := Gettoken(s, j);
      c := Back(c);
      amp, j := Peek(s, j, "&");
    }
    semi, j := Peek(s, j, ";");
    if semi {
      tok, q, eq, j := Gettoken(s, j);
      ok, right, j := ParseLineAt(s, j);
      c := List(c, right);
    }
  }

  // ------------------------------------------------------------------ nulterminate

  /** Where a word of the command line is: all word characters, and none right after. */
  ghost predicate WordSpan(s: string, w: Span) {
    w.q < w.eq <= |s| && (forall k :: w.q <= k < w.eq ==> WordChar(s[k])) && (w.eq < |s| ==> !WordChar(s[w.eq]))
  }

  ghost predicate AllWords(s: string, c: Cmd<Span>) {
    match c
    case Exec(args) => forall k :: 0 <= k < |args| ==> WordSpan(s, args[k])
    case Redir(c', f, _) => AllWords(s, c') && WordSpan(s, f)
    case Pipe(l, r) => AllWords(s, l) && AllWords(s, r)
    case List(l, r) => AllWords(s, l) && AllWords(s, r)
    case Back(c') => AllWords(s, c')
  }

  /** w is an argument or a file name in c. */
  ghost predicate Has(c: Cmd<Span>, w: Span) {
    w in CmdWords(c)
  }

  /** The positions that nulterminate overwrites. */
  ghost function Ends(c: Cmd<Span>): (s: set<nat>)
    ensures forall w: Span :: Has(c, w) ==> w.eq in s
  {
    match c
    case Exec(args) => EndsOf(args)
    case Redir(c', f, _) => Ends(c') + {f.eq}
    case Pipe(l, r) => Ends(l) + Ends(r)
    case List(l, r) => Ends(l) + Ends(r)
    case Back(c') => Ends(c')
  }

  ghost function EndsOf(args: seq<Span>): (s: set<nat>)
    ensures forall w :: w in args ==> w.eq in s
  {
    if args == [] then {} else EndsOf(args[..|args| - 1]) + {args[|args| - 1].eq}
  }

  ghost predicate Ended(before: seq<char>, after: seq<char>, ends: set<nat>) {
    |after| == |before| && forall k :: 0 <= k < |before| ==> after[k] == if k in ends then NUL else before[k]
  }

  /** nulterminate, on the buffer that holds the command line and its NUL. */
  method Nulterminate(buf: array<char>, c: Cmd<Span>, ghost s: string)
    requires buf.Length == |s| + 1 && AllWords(s, c)
    modifies buf
    ensures Ended(old(buf[..]), buf[..], Ends(c))
    decreases c
  {
    match c
    case Exec(args) =>
      var i := 0;
      while i < |args|
        invariant 0 <= i <= |args| && Ended(old(buf[..]), buf[..], EndsOf(args[..i]))
      {
        buf[args[i].eq] := NUL;
        assert args[..i + 1][..i] == args[..i];
        i := i + 1;
      }
      assert args[..|args|] == args;
    case Redir(c', f, _) =>
      Nulterminate(buf, c', s);
      buf[f.eq] := NUL;
    case Pipe(l, r) =>
      Nulterminate(buf, l, s);
      Nulterminate(buf, r, s);
    case List(l, r) =>
      Nulterminate(buf, l, s);
      Nulterminate(buf, r, s);
    case Back(c') =>
      Nulterminate(buf, c', s);
  }

  // ------------------------------------------------------- what parsecmd gives its caller

  lemma {:induction false} LexWords(s: string, i: nat)
    requires i <= |s| && NoNul(s)
    ensures forall k :: 0 <= k < |LexFrom(s, i)| && LexFrom(s, i)[k].Word? ==> WordSpan(s, LexFrom(s, i)[k].w)
    decreases |s| - i
  {
    var q := SkipWhite(s, i);
    if q < |s| {
      LexWords(s, TokenEnd(s, q));
    }
  }

  /** The words of the tree are words of the line. */
  lemma ParsedWords(s: string, ts: seq<Tok<Span>>)
    requires forall k :: 0 <= k < |ts| && ts[k].Word? ==> WordSpan(s, ts[k].w)
    ensures ParseLine(ts).Done? ==> AllWords(s, ParseLine(ts).value)
  {
    var rel := (w: Span, v: Span) => WordSpan(s, w);
    hide ParseLine, WordSpan;
    LineRel(rel, ts, ts);
    if ParseLine(ts).Done? {
      RelatedWords(s, rel, ParseLine(ts).value, ParseLine(ts).value);
    }
  }

  lemma {:induction false} RelatedWords(s: string, rel: (Span, Span) -> bool, c: Cmd<Span>, d: Cmd<Span>)
    requires CmdRel(rel, c, d) && forall w, v :: rel(w, v) ==> WordSpan(s, w)
    ensures AllWords(s, c)
  {
    hide WordSpan;
    match c
    case Exec(_) =>
    case Redir(c', _, _) => RelatedWords(s, rel, c', d.cmd);
    case Pipe(l, r) =>
      RelatedWords(s, rel, l, d.left);
      RelatedWords(s, rel, r, d.right);
    case List(l, r) =>
      RelatedWords(s, rel, l, d.left);
      RelatedWords(s, rel, r, d.right);
    case Back(c') => RelatedWords(s, rel, c', d.cmd);
  }

  /** The C string at q is text. */
  ghost predicate Reads(buf: seq<char>, q: nat, text: string) {
    q + |text| < |buf| && buf[q..q + |text|] == text && NoNul(text) && buf[q + |text|] == NUL
  }

  /** nulterminate overwrites no character of a word. */
  lemma {:induction false} EndsOff(s: string, c: Cmd<Span>, k: nat)
    requires AllWords(s, c) && k in Ends(c)
    ensures k <= |s| && (k < |s| ==> !WordChar(s[k]))
  {
    match c
    case Exec(args) => EndsOfOff(s, args, k);
    case Redir(c', f, _) => if k in Ends(c') { EndsOff(s, c', k); }
    case Pipe(l, r) => if k in Ends(l) { EndsOff(s, l, k); } else { EndsOff(s, r, k); }
    case List(l, r) => if k in Ends(l) { EndsOff(s, l, k); } else { EndsOff(s, r, k); }
    case Back(c') => EndsOff(s, c', k);
  }

  lemma {:induction false} EndsOfOff(s: string, args: seq<Span>, k: nat)
    requires (forall i :: 0 <= i < |args| ==> WordSpan(s, args[i])) && k in EndsOf(args)
    ensures k <= |s| && (k < |s| ==> !WordChar(s[k]))
    decreases |args|
  {
    if args != [] {
      assert WordSpan(s, args[|args| - 1]);
      if k in EndsOf(args[..|args| - 1]) {
        EndsOfOff(s, args[..|args| - 1], k);
      }
    }
  }

  lemma {:induction false} HasWord(s: string, c: Cmd<Span>, w: Span)
    requires AllWords(s, c) && Has(c, w)
    ensures WordSpan(s, w)
  {
    match c
    case Exec(_) =>
    case Redir(c', f, _) => if Has(c', w) { HasWord(s, c', w); }
    case Pipe(l, r) => if Has(l, w) { HasWord(s, l, w); } else { HasWord(s, r, w); }
    case List(l, r) => if Has(l, w) { HasWord(s, l, w); } else { HasWord(s, r, w); }
    case Back(c') => HasWord(s, c', w);
  }

  /** Every argument and file name reads back as exactly its token. */
  lemma ReadsBack(s: string, before: seq<char>, after: seq<char>, c: Cmd<Span>, w: Span)
    requires before == s + [NUL] && AllWords(s, c) && Ended(before, after, Ends(c)) && Has(c, w)
    ensures w.q < w.eq <= |s| && Reads(after, w.q, s[w.q..w.eq])
  {
    hide Has, Ends, AllWords, WordChar, Ended;
    HasWord(s, c, w);
    forall k | w.q <= k < w.eq ensures k < |after| && after[k] == s[k] && s[k] != NUL {
      KeptChar(s, before, after, c, k);
    }
    EndChar(before, after, Ends(c), w.eq);
    StringAt(after, w.q, w.eq, s);
  }

  lemma KeptChar(s: string, before: seq<char>, after: seq<char>, c: Cmd<Span>, k: nat)
    requires before == s + [NUL] && AllWords(s, c) && Ended(before, after, Ends(c)) && k < |s| && WordChar(s[k])
    ensures k < |after| && after[k] == s[k] && s[k] != NUL
  {
    hide AllWords, Ends;
    if k in Ends(c) {
      EndsOff(s, c, k);
    }
  }

  lemma EndChar(before: seq<char>, after: seq<char>, ends: set<nat>, k: nat)
    requires Ended(before, after, ends) && k in ends && k < |before|
    ensures k < |after| && after[k] == NUL
  {
  }

  lemma StringAt(buf: seq<char>, q: nat, eq: nat, s: string)
    requires q <= eq <= |s| && eq < |buf| && buf[eq] == NUL && forall k :: q <= k < eq ==> buf[k] == s[k] && s[k] != NUL
    ensures Reads(buf, q, s[q..eq])
  {
    assert buf[q..eq] == s[q..eq];
  }

  /** parsecmd, on the line in buf, which spells the tokens ts. It accepts exactly the lines of
      the grammar and returns their tree; afterwards every word of the line is a
      NUL-terminated string in the buffer, and no other character has changed. */
  method ParseCmd(buf: array<char>) returns (ok: bool, c: Cmd<Span>, ghost ts: seq<Tok<Span>>)
    requires buf.Length > 0 && buf[buf.Length - 1] == NUL && NoNul(buf[..buf.Length - 1])
    modifies buf
    ensures Spells(old(buf[..buf.Length - 1]), 0, ts)
    ensures (ok <==> exists t :: IsLine(ts, t)) && (ok ==> IsLine(ts, c))
    ensures ok ==> forall k :: 0 <= k < |ts| && ts[k].Word? ==>
              ts[k].w.q < ts[k].w.eq < buf.Length && Reads(buf[..], ts[k].w.q, old(buf[ts[k].w.q..ts[k].w.eq]))
    ensures ok ==> forall k :: 0 <= k < buf.Length && WordChar(old(buf[k])) ==> buf[k] == old(buf[k])
    ensures !ok ==> buf[..] == old(buf[..])
  {
    hide LexFrom, ParseLine, Has, Ends, WordSpan, Reads, IsLine, WordChar, Spells;
    var s := buf[..buf.Length - 1];
    ghost var before := buf[..];
    assert before == s + [NUL];
    ts := LexFrom(s, 0);
    LexSpells(s, 0);
    var j, none;
    ok, c, j := ParseLineAt(s, 0);
    if !ok {
      NoTree(ts);
      return;
    }
    none, j := Peek(s, j, "");
    LexEnd(s);
    if j != |s| {
      NoTree(ts);
      return false, c, ts;
    }
    ParseIff(ts, c);
    LexWords(s, 0);
    ParsedWords(s, ts);
    Nulterminate(buf, c, s);
    forall k | 0 <= k < |ts| && ts[k].Word?
      ensures ts[k].w.q < ts[k].w.eq < buf.Length && Reads(buf[..], ts[k].w.q, old(buf[ts[k].w.q..ts[k].w.eq]))
    {
      var w := ts[k].w;
      LineHas(ts, c, k);
      ReadsBack(s, before, buf[..], c, w);
      assert s[w.q..w.eq] == before[w.q..w.eq];
    }
    forall k | 0 <= k < buf.Length && WordChar(old(buf[k])) ensures buf[k] == old(buf[k]) {
      NulNoWord();
      KeptChar(s, before, buf[..], c, k);
      assert buf[..][k] == buf[k];
    }
  }

  lemma NulNoWord()
    ensures !WordChar(NUL)
  {
  }

  lemma LineHas(ts: seq<Tok<Span>>, c: Cmd<Span>, k: nat)
    requires IsLine(ts, c) && k < |ts| && ts[k].Word?
    ensures Has(c, ts[k].w)
  {
    LineWords(ts, c);
    WordIn(ts, k);
  }

  lemma NoTree(ts: seq<Tok<Span>>)
    requires Parse(ts).Fail?
    ensures forall t :: !IsLine(ts, t)
  {
    forall t ensures !IsLine(ts, t) {
      ParseIff(ts, t);
    }
  }

  // ---------------------------------------------------------- printing and reading back

  /** A token as text, and a space. */
  ghost function Show(t: Tok<string>): (s: string) {
    if t.Word? then t.w + " " else if t.c == '+' then ">> " else [t.c, ' ']
  }

  ghost function Render(ts: seq<Tok<string>>): (s: string) {
    if ts == [] then "" else Show(ts[0]) + Render(ts[1..])
  }

  ghost predicate GoodTok(t: Tok<string>) {
    if t.Word? then GoodWord(t.w)
    else t.c == '+' || Symbol(t.c)
  }

  ghost predicate TextAt(s: string, w: Span, text: string) {
    w.q <= w.eq <= |s| && s[w.q..w.eq] == text
  }

  /** A span stands for the text it covers in s. */
  ghost function In(s: string): (rel: (Span, string) -> bool) {
    (w, v) => TextAt(s, w, v)
  }

  lemma LexSpace(s: string, i: nat)
    requires i < |s| && White(s[i])
    ensures LexFrom(s, i) == LexFrom(s, i + 1)
  {
  }

  lemma {:induction false} WordEndAt(s: string, i: nat, n: nat)
    requires i + n < |s| && (forall k :: i <= k < i + n ==> WordChar(s[k])) && s[i + n] == ' '
    ensures WordEnd(s, i) == i + n
    decreases n
  {
    if n > 0 {
      WordEndAt(s, i + 1, n - 1);
    }
  }

  /** The first token of a rendering, and where it ends. */
  lemma ShowToken(s: string, q: nat, t: Tok<string>)
    requires GoodTok(t) && q + |Show(t)| <= |s| && s[q..q + |Show(t)|] == Show(t)
    ensures q < |s| && !White(s[q]) && TokenEnd(s, q) == q + |Show(t)| - 1 && s[q + |Show(t)| - 1] == ' '
    ensures TokRel(In(s), TokenOf(s, q), t)
  {
    hide TokenEnd, TokenOf, GoodWord, White, Symbol, In, TokRel;
    var show := Show(t);
    forall k | 0 <= k < |show| ensures s[q + k] == show[k] {
      assert s[q..q + |show|][k] == show[k];
    }
    if t.Word? {
      forall k | 0 <= k < |t.w| ensures s[q + k] == t.w[k] {
        assert show[k] == t.w[k];
      }
      assert s[q + |t.w|] == show[|t.w|] == ' ';
      ShowWord(s, q, t.w);
    } else {
      ShowSymbol(s, q, t.c);
    }
  }

  lemma ShowWord(s: string, q: nat, w: string)
    requires GoodWord(w) && q + |w| < |s| && s[q + |w|] == ' ' && forall k :: 0 <= k < |w| ==> s[q + k] == w[k]
    ensures !White(s[q]) && TokenEnd(s, q) == q + |w| && TokRel(In(s), TokenOf(s, q), Word(w))
  {
    assert forall k :: q <= k < q + |w| ==> s[k] == w[k - q];
    WordEndAt(s, q, |w|);
    assert s[q..q + |w|] == w;
  }

  lemma ShowSymbol(s: string, q: nat, c: char)
    requires GoodTok(Sym(c)) && q + 1 < |s| && if c == '+' then q + 2 < |s| && s[q] == s[q + 1] == '>'
                                               else s[q] == c && s[q + 1] == ' '
    ensures !White(s[q]) && TokenEnd(s, q) == q + (if c == '+' then 2 else 1) && TokRel(In(s), TokenOf(s, q), Sym(c))
  {
  }

  /** One token is read, and the space after it. */
  lemma LexShown(s: string, q: nat, t: Tok<string>, rest: string)
    requires GoodTok(t) && q <= |s| && s[q..] == Show(t) + rest
    ensures q + |Show(t)| <= |s| && s[q + |Show(t)|..] == rest && q < |s| && !White(s[q])
    ensures LexFrom(s, q) == [TokenOf(s, q)] + LexFrom(s, q + |Show(t)|) && TokRel(In(s), TokenOf(s, q), t)
  {
    hide White, Symbol, GoodTok, TokRel, TokenOf, TokenEnd, Show, In, LexFrom, SkipWhite;
    var show := Show(t);
    assert s[q..q + |show|] == (show + rest)[..|show|] == show;
    ShowToken(s, q, t);
    LexUnfold(s, q);
    SkipNone(s, q);
    SpaceIsWhite();
    LexSpace(s, q + |show| - 1);
  }

  lemma {:induction false} LexRender(s: string, q: nat, ts: seq<Tok<string>>)
    requires q <= |s| && s[q..] == Render(ts) && forall k :: 0 <= k < |ts| ==> GoodTok(ts[k])
    ensures ToksRel(In(s), LexFrom(s, q), ts)
    decreases |ts|
  {
    hide White, GoodTok, TokRel, TokenOf, Show, In, LexFrom, ToksRel;
    if ts == [] {
      NoneLeft(s);
    } else {
      LexShown(s, q, ts[0], Render(ts[1..]));
      LexRender(s, q + |Show(ts[0])|, ts[1..]);
      ToksCons(s, TokenOf(s, q), LexFrom(s, q + |Show(ts[0])|), ts);
    }
  }

  lemma NoneLeft(s: string)
    ensures ToksRel(In(s), LexFrom(s, |s|), [])
  {
    LexEnd(s);
  }

  lemma SpaceIsWhite()
    ensures White(' ')
  {
  }

  lemma SkipNone(s: string, q: nat)
    requires q < |s| && !White(s[q])
    ensures SkipWhite(s, q) == q
  {
  }

  lemma ToksCons(s: string, t: Tok<Span>, rest: seq<Tok<Span>>, ts: seq<Tok<string>>)
    requires ts != [] && TokRel(In(s), t, ts[0]) && ToksRel(In(s), rest, ts[1..])
    ensures ToksRel(In(s), [t] + rest, ts)
  {
  }

  ghost predicate GoodWord(w: string) {
    w != "" && forall k :: 0 <= k < |w| ==> WordChar(w[k])
  }

  lemma GoodPrinted(t: Cmd<string>)
    requires Printable(t) && CmdOk(GoodWord, t)
    ensures forall k :: 0 <= k < |PrintLine(t)| ==> GoodTok(PrintLine(t)[k])
  {
    hide PrintLine;
    LineOk(GoodWord, t);
    var ts := PrintLine(t);
    forall k | 0 <= k < |ts| ensures GoodTok(ts[k]) {
      assert TokOk(GoodWord, ts[k]);
    }
  }

  /** Parsing the canonical text of any such tree gives that tree back: the same shape, with
      every word where its text stands. */
  lemma RoundTrip(t: Cmd<string>)
    requires Printable(t) && CmdOk(GoodWord, t)
    ensures var s := Render(PrintLine(t)); var r := Parse(LexFrom(s, 0));
            r.Done? && CmdRel(In(s), r.value, t)
  {
    hide LexFrom, PrintLine, Render, ParseLine, In;
    var ts := PrintLine(t);
    var s := Render(ts);
    GoodPrinted(t);
    assert s[0..] == s;
    LexRender(s, 0, ts);
    ParsePrint(t);
    LineRel(In(s), LexFrom(s, 0), ts);
  }
}
