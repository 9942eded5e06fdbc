/**
 The shell's grammar over tokens: what the recursive-descent parser accepts, and the
 canonical printing that it reads back.
 */
module ShellGrammar {
  const MAXARGS := 10

  /** A word, or one of | ( ) & ; < > and + for >>. */
  datatype Tok<W> = Word(w: W) | Sym(c: char)

  /** mode is <, > or +. */
  datatype Cmd<W> =
    | Exec(args: seq<W>)
    | Redir(cmd: Cmd<W>, file: W, mode: char)
    | Pipe(left: Cmd<W>, right: Cmd<W>)
    | List(left: Cmd<W>, right: Cmd<W>)
    | Back(cmd: Cmd<W>)

  /** A redirection that is yet to be wrapped around its command. */
  datatype Red<W> = Red(file: W, mode: char)

  datatype Res<T, W> = Fail | Done(value: T, rest: seq<Tok<W>>)

  ghost predicate Next<W>(ts: seq<Tok<W>>, c: char) {
    ts != [] && ts[0] == Sym(c)
  }

  ghost predicate RedirNext<W>(ts: seq<Tok<W>>) {
    Next(ts, '<') || Next(ts, '>') || Next(ts, '+')
  }

  /** parseredirs. */
  ghost function Redirs<W>(ts: seq<Tok<W>>): (r: Res<seq<Red<W>>, W>)
    ensures r.Done? ==> |r.rest| <= |ts|
  {
    if !RedirNext(ts) then Done([], ts)
    else if |ts| < 2 || !ts[1].Word? then Fail
    else
      match Redirs(ts[2..])
      case Fail => Fail
      case Done(rs, rest) => Done([Red(ts[1].w, ts[0].c)] + rs, rest)
  }

  function Wrap<W>(c: Cmd<W>, rs: seq<Red<W>>): (c': Cmd<W>)
    decreases |rs|
  {
    if rs == [] then c else Wrap(Redir(c, rs[0].file, rs[0].mode), rs[1..])
  }

  /** The arguments of parseexec, with the redirections found so far. */
  ghost function Args<W>(args: seq<W>, rs: seq<Red<W>>, ts: seq<Tok<W>>): (r: Res<Cmd<W>, W>)
    ensures r.Done? ==> |r.rest| <= |ts|
    decreases |ts|
  {
    if ts == [] || Next(ts, '|') || Next(ts, ')') || Next(ts, '&') || Next(ts, ';') then Done(Wrap(Exec(args), rs), ts)
    else if !ts[0].Word? || |args| + 1 >= MAXARGS then Fail
    else
      match Redirs(ts[1..])
      case Fail => Fail
      case Done(more, rest) => Args(args + [ts[0].w], rs + more, rest)
  }

  ghost function ParseExec<W>(ts: seq<Tok<W>>): (r: Res<Cmd<W>, W>)
    ensures r.Done? ==> |r.rest| <= |ts|
    decreases |ts|, 0
  {
    if Next(ts, '(') then
      match ParseLine(ts[1..])
      case Fail => Fail
      case Done(c, rest) =>
        if !Next(rest, ')') then Fail
        else
          match Redirs(rest[1..])
          case Fail => Fail
          case Done(rs, rest') => Done(Wrap(c, rs), rest')
    else
      match Redirs(ts)
      case Fail => Fail
      case Done(rs, rest) => Args([], rs, rest)
  }

  ghost function ParsePipe<W>(ts: seq<Tok<W>>): (r: Res<Cmd<W>, W>)
    ensures r.Done? ==> |r.rest| <= |ts|
    decreases |ts|, 1
  {
    match ParseExec(ts)
    case Fail => Fail
    case Done(c, rest) =>
      if !Next(rest, '|') then Done(c, rest)
      else
        match ParsePipe(rest[1..])
        case Fail => Fail
        case Done(c', rest') => Done(Pipe(c, c'), rest')
  }

  ghost function ParseLine<W>(ts: seq<Tok<W>>): (r: Res<Cmd<W>, W>)
    ensures r.Done? ==> |r.rest| <= |ts|
    decreases |ts|, 3
  {
    match ParsePipe(ts)
    case Fail => Fail
    case Done(c, rest) => LineRest(c, rest)
  }

  /** parseline after its first pipe. */
  ghost function LineRest<W>(c: Cmd<W>, ts: seq<Tok<W>>): (r: Res<Cmd<W>, W>)
    ensures r.Done? ==> |r.rest| <= |ts|
    decreases |ts|, 2
  {
    if Next(ts, '&') then LineRest(Back(c), ts[1..])
    else if Next(ts, ';') then
      match ParseLine(ts[1..])
      case Fail => Fail
      case Done(c', rest) => Done(List(c, c'), rest)
    else Done(c, ts)
  }

  /** parsecmd, on the tokens of the whole input. */
  ghost function Parse<W>(ts: seq<Tok<W>>): (r: Res<Cmd<W>, W>) {
    match ParseLine(ts)
    case Fail => Fail
    case Done(c, rest) => if rest == [] then Done(c, rest) else Fail
  }

  // ---------------------------------------------------------------------- printing

  ghost function Words<W>(ws: seq<W>): (ts: seq<Tok<W>>) {
    if ws == [] then [] else [Word(ws[0])] + Words(ws[1..])
  }

  /** What a command is under its redirections, and those, innermost first. */
  ghost function Base<W>(t: Cmd<W>): (c: Cmd<W>)
    ensures !c.Redir? && (t.Redir? ==> c < t) && (!t.Redir? ==> c == t)
  {
    if t.Redir? then Base(t.cmd) else t
  }

  ghost function Reds<W>(t: Cmd<W>): (rs: seq<Red<W>>) {
    if t.Redir? then Reds(t.cmd) + [Red(t.file, t.mode)] else []
  }

  ghost function PrintReds<W>(rs: seq<Red<W>>): (ts: seq<Tok<W>>) {
    if rs == [] then [] else [Sym(rs[0].mode), Word(rs[0].file)] + PrintReds(rs[1..])
  }

  /** A pipe, list or background command, as it is printed where a line is expected. */
  ghost function Inside<W>(t: Cmd<W>): (ts: seq<Tok<W>>)
    decreases t, 0
  {
    match t
    case Pipe(l, r) => PrintExec(l) + [Sym('|')] + PrintPipe(r)
    case List(l, r) => PrintLeft(l) + [Sym(';')] + PrintLine(r)
    case Back(c) => PrintLeft(c) + [Sym('&')]
    case _ => []
  }

  /** Where a simple command is expected, anything else goes in parentheses. */
  ghost function PrintExec<W>(t: Cmd<W>): (ts: seq<Tok<W>>)
    decreases t, 1
  {
    var b := Base(t);
    (if b.Exec? then Words(b.args) else [Sym('(')] + Inside(b) + [Sym(')')]) + PrintReds(Reds(t))
  }

  ghost function PrintPipe<W>(t: Cmd<W>): (ts: seq<Tok<W>>)
    decreases t, 2
  {
    if t.Pipe? then Inside(t) else PrintExec(t)
  }

  ghost function PrintLeft<W>(t: Cmd<W>): (ts: seq<Tok<W>>)
    decreases t, 3
  {
    if t.Back? then Inside(t) else PrintPipe(t)
  }

  /** The canonical printing. */
  ghost function PrintLine<W>(t: Cmd<W>): (ts: seq<Tok<W>>)
    decreases t, 4
  {
    if t.List? then Inside(t) else PrintLeft(t)
  }

  /** Trees the shell can build: at most nine arguments, and the three redirections. */
  ghost predicate Printable<W>(t: Cmd<W>) {
    match t
    case Exec(args) => |args| < MAXARGS
    case Redir(c, _, m) => (m == '<' || m == '>' || m == '+') && Printable(c)
    case Pipe(l, r) => Printable(l) && Printable(r)
    case List(l, r) => Printable(l) && Printable(r)
    case Back(c) => Printable(c)
  }

  // -------------------------------------------------------------------- derivations

  // What a line is, without the parser: the grammar's rules as a relation between tokens and
  // trees.

  ghost predicate RedsOk<W>(rs: seq<Red<W>>) {
    forall i :: 0 <= i < |rs| ==> rs[i].mode == '<' || rs[i].mode == '>' || rs[i].mode == '+'
  }

  /** The tokens are the arguments and the redirections, each in its order, mixed in any way. */
  ghost predicate Mixed<W>(ts: seq<Tok<W>>, args: seq<W>, rs: seq<Red<W>>)
    decreases |ts|
  {
    if ts == [] then args == [] && rs == []
    else if ts[0].Word? then args != [] && args[0] == ts[0].w && Mixed(ts[1..], args[1..], rs)
    else |ts| >= 2 && rs != [] && ts[..2] == [Sym(rs[0].mode), Word(rs[0].file)] && Mixed(ts[2..], args, rs[1..])
  }

  ghost predicate IsSimple<W>(ts: seq<Tok<W>>, t: Cmd<W>, args: seq<W>, rs: seq<Red<W>>) {
    Mixed(ts, args, rs) && RedsOk(rs) && |args| < MAXARGS && t == Wrap(Exec(args), rs)
  }

  /** A line in parentheses, with redirections after it. */
  ghost predicate IsGroup<W(!new)>(ts: seq<Tok<W>>, t: Cmd<W>, a: seq<Tok<W>>, c: Cmd<W>, rs: seq<Red<W>>)
    decreases |ts|, 0
  {
    ts == [Sym('(')] + a + [Sym(')')] + PrintReds(rs) && RedsOk(rs) && t == Wrap(c, rs) && IsLine(a, c)
  }

  ghost predicate IsExec<W(!new)>(ts: seq<Tok<W>>, t: Cmd<W>)
    decreases |ts|, 1
  {
    (exists args, rs :: IsSimple(ts, t, args, rs)) || (exists a, c, rs :: IsGroup(ts, t, a, c, rs))
  }

  ghost predicate IsPipe<W(!new)>(ts: seq<Tok<W>>, t: Cmd<W>)
    decreases |ts|, 2
  {
    IsExec(ts, t) || (t.Pipe? && exists a, b :: ts == a + [Sym('|')] + b && IsExec(a, t.left) && IsPipe(b, t.right))
  }

  /** Pipes, and background commands. */
  ghost predicate IsLeft<W(!new)>(ts: seq<Tok<W>>, t: Cmd<W>)
    decreases |ts|, 3
  {
    IsPipe(ts, t) || (t.Back? && exists a :: ts == a + [Sym('&')] && IsLeft(a, t.cmd))
  }

  ghost predicate IsLine<W(!new)>(ts: seq<Tok<W>>, t: Cmd<W>)
    decreases |ts|, 4
  {
    IsLeft(ts, t) || (t.List? && exists a, b :: ts == a + [Sym(';')] + b && IsLeft(a, t.left) && IsLine(b, t.right))
  }

  /** A redirection's wrapping, from the outside: the last one is outermost. */
  lemma {:induction false} WrapMore<W>(c: Cmd<W>, rs: seq<Red<W>>, r: Red<W>)
    ensures Wrap(c, rs + [r]) == Redir(Wrap(c, rs), r.file, r.mode)
    decreases |rs|
  {
    if rs != [] {
      assert (rs + [r])[1..] == rs[1..] + [r];
      WrapMore(Redir(c, rs[0].file, rs[0].mode), rs[1..], r);
    }
  }

  // ------------------------------------------------------- what is parsed is derived

  lemma {:induction false} RedirsSound<W>(ts: seq<Tok<W>>)
    requires Redirs(ts).Done?
    ensures var r := Redirs(ts); ts == PrintReds(r.value) + r.rest && RedsOk(r.value) && !RedirNext(r.rest)
    decreases |ts|
  {
    hide Redirs, PrintReds;
    if !RedirNext(ts) {
      NoReds(ts);
      NonePrinted<W>();
      assert ts == [] + ts;
    } else {
      RedirsWent(ts);
      RedirsSound(ts[2..]);
      RedsCons(Red(ts[1].w, ts[0].c), Redirs(ts[2..]).value);
      assert ts == [Sym(ts[0].c), Word(ts[1].w)] + ts[2..];
    }
  }

  lemma RedirsWent<W>(ts: seq<Tok<W>>)
    requires Redirs(ts).Done? && RedirNext(ts)
    ensures |ts| >= 2 && ts[0].Sym? && ts[1].Word? && Redirs(ts[2..]).Done?
    ensures var q := Redirs(ts[2..]); Redirs(ts) == Done([Red(ts[1].w, ts[0].c)] + q.value, q.rest)
    ensures ts[0].c == '<' || ts[0].c == '>' || ts[0].c == '+'
  {
  }

  lemma NonePrinted<W>()
    ensures PrintReds<W>([]) == []
  {
  }

  lemma RedsCons<W>(r: Red<W>, rs: seq<Red<W>>)
    ensures PrintReds([r] + rs) == [Sym(r.mode), Word(r.file)] + PrintReds(rs)
  {
    assert ([r] + rs)[1..] == rs;
  }

  lemma {:induction false} MixedReds<W>(rs: seq<Red<W>>, ts: seq<Tok<W>>, args: seq<W>, qs: seq<Red<W>>)
    requires Mixed(ts, args, qs)
    ensures Mixed(PrintReds(rs) + ts, args, rs + qs)
    decreases |rs|
  {
    if rs == [] {
      assert PrintReds(rs) + ts == ts && rs + qs == qs;
    } else {
      MixedReds(rs[1..], ts, args, qs);
      var us := PrintReds(rs) + ts;
      assert us[2..] == PrintReds(rs[1..]) + ts && us[..2] == [Sym(rs[0].mode), Word(rs[0].file)];
      assert (rs + qs)[1..] == rs[1..] + qs;
    }
  }

  /** What the argument loop reads after the arguments and redirections it already has. */
  lemma {:induction false} ArgsSound<W>(args: seq<W>, rs: seq<Red<W>>, ts: seq<Tok<W>>)
    returns (a: seq<Tok<W>>, more: seq<W>, qs: seq<Red<W>>)
    requires Args(args, rs, ts).Done? && |args| < MAXARGS
    ensures var r := Args(args, rs, ts);
            && ts == a + r.rest && Mixed(a, more, qs) && RedsOk(qs) && |args + more| < MAXARGS
            && r.value == Wrap(Exec(args + more), rs + qs)
    decreases |ts|
  {
    hide Redirs, Wrap, Args, Mixed, PrintReds, AfterExec;
    if AfterExec(ts) {
      a, more, qs := [], [], [];
      NoneMixed<W>();
      ArgsEnd(args, rs, ts);
      assert ts == a + ts && args + more == args && rs + qs == rs;
    } else {
      ArgsWent(args, rs, ts);
      RedirsSound(ts[1..]);
      var d, w := Redirs(ts[1..]), ts[0].w;
      var b, ms, ps := ArgsSound(args + [w], rs + d.value, d.rest);
      a, more, qs := [Word(w)] + (PrintReds(d.value) + b), [w] + ms, d.value + ps;
      MixedReds(d.value, b, ms, ps);
      MixedWord(w, PrintReds(d.value) + b, ms, qs);
      assert args + [w] + ms == args + more && rs + d.value + ps == rs + qs;
      assert ts == [ts[0]] + ts[1..];
    }
  }

  lemma ArgsWent<W>(args: seq<W>, rs: seq<Red<W>>, ts: seq<Tok<W>>)
    requires Args(args, rs, ts).Done? && !AfterExec(ts)
    ensures ts != [] && ts[0].Word? && |args| + 1 < MAXARGS && Redirs(ts[1..]).Done?
    ensures Args(args, rs, ts) == Args(args + [ts[0].w], rs + Redirs(ts[1..]).value, Redirs(ts[1..]).rest)
    ensures |Redirs(ts[1..]).rest| < |ts|
  {
    hide Redirs, Wrap;
  }

  lemma NoneMixed<W>()
    ensures Mixed<W>([], [], [])
  {
  }

  lemma MixedWord<W>(w: W, ts: seq<Tok<W>>, args: seq<W>, rs: seq<Red<W>>)
    requires Mixed(ts, args, rs)
    ensures Mixed([Word(w)] + ts, [w] + args, rs)
  {
    assert ([Word(w)] + ts)[1..] == ts && ([w] + args)[1..] == args;
  }

  lemma {:induction false} SimpleSound<W(!new)>(ts: seq<Tok<W>>) returns (a: seq<Tok<W>>)
    requires ParseExec(ts).Done? && !Next(ts, '(')
    ensures ts == a + ParseExec(ts).rest && IsExec(a, ParseExec(ts).value)
  {
    hide Redirs, Wrap, Args, Mixed, IsGroup;
    RedirsSound(ts);
    var d := Redirs(ts);
    var none: seq<W> := [];
    ExecSimple(ts, d.value, d.rest);
    var b, ms, qs := ArgsSound(none, d.value, d.rest);
    a := PrintReds(d.value) + b;
    MixedReds(d.value, b, ms, qs);
    assert none + ms == ms;
    assert IsSimple(a, ParseExec(ts).value, ms, d.value + qs);
  }

  lemma {:induction false} ExecSound<W(!new)>(ts: seq<Tok<W>>) returns (a: seq<Tok<W>>)
    requires ParseExec(ts).Done?
    ensures ts == a + ParseExec(ts).rest && IsExec(a, ParseExec(ts).value)
    decreases |ts|, 0
  {
    hide Redirs, Wrap, Args, IsLine, IsSimple;
    if Next(ts, '(') {
      var b := LineSound(ts[1..]);
      var l := ParseLine(ts[1..]);
      RedirsSound(l.rest[1..]);
      var d := Redirs(l.rest[1..]);
      a := [Sym('(')] + b + [Sym(')')] + PrintReds(d.value);
      assert ts == [ts[0]] + ts[1..] && l.rest == [l.rest[0]] + l.rest[1..];
      assert ts == a + d.rest;
      assert IsGroup(a, ParseExec(ts).value, b, l.value, d.value);
    } else {
      a := SimpleSound(ts);
    }
  }

  lemma {:induction false} PipeSound<W(!new)>(ts: seq<Tok<W>>) returns (a: seq<Tok<W>>)
    requires ParsePipe(ts).Done?
    ensures ts == a + ParsePipe(ts).rest && IsPipe(a, ParsePipe(ts).value)
    decreases |ts|, 1
  {
    hide ParseExec, IsExec;
    var b := ExecSound(ts);
    var l := ParseExec(ts);
    if Next(l.rest, '|') {
      var d := PipeSound(l.rest[1..]);
      a := b + [Sym('|')] + d;
      assert l.rest == [l.rest[0]] + l.rest[1..];
    } else {
      a := b;
    }
  }

  lemma {:induction false} LineSound<W(!new)>(ts: seq<Tok<W>>) returns (a: seq<Tok<W>>)
    requires ParseLine(ts).Done?
    ensures ts == a + ParseLine(ts).rest && IsLine(a, ParseLine(ts).value)
    decreases |ts|, 3
  {
    hide ParsePipe, IsPipe, LineRest, IsLine;
    var p := PipeSound(ts);
    var l := ParsePipe(ts);
    a := RestSound(p, l.value, l.rest);
  }

  /** What follows p, which is a line so far. */
  lemma {:induction false} RestSound<W(!new)>(p: seq<Tok<W>>, c: Cmd<W>, ts: seq<Tok<W>>) returns (a: seq<Tok<W>>)
    requires LineRest(c, ts).Done? && IsLeft(p, c)
    ensures p + ts == a + LineRest(c, ts).rest && IsLine(a, LineRest(c, ts).value)
    decreases |ts|, 2
  {
    hide ParseLine, IsPipe;
    if Next(ts, '&') {
      assert p + ts == p + [Sym('&')] + ts[1..];
      a := RestSound(p + [Sym('&')], Back(c), ts[1..]);
    } else if Next(ts, ';') {
      var b := LineSound(ts[1..]);
      a := p + [Sym(';')] + b;
      assert ts == [Sym(';')] + ts[1..];
    } else {
      a := p;
    }
  }

  // ------------------------------------------------------- what is derived is parsed

  /** What may follow a simple command, a pipe, and a line. */
  ghost predicate AfterExec<W>(ts: seq<Tok<W>>) {
    ts == [] || Next(ts, '|') || Next(ts, ')') || Next(ts, '&') || Next(ts, ';')
  }

  ghost predicate AfterPipe<W>(ts: seq<Tok<W>>) {
    ts == [] || Next(ts, ')') || Next(ts, '&') || Next(ts, ';')
  }

  ghost predicate AfterLine<W>(ts: seq<Tok<W>>) {
    ts == [] || Next(ts, ')')
  }

  lemma AfterExecReds<W>(rest: seq<Tok<W>>)
    requires AfterExec(rest)
    ensures !RedirNext(rest) && !Next(rest, '(')
  {
  }

  lemma {:induction false} RedirsBack<W>(rs: seq<Red<W>>, rest: seq<Tok<W>>)
    requires RedsOk(rs) && !RedirNext(rest)
    ensures Redirs(PrintReds(rs) + rest) == Done(rs, rest)
    decreases |rs|
  {
    if rs == [] {
      assert PrintReds(rs) + rest == rest;
    } else {
      var ts := PrintReds(rs) + rest;
      assert ts[0] == Sym(rs[0].mode) && ts[1] == Word(rs[0].file) && ts[2..] == PrintReds(rs[1..]) + rest;
      RedirsBack(rs[1..], rest);
      assert rs == [rs[0]] + rs[1..];
    }
  }

  lemma NoReds<W>(ts: seq<Tok<W>>)
    requires !RedirNext(ts)
    ensures Redirs(ts) == Done([], ts)
  {
  }

  lemma ArgsWord<W>(args: seq<W>, rs: seq<Red<W>>, w: W, tail: seq<Tok<W>>, more: seq<Red<W>>, rest: seq<Tok<W>>)
    requires |args| + 1 < MAXARGS && Redirs(tail) == Done(more, rest)
    ensures Args(args, rs, [Word(w)] + tail) == Args(args + [w], rs + more, rest)
  {
    hide Redirs, Wrap;
    var ts := [Word(w)] + tail;
    assert ts[0] == Word(w) && ts[1..] == tail;
  }

  lemma ArgsEnd<W>(args: seq<W>, rs: seq<Red<W>>, rest: seq<Tok<W>>)
    requires AfterExec(rest)
    ensures Args(args, rs, rest) == Done(Wrap(Exec(args), rs), rest)
  {
  }

  lemma ExecSimple<W>(ts: seq<Tok<W>>, rs: seq<Red<W>>, rest: seq<Tok<W>>)
    requires !Next(ts, '(') && Redirs(ts) == Done(rs, rest)
    ensures ParseExec(ts) == Args([], rs, rest)
  {
    hide Redirs, Args, ParseLine;
  }

  /** The redirections that come first, and the rest, which begins with an argument. */
  lemma {:induction false} Leading<W>(a: seq<Tok<W>>, args: seq<W>, rs: seq<Red<W>>)
    returns (n: nat, b: seq<Tok<W>>)
    requires Mixed(a, args, rs) && RedsOk(rs)
    ensures n <= |rs| && a == PrintReds(rs[..n]) + b && Mixed(b, args, rs[n..]) && |b| <= |a|
    ensures b != [] ==> b[0].Word?
    decreases |a|
  {
    if a == [] || a[0].Word? {
      n, b := 0, a;
      assert rs[..0] == [] && rs[0..] == rs && PrintReds(rs[..0]) + b == b;
    } else {
      var m, d := Leading(a[2..], args, rs[1..]);
      n, b := m + 1, d;
      assert rs[..n] == [rs[0]] + rs[1..][..m] && rs[n..] == rs[1..][m..];
      assert rs[..n][1..] == rs[1..][..m] && a == a[..2] + a[2..];
    }
  }

  lemma {:induction false} ArgsYes<W>(args: seq<W>, rs: seq<Red<W>>, a: seq<Tok<W>>, more: seq<W>, qs: seq<Red<W>>,
                                      rest: seq<Tok<W>>)
    requires Mixed(a, more, qs) && RedsOk(qs) && |args + more| < MAXARGS && AfterExec(rest) && (a != [] ==> a[0].Word?)
    ensures Args(args, rs, a + rest) == Done(Wrap(Exec(args + more), rs + qs), rest)
    decreases |a|
  {
    hide Args, Wrap, Redirs, PrintReds, AfterExec;
    if a == [] {
      assert a + rest == rest && args + more == args && rs + qs == rs;
      ArgsEnd(args, rs, rest);
    } else {
      var w := a[0].w;
      var n, b := Leading(a[1..], more[1..], qs);
      var tail := PrintReds(qs[..n]) + (b + rest);
      assert a == [Word(w)] + a[1..] && a + rest == [Word(w)] + tail;
      NotRedir(b, rest);
      RedirsBack(qs[..n], b + rest);
      ArgsWord(args, rs, w, tail, qs[..n], b + rest);
      assert args + [w] + more[1..] == args + more && rs + qs[..n] + qs[n..] == rs + qs;
      ArgsYes(args + [w], rs + qs[..n], b, more[1..], qs[n..], rest);
    }
  }

  lemma NotRedir<W>(b: seq<Tok<W>>, rest: seq<Tok<W>>)
    requires AfterExec(rest) && (b != [] ==> b[0].Word?)
    ensures !RedirNext(b + rest) && !Next(b + rest, '(')
  {
    if b == [] {
      assert b + rest == rest;
    }
  }

  lemma SimpleYes<W>(a: seq<Tok<W>>, t: Cmd<W>, args: seq<W>, rs: seq<Red<W>>, rest: seq<Tok<W>>)
    requires IsSimple(a, t, args, rs) && AfterExec(rest)
    ensures ParseExec(a + rest) == Done(t, rest)
  {
    hide ParseExec, Args, Wrap, Redirs, AfterExec, Mixed;
    var n, b := Leading(a, args, rs);
    var none: seq<W> := [];
    assert a + rest == PrintReds(rs[..n]) + (b + rest);
    NotRedir(b, rest);
    RedirsBack(rs[..n], b + rest);
    RedsFirst(rs[..n], b + rest);
    ExecSimple(a + rest, rs[..n], b + rest);
    ArgsYes(none, rs[..n], b, args, rs[n..], rest);
    assert none + args == args && rs[..n] + rs[n..] == rs;
  }

  lemma RedsFirst<W>(rs: seq<Red<W>>, rest: seq<Tok<W>>)
    requires RedsOk(rs) && !Next(rest, '(')
    ensures !Next(PrintReds(rs) + rest, '(')
  {
    if rs == [] {
      assert PrintReds(rs) + rest == rest;
    } else {
      assert (PrintReds(rs) + rest)[0] == Sym(rs[0].mode);
    }
  }

  lemma {:induction false} ExecYes<W(!new)>(a: seq<Tok<W>>, t: Cmd<W>, rest: seq<Tok<W>>)
    requires IsExec(a, t) && AfterExec(rest)
    ensures ParseExec(a + rest) == Done(t, rest)
    decreases |a|, 0
  {
    hide Redirs, Args, Wrap, PrintReds, IsSimple, IsLine, ParseLine;
    if args, rs :| IsSimple(a, t, args, rs) {
      SimpleYes(a, t, args, rs, rest);
    } else {
      var b, c, rs :| IsGroup(a, t, b, c, rs);
      var inner := [Sym(')')] + (PrintReds(rs) + rest);
      assert (a + rest)[1..] == b + inner;
      LineYes(b, c, inner);
      assert inner[1..] == PrintReds(rs) + rest;
      AfterExecReds(rest);
      RedirsBack(rs, rest);
    }
  }

  lemma {:induction false} PipeYes<W(!new)>(a: seq<Tok<W>>, t: Cmd<W>, rest: seq<Tok<W>>)
    requires IsPipe(a, t) && AfterPipe(rest)
    ensures ParsePipe(a + rest) == Done(t, rest)
    decreases |a|, 1
  {
    hide ParseExec, IsExec;
    if IsExec(a, t) {
      ExecYes(a, t, rest);
    } else {
      var l, r :| a == l + [Sym('|')] + r && IsExec(l, t.left) && IsPipe(r, t.right);
      var more := [Sym('|')] + (r + rest);
      assert a + rest == l + more;
      ExecYes(l, t.left, more);
      assert more[1..] == r + rest;
      PipeYes(r, t.right, rest);
    }
  }

  lemma {:induction false} LeftYes<W(!new)>(a: seq<Tok<W>>, t: Cmd<W>, rest: seq<Tok<W>>)
    requires IsLeft(a, t) && AfterPipe(rest)
    ensures ParseLine(a + rest) == LineRest(t, rest)
    decreases |a|, 2
  {
    hide ParsePipe, IsPipe;
    if IsPipe(a, t) {
      PipeYes(a, t, rest);
    } else {
      var l :| a == l + [Sym('&')] && IsLeft(l, t.cmd);
      var more := [Sym('&')] + rest;
      assert a + rest == l + more;
      LeftYes(l, t.cmd, more);
      assert more[1..] == rest;
    }
  }

  lemma {:induction false} LineYes<W(!new)>(a: seq<Tok<W>>, t: Cmd<W>, rest: seq<Tok<W>>)
    requires IsLine(a, t) && AfterLine(rest)
    ensures ParseLine(a + rest) == Done(t, rest)
    decreases |a|, 3
  {
    hide ParsePipe, IsLeft;
    if IsLeft(a, t) {
      LeftYes(a, t, rest);
    } else {
      var l, r :| a == l + [Sym(';')] + r && IsLeft(l, t.left) && IsLine(r, t.right);
      var more := [Sym(';')] + (r + rest);
      assert a + rest == l + more;
      LeftYes(l, t.left, more);
      assert more[1..] == r + rest;
      LineYes(r, t.right, rest);
    }
  }

  /** The parser accepts exactly the lines of the grammar, and returns the tree derived; so no
      line has two. */
  lemma ParseIff<W(!new)>(ts: seq<Tok<W>>, t: Cmd<W>)
    ensures Parse(ts) == Done(t, []) <==> IsLine(ts, t)
    ensures Parse(ts).Done? ==> Parse(ts).rest == []
  {
    hide ParseLine, IsLine;
    if ParseLine(ts).Done? {
      var a := LineSound(ts);
      assert ParseLine(ts).rest == [] ==> a == ts;
    }
    if IsLine(ts, t) {
      LineYes(ts, t, []);
      assert ts + [] == ts;
    }
  }

  // ------------------------------------------------------------------ no word is lost

  ghost function TokWords<W>(ts: seq<Tok<W>>): (ws: multiset<W>) {
    if ts == [] then multiset{}
    else (if ts[0].Word? then multiset{ts[0].w} else multiset{}) + TokWords(ts[1..])
  }

  ghost function RedWords<W>(rs: seq<Red<W>>): (ws: multiset<W>) {
    if rs == [] then multiset{} else multiset{rs[0].file} + RedWords(rs[1..])
  }

  /** The arguments and file names of a command. */
  ghost function CmdWords<W>(t: Cmd<W>): (ws: multiset<W>) {
    match t
    case Exec(args) => multiset(args)
    case Redir(c, f, _) => CmdWords(c) + multiset{f}
    case Pipe(l, r) => CmdWords(l) + CmdWords(r)
    case List(l, r) => CmdWords(l) + CmdWords(r)
    case Back(c) => CmdWords(c)
  }

  lemma {:induction false} JoinWords<W>(a: seq<Tok<W>>, b: seq<Tok<W>>)
    ensures TokWords(a + b) == TokWords(a) + TokWords(b)
    decreases |a|
  {
    if a == [] {
      assert a + b == b;
    } else {
      assert (a + b)[1..] == a[1..] + b;
      JoinWords(a[1..], b);
    }
  }

  lemma SymWords<W>(a: seq<Tok<W>>, c: char, b: seq<Tok<W>>)
    ensures TokWords(a + [Sym(c)] + b) == TokWords(a) + TokWords(b)
  {
    JoinWords(a + [Sym(c)], b);
    JoinWords(a, [Sym(c)]);
  }

  lemma {:induction false} WrapWords<W>(c: Cmd<W>, rs: seq<Red<W>>)
    ensures CmdWords(Wrap(c, rs)) == CmdWords(c) + RedWords(rs)
    decreases |rs|
  {
    if rs != [] {
      WrapWords(Redir(c, rs[0].file, rs[0].mode), rs[1..]);
    }
  }

  lemma {:induction false} PrintedWords<W>(rs: seq<Red<W>>)
    ensures TokWords(PrintReds(rs)) == RedWords(rs)
    decreases |rs|
  {
    if rs != [] {
      PrintedWords(rs[1..]);
      JoinWords([Sym(rs[0].mode), Word(rs[0].file)], PrintReds(rs[1..]));
      PairWords(rs[0].mode, rs[0].file);
    }
  }

  lemma PairWords<W>(c: char, w: W)
    ensures TokWords([Sym(c), Word(w)]) == TokWords([Word(w)]) == multiset{w}
  {
    var none: seq<Tok<W>> := [];
    assert [Word(w)][1..] == none && none + [Sym(c)] + [Word(w)] == [Sym(c), Word(w)];
    SymWords(none, c, [Word(w)]);
  }

  lemma {:induction false} MixedSum<W>(ts: seq<Tok<W>>, args: seq<W>, rs: seq<Red<W>>)
    requires Mixed(ts, args, rs)
    ensures TokWords(ts) == multiset(args) + RedWords(rs)
    decreases |ts|
  {
    hide TokWords;
    if ts == [] {
      NoWords<W>();
    } else if ts[0].Word? {
      MixedSum(ts[1..], args[1..], rs);
      assert args == [args[0]] + args[1..] && ts == [Word(args[0])] + ts[1..];
      JoinWords([Word(args[0])], ts[1..]);
      PairWords('<', args[0]);
    } else {
      MixedSum(ts[2..], args, rs[1..]);
      assert ts == ts[..2] + ts[2..];
      JoinWords(ts[..2], ts[2..]);
      PairWords(rs[0].mode, rs[0].file);
    }
  }

  lemma NoWords<W>()
    ensures TokWords<W>([]) == multiset{}
  {
  }

  lemma {:induction false} ExecWords<W(!new)>(ts: seq<Tok<W>>, t: Cmd<W>)
    requires IsExec(ts, t)
    ensures CmdWords(t) == TokWords(ts)
    decreases |ts|, 0
  {
    hide Mixed, Wrap, PrintReds, IsLine;
    if args, rs :| IsSimple(ts, t, args, rs) {
      MixedSum(ts, args, rs);
      WrapWords(Exec(args), rs);
    } else {
      var a, c, rs :| IsGroup(ts, t, a, c, rs);
      LineWords(a, c);
      WrapWords(c, rs);
      PrintedWords(rs);
      var none: seq<Tok<W>> := [];
      SymWords(none, '(', a);
      assert none + [Sym('(')] + a == [Sym('(')] + a;
      SymWords([Sym('(')] + a, ')', PrintReds(rs));
    }
  }

  lemma {:induction false} PipeWords<W(!new)>(ts: seq<Tok<W>>, t: Cmd<W>)
    requires IsPipe(ts, t)
    ensures CmdWords(t) == TokWords(ts)
    decreases |ts|, 1
  {
    hide IsExec, TokWords;
    if IsExec(ts, t) {
      ExecWords(ts, t);
    } else {
      var a, b :| ts == a + [Sym('|')] + b && IsExec(a, t.left) && IsPipe(b, t.right);
      ExecWords(a, t.left);
      PipeWords(b, t.right);
      SymWords(a, '|', b);
    }
  }

  lemma {:induction false} LeftWords<W(!new)>(ts: seq<Tok<W>>, t: Cmd<W>)
    requires IsLeft(ts, t)
    ensures CmdWords(t) == TokWords(ts)
    decreases |ts|, 2
  {
    hide IsPipe;
    if IsPipe(ts, t) {
      PipeWords(ts, t);
    } else {
      var a :| ts == a + [Sym('&')] && IsLeft(a, t.cmd);
      LeftWords(a, t.cmd);
      JoinWords(a, [Sym('&')]);
    }
  }

  /** The words of the tree are exactly the words of the line. */
  lemma {:induction false} LineWords<W(!new)>(ts: seq<Tok<W>>, t: Cmd<W>)
    requires IsLine(ts, t)
    ensures CmdWords(t) == TokWords(ts)
    decreases |ts|, 3
  {
    hide IsLeft, TokWords;
    if IsLeft(ts, t) {
      LeftWords(ts, t);
    } else {
      var a, b :| ts == a + [Sym(';')] + b && IsLeft(a, t.left) && IsLine(b, t.right);
      LeftWords(a, t.left);
      LineWords(b, t.right);
      SymWords(a, ';', b);
    }
  }

  lemma {:induction false} WordIn<W>(ts: seq<Tok<W>>, k: nat)
    requires k < |ts| && ts[k].Word?
    ensures ts[k].w in TokWords(ts)
    decreases |ts|
  {
    if k > 0 {
      WordIn(ts[1..], k - 1);
    }
  }

  // ------------------------------------------------------- the printing is a derivation

  lemma {:induction false} WrapReds<W>(t: Cmd<W>)
    ensures Wrap(Base(t), Reds(t)) == t
  {
    if t.Redir? {
      WrapReds(t.cmd);
      WrapMore(Base(t.cmd), Reds(t.cmd), Red(t.file, t.mode));
    }
  }

  lemma {:induction false} PrintableParts<W>(t: Cmd<W>)
    requires Printable(t)
    ensures Printable(Base(t)) && RedsOk(Reds(t))
  {
    if t.Redir? {
      PrintableParts(t.cmd);
    }
  }

  lemma {:induction false} MixedWords<W>(ws: seq<W>, ts: seq<Tok<W>>, rs: seq<Red<W>>)
    requires Mixed(ts, [], rs)
    ensures Mixed(Words(ws) + ts, ws, rs)
    decreases |ws|
  {
    if ws == [] {
      assert Words(ws) + ts == ts;
    } else {
      MixedWords(ws[1..], ts, rs);
      assert Words(ws) + ts == [Word(ws[0])] + (Words(ws[1..]) + ts) && ws == [ws[0]] + ws[1..];
      MixedWord(ws[0], Words(ws[1..]) + ts, ws[1..], rs);
    }
  }

  lemma {:induction false} PrintIs<W(!new)>(t: Cmd<W>)
    requires Printable(t)
    ensures IsExec(PrintExec(t), t) && IsPipe(PrintPipe(t), t) && IsLeft(PrintLeft(t), t) && IsLine(PrintLine(t), t)
    decreases t, 1
  {
    hide Inside, PrintReds, Wrap, Mixed, IsLine, IsLeft, IsPipe, IsExec;
    PrintableParts(t);
    WrapReds(t);
    var b, rs := Base(t), Reds(t);
    if b.Exec? {
      SimplePrinted(t, b.args, rs);
    } else {
      InsideIs(b);
      GroupPrinted(t, b, rs);
    }
    if t.Pipe? || t.List? || t.Back? {
      InsideIs(t);
    }
    Ranks(t);
  }

  lemma Ranks<W(!new)>(t: Cmd<W>)
    requires IsExec(PrintExec(t), t)
    requires (t.Pipe? ==> IsPipe(Inside(t), t)) && (t.Back? ==> IsLeft(Inside(t), t))
    requires t.List? ==> IsLine(Inside(t), t)
    ensures IsPipe(PrintPipe(t), t) && IsLeft(PrintLeft(t), t) && IsLine(PrintLine(t), t)
  {
    hide IsExec, PrintExec, Inside;
  }

  lemma SimplePrinted<W(!new)>(t: Cmd<W>, args: seq<W>, rs: seq<Red<W>>)
    requires |args| < MAXARGS && RedsOk(rs) && Base(t) == Exec(args) && Reds(t) == rs && t == Wrap(Exec(args), rs)
    ensures IsExec(PrintExec(t), t)
  {
    hide Wrap, Mixed, IsGroup;
    var none: seq<W> := [];
    NoneMixed<W>();
    MixedReds(rs, [], none, []);
    assert PrintReds(rs) + [] == PrintReds(rs) && rs + [] == rs;
    MixedWords(args, PrintReds(rs), rs);
    assert IsSimple(PrintExec(t), t, args, rs);
  }

  lemma GroupPrinted<W(!new)>(t: Cmd<W>, b: Cmd<W>, rs: seq<Red<W>>)
    requires RedsOk(rs) && Base(t) == b && !b.Exec? && Reds(t) == rs && t == Wrap(b, rs) && IsLine(Inside(b), b)
    ensures IsExec(PrintExec(t), t)
  {
    hide Wrap, Inside, IsLine, IsSimple;
    assert IsGroup(PrintExec(t), t, Inside(b), b, rs);
  }

  lemma {:induction false} InsideIs<W(!new)>(t: Cmd<W>)
    requires Printable(t) && (t.Pipe? || t.List? || t.Back?)
    ensures (t.Pipe? ==> IsPipe(Inside(t), t)) && (t.Back? ==> IsLeft(Inside(t), t)) && IsLine(Inside(t), t)
    decreases t, 0
  {
    hide PrintExec, PrintPipe, PrintLeft, PrintLine, IsExec;
    match t
    case Pipe(l, r) =>
      PrintIs(l);
      PrintIs(r);
    case List(l, r) =>
      PrintIs(l);
      PrintIs(r);
    case Back(c) =>
      PrintIs(c);
  }

  /** Every tree the shell can build is read back from its canonical printing. */
  lemma ParsePrint<W(!new)>(t: Cmd<W>)
    requires Printable(t)
    ensures Parse(PrintLine(t)) == Done(t, [])
  {
    PrintIs(t);
    ParseIff(PrintLine(t), t);
  }

  // ------------------------------------------------------- the parser and its words

  // The parser treats words as they come: related tokens give related trees.

  ghost predicate TokRel<W, V>(rel: (W, V) -> bool, a: Tok<W>, b: Tok<V>) {
    if a.Word? then b.Word? && rel(a.w, b.w) else b == Sym(a.c)
  }

  ghost predicate ToksRel<W, V>(rel: (W, V) -> bool, ts: seq<Tok<W>>, us: seq<Tok<V>>) {
    |ts| == |us| && forall i :: 0 <= i < |ts| ==> TokRel(rel, ts[i], us[i])
  }

  ghost predicate WordsRel<W, V>(rel: (W, V) -> bool, ws: seq<W>, vs: seq<V>) {
    |ws| == |vs| && forall i :: 0 <= i < |ws| ==> rel(ws[i], vs[i])
  }

  ghost predicate RedsRel<W, V>(rel: (W, V) -> bool, rs: seq<Red<W>>, qs: seq<Red<V>>) {
    |rs| == |qs| && forall i :: 0 <= i < |rs| ==> rel(rs[i].file, qs[i].file) && rs[i].mode == qs[i].mode
  }

  ghost predicate CmdRel<W, V>(rel: (W, V) -> bool, c: Cmd<W>, d: Cmd<V>) {
    match c
    case Exec(ws) => d.Exec? && WordsRel(rel, ws, d.args)
    case Redir(c', f, m) => d.Redir? && CmdRel(rel, c', d.cmd) && rel(f, d.file) && m == d.mode
    case Pipe(l, r) => d.Pipe? && CmdRel(rel, l, d.left) && CmdRel(rel, r, d.right)
    case List(l, r) => d.List? && CmdRel(rel, l, d.left) && CmdRel(rel, r, d.right)
    case Back(c') => d.Back? && CmdRel(rel, c', d.cmd)
  }

  ghost predicate ResRel<W, V>(rel: (W, V) -> bool, a: Res<Cmd<W>, W>, b: Res<Cmd<V>, V>) {
    if a.Fail? then b.Fail? else b.Done? && CmdRel(rel, a.value, b.value) && ToksRel(rel, a.rest, b.rest)
  }

  lemma NextRel<W, V>(rel: (W, V) -> bool, ts: seq<Tok<W>>, us: seq<Tok<V>>, c: char)
    requires ToksRel(rel, ts, us)
    ensures Next(ts, c) <==> Next(us, c)
  {
    assert ts != [] ==> TokRel(rel, ts[0], us[0]);
  }

  lemma TailRel<W, V>(rel: (W, V) -> bool, ts: seq<Tok<W>>, us: seq<Tok<V>>, n: nat)
    requires ToksRel(rel, ts, us) && n <= |ts|
    ensures ToksRel(rel, ts[n..], us[n..])
  {
  }

  lemma {:induction false} RedirsRel<W, V>(rel: (W, V) -> bool, ts: seq<Tok<W>>, us: seq<Tok<V>>)
    requires ToksRel(rel, ts, us)
    ensures var a, b := Redirs(ts), Redirs(us);
            if a.Fail? then b.Fail? else b.Done? && RedsRel(rel, a.value, b.value) && ToksRel(rel, a.rest, b.rest)
    decreases |ts|
  {
    NextRel(rel, ts, us, '<');
    NextRel(rel, ts, us, '>');
    NextRel(rel, ts, us, '+');
    if RedirNext(ts) && |ts| >= 2 && ts[1].Word? {
      assert TokRel(rel, ts[0], us[0]) && TokRel(rel, ts[1], us[1]);
      TailRel(rel, ts, us, 2);
      RedirsRel(rel, ts[2..], us[2..]);
    } else if |ts| >= 2 {
      assert TokRel(rel, ts[1], us[1]);
    }
  }

  lemma {:induction false} WrapRel<W, V>(rel: (W, V) -> bool, c: Cmd<W>, d: Cmd<V>, rs: seq<Red<W>>, qs: seq<Red<V>>)
    requires CmdRel(rel, c, d) && RedsRel(rel, rs, qs)
    ensures CmdRel(rel, Wrap(c, rs), Wrap(d, qs))
    decreases |rs|
  {
    if rs != [] {
      WrapRel(rel, Redir(c, rs[0].file, rs[0].mode), Redir(d, qs[0].file, qs[0].mode), rs[1..], qs[1..]);
    }
  }

  lemma {:induction false} ArgsRel<W, V>(rel: (W, V) -> bool, ws: seq<W>, vs: seq<V>, rs: seq<Red<W>>, qs: seq<Red<V>>,
                                         ts: seq<Tok<W>>, us: seq<Tok<V>>)
    requires WordsRel(rel, ws, vs) && RedsRel(rel, rs, qs) && ToksRel(rel, ts, us)
    ensures ResRel(rel, Args(ws, rs, ts), Args(vs, qs, us))
    decreases |ts|
  {
    hide Redirs, Wrap;
    NextRel(rel, ts, us, '|');
    NextRel(rel, ts, us, ')');
    NextRel(rel, ts, us, '&');
    NextRel(rel, ts, us, ';');
    if AfterExec(ts) {
      WrapRel(rel, Exec(ws), Exec(vs), rs, qs);
    } else {
      assert TokRel(rel, ts[0], us[0]);
      TailRel(rel, ts, us, 1);
      RedirsRel(rel, ts[1..], us[1..]);
      if ts[0].Word? && |ws| + 1 < MAXARGS && Redirs(ts[1..]).Done? {
        var a, b := Redirs(ts[1..]), Redirs(us[1..]);
        ArgsRel(rel, ws + [ts[0].w], vs + [us[0].w], rs + a.value, qs + b.value, a.rest, b.rest);
      }
    }
  }

  lemma {:induction false} ExecRel<W, V>(rel: (W, V) -> bool, ts: seq<Tok<W>>, us: seq<Tok<V>>)
    requires ToksRel(rel, ts, us)
    ensures ResRel(rel, ParseExec(ts), ParseExec(us))
    decreases |ts|, 0
  {
    hide Redirs, Wrap, Args, ToksRel;
    NextRel(rel, ts, us, '(');
    if Next(ts, '(') {
      TailRel(rel, ts, us, 1);
      LineRel(rel, ts[1..], us[1..]);
      var a, b := ParseLine(ts[1..]), ParseLine(us[1..]);
      if a.Done? {
        NextRel(rel, a.rest, b.rest, ')');
        if Next(a.rest, ')') {
          TailRel(rel, a.rest, b.rest, 1);
          RedirsRel(rel, a.rest[1..], b.rest[1..]);
          if Redirs(a.rest[1..]).Done? {
            WrapRel(rel, a.value, b.value, Redirs(a.rest[1..]).value, Redirs(b.rest[1..]).value);
          }
        }
      }
    } else {
      RedirsRel(rel, ts, us);
      if Redirs(ts).Done? {
        ArgsRel(rel, [], [], Redirs(ts).value, Redirs(us).value, Redirs(ts).rest, Redirs(us).rest);
      }
    }
  }

  lemma {:induction false} PipeRel<W, V>(rel: (W, V) -> bool, ts: seq<Tok<W>>, us: seq<Tok<V>>)
    requires ToksRel(rel, ts, us)
    ensures ResRel(rel, ParsePipe(ts), ParsePipe(us))
    decreases |ts|, 1
  {
    hide ParseExec, ToksRel;
    ExecRel(rel, ts, us);
    var a, b := ParseExec(ts), ParseExec(us);
    if a.Done? {
      NextRel(rel, a.rest, b.rest, '|');
      if Next(a.rest, '|') {
        TailRel(rel, a.rest, b.rest, 1);
        PipeRel(rel, a.rest[1..], b.rest[1..]);
      }
    }
  }

  lemma {:induction false} LineRel<W, V>(rel: (W, V) -> bool, ts: seq<Tok<W>>, us: seq<Tok<V>>)
    requires ToksRel(rel, ts, us)
    ensures ResRel(rel, ParseLine(ts), ParseLine(us))
    decreases |ts|, 3
  {
    hide ParsePipe, ToksRel, LineRest;
    PipeRel(rel, ts, us);
    var a, b := ParsePipe(ts), ParsePipe(us);
    if a.Done? {
      LineRestRel(rel, a.value, b.value, a.rest, b.rest);
    }
  }

  lemma {:induction false} LineRestRel<W, V>(rel: (W, V) -> bool, c: Cmd<W>, d: Cmd<V>, ts: seq<Tok<W>>,
                                             us: seq<Tok<V>>)
    requires CmdRel(rel, c, d) && ToksRel(rel, ts, us)
    ensures ResRel(rel, LineRest(c, ts), LineRest(d, us))
    decreases |ts|, 2
  {
    hide ParseLine, ToksRel;
    NextRel(rel, ts, us, '&');
    NextRel(rel, ts, us, ';');
    if Next(ts, '&') {
      TailRel(rel, ts, us, 1);
      LineRestRel(rel, Back(c), Back(d), ts[1..], us[1..]);
    } else if Next(ts, ';') {
      TailRel(rel, ts, us, 1);
      LineRel(rel, ts[1..], us[1..]);
    }
  }

  // ------------------------------------------------------------- the tokens printed

  ghost predicate TokOk<W>(good: W -> bool, t: Tok<W>) {
    if t.Word? then good(t.w) else t.c in ['|', '(', ')', '&', ';', '<', '>', '+']
  }

  ghost predicate ToksOk<W>(good: W -> bool, ts: seq<Tok<W>>) {
    forall i :: 0 <= i < |ts| ==> TokOk(good, ts[i])
  }

  /** Every word of the tree is good. */
  ghost predicate CmdOk<W>(good: W -> bool, t: Cmd<W>) {
    match t
    case Exec(args) => forall i :: 0 <= i < |args| ==> good(args[i])
    case Redir(c, f, _) => CmdOk(good, c) && good(f)
    case Pipe(l, r) => CmdOk(good, l) && CmdOk(good, r)
    case List(l, r) => CmdOk(good, l) && CmdOk(good, r)
    case Back(c) => CmdOk(good, c)
  }

  lemma JoinOk<W>(good: W -> bool, a: seq<Tok<W>>, c: char, b: seq<Tok<W>>)
    requires ToksOk(good, a) && ToksOk(good, b) && TokOk(good, Sym(c))
    ensures ToksOk(good, a + [Sym(c)] + b) && ToksOk(good, a + [Sym(c)]) && ToksOk(good, [Sym(c)] + a)
  {
  }

  lemma {:induction false} WordsOk<W>(good: W -> bool, ws: seq<W>)
    requires forall i :: 0 <= i < |ws| ==> good(ws[i])
    ensures ToksOk(good, Words(ws))
    decreases |ws|
  {
    if ws != [] {
      WordsOk(good, ws[1..]);
    }
  }

  lemma {:induction false} RedsPrinted<W>(good: W -> bool, rs: seq<Red<W>>)
    requires RedsOk(rs) && forall i :: 0 <= i < |rs| ==> good(rs[i].file)
    ensures ToksOk(good, PrintReds(rs))
    decreases |rs|
  {
    if rs != [] {
      RedsPrinted(good, rs[1..]);
    }
  }

  lemma {:induction false} PartsOk<W>(good: W -> bool, t: Cmd<W>)
    requires CmdOk(good, t)
    ensures CmdOk(good, Base(t)) && forall i :: 0 <= i < |Reds(t)| ==> good(Reds(t)[i].file)
  {
    if t.Redir? {
      PartsOk(good, t.cmd);
    }
  }

  lemma {:induction false} InsideOk<W>(good: W -> bool, t: Cmd<W>)
    requires Printable(t) && CmdOk(good, t)
    ensures ToksOk(good, Inside(t))
    decreases t, 0
  {
    hide ToksOk;
    match t
    case Exec(_) => NoToks(good);
    case Redir(_, _, _) => NoToks(good);
    case Pipe(l, r) =>
      ExecOk(good, l);
      LineOk(good, r);
      JoinOk(good, PrintExec(l), '|', PrintPipe(r));
    case List(l, r) =>
      LineOk(good, l);
      LineOk(good, r);
      JoinOk(good, PrintLeft(l), ';', PrintLine(r));
    case Back(c) =>
      LineOk(good, c);
      JoinOk(good, PrintLeft(c), '&', PrintLeft(c));
  }

  lemma NoToks<W>(good: W -> bool)
    ensures ToksOk(good, [])
  {
  }

  lemma {:induction false} ExecOk<W>(good: W -> bool, t: Cmd<W>)
    requires Printable(t) && CmdOk(good, t)
    ensures ToksOk(good, PrintExec(t))
    decreases t, 1
  {
    PrintableParts(t);
    PartsOk(good, t);
    var b, rs := Base(t), Reds(t);
    RedsPrinted(good, rs);
    if b.Exec? {
      WordsOk(good, b.args);
    } else {
      InsideOk(good, b);
      assert TokOk(good, Sym('(')) && TokOk(good, Sym(')'));
    }
  }

  lemma {:induction false} LineOk<W>(good: W -> bool, t: Cmd<W>)
    requires Printable(t) && CmdOk(good, t)
    ensures ToksOk(good, PrintPipe(t)) && ToksOk(good, PrintLeft(t)) && ToksOk(good, PrintLine(t))
    decreases t, 2
  {
    InsideOk(good, t);
    ExecOk(good, t);
  }
}
