/** grep's matcher: ^ . * $ over NUL-free strings. */
module Grep {
  /** A C string: the characters before the terminating NUL. */
  type CString = s: string | '\0' !in s witness ""

  /** *(s + i) for 0 <= i <= strlen(s). */
  function At(s: CString, i: nat): (c: char)
    requires i <= |s|
  {
    if i < |s| then s[i] else '\0'
  }

  // ----------------------------------------------- patterns read declaratively

  datatype Item = One(c: char) | Star(c: char) | End

  /** c matches the text character t. */
  predicate Fits(c: char, t: char) {
    c == '.' || c == t
  }

  /** The pattern from position i on: c* items, a final $, and single characters. */
  function Items(re: string, i: nat): (r: seq<Item>)
    requires i <= |re|
    decreases |re| - i
  {
    if i == |re| then []
    else if i + 1 < |re| && re[i + 1] == '*' then [Star(re[i])] + Items(re, i + 2)
    else if re[i] == '$' && i + 1 == |re| then [End]
    else [One(re[i])] + Items(re, i + 1)
  }

  /** An item as it is written. */
  function Written(x: Item): (s: string)
    ensures |s| > 0
  {
    match x
    case One(c) => [c]
    case Star(c) => [c, '*']
    case End => "$"
  }

  function Print(items: seq<Item>): (s: string) {
    if items == [] then "" else Written(items[0]) + Print(items[1..])
  }

  /** Item k cannot be read as another: no * follows a single character, a $ at the end is
      End, and End stands nowhere else. */
  ghost predicate Clear(items: seq<Item>, k: nat)
    requires k < |items|
  {
    && (items[k].One? && k + 1 < |items| ==> Written(items[k + 1])[0] != '*')
    && (items[k] == One('$') ==> k + 1 < |items|)
    && (items[k].End? ==> k + 1 == |items|)
  }

  ghost predicate AllClear(items: seq<Item>) {
    forall k :: 0 <= k < |items| ==> Clear(items, k)
  }

  lemma {:induction false} ItemsPrint(re: string, i: nat)
    requires i <= |re|
    ensures Print(Items(re, i)) == re[i..] && AllClear(Items(re, i))
    decreases |re| - i
  {
    if i < |re| {
      var items := Items(re, i);
      var n := if i + 1 < |re| && re[i + 1] == '*' then 2 else 1;
      ItemsPrint(re, i + n);
      var rest := Items(re, i + n);
      if items[0].End? {
        assert re[i..] == "$";
      } else {
        assert items == [items[0]] + rest && re[i..] == Written(items[0]) + re[i + n..];
        FirstOf(rest);
        ConsClear(items[0], rest);
      }
    }
  }

  lemma FirstOf(items: seq<Item>)
    ensures items != [] ==> Print(items) != "" && Print(items)[0] == Written(items[0])[0]
  {
  }

  lemma ConsClear(x: Item, rest: seq<Item>)
    requires AllClear(rest) && Clear([x] + rest, 0)
    ensures AllClear([x] + rest)
  {
    var items := [x] + rest;
    forall k | 0 <= k < |items| ensures Clear(items, k) {
      if k > 0 {
        assert Clear(rest, k - 1);
      }
    }
  }

  /** Only one clear list of items is written as a given pattern. */
  lemma {:induction false} PrintItems(re: string, i: nat, items: seq<Item>)
    requires i <= |re| && Print(items) == re[i..] && AllClear(items)
    ensures items == Items(re, i)
    decreases |items|
  {
    if items != [] {
      var x, rest := items[0], items[1..];
      var n := |Written(x)|;
      assert Clear(items, 0);
      assert re[i..][..n] == Written(x) && re[i..][n..] == Print(rest) && re[i..][n..] == re[i + n..];
      assert re[i] == Written(x)[0];
      FirstOf(rest);
      forall k | 0 <= k < |rest| ensures Clear(rest, k) {
        assert Clear(items, k + 1);
      }
      PrintItems(re, i + n, rest);
      if x.Star? {
        assert re[i + 1] == Written(x)[1];
      } else if rest != [] {
        assert re[i + 1] == re[i + n..][0];
      }
    }
  }

  /** A pattern is read as the one clear list of items that is written so. */
  lemma ItemsIff(re: string, i: nat, items: seq<Item>)
    requires i <= |re|
    ensures items == Items(re, i) <==> Print(items) == re[i..] && AllClear(items)
  {
    ItemsPrint(re, i);
    if Print(items) == re[i..] && AllClear(items) {
      PrintItems(re, i, items);
    }
  }

  /** Item x takes text[i..j]. */
  ghost predicate Takes(x: Item, text: string, i: nat, j: nat) {
    match x
    case One(c) => j == i + 1 <= |text| && Fits(c, text[i])
    case Star(c) => i <= j <= |text| && forall k :: i <= k < j ==> Fits(c, text[k])
    case End => i == j == |text|
  }

  /** cuts splits text from cuts[0] on among the items. */
  ghost predicate Splits(items: seq<Item>, text: string, cuts: seq<nat>) {
    && |cuts| == |items| + 1
    && cuts[|items|] <= |text|
    && forall k, l {:trigger cuts[k], cuts[l]} :: 0 <= k && l == k + 1 <= |items| ==>
        Takes(items[k], text, cuts[k], cuts[l])
  }

  ghost predicate MatchesAt(items: seq<Item>, text: string, t: nat) {
    exists cuts :: Splits(items, text, cuts) && cuts[0] == t
  }

  /** re matches somewhere in text, or at its start if re begins with ^. */
  ghost predicate Matches(re: string, text: string) {
    if re != "" && re[0] == '^' then MatchesAt(Items(re, 1), text, 0)
    else exists t :: 0 <= t <= |text| && MatchesAt(Items(re, 0), text, t)
  }

  lemma MatchesNone(text: string, t: nat)
    requires t <= |text|
    ensures MatchesAt([], text, t)
  {
    assert Splits([], text, [t]);
  }

  lemma MatchesFirst(x: Item, rest: seq<Item>, text: string, i: nat, j: nat)
    requires Takes(x, text, i, j) && MatchesAt(rest, text, j)
    ensures MatchesAt([x] + rest, text, i)
  {
    var cuts :| Splits(rest, text, cuts) && cuts[0] == j;
    assert Splits([x] + rest, text, [i] + cuts);
  }

  lemma MatchesSplit(x: Item, rest: seq<Item>, text: string, i: nat) returns (j: nat)
    requires MatchesAt([x] + rest, text, i)
    ensures Takes(x, text, i, j) && MatchesAt(rest, text, j)
  {
    var items := [x] + rest;
    var cuts :| Splits(items, text, cuts) && cuts[0] == i;
    j := cuts[1];
    assert Takes(items[0], text, cuts[0], cuts[1]);
    assert Splits(rest, text, cuts[1..]) by {
      assert items[1..] == rest;
    }
  }

  // -------------------------------------------------------------- the matcher

  /** matchhere: re from position i on at the beginning of text from position t on. */
  method MatchHere(re: CString, i: nat, text: CString, t: nat) returns (b: bool)
    requires i <= |re| && t <= |text|
    ensures b <==> MatchesAt(Items(re, i), text, t)
    decreases |re| - i, 0
  {
    if At(re, i) == '\0' {
      MatchesNone(text, t);
      return true;
    }
    if At(re, i + 1) == '*' {
      b := MatchStar(re[i], re, i + 2, text, t);
      return;
    }
    if At(re, i) == '$' && At(re, i + 1) == '\0' {
      EndMatches(text, t);
      return At(text, t) == '\0';
    }
    if At(text, t) != '\0' && (At(re, i) == '.' || At(re, i) == At(text, t)) {
      b := MatchHere(re, i + 1, text, t + 1);
      OneMatches(re[i], Items(re, i + 1), text, t);
      return;
    }
    OneMatches(re[i], Items(re, i + 1), text, t);
    return false;
  }

  /** matchstar: c* and then re from position i on, at text from position t on. */
  method MatchStar(c: char, re: CString, i: nat, text: CString, t: nat) returns (b: bool)
    requires i <= |re| && t <= |text|
    ensures b <==> MatchesAt([Star(c)] + Items(re, i), text, t)
    decreases |re| - i, 1
  {
    var rest := Items(re, i);
    var u := t;
    while true
      invariant t <= u <= |text|
      invariant forall k :: t <= k < u ==> Fits(c, text[k]) && !MatchesAt(rest, text, k)
      decreases |text| - u
    {
      b := MatchHere(re, i, text, u);
      if b {
        MatchesFirst(Star(c), rest, text, t, u);
        return;
      }
      if At(text, u) == '\0' || !(At(text, u) == c || c == '.') {
        StarFails(c, rest, text, t, u);
        return false;
      }
      u := u + 1;
    }
  }

  /** match: re anywhere in text. */
  method Match(re: CString, text: CString) returns (b: bool)
    ensures b <==> Matches(re, text)
  {
    if At(re, 0) == '^' {
      b := MatchHere(re, 1, text, 0);
      return;
    }
    var t := 0;
    while true
      invariant 0 <= t <= |text|
      invariant forall k :: 0 <= k < t ==> !MatchesAt(Items(re, 0), text, k)
      decreases |text| - t
    {
      b := MatchHere(re, 0, text, t);
      if b {
        return;
      }
      if At(text, t) == '\0' {
        return false;
      }
      t := t + 1;
    }
  }

  lemma EndMatches(text: string, t: nat)
    requires t <= |text|
    ensures MatchesAt([End], text, t) <==> t == |text|
  {
    if t == |text| {
      assert Splits([End], text, [t, t]);
    }
    if MatchesAt([End], text, t) {
      assert [End] + [] == [End];
      var j := MatchesSplit(End, [], text, t);
    }
  }

  lemma OneMatches(c: char, rest: seq<Item>, text: string, t: nat)
    requires t <= |text|
    ensures MatchesAt([One(c)] + rest, text, t) <==> t < |text| && Fits(c, text[t]) && MatchesAt(rest, text, t + 1)
  {
    if MatchesAt([One(c)] + rest, text, t) {
      var j := MatchesSplit(One(c), rest, text, t);
    }
    if t < |text| && Fits(c, text[t]) && MatchesAt(rest, text, t + 1) {
      MatchesFirst(One(c), rest, text, t, t + 1);
    }
  }

  lemma StarFails(c: char, rest: seq<Item>, text: string, t: nat, u: nat)
    requires t <= u <= |text| && (u < |text| ==> !Fits(c, text[u]))
    requires forall k :: t <= k <= u ==> !MatchesAt(rest, text, k)
    ensures !MatchesAt([Star(c)] + rest, text, t)
  {
    if MatchesAt([Star(c)] + rest, text, t) {
      var j := MatchesSplit(Star(c), rest, text, t);
    }
  }

  /** c* takes nothing, or one character that fits and then c* again. */
  lemma StarLaw(c: char, rest: seq<Item>, text: string, t: nat)
    requires t <= |text|
    ensures MatchesAt([Star(c)] + rest, text, t) <==>
              || MatchesAt(rest, text, t)
              || (t < |text| && Fits(c, text[t]) && MatchesAt([Star(c)] + rest, text, t + 1))
  {
    if MatchesAt([Star(c)] + rest, text, t) {
      var j := MatchesSplit(Star(c), rest, text, t);
      if j > t {
        MatchesFirst(Star(c), rest, text, t + 1, j);
      }
    }
    if MatchesAt(rest, text, t) {
      MatchesFirst(Star(c), rest, text, t, t);
    }
    if t < |text| && Fits(c, text[t]) && MatchesAt([Star(c)] + rest, text, t + 1) {
      var j := MatchesSplit(Star(c), rest, text, t + 1);
      MatchesFirst(Star(c), rest, text, t, j);
    }
  }

  /** From t on text has re, character by character, where a dot stands for any. */
  ghost predicate Stands(re: string, i: nat, text: string, t: nat)
    requires i <= |re|
  {
    t + (|re| - i) <= |text| && forall k :: i <= k < |re| ==> re[k] == '.' || re[k] == text[t + (k - i)]
  }

  ghost predicate Simple(re: string) {
    forall k :: 0 <= k < |re| ==> re[k] != '*' && re[k] != '$' && re[k] != '^'
  }

  lemma {:induction false} SimpleAt(re: string, i: nat, text: string, t: nat)
    requires i <= |re| && t <= |text| && Simple(re)
    ensures MatchesAt(Items(re, i), text, t) <==> Stands(re, i, text, t)
    decreases |re| - i
  {
    if i == |re| {
      MatchesNone(text, t);
    } else {
      OneMatches(re[i], Items(re, i + 1), text, t);
      if t < |text| {
        SimpleAt(re, i + 1, text, t + 1);
        StandsNext(re, i, text, t);
      }
    }
  }

  lemma StandsNext(re: string, i: nat, text: string, t: nat)
    requires i < |re| && t < |text|
    ensures Stands(re, i, text, t) <==> (re[i] == '.' || re[i] == text[t]) && Stands(re, i + 1, text, t + 1)
  {
    if Stands(re, i, text, t) {
      assert forall k :: i + 1 <= k < |re| ==> re[k] == '.' || re[k] == text[t + (k - i)];
    }
  }

  /** A pattern without * $ ^ matches exactly the texts in which it stands somewhere. */
  lemma SimpleMatches(re: string, text: string)
    requires Simple(re)
    ensures Matches(re, text) <==> exists t :: 0 <= t <= |text| && Stands(re, 0, text, t)
  {
    hide Stands, Items;
    forall t | 0 <= t <= |text| ensures MatchesAt(Items(re, 0), text, t) <==> Stands(re, 0, text, t) {
      SimpleAt(re, 0, text, t);
    }
  }

  // ------------------------------------------------------- grep over a stream

  /** sizeof(buf) - 1. */
  const ROOM := 1023

  /** Position k ends a line: it has a newline, and no NUL comes before it. After a NUL grep
      sees no newline any more. */
  ghost predicate Ends(s: string, k: nat) {
    k < |s| && s[k] == '\n' && '\0' !in s[..k]
  }

  /** Where the line that position n lies on begins. */
  ghost function LineStart(s: string, n: nat): (a: nat)
    requires n <= |s|
    ensures a <= n
  {
    if n == 0 || Ends(s, n - 1) then n else LineStart(s, n - 1)
  }

  /** What grep prints for one line. */
  ghost function Hit(re: string, line: string): (out: string) {
    if Matches(re, line) then line + "\n" else ""
  }

  /** What grep prints for the first n characters of s: the newline-terminated lines
      among them that match, in order. */
  ghost function Printed(re: string, s: string, n: nat): (out: string)
    requires n <= |s|
  {
    if n == 0 then ""
    else if Ends(s, n - 1) then Printed(re, s, n - 1) + Hit(re, s[LineStart(s, n - 1)..n - 1])
    else Printed(re, s, n - 1)
  }

  /** Within a line nothing is printed. */
  lemma {:induction false} SameLine(re: string, s: string, a: nat, n: nat)
    requires a <= n <= |s| && LineStart(s, a) == a && forall k :: a <= k < n ==> !Ends(s, k)
    ensures LineStart(s, n) == a && Printed(re, s, n) == Printed(re, s, a)
    decreases n
  {
    hide Hit;
    if n > a {
      SameLine(re, s, a, n - 1);
    }
  }

  /** Text made of whole lines. */
  ghost function Joined(lines: seq<string>): (s: string) {
    if lines == [] then "" else Joined(lines[..|lines| - 1]) + lines[|lines| - 1] + "\n"
  }

  /** The lines that match, each with its newline. */
  ghost function Chosen(re: string, lines: seq<string>): (s: string) {
    if lines == [] then ""
    else Chosen(re, lines[..|lines| - 1])
         + if Matches(re, lines[|lines| - 1]) then lines[|lines| - 1] + "\n" else ""
  }

  ghost predicate Plain(s: string) {
    forall k :: 0 <= k < |s| ==> s[k] != '\n' && s[k] != '\0'
  }

  /** Of a text of whole lines, just the lines that match are printed, in order. */
  lemma {:induction false} PrintedLines(re: string, lines: seq<string>)
    requires forall k :: 0 <= k < |lines| ==> Plain(lines[k])
    ensures var s := Joined(lines); Printed(re, s, |s|) == Chosen(re, lines) && LineStart(s, |s|) == |s| && '\0' !in s
  {
    hide Printed, LineStart, Matches, Plain;
    if lines == [] {
      NothingPrinted(re);
    } else {
      PrintedLines(re, lines[..|lines| - 1]);
      LineAdded(re, Joined(lines[..|lines| - 1]), lines[|lines| - 1]);
    }
  }

  lemma NothingPrinted(re: string)
    ensures Printed(re, "", 0) == "" && LineStart("", 0) == 0
  {
  }

  lemma LineAdded(re: string, t: string, line: string)
    requires '\0' !in t && LineStart(t, |t|) == |t| && Plain(line)
    ensures var s := t + line + "\n";
            && Printed(re, s, |s|) == Printed(re, t, |t|) + (if Matches(re, line) then line + "\n" else "")
            && LineStart(s, |s|) == |s| && '\0' !in s
  {
    hide Printed, LineStart, Matches;
    var s, n, e := t + line + "\n", |t|, |t| + |line|;
    assert s[..n] == t && s[n..e] == line && '\0' !in s;
    PrintedPrefix(re, t, s, n);
    assert Ends(s, e);
    forall k | n <= k < e ensures !Ends(s, k) {
      assert s[k] == line[k - n];
    }
    hide Ends, Plain;
    assert Printed(re, s, n) == Printed(re, s, n) + "";
    LineEnds(re, s, n, e, "", n);
    assert "" + (line + "\n") == line + "\n";
  }

  /** What comes after does not change what is printed before. */
  lemma {:induction false} PrintedPrefix(re: string, t: string, s: string, n: nat)
    requires n <= |t| <= |s| && s[..|t|] == t
    ensures Printed(re, s, n) == Printed(re, t, n) && LineStart(s, n) == LineStart(t, n)
  {
    if n > 0 {
      PrintedPrefix(re, t, s, n - 1);
      assert s[n - 1] == t[n - 1] && s[..n - 1] == t[..n - 1];
      assert s[LineStart(s, n - 1)..n - 1] == t[LineStart(t, n - 1)..n - 1];
    }
  }

  /** strchr, from the beginning of a line: the first newline of s in [p, e), or e if a NUL
      or the end comes first. */
  method FindNewline(s: string, p: nat, e: nat) returns (q: nat)
    requires p <= e <= |s| && LineStart(s, p) == p
    ensures p <= q <= e && (forall k :: p <= k < q ==> !Ends(s, k)) && (q < e ==> Ends(s, q))
  {
    assert p > 0 ==> s[..p] == s[..p - 1] + [s[p - 1]];
    q := p;
    while q < e && s[q] != '\n' && s[q] != '\0'
      invariant p <= q <= e && '\0' !in s[..q] && forall k :: p <= k < q ==> !Ends(s, k)
    {
      assert s[..q + 1] == s[..q] + [s[q]];
      q := q + 1;
    }
    if q < e && s[q] == '\0' {
      forall k | q < k < e ensures !Ends(s, k) {
        assert s[..k][q] == '\0';
      }
      q := e;
    }
  }

  /** The inner loop over the buffer, which holds input[a..e]: print the matching lines;
      p is where the line left over begins. */
  method PrintLines(re: CString, input: string, a: nat, e: nat) returns (out: string, p: nat)
    requires a <= e <= |input| && LineStart(input, a) == a
    ensures a <= p <= e && p == LineStart(input, e)
    ensures Printed(re, input, e) == Printed(re, input, a) + out
  {
    hide Hit, Printed, LineStart, Matches;
    out, p := "", a;
    var q := FindNewline(input, p, e);
    while q < e
      invariant a <= p <= q <= e && LineStart(input, p) == p
      invariant (forall k :: p <= k < q ==> !Ends(input, k)) && (q < e ==> Ends(input, q))
      invariant Printed(re, input, p) == Printed(re, input, a) + out
      decreases e - p
    {
      assert forall c :: c in input[p..q] ==> c in input[..q];
      var line := input[p..q];
      var hit := Match(re, line);
      LineEnds(re, input, p, q, out, a);
      if hit {
        out := out + (line + "\n");
      }
      p := q + 1;
      q := FindNewline(input, p, e);
    }
    SameLine(re, input, p, e);
  }

  lemma LineEnds(re: string, s: string, p: nat, q: nat, out: string, a: nat)
    requires p <= q < |s| && LineStart(s, p) == p && Ends(s, q) && (forall k :: p <= k < q ==> !Ends(s, k)) && a <= |s|
    requires Printed(re, s, p) == Printed(re, s, a) + out
    ensures LineStart(s, q + 1) == q + 1
    ensures Printed(re, s, q + 1) == Printed(re, s, a) + (if Matches(re, s[p..q]) then out + (s[p..q] + "\n") else out)
  {
    SameLine(re, s, p, q);
    hide Matches;
    var h := Hit(re, s[p..q]);
    assert Printed(re, s, q + 1) == Printed(re, s, p) + h;
    hide Printed, LineStart;
    assert Printed(re, s, a) + out + h == Printed(re, s, a) + (out + h);
  }

  /** No line of the first n positions fills the buffer. */
  ghost predicate ShortLines(s: string, n: nat)
    requires n <= |s|
  {
    forall k :: 0 <= k < n ==> k - LineStart(s, k) < ROOM
  }

  /** One read of n bytes, which fit in the buffer, and the printing that follows. */
  method TakeIn(re: CString, input: string, start: nat, taken: nat, n: nat) returns (lines: string, start': nat)
    requires taken + n <= |input| && start == LineStart(input, taken) && taken + n - start <= ROOM
    requires ShortLines(input, taken)
    ensures start' == LineStart(input, taken + n) && taken + n - start' <= ROOM && ShortLines(input, taken + n)
    ensures Printed(re, input, taken + n) == Printed(re, input, taken) + lines
  {
    hide Printed, LineStart, ShortLines, Ends;
    LineStartKept(input, taken);
    ShortLinesGrow(input, taken, n);
    PrintedSame(re, input, taken);
    lines, start' := PrintLines(re, input, start, taken + n);
  }

  /**
   grep: `chunk` says how many bytes each read delivers (at least one, as many as fit).
   Whatever it says, what is printed is the matching lines of the text taken in, and
   that is the whole input exactly when no line before its end fills the buffer.
   */
  method Grep(re: CString, input: string, chunk: nat -> nat) returns (out: string, taken: nat)
    ensures taken <= |input| && out == Printed(re, input, taken)
    ensures taken == |input| <==> ShortLines(input, |input|)
  {
    out, taken := "", 0;
    var start := 0;
    hide Matches, Hit, Items;
    while taken < |input| && taken - start < ROOM
      invariant 0 <= start <= taken <= |input| && taken - start <= ROOM && start == LineStart(input, taken)
      invariant out == Printed(re, input, taken) && ShortLines(input, taken)
      decreases |input| - taken
    {
      var n := Least(Least(ROOM - (taken - start), |input| - taken), if chunk(taken) == 0 then 1 else chunk(taken));
      var lines;
      lines, start := TakeIn(re, input, start, taken, n);
      out, taken := out + lines, taken + n;
    }
  }

  lemma {:induction false} LineStartKept(s: string, n: nat)
    requires n <= |s|
    ensures LineStart(s, LineStart(s, n)) == LineStart(s, n)
    ensures forall k :: LineStart(s, n) <= k < n ==> !Ends(s, k)
  {
    if n > 0 && !Ends(s, n - 1) {
      LineStartKept(s, n - 1);
    }
  }

  lemma PrintedSame(re: string, s: string, n: nat)
    requires n <= |s|
    ensures Printed(re, s, LineStart(s, n)) == Printed(re, s, n)
  {
    LineStartKept(s, n);
    SameLine(re, s, LineStart(s, n), n);
  }

  /** A line grows by at most what is read. */
  lemma {:induction false} LineGrows(s: string, n: nat, m: nat)
    requires n + m <= |s|
    ensures forall k :: n <= k <= n + m ==> k - LineStart(s, k) <= n - LineStart(s, n) + (k - n)
  {
    if m > 0 {
      LineGrows(s, n, m - 1);
      assert LineStart(s, n + m - 1) >= LineStart(s, n);
    }
  }

  lemma ShortLinesGrow(s: string, n: nat, m: nat)
    requires n + m <= |s| && ShortLines(s, n) && n + m - LineStart(s, n) <= ROOM
    ensures ShortLines(s, n + m) && n + m - LineStart(s, n + m) <= ROOM
  {
    hide LineStart;
    LineGrows(s, n, m);
  }

  function Least(a: nat, b: nat): (r: nat) {
    if a < b then a else b
  }
}
