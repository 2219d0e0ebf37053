/** grep: Kernighan and Pike's matcher for ^ . * $, and the loop that reads a file through a
    1024-byte buffer. C strings are sequences without their terminating NUL. */
module Grep {

  // Patterns and what they mean

  datatype Atom = Any | Lit(c: char)

  datatype Item = One(a: Atom) | Star(a: Atom) | End

  function AtomOf(c: char): (a: Atom) { if c == '.' then Any else Lit(c) }

  predicate Takes(a: Atom, c: char) { a.Any? || a.c == c }

  /** How the matcher reads a pattern after an optional '^': a star applies to the character before it, whatever it
      is, and '$' is special only at the very end. */
  function Parse(re: seq<char>): (items: seq<Item>) {
    if re == [] then []
    else if |re| >= 2 && re[1] == '*' then [Star(AtomOf(re[0]))] + Parse(re[2..])
    else if re == ['$'] then [End]
    else [One(AtomOf(re[0]))] + Parse(re[1..])
  }

  /** One item accepts text[i..j]. */
  ghost predicate Accepts(item: Item, text: seq<char>, i: nat, j: nat) {
    && i <= j <= |text|
    && match item
       case One(a) => j == i + 1 && Takes(a, text[i])
       case Star(a) => forall k :: i <= k < j ==> Takes(a, text[k])
       case End => i == j == |text|
  }

  /** cuts divides a stretch of text starting at i into one piece per item. */
  ghost predicate Divides(items: seq<Item>, text: seq<char>, i: nat, cuts: seq<nat>) {
    && |cuts| == |items| + 1 && cuts[0] == i <= |text|
    && forall k :: 0 <= k < |items| ==> Accepts(items[k], text, cuts[k], cuts[k + 1])
  }

  ghost predicate MatchesAt(items: seq<Item>, text: seq<char>, i: nat) {
    exists cuts :: Divides(items, text, i, cuts)
  }

  /** The pattern matches somewhere in the text, or at its start if it begins with '^'. */
  ghost predicate Matches(re: seq<char>, text: seq<char>) {
    if re != [] && re[0] == '^' then MatchesAt(Parse(re[1..]), text, 0)
    else exists i :: 0 <= i <= |text| && MatchesAt(Parse(re), text, i)
  }

  // One item at a time

  lemma MatchesNone(text: seq<char>, i: nat)
    requires i <= |text|
    ensures MatchesAt([], text, i)
  {
    assert Divides([], text, i, [i]);
  }

  lemma MatchesMore(item: Item, rest: seq<Item>, text: seq<char>, i: nat, j: nat)
    requires Accepts(item, text, i, j) && MatchesAt(rest, text, j)
    ensures MatchesAt([item] + rest, text, i)
  {
    var cuts :| Divides(rest, text, j, cuts);
    assert Divides([item] + rest, text, i, [i] + cuts);
  }

  lemma MatchesFirst(item: Item, rest: seq<Item>, text: seq<char>, i: nat) returns (j: nat)
    requires MatchesAt([item] + rest, text, i)
    ensures Accepts(item, text, i, j) && MatchesAt(rest, text, j)
  {
    var items := [item] + rest;
    var cuts :| Divides(items, text, i, cuts);
    j := cuts[1];
    assert Accepts(items[0], text, cuts[0], cuts[1]);
    forall k | 0 <= k < |rest| ensures Accepts(rest[k], text, cuts[1..][k], cuts[1..][k + 1]) {
      assert Accepts(items[k + 1], text, cuts[k + 1], cuts[k + 2]);
    }
    assert Divides(rest, text, j, cuts[1..]);
  }

  // The matcher

  /** Does re match at the beginning of text[i..]? */
  method MatchHere(re: seq<char>, text: seq<char>, i: nat) returns (r: bool)
    requires i <= |text|
    ensures r <==> MatchesAt(Parse(re), text, i)
    decreases |re|, 0
  {
    hide MatchesAt;
    if re == [] {
      MatchesNone(text, i);
      return true;
    }
    if |re| >= 2 && re[1] == '*' {
      r := MatchStar(re[0], re[2..], text, i);
      return;
    }
    if re == ['$'] {
      r := i == |text|;
      if r {
        MatchesNone(text, i);
        MatchesMore(End, [], text, i, i);
      } else if MatchesAt([End] + [], text, i) {
        var j := MatchesFirst(End, [], text, i);
      }
      assert [End] + [] == Parse(re);
      return;
    }
    ghost var item, rest := One(AtomOf(re[0])), Parse(re[1..]);
    if i < |text| && (re[0] == '.' || re[0] == text[i]) {
      r := MatchHere(re[1..], text, i + 1);
      if r { MatchesMore(item, rest, text, i, i + 1); }
      else if MatchesAt([item] + rest, text, i) { var j := MatchesFirst(item, rest, text, i); }
    } else {
      r := false;
      if MatchesAt([item] + rest, text, i) { var j := MatchesFirst(item, rest, text, i); }
    }
  }

  /** Does c* followed by re match at the beginning of text[i..]? */
  method MatchStar(c: char, re: seq<char>, text: seq<char>, i: nat) returns (r: bool)
    requires i <= |text|
    ensures r <==> MatchesAt([Star(AtomOf(c))] + Parse(re), text, i)
    decreases |re|, 1
  {
    hide MatchesAt;
    ghost var item, rest := Star(AtomOf(c)), Parse(re);
    var j := i;
    while true
      invariant i <= j <= |text| && forall k :: i <= k < j ==> Takes(item.a, text[k])
      invariant forall k :: i <= k < j ==> !MatchesAt(rest, text, k)
      decreases |text| - j
    {
      var here := MatchHere(re, text, j);
      if here {
        MatchesMore(item, rest, text, i, j);
        return true;
      }
      if j == |text| || !(text[j] == c || c == '.') {
        if MatchesAt([item] + rest, text, i) { var m := MatchesFirst(item, rest, text, i); }
        return false;
      }
      j := j + 1;
    }
  }

  method Match(re: seq<char>, text: seq<char>) returns (r: bool)
    ensures r <==> Matches(re, text)
  {
    hide MatchesAt;
    if re != [] && re[0] == '^' {
      r := MatchHere(re[1..], text, 0);
      return;
    }
    var i := 0;
    while true
      invariant 0 <= i <= |text| && forall k :: 0 <= k < i ==> !MatchesAt(Parse(re), text, k)
      decreases |text| - i
    {
      var here := MatchHere(re, text, i);
      if here { return true; }
      if i == |text| { return false; }
      i := i + 1;
    }
  }

  // Lines

  const BUFSIZE := 1024
  const NUL := 0 as char

  /** Position of the first c in s, or |s|. */
  function Find(s: seq<char>, c: char): (k: nat)
    ensures k <= |s| && (k < |s| ==> s[k] == c) && forall i :: 0 <= i < k ==> s[i] != c
  {
    if s == [] || s[0] == c then 0 else 1 + Find(s[1..], c)
  }

  lemma FindIs(s: seq<char>, c: char, k: nat)
    requires k <= |s| && (k < |s| ==> s[k] == c) && forall i :: 0 <= i < k ==> s[i] != c
    ensures Find(s, c) == k
  {
  }

  /** What grep prints for the input s: its newline-terminated lines that match, in order, up to the first line that
      does not fit the buffer. */
  ghost function Output(re: seq<char>, s: seq<char>): (out: seq<char>)
    decreases |s|
  {
    var k := Find(s, '\n');
    if k == |s| || k > BUFSIZE - 2 then []
    else (if Matches(re, s[..k]) then s[..k + 1] else []) + Output(re, s[k + 1..])
  }

  /** A read of the file: some of the remaining bytes, as many as fit; nothing only at the end or without room. */
  function Chunk(rest: nat, room: nat, wish: nat): (n: nat)
    ensures n <= rest && n <= room && (n == 0 <==> rest == 0 || room == 0)
  {
    var most := if rest < room then rest else room;
    if most == 0 then 0 else if wish == 0 then 1 else if wish < most then wish else most
  }

  /** strchr. */
  method Strchr(buf: array<char>, p: nat, c: char) returns (q: nat)
    requires p <= buf.Length && NUL in buf[p..] && c != NUL
    ensures p <= q <= buf.Length && (q < buf.Length ==> buf[q] == c)
    ensures forall i :: p <= i < q && i < p + Find(buf[p..], NUL) ==> buf[i] != c
    ensures q < buf.Length ==> q < p + Find(buf[p..], NUL)
  {
    q := p;
    var nul := Find(buf[p..], NUL);
    while buf[q] != NUL
      invariant p <= q <= p + nul < buf.Length && forall i :: p <= i < q ==> buf[i] != c
      decreases nul + p - q
    {
      if buf[q] == c { return; }
      q := q + 1;
    }
    q := buf.Length;
  }

  ghost predicate Lacks(s: seq<char>, c: char) {
    forall i :: 0 <= i < |s| ==> s[i] != c
  }

  lemma OutputLine(re: seq<char>, s: seq<char>, k: nat)
    requires k < |s| && k <= BUFSIZE - 2 && s[k] == '\n' && Lacks(s[..k], '\n')
    ensures Output(re, s) == (if Matches(re, s[..k]) then s[..k + 1] else []) + Output(re, s[k + 1..])
  {
    forall i | 0 <= i < k ensures s[i] != '\n' { assert s[..k][i] == s[i]; }
    FindIs(s, '\n', k);
  }

  /** grep prints nothing more once the buffer is full of one line, or the input has ended. */
  lemma OutputEnds(re: seq<char>, pending: seq<char>, rest: seq<char>)
    requires Lacks(pending, '\n') && (rest == [] || |pending| >= BUFSIZE - 1)
    ensures Output(re, pending + rest) == []
  {
  }

  /** What is left of the input after the first p bytes of text. */
  ghost function Left(text: seq<char>, rest: seq<char>, p: nat): (s: seq<char>)
    requires p <= |text|
  {
    text[p..] + rest
  }

  lemma LineOut(re: seq<char>, text: seq<char>, rest: seq<char>, p: nat, q: nat)
    requires p <= q < |text| < BUFSIZE && text[q] == '\n' && forall i :: p <= i < q ==> text[i] != '\n'
    ensures Output(re, Left(text, rest, p)) == (if Matches(re, text[p..q]) then text[p..q + 1] else []) +
            Output(re, Left(text, rest, q + 1))
  {
    hide Matches, Output;
    var s, k := Left(text, rest, p), q - p;
    assert s[..k] == text[p..q] && s[..k + 1] == text[p..q + 1] && s[k + 1..] == Left(text, rest, q + 1);
    assert s[k] == text[q];
    OutputLine(re, s, k);
  }

  /** The inner loop: prints the matching lines among the first m bytes of the buffer. */
  method Lines(re: seq<char>, buf: array<char>, m: nat, ghost text: seq<char>, ghost rest: seq<char>)
    returns (p: nat, out: seq<char>)
    requires buf.Length == BUFSIZE && m < BUFSIZE && buf[m] == NUL && |text| == m && Lacks(text, NUL) &&
             forall i :: 0 <= i < m ==> buf[i] == text[i]
    modifies buf
    ensures p <= m && (forall i :: p <= i < m ==> buf[i] == text[i]) && forall i :: p <= i < m ==> text[i] != '\n'
    ensures Output(re, Left(text, rest, 0)) == out + Output(re, Left(text, rest, p))
  {
    hide Matches, Output, Left, Find;
    p, out := 0, [];
    while true
      invariant p <= m && buf[m] == NUL && forall i :: p <= i < m ==> buf[i] == text[i]
      invariant Output(re, Left(text, rest, 0)) == out + Output(re, Left(text, rest, p))
      decreases m - p
    {
      NulAt(buf[..], p, m, text);
      var q := Strchr(buf, p, '\n');
      if q == buf.Length { return; }
      LineOut(re, text, rest, p, q);
      var line := OneLine(re, buf, p, q, text[p..q]);
      assert line == if Matches(re, text[p..q]) then text[p..q + 1] else [];
      Assoc(out, line, Output(re, Left(text, rest, q + 1)));
      out := out + line;
      p := q + 1;
    }
  }

  lemma Assoc(a: seq<char>, b: seq<char>, c: seq<char>)
    ensures a + (b + c) == (a + b) + c
  {
  }

  /** One line: cut it off with a NUL, and print it, newline restored, if it matches. */
  method OneLine(re: seq<char>, buf: array<char>, p: nat, q: nat, ghost line: seq<char>) returns (out: seq<char>)
    requires p <= q < buf.Length && buf[q] == '\n' && |line| == q - p && Lacks(line, NUL) &&
             forall i :: p <= i < q ==> buf[i] == line[i - p]
    modifies buf
    ensures out == if Matches(re, line) then line + ['\n'] else []
    ensures forall i :: q < i < buf.Length ==> buf[i] == old(buf[i])
  {
    hide Matches, Find;
    buf[q] := NUL;
    CutAt(buf[..], p, q, line);
    var text := buf[p..p + Find(buf[p..], NUL)];
    assert text == line;
    var r := Match(re, text);
    out := [];
    if r {
      buf[q] := '\n';
      out := buf[p..q + 1];
      assert out == line + ['\n'];
    }
  }

  /** The buffer's first NUL from p on is the one at m. */
  lemma NulAt(buf: seq<char>, p: nat, m: nat, text: seq<char>)
    requires p <= m < |buf| && buf[m] == NUL && |text| == m && Lacks(text, NUL) &&
             forall i :: p <= i < m ==> buf[i] == text[i]
    ensures NUL in buf[p..] && p + Find(buf[p..], NUL) == m
  {
    var s := buf[p..];
    forall i | 0 <= i < m - p ensures s[i] != NUL { assert s[i] == buf[p + i] == text[p + i]; }
    assert s[m - p] == NUL;
    FindIs(s, NUL, m - p);
  }

  lemma CutAt(buf: seq<char>, p: nat, q: nat, line: seq<char>)
    requires p <= q < |buf| && buf[q] == NUL && |line| == q - p && Lacks(line, NUL) &&
             forall i :: p <= i < q ==> buf[i] == line[i - p]
    ensures p + Find(buf[p..], NUL) == q
  {
    var s := buf[p..];
    forall i | 0 <= i < q - p ensures s[i] != NUL { assert s[i] == buf[p + i] == line[i]; }
    FindIs(s, NUL, q - p);
  }

  /** read: the chunk lands in the buffer at m. */
  method Fill(buf: array<char>, m: nat, chunk: seq<char>)
    requires m + |chunk| <= buf.Length
    modifies buf
    ensures forall i :: 0 <= i < m ==> buf[i] == old(buf[i])
    ensures forall i :: m <= i < m + |chunk| ==> buf[i] == chunk[i - m]
  {
    var i := 0;
    while i < |chunk|
      invariant 0 <= i <= |chunk| && forall j :: 0 <= j < m ==> buf[j] == old(buf[j])
      invariant forall j :: m <= j < m + i ==> buf[j] == chunk[j - m]
    {
      buf[m + i] := chunk[i];
      i := i + 1;
    }
  }

  /** memmove of the unfinished line to the front. */
  method Shift(buf: array<char>, p: nat, m: nat)
    requires p <= m <= buf.Length
    modifies buf
    ensures forall i :: 0 <= i < m - p ==> buf[i] == old(buf[p + i])
  {
    var i := 0;
    while i < m - p
      invariant 0 <= i <= m - p && forall j :: 0 <= j < i ==> buf[j] == old(buf[p + j])
      invariant forall j :: i <= j < buf.Length ==> buf[j] == old(buf[j])
    {
      buf[i] := buf[p + i];
      i := i + 1;
    }
  }

  /** grep over a file without NUL bytes, whatever sizes the reads come in: it prints Output. */
  method Grep(re: seq<char>, input: seq<char>, wishes: seq<nat>) returns (out: seq<char>)
    requires Lacks(input, NUL)
    ensures out == Output(re, input)
  {
    hide Output, Left;
    var buf := new char[BUFSIZE](_ => NUL);
    var m, at, calls := 0, 0, 0;
    out := [];
    ghost var pending: seq<char> := [];
    assert [] + input[0..] == input;
    while true
      invariant 0 <= m < BUFSIZE && |pending| == m && at <= |input| && forall i :: 0 <= i < m ==> buf[i] == pending[i]
      invariant Lacks(pending, NUL) && Lacks(pending, '\n')
      invariant Output(re, input) == out + Output(re, pending + input[at..])
      decreases |input| - at
    {
      var n := Chunk(|input| - at, BUFSIZE - m - 1, if calls < |wishes| then wishes[calls] else 0);
      if n == 0 {
        OutputEnds(re, pending, input[at..]);
        return;
      }
      Fill(buf, m, input[at..at + n]);
      ghost var text := pending + input[at..at + n];
      LeftOf(pending, input, at, n);
      calls, m, at := calls + 1, m + n, at + n;
      buf[m] := NUL;
      var p, more := Lines(re, buf, m, text, input[at..]);
      out := out + more;
      Shift(buf, p, m);
      pending := text[p..];
      assert Left(text, input[at..], p) == pending + input[at..] by { LeftIs(text, input[at..], p); }
      m := m - p;
    }
  }

  lemma LeftOf(pending: seq<char>, input: seq<char>, at: nat, n: nat)
    requires at + n <= |input| && Lacks(pending, NUL) && Lacks(input, NUL)
    ensures Left(pending + input[at..at + n], input[at + n..], 0) == pending + input[at..]
    ensures Lacks(pending + input[at..at + n], NUL)
  {
    assert input[at..] == input[at..at + n] + input[at + n..];
  }

  lemma LeftIs(text: seq<char>, rest: seq<char>, p: nat)
    requires p <= |text|
    ensures Left(text, rest, p) == text[p..] + rest
  {
  }

  /** Each line followed by a newline. */
  function Join(lines: seq<seq<char>>): (s: seq<char>) {
    if lines == [] then [] else lines[0] + ['\n'] + Join(lines[1..])
  }

  ghost function Matching(re: seq<char>, lines: seq<seq<char>>): (r: seq<seq<char>>) {
    if lines == [] then [] else (if Matches(re, lines[0]) then [lines[0]] else []) + Matching(re, lines[1..])
  }

  lemma {:induction false} OutputOfFitting(re: seq<char>, lines: seq<seq<char>>, rest: seq<char>)
    requires forall i :: 0 <= i < |lines| ==> Lacks(lines[i], '\n') && |lines[i]| <= BUFSIZE - 2
    ensures Output(re, Join(lines) + rest) == Join(Matching(re, lines)) + Output(re, rest)
  {
    hide Matches, Output;
    if lines == [] {
      assert Join(lines) + rest == rest;
    } else {
      OutputOfFitting(re, lines[1..], rest);
      OutputOfLine(re, lines[0], Join(lines[1..]) + rest);
      assert Join(lines) + rest == lines[0] + ['\n'] + (Join(lines[1..]) + rest);
      var m := Matching(re, lines[1..]);
      if Matches(re, lines[0]) {
        assert Matching(re, lines) == [lines[0]] + m && ([lines[0]] + m)[1..] == m;
      } else {
        assert Matching(re, lines) == [] + m && [] + m == m;
        assert [] + Join(m) == Join(m);
      }
    }
  }

  /** For a file of lines that fit the buffer, with or without an unterminated last line, grep prints exactly the
      matching lines. */
  lemma OutputOfLines(re: seq<char>, lines: seq<seq<char>>, tail: seq<char>)
    requires Lacks(tail, '\n') && forall i :: 0 <= i < |lines| ==> Lacks(lines[i], '\n') && |lines[i]| <= BUFSIZE - 2
    ensures Output(re, Join(lines) + tail) == Join(Matching(re, lines))
  {
    hide Matches, Output;
    OutputOfFitting(re, lines, tail);
    assert tail == tail + [];
    OutputEnds(re, tail, []);
  }

  // A line that does not fit

  /** How many lines come before the first that does not fit the buffer. */
  function Fitting(lines: seq<seq<char>>): (k: nat)
    ensures k <= |lines| && (forall i :: 0 <= i < k ==> |lines[i]| <= BUFSIZE - 2)
    ensures k < |lines| ==> |lines[k]| > BUFSIZE - 2
  {
    if lines == [] || |lines[0]| > BUFSIZE - 2 then 0 else 1 + Fitting(lines[1..])
  }

  lemma {:induction false} JoinConcat(a: seq<seq<char>>, b: seq<seq<char>>)
    ensures Join(a + b) == Join(a) + Join(b)
  {
    if a == [] {
      assert a + b == b;
    } else {
      JoinConcat(a[1..], b);
      assert (a + b)[1..] == a[1..] + b;
    }
  }

  lemma {:induction false} MatchingConcat(re: seq<char>, a: seq<seq<char>>, b: seq<seq<char>>)
    ensures Matching(re, a + b) == Matching(re, a) + Matching(re, b)
  {
    hide Matches;
    if a == [] {
      assert a + b == b;
    } else {
      MatchingConcat(re, a[1..], b);
      assert (a + b)[0] == a[0] && (a + b)[1..] == a[1..] + b;
      var first := if Matches(re, a[0]) then [a[0]] else [];
      var more, last := Matching(re, a[1..]), Matching(re, b);
      assert first + (more + last) == (first + more) + last;
    }
  }

  lemma {:induction false} MatchingNone(re: seq<char>, lines: seq<seq<char>>)
    ensures Matching(re, lines) == [] <==> forall i :: 0 <= i < |lines| ==> !Matches(re, lines[i])
  {
    hide Matches;
    if lines != [] {
      MatchingNone(re, lines[1..]);
      assert lines == [lines[0]] + lines[1..];
    }
  }

  /** In general grep prints the matching lines before the first that does not fit, so it prints all that match exactly
      if none matches from there on. */
  lemma OutputUpToLong(re: seq<char>, lines: seq<seq<char>>, tail: seq<char>)
    requires Lacks(tail, '\n') && forall i :: 0 <= i < |lines| ==> Lacks(lines[i], '\n')
    ensures Output(re, Join(lines) + tail) == Join(Matching(re, lines[..Fitting(lines)]))
    ensures Output(re, Join(lines) + tail) == Join(Matching(re, lines)) <==>
            forall i :: Fitting(lines) <= i < |lines| ==> !Matches(re, lines[i])
  {
    hide Matches, Output;
    var k := Fitting(lines);
    var a, b := lines[..k], lines[k..];
    assert lines == a + b;
    JoinConcat(a, b);
    assert Join(lines) + tail == Join(a) + (Join(b) + tail);
    OutputOfFitting(re, a, Join(b) + tail);
    OutputOfRest(re, b, tail);
    MatchingConcat(re, a, b);
    JoinConcat(Matching(re, a), Matching(re, b));
    MatchingNone(re, b);
    assert forall i :: 0 <= i < |b| ==> b[i] == lines[k + i];
  }

  lemma OutputOfRest(re: seq<char>, lines: seq<seq<char>>, tail: seq<char>)
    requires Lacks(tail, '\n') && (lines != [] ==> Lacks(lines[0], '\n') && |lines[0]| > BUFSIZE - 2)
    ensures Output(re, Join(lines) + tail) == []
  {
    hide Matches, Output;
    if lines == [] {
      assert Join(lines) + tail == tail + [];
      OutputEnds(re, tail, []);
    } else {
      assert Join(lines) + tail == lines[0] + (['\n'] + Join(lines[1..]) + tail);
      OutputEnds(re, lines[0], ['\n'] + Join(lines[1..]) + tail);
    }
  }

  /** A matching line after a line of 1023 bytes is not printed. */
  lemma LongLineHidesMatch()
    ensures var lines := [seq(BUFSIZE - 1, _ => 'a'), "b"];
            Output("b", Join(lines)) == [] && Matches("b", lines[1])
  {
    var lines := [seq(BUFSIZE - 1, _ => 'a'), "b"];
    MatchesNone("b", 1);
    assert Parse("b") == [One(Lit('b'))] + [];
    MatchesMore(One(Lit('b')), [], "b", 0, 1);
    OutputUpToLong("b", lines, []);
    assert Join(lines) + [] == Join(lines) && lines[..0] == [];
  }

  lemma OutputOfLine(re: seq<char>, l: seq<char>, rest: seq<char>)
    requires Lacks(l, '\n') && |l| <= BUFSIZE - 2
    ensures Output(re, l + ['\n'] + rest) == (if Matches(re, l) then l + ['\n'] else []) + Output(re, rest)
  {
    hide Matches, Output;
    var s := l + ['\n'] + rest;
    assert s[..|l|] == l && s[..|l| + 1] == l + ['\n'] && s[|l| + 1..] == rest;
    OutputLine(re, s, |l|);
  }
}
