/** The regular expressions and the line splitter of user/grep.c. */
module Grep {

  // ---- What a pattern means ---------------------------------------------

  /** One element of a pattern: a character, "." or a starred one of these, or the end of the text. */
  datatype Item = One(c: char) | Star(c: char) | End

  predicate Single(c: char, x: char)
  {
    c == '.' || c == x
  }

  /** A pattern without its leading "^" as a sequence of elements. */
  function Items(re: string): (s: seq<Item>)
    ensures forall i :: 0 <= i < |s| - 1 ==> s[i] != End
    decreases |re|
  {
    if re == "" then []
    else if |re| > 1 && re[1] == '*' then [Star(re[0])] + Items(re[2..])
    else if re == "$" then [End]
    else [One(re[0])] + Items(re[1..])
  }

  /** A piece of text that an element stands for. */
  predicate Piece(item: Item, p: string)
  {
    match item
    case One(c) => |p| == 1 && Single(c, p[0])
    case Star(c) => forall i :: 0 <= i < |p| ==> Single(c, p[i])
    case End => p == ""
  }

  function Flatten(parts: seq<string>): (t: string)
  {
    if parts == [] then "" else parts[0] + Flatten(parts[1..])
  }

  /** Text t begins with one piece for each element, and ends there if the pattern says so. */
  ghost predicate Splits(items: seq<Item>, t: string, parts: seq<string>, rest: string)
  {
    && |parts| == |items| && t == Flatten(parts) + rest
    && (forall i :: 0 <= i < |items| ==> Piece(items[i], parts[i]))
    && (End in items ==> rest == "")
  }

  ghost predicate Begins(items: seq<Item>, t: string)
  {
    exists parts: seq<string>, rest: string :: Splits(items, t, parts, rest)
  }

  /** "^" ties the pattern to the beginning; without it the pattern may begin anywhere. */
  ghost predicate Means(re: string, t: string)
  {
    if re != "" && re[0] == '^' then Begins(Items(re[1..]), t)
    else exists k: nat :: k <= |t| && Begins(Items(re), t[k..])
  }

  // ---- The matcher ------------------------------------------------------

  /** matchhere: re at the beginning of t. */
  predicate MatchHere(re: string, t: string)
    decreases |re|, |t| + 1
  {
    if re == "" then true
    else if |re| > 1 && re[1] == '*' then MatchStar(re[0], re[2..], t)
    else if re == "$" then t == ""
    else t != "" && Single(re[0], t[0]) && MatchHere(re[1..], t[1..])
  }

  /** matchstar: c*re at the beginning of t. */
  predicate MatchStar(c: char, re: string, t: string)
    decreases |re| + 1, |t|
  {
    MatchHere(re, t) || (t != "" && Single(c, t[0]) && MatchStar(c, re, t[1..]))
  }

  predicate Match(re: string, t: string)
  {
    if re != "" && re[0] == '^' then MatchHere(re[1..], t) else MatchAnywhere(re, t)
  }

  predicate MatchAnywhere(re: string, t: string)
    decreases |t|
  {
    MatchHere(re, t) || (t != "" && MatchAnywhere(re, t[1..]))
  }

  lemma NoItems(t: string)
    ensures Begins([], t)
  {
    assert Splits([], t, [], t);
  }

  lemma EndItem(t: string)
    ensures Begins([End], t) <==> t == ""
  {
    if t == "" { assert Splits([End], t, [""], ""); }
    if Begins([End], t) {
      var parts, rest :| Splits([End], t, parts, rest);
      assert parts == [""] && Flatten(parts[1..]) == "";
    }
  }

  /** A pattern begins with a piece for its first element and goes on behind it. */
  lemma FirstItem(item: Item, items: seq<Item>, t: string, n: nat)
    requires item != End && n <= |t| && Piece(item, t[..n]) && Begins(items, t[n..])
    ensures Begins([item] + items, t)
  {
    var parts, rest :| Splits(items, t[n..], parts, rest);
    var all := [t[..n]] + parts;
    assert all[1..] == parts;
    assert t == t[..n] + t[n..];
    assert Flatten(all) + rest == t[..n] + (Flatten(parts) + rest);
    forall i | 0 <= i < |[item] + items| ensures Piece(([item] + items)[i], all[i]) {
      if i > 0 { assert Piece(items[i - 1], parts[i - 1]); }
    }
    assert End in [item] + items ==> End in items;
    assert Splits([item] + items, t, all, rest);
  }

  lemma BeginsFirst(item: Item, items: seq<Item>, t: string) returns (n: nat)
    requires Begins([item] + items, t)
    ensures n <= |t| && Piece(item, t[..n]) && Begins(items, t[n..])
  {
    var parts, rest :| Splits([item] + items, t, parts, rest);
    var tail := parts[1..];
    n := |parts[0]|;
    assert t == parts[0] + (Flatten(tail) + rest);
    assert t[..n] == parts[0] && t[n..] == Flatten(tail) + rest;
    assert Piece(([item] + items)[0], parts[0]);
    forall i | 0 <= i < |items| ensures Piece(items[i], tail[i]) {
      assert Piece(([item] + items)[i + 1], parts[i + 1]);
    }
    assert End in items ==> End in [item] + items;
    assert Splits(items, t[n..], tail, rest);
  }

  /** matchhere is right about every pattern and text. */
  lemma {:induction false} MatchHereIff(re: string, t: string)
    ensures MatchHere(re, t) <==> Begins(Items(re), t)
    decreases |re|, |t| + 1
  {
    if re == "" {
      NoItems(t);
    } else if |re| > 1 && re[1] == '*' {
      MatchStarIff(re[0], re[2..], t);
    } else if re == "$" {
      EndItem(t);
    } else {
      OneIff(re, t);
    }
  }

  lemma {:induction false} OneIff(re: string, t: string)
    requires re != "" && !(|re| > 1 && re[1] == '*') && re != "$"
    ensures MatchHere(re, t) <==> Begins(Items(re), t)
    decreases |re|, |t|
  {
    var item, items := One(re[0]), Items(re[1..]);
    if t != "" {
      MatchHereIff(re[1..], t[1..]);
      if Single(re[0], t[0]) && Begins(items, t[1..]) {
        assert t[..1] == [t[0]];
        FirstItem(item, items, t, 1);
      }
    }
    if Begins([item] + items, t) {
      var n := BeginsFirst(item, items, t);
      assert t[..n][0] == t[0];
    }
  }

  lemma {:induction false} MatchStarIff(c: char, re: string, t: string)
    ensures MatchStar(c, re, t) <==> Begins([Star(c)] + Items(re), t)
    decreases |re| + 1, |t|
  {
    hide Begins, Items, MatchHere;
    var items := Items(re);
    MatchHereIff(re, t);
    StarHere(c, items, t);
    if t != "" && Single(c, t[0]) {
      MatchStarIff(c, re, t[1..]);
      if MatchStar(c, re, t[1..]) { StarMore(c, items, t); }
    }
    if Begins([Star(c)] + items, t) { StarCases(c, items, t); }
  }

  /** Zero instances. */
  lemma StarHere(c: char, items: seq<Item>, t: string)
    ensures Begins(items, t) ==> Begins([Star(c)] + items, t)
  {
    assert t[0..] == t && t[..0] == "";
    if Begins(items, t) { FirstItem(Star(c), items, t, 0); }
  }

  /** One instance more. */
  lemma StarMore(c: char, items: seq<Item>, t: string)
    requires t != "" && Single(c, t[0]) && Begins([Star(c)] + items, t[1..])
    ensures Begins([Star(c)] + items, t)
  {
    hide Begins;
    var n := BeginsFirst(Star(c), items, t[1..]);
    var p, q := t[1..][..n], t[..n + 1];
    forall i | 0 <= i < |q| ensures Single(c, q[i]) { assert i > 0 ==> q[i] == p[i - 1]; }
    assert t[1..][n..] == t[n + 1..];
    FirstItem(Star(c), items, t, n + 1);
  }

  lemma StarCases(c: char, items: seq<Item>, t: string)
    requires Begins([Star(c)] + items, t)
    ensures Begins(items, t) || (t != "" && Single(c, t[0]) && Begins([Star(c)] + items, t[1..]))
  {
    hide Begins;
    var n := BeginsFirst(Star(c), items, t);
    if n == 0 {
      assert t[0..] == t;
    } else {
      var p, q := t[..n], t[1..][..n - 1];
      assert p[0] == t[0];
      forall i | 0 <= i < |q| ensures Single(c, q[i]) { assert q[i] == p[i + 1]; }
      assert t[1..][n - 1..] == t[n..];
      FirstItem(Star(c), items, t[1..], n - 1);
    }
  }

  lemma {:induction false} AnywhereIff(re: string, t: string)
    ensures MatchAnywhere(re, t) <==> exists k: nat :: k <= |t| && Begins(Items(re), t[k..])
    decreases |t|
  {
    MatchHereIff(re, t);
    assert t[0..] == t;
    if t != "" {
      AnywhereIff(re, t[1..]);
      forall k: nat | k <= |t[1..]| && Begins(Items(re), t[1..][k..])
        ensures k + 1 <= |t| && Begins(Items(re), t[k + 1..])
      {
        assert t[1..][k..] == t[k + 1..];
      }
      forall k: nat | 0 < k <= |t| && Begins(Items(re), t[k..])
        ensures k - 1 <= |t[1..]| && Begins(Items(re), t[1..][k - 1..])
      {
        assert t[1..][k - 1..] == t[k..];
      }
    }
  }

  /** match says yes exactly when the pattern's meaning says so. */
  lemma MatchIff(re: string, t: string)
    ensures Match(re, t) <==> Means(re, t)
  {
    if re != "" && re[0] == '^' { MatchHereIff(re[1..], t); } else { AnywhereIff(re, t); }
  }

  // ---- The matcher as grep.c runs it ------------------------------------

  method Matchstar(c: char, re: string, text: string) returns (r: bool)
    ensures r == MatchStar(c, re, text)
    decreases |re| + 1, 1
  {
    var i := 0;
    assert text[0..] == text;
    while true
      invariant 0 <= i <= |text| && MatchStar(c, re, text) == MatchStar(c, re, text[i..])
      decreases |text| - i
    {
      var here := Matchhere(re, text[i..]);
      if here { return true; }
      if i == |text| || !(text[i] == c || c == '.') { return false; }
      assert text[i..][1..] == text[i + 1..];
      i := i + 1;
    }
  }

  method Matchhere(re: string, text: string) returns (r: bool)
    ensures r == MatchHere(re, text)
    decreases |re|, 2
  {
    if re == "" { return true; }
    if |re| > 1 && re[1] == '*' {
      r := Matchstar(re[0], re[2..], text);
      return;
    }
    if re == "$" { return text == ""; }
    if text != "" && (re[0] == '.' || re[0] == text[0]) {
      r := Matchhere(re[1..], text[1..]);
      return;
    }
    r := false;
  }

  method MatchText(re: string, text: string) returns (r: bool)
    ensures r == Match(re, text)
  {
    if re != "" && re[0] == '^' {
      r := Matchhere(re[1..], text);
      return;
    }
    var i := 0;
    assert text[0..] == text;
    while true
      invariant 0 <= i <= |text| && MatchAnywhere(re, text) == MatchAnywhere(re, text[i..])
      decreases |text| - i
    {
      var here := Matchhere(re, text[i..]);
      if here { return true; }
      if i == |text| { return false; }
      assert text[i..][1..] == text[i + 1..];
      i := i + 1;
    }
  }

  // ---- Lines ------------------------------------------------------------

  const BUFSIZE: nat := 1024

  /** The position of the first newline from k on, or the length. */
  function Newline(t: string, k: nat): (r: nat)
    requires k <= |t|
    ensures k <= r <= |t| && (r < |t| ==> t[r] == '\n') && forall i :: k <= i < r ==> t[i] != '\n'
    decreases |t| - k
  {
    if k < |t| && t[k] != '\n' then Newline(t, k + 1) else k
  }

  /** The matching lines of t, newlines included; an unterminated last line does not count. */
  function Matching(re: string, t: string): (out: string)
    decreases |t|
  {
    var k := Newline(t, 0);
    if k == |t| then ""
    else (if Match(re, t[..k]) then t[..k + 1] else "") + Matching(re, t[k + 1..])
  }

  /** Every line, with its newline, fits into the buffer beside the NUL. */
  predicate ShortLines(t: string)
    decreases |t|
  {
    var k := Newline(t, 0);
    k == |t| || (k + 1 < BUFSIZE && ShortLines(t[k + 1..]))
  }

  /** What grep prints: matching lines up to the first one that does not fit. */
  function Printed(re: string, t: string): (out: string)
    decreases |t|
  {
    var k := Newline(t, 0);
    if k == |t| || k + 1 >= BUFSIZE then ""
    else (if Match(re, t[..k]) then t[..k + 1] else "") + Printed(re, t[k + 1..])
  }

  lemma {:induction false} PrintedAll(re: string, t: string)
    requires ShortLines(t)
    ensures Printed(re, t) == Matching(re, t)
    decreases |t|
  {
    var k := Newline(t, 0);
    if k < |t| { PrintedAll(re, t[k + 1..]); }
  }

  predicate NoNul(t: string)
  {
    forall i :: 0 <= i < |t| ==> t[i] != '\0'
  }

  lemma {:induction false} NewlineIs(t: string, j: nat, k: nat)
    requires j <= k < |t| && t[k] == '\n' && forall i :: j <= i < k ==> t[i] != '\n'
    ensures Newline(t, j) == k
    decreases k - j
  {
    if j < k { NewlineIs(t, j + 1, k); }
  }

  /** One line taken off the front. */
  lemma PrintedStep(re: string, t: string, k: nat)
    requires k < |t| && t[k] == '\n' && (forall i :: 0 <= i < k ==> t[i] != '\n') && k + 1 < BUFSIZE
    ensures Printed(re, t) == (if Match(re, t[..k]) then t[..k + 1] else "") + Printed(re, t[k + 1..])
  {
    NewlineIs(t, 0, k);
  }

  predicate OneLineOnly(s: string)
  {
    forall i :: 0 <= i < |s| ==> s[i] != '\n'
  }

  lemma PrintedNone(re: string, t: string, m: nat)
    requires m <= |t| && OneLineOnly(t[..m]) && (m == |t| || m + 1 >= BUFSIZE)
    ensures Printed(re, t) == ""
  {
    forall i | 0 <= i < m ensures t[i] != '\n' { assert t[i] == t[..m][i]; }
  }

  /** read(fd, buf + m, ...): n bytes of input. */
  method ReadInto(buf: array<char>, m: nat, data: string)
    requires m + |data| <= buf.Length
    modifies buf
    ensures buf[..] == old(buf[..m]) + data + old(buf[m + |data|..])
    ensures buf[..m + |data|] == old(buf[..m]) + data
  {
    var i := 0;
    while i < |data|
      invariant 0 <= i <= |data|
      invariant forall k :: 0 <= k < buf.Length && !(m <= k < m + i) ==> buf[k] == old(buf[k])
      invariant forall k :: m <= k < m + i ==> buf[k] == data[k - m]
    {
      buf[m + i] := data[i];
      i := i + 1;
    }
    assert buf[..m] == old(buf[..m]) && buf[m..m + |data|] == data && buf[m + |data|..] == old(buf[m + |data|..]);
  }

  /** strchr(p, '\n') in a buffer that ends with a NUL at m. */
  method FindNewline(buf: array<char>, p: nat, m: nat) returns (q: int)
    requires p <= m < buf.Length && buf[m] == '\0' && forall i :: p <= i < m ==> buf[i] != '\0'
    ensures q == -1 ==> forall i :: p <= i < m ==> buf[i] != '\n'
    ensures q != -1 ==> p <= q < m && buf[q] == '\n' && forall i :: p <= i < q ==> buf[i] != '\n'
  {
    q := p;
    while buf[q] != '\n'
      invariant p <= q <= m && forall i :: p <= i < q ==> buf[i] != '\n'
      decreases m - q
    {
      if buf[q] == '\0' {
        return -1;
      }
      q := q + 1;
    }
  }

  /** memmove(buf, p, m) */
  method MoveDown(buf: array<char>, p: nat, m: nat)
    requires p + m <= buf.Length
    modifies buf
    ensures buf[..m] == old(buf[p..p + m])
  {
    var i := 0;
    while i < m
      invariant 0 <= i <= m && buf[..i] == old(buf[p..p + i])
      invariant forall k :: p + i <= k < buf.Length ==> buf[k] == old(buf[k])
    {
      buf[i] := buf[p + i];
      i := i + 1;
    }
  }

  /** Handle the line in buf[p..q]: print it if it matches. */
  method OneLine(buf: array<char>, re: string, p: nat, q: nat, m: nat) returns (part: string)
    requires p <= q < m < buf.Length && buf[q] == '\n'
    modifies buf
    ensures part == if Match(re, old(buf[p..q])) then old(buf[p..q + 1]) else ""
    ensures forall k :: q < k < buf.Length ==> buf[k] == old(buf[k])
  {
    buf[q] := '\0';
    assert buf[p..q] == old(buf[p..q]);
    var yes := MatchText(re, buf[p..q]);
    part := "";
    if yes {
      buf[q] := '\n';
      part := buf[p..q + 1];
      assert part == old(buf[p..q + 1]);
    }
  }

  /** The complete lines in buf[..m], which is the front of the input not yet handled. */
  method Lines(buf: array<char>, re: string, m: nat, ghost rest: string) returns (out: string, p: nat)
    requires m < buf.Length == BUFSIZE && buf[m] == '\0' && m <= |rest| && buf[..m] == rest[..m] && NoNul(rest)
    modifies buf
    ensures p <= m && buf[p..m] == rest[p..m] && (forall i :: p <= i < m ==> rest[i] != '\n')
    ensures out + Printed(re, rest[p..]) == Printed(re, rest)
  {
    hide Printed, Match;
    out, p := "", 0;
    assert rest[0..] == rest && "" + Printed(re, rest) == Printed(re, rest);
    forall i | 0 <= i < m ensures buf[i] == rest[i] { assert buf[..m][i] == rest[..m][i]; }
    while true
      invariant 0 <= p <= m && buf[m] == '\0' && forall i :: p <= i < m ==> buf[i] == rest[i]
      invariant out + Printed(re, rest[p..]) == Printed(re, rest)
      decreases m - p
    {
      var q := FindNewline(buf, p, m);
      if q == -1 {
        assert buf[p..m] == rest[p..m];
        return;
      }
      LineStep(re, rest, p, q);
      SameSlices(buf[..], rest, p, q, m);
      var part := OneLine(buf, re, p, q, m);
      Regroup(out, part, Printed(re, rest[q + 1..]));
      out := out + part;
      p := q + 1;
    }
  }

  lemma SameSlices(a: seq<char>, b: seq<char>, p: nat, q: nat, m: nat)
    requires p <= q < m <= |a| && m <= |b| && forall i :: p <= i < m ==> a[i] == b[i]
    ensures a[p..q] == b[p..q] && a[p..q + 1] == b[p..q + 1]
  {
  }

  lemma LineStep(re: string, rest: string, p: nat, q: nat)
    requires p <= q < |rest| && rest[q] == '\n' && (forall i :: p <= i < q ==> rest[i] != '\n') && q + 1 < BUFSIZE
    ensures Printed(re, rest[p..]) ==
            (if Match(re, rest[p..q]) then rest[p..q + 1] else "") + Printed(re, rest[q + 1..])
  {
    var t, k := rest[p..], q - p;
    assert t[..k] == rest[p..q] && t[..k + 1] == rest[p..q + 1] && t[k + 1..] == rest[q + 1..];
    PrintedStep(re, t, k);
  }

  /** The complete lines in buf[..m]; what is left moves to the front. */
  method Round(buf: array<char>, re: string, m: nat, ghost rest: string) returns (out: string, p: nat)
    requires m < buf.Length == BUFSIZE && m <= |rest| && buf[..m] == rest[..m] && NoNul(rest)
    modifies buf
    ensures p <= m && buf[..m - p] == rest[p..][..m - p] && OneLineOnly(rest[p..][..m - p])
    ensures out + Printed(re, rest[p..]) == Printed(re, rest)
  {
    hide Printed;
    buf[m] := '\0';
    out, p := Lines(buf, re, m, rest);
    MoveDown(buf, p, m - p);
    assert rest[p..][..m - p] == rest[p..m];
  }

  /** grep over an input that read delivers in pieces: the k-th call is willing to deliver
      sizes(k) bytes, and delivers at least one while input and space are left. */
  method GrepInput(buf: array<char>, re: string, input: string, sizes: nat -> nat) returns (out: string)
    requires buf.Length == BUFSIZE && NoNul(input)
    modifies buf
    ensures out == Printed(re, input)
  {
    hide Printed, OneLineOnly;
    var m, pos, k := 0, 0, 0;
    ghost var rest := input;
    out := "";
    Start(re, input);
    while true
      invariant 0 <= m <= pos <= |input| && m < BUFSIZE && rest == input[pos - m..]
      invariant buf[..m] == rest[..m] && OneLineOnly(rest[..m])
      invariant out + Printed(re, rest) == Printed(re, input)
      decreases |input| - pos
    {
      var n := ReadSize(sizes(k), BUFSIZE - m - 1, |input| - pos);
      if n == 0 {
        PrintedNone(re, rest, m);
        return;
      }
      k := k + 1;
      DataOfRest(input, pos - m, m, n);
      ReadInto(buf, m, input[pos..pos + n]);
      m, pos := m + n, pos + n;
      var part, p := Round(buf, re, m, rest);
      RestOfRest(input, pos - m, p);
      Regroup(out, part, Printed(re, rest[p..]));
      out, rest := out + part, rest[p..];
      m := m - p;
    }
  }

  lemma Start(re: string, input: string)
    ensures "" + Printed(re, input) == Printed(re, input) && input[0..] == input && OneLineOnly(input[..0])
  {
  }

  lemma DataOfRest(s: string, a: nat, m: nat, n: nat)
    requires a + m + n <= |s|
    ensures s[a..][..m] + s[a + m..a + m + n] == s[a..][..m + n]
    ensures NoNul(s) ==> NoNul(s[a..])
  {
  }

  lemma RestOfRest(s: string, a: nat, p: nat)
    requires a + p <= |s|
    ensures s[a..][p..] == s[a + p..]
  {
  }

  lemma Regroup(a: string, b: string, c: string)
    ensures a + (b + c) == (a + b) + c
  {
  }

  /** How much read delivers. */
  function ReadSize(want: nat, space: nat, left: nat): (n: nat)
    ensures n <= space && n <= left && (n == 0 <==> space == 0 || left == 0)
  {
    var most := if space < left then space else left;
    if want < 1 then (if most > 0 then 1 else 0) else if want < most then want else most
  }

  /** For lines that fit, grep prints exactly the matching lines, however read splits the input. */
  method GrepLines(buf: array<char>, re: string, input: string, sizes: nat -> nat) returns (out: string)
    requires buf.Length == BUFSIZE && NoNul(input) && ShortLines(input)
    modifies buf
    ensures out == Matching(re, input)
  {
    out := GrepInput(buf, re, input, sizes);
    PrintedAll(re, input);
  }

  /** Lines, each with its newline, one after another. */
  function Joined(lines: seq<string>): (t: string)
  {
    if lines == [] then "" else lines[0] + "\n" + Joined(lines[1..])
  }

  /** The lines that the pattern means, in order. */
  ghost function Chosen(re: string, lines: seq<string>): (r: seq<string>)
  {
    if lines == [] then []
    else (if Means(re, lines[0]) then [lines[0]] else []) + Chosen(re, lines[1..])
  }

  /** Of a text made of lines and a rest without a newline, grep prints the lines that the
      pattern means, in order, up to the first of 1023 characters or more; the rest it does not print. */
  lemma {:induction false} PrintsChosen(re: string, lines: seq<string>, rest: string, n: nat)
    requires (forall l :: l in lines ==> OneLineOnly(l)) && OneLineOnly(rest)
    requires n <= |lines| && (forall j :: 0 <= j < n ==> |lines[j]| < 1023) && (n < |lines| ==> |lines[n]| >= 1023)
    ensures Printed(re, Joined(lines) + rest) == Joined(Chosen(re, lines[..n]))
    decreases |lines|
  {
    hide Printed, Match, Means, Joined, Chosen;
    JoinedMore(re, lines, rest, n);
    if lines == [] {
      PrintedNone(re, rest, |rest|);
    } else {
      var l, more := lines[0], Joined(lines[1..]) + rest;
      FirstLine(re, l, more);
      if n > 0 {
        MatchIff(re, l);
        PrintsChosen(re, lines[1..], rest, n - 1);
        JoinedFront(l, Chosen(re, lines[1..n]));
      }
    }
  }

  lemma JoinedMore(re: string, lines: seq<string>, rest: string, n: nat)
    requires n <= |lines|
    ensures lines == [] ==> Joined(lines) + rest == rest && rest[..|rest|] == rest
    ensures lines != [] ==> Joined(lines) + rest == lines[0] + "\n" + (Joined(lines[1..]) + rest)
    ensures n == 0 ==> Joined(Chosen(re, lines[..n])) == ""
    ensures n > 0 ==>
              && lines[1..][..n - 1] == lines[1..n]
              && Chosen(re, lines[..n]) == (if Means(re, lines[0]) then [lines[0]] else []) + Chosen(re, lines[1..n])
  {
    assert n > 0 ==> lines[..n][1..] == lines[1..n] && lines[..n][0] == lines[0];
  }

  lemma FirstLine(re: string, l: string, more: string)
    requires OneLineOnly(l)
    ensures Printed(re, l + "\n" + more) ==
            if |l| < 1023 then (if Match(re, l) then l + "\n" else "") + Printed(re, more) else ""
  {
    hide Match, Printed;
    var t := l + "\n" + more;
    assert t[..|l|] == l && t[..|l| + 1] == l + "\n" && t[|l| + 1..] == more;
    forall i | 0 <= i < |l| ensures t[i] != '\n' { assert t[i] == l[i]; }
    if |l| < 1023 { PrintedStep(re, t, |l|); } else { PrintedNone(re, t, |l|); }
  }

  lemma JoinedFront(l: string, lines: seq<string>)
    ensures Joined([l] + lines) == l + "\n" + Joined(lines) && Joined([] + lines) == "" + Joined(lines)
  {
    assert [] + lines == lines;
    assert ([l] + lines)[1..] == lines;
  }
}
