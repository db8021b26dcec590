/** The command parser of user/sh.c.

    The input is a text without NUL; position |s| is its end, where the C string
    has its terminator.  A panic is the result Panic.
 */
module Shell {

  const MAXARGS: nat := 10

  /** Redirections: "<", ">" and ">>". */
  datatype Mode = In | Out | Append

  /** A command tree over its words: spans of the input, or strings. */
  datatype Cmd<W> =
    | Exec(args: seq<W>)
    | Redir(cmd: Cmd<W>, file: W, mode: Mode)
    | Pipe(left: Cmd<W>, right: Cmd<W>)
    | List(left: Cmd<W>, right: Cmd<W>)
    | Back(cmd: Cmd<W>)

  type Span = (nat, nat)

  datatype Result<T> = Panic | Ok(value: T, i: nat)

  // ---- Scanning ---------------------------------------------------------

  predicate Ws(c: char) { c == ' ' || c == '\t' || c == '\r' || c == '\n' || c == 11 as char }

  predicate Symbol(c: char) { c == '<' || c == '|' || c == '>' || c == '&' || c == ';' || c == '(' || c == ')' }

  predicate WordChar(c: char) { !Ws(c) && !Symbol(c) && c != '\0' }

  function At(s: string, i: nat): (c: char)
  {
    if i < |s| then s[i] else '\0'
  }

  function SkipWs(s: string, i: nat): (r: nat)
    requires i <= |s|
    ensures i <= r <= |s| && !Ws(At(s, r))
    ensures !Ws(At(s, i)) ==> r == i
    decreases |s| - i
  {
    if i < |s| && Ws(s[i]) then SkipWs(s, i + 1) else i
  }

  function WordEnd(s: string, i: nat): (r: nat)
    requires i <= |s|
    ensures i <= r <= |s| && (r < |s| ==> Ws(s[r]) || Symbol(s[r]))
    ensures forall k :: i <= k < r ==> !Ws(s[k]) && !Symbol(s[k])
    decreases |s| - i
  {
    if i < |s| && !Ws(s[i]) && !Symbol(s[i]) then WordEnd(s, i + 1) else i
  }

  /** A token: its kind as gettoken returns it, its span, and where scanning goes on. */
  datatype Token = Token(kind: char, q: nat, eq: nat, next: nat)

  /** The end of the token that starts at j, and its kind. */
  function TokenAt(s: string, j: nat): (r: (char, nat))
    requires j <= |s| && !Ws(At(s, j))
    ensures j <= r.1 <= |s| && (At(s, j) != '\0' ==> r.1 > j)
    ensures r.0 == '\0' <==> At(s, j) == '\0'
  {
    var c := At(s, j);
    if c == '\0' then ('\0', j)
    else if c == '>' then if At(s, j + 1) == '>' then ('+', j + 2) else ('>', j + 1)
    else if Symbol(c) then (c, j + 1)
    else ('a', WordEnd(s, j))
  }

  function GetToken(s: string, i: nat): (t: Token)
    requires i <= |s|
    ensures i <= t.q <= t.eq <= t.next <= |s| && (t.kind != '\0' ==> t.next > i)
    ensures t.kind == '\0' ==> t.next == t.q
  {
    var q := SkipWs(s, i);
    var (kind, eq) := TokenAt(s, q);
    Token(kind, q, eq, SkipWs(s, eq))
  }

  predicate Peek(s: string, i: nat, toks: string)
    requires i <= |s|
  {
    At(s, SkipWs(s, i)) != '\0' && At(s, SkipWs(s, i)) in toks
  }

  // ---- Parsing ----------------------------------------------------------

  type Redirs = seq<(Span, Mode)>

  /** The redirections that follow, up to something else. */
  function RedirList(s: string, i: nat): (r: Result<Redirs>)
    requires i <= |s|
    ensures r.Ok? ==> i <= r.i <= |s|
    decreases |s| - i
  {
    if !Peek(s, i, "<>") then Ok([], SkipWs(s, i))
    else
      var op := GetToken(s, i);
      var file := GetToken(s, op.next);
      if file.kind != 'a' then Panic
      else
        var mode := if op.kind == '<' then In else if op.kind == '>' then Out else Append;
        match RedirList(s, file.next)
        case Panic => Panic
        case Ok(rest, j) => Ok([((file.q, file.eq), mode)] + rest, j)
  }

  /** A command with redirections around it, the first one innermost. */
  function Wrap<W>(c: Cmd<W>, rs: seq<(W, Mode)>): (r: Cmd<W>)
    decreases rs
  {
    if rs == [] then c else Wrap(Redir(c, rs[0].0, rs[0].1), rs[1..])
  }

  /** The loop of parseexec. */
  function ArgLoop(s: string, args: seq<Span>, rs: Redirs, i: nat): (r: Result<Cmd<Span>>)
    requires i <= |s|
    ensures r.Ok? ==> i <= r.i <= |s|
    decreases |s| - i
  {
    if Peek(s, i, "|)&;") then Ok(Wrap(Exec(args), rs), SkipWs(s, i))
    else
      var t := GetToken(s, i);
      if t.kind == '\0' then Ok(Wrap(Exec(args), rs), t.next)
      else if t.kind != 'a' then Panic
      else if |args| + 1 >= MAXARGS then Panic
      else
        match RedirList(s, t.next)
        case Panic => Panic
        case Ok(more, j) => ArgLoop(s, args + [(t.q, t.eq)], rs + more, j)
  }

  function ParseExec(s: string, i: nat): (r: Result<Cmd<Span>>)
    requires i <= |s|
    ensures r.Ok? ==> i <= r.i <= |s|
    decreases |s| - i, 1
  {
    if Peek(s, i, "(") then ParseBlock(s, i)
    else
      match RedirList(s, i)
      case Panic => Panic
      case Ok(rs, j) => ArgLoop(s, [], rs, j)
  }

  function ParseBlock(s: string, i: nat): (r: Result<Cmd<Span>>)
    requires i <= |s|
    ensures r.Ok? ==> i < r.i <= |s|
    decreases |s| - i, 0
  {
    if !Peek(s, i, "(") then Panic
    else
      var open := GetToken(s, i);
      match ParseLine(s, open.next)
      case Panic => Panic
      case Ok(c, j) =>
        if !Peek(s, j, ")") then Panic
        else
          var close := GetToken(s, j);
          match RedirList(s, close.next)
          case Panic => Panic
          case Ok(rs, k) => Ok(Wrap(c, rs), k)
  }

  function ParsePipe(s: string, i: nat): (r: Result<Cmd<Span>>)
    requires i <= |s|
    ensures r.Ok? ==> i <= r.i <= |s|
    decreases |s| - i, 2
  {
    match ParseExec(s, i)
    case Panic => Panic
    case Ok(c, j) =>
      if !Peek(s, j, "|") then Ok(c, SkipWs(s, j))
      else
        match ParsePipe(s, GetToken(s, j).next)
        case Panic => Panic
        case Ok(d, k) => Ok(Pipe(c, d), k)
  }

  /** The loop of parseline over "&". */
  function BackLoop(s: string, c: Cmd<Span>, i: nat): (r: (Cmd<Span>, nat))
    requires i <= |s|
    ensures i <= r.1 <= |s|
    decreases |s| - i
  {
    if Peek(s, i, "&") then BackLoop(s, Back(c), GetToken(s, i).next) else (c, SkipWs(s, i))
  }

  function ParseLine(s: string, i: nat): (r: Result<Cmd<Span>>)
    requires i <= |s|
    ensures r.Ok? ==> i <= r.i <= |s|
    decreases |s| - i, 3
  {
    match ParsePipe(s, i)
    case Panic => Panic
    case Ok(c0, j0) =>
      var (c, j) := BackLoop(s, c0, j0);
      if !Peek(s, j, ";") then Ok(c, SkipWs(s, j))
      else
        match ParseLine(s, GetToken(s, j).next)
        case Panic => Panic
        case Ok(d, k) => Ok(List(c, d), k)
  }

  /** parsecmd before nulterminate: the whole input must be used up. */
  function ParseCmd(s: string): (r: Result<Cmd<Span>>)
  {
    match ParseLine(s, 0)
    case Panic => Panic
    case Ok(c, i) => if SkipWs(s, i) == |s| then Ok(c, |s|) else Panic
  }

  // ---- Words ------------------------------------------------------------

  function Slice(s: string, w: Span): (t: string)
  {
    if w.0 <= w.1 <= |s| then s[w.0..w.1] else ""
  }

  function SliceAll(s: string, ws: seq<Span>): (t: seq<string>)
    ensures |t| == |ws|
  {
    seq(|ws|, i requires 0 <= i < |ws| => Slice(s, ws[i]))
  }

  /** The tree with the text of its spans. */
  function Text(s: string, c: Cmd<Span>): (t: Cmd<string>)
  {
    match c
    case Exec(args) => Exec(SliceAll(s, args))
    case Redir(d, file, mode) => Redir(Text(s, d), Slice(s, file), mode)
    case Pipe(l, r) => Pipe(Text(s, l), Text(s, r))
    case List(l, r) => List(Text(s, l), Text(s, r))
    case Back(d) => Back(Text(s, d))
  }

  /** A maximal run of word characters. */
  predicate WordSpan(s: string, w: Span)
  {
    && w.0 < w.1 <= |s| && (forall k :: w.0 <= k < w.1 ==> WordChar(s[k]))
    && (w.1 < |s| ==> !WordChar(s[w.1]))
  }

  predicate Spans(s: string, c: Cmd<Span>)
  {
    match c
    case Exec(args) => |args| < MAXARGS && forall i :: 0 <= i < |args| ==> WordSpan(s, args[i])
    case Redir(d, file, mode) => Spans(s, d) && WordSpan(s, file)
    case Pipe(l, r) => Spans(s, l) && Spans(s, r)
    case List(l, r) => Spans(s, l) && Spans(s, r)
    case Back(d) => Spans(s, d)
  }

  predicate NoNul(s: string)
  {
    forall i :: 0 <= i < |s| ==> s[i] != '\0'
  }

  lemma WordTokenSpan(s: string, i: nat)
    requires i <= |s| && NoNul(s) && GetToken(s, i).kind == 'a'
    ensures WordSpan(s, (GetToken(s, i).q, GetToken(s, i).eq))
  {
  }

  lemma {:induction false} RedirSpans(s: string, i: nat)
    requires i <= |s| && NoNul(s) && RedirList(s, i).Ok?
    ensures forall k :: 0 <= k < |RedirList(s, i).value| ==> WordSpan(s, RedirList(s, i).value[k].0)
    decreases |s| - i
  {
    if Peek(s, i, "<>") {
      var op := GetToken(s, i);
      var file := GetToken(s, op.next);
      WordTokenSpan(s, op.next);
      RedirSpans(s, file.next);
    }
  }

  lemma {:induction false} WrapSpans(s: string, c: Cmd<Span>, rs: Redirs)
    requires Spans(s, c) && forall k :: 0 <= k < |rs| ==> WordSpan(s, rs[k].0)
    ensures Spans(s, Wrap(c, rs))
    decreases rs
  {
    if rs != [] { WrapSpans(s, Redir(c, rs[0].0, rs[0].1), rs[1..]); }
  }

  lemma {:induction false} ArgSpans(s: string, args: seq<Span>, rs: Redirs, i: nat)
    requires i <= |s| && NoNul(s) && ArgLoop(s, args, rs, i).Ok?
    requires |args| < MAXARGS && forall k :: 0 <= k < |args| ==> WordSpan(s, args[k])
    requires forall k :: 0 <= k < |rs| ==> WordSpan(s, rs[k].0)
    ensures Spans(s, ArgLoop(s, args, rs, i).value)
    decreases |s| - i
  {
    var t := GetToken(s, i);
    if Peek(s, i, "|)&;") || t.kind == '\0' {
      WrapSpans(s, Exec(args), rs);
    } else {
      WordTokenSpan(s, i);
      RedirSpans(s, t.next);
      var more := RedirList(s, t.next);
      ArgSpans(s, args + [(t.q, t.eq)], rs + more.value, more.i);
    }
  }

  lemma {:induction false} ExecSpans(s: string, i: nat)
    requires i <= |s| && NoNul(s) && ParseExec(s, i).Ok?
    ensures Spans(s, ParseExec(s, i).value)
    decreases |s| - i, 0
  {
    if Peek(s, i, "(") {
      var open := GetToken(s, i);
      LineSpans(s, open.next);
      var line := ParseLine(s, open.next);
      var close := GetToken(s, line.i);
      RedirSpans(s, close.next);
      WrapSpans(s, line.value, RedirList(s, close.next).value);
    } else {
      RedirSpans(s, i);
      ArgSpans(s, [], RedirList(s, i).value, RedirList(s, i).i);
    }
  }

  lemma {:induction false} PipeSpans(s: string, i: nat)
    requires i <= |s| && NoNul(s) && ParsePipe(s, i).Ok?
    ensures Spans(s, ParsePipe(s, i).value)
    decreases |s| - i, 1
  {
    ExecSpans(s, i);
    var e := ParseExec(s, i);
    if Peek(s, e.i, "|") { PipeSpans(s, GetToken(s, e.i).next); }
  }

  lemma {:induction false} BackSpans(s: string, c: Cmd<Span>, i: nat)
    requires i <= |s| && Spans(s, c)
    ensures Spans(s, BackLoop(s, c, i).0)
    decreases |s| - i
  {
    if Peek(s, i, "&") { BackSpans(s, Back(c), GetToken(s, i).next); }
  }

  /** Every word of a parsed command is a maximal run of word characters. */
  lemma {:induction false} LineSpans(s: string, i: nat)
    requires i <= |s| && NoNul(s) && ParseLine(s, i).Ok?
    ensures Spans(s, ParseLine(s, i).value)
    decreases |s| - i, 2
  {
    PipeSpans(s, i);
    var p := ParsePipe(s, i);
    BackSpans(s, p.value, p.i);
    var (c, j) := BackLoop(s, p.value, p.i);
    if Peek(s, j, ";") { LineSpans(s, GetToken(s, j).next); }
  }

  // ---- nulterminate -----------------------------------------------------

  /** The ends of the words of a command. */
  function Ends(c: Cmd<Span>): (e: set<nat>)
  {
    match c
    case Exec(args) => set w | w in args :: w.1
    case Redir(d, file, mode) => Ends(d) + {file.1}
    case Pipe(l, r) => Ends(l) + Ends(r)
    case List(l, r) => Ends(l) + Ends(r)
    case Back(d) => Ends(d)
  }

  ghost predicate Cleared(a: seq<char>, b: seq<char>, e: set<nat>)
  {
    |b| == |a| && forall k: nat :: k < |a| ==> b[k] == if k in e then '\0' else a[k]
  }

  predicate Bounded(n: nat, c: Cmd<Span>)
  {
    match c
    case Exec(args) => forall i :: 0 <= i < |args| ==> args[i].1 < n
    case Redir(d, file, mode) => Bounded(n, d) && file.1 < n
    case Pipe(l, r) => Bounded(n, l) && Bounded(n, r)
    case List(l, r) => Bounded(n, l) && Bounded(n, r)
    case Back(d) => Bounded(n, d)
  }

  /** Write a NUL behind every word. */
  method Nulterminate(buf: array<char>, c: Cmd<Span>)
    requires Bounded(buf.Length, c)
    modifies buf
    ensures Cleared(old(buf[..]), buf[..], Ends(c))
    decreases c
  {
    match c {
      case Exec(args) =>
        var i := 0;
        while i < |args|
          invariant 0 <= i <= |args|
          invariant Cleared(old(buf[..]), buf[..], set w | w in args[..i] :: w.1)
        {
          assert args[..i + 1] == args[..i] + [args[i]];
          buf[args[i].1] := '\0';
          i := i + 1;
        }
        assert args[..i] == args;
      case Redir(d, file, mode) =>
        Nulterminate(buf, d);
        buf[file.1] := '\0';
      case Pipe(l, r) =>
        Nulterminate(buf, l);
        Nulterminate(buf, r);
      case List(l, r) =>
        Nulterminate(buf, l);
        Nulterminate(buf, r);
      case Back(d) =>
        Nulterminate(buf, d);
    }
  }

  lemma {:induction false} SpansBounded(s: string, c: Cmd<Span>)
    requires Spans(s, c)
    ensures Bounded(|s| + 1, c) && forall e :: e in Ends(c) ==> e <= |s| && (e < |s| ==> !WordChar(s[e]))
  {
    match c
    case Exec(args) =>
    case Redir(d, file, mode) => SpansBounded(s, d);
    case Pipe(l, r) => SpansBounded(s, l); SpansBounded(s, r);
    case List(l, r) => SpansBounded(s, l); SpansBounded(s, r);
    case Back(d) => SpansBounded(s, d);
  }

  /** w is a word of c. */
  predicate WordOf(c: Cmd<Span>, w: Span)
  {
    match c
    case Exec(args) => w in args
    case Redir(d, file, mode) => w == file || WordOf(d, w)
    case Pipe(l, r) => WordOf(l, w) || WordOf(r, w)
    case List(l, r) => WordOf(l, w) || WordOf(r, w)
    case Back(d) => WordOf(d, w)
  }

  lemma {:induction false} WordOfSpan(s: string, c: Cmd<Span>, w: Span)
    requires Spans(s, c) && WordOf(c, w)
    ensures WordSpan(s, w) && w.1 in Ends(c)
  {
    match c
    case Exec(args) =>
    case Redir(d, file, mode) => if w != file { WordOfSpan(s, d, w); }
    case Pipe(l, r) => if WordOf(l, w) { WordOfSpan(s, l, w); } else { WordOfSpan(s, r, w); }
    case List(l, r) => if WordOf(l, w) { WordOfSpan(s, l, w); } else { WordOfSpan(s, r, w); }
    case Back(d) => WordOfSpan(s, d, w);
  }

  /** The C string at position q of a buffer. */
  function CString(b: seq<char>, q: nat): (t: string)
    requires q <= |b|
    decreases |b| - q
  {
    if q == |b| || b[q] == '\0' then "" else [b[q]] + CString(b, q + 1)
  }

  lemma {:induction false} CStringIs(b: seq<char>, q: nat, e: nat)
    requires q <= e < |b| && b[e] == '\0' && forall k :: q <= k < e ==> b[k] != '\0'
    ensures CString(b, q) == b[q..e]
    decreases e - q
  {
    if q < e {
      CStringIs(b, q + 1, e);
      assert b[q..e] == [b[q]] + b[q + 1..e];
    }
  }

  /** After nulterminate every argument and file name reads as exactly its token: a terminator
      never lands inside another token. */
  lemma WordsReadBack(s: string, c: Cmd<Span>, b: seq<char>, w: Span)
    requires NoNul(s) && Spans(s, c) && WordOf(c, w) && Cleared(s + ['\0'], b, Ends(c))
    ensures w.0 <= |b| && CString(b, w.0) == Slice(s, w)
  {
    SpansBounded(s, c);
    WordOfSpan(s, c, w);
    forall k | w.0 <= k < w.1 ensures b[k] == s[k] != '\0' {
      assert WordChar(s[k]);
      assert k !in Ends(c);
    }
    CStringIs(b, w.0, w.1);
    assert b[w.0..w.1] == s[w.0..w.1];
  }

  // ---- The parser as sh.c runs it ---------------------------------------

  method Scan(s: string, i: nat) returns (j: nat)
    requires i <= |s|
    ensures j == SkipWs(s, i)
  {
    j := i;
    while j < |s| && Ws(s[j])
      invariant i <= j <= |s| && SkipWs(s, i) == SkipWs(s, j)
    {
      j := j + 1;
    }
  }

  method Gettoken(s: string, i: nat) returns (t: Token)
    requires i <= |s|
    ensures t == GetToken(s, i)
  {
    var q := Scan(s, i);
    var kind, e := At(s, q), q;
    if kind == '\0' {
    } else if kind == '>' {
      e := q + 1;
      if At(s, e) == '>' { kind, e := '+', e + 1; }
    } else if Symbol(kind) {
      e := q + 1;
    } else {
      kind := 'a';
      while e < |s| && !Ws(s[e]) && !Symbol(s[e])
        invariant q <= e <= |s| && WordEnd(s, q) == WordEnd(s, e)
      {
        e := e + 1;
      }
    }
    var next := Scan(s, e);
    t := Token(kind, q, e, next);
  }

  method PeekAt(s: string, i: nat, toks: string) returns (found: bool, j: nat)
    requires i <= |s|
    ensures found == Peek(s, i, toks) && j == SkipWs(s, i)
  {
    j := Scan(s, i);
    found := At(s, j) != '\0' && At(s, j) in toks;
  }

  lemma SkipTwice(s: string, i: nat)
    requires i <= |s|
    ensures SkipWs(s, SkipWs(s, i)) == SkipWs(s, i) && GetToken(s, SkipWs(s, i)) == GetToken(s, i)
    ensures forall toks: string :: Peek(s, SkipWs(s, i), toks) == Peek(s, i, toks)
  {
  }

  method Parseredirs(s: string, i: nat) returns (r: Result<Redirs>)
    requires i <= |s|
    ensures r == RedirList(s, i)
  {
    hide GetToken, SkipWs, Peek;
    var rs: Redirs, j := [], i;
    assert RedirList(s, i).Ok? ==> rs + RedirList(s, i).value == RedirList(s, i).value;
    while true
      invariant i <= j <= |s|
      invariant RedirList(s, i) == match RedirList(s, j) case Panic => Panic case Ok(rest, k) => Ok(rs + rest, k)
      decreases |s| - j
    {
      SkipTwice(s, j);
      var found, k := PeekAt(s, j, "<>");
      if !found {
        assert rs + [] == rs;
        return Ok(rs, k);
      }
      var op := Gettoken(s, k);
      var file := Gettoken(s, op.next);
      if file.kind != 'a' { return Panic; }
      var mode := if op.kind == '<' then In else if op.kind == '>' then Out else Append;
      assert forall rest: Redirs ::
          rs + ([((file.q, file.eq), mode)] + rest) == (rs + [((file.q, file.eq), mode)]) + rest;
      rs := rs + [((file.q, file.eq), mode)];
      j := file.next;
    }
  }

  method Parseexec(s: string, i: nat) returns (r: Result<Cmd<Span>>)
    requires i <= |s|
    ensures r == ParseExec(s, i)
    decreases |s| - i, 1
  {
    hide GetToken, SkipWs, Peek, RedirList;
    SkipTwice(s, i);
    var found, k := PeekAt(s, i, "(");
    if found {
      r := Parseblock(s, i);
      return;
    }
    var first := Parseredirs(s, i);
    if first.Panic? { return Panic; }
    var args: seq<Span>, rs, j := [], first.value, first.i;
    while true
      invariant i <= j <= |s|
      invariant ParseExec(s, i) == ArgLoop(s, args, rs, j)
      decreases |s| - j
    {
      SkipTwice(s, j);
      var stop, k := PeekAt(s, j, "|)&;");
      if stop { return Ok(Wrap(Exec(args), rs), k); }
      var t := Gettoken(s, k);
      if t.kind == '\0' { return Ok(Wrap(Exec(args), rs), t.next); }
      if t.kind != 'a' { return Panic; }
      if |args| + 1 >= MAXARGS { return Panic; }
      var more := Parseredirs(s, t.next);
      if more.Panic? { return Panic; }
      args, rs, j := args + [(t.q, t.eq)], rs + more.value, more.i;
    }
  }

  method Parseblock(s: string, i: nat) returns (r: Result<Cmd<Span>>)
    requires i <= |s|
    ensures r == ParseBlock(s, i)
    decreases |s| - i, 0
  {
    hide GetToken, SkipWs, Peek, RedirList, ParseLine;
    SkipTwice(s, i);
    var found, k := PeekAt(s, i, "(");
    if !found { return Panic; }
    var open := Gettoken(s, k);
    OpenAdvances(s, i);
    var line := Parseline(s, open.next);
    if line.Panic? { return Panic; }
    SkipTwice(s, line.i);
    found, k := PeekAt(s, line.i, ")");
    if !found { return Panic; }
    var close := Gettoken(s, k);
    var more := Parseredirs(s, close.next);
    if more.Panic? { return Panic; }
    r := Ok(Wrap(line.value, more.value), more.i);
  }

  lemma OpenAdvances(s: string, i: nat)
    requires i <= |s| && (Peek(s, i, "(") || Peek(s, i, "|") || Peek(s, i, ";") || Peek(s, i, "&"))
    ensures GetToken(s, i).next > i
  {
  }

  method Parsepipe(s: string, i: nat) returns (r: Result<Cmd<Span>>)
    requires i <= |s|
    ensures r == ParsePipe(s, i)
    decreases |s| - i, 2
  {
    hide GetToken, SkipWs, Peek, ParseExec;
    var e := Parseexec(s, i);
    if e.Panic? { return Panic; }
    SkipTwice(s, e.i);
    var found, k := PeekAt(s, e.i, "|");
    if !found { return Ok(e.value, k); }
    OpenAdvances(s, e.i);
    var bar := Gettoken(s, k);
    var rest := Parsepipe(s, bar.next);
    if rest.Panic? { return Panic; }
    r := Ok(Pipe(e.value, rest.value), rest.i);
  }

  method Parseline(s: string, i: nat) returns (r: Result<Cmd<Span>>)
    requires i <= |s|
    ensures r == ParseLine(s, i)
    decreases |s| - i, 3
  {
    hide GetToken, SkipWs, Peek, ParsePipe;
    var p := Parsepipe(s, i);
    if p.Panic? { return Panic; }
    var c, j := p.value, p.i;
    SkipTwice(s, j);
    var found, k := PeekAt(s, j, "&");
    while found
      invariant i <= j <= |s| && found == Peek(s, j, "&") && k == SkipWs(s, j)
      invariant BackLoop(s, p.value, p.i) == BackLoop(s, c, j)
      decreases |s| - j
    {
      SkipTwice(s, j);
      OpenAdvances(s, j);
      var amp := Gettoken(s, k);
      c, j := Back(c), amp.next;
      found, k := PeekAt(s, j, "&");
    }
    SkipTwice(s, j);
    SkipTwice(s, k);
    found, j := PeekAt(s, k, ";");
    if !found { return Ok(c, j); }
    OpenAdvances(s, k);
    var semi := Gettoken(s, j);
    var rest := Parseline(s, semi.next);
    if rest.Panic? { return Panic; }
    r := Ok(List(c, rest.value), rest.i);
  }

  /** Parse the C string in buf and terminate its words in place. */
  method Parsecmd(buf: array<char>) returns (r: Result<Cmd<Span>>)
    requires buf.Length > 0 && buf[buf.Length - 1] == '\0' && NoNul(buf[..buf.Length - 1])
    modifies buf
    ensures r == ParseCmd(old(buf[..buf.Length - 1]))
    ensures r.Panic? ==> buf[..] == old(buf[..])
    ensures r.Ok? ==>
              forall w: Span :: WordOf(r.value, w) ==>
                w.0 <= buf.Length && CString(buf[..], w.0) == Slice(old(buf[..buf.Length - 1]), w)
  {
    var s := buf[..buf.Length - 1];
    var line := Parseline(s, 0);
    if line.Panic? { return Panic; }
    var none, i := PeekAt(s, line.i, "");
    if i != |s| { return Panic; }
    LineSpans(s, 0);
    SpansBounded(s, line.value);
    assert old(buf[..]) == s + ['\0'];
    Nulterminate(buf, line.value);
    forall w: Span | WordOf(line.value, w) ensures w.0 <= buf.Length && CString(buf[..], w.0) == Slice(s, w) {
      WordsReadBack(s, line.value, buf[..], w);
    }
    r := Ok(line.value, |s|);
  }
}
