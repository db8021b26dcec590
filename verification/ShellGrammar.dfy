/** The language that user/sh.c parses.

    A syntax tree is one way of writing a command: words and redirections of a simple
    command in any order, parentheses wherever they may stand, "|" binding tighter than
    "&", and "&" tighter than ";".  The parser accepts exactly the texts that spell a
    syntax tree, whatever their white space, and gives its meaning.
 */
module ShellGrammar {
  import opened Shell

  // ---- Tokens -----------------------------------------------------------

  /** A token as gettoken sees it: '+' stands for ">>". */
  datatype Lexeme = Sym(kind: char) | Name(word: string)

  /** A position behind white space. */
  predicate Plain(s: string, i: nat)
  {
    i <= |s| && !Ws(At(s, i))
  }

  ghost predicate TokenIs(s: string, i: nat, x: Lexeme)
    requires i <= |s|
  {
    var t := GetToken(s, i);
    match x
    case Sym(kind) => t.kind == kind && kind != 'a' && kind != '\0'
    case Name(word) => t.kind == 'a' && Slice(s, (t.q, t.eq)) == word
  }

  /** From i up to j the text consists of these tokens. */
  ghost predicate Spells(s: string, i: nat, j: nat, toks: seq<Lexeme>)
    decreases toks
  {
    && i <= |s|
    && if toks == [] then i == j else TokenIs(s, i, toks[0]) && Spells(s, GetToken(s, i).next, j, toks[1..])
  }

  lemma {:induction false} SpellsSplit(s: string, i: nat, j: nat, a: seq<Lexeme>, b: seq<Lexeme>) returns (k: nat)
    requires Spells(s, i, j, a + b) && Plain(s, i)
    ensures Spells(s, i, k, a) && Spells(s, k, j, b) && Plain(s, k) && i <= k && (a != [] ==> i < k)
    decreases a
  {
    if a == [] {
      assert a + b == b;
      k := i;
    } else {
      assert (a + b)[1..] == a[1..] + b && (a + b)[0] == a[0];
      k := SpellsSplit(s, GetToken(s, i).next, j, a[1..], b);
    }
  }

  lemma {:induction false} SpellsJoin(s: string, i: nat, k: nat, j: nat, a: seq<Lexeme>, b: seq<Lexeme>)
    requires Spells(s, i, k, a) && Spells(s, k, j, b)
    ensures Spells(s, i, j, a + b)
    decreases a
  {
    if a == [] {
      assert a + b == b;
    } else {
      assert (a + b)[1..] == a[1..] + b && (a + b)[0] == a[0];
      SpellsJoin(s, GetToken(s, i).next, k, j, a[1..], b);
    }
  }

  // ---- Syntax -----------------------------------------------------------

  datatype Item = Arg(word: string) | Red(file: string, mode: Mode)

  datatype Syntax =
    | Simple(items: seq<Item>)
    | Block(line: Syntax, reds: seq<(string, Mode)>)
    | Piped(left: Syntax, right: Syntax)
    | Behind(cmd: Syntax)
    | Listed(left: Syntax, right: Syntax)

  function Words(items: seq<Item>): (w: seq<string>)
  {
    if items == [] then [] else (if items[0].Arg? then [items[0].word] else []) + Words(items[1..])
  }

  function Reds(items: seq<Item>): (r: seq<(string, Mode)>)
  {
    if items == [] then [] else (if items[0].Red? then [(items[0].file, items[0].mode)] else []) + Reds(items[1..])
  }

  /** Levels: 0 a simple command or a block, 1 a pipeline, 2 one in the background, 3 a list. */
  predicate WellFormed(t: Syntax, level: nat)
  {
    match t
    case Simple(items) => |Words(items)| < MAXARGS
    case Block(line, reds) => WellFormed(line, 3)
    case Piped(l, r) => level >= 1 && WellFormed(l, 0) && WellFormed(r, 1)
    case Behind(c) => level >= 2 && WellFormed(c, 2)
    case Listed(l, r) => level >= 3 && WellFormed(l, 2) && WellFormed(r, 3)
  }

  function Meaning(t: Syntax): (c: Cmd<string>)
  {
    match t
    case Simple(items) => Wrap(Exec(Words(items)), Reds(items))
    case Block(line, reds) => Wrap(Meaning(line), reds)
    case Piped(l, r) => Pipe(Meaning(l), Meaning(r))
    case Behind(c) => Back(Meaning(c))
    case Listed(l, r) => List(Meaning(l), Meaning(r))
  }

  function ModeKind(mode: Mode): (k: char)
  {
    match mode
    case In => '<'
    case Out => '>'
    case Append => '+'
  }

  function ItemTokens(items: seq<Item>): (x: seq<Lexeme>)
  {
    if items == [] then []
    else (match items[0]
          case Arg(word) => [Name(word)]
          case Red(file, mode) => [Sym(ModeKind(mode)), Name(file)]) + ItemTokens(items[1..])
  }

  function RedItems(reds: seq<(string, Mode)>): (items: seq<Item>)
    ensures |items| == |reds|
  {
    seq(|reds|, i requires 0 <= i < |reds| => Red(reds[i].0, reds[i].1))
  }

  function Tokens(t: Syntax): (x: seq<Lexeme>)
  {
    match t
    case Simple(items) => ItemTokens(items)
    case Block(line, reds) => [Sym('(')] + (Tokens(line) + ([Sym(')')] + ItemTokens(RedItems(reds))))
    case Piped(l, r) => Tokens(l) + ([Sym('|')] + Tokens(r))
    case Behind(c) => Tokens(c) + [Sym('&')]
    case Listed(l, r) => Tokens(l) + ([Sym(';')] + Tokens(r))
  }

  // ---- Redirections and arguments ---------------------------------------

  function SliceReds(s: string, rs: Redirs): (r: seq<(string, Mode)>)
    ensures |r| == |rs|
  {
    seq(|rs|, i requires 0 <= i < |rs| => (Slice(s, rs[i].0), rs[i].1))
  }

  lemma {:induction false} TextWrap(s: string, c: Cmd<Span>, rs: Redirs)
    ensures Text(s, Wrap(c, rs)) == Wrap(Text(s, c), SliceReds(s, rs))
    decreases rs
  {
    if rs != [] {
      assert SliceReds(s, rs)[1..] == SliceReds(s, rs[1..]);
      TextWrap(s, Redir(c, rs[0].0, rs[0].1), rs[1..]);
    }
  }

  /** parseexec from a place where redirections may come, with what it has so far. */
  function Loop(s: string, args: seq<Span>, rs: Redirs, i: nat): (r: Result<Cmd<Span>>)
    requires i <= |s|
  {
    match RedirList(s, i)
    case Panic => Panic
    case Ok(more, j) => ArgLoop(s, args, rs + more, j)
  }

  /** What may follow a command of each level. */
  predicate Follows(s: string, j: nat, level: nat)
  {
    && Plain(s, j)
    && (j == |s| || s[j] == ')' || (level <= 2 && (s[j] == '&' || s[j] == ';')) || (level == 0 && s[j] == '|'))
  }

  lemma LoopEnd(s: string, args: seq<Span>, rs: Redirs, i: nat)
    requires NoNul(s) && Follows(s, i, 0)
    ensures Loop(s, args, rs, i) == Ok(Wrap(Exec(args), rs), i)
  {
    var none: Redirs := [];
    assert rs + none == rs;
  }

  lemma LoopRed(s: string, args: seq<Span>, rs: Redirs, i: nat, file: string, mode: Mode)
    requires Plain(s, i) && TokenIs(s, i, Sym(ModeKind(mode))) && TokenIs(s, GetToken(s, i).next, Name(file))
    ensures var t := GetToken(s, GetToken(s, i).next);
            Loop(s, args, rs, i) == Loop(s, args, rs + [((t.q, t.eq), mode)], t.next)
  {
    RedFirst(s, i, file, mode);
    hide RedirList;
    var t := GetToken(s, GetToken(s, i).next);
    match RedirList(s, t.next)
    case Panic =>
    case Ok(rest, j) => assert rs + ([((t.q, t.eq), mode)] + rest) == (rs + [((t.q, t.eq), mode)]) + rest;
  }

  lemma LoopArg(s: string, args: seq<Span>, rs: Redirs, i: nat, word: string)
    requires Plain(s, i) && TokenIs(s, i, Name(word)) && |args| + 1 < MAXARGS
    ensures var t := GetToken(s, i); Loop(s, args, rs, i) == Loop(s, args + [(t.q, t.eq)], rs, t.next)
  {
    var none: Redirs := [];
    assert rs + none == rs;
    assert RedirList(s, i) == Ok(none, i);
  }

  lemma SliceMore(s: string, args: seq<Span>, rs: Redirs, x: Span, mode: Mode)
    ensures SliceAll(s, args + [x]) == SliceAll(s, args) + [Slice(s, x)]
    ensures SliceReds(s, rs + [(x, mode)]) == SliceReds(s, rs) + [(Slice(s, x), mode)]
  {
  }

  /** What parseexec makes of the items it has seen and those that follow. */
  function Gathered(s: string, args: seq<Span>, rs: Redirs, items: seq<Item>): (c: Cmd<string>)
  {
    Wrap(Exec(SliceAll(s, args) + Words(items)), SliceReds(s, rs) + Reds(items))
  }

  lemma GatherNone(s: string, args: seq<Span>, rs: Redirs)
    ensures Gathered(s, args, rs, []) == Text(s, Wrap(Exec(args), rs))
  {
    TextWrap(s, Exec(args), rs);
    assert SliceAll(s, args) + [] == SliceAll(s, args) && SliceReds(s, rs) + [] == SliceReds(s, rs);
  }

  lemma GatherArg(s: string, args: seq<Span>, rs: Redirs, items: seq<Item>, x: Span)
    ensures Gathered(s, args + [x], rs, items) == Gathered(s, args, rs, [Arg(Slice(s, x))] + items)
    ensures |Words([Arg(Slice(s, x))] + items)| == 1 + |Words(items)|
  {
    SliceMore(s, args, rs, x, In);
    var all := [Arg(Slice(s, x))] + items;
    assert all[1..] == items;
    assert SliceAll(s, args) + Words(all) == (SliceAll(s, args) + [Slice(s, x)]) + Words(items);
    assert Reds(all) == Reds(items);
  }

  lemma GatherRed(s: string, args: seq<Span>, rs: Redirs, items: seq<Item>, x: Span, mode: Mode)
    ensures Gathered(s, args, rs + [(x, mode)], items) == Gathered(s, args, rs, [Red(Slice(s, x), mode)] + items)
    ensures Words([Red(Slice(s, x), mode)] + items) == Words(items)
  {
    SliceMore(s, args, rs, x, mode);
    var all := [Red(Slice(s, x), mode)] + items;
    assert all[1..] == items;
    assert SliceReds(s, rs) + Reds(all) == (SliceReds(s, rs) + [(Slice(s, x), mode)]) + Reds(items);
    assert Words(all) == Words(items);
  }

  /** A parse that ends at j and gives c. */
  ghost predicate Gives(s: string, r: Result<Cmd<Span>>, j: nat, c: Cmd<string>)
  {
    r.Ok? && r.i == j && Text(s, r.value) == c
  }

  /** Words and redirections in any order. */
  lemma {:induction false} ItemsParse(s: string, args: seq<Span>, rs: Redirs, i: nat, j: nat, items: seq<Item>)
    requires NoNul(s) && Plain(s, i) && Spells(s, i, j, ItemTokens(items)) && Follows(s, j, 0)
    requires |args| + |Words(items)| < MAXARGS
    ensures Gives(s, Loop(s, args, rs, i), j, Gathered(s, args, rs, items))
    decreases items
  {
    hide Loop, Gathered, GetToken, Slice;
    if items == [] {
      LoopEnd(s, args, rs, i);
      GatherNone(s, args, rs);
    } else {
      assert items == [items[0]] + items[1..];
      match items[0]
      case Arg(word) =>
        FirstToken(s, i, j, [Name(word)], ItemTokens(items[1..]));
        var t := GetToken(s, i);
        GatherArg(s, args, rs, items[1..], (t.q, t.eq));
        LoopArg(s, args, rs, i, word);
        NextPlain(s, i);
        ItemsParse(s, args + [(t.q, t.eq)], rs, t.next, j, items[1..]);
      case Red(file, mode) =>
        TwoTokens(s, i, j, Sym(ModeKind(mode)), Name(file), ItemTokens(items[1..]));
        var op := GetToken(s, i);
        var t := GetToken(s, op.next);
        GatherRed(s, args, rs, items[1..], (t.q, t.eq), mode);
        LoopRed(s, args, rs, i, file, mode);
        NextPlain(s, op.next);
        ItemsParse(s, args, rs + [((t.q, t.eq), mode)], t.next, j, items[1..]);
    }
  }

  lemma FirstToken(s: string, i: nat, j: nat, a: seq<Lexeme>, b: seq<Lexeme>)
    requires |a| == 1 && Spells(s, i, j, a + b)
    ensures TokenIs(s, i, a[0]) && Spells(s, GetToken(s, i).next, j, b)
  {
    assert (a + b)[1..] == b;
  }

  lemma TwoTokens(s: string, i: nat, j: nat, x: Lexeme, y: Lexeme, b: seq<Lexeme>)
    requires Spells(s, i, j, [x, y] + b)
    ensures TokenIs(s, i, x) && TokenIs(s, GetToken(s, i).next, y)
    ensures Spells(s, GetToken(s, GetToken(s, i).next).next, j, b)
  {
    assert [x, y] + b == [x] + ([y] + b);
    FirstToken(s, i, j, [x], [y] + b);
    FirstToken(s, GetToken(s, i).next, j, [y], b);
  }

  lemma NextPlain(s: string, i: nat)
    requires i <= |s|
    ensures Plain(s, GetToken(s, i).next)
  {
  }

  // ---- Every way of writing a command parses to it ----------------------

  /** The text at i has a token of this kind: peek finds it. */
  lemma SymPeek(s: string, i: nat, kind: char)
    requires Plain(s, i) && TokenIs(s, i, Sym(kind)) && kind != '+'
    ensures i < |s| && s[i] == kind && kind != '\0'
    ensures forall toks: string :: Peek(s, i, toks) <==> kind in toks
  {
  }

  lemma SimpleParse(s: string, i: nat, j: nat, items: seq<Item>)
    requires NoNul(s) && Plain(s, i) && Spells(s, i, j, ItemTokens(items)) && Follows(s, j, 0) &&
               |Words(items)| < MAXARGS
    ensures Gives(s, ParseExec(s, i), j, Meaning(Simple(items)))
  {
    var none: Redirs := [];
    ItemsParse(s, [], none, i, j, items);
    assert SliceAll(s, []) + Words(items) == Words(items) && SliceReds(s, none) + Reds(items) == Reds(items);
    NotOpen(s, i, j, items);
    match RedirList(s, i)
    case Panic =>
    case Ok(more, k) => assert none + more == more;
  }

  lemma NotOpen(s: string, i: nat, j: nat, items: seq<Item>)
    requires Plain(s, i) && Spells(s, i, j, ItemTokens(items)) && Follows(s, j, 0)
    ensures !Peek(s, i, "(")
  {
    if items != [] {
      match items[0]
      case Arg(word) => FirstToken(s, i, j, [Name(word)], ItemTokens(items[1..]));
      case Red(file, mode) => TwoTokens(s, i, j, Sym(ModeKind(mode)), Name(file), ItemTokens(items[1..]));
    }
  }

  lemma {:induction false} RedsParse(s: string, i: nat, j: nat, reds: seq<(string, Mode)>)
    requires Plain(s, i) && Spells(s, i, j, ItemTokens(RedItems(reds))) && Follows(s, j, 0)
    ensures var r := RedirList(s, i); r.Ok? && r.i == j && SliceReds(s, r.value) == reds
    decreases reds
  {
    if reds != [] {
      hide GetToken, RedirList, Slice, SliceReds, RedItems, ItemTokens, Spells;
      RedTokens(reds);
      TwoTokens(s, i, j, Sym(ModeKind(reds[0].1)), Name(reds[0].0), ItemTokens(RedItems(reds[1..])));
      var op := GetToken(s, i);
      var t := GetToken(s, op.next);
      NextPlain(s, op.next);
      RedsParse(s, t.next, j, reds[1..]);
      RedFirst(s, i, reds[0].0, reds[0].1);
      SliceCons(s, ((t.q, t.eq), reds[0].1), RedirList(s, t.next).value);
      assert reds == [reds[0]] + reds[1..];
    }
  }

  lemma RedTokens(reds: seq<(string, Mode)>)
    requires reds != []
    ensures ItemTokens(RedItems(reds)) ==
            [Sym(ModeKind(reds[0].1)), Name(reds[0].0)] + ItemTokens(RedItems(reds[1..]))
  {
    assert RedItems(reds)[1..] == RedItems(reds[1..]);
  }

  lemma SliceCons(s: string, x: (Span, Mode), rest: Redirs)
    ensures SliceReds(s, [x] + rest) == [(Slice(s, x.0), x.1)] + SliceReds(s, rest)
  {
  }

  lemma RedFirst(s: string, i: nat, file: string, mode: Mode)
    requires Plain(s, i) && TokenIs(s, i, Sym(ModeKind(mode))) && TokenIs(s, GetToken(s, i).next, Name(file))
    ensures var t := GetToken(s, GetToken(s, i).next);
            RedirList(s, i) == match RedirList(s, t.next)
                               case Panic => Panic
                               case Ok(rest, j) => Ok([((t.q, t.eq), mode)] + rest, j)
  {
  }

  /** "(" at i, a line up to ")" at k, and redirections. */
  lemma BlockJoin(s: string, i: nat, k: nat, j: nat, c: Cmd<string>, reds: seq<(string, Mode)>)
    requires Plain(s, i) && TokenIs(s, i, Sym('(')) && Gives(s, ParseLine(s, GetToken(s, i).next), k, c)
    requires Plain(s, k) && TokenIs(s, k, Sym(')'))
    requires var r := RedirList(s, GetToken(s, k).next); r.Ok? && r.i == j && SliceReds(s, r.value) == reds
    ensures Gives(s, ParseExec(s, i), j, Wrap(c, reds))
  {
    SymPeek(s, i, '(');
    SymPeek(s, k, ')');
    hide Peek, GetToken, ParseLine, RedirList, Wrap;
    TextWrap(s, ParseLine(s, GetToken(s, i).next).value, RedirList(s, GetToken(s, k).next).value);
  }

  lemma {:induction false} BlockParse(s: string, i: nat, j: nat, line: Syntax, reds: seq<(string, Mode)>)
    requires NoNul(s) && Plain(s, i) && Spells(s, i, j, Tokens(Block(line, reds))) && Follows(s, j, 0) &&
               WellFormed(line, 3)
    ensures Gives(s, ParseExec(s, i), j, Wrap(Meaning(line), reds))
    decreases Block(line, reds), 0
  {
    hide ParseExec, ParseLine, Spells, GetToken, RedirList, Gives;
    var tail := ItemTokens(RedItems(reds));
    FirstToken(s, i, j, [Sym('(')], Tokens(line) + ([Sym(')')] + tail));
    NextPlain(s, i);
    var k := SpellsSplit(s, GetToken(s, i).next, j, Tokens(line), [Sym(')')] + tail);
    FirstToken(s, k, j, [Sym(')')], tail);
    SymPeek(s, k, ')');
    NextPlain(s, k);
    LineParse(s, GetToken(s, i).next, k, line);
    RedsParse(s, GetToken(s, k).next, j, reds);
    BlockJoin(s, i, k, j, Meaning(line), reds);
  }

  lemma {:induction false} ExecParse(s: string, i: nat, j: nat, t: Syntax)
    requires NoNul(s) && Plain(s, i) && Spells(s, i, j, Tokens(t)) && Follows(s, j, 0) && WellFormed(t, 0)
    ensures Gives(s, ParseExec(s, i), j, Meaning(t))
    decreases t, 1
  {
    match t
    case Simple(items) => SimpleParse(s, i, j, items);
    case Block(line, reds) => BlockParse(s, i, j, line, reds);
  }

  lemma PipeAlone(s: string, i: nat, j: nat, c: Cmd<string>)
    requires i <= |s| && Gives(s, ParseExec(s, i), j, c) && Follows(s, j, 1)
    ensures Gives(s, ParsePipe(s, i), j, c)
  {
  }

  lemma PipeJoin(s: string, i: nat, k: nat, j: nat, l: Cmd<string>, r: Cmd<string>)
    requires i <= |s| && Gives(s, ParseExec(s, i), k, l) && Plain(s, k) && TokenIs(s, k, Sym('|'))
    requires Gives(s, ParsePipe(s, GetToken(s, k).next), j, r)
    ensures Gives(s, ParsePipe(s, i), j, Pipe(l, r))
  {
    SymPeek(s, k, '|');
  }

  lemma {:induction false} PipeParse(s: string, i: nat, j: nat, t: Syntax)
    requires NoNul(s) && Plain(s, i) && Spells(s, i, j, Tokens(t)) && Follows(s, j, 1) && WellFormed(t, 1)
    ensures Gives(s, ParsePipe(s, i), j, Meaning(t))
    decreases t, 2
  {
    hide Spells, ParseExec, ParsePipe, GetToken, Gives;
    if t.Piped? {
      var k := SpellsSplit(s, i, j, Tokens(t.left), [Sym('|')] + Tokens(t.right));
      FirstToken(s, k, j, [Sym('|')], Tokens(t.right));
      SymPeek(s, k, '|');
      NextPlain(s, k);
      ExecParse(s, i, k, t.left);
      PipeParse(s, GetToken(s, k).next, j, t.right);
      PipeJoin(s, i, k, j, Meaning(t.left), Meaning(t.right));
    } else {
      ExecParse(s, i, j, t);
      PipeAlone(s, i, j, Meaning(t));
    }
  }

  /** The loop of parseline over "&" gets to position j with x. */
  ghost predicate Reaches(s: string, i: nat, j: nat, x: Cmd<Span>, c: Cmd<string>)
    requires i <= |s| && j <= |s|
  {
    var p := ParsePipe(s, i);
    p.Ok? && BackLoop(s, p.value, p.i) == BackLoop(s, x, j) && Text(s, x) == c
  }

  lemma ReachMore(s: string, i: nat, k: nat, x: Cmd<Span>, c: Cmd<string>)
    requires i <= |s| && Plain(s, k) && TokenIs(s, k, Sym('&')) && Reaches(s, i, k, x, c)
    ensures Reaches(s, i, GetToken(s, k).next, Back(x), Back(c))
  {
    SymPeek(s, k, '&');
    hide ParsePipe;
  }

  lemma {:induction false} BackParse(s: string, i: nat, j: nat, t: Syntax) returns (x: Cmd<Span>)
    requires NoNul(s) && Plain(s, i) && Spells(s, i, j, Tokens(t)) && Follows(s, j, 2) && WellFormed(t, 2)
    ensures Reaches(s, i, j, x, Meaning(t))
    decreases t, 3
  {
    if t.Behind? {
      var k := SpellsSplit(s, i, j, Tokens(t.cmd), [Sym('&')]);
      assert [Sym('&')] + [] == [Sym('&')];
      FirstToken(s, k, j, [Sym('&')], []);
      SymPeek(s, k, '&');
      hide Reaches, ParsePipe, BackLoop;
      x := BackParse(s, i, k, t.cmd);
      ReachMore(s, i, k, x, Meaning(t.cmd));
      x := Back(x);
    } else {
      PipeParse(s, i, j, t);
      x := ParsePipe(s, i).value;
    }
  }

  lemma LineAlone(s: string, i: nat, j: nat, x: Cmd<Span>, c: Cmd<string>)
    requires i <= |s| && Follows(s, j, 3) && Reaches(s, i, j, x, c)
    ensures Gives(s, ParseLine(s, i), j, c)
  {
    hide ParsePipe;
  }

  lemma LineJoin(s: string, i: nat, k: nat, j: nat, x: Cmd<Span>, l: Cmd<string>, r: Cmd<string>)
    requires i <= |s| && Plain(s, k) && TokenIs(s, k, Sym(';')) && Reaches(s, i, k, x, l)
    requires Gives(s, ParseLine(s, GetToken(s, k).next), j, r)
    ensures Gives(s, ParseLine(s, i), j, List(l, r))
  {
    SymPeek(s, k, ';');
    hide ParsePipe;
  }

  lemma {:induction false} LineParse(s: string, i: nat, j: nat, t: Syntax)
    requires NoNul(s) && Plain(s, i) && Spells(s, i, j, Tokens(t)) && Follows(s, j, 3) && WellFormed(t, 3)
    ensures Gives(s, ParseLine(s, i), j, Meaning(t))
    decreases t, 4
  {
    hide Spells, ParseLine, Reaches, GetToken, Gives;
    if t.Listed? {
      var k := SpellsSplit(s, i, j, Tokens(t.left), [Sym(';')] + Tokens(t.right));
      FirstToken(s, k, j, [Sym(';')], Tokens(t.right));
      SymPeek(s, k, ';');
      NextPlain(s, k);
      var x := BackParse(s, i, k, t.left);
      LineParse(s, GetToken(s, k).next, j, t.right);
      LineJoin(s, i, k, j, x, Meaning(t.left), Meaning(t.right));
    } else {
      var x := BackParse(s, i, j, t);
      LineAlone(s, i, j, x, Meaning(t));
    }
  }

  /** Leading white space makes no difference. */
  lemma SkipFirst(s: string, i: nat)
    requires i <= |s|
    ensures ParseLine(s, i) == ParseLine(s, SkipWs(s, i))
  {
    SkipTwice(s, i);
    hide GetToken, Peek, SkipWs;
    var j := SkipWs(s, i);
    assert RedirList(s, i) == RedirList(s, j);
    assert ParseBlock(s, i) == ParseBlock(s, j);
    assert ParseExec(s, i) == ParseExec(s, j);
    assert ParsePipe(s, i) == ParsePipe(s, j);
  }

  /** A text that spells a syntax tree parses to its meaning. */
  lemma WritingParses(s: string, t: Syntax)
    requires NoNul(s) && WellFormed(t, 3) && Spells(s, SkipWs(s, 0), |s|, Tokens(t))
    ensures var r := ParseCmd(s); r.Ok? && Text(s, r.value) == Meaning(t)
  {
    hide ParseLine, Spells;
    SkipTwice(s, 0);
    LineParse(s, SkipWs(s, 0), |s|, t);
    SkipFirst(s, 0);
  }

  // ---- Every text that parses is a way of writing a command -------------

  /** What the parser took from i on spells t and means the same. */
  ghost predicate Found(s: string, i: nat, r: Result<Cmd<Span>>, t: Syntax, level: nat)
  {
    r.Ok? && Plain(s, r.i) && Spells(s, i, r.i, Tokens(t)) && WellFormed(t, level) && Text(s, r.value) == Meaning(t)
  }

  ghost predicate ItemsAt(s: string, args: seq<Span>, rs: Redirs, i: nat, items: seq<Item>)
    requires i <= |s|
  {
    var r := Loop(s, args, rs, i);
    && r.Ok? && Plain(s, r.i) && Spells(s, i, r.i, ItemTokens(items))
    && |args| + |Words(items)| < MAXARGS && Text(s, r.value) == Gathered(s, args, rs, items)
  }

  /** The redirection at i, which the parser has accepted. */
  lemma RedAt(s: string, i: nat) returns (mode: Mode)
    requires Plain(s, i) && RedirList(s, i).Ok? && Peek(s, i, "<>")
    ensures var t := GetToken(s, GetToken(s, i).next);
            TokenIs(s, i, Sym(ModeKind(mode))) && TokenIs(s, GetToken(s, i).next, Name(Slice(s, (t.q, t.eq))))
  {
    var op := GetToken(s, i);
    mode := if op.kind == '<' then In else if op.kind == '>' then Out else Append;
  }

  lemma {:induction false} ItemsFound(s: string, args: seq<Span>, rs: Redirs, i: nat) returns (items: seq<Item>)
    requires NoNul(s) && Plain(s, i) && Loop(s, args, rs, i).Ok? && |args| < MAXARGS
    ensures ItemsAt(s, args, rs, i, items)
    decreases |s| - i
  {
    if Peek(s, i, "<>") {
      var mode := RedAt(s, i);
      var op := GetToken(s, i);
      var t := GetToken(s, op.next);
      LoopRed(s, args, rs, i, Slice(s, (t.q, t.eq)), mode);
      NextPlain(s, op.next);
      hide Loop, Gathered, GetToken, Slice, RedirList;
      var rest := ItemsFound(s, args, rs + [((t.q, t.eq), mode)], t.next);
      items := [Red(Slice(s, (t.q, t.eq)), mode)] + rest;
      RedBefore(s, args, rs, i, rest, mode);
    } else if GetToken(s, i).kind == 'a' {
      var t := GetToken(s, i);
      FewArgs(s, args, rs, i);
      LoopArg(s, args, rs, i, Slice(s, (t.q, t.eq)));
      NextPlain(s, i);
      hide Loop, Gathered, GetToken, Slice, RedirList;
      var rest := ItemsFound(s, args + [(t.q, t.eq)], rs, t.next);
      items := [Arg(Slice(s, (t.q, t.eq)))] + rest;
      ArgBefore(s, args, rs, i, rest);
    } else {
      LoopStops(s, args, rs, i);
      GatherNone(s, args, rs);
      items := [];
    }
  }

  lemma FewArgs(s: string, args: seq<Span>, rs: Redirs, i: nat)
    requires Plain(s, i) && Loop(s, args, rs, i).Ok? && GetToken(s, i).kind == 'a'
    ensures |args| + 1 < MAXARGS
  {
    var none: Redirs := [];
    assert RedirList(s, i) == Ok(none, i);
    assert ArgLoop(s, args, rs + none, i).Ok?;
  }

  lemma LoopStops(s: string, args: seq<Span>, rs: Redirs, i: nat)
    requires Plain(s, i) && Loop(s, args, rs, i).Ok? && GetToken(s, i).kind != 'a' && !Peek(s, i, "<>")
    ensures Loop(s, args, rs, i) == Ok(Wrap(Exec(args), rs), i)
  {
    var none: Redirs := [];
    assert RedirList(s, i) == Ok(none, i);
    assert rs + none == rs;
  }

  lemma RedBefore(s: string, args: seq<Span>, rs: Redirs, i: nat, rest: seq<Item>, mode: Mode)
    requires Plain(s, i) && TokenIs(s, i, Sym(ModeKind(mode)))
    requires var t := GetToken(s, GetToken(s, i).next);
             && TokenIs(s, GetToken(s, i).next, Name(Slice(s, (t.q, t.eq))))
             && Loop(s, args, rs, i) == Loop(s, args, rs + [((t.q, t.eq), mode)], t.next)
             && ItemsAt(s, args, rs + [((t.q, t.eq), mode)], t.next, rest)
    ensures var t := GetToken(s, GetToken(s, i).next);
            ItemsAt(s, args, rs, i, [Red(Slice(s, (t.q, t.eq)), mode)] + rest)
  {
    hide Loop, Gathered, GetToken, Slice;
    var t := GetToken(s, GetToken(s, i).next);
    var j, name := Loop(s, args, rs, i).i, Slice(s, (t.q, t.eq));
    GatherRed(s, args, rs, rest, (t.q, t.eq), mode);
    var all := [Red(name, mode)] + rest;
    assert all[1..] == rest;
    SpellsTwo(s, i, j, Sym(ModeKind(mode)), Name(name), ItemTokens(rest));
  }

  lemma SpellsTwo(s: string, i: nat, j: nat, x: Lexeme, y: Lexeme, rest: seq<Lexeme>)
    requires i <= |s| && TokenIs(s, i, x) && TokenIs(s, GetToken(s, i).next, y)
    requires Spells(s, GetToken(s, GetToken(s, i).next).next, j, rest)
    ensures Spells(s, i, j, [x, y] + rest)
  {
    SpellsOne(s, GetToken(s, i).next, j, y, rest);
    SpellsOne(s, i, j, x, [y] + rest);
    assert [x, y] + rest == [x] + ([y] + rest);
  }

  lemma SpellsOne(s: string, i: nat, j: nat, x: Lexeme, rest: seq<Lexeme>)
    requires i <= |s| && TokenIs(s, i, x) && Spells(s, GetToken(s, i).next, j, rest)
    ensures Spells(s, i, j, [x] + rest)
  {
    assert ([x] + rest)[1..] == rest;
  }

  lemma ArgBefore(s: string, args: seq<Span>, rs: Redirs, i: nat, rest: seq<Item>)
    requires Plain(s, i)
    requires var t := GetToken(s, i);
             && TokenIs(s, i, Name(Slice(s, (t.q, t.eq))))
             && Loop(s, args, rs, i) == Loop(s, args + [(t.q, t.eq)], rs, t.next)
             && ItemsAt(s, args + [(t.q, t.eq)], rs, t.next, rest)
    ensures var t := GetToken(s, i); ItemsAt(s, args, rs, i, [Arg(Slice(s, (t.q, t.eq)))] + rest)
  {
    hide Loop, Gathered, GetToken, Slice;
    var t := GetToken(s, i);
    var j, name := Loop(s, args, rs, i).i, Slice(s, (t.q, t.eq));
    GatherArg(s, args, rs, rest, (t.q, t.eq));
    var all := [Arg(name)] + rest;
    assert all[1..] == rest;
    SpellsOne(s, i, j, Name(name), ItemTokens(rest));
  }

  lemma {:induction false} RedsFound(s: string, i: nat)
    requires Plain(s, i) && RedirList(s, i).Ok?
    ensures var r := RedirList(s, i);
            Plain(s, r.i) && Spells(s, i, r.i, ItemTokens(RedItems(SliceReds(s, r.value))))
    decreases |s| - i
  {
    var r := RedirList(s, i);
    if Peek(s, i, "<>") {
      var mode := RedAt(s, i);
      var op := GetToken(s, i);
      var t := GetToken(s, op.next);
      var name := Slice(s, (t.q, t.eq));
      RedFirst(s, i, name, mode);
      NextPlain(s, op.next);
      hide GetToken, RedirList, Slice, SliceReds, RedItems, ItemTokens, Spells;
      RedsFound(s, t.next);
      var rest := RedirList(s, t.next).value;
      SliceCons(s, ((t.q, t.eq), mode), rest);
      var reds := SliceReds(s, r.value);
      assert reds[1..] == SliceReds(s, rest);
      RedTokens(reds);
      SpellsTwo(s, i, r.i, Sym(ModeKind(mode)), Name(name), ItemTokens(RedItems(reds[1..])));
    }
  }

  /** A symbol that peek has found. */
  lemma PeekSym(s: string, i: nat, kind: char)
    requires Plain(s, i) && Peek(s, i, [kind]) && kind in "|&;()"
    ensures TokenIs(s, i, Sym(kind))
  {
  }

  lemma SimpleFound(s: string, i: nat) returns (t: Syntax)
    requires NoNul(s) && Plain(s, i) && !Peek(s, i, "(") && ParseExec(s, i).Ok?
    ensures Found(s, i, ParseExec(s, i), t, 0)
  {
    var none: Redirs := [];
    assert Loop(s, [], none, i) == ParseExec(s, i) by {
      match RedirList(s, i)
      case Panic =>
      case Ok(more, k) => assert none + more == more;
    }
    hide Loop, Spells, ParseExec;
    var items := ItemsFound(s, [], none, i);
    assert SliceAll(s, []) + Words(items) == Words(items) && SliceReds(s, none) + Reds(items) == Reds(items);
    t := Simple(items);
  }

  lemma BlockSpelt(s: string, i: nat, line: Syntax)
    requires Plain(s, i) && Peek(s, i, "(") && ParseExec(s, i).Ok?
    requires Found(s, GetToken(s, i).next, ParseLine(s, GetToken(s, i).next), line, 3)
    ensures var k := ParseLine(s, GetToken(s, i).next).i;
            k <= |s| && RedirList(s, GetToken(s, k).next).Ok? &&
            Found(s, i, ParseExec(s, i), Block(line, SliceReds(s, RedirList(s, GetToken(s, k).next).value)), 0)
  {
    PeekSym(s, i, '(');
    var open := GetToken(s, i).next;
    var k := ParseLine(s, open).i;
    assert Peek(s, k, ")") && RedirList(s, GetToken(s, k).next).Ok?;
    PeekSym(s, k, ')');
    var close := GetToken(s, k).next;
    NextPlain(s, k);
    RedsFound(s, close);
    var r := RedirList(s, close);
    assert ParseExec(s, i) == Ok(Wrap(ParseLine(s, open).value, r.value), r.i);
    hide Peek, GetToken, ParseLine, RedirList, Wrap, Spells;
    TextWrap(s, ParseLine(s, open).value, r.value);
    var reds := SliceReds(s, r.value);
    SpellsOne(s, k, r.i, Sym(')'), ItemTokens(RedItems(reds)));
    SpellsJoin(s, open, k, r.i, Tokens(line), [Sym(')')] + ItemTokens(RedItems(reds)));
    SpellsOne(s, i, r.i, Sym('('), Tokens(line) + ([Sym(')')] + ItemTokens(RedItems(reds))));
  }

  lemma {:induction false} ExecFound(s: string, i: nat) returns (t: Syntax)
    requires NoNul(s) && Plain(s, i) && ParseExec(s, i).Ok?
    ensures Found(s, i, ParseExec(s, i), t, 0)
    decreases |s| - i, 0
  {
    if Peek(s, i, "(") {
      NextPlain(s, i);
      PeekSym(s, i, '(');
      var open := GetToken(s, i).next;
      assert ParseLine(s, open).Ok? && i < open;
      hide ParseExec, ParseLine, Found;
      var line := LineFound(s, open);
      BlockSpelt(s, i, line);
      t := Block(line, SliceReds(s, RedirList(s, GetToken(s, ParseLine(s, open).i).next).value));
    } else {
      t := SimpleFound(s, i);
    }
  }

  lemma PipeSpelt(s: string, i: nat, l: Syntax, r: Syntax)
    requires i <= |s| && Found(s, i, ParseExec(s, i), l, 0) && Peek(s, ParseExec(s, i).i, "|")
    requires Found(s, GetToken(s, ParseExec(s, i).i).next, ParsePipe(s, GetToken(s, ParseExec(s, i).i).next), r, 1)
    ensures Found(s, i, ParsePipe(s, i), Piped(l, r), 1)
  {
    var k := ParseExec(s, i).i;
    PeekSym(s, k, '|');
    var next := GetToken(s, k).next;
    var j := ParsePipe(s, next).i;
    hide Spells, ParseExec, GetToken;
    SpellsOne(s, k, j, Sym('|'), Tokens(r));
    SpellsJoin(s, i, k, j, Tokens(l), [Sym('|')] + Tokens(r));
  }

  lemma {:induction false} PipeFound(s: string, i: nat) returns (t: Syntax)
    requires NoNul(s) && Plain(s, i) && ParsePipe(s, i).Ok?
    ensures Found(s, i, ParsePipe(s, i), t, 1)
    decreases |s| - i, 1
  {
    var l := ExecFound(s, i);
    var k := ParseExec(s, i).i;
    if Peek(s, k, "|") {
      NextPlain(s, k);
      PeekSym(s, k, '|');
      var next := GetToken(s, k).next;
      assert ParsePipe(s, next).Ok? && i <= k < next;
      hide ParsePipe, ParseExec, Found;
      var r := PipeFound(s, next);
      PipeSpelt(s, i, l, r);
      t := Piped(l, r);
    } else {
      assert ParsePipe(s, i) == ParseExec(s, i);
      Deeper(l, 0, 1);
      t := l;
    }
  }

  lemma Deeper(t: Syntax, level: nat, more: nat)
    requires WellFormed(t, level) && level <= more
    ensures WellFormed(t, more)
  {
  }

  lemma SpellsAnd(s: string, i: nat, k: nat, a: seq<Lexeme>)
    requires k <= |s| && Spells(s, i, k, a) && TokenIs(s, k, Sym('&'))
    ensures Spells(s, i, GetToken(s, k).next, a + [Sym('&')])
  {
    SpellsOne(s, k, GetToken(s, k).next, Sym('&'), []);
    assert [Sym('&')] + [] == [Sym('&')];
    SpellsJoin(s, i, k, GetToken(s, k).next, a, [Sym('&')]);
  }

  lemma {:induction false} BackFound(s: string, i: nat, t0: Syntax, c: Cmd<Span>, k: nat) returns (t: Syntax)
    requires i <= |s| && Found(s, i, Ok(c, k), t0, 2)
    ensures var (d, j) := BackLoop(s, c, k); Found(s, i, Ok(d, j), t, 2)
    decreases |s| - k
  {
    if Peek(s, k, "&") {
      PeekSym(s, k, '&');
      NextPlain(s, k);
      var next := GetToken(s, k).next;
      hide Spells, GetToken;
      SpellsAnd(s, i, k, Tokens(t0));
      t := BackFound(s, i, Behind(t0), Back(c), next);
    } else {
      t := t0;
    }
  }

  lemma LineUnfold(s: string, i: nat)
    requires i <= |s| && ParsePipe(s, i).Ok?
    ensures var p := ParsePipe(s, i);
            var (c, k) := BackLoop(s, p.value, p.i);
            Peek(s, k, ";") ==> ParseLine(s, i) == match ParseLine(s, GetToken(s, k).next)
                                                   case Panic => Panic
                                                   case Ok(d, j) => Ok(List(c, d), j)
  {
    hide ParsePipe, BackLoop, Peek, GetToken;
  }

  lemma LineSpelt(s: string, i: nat, c: Cmd<Span>, k: nat, l: Syntax, r: Syntax)
    requires i <= |s| && Found(s, i, Ok(c, k), l, 2) && Peek(s, k, ";")
    requires var p := ParsePipe(s, i); p.Ok? && BackLoop(s, p.value, p.i) == (c, k)
    requires Found(s, GetToken(s, k).next, ParseLine(s, GetToken(s, k).next), r, 3)
    ensures Found(s, i, ParseLine(s, i), Listed(l, r), 3)
  {
    PeekSym(s, k, ';');
    LineUnfold(s, i);
    var rest := ParseLine(s, GetToken(s, k).next);
    assert rest.Ok?;
    hide ParsePipe, ParseLine, GetToken, BackLoop, Peek, TokenIs, Found;
    ListFound(s, i, k, c, l, rest.i, rest.value, r);
  }

  lemma ListFound(s: string, i: nat, k: nat, c: Cmd<Span>, l: Syntax, j: nat, d: Cmd<Span>, r: Syntax)
    requires Found(s, i, Ok(c, k), l, 2) && TokenIs(s, k, Sym(';')) && Found(s, GetToken(s, k).next, Ok(d, j), r, 3)
    ensures Found(s, i, Ok(List(c, d), j), Listed(l, r), 3)
  {
    hide Spells, GetToken, TokenIs;
    SpellsOne(s, k, j, Sym(';'), Tokens(r));
    SpellsJoin(s, i, k, j, Tokens(l), [Sym(';')] + Tokens(r));
  }

  lemma {:induction false} LineFound(s: string, i: nat) returns (t: Syntax)
    requires NoNul(s) && Plain(s, i) && ParseLine(s, i).Ok?
    ensures Found(s, i, ParseLine(s, i), t, 3)
    decreases |s| - i, 2
  {
    var p := ParsePipe(s, i);
    var first := PipeFound(s, i);
    Deeper(first, 1, 2);
    var l := BackFound(s, i, first, p.value, p.i);
    var (c, k) := BackLoop(s, p.value, p.i);
    if Peek(s, k, ";") {
      NextPlain(s, k);
      PeekSym(s, k, ';');
      var next := GetToken(s, k).next;
      assert ParseLine(s, next).Ok? && i <= k < next;
      hide ParsePipe, ParseLine, Found, BackLoop;
      var r := LineFound(s, next);
      LineSpelt(s, i, c, k, l, r);
      t := Listed(l, r);
    } else {
      assert ParseLine(s, i) == Ok(c, k);
      Deeper(l, 2, 3);
      t := l;
    }
  }

  /** A text that parses spells a syntax tree whose meaning is the result. */
  lemma ParsedIsWritten(s: string) returns (t: Syntax)
    requires NoNul(s) && ParseCmd(s).Ok?
    ensures WellFormed(t, 3) && Spells(s, SkipWs(s, 0), |s|, Tokens(t))
    ensures Text(s, ParseCmd(s).value) == Meaning(t)
  {
    SkipTwice(s, 0);
    SkipFirst(s, 0);
    hide ParseLine;
    t := LineFound(s, SkipWs(s, 0));
  }

  ghost predicate Writes(s: string, t: Syntax)
  {
    WellFormed(t, 3) && Spells(s, SkipWs(s, 0), |s|, Tokens(t))
  }

  /** The parser accepts the language of syntax trees and nothing else, and no text has two meanings. */
  lemma AcceptsExactly(s: string)
    requires NoNul(s)
    ensures ParseCmd(s).Ok? <==> exists t :: Writes(s, t)
    ensures forall t, u :: Writes(s, t) && Writes(s, u) ==> Meaning(t) == Meaning(u)
  {
    hide ParseCmd;
    if ParseCmd(s).Ok? {
      var t := ParsedIsWritten(s);
      assert Writes(s, t);
    }
    forall t | Writes(s, t)
      ensures ParseCmd(s).Ok? && Text(s, ParseCmd(s).value) == Meaning(t)
    {
      WritingParses(s, t);
    }
  }

  // ---- Writing a command down -------------------------------------------

  predicate Word(w: string)
  {
    |w| > 0 && forall k :: 0 <= k < |w| ==> WordChar(w[k])
  }

  predicate Legible(x: Lexeme)
  {
    match x
    case Sym(kind) => kind == '+' || Symbol(kind)
    case Name(word) => Word(word)
  }

  function LexText(x: Lexeme): (t: string)
  {
    match x
    case Sym(kind) => if kind == '+' then ">>" else [kind]
    case Name(word) => word
  }

  /** Every token with a space behind it. */
  function Render(toks: seq<Lexeme>): (t: string)
  {
    if toks == [] then "" else LexText(toks[0]) + " " + Render(toks[1..])
  }

  lemma {:induction false} WordEndIs(s: string, i: nat, e: nat)
    requires i <= e < |s| && (forall k :: i <= k < e ==> WordChar(s[k])) && s[e] == ' '
    ensures WordEnd(s, i) == e
    decreases e - i
  {
    if i < e { WordEndIs(s, i + 1, e); }
  }

  /** One token of the rendered text. */
  lemma RenderedToken(s: string, i: nat, x: Lexeme)
    requires Legible(x) && i + |LexText(x)| < |s|
    requires s[i..i + |LexText(x)|] == LexText(x) && s[i + |LexText(x)|] == ' ' && Plain(s, i + |LexText(x)| + 1)
    ensures Plain(s, i) && TokenIs(s, i, x) && GetToken(s, i).next == i + |LexText(x)| + 1
  {
    var e := i + |LexText(x)|;
    forall k | i <= k < e ensures s[k] == LexText(x)[k - i] { assert s[k] == s[i..e][k - i]; }
    assert SkipWs(s, e) == e + 1;
    if x.Name? { WordEndIs(s, i, e); }
  }

  lemma {:induction false} Rendered(s: string, i: nat, toks: seq<Lexeme>)
    requires i <= |s| && s[i..] == Render(toks) && forall x :: x in toks ==> Legible(x)
    ensures Plain(s, i) && Spells(s, i, |s|, toks)
    decreases toks
  {
    if toks != [] {
      var x, rest := LexText(toks[0]), Render(toks[1..]);
      assert s[i..] == x + " " + rest;
      assert s[i..i + |x|] == x by { assert s[i..][..|x|] == x; }
      assert s[i + |x|] == ' ' by { assert s[i..][|x|] == ' '; }
      assert s[i + |x| + 1..] == rest by { assert s[i..][|x| + 1..] == rest; }
      Rendered(s, i + |x| + 1, toks[1..]);
      RenderedToken(s, i, toks[0]);
    }
  }

  lemma {:induction false} RenderedNoNul(toks: seq<Lexeme>)
    requires forall x :: x in toks ==> Legible(x)
    ensures NoNul(Render(toks))
    decreases toks
  {
    if toks != [] {
      RenderedNoNul(toks[1..]);
      assert Legible(toks[0]);
    }
  }

  /** Commands that can be written down: fewer than MAXARGS words each, and words without odd characters. */
  predicate Printable(c: Cmd<string>)
  {
    match c
    case Exec(args) => |args| < MAXARGS && forall i :: 0 <= i < |args| ==> Word(args[i])
    case Redir(d, file, mode) => Printable(d) && Word(file)
    case Pipe(l, r) => Printable(l) && Printable(r)
    case List(l, r) => Printable(l) && Printable(r)
    case Back(d) => Printable(d)
  }

  function Level(c: Cmd<string>): (n: nat)
  {
    match c
    case Exec(args) => 0
    case Redir(d, file, mode) => 0
    case Pipe(l, r) => 1
    case Back(d) => 2
    case List(l, r) => 3
  }

  /** One more redirection behind a simple command or a block. */
  function AddRed(t: Syntax, file: string, mode: Mode): (u: Syntax)
  {
    match t
    case Simple(items) => Simple(items + [Red(file, mode)])
    case Block(line, reds) => Block(line, reds + [(file, mode)])
    case _ => Block(t, [(file, mode)])
  }

  function Args(args: seq<string>): (items: seq<Item>)
    ensures |items| == |args|
  {
    seq(|args|, i requires 0 <= i < |args| => Arg(args[i]))
  }

  /** A syntax tree for a command: with parentheses only where a part's level calls for
      them, or around every part. */
  function Tree(c: Cmd<string>, boxed: bool): (t: Syntax)
    decreases c, 0
  {
    match c
    case Exec(args) => Simple(Args(args))
    case Redir(d, file, mode) => AddRed(Part(d, 0, boxed), file, mode)
    case Pipe(l, r) => Piped(Part(l, 0, boxed), Part(r, 1, boxed))
    case Back(d) => Behind(Part(d, 2, boxed))
    case List(l, r) => Listed(Part(l, 2, boxed), Part(r, 3, boxed))
  }

  function Part(c: Cmd<string>, level: nat, boxed: bool): (t: Syntax)
    decreases c, 1
  {
    if boxed || Level(c) > level then Block(Tree(c, boxed), []) else Tree(c, boxed)
  }

  lemma {:induction false} WrapMore(c: Cmd<string>, rs: seq<(string, Mode)>, file: string, mode: Mode)
    ensures Wrap(c, rs + [(file, mode)]) == Redir(Wrap(c, rs), file, mode)
    decreases rs
  {
    if rs != [] {
      assert (rs + [(file, mode)])[1..] == rs[1..] + [(file, mode)];
      WrapMore(Redir(c, rs[0].0, rs[0].1), rs[1..], file, mode);
    }
  }

  lemma {:induction false} ItemsMore(items: seq<Item>, file: string, mode: Mode)
    ensures Words(items + [Red(file, mode)]) == Words(items)
    ensures Reds(items + [Red(file, mode)]) == Reds(items) + [(file, mode)]
    decreases items
  {
    if items != [] {
      assert (items + [Red(file, mode)])[1..] == items[1..] + [Red(file, mode)];
      ItemsMore(items[1..], file, mode);
    }
  }

  lemma AddRedMeans(t: Syntax, file: string, mode: Mode)
    requires WellFormed(t, 0)
    ensures WellFormed(AddRed(t, file, mode), 0) && Meaning(AddRed(t, file, mode)) == Redir(Meaning(t), file, mode)
  {
    match t
    case Simple(items) =>
      ItemsMore(items, file, mode);
      WrapMore(Exec(Words(items)), Reds(items), file, mode);
    case Block(line, reds) =>
      WrapMore(Meaning(line), reds, file, mode);
  }

  lemma {:induction false} ArgsAre(args: seq<string>)
    ensures Words(Args(args)) == args && Reds(Args(args)) == []
    decreases args
  {
    if args != [] {
      assert Args(args)[1..] == Args(args[1..]);
      ArgsAre(args[1..]);
    }
  }

  lemma {:induction false} TreeMeans(c: Cmd<string>, boxed: bool)
    requires Printable(c)
    ensures WellFormed(Tree(c, boxed), Level(c)) && Meaning(Tree(c, boxed)) == c
    decreases c, 0
  {
    match c
    case Exec(args) => ArgsAre(args);
    case Redir(d, file, mode) =>
      PartMeans(d, 0, boxed);
      AddRedMeans(Part(d, 0, boxed), file, mode);
    case Pipe(l, r) =>
      PartMeans(l, 0, boxed);
      PartMeans(r, 1, boxed);
    case Back(d) => PartMeans(d, 2, boxed);
    case List(l, r) =>
      PartMeans(l, 2, boxed);
      PartMeans(r, 3, boxed);
  }

  lemma {:induction false} PartMeans(c: Cmd<string>, level: nat, boxed: bool)
    requires Printable(c) && level <= 3
    ensures WellFormed(Part(c, level, boxed), level) && Meaning(Part(c, level, boxed)) == c
    decreases c, 1
  {
    TreeMeans(c, boxed);
    if boxed || Level(c) > level {
      Deeper(Tree(c, boxed), Level(c), 3);
    } else {
      Deeper(Tree(c, boxed), Level(c), level);
    }
  }

  predicate LegibleItem(x: Item)
  {
    match x
    case Arg(word) => Word(word)
    case Red(file, mode) => Word(file)
  }

  predicate LegibleTree(t: Syntax)
  {
    match t
    case Simple(items) => forall i :: 0 <= i < |items| ==> LegibleItem(items[i])
    case Block(line, reds) => LegibleTree(line) && forall i :: 0 <= i < |reds| ==> Word(reds[i].0)
    case Piped(l, r) => LegibleTree(l) && LegibleTree(r)
    case Behind(c) => LegibleTree(c)
    case Listed(l, r) => LegibleTree(l) && LegibleTree(r)
  }

  lemma {:induction false} ItemsLegible(items: seq<Item>)
    requires forall i :: 0 <= i < |items| ==> LegibleItem(items[i])
    ensures forall x :: x in ItemTokens(items) ==> Legible(x)
    decreases items
  {
    if items != [] {
      ItemsLegible(items[1..]);
      assert LegibleItem(items[0]);
    }
  }

  lemma {:induction false} TokensLegible(t: Syntax)
    requires LegibleTree(t)
    ensures forall x :: x in Tokens(t) ==> Legible(x)
  {
    match t
    case Simple(items) => ItemsLegible(items);
    case Block(line, reds) =>
      TokensLegible(line);
      ItemsLegible(RedItems(reds));
    case Piped(l, r) =>
      TokensLegible(l);
      TokensLegible(r);
    case Behind(c) => TokensLegible(c);
    case Listed(l, r) =>
      TokensLegible(l);
      TokensLegible(r);
  }

  lemma {:induction false} TreeLegible(c: Cmd<string>, boxed: bool)
    requires Printable(c)
    ensures LegibleTree(Tree(c, boxed))
  {
    match c
    case Exec(args) =>
    case Redir(d, file, mode) => TreeLegible(d, boxed);
    case Pipe(l, r) =>
      TreeLegible(l, boxed);
      TreeLegible(r, boxed);
    case Back(d) => TreeLegible(d, boxed);
    case List(l, r) =>
      TreeLegible(l, boxed);
      TreeLegible(r, boxed);
  }

  /** A command as text. */
  function Print(c: Cmd<string>, boxed: bool): (s: string)
  {
    Render(Tokens(Tree(c, boxed)))
  }

  /** A command written with as few or as many parentheses as there may be parses back to itself. */
  lemma RoundTrip(c: Cmd<string>, boxed: bool)
    requires Printable(c)
    ensures var s := Print(c, boxed); NoNul(s) && ParseCmd(s).Ok? && Text(s, ParseCmd(s).value) == c
  {
    var t := Tree(c, boxed);
    var s := Render(Tokens(t));
    TreeLegible(c, boxed);
    TokensLegible(t);
    RenderedNoNul(Tokens(t));
    assert s[0..] == s;
    Rendered(s, 0, Tokens(t));
    TreeMeans(c, boxed);
    Deeper(t, Level(c), 3);
    hide ParseCmd, Spells, Render, Tokens, Tree;
    WritingParses(s, t);
  }

  lemma {:induction false} SpansPrintable(s: string, c: Cmd<Span>)
    requires NoNul(s) && Spans(s, c)
    ensures Printable(Text(s, c))
  {
    match c
    case Exec(args) =>
    case Redir(d, file, mode) => SpansPrintable(s, d);
    case Pipe(l, r) =>
      SpansPrintable(s, l);
      SpansPrintable(s, r);
    case List(l, r) =>
      SpansPrintable(s, l);
      SpansPrintable(s, r);
    case Back(d) => SpansPrintable(s, d);
  }

  ghost predicate ParsesTo(s: string, c: Cmd<string>)
  {
    NoNul(s) && ParseCmd(s).Ok? && Text(s, ParseCmd(s).value) == c
  }

  /** The commands some line parses to are the printable ones. */
  lemma WritableExactly(c: Cmd<string>)
    ensures Printable(c) <==> exists s :: ParsesTo(s, c)
  {
    if Printable(c) {
      RoundTrip(c, false);
      assert ParsesTo(Print(c, false), c);
    }
    forall s | ParsesTo(s, c)
      ensures Printable(c)
    {
      LineSpans(s, 0);
      SpansPrintable(s, ParseCmd(s).value);
    }
  }
}
