/** The shell's grammar over tokens, and the parser as its decision procedure: it accepts the
    lines whose tokens the grammar derives, and reads each as the command it stands for. */
module ShellGrammar {
  import opened Shell

  // ----- The tokens of a line, without the white space between them

  datatype Tok = Name(text: string) | Sym(c: char) | Twin      // a word, one symbol, >>

  function TokenTok(s: string, t: Token): Tok
    requires t.q <= t.eq <= |s|
  {
    match t.kind
    case Symbol(c) => Sym(c)
    case Append => Twin
    case _ => Name(s[t.q..t.eq])
  }

  function Toks(s: string, p: nat): seq<Tok>
    requires p <= |s|
    decreases |s| - p
  {
    var t := GetToken(s, p);
    if t.kind == End then [] else [TokenTok(s, t)] + Toks(s, t.next)
  }

  // ----- The grammar

  datatype Sign = Less | Greater | Twice                       // <  >  >>
  datatype Target = Target(sign: Sign, file: string)
  datatype Item = Arg(word: string) | To(target: Target)

  datatype Unit = Simple(items: seq<Item>) | Group(line: Line, files: seq<Target>)
  datatype Pipeline = Single(unit: Unit) | Bar(unit: Unit, rest: Pipeline)
  datatype Line = Last(pipe: Pipeline, amps: nat) | Semi(pipe: Pipeline, amps: nat, more: Line)

  function SignTok(g: Sign): Tok {
    match g
    case Less => Sym('<')
    case Greater => Sym('>')
    case Twice => Twin
  }

  function TargetToks(t: Target): seq<Tok> {
    [SignTok(t.sign), Name(t.file)]
  }

  function TargetsToks(ts: seq<Target>): seq<Tok> {
    if ts == [] then [] else TargetToks(ts[0]) + TargetsToks(ts[1..])
  }

  function ItemToks(i: Item): seq<Tok> {
    match i
    case Arg(w) => [Name(w)]
    case To(t) => TargetToks(t)
  }

  function ItemsToks(items: seq<Item>): seq<Tok> {
    if items == [] then [] else ItemToks(items[0]) + ItemsToks(items[1..])
  }

  function UnitToks(u: Unit): seq<Tok> {
    match u
    case Simple(items) => ItemsToks(items)
    case Group(l, files) => [Sym('(')] + (LineToks(l) + ([Sym(')')] + TargetsToks(files)))
  }

  function PipeToks(p: Pipeline): seq<Tok> {
    match p
    case Single(u) => UnitToks(u)
    case Bar(u, rest) => UnitToks(u) + ([Sym('|')] + PipeToks(rest))
  }

  function AmpToks(n: nat): seq<Tok> {
    if n == 0 then [] else [Sym('&')] + AmpToks(n - 1)
  }

  function LineToks(l: Line): seq<Tok> {
    match l
    case Last(p, n) => PipeToks(p) + AmpToks(n)
    case Semi(p, n, more) => PipeToks(p) + (AmpToks(n) + ([Sym(';')] + LineToks(more)))
  }

  // ----- As commands

  function ModeOf(g: Sign): Mode {
    if g == Less then In else Out
  }

  function Files(ts: seq<Target>): seq<(string, Mode)> {
    if ts == [] then [] else [(ts[0].file, ModeOf(ts[0].sign))] + Files(ts[1..])
  }

  function Args(items: seq<Item>): seq<string> {
    if items == [] then [] else (if items[0].Arg? then [items[0].word] else []) + Args(items[1..])
  }

  function Targets(items: seq<Item>): seq<(string, Mode)> {
    if items == [] then []
    else (if items[0].To? then [(items[0].target.file, ModeOf(items[0].target.sign))] else []) + Targets(items[1..])
  }

  function UnitCmd(u: Unit): Cmd<string> {
    match u
    case Simple(items) => Wrap(Exec(Args(items)), Targets(items))
    case Group(l, files) => Wrap(LineCmd(l), Files(files))
  }

  function PipeCmd(p: Pipeline): Cmd<string> {
    match p
    case Single(u) => UnitCmd(u)
    case Bar(u, rest) => Pipe(UnitCmd(u), PipeCmd(rest))
  }

  function Backs<W>(c: Cmd<W>, n: nat): Cmd<W>
    decreases n
  {
    if n == 0 then c else Backs(Back(c), n - 1)
  }

  function LineCmd(l: Line): Cmd<string> {
    match l
    case Last(p, n) => Backs(PipeCmd(p), n)
    case Semi(p, n, more) => List(Backs(PipeCmd(p), n), LineCmd(more))
  }

  // ----- Lines the shell accepts: words are words, and no command has too many

  predicate IsWordText(w: string) {
    w != [] && forall k :: 0 <= k < |w| ==> IsWord(w[k])
  }

  predicate ItemOk(i: Item) {
    if i.Arg? then IsWordText(i.word) else IsWordText(i.target.file)
  }

  predicate ItemsOk(items: seq<Item>) {
    forall k :: 0 <= k < |items| ==> ItemOk(items[k])
  }

  predicate TargetsOk(ts: seq<Target>) {
    forall k :: 0 <= k < |ts| ==> IsWordText(ts[k].file)
  }

  predicate UnitOk(u: Unit) {
    match u
    case Simple(items) => |Args(items)| < MAXARGS && ItemsOk(items)
    case Group(l, files) => LineOk(l) && TargetsOk(files)
  }

  predicate PipeOk(p: Pipeline) {
    match p
    case Single(u) => UnitOk(u)
    case Bar(u, rest) => UnitOk(u) && PipeOk(rest)
  }

  predicate LineOk(l: Line) {
    match l
    case Last(p, _) => PipeOk(p)
    case Semi(p, _, more) => PipeOk(p) && LineOk(more)
  }

  // ----- The words that spans of s stand for

  function WordOf(s: string, w: Span): string {
    if w.q <= w.eq <= |s| then s[w.q..w.eq] else ""
  }

  function WordsOf(s: string, ws: seq<Span>): seq<string> {
    seq(|ws|, k requires 0 <= k < |ws| => WordOf(s, ws[k]))
  }

  function FilesOf(s: string, ds: Redirs): seq<(string, Mode)> {
    seq(|ds|, k requires 0 <= k < |ds| => (WordOf(s, ds[k].0), ds[k].1))
  }

  function Text(s: string, c: Cmd<Span>): Cmd<string> {
    match c
    case Exec(ws) => Exec(WordsOf(s, ws))
    case Redir(d, f, m) => Redir(Text(s, d), WordOf(s, f), m)
    case Pipe(a, b) => Pipe(Text(s, a), Text(s, b))
    case List(a, b) => List(Text(s, a), Text(s, b))
    case Back(d) => Back(Text(s, d))
  }

  lemma {:induction false} WrapText(s: string, c: Cmd<Span>, ds: Redirs)
    ensures Text(s, Wrap(c, ds)) == Wrap(Text(s, c), FilesOf(s, ds))
    decreases |ds|
  {
    if ds != [] {
      var front := ds[..|ds| - 1];
      WrapText(s, c, front);
      assert FilesOf(s, ds)[..|ds| - 1] == FilesOf(s, front);
    }
  }

  lemma {:induction false} BacksText(s: string, c: Cmd<Span>, n: nat)
    ensures Text(s, Backs(c, n)) == Backs(Text(s, c), n)
    decreases n
  {
    if n > 0 {
      BacksText(s, Back(c), n - 1);
    }
  }

  lemma WordsOfCons(s: string, w: Span, ws: seq<Span>)
    ensures WordsOf(s, [w] + ws) == [WordOf(s, w)] + WordsOf(s, ws)
  {
  }

  lemma FilesOfCons(s: string, d: (Span, Mode), ds: Redirs)
    ensures FilesOf(s, [d] + ds) == [(WordOf(s, d.0), d.1)] + FilesOf(s, ds)
  {
  }

  lemma Associate<T>(a: seq<T>, b: seq<T>, c: seq<T>)
    ensures a + b + c == a + (b + c)
  {
  }

  lemma NoneAfter<T>(a: seq<T>)
    ensures a + [] == a
  {
  }

  // ----- Tokens and the cursor

  lemma SkipTwice(s: string, p: nat)
    requires p <= |s|
    ensures Skip(s, Skip(s, p)) == Skip(s, p)
  {
  }

  lemma ToksSkip(s: string, p: nat)
    requires p <= |s|
    ensures Toks(s, Skip(s, p)) == Toks(s, p)
  {
    SkipTwice(s, p);
  }

  // The first token, and where the others begin.
  lemma Head(s: string, p: nat, x: Tok, rest: seq<Tok>)
    requires p <= |s| && Toks(s, p) == [x] + rest
    ensures var t := GetToken(s, p); t.kind != End && x == TokenTok(s, t) && Toks(s, t.next) == rest
  {
    var t := GetToken(s, p);
    assert Toks(s, t.next) == ([x] + rest)[1..] == rest;
  }

  lemma NameHead(s: string, p: nat, w: string, rest: seq<Tok>)
    requires p <= |s| && Toks(s, p) == [Name(w)] + rest
    ensures var t := GetToken(s, p); t.kind == Word && WordOf(s, Span(t.q, t.eq)) == w && Toks(s, t.next) == rest
  {
    Head(s, p, Name(w), rest);
  }

  predicate Starts(ts: seq<Tok>, xs: set<Tok>) {
    ts != [] && ts[0] in xs
  }

  // The character that peek looks at decides the first token, and the other way round.
  lemma FirstChar(s: string, p: nat)
    requires p <= |s|
    ensures var q, ts := Skip(s, p), Toks(s, p);
            && (q == |s| <==> ts == [])
            && (q < |s| ==> (IsWord(s[q]) <==> ts[0].Name?))
            && (q < |s| ==> (s[q] == '>' <==> ts[0] == Twin || ts[0] == Sym('>')))
            && (q < |s| && s[q] != '>' ==> (IsSymbol(s[q]) <==> ts[0].Sym?) && (ts[0].Sym? ==> ts[0].c == s[q]))
  {
  }

  lemma PeekOne(s: string, p: nat, c: char)
    requires p <= |s| && IsSymbol(c) && c != '>'
    ensures Peek(s, p, {c}) <==> Starts(Toks(s, p), {Sym(c)})
  {
    FirstChar(s, p);
  }

  lemma PeekSign(s: string, p: nat)
    requires p <= |s|
    ensures Peek(s, p, {'<', '>'}) <==> Starts(Toks(s, p), {Sym('<'), Sym('>'), Twin})
  {
    FirstChar(s, p);
  }

  // What may follow a command.
  predicate AfterUnit(ts: seq<Tok>) {
    ts == [] || Starts(ts, {Sym('|'), Sym(')'), Sym('&'), Sym(';')})
  }

  lemma PeekAfter(s: string, p: nat)
    requires p <= |s|
    ensures Peek(s, p, {'|', ')', '&', ';'}) <==> Toks(s, p) != [] && AfterUnit(Toks(s, p))
  {
    FirstChar(s, p);
  }

  predicate NoSign(ts: seq<Tok>) {
    !Starts(ts, {Sym('<'), Sym('>'), Twin})
  }

  // What may follow a pipeline, and a line.
  predicate AfterPipe(ts: seq<Tok>) {
    AfterUnit(ts) && !Starts(ts, {Sym('|')})
  }

  predicate AfterLine(ts: seq<Tok>) {
    ts == [] || Starts(ts, {Sym(')')})
  }

  // ----- Redirections

  lemma TargetHead(s: string, p: nat, t: Target, rest: seq<Tok>)
    requires p <= |s| && Toks(s, p) == TargetToks(t) + rest
    ensures Peek(s, p, {'<', '>'})
    ensures var k := GetToken(s, p);
            var f := GetToken(s, k.next);
            && (k.kind == Symbol('<') <==> t.sign == Less)
            && f.kind == Word && WordOf(s, Span(f.q, f.eq)) == t.file && Toks(s, f.next) == rest
  {
    assert TargetToks(t) + rest == [SignTok(t.sign)] + ([Name(t.file)] + rest);
    PeekSign(s, p);
    Head(s, p, SignTok(t.sign), [Name(t.file)] + rest);
    NameHead(s, GetToken(s, p).next, t.file, rest);
  }

  // One turn of parseredirs' loop.
  lemma RedirStep(s: string, redirs: Redirs, p: nat, t: Target, rest: seq<Tok>) returns (d: (Span, Mode), q: nat)
    requires p <= |s| && Toks(s, p) == TargetToks(t) + rest
    ensures q <= |s| && Toks(s, q) == rest && ParseRedirs(s, redirs, p) == ParseRedirs(s, redirs + [d], q)
    ensures WordOf(s, d.0) == t.file && d.1 == ModeOf(t.sign)
  {
    TargetHead(s, p, t, rest);
    var f := GetToken(s, GetToken(s, p).next);
    d, q := (Span(f.q, f.eq), ModeOf(t.sign)), f.next;
  }

  lemma RedirsEnd(s: string, redirs: Redirs, p: nat)
    requires p <= |s| && NoSign(Toks(s, p))
    ensures ParseRedirs(s, redirs, p) == Ok(redirs, Skip(s, p)) && Toks(s, Skip(s, p)) == Toks(s, p)
  {
    PeekSign(s, p);
    ToksSkip(s, p);
  }

  lemma {:induction false} RedirsOf(s: string, redirs: Redirs, p: nat, ts: seq<Target>, rest: seq<Tok>)
    returns (ds: Redirs, e: nat)
    requires p <= |s| && Toks(s, p) == TargetsToks(ts) + rest && NoSign(rest)
    ensures ParseRedirs(s, redirs, p) == Ok(redirs + ds, e) && e <= |s| && Toks(s, e) == rest
    ensures FilesOf(s, ds) == Files(ts)
    decreases |ts|
  {
    if ts == [] {
      assert TargetsToks(ts) + rest == rest;
      RedirsEnd(s, redirs, p);
      ds, e := [], Skip(s, p);
      NoneAfter(redirs);
    } else {
      Associate(TargetToks(ts[0]), TargetsToks(ts[1..]), rest);
      var d, q := RedirStep(s, redirs, p, ts[0], TargetsToks(ts[1..]) + rest);
      var more;
      more, e := RedirsOf(s, redirs + [d], q, ts[1..], rest);
      ds := [d] + more;
      Associate(redirs, [d], more);
      FilesOfCons(s, d, more);
    }
  }

  // ----- Simple commands

  // parseexec from some point on, with the words and redirections so far.
  function Rest(s: string, words: seq<Span>, redirs: Redirs, p: nat): Parse<Cmd<Span>>
    requires p <= |s|
  {
    var d := ParseRedirs(s, redirs, p);
    if d.Panic? then Panic else ParseArgs(s, words, d.value, d.pos)
  }

  lemma RestEnd(s: string, words: seq<Span>, redirs: Redirs, p: nat) returns (e: nat)
    requires p <= |s| && AfterUnit(Toks(s, p))
    ensures Rest(s, words, redirs, p) == Ok(Wrap(Exec(words), redirs), e) && e <= |s| && Toks(s, e) == Toks(s, p)
  {
    RedirsEnd(s, redirs, p);
    var q := Skip(s, p);
    PeekAfter(s, q);
    ToksSkip(s, q);
    FirstChar(s, q);
    e := if Toks(s, p) == [] then GetToken(s, q).next else Skip(s, q);
  }

  lemma ArgParse(s: string, words: seq<Span>, redirs: Redirs, p: nat, t: Token)
    requires p <= |s| && NoSign(Toks(s, p)) && t == GetToken(s, Skip(s, p)) && t.kind == Word && |words| + 1 < MAXARGS
    requires !Peek(s, Skip(s, p), {'|', ')', '&', ';'})
    ensures Rest(s, words, redirs, p) == Rest(s, words + [Span(t.q, t.eq)], redirs, t.next)
  {
    RedirsEnd(s, redirs, p);
  }

  lemma ArgStep(s: string, words: seq<Span>, redirs: Redirs, p: nat, w: string, rest: seq<Tok>) returns (x: Span, q: nat)
    requires p <= |s| && Toks(s, p) == [Name(w)] + rest && |words| + 1 < MAXARGS
    ensures q <= |s| && Toks(s, q) == rest && Rest(s, words, redirs, p) == Rest(s, words + [x], redirs, q)
    ensures WordOf(s, x) == w
  {
    ToksSkip(s, p);
    PeekAfter(s, Skip(s, p));
    NameHead(s, Skip(s, p), w, rest);
    var t := GetToken(s, Skip(s, p));
    ArgParse(s, words, redirs, p, t);
    x, q := Span(t.q, t.eq), t.next;
  }

  lemma {:induction false} ItemsOf(s: string, words: seq<Span>, redirs: Redirs, p: nat, items: seq<Item>, rest: seq<Tok>)
    returns (ws: seq<Span>, ds: Redirs, e: nat)
    requires p <= |s| && Toks(s, p) == ItemsToks(items) + rest && AfterUnit(rest) && |words| + |Args(items)| < MAXARGS
    ensures Rest(s, words, redirs, p) == Ok(Wrap(Exec(words + ws), redirs + ds), e) && e <= |s| && Toks(s, e) == rest
    ensures WordsOf(s, ws) == Args(items) && FilesOf(s, ds) == Targets(items)
    decreases |items|, 1
  {
    if items == [] {
      assert ItemsToks(items) + rest == rest;
      e := RestEnd(s, words, redirs, p);
      ws, ds := [], [];
      NoneAfter(words);
      NoneAfter(redirs);
    } else {
      Associate(ItemToks(items[0]), ItemsToks(items[1..]), rest);
      if items[0].Arg? {
        ws, ds, e := ArgFirst(s, words, redirs, p, items, rest);
      } else {
        ws, ds, e := ToFirst(s, words, redirs, p, items, rest);
      }
    }
  }

  lemma {:induction false} ArgFirst(s: string, words: seq<Span>, redirs: Redirs, p: nat, items: seq<Item>, rest: seq<Tok>)
    returns (ws: seq<Span>, ds: Redirs, e: nat)
    requires items != [] && items[0].Arg? && AfterUnit(rest) && |words| + |Args(items)| < MAXARGS
    requires p <= |s| && Toks(s, p) == ItemToks(items[0]) + (ItemsToks(items[1..]) + rest)
    ensures Rest(s, words, redirs, p) == Ok(Wrap(Exec(words + ws), redirs + ds), e) && e <= |s| && Toks(s, e) == rest
    ensures WordsOf(s, ws) == Args(items) && FilesOf(s, ds) == Targets(items)
    decreases |items|, 0
  {
    var x, q := ArgStep(s, words, redirs, p, items[0].word, ItemsToks(items[1..]) + rest);
    var more;
    more, ds, e := ItemsOf(s, words + [x], redirs, q, items[1..], rest);
    ws := [x] + more;
    Associate(words, [x], more);
    WordsOfCons(s, x, more);
  }

  lemma {:induction false} ToFirst(s: string, words: seq<Span>, redirs: Redirs, p: nat, items: seq<Item>, rest: seq<Tok>)
    returns (ws: seq<Span>, ds: Redirs, e: nat)
    requires items != [] && items[0].To? && AfterUnit(rest) && |words| + |Args(items)| < MAXARGS
    requires p <= |s| && Toks(s, p) == ItemToks(items[0]) + (ItemsToks(items[1..]) + rest)
    ensures Rest(s, words, redirs, p) == Ok(Wrap(Exec(words + ws), redirs + ds), e) && e <= |s| && Toks(s, e) == rest
    ensures WordsOf(s, ws) == Args(items) && FilesOf(s, ds) == Targets(items)
    decreases |items|, 0
  {
    var d, q := RedirStep(s, redirs, p, items[0].target, ItemsToks(items[1..]) + rest);
    var more;
    ws, more, e := ItemsOf(s, words, redirs + [d], q, items[1..], rest);
    ds := [d] + more;
    Associate(redirs, [d], more);
    FilesOfCons(s, d, more);
  }

  lemma SimpleStart(items: seq<Item>, rest: seq<Tok>)
    requires AfterUnit(rest)
    ensures !Starts(ItemsToks(items) + rest, {Sym('(')})
  {
  }

  // ----- One unfolding of each function, with all its parts named

  lemma BlockParse(s: string, p: nat, open: nat, v: Cmd<Span>, close: nat, shut: nat, redirs: Redirs, e: nat)
    requires p <= |s| && Peek(s, p, {'('}) && open == GetToken(s, p).next && ParseLine(s, open) == Ok(v, close)
    requires close <= |s| && Peek(s, close, {')'}) && shut == GetToken(s, close).next
    requires ParseRedirs(s, [], shut) == Ok(redirs, e)
    ensures ParseExec(s, p) == Ok(Wrap(v, redirs), e)
  {
  }

  lemma PipeParse(s: string, p: nat, x: Cmd<Span>, q: nat)
    requires p <= |s| && ParseExec(s, p) == Ok(x, q) && q <= |s| && !Peek(s, q, {'|'})
    ensures ParsePipe(s, p) == Ok(x, Skip(s, q))
  {
  }

  lemma PipesParse(s: string, p: nat, x: Cmd<Span>, q: nat, r: nat, y: Cmd<Span>, e: nat)
    requires p <= |s| && ParseExec(s, p) == Ok(x, q) && q <= |s| && Peek(s, q, {'|'})
    requires r == GetToken(s, q).next && ParsePipe(s, r) == Ok(y, e)
    ensures ParsePipe(s, p) == Ok(Pipe(x, y), e)
  {
  }

  lemma LineParse(s: string, p: nat, x: Cmd<Span>, q: nat, b: Cmd<Span>, e: nat)
    requires p <= |s| && ParsePipe(s, p) == Ok(x, q) && q <= |s| && ParseBacks(s, x, q) == Ok(b, e)
    requires e <= |s| && !Peek(s, e, {';'})
    ensures ParseLine(s, p) == Ok(b, Skip(s, e))
  {
  }

  lemma ListParse(s: string, p: nat, x: Cmd<Span>, q: nat, b: Cmd<Span>, r: nat, m: nat, y: Cmd<Span>, e: nat)
    requires p <= |s| && ParsePipe(s, p) == Ok(x, q) && q <= |s| && ParseBacks(s, x, q) == Ok(b, r)
    requires r <= |s| && Peek(s, r, {';'}) && m == GetToken(s, r).next && ParseLine(s, m) == Ok(y, e)
    ensures ParseLine(s, p) == Ok(List(b, y), e)
  {
  }

  // ----- The grammar is accepted

  // A symbol is next: peek sees it, and gettoken moves on to what follows.
  lemma SymHead(s: string, p: nat, c: char, rest: seq<Tok>)
    requires p <= |s| && Toks(s, p) == [Sym(c)] + rest && IsSymbol(c) && c != '>'
    ensures Peek(s, p, {c}) && Toks(s, GetToken(s, p).next) == rest
  {
    PeekOne(s, p, c);
    Head(s, p, Sym(c), rest);
  }

  lemma {:induction false} BacksOf(s: string, c: Cmd<Span>, p: nat, n: nat, rest: seq<Tok>) returns (e: nat)
    requires p <= |s| && Toks(s, p) == AmpToks(n) + rest && !Starts(rest, {Sym('&')})
    ensures ParseBacks(s, c, p) == Ok(Backs(c, n), e) && e <= |s| && Toks(s, e) == rest
    decreases n
  {
    if n == 0 {
      assert AmpToks(n) + rest == rest;
      PeekOne(s, p, '&');
      ToksSkip(s, p);
      e := Skip(s, p);
    } else {
      Associate([Sym('&')], AmpToks(n - 1), rest);
      SymHead(s, p, '&', AmpToks(n - 1) + rest);
      e := BacksOf(s, Back(c), GetToken(s, p).next, n - 1, rest);
    }
  }

  lemma {:induction false} UnitOf(s: string, p: nat, u: Unit, rest: seq<Tok>) returns (v: Cmd<Span>, e: nat)
    requires UnitOk(u) && p <= |s| && Toks(s, p) == UnitToks(u) + rest && AfterUnit(rest)
    ensures ParseExec(s, p) == Ok(v, e) && e <= |s| && Toks(s, e) == rest && Text(s, v) == UnitCmd(u)
    decreases u, 0
  {
    match u
    case Simple(items) => v, e := SimpleOf(s, p, items, rest);
    case Group(l, files) => v, e := GroupOf(s, p, l, files, rest);
  }

  lemma SimpleOf(s: string, p: nat, items: seq<Item>, rest: seq<Tok>) returns (v: Cmd<Span>, e: nat)
    requires p <= |s| && Toks(s, p) == ItemsToks(items) + rest && AfterUnit(rest) && |Args(items)| < MAXARGS
    ensures ParseExec(s, p) == Ok(v, e) && e <= |s| && Toks(s, e) == rest
    ensures Text(s, v) == Wrap(Exec(Args(items)), Targets(items))
  {
    var ws, ds;
    ws, ds, e := ItemsOf(s, [], [], p, items, rest);
    SimpleStart(items, rest);
    PeekOne(s, p, '(');
    assert ParseExec(s, p) == Rest(s, [], [], p);
    assert [] + ws == ws && [] + ds == ds;
    v := Wrap(Exec(ws), ds);
    WrapText(s, Exec(ws), ds);
  }

  lemma GroupShape(l: Line, files: seq<Target>, rest: seq<Tok>)
    ensures UnitToks(Group(l, files)) + rest == [Sym('(')] + (LineToks(l) + ([Sym(')')] + (TargetsToks(files) + rest)))
  {
    var t := [Sym(')')] + TargetsToks(files);
    Associate([Sym('(')], LineToks(l) + t, rest);
    Associate(LineToks(l), t, rest);
    Associate([Sym(')')], TargetsToks(files), rest);
  }

  // From the closing parenthesis on.
  lemma GroupTail(s: string, p: nat, open: nat, b: Cmd<Span>, close: nat, files: seq<Target>, rest: seq<Tok>)
    returns (ds: Redirs, e: nat)
    requires p <= |s| && Peek(s, p, {'('}) && open == GetToken(s, p).next && ParseLine(s, open) == Ok(b, close)
    requires close <= |s| && Toks(s, close) == [Sym(')')] + (TargetsToks(files) + rest) && AfterUnit(rest)
    ensures ParseExec(s, p) == Ok(Wrap(b, ds), e) && e <= |s| && Toks(s, e) == rest && FilesOf(s, ds) == Files(files)
  {
    SymHead(s, close, ')', TargetsToks(files) + rest);
    var shut := GetToken(s, close).next;
    ds, e := RedirsOf(s, [], shut, files, rest);
    assert [] + ds == ds;
    BlockParse(s, p, open, b, close, shut, ds, e);
  }

  lemma {:induction false} GroupOf(s: string, p: nat, l: Line, files: seq<Target>, rest: seq<Tok>)
    returns (v: Cmd<Span>, e: nat)
    requires LineOk(l) && p <= |s| && Toks(s, p) == UnitToks(Group(l, files)) + rest && AfterUnit(rest)
    ensures ParseExec(s, p) == Ok(v, e) && e <= |s| && Toks(s, e) == rest && Text(s, v) == UnitCmd(Group(l, files))
    decreases l, 3
  {
    var tail := [Sym(')')] + (TargetsToks(files) + rest);
    GroupShape(l, files, rest);
    SymHead(s, p, '(', LineToks(l) + tail);
    var open := GetToken(s, p).next;
    var b, close := LineOf(s, open, l, tail);
    var ds;
    ds, e := GroupTail(s, p, open, b, close, files, rest);
    v := Wrap(b, ds);
    WrapText(s, b, ds);
  }

  lemma {:induction false} PipeOf(s: string, p: nat, l: Pipeline, rest: seq<Tok>) returns (v: Cmd<Span>, e: nat)
    requires PipeOk(l) && p <= |s| && Toks(s, p) == PipeToks(l) + rest && AfterPipe(rest)
    ensures ParsePipe(s, p) == Ok(v, e) && e <= |s| && Toks(s, e) == rest && Text(s, v) == PipeCmd(l)
    decreases l, 1
  {
    match l
    case Single(u) =>
      var q;
      v, q := UnitOf(s, p, u, rest);
      PeekOne(s, q, '|');
      PipeParse(s, p, v, q);
      ToksSkip(s, q);
      e := Skip(s, q);
    case Bar(u, more) => v, e := BarOf(s, p, u, more, rest);
  }

  lemma {:induction false} BarOf(s: string, p: nat, u: Unit, more: Pipeline, rest: seq<Tok>) returns (v: Cmd<Span>, e: nat)
    requires UnitOk(u) && PipeOk(more) && p <= |s| && Toks(s, p) == PipeToks(Bar(u, more)) + rest && AfterPipe(rest)
    ensures ParsePipe(s, p) == Ok(v, e) && e <= |s| && Toks(s, e) == rest && Text(s, v) == PipeCmd(Bar(u, more))
    decreases Bar(u, more), 0
  {
    var tail := [Sym('|')] + (PipeToks(more) + rest);
    Associate(UnitToks(u), [Sym('|')] + PipeToks(more), rest);
    Associate([Sym('|')], PipeToks(more), rest);
    var x, q := UnitOf(s, p, u, tail);
    SymHead(s, q, '|', PipeToks(more) + rest);
    var r := GetToken(s, q).next;
    var y;
    y, e := PipeOf(s, r, more, rest);
    v := Pipe(x, y);
    PipesParse(s, p, x, q, r, y, e);
  }

  // What may follow a pipeline and its ampersands.
  predicate AfterJob(ts: seq<Tok>) {
    ts == [] || Starts(ts, {Sym(')'), Sym(';')})
  }

  lemma AmpsStart(n: nat, rest: seq<Tok>)
    requires AfterJob(rest)
    ensures AfterPipe(AmpToks(n) + rest)
  {
    if n == 0 {
      assert AmpToks(n) + rest == rest;
    }
  }

  // A pipeline and its ampersands.
  lemma {:induction false} JobOf(s: string, p: nat, l: Pipeline, n: nat, rest: seq<Tok>) returns (x: Cmd<Span>, q: nat, e: nat)
    requires PipeOk(l) && p <= |s| && Toks(s, p) == PipeToks(l) + (AmpToks(n) + rest) && AfterJob(rest)
    ensures ParsePipe(s, p) == Ok(x, q) && q <= |s| && ParseBacks(s, x, q) == Ok(Backs(x, n), e)
    ensures e <= |s| && Toks(s, e) == rest && Text(s, Backs(x, n)) == Backs(PipeCmd(l), n)
    decreases l, 3
  {
    AmpsStart(n, rest);
    x, q := PipeOf(s, p, l, AmpToks(n) + rest);
    e := BacksOf(s, x, q, n, rest);
    BacksText(s, x, n);
  }

  lemma {:induction false} LineOf(s: string, p: nat, l: Line, rest: seq<Tok>) returns (v: Cmd<Span>, e: nat)
    requires LineOk(l) && p <= |s| && Toks(s, p) == LineToks(l) + rest && AfterLine(rest)
    ensures ParseLine(s, p) == Ok(v, e) && e <= |s| && Toks(s, e) == rest && Text(s, v) == LineCmd(l)
    decreases l, 2
  {
    match l
    case Last(pipe, n) =>
      Associate(PipeToks(pipe), AmpToks(n), rest);
      var x, q, r := JobOf(s, p, pipe, n, rest);
      PeekOne(s, r, ';');
      v := Backs(x, n);
      LineParse(s, p, x, q, v, r);
      ToksSkip(s, r);
      e := Skip(s, r);
    case Semi(pipe, n, more) => v, e := SemiOf(s, p, pipe, n, more, rest);
  }

  lemma SemiShape(pipe: Pipeline, n: nat, more: Line, rest: seq<Tok>)
    ensures LineToks(Semi(pipe, n, more)) + rest == PipeToks(pipe) + (AmpToks(n) + ([Sym(';')] + (LineToks(more) + rest)))
  {
    var t := [Sym(';')] + LineToks(more);
    Associate(PipeToks(pipe), AmpToks(n) + t, rest);
    Associate(AmpToks(n), t, rest);
    Associate([Sym(';')], LineToks(more), rest);
  }

  lemma {:induction false} SemiOf(s: string, p: nat, pipe: Pipeline, n: nat, more: Line, rest: seq<Tok>)
    returns (v: Cmd<Span>, e: nat)
    requires PipeOk(pipe) && LineOk(more) && AfterLine(rest)
    requires p <= |s| && Toks(s, p) == LineToks(Semi(pipe, n, more)) + rest
    ensures ParseLine(s, p) == Ok(v, e) && e <= |s| && Toks(s, e) == rest && Text(s, v) == LineCmd(Semi(pipe, n, more))
    decreases Semi(pipe, n, more), 1
  {
    SemiShape(pipe, n, more, rest);
    var x, q, r := JobOf(s, p, pipe, n, [Sym(';')] + (LineToks(more) + rest));
    SymHead(s, r, ';', LineToks(more) + rest);
    var m := GetToken(s, r).next;
    var y;
    y, e := LineOf(s, m, more, rest);
    v := List(Backs(x, n), y);
    ListParse(s, p, x, q, Backs(x, n), r, m, y, e);
  }

  // The parser accepts every line whose tokens the grammar derives, and reads it as the command
  // that derivation stands for.
  lemma ReadsGrammar(s: string, l: Line)
    requires LineOk(l) && Toks(s, 0) == LineToks(l)
    ensures ParseCmd(s).Ok? && Text(s, ParseCmd(s).value) == LineCmd(l)
  {
    NoneAfter(LineToks(l));
    var v, e := LineOf(s, 0, l, []);
    FirstChar(s, e);
  }
}
