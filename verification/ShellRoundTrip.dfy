/** Every sequence of tokens can be spelled out; so every command tree has a line that parses to
    it, and every accepted line has such a canonical form. */
module ShellRoundTrip {
  import opened Shell
  import opened ShellGrammar

  // ----- Reading a piece of text off the line

  predicate At(s: string, p: nat, x: string): (r: bool)
    ensures r ==> p + |x| <= |s|
    decreases |x|
  {
    if x == "" then p <= |s| else p < |s| && s[p] == x[0] && At(s, p + 1, x[1..])
  }

  lemma {:induction false} AtSplit(s: string, p: nat, x: string, y: string)
    requires At(s, p, x + y)
    ensures At(s, p, x) && At(s, p + |x|, y)
    decreases |x|
  {
    if x == "" {
      assert x + y == y;
    } else {
      assert (x + y)[1..] == x[1..] + y;
      AtSplit(s, p + 1, x[1..], y);
    }
  }

  lemma {:induction false} AtIs(s: string, p: nat, x: string)
    requires At(s, p, x)
    ensures p + |x| <= |s| && s[p..p + |x|] == x
    decreases |x|
  {
    if x != "" {
      AtIs(s, p + 1, x[1..]);
      assert x == [x[0]] + x[1..];
    }
  }

  lemma {:induction false} AtSelf(s: string, p: nat)
    requires p <= |s|
    ensures At(s, p, s[p..])
    decreases |s| - p
  {
    if p < |s| {
      AtSelf(s, p + 1);
      assert s[p..][1..] == s[p + 1..];
    }
  }

  lemma AtFirst(s: string, p: nat, c: char, y: string)
    requires At(s, p, [c] + y)
    ensures p < |s| && s[p] == c && At(s, p + 1, y)
  {
  }

  lemma WordFirst(s: string, p: nat, w: string)
    requires At(s, p, w) && IsWordText(w)
    ensures p < |s| && IsWord(s[p]) && Skip(s, p) == p
  {
  }

  predicate WordEnds(s: string, e: nat) {
    e < |s| ==> !IsWord(s[e])
  }

  lemma WordToken(s: string, p: nat, w: string)
    requires At(s, p, w) && IsWordText(w) && WordEnds(s, p + |w|)
    ensures GetToken(s, p) == Token(Word, p, p + |w|, Skip(s, p + |w|))
  {
    WordFirst(s, p, w);
    AtIs(s, p, w);
    forall k | p <= k < p + |w| ensures IsWord(s[k]) {
      assert s[p..p + |w|][k - p] == s[k];
    }
    WordEndIs(s, p, p + |w|);
  }

  // ----- Tokens spelled out, with a blank before each

  function Spelling(t: Tok): string {
    match t
    case Name(w) => w
    case Sym(c) => [c]
    case Twin => ">>"
  }

  function Spell(ts: seq<Tok>): string {
    if ts == [] then "" else " " + (Spelling(ts[0]) + Spell(ts[1..]))
  }

  predicate TokOk(t: Tok) {
    match t
    case Name(w) => IsWordText(w)
    case Sym(c) => IsSymbol(c)
    case Twin => true
  }

  predicate ToksOk(ts: seq<Tok>) {
    forall k :: 0 <= k < |ts| ==> TokOk(ts[k])
  }

  lemma OneToken(s: string, p: nat, t: Tok, e: nat)
    requires At(s, p, Spelling(t)) && TokOk(t) && e == p + |Spelling(t)| && (e < |s| ==> s[e] == ' ')
    ensures Skip(s, p) == p < e
    ensures var k := GetToken(s, p); k.kind != End && TokenTok(s, k) == t && k.next == Skip(s, e)
  {
    match t
    case Name(w) =>
      WordToken(s, p, w);
      AtIs(s, p, w);
    case Sym(c) => AtFirst(s, p, c, "");
    case Twin =>
      AtFirst(s, p, '>', ">");
      AtFirst(s, p + 1, '>', "");
  }

  lemma SpaceSkips(s: string, p: nat)
    requires p < |s| && s[p] == ' '
    ensures Skip(s, p) == Skip(s, p + 1) && Toks(s, p) == Toks(s, p + 1)
  {
    ToksSkip(s, p);
    ToksSkip(s, p + 1);
  }

  // The lexer undoes the spelling.
  lemma {:induction false} SpellReads(s: string, p: nat, ts: seq<Tok>)
    requires At(s, p, Spell(ts)) && p + |Spell(ts)| == |s| && ToksOk(ts)
    ensures Toks(s, p) == ts
    decreases |ts|
  {
    if ts != [] {
      var x, more := Spelling(ts[0]), Spell(ts[1..]);
      AtFirst(s, p, ' ', x + more);
      AtSplit(s, p + 1, x, more);
      var e := p + 1 + |x|;
      if ts[1..] != [] {
        AtFirst(s, e, ' ', more[1..]);
      }
      SpaceSkips(s, p);
      OneToken(s, p + 1, ts[0], e);
      ToksSkip(s, e);
      SpellReads(s, e, ts[1..]);
    }
  }

  lemma {:induction false} TargetsToksOk(ts: seq<Target>)
    requires TargetsOk(ts)
    ensures ToksOk(TargetsToks(ts))
    decreases |ts|
  {
    if ts != [] {
      TargetsToksOk(ts[1..]);
    }
  }

  lemma {:induction false} ItemsToksOk(items: seq<Item>)
    requires ItemsOk(items)
    ensures ToksOk(ItemsToks(items))
    decreases |items|
  {
    if items != [] {
      assert ItemOk(items[0]);
      ItemsToksOk(items[1..]);
    }
  }

  lemma {:induction false} AmpToksOk(n: nat)
    ensures ToksOk(AmpToks(n))
  {
    if n > 0 {
      AmpToksOk(n - 1);
    }
  }

  lemma {:induction false} UnitToksOk(u: Unit)
    requires UnitOk(u)
    ensures ToksOk(UnitToks(u))
    decreases u
  {
    match u
    case Simple(items) => ItemsToksOk(items);
    case Group(l, files) =>
      LineToksOk(l);
      TargetsToksOk(files);
  }

  lemma {:induction false} PipeToksOk(l: Pipeline)
    requires PipeOk(l)
    ensures ToksOk(PipeToks(l))
    decreases l
  {
    match l
    case Single(u) => UnitToksOk(u);
    case Bar(u, more) =>
      UnitToksOk(u);
      PipeToksOk(more);
  }

  lemma {:induction false} LineToksOk(l: Line)
    requires LineOk(l)
    ensures ToksOk(LineToks(l))
    decreases l
  {
    match l
    case Last(pipe, n) =>
      PipeToksOk(pipe);
      AmpToksOk(n);
    case Semi(pipe, n, more) =>
      PipeToksOk(pipe);
      AmpToksOk(n);
      LineToksOk(more);
  }

  // Every line of the grammar has a text with its tokens.
  lemma LineSpelled(l: Line)
    requires LineOk(l)
    ensures Toks(Spell(LineToks(l)), 0) == LineToks(l)
  {
    var s := Spell(LineToks(l));
    LineToksOk(l);
    AtSelf(s, 0);
    assert s[0..] == s;
    SpellReads(s, 0, LineToks(l));
  }

  // The grammar is unambiguous: tokens determine the command.
  lemma Unambiguous(l: Line, m: Line)
    requires LineOk(l) && LineOk(m) && LineToks(l) == LineToks(m)
    ensures LineCmd(l) == LineCmd(m)
  {
    LineSpelled(l);
    ReadsGrammar(Spell(LineToks(l)), l);
    ReadsGrammar(Spell(LineToks(l)), m);
  }

  // ----- The canonical line of a tree, with parentheses around every part

  predicate WellFormed(t: Cmd<string>) {
    match t
    case Exec(ws) => |ws| < MAXARGS && forall k :: 0 <= k < |ws| ==> IsWordText(ws[k])
    case Redir(c, f, _) => WellFormed(c) && IsWordText(f)
    case Pipe(a, b) => WellFormed(a) && WellFormed(b)
    case List(a, b) => WellFormed(a) && WellFormed(b)
    case Back(c) => WellFormed(c)
  }

  function ArgItems(ws: seq<string>): seq<Item> {
    seq(|ws|, k requires 0 <= k < |ws| => Arg(ws[k]))
  }

  function Canon(t: Cmd<string>): Line {
    match t
    case Exec(ws) => Last(Single(Simple(ArgItems(ws))), 0)
    case Redir(c, f, m) => Last(Single(Group(Canon(c), [Target(if m == In then Less else Greater, f)])), 0)
    case Pipe(a, b) => Last(Bar(Group(Canon(a), []), Single(Group(Canon(b), []))), 0)
    case List(a, b) => Semi(Single(Group(Canon(a), [])), 0, Last(Single(Group(Canon(b), [])), 0))
    case Back(c) => Last(Single(Group(Canon(c), [])), 1)
  }

  function Render(t: Cmd<string>): string {
    Spell(LineToks(Canon(t)))
  }

  lemma {:induction false} ArgItemsOk(ws: seq<string>)
    ensures Args(ArgItems(ws)) == ws && Targets(ArgItems(ws)) == []
    decreases |ws|
  {
    if ws != [] {
      assert ArgItems(ws)[1..] == ArgItems(ws[1..]);
      ArgItemsOk(ws[1..]);
    }
  }

  lemma OneFile(c: Cmd<string>, f: string, g: Sign)
    ensures Wrap(c, Files([Target(g, f)])) == Redir(c, f, ModeOf(g))
  {
  }

  // A line in parentheses, as a command, a pipeline and a line of its own.
  lemma InParens(l: Line, files: seq<Target>, n: nat)
    requires LineOk(l) && forall k :: 0 <= k < |files| ==> IsWordText(files[k].file)
    ensures var u := Group(l, files);
            && UnitOk(u) && PipeOk(Single(u)) && LineOk(Last(Single(u), n))
            && UnitCmd(u) == PipeCmd(Single(u)) == Wrap(LineCmd(l), Files(files))
            && LineCmd(Last(Single(u), n)) == Backs(UnitCmd(u), n)
  {
  }

  lemma {:induction false} CanonOk(t: Cmd<string>)
    requires WellFormed(t)
    ensures LineOk(Canon(t)) && LineCmd(Canon(t)) == t
    decreases t
  {
    match t
    case Exec(ws) =>
      ArgItemsOk(ws);
      var u := Simple(ArgItems(ws));
      assert UnitOk(u) && UnitCmd(u) == t;
      assert PipeCmd(Single(u)) == t;
    case Redir(c, f, m) =>
      var g := if m == In then Less else Greater;
      CanonOk(c);
      InParens(Canon(c), [Target(g, f)], 0);
      OneFile(c, f, g);
    case Pipe(a, b) =>
      CanonOk(a);
      CanonOk(b);
      InParens(Canon(a), [], 0);
      InParens(Canon(b), [], 0);
    case List(a, b) =>
      CanonOk(a);
      CanonOk(b);
      InParens(Canon(a), [], 0);
      InParens(Canon(b), [], 0);
    case Back(c) =>
      CanonOk(c);
      InParens(Canon(c), [], 1);
  }

  // Parsing the canonical rendering of a tree gives the tree back.
  lemma RoundTrip(t: Cmd<string>)
    requires WellFormed(t)
    ensures var s := Render(t); ParseCmd(s).Ok? && Text(s, ParseCmd(s).value) == t
  {
    CanonOk(t);
    LineSpelled(Canon(t));
    ReadsGrammar(Render(t), Canon(t));
  }

  // ----- Every accepted line

  // w is a whole word of s.
  predicate WordSpan(s: string, w: Span) {
    && w.q < w.eq <= |s| && (w.eq < |s| ==> !IsWord(s[w.eq]))
    && forall k :: w.q <= k < w.eq ==> IsWord(s[k])
  }

  ghost predicate WordsIn(s: string, c: Cmd<Span>) {
    match c
    case Exec(ws) => |ws| < MAXARGS && forall k :: 0 <= k < |ws| ==> WordSpan(s, ws[k])
    case Redir(d, f, _) => WordsIn(s, d) && WordSpan(s, f)
    case Pipe(a, b) => WordsIn(s, a) && WordsIn(s, b)
    case List(a, b) => WordsIn(s, a) && WordsIn(s, b)
    case Back(d) => WordsIn(s, d)
  }

  lemma TokenWord(s: string, p: nat)
    requires p <= |s| && GetToken(s, p).kind == Word
    ensures var t := GetToken(s, p); WordSpan(s, Span(t.q, t.eq))
  {
    WordEndWords(s, Skip(s, p));
  }

  ghost predicate FilesIn(s: string, redirs: Redirs) {
    forall k :: 0 <= k < |redirs| ==> WordSpan(s, redirs[k].0)
  }

  lemma {:induction false} WrapWords(s: string, c: Cmd<Span>, redirs: Redirs)
    requires WordsIn(s, c) && FilesIn(s, redirs)
    ensures WordsIn(s, Wrap(c, redirs))
    decreases |redirs|
  {
    if redirs != [] {
      WrapWords(s, c, redirs[..|redirs| - 1]);
    }
  }

  lemma {:induction false} RedirsWords(s: string, redirs: Redirs, p: nat)
    requires p <= |s| && FilesIn(s, redirs)
    ensures var r := ParseRedirs(s, redirs, p); r.Ok? ==> FilesIn(s, r.value)
    decreases |s| - p
  {
    if Peek(s, p, {'<', '>'}) {
      var t := GetToken(s, p);
      var f := GetToken(s, t.next);
      if f.kind == Word {
        TokenWord(s, t.next);
        RedirsWords(s, redirs + [(Span(f.q, f.eq), if t.kind == Symbol('<') then In else Out)], f.next);
      }
    }
  }

  lemma {:induction false} ArgsWords(s: string, words: seq<Span>, redirs: Redirs, p: nat)
    requires p <= |s| && WordsIn(s, Exec(words)) && FilesIn(s, redirs)
    ensures var r := ParseArgs(s, words, redirs, p); r.Ok? ==> WordsIn(s, r.value)
    decreases |s| - p
  {
    WrapWords(s, Exec(words), redirs);
    var t := GetToken(s, p);
    if !Peek(s, p, {'|', ')', '&', ';'}) && t.kind == Word && |words| + 1 < MAXARGS {
      TokenWord(s, p);
      RedirsWords(s, redirs, t.next);
      var d := ParseRedirs(s, redirs, t.next);
      if d.Ok? {
        ArgsWords(s, words + [Span(t.q, t.eq)], d.value, d.pos);
      }
    }
  }

  lemma {:induction false} ExecWords(s: string, p: nat)
    requires p <= |s|
    ensures var r := ParseExec(s, p); r.Ok? ==> WordsIn(s, r.value)
    decreases |s| - p, 1
  {
    if Peek(s, p, {'('}) {
      BlockWords(s, p);
    } else {
      RedirsWords(s, [], p);
      var d := ParseRedirs(s, [], p);
      if d.Ok? {
        ArgsWords(s, [], d.value, d.pos);
      }
    }
  }

  lemma {:induction false} BlockWords(s: string, p: nat)
    requires p <= |s|
    ensures var r := ParseBlock(s, p); r.Ok? ==> WordsIn(s, r.value)
    decreases |s| - p, 0
  {
    var r := ParseBlock(s, p);
    if r.Ok? {
      var body := ParseLine(s, GetToken(s, p).next);
      LineWords(s, GetToken(s, p).next);
      var shut := GetToken(s, body.pos).next;
      RedirsWords(s, [], shut);
      WrapWords(s, body.value, ParseRedirs(s, [], shut).value);
    }
  }

  lemma {:induction false} PipeWords(s: string, p: nat)
    requires p <= |s|
    ensures var r := ParsePipe(s, p); r.Ok? ==> WordsIn(s, r.value)
    decreases |s| - p, 2
  {
    ExecWords(s, p);
    var left := ParseExec(s, p);
    if left.Ok? && Peek(s, left.pos, {'|'}) {
      PipeWords(s, GetToken(s, left.pos).next);
    }
  }

  lemma {:induction false} BacksWords(s: string, c: Cmd<Span>, p: nat)
    requires p <= |s| && WordsIn(s, c)
    ensures WordsIn(s, ParseBacks(s, c, p).value)
    decreases |s| - p
  {
    if Peek(s, p, {'&'}) {
      BacksWords(s, Back(c), GetToken(s, p).next);
    }
  }

  lemma {:induction false} LineWords(s: string, p: nat)
    requires p <= |s|
    ensures var r := ParseLine(s, p); r.Ok? ==> WordsIn(s, r.value)
    decreases |s| - p, 3
  {
    PipeWords(s, p);
    var left := ParsePipe(s, p);
    if left.Ok? {
      BacksWords(s, left.value, left.pos);
      var backs := ParseBacks(s, left.value, left.pos);
      if Peek(s, backs.pos, {';'}) {
        LineWords(s, GetToken(s, backs.pos).next);
      }
    }
  }

  lemma {:induction false} WordsWellFormed(s: string, c: Cmd<Span>)
    requires WordsIn(s, c)
    ensures WellFormed(Text(s, c))
    decreases c
  {
    match c
    case Exec(ws) =>
      forall k | 0 <= k < |ws| ensures IsWordText(WordOf(s, ws[k])) {
        assert WordSpan(s, ws[k]);
      }
    case Redir(d, f, _) => WordsWellFormed(s, d);
    case Pipe(a, b) =>
      WordsWellFormed(s, a);
      WordsWellFormed(s, b);
    case List(a, b) =>
      WordsWellFormed(s, a);
      WordsWellFormed(s, b);
    case Back(d) => WordsWellFormed(s, d);
  }

  // Every accepted line means the same as its canonical form: the parser accepts that too and
  // reads the same tree.
  lemma Canonical(s: string)
    requires ParseCmd(s).Ok?
    ensures var t := Text(s, ParseCmd(s).value);
            WellFormed(t) && ParseCmd(Render(t)).Ok? && Text(Render(t), ParseCmd(Render(t)).value) == t
  {
    LineWords(s, 0);
    WordsWellFormed(s, ParseCmd(s).value);
    RoundTrip(Text(s, ParseCmd(s).value));
  }
}
