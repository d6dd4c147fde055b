/** The converse: the tokens of every line that the parser accepts are derived by the grammar, by
    a derivation that stands for the command it returns. With ShellGrammar the parser decides the
    grammar, whatever the white space. */
module ShellAccepts {
  import opened Shell
  import opened ShellGrammar

  // ----- Tokens taken off the line

  lemma TokensFrom(s: string, p: nat)
    requires p <= |s| && GetToken(s, p).kind != End
    ensures Toks(s, p) == [TokenTok(s, GetToken(s, p))] + Toks(s, GetToken(s, p).next)
  {
  }

  lemma WordTokens(s: string, p: nat)
    requires p <= |s| && GetToken(s, p).kind == Word
    ensures var t := GetToken(s, p);
            var w := WordOf(s, Span(t.q, t.eq));
            Toks(s, p) == [Name(w)] + Toks(s, t.next) && IsWordText(w)
  {
    TokensFrom(s, p);
    WordEndWords(s, Skip(s, p));
  }

  lemma SymTokens(s: string, p: nat, c: char)
    requires p <= |s| && IsSymbol(c) && c != '>' && Peek(s, p, {c})
    ensures Toks(s, p) == [Sym(c)] + Toks(s, GetToken(s, p).next)
  {
    PeekOne(s, p, c);
    TokensFrom(s, p);
  }

  function SignOf(k: Kind): Sign {
    if k == Symbol('<') then Less else if k == Append then Twice else Greater
  }

  lemma SignTokens(s: string, p: nat)
    requires p <= |s| && Peek(s, p, {'<', '>'})
    ensures var t := GetToken(s, p); Toks(s, p) == [SignTok(SignOf(t.kind))] + Toks(s, t.next)
  {
    PeekSign(s, p);
    TokensFrom(s, p);
  }

  // ----- Redirections

  lemma TargetTokens(s: string, p: nat) returns (t: Target, d: (Span, Mode), q: nat)
    requires p <= |s| && Peek(s, p, {'<', '>'}) && GetToken(s, GetToken(s, p).next).kind == Word
    ensures p < q <= |s| && Toks(s, p) == TargetToks(t) + Toks(s, q) && IsWordText(t.file)
    ensures d == (Span(GetToken(s, GetToken(s, p).next).q, GetToken(s, GetToken(s, p).next).eq),
                  if GetToken(s, p).kind == Symbol('<') then In else Out)
    ensures q == GetToken(s, GetToken(s, p).next).next && WordOf(s, d.0) == t.file && d.1 == ModeOf(t.sign)
  {
    var k := GetToken(s, p);
    var f := GetToken(s, k.next);
    PeekSign(s, p);
    SignTokens(s, p);
    WordTokens(s, k.next);
    t, q := Target(SignOf(k.kind), WordOf(s, Span(f.q, f.eq))), f.next;
    d := (Span(f.q, f.eq), if k.kind == Symbol('<') then In else Out);
    assert TargetToks(t) + Toks(s, q) == [SignTok(t.sign)] + ([Name(t.file)] + Toks(s, q));
  }

  lemma {:induction false} RedirsFrom(s: string, redirs: Redirs, p: nat) returns (ts: seq<Target>, ds: Redirs)
    requires p <= |s| && ParseRedirs(s, redirs, p).Ok?
    ensures var r := ParseRedirs(s, redirs, p); r.value == redirs + ds && Toks(s, p) == TargetsToks(ts) + Toks(s, r.pos)
    ensures FilesOf(s, ds) == Files(ts) && TargetsOk(ts)
    decreases |s| - p
  {
    if Peek(s, p, {'<', '>'}) {
      var t, d, q := TargetTokens(s, p);
      var ts2, ds2 := RedirsFrom(s, redirs + [d], q);
      ts, ds := [t] + ts2, [d] + ds2;
      Associate(redirs, [d], ds2);
      FilesOfCons(s, d, ds2);
      Associate(TargetToks(t), TargetsToks(ts2), Toks(s, ParseRedirs(s, redirs, p).pos));
    } else {
      ts, ds := [], [];
      NoneAfter(redirs);
      ToksSkip(s, p);
    }
  }

  // ----- Simple commands

  // The redirections ts and then items.
  function Tos(ts: seq<Target>, items: seq<Item>): seq<Item> {
    if ts == [] then items else [To(ts[0])] + Tos(ts[1..], items)
  }

  lemma TosStep(ts: seq<Target>, items: seq<Item>)
    requires ts != []
    ensures Tos(ts, items) != [] && Tos(ts, items)[0] == To(ts[0]) && Tos(ts, items)[1..] == Tos(ts[1..], items)
  {
  }

  lemma {:induction false} TosToks(ts: seq<Target>, items: seq<Item>)
    ensures ItemsToks(Tos(ts, items)) == TargetsToks(ts) + ItemsToks(items)
    decreases |ts|
  {
    if ts != [] {
      TosStep(ts, items);
      TosToks(ts[1..], items);
      Associate(TargetToks(ts[0]), TargetsToks(ts[1..]), ItemsToks(items));
    }
  }

  lemma {:induction false} TosParts(ts: seq<Target>, items: seq<Item>)
    ensures Args(Tos(ts, items)) == Args(items) && Targets(Tos(ts, items)) == Files(ts) + Targets(items)
    decreases |ts|
  {
    if ts != [] {
      TosStep(ts, items);
      TosParts(ts[1..], items);
      Associate([(ts[0].file, ModeOf(ts[0].sign))], Files(ts[1..]), Targets(items));
    }
  }

  lemma {:induction false} TosOk(ts: seq<Target>, items: seq<Item>)
    requires TargetsOk(ts) && ItemsOk(items)
    ensures ItemsOk(Tos(ts, items))
    decreases |ts|
  {
    if ts != [] {
      TosOk(ts[1..], items);
    }
  }

  lemma ItemsCons(i: Item, items: seq<Item>)
    ensures ItemsToks([i] + items) == ItemToks(i) + ItemsToks(items)
    ensures Args([i] + items) == (if i.Arg? then [i.word] else []) + Args(items)
    ensures Targets([i] + items)
            == (if i.To? then [(i.target.file, ModeOf(i.target.sign))] else []) + Targets(items)
  {
    assert ([i] + items)[1..] == items;
  }

  lemma FilesOfConcat(s: string, a: Redirs, b: Redirs)
    ensures FilesOf(s, a + b) == FilesOf(s, a) + FilesOf(s, b)
  {
  }

  // A word, its redirections ts, and then items.
  lemma WordFirst(w: string, ts: seq<Target>, items: seq<Item>, rest: seq<Tok>)
    requires IsWordText(w) && TargetsOk(ts) && ItemsOk(items)
    ensures var all := [Arg(w)] + Tos(ts, items);
            && ItemsToks(all) + rest == [Name(w)] + (TargetsToks(ts) + (ItemsToks(items) + rest))
            && Args(all) == [w] + Args(items) && Targets(all) == Files(ts) + Targets(items) && ItemsOk(all)
  {
    TosToks(ts, items);
    TosParts(ts, items);
    TosOk(ts, items);
    ItemsCons(Arg(w), Tos(ts, items));
    Associate([Name(w)], ItemsToks(Tos(ts, items)), rest);
    Associate(TargetsToks(ts), ItemsToks(items), rest);
  }

  lemma ArgsEnd(s: string, words: seq<Span>, redirs: Redirs, p: nat)
    requires p <= |s| && ParseArgs(s, words, redirs, p).Ok?
    requires Peek(s, p, {'|', ')', '&', ';'}) || GetToken(s, p).kind == End
    ensures var r := ParseArgs(s, words, redirs, p); r.value == Wrap(Exec(words), redirs) && Toks(s, r.pos) == Toks(s, p)
  {
    ToksSkip(s, p);
    if !Peek(s, p, {'|', ')', '&', ';'}) {
      FirstChar(s, GetToken(s, p).next);
    }
  }

  lemma {:induction false} ArgsFrom(s: string, words: seq<Span>, redirs: Redirs, p: nat)
    returns (items: seq<Item>, ws: seq<Span>, ds: Redirs)
    requires p <= |s| && ParseArgs(s, words, redirs, p).Ok? && |words| < MAXARGS
    ensures var r := ParseArgs(s, words, redirs, p);
            r.value == Wrap(Exec(words + ws), redirs + ds) && Toks(s, p) == ItemsToks(items) + Toks(s, r.pos)
    ensures ItemsOk(items) && |words| + |ws| < MAXARGS
    ensures Args(items) == WordsOf(s, ws) && Targets(items) == FilesOf(s, ds)
    decreases |s| - p
  {
    var t := GetToken(s, p);
    if Peek(s, p, {'|', ')', '&', ';'}) || t.kind == End {
      ArgsEnd(s, words, redirs, p);
      items, ws, ds := [], [], [];
      NoneAfter(words);
      NoneAfter(redirs);
    } else {
      items, ws, ds := ArgFrom(s, words, redirs, p);
    }
  }

  lemma {:induction false} ArgFrom(s: string, words: seq<Span>, redirs: Redirs, p: nat)
    returns (items: seq<Item>, ws: seq<Span>, ds: Redirs)
    requires p <= |s| && ParseArgs(s, words, redirs, p).Ok? && |words| < MAXARGS
    requires !Peek(s, p, {'|', ')', '&', ';'}) && GetToken(s, p).kind != End
    ensures var r := ParseArgs(s, words, redirs, p);
            r.value == Wrap(Exec(words + ws), redirs + ds) && Toks(s, p) == ItemsToks(items) + Toks(s, r.pos)
    ensures ItemsOk(items) && |words| + |ws| < MAXARGS
    ensures Args(items) == WordsOf(s, ws) && Targets(items) == FilesOf(s, ds)
    decreases |s| - p, 0
  {
    var t := GetToken(s, p);
    var x, w := Span(t.q, t.eq), WordOf(s, Span(t.q, t.eq));
    WordTokens(s, p);
    var d := ParseRedirs(s, redirs, t.next);
    var ts, ds1 := RedirsFrom(s, redirs, t.next);
    var items2, ws2, ds2 := ArgsFrom(s, words + [x], d.value, d.pos);
    items, ws, ds := [Arg(w)] + Tos(ts, items2), [x] + ws2, ds1 + ds2;
    WordFirst(w, ts, items2, Toks(s, ParseArgs(s, words, redirs, p).pos));
    Associate(words, [x], ws2);
    Associate(redirs, ds1, ds2);
    WordsOfCons(s, x, ws2);
    FilesOfConcat(s, ds1, ds2);
  }

  lemma SimpleParts(s: string, p: nat)
    requires p <= |s| && ParseExec(s, p).Ok? && !Peek(s, p, {'('})
    ensures var d := ParseRedirs(s, [], p);
            d.Ok? && d.pos <= |s| && ParseArgs(s, [], d.value, d.pos) == ParseExec(s, p)
  {
  }

  lemma SimpleCmd(s: string, ts: seq<Target>, items: seq<Item>, ds1: Redirs, ws: seq<Span>, ds2: Redirs)
    requires FilesOf(s, ds1) == Files(ts) && Args(items) == WordsOf(s, ws) && Targets(items) == FilesOf(s, ds2)
    ensures UnitCmd(Simple(Tos(ts, items))) == Text(s, Wrap(Exec(ws), ds1 + ds2))
  {
    TosParts(ts, items);
    FilesOfConcat(s, ds1, ds2);
    WrapText(s, Exec(ws), ds1 + ds2);
  }

  lemma SimpleFrom(s: string, p: nat) returns (u: Unit)
    requires p <= |s| && ParseExec(s, p).Ok? && !Peek(s, p, {'('})
    ensures var r := ParseExec(s, p); Toks(s, p) == UnitToks(u) + Toks(s, r.pos) && UnitOk(u) && UnitCmd(u) == Text(s, r.value)
  {
    SimpleParts(s, p);
    var d, r := ParseRedirs(s, [], p), ParseExec(s, p);
    var ts, ds1 := RedirsFrom(s, [], p);
    var items, ws, ds2 := ArgsFrom(s, [], d.value, d.pos);
    u := Simple(Tos(ts, items));
    assert Toks(s, p) == UnitToks(u) + Toks(s, r.pos) by {
      TosToks(ts, items);
      Associate(TargetsToks(ts), ItemsToks(items), Toks(s, r.pos));
    }
    assert UnitOk(u) by {
      TosParts(ts, items);
      TosOk(ts, items);
    }
    assert UnitCmd(u) == Text(s, r.value) by {
      assert [] + ws == ws && [] + ds1 == ds1;
      SimpleCmd(s, ts, items, ds1, ws, ds2);
    }
  }

  // ----- Blocks, pipelines and lines

  // The parts of a block that was accepted.
  lemma BlockParts(s: string, p: nat) returns (open: nat, close: nat, shut: nat)
    requires p <= |s| && ParseExec(s, p).Ok? && Peek(s, p, {'('})
    ensures open == GetToken(s, p).next && p < open <= |s| && ParseLine(s, open).Ok? && close == ParseLine(s, open).pos
    ensures close <= |s| && Peek(s, close, {')'}) && shut == GetToken(s, close).next && ParseRedirs(s, [], shut).Ok?
    ensures var d := ParseRedirs(s, [], shut); ParseExec(s, p) == Ok(Wrap(ParseLine(s, open).value, d.value), d.pos)
  {
    open := GetToken(s, p).next;
    close := ParseLine(s, open).pos;
    shut := GetToken(s, close).next;
  }

  lemma {:induction false} ExecFrom(s: string, p: nat) returns (u: Unit)
    requires p <= |s| && ParseExec(s, p).Ok?
    ensures var r := ParseExec(s, p); Toks(s, p) == UnitToks(u) + Toks(s, r.pos) && UnitOk(u) && UnitCmd(u) == Text(s, r.value)
    decreases |s| - p, 1
  {
    if Peek(s, p, {'('}) {
      u := BlockFrom(s, p);
    } else {
      u := SimpleFrom(s, p);
    }
  }

  lemma {:induction false} BlockFrom(s: string, p: nat) returns (u: Unit)
    requires p <= |s| && ParseExec(s, p).Ok? && Peek(s, p, {'('})
    ensures var r := ParseExec(s, p); Toks(s, p) == UnitToks(u) + Toks(s, r.pos) && UnitOk(u) && UnitCmd(u) == Text(s, r.value)
    decreases |s| - p, 0
  {
    var open, close, shut := BlockParts(s, p);
    var l := LineFrom(s, open);
    var files, ds := RedirsFrom(s, [], shut);
    assert [] + ds == ds;
    SymTokens(s, p, '(');
    SymTokens(s, close, ')');
    u := Group(l, files);
    GroupShape(l, files, Toks(s, ParseExec(s, p).pos));
    WrapText(s, ParseLine(s, open).value, ds);
  }

  lemma {:induction false} PipeFrom(s: string, p: nat) returns (l: Pipeline)
    requires p <= |s| && ParsePipe(s, p).Ok?
    ensures var r := ParsePipe(s, p); Toks(s, p) == PipeToks(l) + Toks(s, r.pos) && PipeOk(l) && PipeCmd(l) == Text(s, r.value)
    decreases |s| - p, 2
  {
    var left := ParseExec(s, p);
    var u := ExecFrom(s, p);
    if Peek(s, left.pos, {'|'}) {
      var next := GetToken(s, left.pos).next;
      var more := PipeFrom(s, next);
      var rest := Toks(s, ParsePipe(s, next).pos);
      SymTokens(s, left.pos, '|');
      l := Bar(u, more);
      Associate(UnitToks(u), [Sym('|')] + PipeToks(more), rest);
      Associate([Sym('|')], PipeToks(more), rest);
    } else {
      l := Single(u);
      ToksSkip(s, left.pos);
    }
  }

  lemma {:induction false} BacksFrom(s: string, c: Cmd<Span>, p: nat) returns (n: nat)
    requires p <= |s|
    ensures var r := ParseBacks(s, c, p); r.value == Backs(c, n) && Toks(s, p) == AmpToks(n) + Toks(s, r.pos)
    decreases |s| - p
  {
    if Peek(s, p, {'&'}) {
      var next := GetToken(s, p).next;
      var m := BacksFrom(s, Back(c), next);
      SymTokens(s, p, '&');
      n := m + 1;
      var rest := Toks(s, ParseBacks(s, Back(c), next).pos);
      assert AmpToks(n) == [Sym('&')] + AmpToks(m);
      Associate([Sym('&')], AmpToks(m), rest);
    } else {
      n := 0;
      ToksSkip(s, p);
    }
  }

  // The parts of a line that was accepted.
  lemma LineParts(s: string, p: nat) returns (x: Cmd<Span>, q: nat, b: Cmd<Span>, r: nat)
    requires p <= |s| && ParseLine(s, p).Ok?
    ensures ParsePipe(s, p) == Ok(x, q) && p <= q <= r <= |s| && ParseBacks(s, x, q) == Ok(b, r)
    ensures !Peek(s, r, {';'}) ==> ParseLine(s, p) == Ok(b, Skip(s, r))
    ensures Peek(s, r, {';'}) ==>
              var next := GetToken(s, r).next;
              p < next <= |s| && ParseLine(s, next).Ok?
              && ParseLine(s, p) == Ok(List(b, ParseLine(s, next).value), ParseLine(s, next).pos)
  {
    var left := ParsePipe(s, p);
    var backs := ParseBacks(s, left.value, left.pos);
    x, q, b, r := left.value, left.pos, backs.value, backs.pos;
  }

  lemma {:induction false} LineFrom(s: string, p: nat) returns (l: Line)
    requires p <= |s| && ParseLine(s, p).Ok?
    ensures var r := ParseLine(s, p); Toks(s, p) == LineToks(l) + Toks(s, r.pos) && LineOk(l) && LineCmd(l) == Text(s, r.value)
    decreases |s| - p, 3
  {
    var x, q, b, r := LineParts(s, p);
    var pipe := PipeFrom(s, p);
    var n := BacksFrom(s, x, q);
    assert Text(s, b) == Backs(PipeCmd(pipe), n) by {
      BacksText(s, x, n);
    }
    if Peek(s, r, {';'}) {
      var next := GetToken(s, r).next;
      var more := LineFrom(s, next);
      var rest := Toks(s, ParseLine(s, next).pos);
      l := Semi(pipe, n, more);
      assert Toks(s, p) == LineToks(l) + rest by {
        assert Toks(s, r) == [Sym(';')] + (LineToks(more) + rest) by {
          SymTokens(s, r, ';');
        }
        SemiShape(pipe, n, more, rest);
      }
    } else {
      l := Last(pipe, n);
      assert Toks(s, p) == LineToks(l) + Toks(s, Skip(s, r)) by {
        ToksSkip(s, r);
        Associate(PipeToks(pipe), AmpToks(n), Toks(s, r));
      }
    }
  }

  // ----- The parser decides the grammar

  lemma AcceptedFrom(s: string) returns (l: Line)
    requires ParseCmd(s).Ok?
    ensures LineOk(l) && Toks(s, 0) == LineToks(l) && LineCmd(l) == Text(s, ParseCmd(s).value)
  {
    l := LineFrom(s, 0);
    FirstChar(s, ParseLine(s, 0).pos);
    NoneAfter(LineToks(l));
  }

  // A line is accepted if and only if the grammar derives its tokens.
  lemma ParserDecides(s: string)
    ensures ParseCmd(s).Ok? <==> exists l :: LineOk(l) && LineToks(l) == Toks(s, 0)
  {
    if ParseCmd(s).Ok? {
      var l := AcceptedFrom(s);
    }
    if l :| LineOk(l) && LineToks(l) == Toks(s, 0) {
      ReadsGrammar(s, l);
    }
  }

  // White space matters only between words: lines with the same tokens mean the same.
  lemma SameTokens(s: string, t: string)
    requires Toks(s, 0) == Toks(t, 0)
    ensures ParseCmd(s).Ok? <==> ParseCmd(t).Ok?
    ensures ParseCmd(s).Ok? ==> Text(s, ParseCmd(s).value) == Text(t, ParseCmd(t).value)
  {
    if ParseCmd(s).Ok? {
      var l := AcceptedFrom(s);
      ReadsGrammar(t, l);
    } else if ParseCmd(t).Ok? {
      var l := AcceptedFrom(t);
      ReadsGrammar(s, l);
    }
  }
}
