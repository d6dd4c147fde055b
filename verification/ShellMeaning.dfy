/** What lines mean, each in terms of the meanings of its parts read as lines of their own: the
    order in which redirections nest, how far | and ; and & reach, and which file a redirected
    command ends up with. */
module ShellMeaning {
  import opened Shell
  import opened ShellGrammar
  import Params

  // The line s is accepted, as c.
  predicate Means(s: string, c: Cmd<string>) {
    ParseCmd(s).Ok? && Text(s, ParseCmd(s).value) == c
  }

  predicate Reads(s: string, ts: seq<Tok>) {
    Toks(s, 0) == ts
  }

  function AsLine(u: Unit): Line {
    Last(Single(u), 0)
  }

  lemma LineMeans(s: string, l: Line, c: Cmd<string>)
    requires LineOk(l) && Reads(s, LineToks(l))
    ensures Means(s, c) <==> c == LineCmd(l)
  {
    ReadsGrammar(s, l);
  }

  lemma UnitMeans(s: string, u: Unit, c: Cmd<string>)
    requires UnitOk(u) && Reads(s, UnitToks(u))
    ensures Means(s, c) <==> c == UnitCmd(u)
  {
    NoneAfter(UnitToks(u));
    LineMeans(s, AsLine(u), c);
  }

  lemma PipelineMeans(s: string, p: Pipeline, c: Cmd<string>)
    requires PipeOk(p) && Reads(s, PipeToks(p))
    ensures Means(s, c) <==> c == PipeCmd(p)
  {
    NoneAfter(PipeToks(p));
    LineMeans(s, Last(p, 0), c);
  }

  // ----- Words and redirections

  // One more word for the program that c runs.
  function WithWord(c: Cmd<string>, w: string): Cmd<string> {
    match c
    case Exec(ws) => Exec(ws + [w])
    case Redir(d, f, m) => Redir(WithWord(d, w), f, m)
    case _ => c
  }

  lemma SnocRest(items: seq<Item>, i: Item)
    requires items != []
    ensures (items + [i])[0] == items[0] && (items + [i])[1..] == items[1..] + [i]
  {
  }

  lemma {:induction false} ToksSnoc(items: seq<Item>, i: Item)
    ensures ItemsToks(items + [i]) == ItemsToks(items) + ItemToks(i)
  {
    if items == [] {
      assert items + [i] == [i] && [i][1..] == [];
      NoneAfter(ItemToks(i));
    } else {
      ToksSnoc(items[1..], i);
      SnocRest(items, i);
      Associate(ItemToks(items[0]), ItemsToks(items[1..]), ItemToks(i));
    }
  }

  lemma {:induction false} ArgSnoc(items: seq<Item>, w: string)
    ensures Args(items + [Arg(w)]) == Args(items) + [w] && Targets(items + [Arg(w)]) == Targets(items)
  {
    if items == [] {
      assert items + [Arg(w)] == [Arg(w)] && [Arg(w)][1..] == [];
    } else {
      ArgSnoc(items[1..], w);
      SnocRest(items, Arg(w));
    }
  }

  lemma {:induction false} ToSnoc(items: seq<Item>, t: Target)
    ensures Args(items + [To(t)]) == Args(items) && Targets(items + [To(t)]) == Targets(items) + [(t.file, ModeOf(t.sign))]
  {
    if items == [] {
      assert items + [To(t)] == [To(t)] && [To(t)][1..] == [];
    } else {
      ToSnoc(items[1..], t);
      SnocRest(items, To(t));
    }
  }

  lemma {:induction false} TargetsSnoc(ts: seq<Target>, t: Target)
    ensures TargetsToks(ts + [t]) == TargetsToks(ts) + TargetToks(t)
    ensures Files(ts + [t]) == Files(ts) + [(t.file, ModeOf(t.sign))]
  {
    if ts == [] {
      assert ts + [t] == [t] && [t][1..] == [];
      NoneAfter(TargetToks(t));
    } else {
      TargetsSnoc(ts[1..], t);
      assert (ts + [t])[1..] == ts[1..] + [t];
      Associate(TargetToks(ts[0]), TargetsToks(ts[1..]), TargetToks(t));
    }
  }

  lemma WrapSnoc(c: Cmd<string>, ds: seq<(string, Mode)>, d: (string, Mode))
    ensures Wrap(c, ds + [d]) == Redir(Wrap(c, ds), d.0, d.1)
  {
    assert (ds + [d])[..|ds|] == ds;
  }

  // The later redirection is outside, whatever words and redirections come before it.
  lemma SimpleLater(items: seq<Item>, t: Target)
    ensures UnitCmd(Simple(items + [To(t)])) == Redir(UnitCmd(Simple(items)), t.file, if t.sign.Less? then In else Out)
  {
    ToSnoc(items, t);
    WrapSnoc(Exec(Args(items)), Targets(items), (t.file, ModeOf(t.sign)));
  }

  lemma GroupLater(l: Line, files: seq<Target>, t: Target)
    ensures UnitCmd(Group(l, files + [t])) == Redir(UnitCmd(Group(l, files)), t.file, if t.sign.Less? then In else Out)
  {
    TargetsSnoc(files, t);
    WrapSnoc(LineCmd(l), Files(files), (t.file, ModeOf(t.sign)));
  }

  lemma {:induction false} WrapWord(ws: seq<string>, ds: seq<(string, Mode)>, w: string)
    ensures Wrap(Exec(ws + [w]), ds) == WithWord(Wrap(Exec(ws), ds), w)
    decreases |ds|
  {
    if ds != [] {
      WrapWord(ws, ds[..|ds| - 1], w);
    }
  }

  lemma SnocOk(items: seq<Item>, i: Item)
    requires ItemsOk(items) && ItemOk(i)
    ensures ItemsOk(items + [i])
  {
  }

  // A line that is a simple command, and the same with one more redirection at its end.
  lemma RedirMeans(s: string, more: string, items: seq<Item>, t: Target, c: Cmd<string>)
    requires UnitOk(Simple(items)) && IsWordText(t.file) && Reads(s, ItemsToks(items)) && Means(s, c)
    requires Reads(more, Toks(s, 0) + TargetToks(t))
    ensures Means(more, Redir(c, t.file, if t.sign.Less? then In else Out))
  {
    ToksSnoc(items, To(t));
    ToSnoc(items, t);
    SnocOk(items, To(t));
    SimpleLater(items, t);
    UnitMeans(s, Simple(items), c);
    UnitMeans(more, Simple(items + [To(t)]), Redir(c, t.file, if t.sign.Less? then In else Out));
  }

  // The same for a command in parentheses.
  lemma GroupRedirMeans(s: string, more: string, l: Line, files: seq<Target>, t: Target, c: Cmd<string>)
    requires UnitOk(Group(l, files)) && IsWordText(t.file) && Reads(s, UnitToks(Group(l, files))) && Means(s, c)
    requires Reads(more, Toks(s, 0) + TargetToks(t))
    ensures Means(more, Redir(c, t.file, if t.sign.Less? then In else Out))
  {
    TargetsSnoc(files, t);
    GroupLater(l, files, t);
    UnitMeans(s, Group(l, files), c);
    GroupToks(l, files, TargetToks(t));
    UnitMeans(more, Group(l, files + [t]), Redir(c, t.file, if t.sign.Less? then In else Out));
  }

  lemma GroupToks(l: Line, files: seq<Target>, tail: seq<Tok>)
    ensures UnitToks(Group(l, files)) + tail == [Sym('(')] + (LineToks(l) + ([Sym(')')] + (TargetsToks(files) + tail)))
  {
    Associate([Sym(')')], TargetsToks(files), tail);
    Associate(LineToks(l), [Sym(')')] + TargetsToks(files), tail);
    Associate([Sym('(')], LineToks(l) + ([Sym(')')] + TargetsToks(files)), tail);
  }

  // One more word: the last argument, wherever redirections stand. Nine is as far as it goes.
  lemma WordMeans(s: string, more: string, items: seq<Item>, w: string, c: Cmd<string>)
    requires UnitOk(Simple(items)) && IsWordText(w) && Reads(s, ItemsToks(items)) && Means(s, c)
    requires |Args(items)| < 9 && Reads(more, Toks(s, 0) + [Name(w)])
    ensures Means(more, WithWord(c, w))
  {
    ToksSnoc(items, Arg(w));
    ArgSnoc(items, w);
    SnocOk(items, Arg(w));
    WrapWord(Args(items), Targets(items), w);
    UnitMeans(s, Simple(items), c);
    UnitMeans(more, Simple(items + [Arg(w)]), WithWord(c, w));
  }

  // The empty line runs nothing.
  lemma NothingMeans(s: string)
    requires Reads(s, [])
    ensures Means(s, Exec([]))
  {
    UnitMeans(s, Simple([]), Exec([]));
  }

  // ----- Parentheses, |, & and ;

  lemma ParensMean(s: string, inner: string, l: Line, c: Cmd<string>)
    requires LineOk(l) && Reads(inner, LineToks(l)) && Means(inner, c)
    requires Reads(s, [Sym('(')] + (Toks(inner, 0) + [Sym(')')]))
    ensures Means(s, c)
  {
    LineMeans(inner, l, c);
    NoneAfter([Sym(')')]);
    UnitMeans(s, Group(l, []), c);
  }

  // The left side of | is one command, the right side is all the rest of the pipeline.
  lemma BarMeans(s: string, left: string, right: string, u: Unit, p: Pipeline, c: Cmd<string>, d: Cmd<string>)
    requires UnitOk(u) && PipeOk(p) && Reads(left, UnitToks(u)) && Reads(right, PipeToks(p))
    requires Means(left, c) && Means(right, d) && Reads(s, Toks(left, 0) + ([Sym('|')] + Toks(right, 0)))
    ensures Means(s, Pipe(c, d))
  {
    UnitMeans(left, u, c);
    PipelineMeans(right, p, d);
    PipelineMeans(s, Bar(u, p), Pipe(c, d));
  }

  lemma {:induction false} BacksSnoc<W>(c: Cmd<W>, n: nat)
    ensures Backs(c, n + 1) == Back(Backs(c, n))
    decreases n
  {
    if n > 0 {
      BacksSnoc(Back(c), n - 1);
    }
  }

  lemma {:induction false} AmpsSnoc(n: nat)
    ensures AmpToks(n + 1) == AmpToks(n) + [Sym('&')]
  {
    if n > 0 {
      AmpsSnoc(n - 1);
    }
  }

  // & takes the whole pipeline before it.
  lemma AmpMeans(s: string, front: string, p: Pipeline, n: nat, c: Cmd<string>)
    requires PipeOk(p) && Reads(front, LineToks(Last(p, n))) && Means(front, c)
    requires Reads(s, Toks(front, 0) + [Sym('&')])
    ensures Means(s, Back(c))
  {
    BacksSnoc(PipeCmd(p), n);
    AmpsSnoc(n);
    Associate(PipeToks(p), AmpToks(n), [Sym('&')]);
    LineMeans(front, Last(p, n), c);
    LineMeans(s, Last(p, n + 1), Back(c));
  }

  // The left side of ; is one pipeline with its ampersands, the right side is all the rest.
  lemma SemiMeans(s: string, left: string, right: string, p: Pipeline, n: nat, l: Line, c: Cmd<string>, d: Cmd<string>)
    requires PipeOk(p) && LineOk(l) && Reads(left, LineToks(Last(p, n))) && Reads(right, LineToks(l))
    requires Means(left, c) && Means(right, d) && Reads(s, Toks(left, 0) + ([Sym(';')] + Toks(right, 0)))
    ensures Means(s, List(c, d))
  {
    Associate(PipeToks(p), AmpToks(n), [Sym(';')] + LineToks(l));
    LineMeans(left, Last(p, n), c);
    LineMeans(right, l, d);
    LineMeans(s, Semi(p, n, l), List(c, d));
  }

  // ----- Which file it is

  // runcmd closes and opens at each Redir on the way to the program: the file that descriptor m
  // ends up with, from cur.
  function Opened<W>(c: Cmd<W>, m: Mode, cur: Params.Option<W>): Params.Option<W> {
    match c
    case Redir(d, f, mode) => Opened(d, m, if mode == m then Params.Some(f) else cur)
    case _ => cur
  }

  // The first redirection of m in the line.
  function FirstFile(items: seq<Item>, m: Mode, cur: Params.Option<string>): Params.Option<string> {
    if items == [] then cur
    else if items[0].To? && (items[0].target.sign.Less? <==> m.In?) then Params.Some(items[0].target.file)
    else FirstFile(items[1..], m, cur)
  }

  lemma {:induction false} FirstFileSnoc(items: seq<Item>, i: Item, m: Mode, cur: Params.Option<string>)
    ensures FirstFile(items + [i], m, cur) == FirstFile(items, m, FirstFile([i], m, cur))
  {
    if items == [] {
      assert items + [i] == [i];
    } else {
      assert (items + [i])[1..] == items[1..] + [i];
      FirstFileSnoc(items[1..], i, m, cur);
    }
  }

  // Of several redirections of one descriptor the first in the line counts, though all are opened.
  lemma {:induction false} FirstCounts(items: seq<Item>, m: Mode, cur: Params.Option<string>)
    ensures Opened(UnitCmd(Simple(items)), m, cur) == FirstFile(items, m, cur)
    decreases |items|
  {
    if items != [] {
      var front, i := items[..|items| - 1], items[|items| - 1];
      assert items == front + [i];
      FirstFileSnoc(front, i, m, cur);
      match i
      case To(t) =>
        SimpleLater(front, t);
        FirstCounts(front, m, FirstFile([i], m, cur));
      case Arg(w) =>
        ArgSnoc(front, w);
        WrapWord(Args(front), Targets(front), w);
        WordKeepsFiles(UnitCmd(Simple(front)), w, m, cur);
        FirstCounts(front, m, cur);
    }
  }

  lemma {:induction false} WordKeepsFiles(c: Cmd<string>, w: string, m: Mode, cur: Params.Option<string>)
    ensures Opened(WithWord(c, w), m, cur) == Opened(c, m, cur)
    decreases c
  {
    if c.Redir? {
      WordKeepsFiles(c.cmd, w, m, if c.mode == m then Params.Some(c.file) else cur);
    }
  }
}
