/** sh.c's parser as it runs: one cursor, moved along the line by every function. */
module ShellParser {
  import opened Params
  import opened Shell
  import opened ShellGrammar
  import opened ShellRoundTrip

  // ----- The cursor may stand before or after white space

  lemma RedirsSkip(s: string, redirs: Redirs, p: nat)
    requires p <= |s|
    ensures ParseRedirs(s, redirs, p) == ParseRedirs(s, redirs, Skip(s, p))
  {
  }

  lemma ExecSkip(s: string, p: nat)
    requires p <= |s|
    ensures ParseExec(s, p) == ParseExec(s, Skip(s, p))
  {
  }

  class Parser {
    const s: string
    var ps: nat

    constructor (line: string)
      ensures s == line && ps == 0
    {
      s, ps := line, 0;
    }

    method SkipSpace()
      requires ps <= |s|
      modifies this
      ensures ps == Skip(s, old(ps))
    {
      while ps < |s| && IsSpace(s[ps])
        invariant ps <= |s| && Skip(s, ps) == Skip(s, old(ps))
      {
        ps := ps + 1;
      }
    }

    method Gettoken() returns (kind: Kind, q: nat, eq: nat)
      requires ps <= |s|
      modifies this
      ensures GetToken(s, old(ps)) == Token(kind, q, eq, ps) && ps <= |s|
    {
      SkipSpace();
      q := ps;
      if ps == |s| {
        kind := End;
      } else if s[ps] == '|' || s[ps] == '(' || s[ps] == ')' || s[ps] == ';' || s[ps] == '&' || s[ps] == '<' {
        kind := Symbol(s[ps]);
        ps := ps + 1;
      } else if s[ps] == '>' {
        kind := Symbol('>');
        ps := ps + 1;
        if ps < |s| && s[ps] == '>' {
          kind := Append;
          ps := ps + 1;
        }
      } else {
        kind := Word;
        while ps < |s| && !IsSpace(s[ps]) && !IsSymbol(s[ps])
          invariant q <= ps <= |s| && WordEnd(s, ps) == WordEnd(s, q)
        {
          ps := ps + 1;
        }
      }
      eq := ps;
      SkipSpace();
    }

    method PeekFor(toks: set<char>) returns (found: bool)
      requires ps <= |s|
      modifies this
      ensures ps == Skip(s, old(ps)) && found == Peek(s, old(ps), toks)
    {
      SkipSpace();
      found := ps < |s| && s[ps] in toks;
    }

    // None: panic, no file name after < or >.
    method Parseredirs(redirs: Redirs) returns (r: Option<Redirs>)
      requires ps <= |s|
      modifies this
      ensures Agrees(r, ps, ParseRedirs(s, redirs, old(ps)))
    {
      var done := redirs;
      ghost var all := ParseRedirs(s, redirs, ps);
      while true
        invariant ps <= |s| && ParseRedirs(s, done, ps) == all
        decreases |s| - ps
      {
        ghost var p := ps;
        RedirsSkip(s, done, p);
        var found := PeekFor({'<', '>'});
        if !found {
          return Some(done);
        }
        SkipTwice(s, p);
        var tok, _, _ := Gettoken();
        var kind, q, eq := Gettoken();
        if kind != Word {
          return None;
        }
        done := done + [(Span(q, eq), if tok == Symbol('<') then In else Out)];
      }
    }

    // The words and redirections of a simple command.
    method Parseargs(redirs: Redirs) returns (r: Option<Cmd<Span>>)
      requires ps <= |s|
      modifies this
      ensures Agrees(r, ps, ParseArgs(s, [], redirs, old(ps)))
    {
      var words, files := [], redirs;
      ghost var all := ParseArgs(s, [], redirs, ps);
      while true
        invariant ps <= |s| && ParseArgs(s, words, files, ps) == all
        decreases |s| - ps
      {
        ghost var p := ps;
        ArgsSkip(s, words, files, p);
        SkipTwice(s, p);
        var found := PeekFor({'|', ')', '&', ';'});
        if found {
          break;
        }
        var kind, q, eq := Gettoken();
        if kind == End {
          break;
        }
        if kind != Word {
          return None;
        }
        if |words| + 1 >= MAXARGS {
          return None;
        }
        var more := Parseredirs(files);
        if more.None? {
          return None;
        }
        words, files := words + [Span(q, eq)], more.value;
      }
      return Some(Wrap(Exec(words), files));
    }

    method Parseexec() returns (r: Option<Cmd<Span>>)
      requires ps <= |s|
      modifies this
      ensures Agrees(r, ps, ParseExec(s, old(ps)))
      decreases |s| - ps, 1
    {
      ExecSkip(s, ps);
      SkipTwice(s, ps);
      var found := PeekFor({'('});
      if found {
        r := Parseblock();
        return;
      }
      var files := Parseredirs([]);
      if files.None? {
        return None;
      }
      r := Parseargs(files.value);
    }

    method Parseblock() returns (r: Option<Cmd<Span>>)
      requires ps <= |s|
      modifies this
      ensures Agrees(r, ps, ParseBlock(s, old(ps)))
      decreases |s| - ps, 0
    {
      ghost var p := ps;
      SkipTwice(s, p);
      var found := PeekFor({'('});
      if !found {
        return None;
      }
      var _, _, _ := Gettoken();
      var body := Parseline();
      if body.None? {
        return None;
      }
      ghost var close := ps;
      SkipTwice(s, close);
      found := PeekFor({')'});
      if !found {
        return None;
      }
      var _, _, _ := Gettoken();
      var files := Parseredirs([]);
      if files.None? {
        return None;
      }
      return Some(Wrap(body.value, files.value));
    }

    method Parsepipe() returns (r: Option<Cmd<Span>>)
      requires ps <= |s|
      modifies this
      ensures Agrees(r, ps, ParsePipe(s, old(ps)))
      decreases |s| - ps, 2
    {
      r := Parseexec();
      if r.None? {
        return;
      }
      SkipTwice(s, ps);
      var found := PeekFor({'|'});
      if found {
        var _, _, _ := Gettoken();
        var right := Parsepipe();
        if right.None? {
          return None;
        }
        r := Some(Pipe(r.value, right.value));
      }
    }

    method Parseline() returns (r: Option<Cmd<Span>>)
      requires ps <= |s|
      modifies this
      ensures Agrees(r, ps, ParseLine(s, old(ps)))
      decreases |s| - ps, 3
    {
      r := Parsepipe();
      if r.None? {
        return;
      }
      var cmd := Parsebacks(r.value);
      SkipTwice(s, ps);
      var found := PeekFor({';'});
      r := Some(cmd);
      if found {
        var _, _, _ := Gettoken();
        var right := Parseline();
        if right.None? {
          return None;
        }
        r := Some(List(cmd, right.value));
      }
    }

    // parseline's loop over &.
    method Parsebacks(cmd: Cmd<Span>) returns (c: Cmd<Span>)
      requires ps <= |s|
      modifies this
      ensures ParseBacks(s, cmd, old(ps)) == Ok(c, ps)
    {
      c := cmd;
      ghost var all := ParseBacks(s, cmd, ps);
      while true
        invariant ps <= |s| && ParseBacks(s, c, ps) == all
        decreases |s| - ps
      {
        SkipTwice(s, ps);
        var found := PeekFor({'&'});
        if !found {
          break;
        }
        var _, _, _ := Gettoken();
        c := Back(c);
      }
    }

    // None: panic. An accepted line is read to its end, and all its words are words of the line.
    method Parsecmd() returns (r: Option<Cmd<Span>>)
      requires ps == 0
      modifies this
      ensures r.Some? <==> ParseCmd(s).Ok?
      ensures r.Some? ==> r.value == ParseCmd(s).value && ps == |s| && WordsIn(s, r.value)
    {
      r := Parseline();
      if r.None? {
        return;
      }
      LineWords(s, 0);
      var _ := PeekFor({});
      if ps != |s| {
        return None;
      }
    }
  }

  // The method's answer and cursor are those of the function; after a panic the cursor does not matter.
  predicate Agrees<T(==)>(r: Option<T>, pos: nat, want: Parse<T>) {
    match r
    case None => want.Panic?
    case Some(v) => want == Ok(v, pos)
  }

  lemma ArgsSkip(s: string, words: seq<Span>, redirs: Redirs, p: nat)
    requires p <= |s|
    ensures ParseArgs(s, words, redirs, p) == ParseArgs(s, words, redirs, Skip(s, p))
  {
  }

  // ----- nulterminate, in place on the line's buffer

  // The word characters of the line are untouched.
  ghost predicate WordsKept(b: string, s: string) {
    |b| == |s| + 1 && forall k :: 0 <= k < |s| && IsWord(s[k]) ==> b[k] == s[k]
  }

  predicate Ended(b: string, w: Span) {
    w.eq < |b| && b[w.eq] == '\0'
  }

  // A NUL stands after every word of c.
  predicate Terminated(b: string, c: Cmd<Span>) {
    match c
    case Exec(ws) => forall k :: 0 <= k < |ws| ==> Ended(b, ws[k])
    case Redir(d, f, _) => Terminated(b, d) && Ended(b, f)
    case Pipe(x, y) => Terminated(b, x) && Terminated(b, y)
    case List(x, y) => Terminated(b, x) && Terminated(b, y)
    case Back(d) => Terminated(b, d)
  }

  // Only NULs were written.
  ghost predicate OnlyNuls(b: string, was: string) {
    |b| == |was| && forall k :: 0 <= k < |b| ==> b[k] == was[k] || b[k] == '\0'
  }

  lemma {:induction false} StaysTerminated(b: string, was: string, c: Cmd<Span>)
    requires OnlyNuls(b, was) && Terminated(was, c)
    ensures Terminated(b, c)
    decreases c
  {
    match c
    case Exec(ws) =>
      forall k | 0 <= k < |ws| ensures Ended(b, ws[k]) {
        assert Ended(was, ws[k]);
      }
    case Redir(d, f, _) => StaysTerminated(b, was, d);
    case Pipe(x, y) =>
      StaysTerminated(b, was, x);
      StaysTerminated(b, was, y);
    case List(x, y) =>
      StaysTerminated(b, was, x);
      StaysTerminated(b, was, y);
    case Back(d) => StaysTerminated(b, was, d);
  }

  method EndWord(buf: array<char>, s: string, w: Span)
    requires WordSpan(s, w) && WordsKept(buf[..], s)
    modifies buf
    ensures WordsKept(buf[..], s) && OnlyNuls(buf[..], old(buf[..])) && Ended(buf[..], w)
  {
    buf[w.eq] := '\0';
  }

  method EndWords(buf: array<char>, s: string, ws: seq<Span>)
    requires WordsIn(s, Exec(ws)) && WordsKept(buf[..], s)
    modifies buf
    ensures WordsKept(buf[..], s) && OnlyNuls(buf[..], old(buf[..])) && Terminated(buf[..], Exec(ws))
  {
    ghost var was := buf[..];
    for i := 0 to |ws|
      invariant WordsKept(buf[..], s) && OnlyNuls(buf[..], was)
      invariant forall k :: 0 <= k < i ==> Ended(buf[..], ws[k])
    {
      ghost var before := buf[..];
      EndWord(buf, s, ws[i]);
      forall k | 0 <= k < i ensures Ended(buf[..], ws[k]) {
        assert Ended(before, ws[k]);
      }
    }
  }

  method Nulterminate(buf: array<char>, s: string, c: Cmd<Span>)
    requires WordsIn(s, c) && WordsKept(buf[..], s)
    modifies buf
    ensures WordsKept(buf[..], s) && OnlyNuls(buf[..], old(buf[..])) && Terminated(buf[..], c)
    decreases c
  {
    match c
    case Exec(ws) => EndWords(buf, s, ws);
    case Redir(d, f, _) =>
      Nulterminate(buf, s, d);
      ghost var before := buf[..];
      EndWord(buf, s, f);
      StaysTerminated(buf[..], before, d);
    case Pipe(x, y) => EndBoth(buf, s, c, x, y);
    case List(x, y) => EndBoth(buf, s, c, x, y);
    case Back(d) => Nulterminate(buf, s, d);
  }

  method EndBoth(buf: array<char>, s: string, ghost c: Cmd<Span>, x: Cmd<Span>, y: Cmd<Span>)
    requires c == Pipe(x, y) || c == List(x, y)
    requires WordsIn(s, x) && WordsIn(s, y) && WordsKept(buf[..], s)
    modifies buf
    ensures WordsKept(buf[..], s) && OnlyNuls(buf[..], old(buf[..])) && Terminated(buf[..], x) && Terminated(buf[..], y)
    decreases c, 0
  {
    Nulterminate(buf, s, x);
    ghost var before := buf[..];
    Nulterminate(buf, s, y);
    StaysTerminated(buf[..], before, x);
  }

  // The C string that starts at q.
  function CString(b: string, q: nat): string
    requires q <= |b|
    decreases |b| - q
  {
    if q == |b| || b[q] == '\0' then "" else [b[q]] + CString(b, q + 1)
  }

  // After nulterminate, reading from the start of a word gives just that word.
  lemma {:induction false} ReadsWord(b: string, s: string, w: Span, k: nat)
    requires WordSpan(s, w) && WordsKept(b, s) && Ended(b, w) && w.q <= k <= w.eq
    requires forall i :: 0 <= i < |s| ==> s[i] != '\0'
    ensures CString(b, k) == s[k..w.eq]
    decreases w.eq - k
  {
    if k < w.eq {
      ReadsWord(b, s, w, k + 1);
      assert s[k..w.eq] == [s[k]] + s[k + 1..w.eq];
    }
  }
}
