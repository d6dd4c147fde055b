/** The shell's grammar: what the functions of sh.c read off a command line, as pure functions of
    the line and the cursor. A word is a span of the line. */
module Shell {

  const MAXARGS: nat := 10

  datatype Mode = In | Out                      // O_RDONLY on 0; O_WRONLY|O_CREATE on 1
  datatype Span = Span(q: nat, eq: nat)

  datatype Cmd<W> =
    | Exec(words: seq<W>)
    | Redir(cmd: Cmd<W>, file: W, mode: Mode)
    | Pipe(left: Cmd<W>, right: Cmd<W>)
    | List(left: Cmd<W>, right: Cmd<W>)
    | Back(cmd: Cmd<W>)

  datatype Parse<T> = Panic | Ok(value: T, pos: nat)

  predicate IsSpace(c: char) {
    c == ' ' || c == '\t' || c == '\r' || c == '\n' || c == '\U{0B}'
  }

  predicate IsSymbol(c: char) {
    c == '<' || c == '|' || c == '>' || c == '&' || c == ';' || c == '(' || c == ')'
  }

  predicate IsWord(c: char) {
    !IsSpace(c) && !IsSymbol(c)
  }

  // ----- Tokens

  function Skip(s: string, p: nat): (r: nat)
    requires p <= |s|
    ensures p <= r <= |s|
    ensures r < |s| ==> !IsSpace(s[r])
    decreases |s| - p
  {
    if p < |s| && IsSpace(s[p]) then Skip(s, p + 1) else p
  }

  function WordEnd(s: string, p: nat): (r: nat)
    requires p <= |s|
    ensures p <= r <= |s|
    ensures r < |s| ==> !IsWord(s[r])
    decreases |s| - p
  {
    if p < |s| && IsWord(s[p]) then WordEnd(s, p + 1) else p
  }

  lemma {:induction false} WordEndIs(s: string, p: nat, e: nat)
    requires p <= e <= |s| && (e < |s| ==> !IsWord(s[e])) && forall k :: p <= k < e ==> IsWord(s[k])
    ensures WordEnd(s, p) == e
    decreases e - p
  {
    if p < e {
      WordEndIs(s, p + 1, e);
    }
  }

  lemma {:induction false} WordEndWords(s: string, p: nat)
    requires p <= |s|
    ensures forall k :: p <= k < WordEnd(s, p) ==> IsWord(s[k])
    decreases |s| - p
  {
    if p < |s| && IsWord(s[p]) {
      WordEndWords(s, p + 1);
    }
  }

  datatype Kind = End | Symbol(c: char) | Append | Word
  datatype Token = Token(kind: Kind, q: nat, eq: nat, next: nat)

  function TokenEnd(s: string, q: nat): (r: (Kind, nat))
    requires q <= |s| && (q < |s| ==> !IsSpace(s[q]))
    ensures q <= r.1 <= |s| && (r.0 == End <==> q == |s|) && (q < |s| ==> q < r.1)
  {
    if q == |s| then (End, q)
    else if s[q] == '>' then if q + 1 < |s| && s[q + 1] == '>' then (Append, q + 2) else (Symbol('>'), q + 1)
    else if IsSymbol(s[q]) then (Symbol(s[q]), q + 1)
    else (Word, WordEnd(s, q))
  }

  // gettoken
  function GetToken(s: string, p: nat): (t: Token)
    requires p <= |s|
    ensures p <= t.q <= t.eq <= t.next <= |s| && (t.kind != End ==> p < t.next)
  {
    var q := Skip(s, p);
    var (kind, eq) := TokenEnd(s, q);
    Token(kind, q, eq, Skip(s, eq))
  }

  // peek: the next character is one of toks. It leaves the cursor at Skip(s, p).
  predicate Peek(s: string, p: nat, toks: set<char>)
    requires p <= |s|
  {
    var q := Skip(s, p);
    q < |s| && s[q] in toks
  }

  // ----- Commands

  type Redirs = seq<(Span, Mode)>

  function Wrap<W>(cmd: Cmd<W>, redirs: seq<(W, Mode)>): Cmd<W> {
    if redirs == [] then cmd
    else
      var last := redirs[|redirs| - 1];
      Redir(Wrap(cmd, redirs[..|redirs| - 1]), last.0, last.1)
  }

  // parseredirs, after those in redirs.
  function ParseRedirs(s: string, redirs: Redirs, p: nat): (r: Parse<Redirs>)
    requires p <= |s|
    ensures r.Ok? ==> p <= r.pos <= |s|
    decreases |s| - p
  {
    if !Peek(s, p, {'<', '>'}) then Ok(redirs, Skip(s, p))
    else
      var t := GetToken(s, p);
      var f := GetToken(s, t.next);
      if f.kind != Word then Panic
      else ParseRedirs(s, redirs + [(Span(f.q, f.eq), if t.kind == Symbol('<') then In else Out)], f.next)
  }

  // parseexec's loop: words and redirections so far.
  function ParseArgs(s: string, words: seq<Span>, redirs: Redirs, p: nat): (r: Parse<Cmd<Span>>)
    requires p <= |s|
    ensures r.Ok? ==> p <= r.pos <= |s|
    decreases |s| - p
  {
    if Peek(s, p, {'|', ')', '&', ';'}) then Ok(Wrap(Exec(words), redirs), Skip(s, p))
    else
      var t := GetToken(s, p);
      if t.kind == End then Ok(Wrap(Exec(words), redirs), t.next)
      else if t.kind != Word || |words| + 1 >= MAXARGS then Panic
      else
        var d := ParseRedirs(s, redirs, t.next);
        if d.Panic? then Panic else ParseArgs(s, words + [Span(t.q, t.eq)], d.value, d.pos)
  }

  function ParseExec(s: string, p: nat): (r: Parse<Cmd<Span>>)
    requires p <= |s|
    ensures r.Ok? ==> p <= r.pos <= |s|
    decreases |s| - p, 1
  {
    if Peek(s, p, {'('}) then ParseBlock(s, p)
    else
      var d := ParseRedirs(s, [], p);
      if d.Panic? then Panic else ParseArgs(s, [], d.value, d.pos)
  }

  function ParseBlock(s: string, p: nat): (r: Parse<Cmd<Span>>)
    requires p <= |s|
    ensures r.Ok? ==> p <= r.pos <= |s|
    decreases |s| - p, 0
  {
    if !Peek(s, p, {'('}) then Panic
    else
      var open := GetToken(s, p);
      var body := ParseLine(s, open.next);
      if body.Panic? || !Peek(s, body.pos, {')'}) then Panic
      else
        var shut := GetToken(s, body.pos);
        var d := ParseRedirs(s, [], shut.next);
        if d.Panic? then Panic else Ok(Wrap(body.value, d.value), d.pos)
  }

  function ParsePipe(s: string, p: nat): (r: Parse<Cmd<Span>>)
    requires p <= |s|
    ensures r.Ok? ==> p <= r.pos <= |s|
    decreases |s| - p, 2
  {
    var left := ParseExec(s, p);
    if left.Panic? then Panic
    else if !Peek(s, left.pos, {'|'}) then Ok(left.value, Skip(s, left.pos))
    else
      var right := ParsePipe(s, GetToken(s, left.pos).next);
      if right.Panic? then Panic else Ok(Pipe(left.value, right.value), right.pos)
  }

  // parseline's loop over &.
  function ParseBacks(s: string, cmd: Cmd<Span>, p: nat): (r: Parse<Cmd<Span>>)
    requires p <= |s|
    ensures r.Ok? && p <= r.pos <= |s|
    decreases |s| - p
  {
    if Peek(s, p, {'&'}) then ParseBacks(s, Back(cmd), GetToken(s, p).next) else Ok(cmd, Skip(s, p))
  }

  function ParseLine(s: string, p: nat): (r: Parse<Cmd<Span>>)
    requires p <= |s|
    ensures r.Ok? ==> p <= r.pos <= |s|
    decreases |s| - p, 3
  {
    var left := ParsePipe(s, p);
    if left.Panic? then Panic
    else
      var backs := ParseBacks(s, left.value, left.pos);
      if !Peek(s, backs.pos, {';'}) then Ok(backs.value, Skip(s, backs.pos))
      else
        var right := ParseLine(s, GetToken(s, backs.pos).next);
        if right.Panic? then Panic else Ok(List(backs.value, right.value), right.pos)
  }

  // parsecmd: the whole line, to its end.
  function ParseCmd(s: string): (r: Parse<Cmd<Span>>)
    ensures r.Ok? ==> r.pos == |s|
  {
    var line := ParseLine(s, 0);
    if line.Panic? || Skip(s, line.pos) != |s| then Panic else Ok(line.value, |s|)
  }
}
