/** gettoken over whole lines: where a line may be cut, the tokens of the two parts are the tokens
    of the line. Blanks and symbols separate words, and >> is one token. */
module ShellLexer {
  import opened Shell
  import opened ShellGrammar

  // At p the line is at its end, or has the token x, after which it goes on at next.
  predicate TokAt(s: string, p: nat, end: bool, x: Tok, next: nat) {
    && p <= next <= |s|
    && var t := GetToken(s, p);
       (end <==> t.kind == End) && x == TokenTok(s, t) && next == t.next && (!end ==> p < next)
  }

  lemma FirstTok(s: string, p: nat) returns (end: bool, x: Tok, next: nat)
    requires p <= |s|
    ensures TokAt(s, p, end, x, next)
  {
    var t := GetToken(s, p);
    end, x, next := t.kind == End, TokenTok(s, t), t.next;
  }

  lemma ToksStep(s: string, p: nat, x: Tok, next: nat)
    requires TokAt(s, p, false, x, next)
    ensures Toks(s, p) == [x] + Toks(s, next)
  {
  }

  lemma ToksEnd(s: string, p: nat)
    requires p <= |s| && GetToken(s, p).kind == End
    ensures Toks(s, p) == []
  {
  }

  // ----- The rest of a line, read on its own

  // u is s without its first k characters.
  predicate Rest(s: string, k: nat, u: string) {
    k + |u| == |s| && forall i :: 0 <= i < |u| ==> u[i] == s[k + i]
  }

  lemma {:induction false} SkipRest(s: string, k: nat, u: string, p: nat)
    requires Rest(s, k, u) && p <= |u|
    ensures Skip(s, k + p) == k + Skip(u, p)
    decreases |u| - p
  {
    if p < |u| && IsSpace(u[p]) {
      SkipRest(s, k, u, p + 1);
    }
  }

  lemma {:induction false} WordEndRest(s: string, k: nat, u: string, p: nat)
    requires Rest(s, k, u) && p <= |u|
    ensures WordEnd(s, k + p) == k + WordEnd(u, p)
    decreases |u| - p
  {
    if p < |u| && IsWord(u[p]) {
      WordEndRest(s, k, u, p + 1);
    }
  }

  lemma TokenEndRest(s: string, k: nat, u: string, q: nat)
    requires Rest(s, k, u) && q <= |u| && (q < |u| ==> !IsSpace(u[q]))
    ensures TokenEnd(s, k + q).0 == TokenEnd(u, q).0 && TokenEnd(s, k + q).1 == k + TokenEnd(u, q).1
  {
    WordEndRest(s, k, u, q);
    if q + 1 < |u| {
      assert u[q + 1] == s[k + (q + 1)];
    }
  }

  lemma SameText(s: string, k: nat, u: string, q: nat, e: nat)
    requires Rest(s, k, u) && q <= e <= |u|
    ensures s[k + q..k + e] == u[q..e]
  {
  }

  lemma TokRest(s: string, k: nat, u: string, p: nat, end: bool, x: Tok, next: nat)
    requires Rest(s, k, u) && TokAt(u, p, end, x, next)
    ensures TokAt(s, k + p, end, x, k + next)
  {
    var q, t := Skip(u, p), GetToken(u, p);
    SkipRest(s, k, u, p);
    TokenEndRest(s, k, u, q);
    SkipRest(s, k, u, t.eq);
    SameText(s, k, u, t.q, t.eq);
  }

  lemma {:induction false} ToksRest(s: string, k: nat, u: string, p: nat)
    requires Rest(s, k, u) && p <= |u|
    ensures Toks(u, p) == Toks(s, k + p)
    decreases |u| - p
  {
    var end, x, next := FirstTok(u, p);
    TokRest(s, k, u, p, end, x, next);
    if end {
      ToksEnd(u, p);
      ToksEnd(s, k + p);
    } else {
      ToksRest(s, k, u, next);
      ToksStep(u, p, x, next);
      ToksStep(s, k + p, x, k + next);
    }
  }

  // ----- The front of a line, read on its own

  lemma {:induction false} SkipFront(a: string, y: string, p: nat)
    requires p <= |a|
    ensures Skip(a, p) < |a| ==> Skip(a + y, p) == Skip(a, p)
    ensures Skip(a, p) == |a| ==> Skip(a + y, p) == Skip(a + y, |a|)
    decreases |a| - p
  {
    if p < |a| && IsSpace(a[p]) {
      SkipFront(a, y, p + 1);
    }
  }

  // Between a and y no word and no >> goes on.
  predicate Cut(a: string, y: string) {
    a == "" || y == "" || (!(IsWord(a[|a| - 1]) && IsWord(y[0])) && !(a[|a| - 1] == '>' && y[0] == '>'))
  }

  lemma {:induction false} WordEndFront(a: string, y: string, p: nat)
    requires p < |a| && IsWord(a[p]) && Cut(a, y)
    ensures WordEnd(a + y, p) == WordEnd(a, p)
    decreases |a| - p
  {
    var s := a + y;
    assert s[p] == a[p];
    if p + 1 < |a| {
      assert s[p + 1] == a[p + 1];
      if IsWord(a[p + 1]) {
        WordEndFront(a, y, p + 1);
      }
    } else if y != "" {
      assert s[p + 1] == y[0];
    }
  }

  lemma TokenFront(a: string, y: string, p: nat)
    requires p <= |a| && Cut(a, y) && Skip(a, p) < |a|
    ensures var s, t, u := a + y, GetToken(a, p), GetToken(a + y, p);
            u.kind == t.kind && t.kind != End && TokenTok(s, u) == TokenTok(a, t)
            && (t.next < |a| ==> u.next == t.next) && (t.next == |a| ==> u.next == Skip(s, |a|))
  {
    var s, q, t := a + y, Skip(a, p), GetToken(a, p);
    SkipFront(a, y, p);
    assert s[q] == a[q] && (q + 1 < |a| ==> s[q + 1] == a[q + 1]) && (y != "" ==> s[|a|] == y[0]);
    if IsWord(a[q]) {
      WordEndFront(a, y, q);
    }
    SkipFront(a, y, t.eq);
    assert s[t.q..t.eq] == a[t.q..t.eq];
  }

  // Any line, cut anywhere but inside a word or a >>.
  lemma {:induction false} ToksFront(a: string, y: string, p: nat)
    requires p <= |a| && Cut(a, y)
    ensures Toks(a + y, p) == Toks(a, p) + Toks(a + y, |a|)
    decreases |a| - p
  {
    var s := a + y;
    if Skip(a, p) == |a| {
      SkipFront(a, y, p);
      ToksSkip(s, p);
      ToksSkip(s, |a|);
      ToksEnd(a, p);
    } else {
      var t, u := GetToken(a, p), GetToken(s, p);
      var x := TokenTok(a, t);
      TokenFront(a, y, p);
      ToksFront(a, y, t.next);
      if t.next == |a| {
        ToksSkip(s, |a|);
      }
      assert TokAt(a, p, false, x, t.next) && TokAt(s, p, false, x, u.next);
      ToksStep(a, p, x, t.next);
      ToksStep(s, p, x, u.next);
      Associate([x], Toks(a, t.next), Toks(s, |a|));
    }
  }

  lemma ToksConcat(a: string, y: string)
    requires Cut(a, y)
    ensures Toks(a + y, 0) == Toks(a, 0) + Toks(y, 0)
  {
    ToksFront(a, y, 0);
    ToksRest(a + y, |a|, y, 0);
  }

  // ----- The tokens themselves

  // The characters that are not part of words.
  predicate Blank(c: char) {
    c in " \t\r\n\U{0B}"
  }

  lemma BlankToks(c: char)
    requires Blank(c)
    ensures Toks([c], 0) == []
  {
  }

  lemma SymbolToks(c: char)
    requires c in "<|>&;()"
    ensures Toks([c], 0) == [Sym(c)]
  {
  }

  lemma AppendToks()
    ensures Toks(">>", 0) == [Twin]
  {
  }

  lemma WordToks(w: string)
    requires w != "" && forall c :: c in w ==> !Blank(c) && c !in "<|>&;()"
    ensures Toks(w, 0) == [Name(w)]
  {
    forall k | 0 <= k < |w| ensures IsWord(w[k]) {
      assert w[k] in w;
    }
    WordEndIs(w, 0, |w|);
    assert w[0..|w|] == w;
  }

  // So a symbol other than > separates what is around it, with or without blanks.
  lemma Separates(a: string, c: char, b: string)
    requires Blank(c) || c in "<|&;()"
    ensures Toks(a + [c] + b, 0) == Toks(a, 0) + (if Blank(c) then [] else [Sym(c)]) + Toks(b, 0)
  {
    ToksConcat(a, [c]);
    ToksConcat(a + [c], b);
    if Blank(c) {
      BlankToks(c);
    } else {
      SymbolToks(c);
    }
  }
}
