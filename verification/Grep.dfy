/** The pattern matcher of grep.c: match, matchhere and matchstar, proved to decide
    membership in the language that the pattern denotes. */
module Grep {

  // A C string holds no NUL; the terminator is the position just past its end.
  type CString = s: string | '\0' !in s

  // ----- What a pattern means

  datatype Atom = Any | Literal(c: char)
  datatype Item = One(atom: Atom) | Star(atom: Atom)
  datatype Regex = Regex(items: seq<Item>, atEnd: bool)

  predicate AtomMatches(a: Atom, c: char) {
    a.Any? || a.c == c
  }

  // The strings one item stands for.
  predicate InItem(item: Item, s: string) {
    && (item.One? ==> |s| == 1)
    && forall i :: 0 <= i < |s| ==> AtomMatches(item.atom, s[i])
  }

  function Flatten(pieces: seq<string>): string {
    if pieces == [] then "" else pieces[0] + Flatten(pieces[1..])
  }

  ghost predicate Splits(items: seq<Item>, s: string, pieces: seq<string>) {
    && |pieces| == |items|
    && Flatten(pieces) == s
    && forall i :: 0 <= i < |items| ==> InItem(items[i], pieces[i])
  }

  // The language of a sequence of items: the concatenation of the items' languages.
  ghost predicate Denotes(items: seq<Item>, s: string) {
    exists pieces :: Splits(items, s, pieces)
  }

  function AtomOf(c: char): Atom {
    if c == '.' then Any else Literal(c)
  }

  // The syntax, after an optional leading ^: x* is a repetition, a final $ an anchor.
  function Parse(re: string): Regex {
    if re == "" then Regex([], false)
    else if |re| >= 2 && re[1] == '*' then
      var rest := Parse(re[2..]);
      rest.(items := [Star(AtomOf(re[0]))] + rest.items)
    else if re == "$" then Regex([], true)
    else
      var rest := Parse(re[1..]);
      rest.(items := [One(AtomOf(re[0]))] + rest.items)
  }

  // r matches the part of text that starts at i and ends at j.
  ghost predicate MatchesSpan(r: Regex, text: string, i: nat, j: nat) {
    && i <= j <= |text|
    && Denotes(r.items, text[i..j])
    && (r.atEnd ==> j == |text|)
  }

  ghost predicate MatchesFrom(r: Regex, text: string, i: nat) {
    exists j: nat :: MatchesSpan(r, text, i, j)
  }

  ghost predicate Matches(re: string, text: string) {
    if re != "" && re[0] == '^' then MatchesFrom(Parse(re[1..]), text, 0)
    else exists i: nat :: MatchesFrom(Parse(re), text, i)
  }

  // ----- Facts about the language

  lemma DenotesNil(s: string)
    ensures Denotes([], s) <==> s == ""
  {
    if s == "" {
      assert Splits([], s, []);
    }
  }

  // A nonempty sequence of items takes a first piece and leaves the rest.
  lemma DenotesCons(items: seq<Item>, s: string)
    requires items != []
    ensures Denotes(items, s) <==>
            exists k :: 0 <= k <= |s| && InItem(items[0], s[..k]) && Denotes(items[1..], s[k..])
  {
    if Denotes(items, s) {
      var pieces :| Splits(items, s, pieces);
      var k := |pieces[0]|;
      assert s[..k] == pieces[0] && s[k..] == Flatten(pieces[1..]);
      assert Splits(items[1..], s[k..], pieces[1..]);
    }
    if k :| 0 <= k <= |s| && InItem(items[0], s[..k]) && Denotes(items[1..], s[k..]) {
      var rest :| Splits(items[1..], s[k..], rest);
      var pieces := [s[..k]] + rest;
      assert pieces[1..] == rest && s == s[..k] + s[k..];
      assert Splits(items, s, pieces);
    }
  }

  lemma EmptyRegex(atEnd: bool, text: string, i: nat)
    requires i <= |text|
    ensures MatchesFrom(Regex([], atEnd), text, i) <==> !atEnd || i == |text|
  {
    var r := Regex([], atEnd);
    forall j | i <= j <= |text| ensures MatchesSpan(r, text, i, j) <==> j == i && (atEnd ==> j == |text|) {
      DenotesNil(text[i..j]);
    }
    assert MatchesSpan(r, text, i, i) <==> (atEnd ==> i == |text|);
  }

  // The first item takes text[i..k] and the others go on from k.
  ghost predicate Takes(r: Regex, text: string, i: nat, k: nat)
    requires r.items != []
  {
    i <= k <= |text| && InItem(r.items[0], text[i..k]) && MatchesFrom(r.(items := r.items[1..]), text, k)
  }

  lemma Slices(text: string, i: nat, k: nat, j: nat)
    requires i <= k <= j <= |text|
    ensures text[i..j][..k - i] == text[i..k] && text[i..j][k - i..] == text[k..j]
  {
  }

  lemma TakesFirst(r: Regex, text: string, i: nat) returns (k: nat)
    requires r.items != [] && MatchesFrom(r, text, i)
    ensures Takes(r, text, i, k)
  {
    var j: nat :| MatchesSpan(r, text, i, j);
    var s := text[i..j];
    DenotesCons(r.items, s);
    var n :| 0 <= n <= |s| && InItem(r.items[0], s[..n]) && Denotes(r.items[1..], s[n..]);
    k := i + n;
    Slices(text, i, k, j);
    assert MatchesSpan(r.(items := r.items[1..]), text, k, j);
  }

  lemma TakesMatches(r: Regex, text: string, i: nat, k: nat)
    requires r.items != [] && Takes(r, text, i, k)
    ensures MatchesFrom(r, text, i)
  {
    var j: nat :| MatchesSpan(r.(items := r.items[1..]), text, k, j);
    var s := text[i..j];
    Slices(text, i, k, j);
    DenotesCons(r.items, s);
    assert MatchesSpan(r, text, i, j);
  }

  lemma OneItem(a: Atom, r: Regex, text: string, i: nat)
    requires i <= |text|
    ensures MatchesFrom(r.(items := [One(a)] + r.items), text, i) <==>
            i < |text| && AtomMatches(a, text[i]) && MatchesFrom(r, text, i + 1)
  {
    var whole := r.(items := [One(a)] + r.items);
    assert whole.(items := whole.items[1..]) == r;
    if MatchesFrom(whole, text, i) {
      var k := TakesFirst(whole, text, i);
      assert text[i..k][0] == text[i];
    }
    if i < |text| && AtomMatches(a, text[i]) && MatchesFrom(r, text, i + 1) {
      assert InItem(One(a), text[i..i + 1]);
      TakesMatches(whole, text, i, i + 1);
    }
  }

  lemma StarItem(a: Atom, r: Regex, text: string, i: nat)
    requires i <= |text|
    ensures MatchesFrom(r.(items := [Star(a)] + r.items), text, i) <==>
            exists k :: i <= k <= |text| && AllMatch(a, text, i, k) && MatchesFrom(r, text, k)
  {
    var whole := r.(items := [Star(a)] + r.items);
    assert whole.(items := whole.items[1..]) == r;
    if MatchesFrom(whole, text, i) {
      var k := TakesFirst(whole, text, i);
      forall m | i <= m < k ensures AtomMatches(a, text[m]) {
        assert text[i..k][m - i] == text[m];
      }
      assert AllMatch(a, text, i, k);
    }
    if k :| i <= k <= |text| && AllMatch(a, text, i, k) && MatchesFrom(r, text, k) {
      TakesMatches(whole, text, i, k);
    }
  }

  predicate AllMatch(a: Atom, text: string, i: nat, k: nat)
    requires k <= |text|
  {
    forall m :: i <= m < k ==> AtomMatches(a, text[m])
  }

  // ----- Patterns and their spelling

  function AtomChar(a: Atom): char {
    if a.Any? then '.' else a.c
  }

  function Spelling(item: Item): string {
    if item.One? then [AtomChar(item.atom)] else [AtomChar(item.atom), '*']
  }

  function Spell(r: Regex): string
    decreases |r.items|
  {
    if r.items == [] then if r.atEnd then "$" else ""
    else Spelling(r.items[0]) + Spell(r.(items := r.items[1..]))
  }

  // No pattern is read as something with another spelling.
  lemma {:induction false} SpellParse(re: string)
    ensures Spell(Parse(re)) == re
  {
    if |re| >= 2 && re[1] == '*' {
      SpellParse(re[2..]);
      Unspell(Star(AtomOf(re[0])), Parse(re[2..]));
    } else if re != "" && re != "$" {
      SpellParse(re[1..]);
      Unspell(One(AtomOf(re[0])), Parse(re[1..]));
    }
  }

  lemma Unspell(item: Item, r: Regex)
    ensures Spell(r.(items := [item] + r.items)) == Spelling(item) + Spell(r)
  {
    var all := r.(items := [item] + r.items);
    assert all.(items := all.items[1..]) == r;
  }

  // What can be written: no literal dot, no literal star right after a single character, and no
  // literal $ at the end that would be read as the anchor.
  predicate Writable(r: Regex) {
    && (forall i :: 0 <= i < |r.items| ==> r.items[i].atom != Literal('.'))
    && (forall i :: 0 < i < |r.items| && r.items[i - 1].One? ==> r.items[i].atom != Literal('*'))
    && (r.items != [] && r.items[|r.items| - 1] == One(Literal('$')) ==> r.atEnd)
  }

  lemma WritableRest(r: Regex)
    requires Writable(r) && r.items != []
    ensures Writable(r.(items := r.items[1..]))
  {
    var rest := r.items[1..];
    assert forall i :: 0 <= i < |rest| ==> rest[i] == r.items[i + 1];
  }

  // Where the spelling of what follows a single character begins with a star, or is empty.
  lemma SpellStart(r: Regex)
    ensures Spell(r) == "" <==> r.items == [] && !r.atEnd
    ensures Spell(r) != "" && Spell(r)[0] == '*' <==> r.items != [] && r.items[0].atom == Literal('*')
  {
  }

  lemma ParseStar(c: char, tail: string)
    ensures Parse([c, '*'] + tail) == Parse(tail).(items := [Star(AtomOf(c))] + Parse(tail).items)
  {
    var s := [c, '*'] + tail;
    assert s[2..] == tail;
  }

  lemma ParseOne(c: char, tail: string)
    requires tail == "" ==> c != '$'
    requires tail != "" ==> tail[0] != '*'
    ensures Parse([c] + tail) == Parse(tail).(items := [One(AtomOf(c))] + Parse(tail).items)
  {
    var s := [c] + tail;
    assert s[1..] == tail && (tail != "" ==> s[1] == tail[0]);
  }

  lemma AfterOne(r: Regex)
    requires Writable(r) && r.items != [] && r.items[0].One?
    ensures var tail := Spell(r.(items := r.items[1..]));
            && (tail == "" ==> AtomChar(r.items[0].atom) != '$')
            && (tail != "" ==> tail[0] != '*')
  {
    var rest := r.(items := r.items[1..]);
    SpellStart(rest);
    assert rest.items != [] ==> rest.items[0] == r.items[1];
  }

  // One item and what follows it.
  lemma ParseItem(item: Item, r: Regex, tail: string)
    requires Parse(tail) == r && item.atom != Literal('.')
    requires item.One? ==> (tail == "" ==> AtomChar(item.atom) != '$') && (tail != "" ==> tail[0] != '*')
    ensures Parse(Spelling(item) + tail) == r.(items := [item] + r.items)
  {
    assert AtomOf(AtomChar(item.atom)) == item.atom;
    if item.Star? {
      ParseStar(AtomChar(item.atom), tail);
    } else {
      ParseOne(AtomChar(item.atom), tail);
    }
  }

  lemma Regroup(r: Regex)
    requires r.items != []
    ensures var rest := r.(items := r.items[1..]); rest.(items := [r.items[0]] + rest.items) == r
  {
  }

  // Everything that can be written is read back: a dot as any character, a star as a repetition of
  // the character before it, a final $ as the end of the text, and the rest as themselves.
  lemma {:induction false} ParseSpell(r: Regex)
    requires Writable(r)
    ensures Parse(Spell(r)) == r
    decreases |r.items|
  {
    if r.items != [] {
      var item, rest := r.items[0], r.(items := r.items[1..]);
      WritableRest(r);
      ParseSpell(rest);
      if item.One? {
        AfterOne(r);
      }
      ParseItem(item, rest, Spell(rest));
      Regroup(r);
    }
  }

  lemma WritableCons(item: Item, r: Regex)
    requires Writable(r) && item.atom != Literal('.')
    requires item.One? && r.items != [] ==> r.items[0].atom != Literal('*')
    requires item == One(Literal('$')) && r.items == [] ==> r.atEnd
    ensures Writable(r.(items := [item] + r.items))
  {
    var all := [item] + r.items;
    assert forall i :: 0 < i < |all| ==> all[i] == r.items[i - 1];
  }

  // Nothing else can: what is read off a pattern is writable.
  lemma {:induction false} ParseWritable(re: string)
    ensures Writable(Parse(re))
  {
    if |re| >= 2 && re[1] == '*' {
      ParseWritable(re[2..]);
      WritableCons(Star(AtomOf(re[0])), Parse(re[2..]));
    } else if re != "" && re != "$" {
      ParseWritable(re[1..]);
      SpellParse(re[1..]);
      SpellStart(Parse(re[1..]));
      WritableCons(One(AtomOf(re[0])), Parse(re[1..]));
    }
  }

  // ----- Patterns without special characters

  predicate Plain(re: string) {
    forall i :: 0 <= i < |re| ==> re[i] != '.' && re[i] != '*' && re[i] != '$' && re[i] != '^'
  }

  predicate FoundAt(re: string, text: string, i: nat) {
    i + |re| <= |text| && text[i..i + |re|] == re
  }

  lemma {:induction false} PlainFrom(re: string, text: string, i: nat)
    requires Plain(re) && i <= |text|
    ensures MatchesFrom(Parse(re), text, i) <==> FoundAt(re, text, i)
    decreases |re|
  {
    if re == "" {
      EmptyRegex(false, text, i);
    } else {
      OneItem(AtomOf(re[0]), Parse(re[1..]), text, i);
      if i < |text| {
        PlainFrom(re[1..], text, i + 1);
        if i + |re| <= |text| {
          assert text[i..i + |re|] == [text[i]] + text[i + 1..i + |re|];
          assert re == [re[0]] + re[1..];
        }
      }
    }
  }

  // They are found just where the text contains them.
  lemma PlainSearch(re: string, text: string)
    requires Plain(re)
    ensures Matches(re, text) <==> exists i: nat :: FoundAt(re, text, i)
  {
    if i: nat :| MatchesFrom(Parse(re), text, i) {
      PlainFrom(re, text, i);
    }
    if i: nat :| FoundAt(re, text, i) {
      PlainFrom(re, text, i);
    }
  }

  // ----- The code

  // text is a pointer in the source; here it is the string and a position in it.
  method MatchHere(re: CString, text: CString, i: nat) returns (found: bool)
    requires i <= |text|
    ensures found <==> MatchesFrom(Parse(re), text, i)
    decreases |re|, 0
  {
    if re == "" {
      EmptyRegex(false, text, i);
      return true;
    }
    if |re| >= 2 && re[1] == '*' {
      found := MatchStar(re[0], re[2..], text, i);
      return;
    }
    if re[0] == '$' && |re| == 1 {
      EmptyRegex(true, text, i);
      return i == |text|;
    }
    OneItem(AtomOf(re[0]), Parse(re[1..]), text, i);
    if i < |text| && (re[0] == '.' || re[0] == text[i]) {
      found := MatchHere(re[1..], text, i + 1);
      return;
    }
    return false;
  }

  method MatchStar(c: char, re: CString, text: CString, i: nat) returns (found: bool)
    requires i <= |text|
    ensures found <==> MatchesFrom(Parse(re).(items := [Star(AtomOf(c))] + Parse(re).items), text, i)
    decreases |re|, 1
  {
    ghost var a := AtomOf(c);
    StarItem(a, Parse(re), text, i);
    var t := i;
    while true
      invariant i <= t <= |text|
      invariant AllMatch(a, text, i, t)
      invariant forall k :: i <= k < t ==> !MatchesFrom(Parse(re), text, k)
      decreases |text| - t
    {
      var here := MatchHere(re, text, t);
      if here {
        return true;
      }
      if !(t < |text| && (text[t] == c || c == '.')) {
        return false;
      }
      t := t + 1;
    }
  }

  method Match(re: CString, text: CString) returns (found: bool)
    ensures found <==> Matches(re, text)
  {
    if re != "" && re[0] == '^' {
      found := MatchHere(re[1..], text, 0);
      return;
    }
    var t := 0;
    while true
      invariant t <= |text|
      invariant forall k: nat :: k < t ==> !MatchesFrom(Parse(re), text, k)
      decreases |text| - t
    {
      var here := MatchHere(re, text, t);
      if here {
        return true;
      }
      if t == |text| {
        return false;
      }
      t := t + 1;
    }
  }
}
