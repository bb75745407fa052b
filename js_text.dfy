/**
 * The JavaScript string operations the extractor applies to table cells:
 * `trim()`, `replace(/\s+/g, ' ')`, `replace(/<[^>]+>/g, '')`, the `&nbsp;`
 * replacement and count, `includes`, ASCII `toLowerCase` and `join`.
 * Strings are sequences of code points; see README for the UTF-16 caveat.
 */
module JsText {

  /** The characters JavaScript's `\s` matches and `trim` removes
      (WhiteSpace and LineTerminator of ECMA-262). */
  predicate IsSpace(c: char) {
    c == '\t' || c == '\n' || c == '\U{000B}' || c == '\U{000C}' || c == '\r' || c == ' '
    || c == '\U{00A0}' || c == '\U{1680}' || ('\U{2000}' <= c <= '\U{200A}')
    || c == '\U{2028}' || c == '\U{2029}' || c == '\U{202F}' || c == '\U{205F}'
    || c == '\U{3000}' || c == '\U{FEFF}'
  }

  /** `Math.min` on naturals. */
  function Min(a: nat, b: nat): nat { if a <= b then a else b }

  /** The number of white-space characters `s` starts with. */
  function LeadingSpaces(s: string): (k: nat)
    ensures k <= |s|
    ensures forall i :: 0 <= i < k ==> IsSpace(s[i])
    ensures k < |s| ==> !IsSpace(s[k])
  {
    if s != [] && IsSpace(s[0]) then 1 + LeadingSpaces(s[1..]) else 0
  }

  /** `s` with its leading white space removed. */
  function TrimStart(s: string): (r: string)
    ensures |r| <= |s| && r == s[|s| - |r|..]
    ensures forall i :: 0 <= i < |s| - |r| ==> IsSpace(s[i])
    ensures r == [] || !IsSpace(r[0])
  {
    s[LeadingSpaces(s)..]
  }

  /** `s` with its trailing white space removed. */
  function TrimEnd(s: string): (r: string)
    ensures |r| <= |s| && r == s[..|r|]
    ensures forall i :: |r| <= i < |s| ==> IsSpace(s[i])
    ensures r == [] || !IsSpace(r[|r| - 1])
  {
    if s != [] && IsSpace(s[|s| - 1]) then TrimEnd(s[..|s| - 1]) else s
  }

  /** JavaScript's `trim()`: the longest slice of `s` that neither starts nor ends with white space. */
  function Trim(s: string): (r: string)
    ensures LeadingSpaces(s) + |r| <= |s| && r == s[LeadingSpaces(s)..LeadingSpaces(s) + |r|]
    ensures forall i :: LeadingSpaces(s) + |r| <= i < |s| ==> IsSpace(s[i])
    ensures r == [] || (!IsSpace(r[0]) && !IsSpace(r[|r| - 1]))
  {
    TrimEnd(TrimStart(s))
  }

  /** The characters of `s` that are not white space, in order. */
  function Visible(s: string): string {
    if s == [] then [] else (if IsSpace(s[0]) then [] else [s[0]]) + Visible(s[1..])
  }

  /** The only white space in `r` is single spaces. */
  predicate SingleSpaced(r: string) {
    && (forall i :: 0 <= i < |r| && IsSpace(r[i]) ==> r[i] == ' ')
    && (forall i :: 0 <= i < |r| - 1 ==> !(r[i] == ' ' && r[i + 1] == ' '))
  }

  /** `s.replace(/\s+/g, ' ')`: every maximal run of white space becomes one space. */
  function CollapseSpaces(s: string): (r: string)
    ensures Visible(r) == Visible(s)
    ensures SingleSpaced(r)
    ensures r == [] <==> s == []
    ensures r != [] ==> (IsSpace(r[0]) <==> IsSpace(s[0]))
    ensures r != [] ==> (IsSpace(r[|r| - 1]) <==> IsSpace(s[|s| - 1]))
    decreases |s|
  {
    if s == [] then []
    else if IsSpace(s[0]) then
      SkipRun(s);
      var rest := CollapseSpaces(TrimStart(s[1..]));
      SpaceBeforeText(rest);
      " " + rest
    else
      var rest := CollapseSpaces(s[1..]);
      TextBefore(s[0], rest);
      [s[0]] + rest
  }

  lemma SpaceBeforeText(x: string)
    requires SingleSpaced(x) && (x == [] || !IsSpace(x[0]))
    ensures SingleSpaced(" " + x) && Visible(" " + x) == Visible(x)
    ensures x != [] ==> (" " + x)[|x|] == x[|x| - 1]
  {
    ConsSingleSpaced(' ', x);
    assert (" " + x)[1..] == x;
  }

  lemma TextBefore(c: char, x: string)
    requires SingleSpaced(x) && !IsSpace(c)
    ensures SingleSpaced([c] + x) && Visible([c] + x) == [c] + Visible(x)
    ensures x != [] ==> ([c] + x)[|x|] == x[|x| - 1]
  {
    ConsSingleSpaced(c, x);
    assert ([c] + x)[1..] == x;
  }

  /** A single-spaced text stays single-spaced behind a character that is a plain space
      followed by no space, or no white space at all. */
  lemma ConsSingleSpaced(c: char, x: string)
    requires SingleSpaced(x)
    requires IsSpace(c) ==> c == ' ' && (x == [] || !IsSpace(x[0]))
    ensures SingleSpaced([c] + x)
  {
    var r := [c] + x;
    forall i | 0 <= i < |r| && IsSpace(r[i])
      ensures r[i] == ' '
    {
      if i > 0 {
        assert r[i] == x[i - 1];
      }
    }
    forall i | 0 <= i < |r| - 1
      ensures !(r[i] == ' ' && r[i + 1] == ' ')
    {
      assert r[i + 1] == x[i];
      if i > 0 {
        assert r[i] == x[i - 1];
      }
    }
  }

  /** A run of white space has nothing visible; what follows it keeps the last character. */
  lemma SkipRun(s: string)
    requires s != [] && IsSpace(s[0])
    ensures Visible(TrimStart(s[1..])) == Visible(s)
    ensures TrimStart(s[1..]) == [] ==> IsSpace(s[|s| - 1])
    ensures TrimStart(s[1..]) != [] ==> s[|s| - 1] == TrimStart(s[1..])[|TrimStart(s[1..])| - 1]
  {
    var t := s[1..];
    assert Visible(s) == Visible(t);
    TrimStartVisible(t);
  }

  /** Removing leading white space keeps the visible characters. */
  lemma {:induction false} TrimStartVisible(t: string)
    ensures Visible(TrimStart(t)) == Visible(t)
  {
    if t != [] && IsSpace(t[0]) {
      assert t[LeadingSpaces(t)..] == t[1..][LeadingSpaces(t[1..])..];
      TrimStartVisible(t[1..]);
    }
  }

  /** Removing trailing white space keeps the visible characters. */
  lemma {:induction false} TrimEndVisible(t: string)
    ensures Visible(TrimEnd(t)) == Visible(t)
  {
    if t != [] && IsSpace(t[|t| - 1]) {
      var u := t[..|t| - 1];
      assert t == u + [t[|t| - 1]];
      VisibleAppend(u, [t[|t| - 1]]);
      assert Visible([t[|t| - 1]]) == [];
      TrimEndVisible(u);
    }
  }

  lemma {:induction false} VisibleAppend(a: string, b: string)
    ensures Visible(a + b) == Visible(a) + Visible(b)
  {
    if a == [] {
      assert a + b == b;
    } else {
      var h := if IsSpace(a[0]) then [] else [a[0]];
      assert (a + b)[0] == a[0] && (a + b)[1..] == a[1..] + b;
      assert Visible(a + b) == h + Visible(a[1..] + b);
      VisibleAppend(a[1..], b);
      assert h + (Visible(a[1..]) + Visible(b)) == (h + Visible(a[1..])) + Visible(b);
    }
  }

  /** `w` is white space only. */
  predicate AllSpace(w: string) {
    forall i :: 0 <= i < |w| ==> IsSpace(w[i])
  }

  /** A text with no white space is left as it is. */
  lemma {:induction false} CollapseNoSpace(t: string)
    requires forall i :: 0 <= i < |t| ==> !IsSpace(t[i])
    ensures CollapseSpaces(t) == t
    decreases |t|
  {
    if t != [] {
      CollapseNoSpace(t[1..]);
      assert t == [t[0]] + t[1..];
    }
  }

  /** A run of white space in front of a word, or of nothing, is removed exactly. */
  lemma {:induction false} TrimStartRun(w: string, b: string)
    requires AllSpace(w)
    requires b == [] || !IsSpace(b[0])
    ensures TrimStart(w + b) == b
    decreases |w|
  {
    var s := w + b;
    if w == [] {
      assert s == b;
    } else {
      assert s[0] == w[0] && s[1..] == w[1..] + b;
      assert s[LeadingSpaces(s)..] == s[1..][LeadingSpaces(s[1..])..];
      TrimStartRun(w[1..], b);
    }
  }

  /** Trimming the start of a text that ends in a visible character never reaches what follows it. */
  lemma {:induction false} TrimStartAppend(x: string, y: string)
    requires x != [] && !IsSpace(x[|x| - 1])
    ensures TrimStart(x + y) == TrimStart(x) + y
    decreases |x|
  {
    var s := x + y;
    assert s[0] == x[0] && s[1..] == x[1..] + y;
    if IsSpace(x[0]) {
      assert s[LeadingSpaces(s)..] == s[1..][LeadingSpaces(s[1..])..];
      assert x[LeadingSpaces(x)..] == x[1..][LeadingSpaces(x[1..])..];
      TrimStartAppend(x[1..], y);
    }
  }

  /** Collapsing splits at a boundary that does not fall inside a run of white space. */
  lemma {:induction false} CollapseAppend(x: string, y: string)
    requires x == [] || !IsSpace(x[|x| - 1])
    ensures CollapseSpaces(x + y) == CollapseSpaces(x) + CollapseSpaces(y)
    decreases |x|
  {
    if x == [] {
      assert x + y == y;
    } else {
      var t := x[1..];
      assert (x + y)[0] == x[0] && (x + y)[1..] == t + y;
      CollapseHead(x);
      CollapseHead(x + y);
      if IsSpace(x[0]) {
        TrimStartAppend(t, y);
        var u := TrimStart(t);
        assert u != [] && u[|u| - 1] == x[|x| - 1];
        CollapseAppend(u, y);
        Regroup(" ", CollapseSpaces(u), CollapseSpaces(y));
      } else {
        CollapseAppend(t, y);
        Regroup([x[0]], CollapseSpaces(t), CollapseSpaces(y));
      }
    }
  }

  /** One step of the collapse. */
  lemma CollapseHead(s: string)
    requires s != []
    ensures IsSpace(s[0]) ==> CollapseSpaces(s) == " " + CollapseSpaces(TrimStart(s[1..]))
    ensures !IsSpace(s[0]) ==> CollapseSpaces(s) == [s[0]] + CollapseSpaces(s[1..])
  {
  }

  lemma Regroup(a: string, b: string, c: string)
    ensures a + (b + c) == (a + b) + c
  {
  }

  /** Every run of white space between two words becomes exactly one space. */
  lemma CollapseSpaceRun(a: string, w: string, b: string)
    requires a == [] || !IsSpace(a[|a| - 1])
    requires w != [] && AllSpace(w)
    requires b == [] || !IsSpace(b[0])
    ensures CollapseSpaces(a + (w + b)) == CollapseSpaces(a) + (" " + CollapseSpaces(b))
  {
    CollapseAppend(a, w + b);
    CollapseRunHead(w, b);
  }

  /** A text that starts with a run of white space collapses to one space and the rest. */
  lemma CollapseRunHead(w: string, b: string)
    requires w != [] && AllSpace(w)
    requires b == [] || !IsSpace(b[0])
    ensures CollapseSpaces(w + b) == " " + CollapseSpaces(b)
  {
    var s := w + b;
    assert s[0] == w[0] && s[1..] == w[1..] + b;
    TrimStartRun(w[1..], b);
    CollapseHead(s);
  }

  /** The length of the word `s` starts with. */
  function WordLength(s: string): (k: nat)
    ensures k <= |s|
    ensures forall i :: 0 <= i < k ==> !IsSpace(s[i])
    ensures k < |s| ==> IsSpace(s[k])
  {
    if s != [] && !IsSpace(s[0]) then 1 + WordLength(s[1..]) else 0
  }

  /** A word: a non-empty text without white space. */
  predicate IsWord(w: string) {
    w != [] && forall i :: 0 <= i < |w| ==> !IsSpace(w[i])
  }

  /** The maximal runs of characters of `s` that are not white space, in order. */
  function Words(s: string): (ws: seq<string>)
    ensures forall i :: 0 <= i < |ws| ==> IsWord(ws[i])
    decreases |s|
  {
    if s == [] then []
    else if IsSpace(s[0]) then Words(s[1..])
    else [s[..WordLength(s)]] + Words(s[WordLength(s)..])
  }

  /** A word followed by white space, or by nothing, is the first of the words. */
  lemma WordsOfWord(x: string, t: string)
    requires IsWord(x)
    requires t == [] || IsSpace(t[0])
    ensures Words(x + t) == [x] + Words(t)
  {
    var s := x + t;
    assert forall i :: 0 <= i < |x| ==> s[i] == x[i];
    if t != [] {
      assert s[|x|] == t[0];
    }
    assert s[..|x|] == x && s[|x|..] == t;
  }

  /** White space in front of a text separates no word. */
  lemma {:induction false} WordsAfterSpace(w: string, t: string)
    requires AllSpace(w)
    ensures Words(w + t) == Words(t)
    decreases |w|
  {
    if w == [] {
      assert w + t == t;
    } else {
      assert (w + t)[0] == w[0] && (w + t)[1..] == w[1..] + t;
      WordsAfterSpace(w[1..], t);
    }
  }

  /** A text that starts and ends with a visible character collapses to its words joined by
      single spaces. */
  lemma {:induction false} CollapseWords(t: string)
    requires t == [] || (!IsSpace(t[0]) && !IsSpace(t[|t| - 1]))
    ensures CollapseSpaces(t) == Join(Words(t), " ")
    decreases |t|
  {
    if t != [] {
      var k := WordLength(t);
      var word := t[..k];
      CollapseNoSpace(word);
      if k == |t| {
        assert word == t && t[k..] == [];
      } else {
        var w, b := SplitFirstWord(t);
        CollapseSpaceRun(word, w, b);
        CollapseWords(b);
        JoinCons(word, Words(b));
        Regroup(word, " ", Join(Words(b), " "));
      }
    }
  }

  /** A text of several words is its first word, a run of white space, and the rest. */
  lemma SplitFirstWord(t: string) returns (w: string, b: string)
    requires t != [] && !IsSpace(t[0]) && !IsSpace(t[|t| - 1])
    requires WordLength(t) < |t|
    ensures t == t[..WordLength(t)] + (w + b)
    ensures w != [] && AllSpace(w)
    ensures b != [] && !IsSpace(b[0]) && !IsSpace(b[|b| - 1]) && |b| < |t|
    ensures Words(t) == [t[..WordLength(t)]] + Words(b)
  {
    var k := WordLength(t);
    var rest := t[k..];
    b := TrimStart(rest);
    w := rest[..|rest| - |b|];
    assert b != [] && b[|b| - 1] == t[|t| - 1];
    assert rest == w + b;
    WordsTrimStart(rest);
  }

  /** Joining a word in front of a non-empty list puts one separator between them. */
  lemma JoinCons(x: string, ws: seq<string>)
    requires ws != []
    ensures Join([x] + ws, " ") == x + " " + Join(ws, " ")
  {
    assert ([x] + ws)[1..] == ws;
  }

  /** Leading white space separates no word. */
  lemma {:induction false} WordsTrimStart(s: string)
    ensures Words(TrimStart(s)) == Words(s)
    decreases |s|
  {
    if s != [] && IsSpace(s[0]) {
      assert s[LeadingSpaces(s)..] == s[1..][LeadingSpaces(s[1..])..];
      WordsTrimStart(s[1..]);
    }
  }

  /** White space alone holds no word. */
  lemma {:induction false} WordsBlank(w: string)
    requires AllSpace(w)
    ensures Words(w) == []
    decreases |w|
  {
    if w != [] {
      WordsBlank(w[1..]);
    }
  }

  /** Trailing white space separates no word. */
  lemma {:induction false} WordsTrail(x: string, w: string)
    requires AllSpace(w)
    ensures Words(x + w) == Words(x)
    decreases |x|
  {
    if x == [] {
      assert x + w == w;
      WordsBlank(w);
    } else if IsSpace(x[0]) {
      assert (x + w)[1..] == x[1..] + w;
      WordsTrail(x[1..], w);
    } else {
      var k := WordLength(x);
      assert (x + w)[..k] == x[..k] && (x + w)[k..] == x[k..] + w;
      WordsTrail(x[k..], w);
    }
  }

  /** `s.trim().replace(/\s+/g, ' ')` is the words of `s` joined by single spaces. */
  lemma CollapseTrimWords(s: string)
    ensures CollapseSpaces(Trim(s)) == Join(Words(s), " ")
  {
    var v := TrimStart(s);
    var r := TrimEnd(v);
    assert v == r + v[|r|..];
    WordsTrail(r, v[|r|..]);
    WordsTrimStart(s);
    CollapseWords(r);
  }

  /** The index of the first `c` in `s`, or `|s|` when there is none. */
  function IndexOf(s: string, c: char): (k: nat)
    ensures k <= |s| && c !in s[..k]
    ensures k < |s| ==> s[k] == c
  {
    if s == [] || s[0] == c then 0 else 1 + IndexOf(s[1..], c)
  }

  /** The length of the match of `<[^>]+>` at the start of `s`, or 0 when it does not match there. */
  function TagLength(s: string): (n: nat)
    ensures n == 0 || (3 <= n <= |s| && s[0] == '<' && s[n - 1] == '>' && '>' !in s[1..n - 1])
    ensures n == 0 && |s| >= 2 && s[0] == '<' ==> s[1] == '>' || '>' !in s[1..]
  {
    if |s| >= 2 && s[0] == '<' && s[1] != '>' then
      var k := 1 + IndexOf(s[1..], '>');
      assert s[1..][..k - 1] == s[1..k];
      if k < |s| then k + 1 else 0
    else 0
  }

  /** No match of `<[^>]+>` starts anywhere in `s`. */
  predicate NoTag(s: string) {
    forall i :: 0 <= i < |s| ==> TagLength(s[i..]) == 0
  }

  /** `s.replace(/<[^>]+>/g, '')`: every tag found in a left-to-right scan is deleted. */
  function StripTags(s: string): (r: string)
    ensures |r| <= |s|
    ensures forall c :: c in r ==> c in s
    ensures '<' !in s ==> r == s
  {
    if s == [] then []
    else
      var n := TagLength(s);
      if n > 0 then StripTags(s[n..]) else [s[0]] + StripTags(s[1..])
  }

  /** Text before the first `<` is kept as it is. */
  lemma {:induction false} StripTagsPlain(p: string, t: string)
    requires '<' !in p
    ensures StripTags(p + t) == p + StripTags(t)
    decreases |p|
  {
    if p == [] {
      assert p + t == t;
    } else {
      var s := p + t;
      assert s[0] == p[0] && s[1..] == p[1..] + t;
      StripTagsHead(s);
      StripTagsPlain(p[1..], t);
      Regroup([p[0]], p[1..], StripTags(t));
      assert [p[0]] + p[1..] == p;
    }
  }

  /** A character other than `<` is kept. */
  lemma StripTagsHead(s: string)
    requires s != [] && s[0] != '<'
    ensures StripTags(s) == [s[0]] + StripTags(s[1..])
  {
  }

  /** A whole tag `<x>`, with no `>` inside, is deleted. */
  lemma StripTagsTag(x: string, t: string)
    requires |x| >= 3 && x[0] == '<' && x[1] != '>' && x[|x| - 1] == '>'
    requires forall i :: 1 <= i < |x| - 1 ==> x[i] != '>'
    ensures StripTags(x + t) == StripTags(t)
  {
    var s := x + t;
    var k := IndexOf(s[1..], '>');
    assert forall i :: 0 <= i < |x| - 1 ==> s[1..][i] == x[i + 1];
    assert s[|x|..] == t;
  }

  /** No tag is left once the tags are stripped: a `<` that survives is followed directly by
      `>` or by no `>` at all. */
  lemma {:induction false} StripTagsClean(s: string)
    ensures NoTag(StripTags(s))
    decreases |s|
  {
    if s != [] {
      var n := TagLength(s);
      if n > 0 {
        StripTagsClean(s[n..]);
      } else {
        StripTagsClean(s[1..]);
        KeptHead(s);
        KeptTail(s[0], StripTags(s[1..]));
      }
    }
  }

  /** A character the scan keeps does not start a tag in what is left. */
  lemma KeptHead(s: string)
    requires s != [] && TagLength(s) == 0
    ensures TagLength([s[0]] + StripTags(s[1..])) == 0
  {
    var rest := StripTags(s[1..]);
    var r := [s[0]] + rest;
    if s[0] == '<' && |s| >= 2 {
      if s[1] == '>' {
        assert TagLength(s[1..]) == 0;
        assert rest == [s[1]] + StripTags(s[2..]) by { assert s[1..][1..] == s[2..]; }
        assert r[1] == '>';
      } else {
        assert '>' !in s[1..];
        assert '>' !in rest;
        assert r[1..] == rest;
        assert IndexOf(r[1..], '>') == |rest|;
      }
    }
  }

  /** Putting one character in front of a tag-free string adds no tag after it. */
  lemma KeptTail(c: char, rest: string)
    requires NoTag(rest) && TagLength([c] + rest) == 0
    ensures NoTag([c] + rest)
  {
    var r := [c] + rest;
    forall i | 1 <= i < |r|
      ensures TagLength(r[i..]) == 0
    {
      assert r[i..] == rest[i - 1..];
    }
  }

  /** `NoTag` character by character: a `<` that is not directly followed by `>` has no `>`
      anywhere after it. */
  predicate Untagged(s: string) {
    s == [] || ((s[0] == '<' && |s| >= 2 && s[1] != '>' ==> '>' !in s[1..]) && Untagged(s[1..]))
  }

  lemma {:induction false} UntaggedIsNoTag(s: string)
    ensures Untagged(s) <==> NoTag(s)
  {
    if s != [] {
      UntaggedIsNoTag(s[1..]);
      NoTagCons(s);
      TagShape(s);
    }
  }

  /** No tag starts anywhere in `s` when none starts at its head or in its tail. */
  lemma NoTagCons(s: string)
    requires s != []
    ensures NoTag(s) <==> TagLength(s) == 0 && NoTag(s[1..])
  {
    if NoTag(s) {
      assert s[0..] == s;
      forall j | 0 <= j < |s[1..]|
        ensures TagLength(s[1..][j..]) == 0
      {
        assert s[1..][j..] == s[j + 1..];
      }
    }
    if TagLength(s) == 0 && NoTag(s[1..]) {
      forall i | 0 <= i < |s|
        ensures TagLength(s[i..]) == 0
      {
        if i == 0 {
          assert s[i..] == s;
        } else {
          assert s[i..] == s[1..][i - 1..];
        }
      }
    }
  }

  /** A tag starts with `<`, is not `<>`, and has a `>` after its first character. */
  lemma TagShape(t: string)
    ensures TagLength(t) > 0 ==> |t| >= 2 && t[0] == '<' && t[1] != '>' && '>' in t[1..]
  {
    var n := TagLength(t);
    if n > 0 {
      assert t[1..n - 1][0] == t[1];
      assert t[1..][n - 2] == '>';
    }
  }

  /** How `Untagged` decomposes at the first character. */
  lemma UntaggedCons(c: char, x: string)
    ensures Untagged([c] + x) <==> Untagged(x) && (c == '<' && x != [] && x[0] != '>' ==> '>' !in x)
  {
    assert ([c] + x)[1..] == x;
  }

  lemma {:induction false} UntaggedSuffix(s: string, a: nat)
    requires Untagged(s) && a <= |s|
    ensures Untagged(s[a..])
  {
    if a > 0 {
      UntaggedSuffix(s[1..], a - 1);
      assert s[1..][a - 1..] == s[a..];
    }
  }

  lemma {:induction false} UntaggedPrefix(s: string, b: nat)
    requires Untagged(s) && b <= |s|
    ensures Untagged(s[..b])
  {
    if b > 0 {
      var t := s[..b];
      UntaggedPrefix(s[1..], b - 1);
      assert t[1..] == s[1..][..b - 1];
      assert '>' in t[1..] ==> '>' in s[1..];
    }
  }

  lemma UntaggedSlice(s: string, a: nat, b: nat)
    requires Untagged(s) && a <= b <= |s|
    ensures Untagged(s[a..b])
  {
    UntaggedSuffix(s, a);
    UntaggedPrefix(s[a..], b - a);
    assert s[a..][..b - a] == s[a..b];
  }

  /** The characters of the markup entity for a non-breaking space. */
  const Nbsp: string := "&nbsp;"

  /** `s.replace(/&nbsp;/g, with)`: every occurrence, found left to right, is replaced by `with`. */
  function ReplaceNbsp(s: string, with: string): (r: string)
    ensures with == "" ==> |r| == |s| - 6 * CountNbsp(s)
    ensures with == " " ==> |r| == |s| - 5 * CountNbsp(s)
  {
    if |s| >= |Nbsp| && s[..|Nbsp|] == Nbsp then with + ReplaceNbsp(s[|Nbsp|..], with)
    else if s == [] then []
    else [s[0]] + ReplaceNbsp(s[1..], with)
  }

  /** Text before the first `&` is kept as it is. */
  lemma {:induction false} ReplaceNbspPlain(p: string, t: string, with: string)
    requires '&' !in p
    ensures ReplaceNbsp(p + t, with) == p + ReplaceNbsp(t, with)
    decreases |p|
  {
    if p == [] {
      assert p + t == t;
    } else {
      var s := p + t;
      assert s[0] == p[0] && s[1..] == p[1..] + t;
      ReplaceNbspHead(s, with);
      ReplaceNbspPlain(p[1..], t, with);
      Regroup([p[0]], p[1..], ReplaceNbsp(t, with));
      assert [p[0]] + p[1..] == p;
    }
  }

  /** A character other than `&` is kept. */
  lemma ReplaceNbspHead(s: string, with: string)
    requires s != [] && s[0] != '&'
    ensures ReplaceNbsp(s, with) == [s[0]] + ReplaceNbsp(s[1..], with)
  {
    assert !(|s| >= |Nbsp| && s[..|Nbsp|] == Nbsp) by {
      if |s| >= |Nbsp| {
        assert s[..|Nbsp|][0] == s[0];
      }
    }
  }

  /** An entity is replaced. */
  lemma ReplaceNbspEntity(t: string, with: string)
    ensures ReplaceNbsp(Nbsp + t, with) == with + ReplaceNbsp(t, with)
  {
    assert (Nbsp + t)[..|Nbsp|] == Nbsp && (Nbsp + t)[|Nbsp|..] == t;
  }

  /** After `ReplaceNbsp(s, " ")` no `&nbsp;` is left: a space cannot start one or complete one. */
  lemma {:induction false} NbspGone(s: string)
    ensures CountNbsp(ReplaceNbsp(s, " ")) == 0
  {
    if |s| >= |Nbsp| && s[..|Nbsp|] == Nbsp {
      NbspGone(s[|Nbsp|..]);
      var r := ReplaceNbsp(s, " ");
      assert r == " " + ReplaceNbsp(s[|Nbsp|..], " ");
      assert !(|r| >= |Nbsp| && r[..|Nbsp|] == Nbsp) by { assert r[0] == ' '; }
      assert r[1..] == ReplaceNbsp(s[|Nbsp|..], " ");
      NoNbspAfterSpace(ReplaceNbsp(s[|Nbsp|..], " "));
    } else if s != [] {
      NbspGone(s[1..]);
      var rest := ReplaceNbsp(s[1..], " ");
      var r := [s[0]] + rest;
      if |r| >= |Nbsp| && r[..|Nbsp|] == Nbsp {
        assert rest[..5] == r[1..6] == Nbsp[1..];
        ReplacedPrefix(s[1..], "nbsp;");
        assert false;
      }
      assert r[1..] == rest;
    }
  }

  lemma NoNbspAfterSpace(t: string)
    requires CountNbsp(t) == 0
    ensures CountNbsp(" " + t) == 0
  {
    var u := " " + t;
    assert u[0] == ' ' && u[1..] == t;
    assert !(|u| >= |Nbsp| && u[..|Nbsp|] == Nbsp) by { assert Nbsp[0] == '&'; }
  }

  /** A prefix without spaces or ampersands in `ReplaceNbsp(t, " ")` was already there in `t`. */
  lemma {:induction false} ReplacedPrefix(t: string, w: string)
    requires forall i :: 0 <= i < |w| ==> w[i] != ' ' && w[i] != '&'
    requires |w| <= |ReplaceNbsp(t, " ")| && ReplaceNbsp(t, " ")[..|w|] == w
    ensures |w| <= |t| && t[..|w|] == w
  {
    if w != [] {
      var r := ReplaceNbsp(t, " ");
      assert r[0] == w[0];
      assert !(|t| >= |Nbsp| && t[..|Nbsp|] == Nbsp);
      assert t != [];
      assert r == [t[0]] + ReplaceNbsp(t[1..], " ");
      assert ReplaceNbsp(t[1..], " ")[..|w| - 1] == w[1..];
      ReplacedPrefix(t[1..], w[1..]);
    }
  }

  /** What the tag stripping leaves is untagged. */
  lemma StripTagsUntagged(s: string)
    ensures Untagged(StripTags(s))
  {
    StripTagsClean(s);
    UntaggedIsNoTag(StripTags(s));
  }

  /** Trimming creates no tag. */
  lemma TrimUntagged(s: string)
    requires Untagged(s)
    ensures Untagged(Trim(s))
  {
    var u := TrimStart(s);
    UntaggedSuffix(s, |s| - |u|);
    UntaggedPrefix(u, |TrimEnd(u)|);
  }

  /** Replacing `&nbsp;` by spaces creates no tag. */
  lemma {:induction false} ReplaceUntagged(s: string)
    requires Untagged(s)
    ensures Untagged(ReplaceNbsp(s, " "))
  {
    if |s| >= |Nbsp| && s[..|Nbsp|] == Nbsp {
      UntaggedSlice(s, |Nbsp|, |s|);
      assert s[|Nbsp|..|s|] == s[|Nbsp|..];
      ReplaceUntagged(s[|Nbsp|..]);
      UntaggedCons(' ', ReplaceNbsp(s[|Nbsp|..], " "));
    } else if s != [] {
      var t := s[1..];
      UntaggedSlice(s, 1, |s|);
      assert s[1..|s|] == t && s == [s[0]] + t;
      ReplaceUntagged(t);
      ReplaceKeepsGt(t);
      if t != [] && t[0] == '>' {
        ReplaceHead(t);
      }
      KeepUntagged(s[0], t, ReplaceNbsp(t, " "));
    }
  }

  /** A step that maps `t` to `u` without adding a `>` and keeping a leading `>` keeps a
      character in front of it untagged. */
  lemma KeepUntagged(c: char, t: string, u: string)
    requires Untagged([c] + t) && Untagged(u)
    requires '>' !in t ==> '>' !in u
    requires t != [] && t[0] == '>' ==> u != [] && u[0] == '>'
    ensures Untagged([c] + u)
  {
    UntaggedCons(c, t);
    UntaggedCons(c, u);
  }

  lemma {:induction false} ReplaceKeepsGt(t: string)
    ensures '>' !in t ==> '>' !in ReplaceNbsp(t, " ")
  {
    if |t| >= |Nbsp| && t[..|Nbsp|] == Nbsp {
      ReplaceKeepsGt(t[|Nbsp|..]);
    } else if t != [] {
      ReplaceKeepsGt(t[1..]);
    }
  }

  lemma ReplaceHead(t: string)
    requires t != [] && t[0] != '&'
    ensures ReplaceNbsp(t, " ") != [] && ReplaceNbsp(t, " ")[0] == t[0]
  {
    assert !(|t| >= |Nbsp| && t[..|Nbsp|] == Nbsp) by {
      if |t| >= |Nbsp| { assert t[..|Nbsp|][0] == t[0]; }
    }
  }

  /** Collapsing white space creates no tag. */
  lemma {:induction false} CollapseUntagged(s: string)
    requires Untagged(s)
    ensures Untagged(CollapseSpaces(s))
    decreases |s|
  {
    if s != [] {
      UntaggedSuffix(s, 1);
      if IsSpace(s[0]) {
        UntaggedSuffix(s[1..], LeadingSpaces(s[1..]));
        CollapseUntagged(TrimStart(s[1..]));
        CollapseSpaceHead(s, TrimStart(s[1..]));
      } else {
        CollapseUntagged(s[1..]);
        CollapseTextHead(s, s[1..]);
      }
    }
  }

  lemma CollapseSpaceHead(s: string, rest: string)
    requires s != [] && IsSpace(s[0]) && rest == TrimStart(s[1..])
    requires Untagged(CollapseSpaces(rest))
    ensures Untagged(CollapseSpaces(s))
  {
    UntaggedCons(' ', CollapseSpaces(rest));
  }

  lemma CollapseTextHead(s: string, t: string)
    requires s != [] && !IsSpace(s[0]) && t == s[1..]
    requires Untagged(s) && Untagged(CollapseSpaces(t))
    ensures Untagged(CollapseSpaces(s))
  {
    assert s == [s[0]] + t;
    VisibleHas(t, '>');
    VisibleHas(CollapseSpaces(t), '>');
    if t != [] && t[0] == '>' {
      assert CollapseSpaces(t) == [t[0]] + CollapseSpaces(t[1..]);
    }
    KeepUntagged(s[0], t, CollapseSpaces(t));
  }

  /** A character that is not white space occurs in `s` exactly when it occurs in `Visible(s)`. */
  lemma {:induction false} VisibleHas(s: string, c: char)
    requires !IsSpace(c)
    ensures c in s <==> c in Visible(s)
  {
    if s != [] {
      VisibleHas(s[1..], c);
      assert s == [s[0]] + s[1..];
    }
  }

  /** `(s.match(/&nbsp;/g) || []).length`. */
  function CountNbsp(s: string): (n: nat)
    ensures 6 * n <= |s|
  {
    if |s| >= |Nbsp| && s[..|Nbsp|] == Nbsp then 1 + CountNbsp(s[|Nbsp|..])
    else if s == [] then 0
    else CountNbsp(s[1..])
  }

  /** `s.includes(sub)`. */
  predicate Contains(s: string, sub: string) {
    sub <= s || (s != [] && Contains(s[1..], sub))
  }

  /** ASCII `toLowerCase` of one character. */
  function LowerChar(c: char): char {
    if 'A' <= c <= 'Z' then (c as int + 32) as char else c
  }

  /** ASCII `toLowerCase`. */
  function Lower(s: string): (r: string)
    ensures |r| == |s|
    ensures forall i :: 0 <= i < |s| ==> r[i] == LowerChar(s[i])
  {
    if s == [] then [] else [LowerChar(s[0])] + Lower(s[1..])
  }

  /** `xs.join(sep)`. */
  function Join(xs: seq<string>, sep: string): string {
    if xs == [] then []
    else if |xs| == 1 then xs[0]
    else xs[0] + sep + Join(xs[1..], sep)
  }
}
