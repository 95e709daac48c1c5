/**
 * Text with triple-brace tokens, as a non-greedy global match reads it
 * (packages/cli/src/translate.ts, `TRIPLE_BRACE_RE`), and what replacing each
 * token's inside keeps.
 */
module Braces {
  import opened Common

  /** Text before a token, the token's inside, and what follows; or text with no token left in it. */
  datatype Doc = End(text: string) | Token(text: string, inner: string, rest: Doc)

  predicate Triple(s: string, k: nat, c: char) { k + 3 <= |s| && s[k] == c && s[k + 1] == c && s[k + 2] == c }

  /** The first place at or after `i` that holds three of `c`. */
  function Find(s: string, c: char, i: nat): (at: Option<nat>)
    ensures at.Some? ==> i <= at.value <= |s| - 3
    decreases |s| - i
  {
    if i + 3 > |s| then None else if Triple(s, i, c) then Some(i) else Find(s, c, i + 1)
  }

  /** Leftmost first and as short as it closes; an opening that nothing closes is text, and so is any after it. */
  function Parse(s: string): Doc
    decreases |s|
  {
    match Find(s, '{', 0)
    case None => End(s)
    case Some(a) =>
      match Find(s, '}', a + 3)
      case None => End(s)
      case Some(b) => Token(s[..a], s[a + 3..b], Parse(s[b + 3..]))
  }

  function Braced(inner: string): string { "{{{" + inner + "}}}" }

  function Render(d: Doc): string {
    match d
    case End(text) => text
    case Token(text, inner, rest) => text + (Braced(inner) + Render(rest))
  }

  /** What replaces a token's inside: nothing leaves it. */
  type Rule = string -> Option<string>

  function NewInner(inner: string, rule: Rule): string {
    var new_ := rule(inner);
    if new_.Some? then new_.value else inner
  }

  function Rewritten(d: Doc, rule: Rule): Doc {
    match d
    case End(text) => d
    case Token(text, inner, rest) => Token(text, NewInner(inner, rule), Rewritten(rest, rule))
  }

  function Inners(d: Doc): seq<string> {
    match d
    case End(_) => []
    case Token(_, inner, rest) => [inner] + Inners(rest)
  }

  function Texts(d: Doc): seq<string> {
    match d
    case End(text) => [text]
    case Token(text, _, rest) => [text] + Texts(rest)
  }

  // ---- Finding across concatenations ----

  lemma {:induction false} FindSpec(s: string, c: char, i: nat)
    ensures var at := Find(s, c, i);
            && (at.Some? ==> Triple(s, at.value, c))
            && forall j | i <= j && (at.Some? ==> j < at.value) :: !Triple(s, j, c)
    decreases |s| - i
  {
    if i + 3 <= |s| && !Triple(s, i, c) { FindSpec(s, c, i + 1); }
  }

  lemma {:induction false} FindIs(s: string, c: char, i: nat, k: nat)
    requires i <= k && Triple(s, k, c) && forall j | i <= j < k :: !Triple(s, j, c)
    ensures Find(s, c, i) == Some(k)
    decreases k - i
  {
    if i < k { FindIs(s, c, i + 1, k); }
  }

  lemma TripleWithin(s: string, x: string, c: char, i: nat, j: nat)
    requires i + |x| <= |s| && s[i..i + |x|] == x && j + 3 <= |x|
    ensures Triple(s, i + j, c) <==> Triple(x, j, c)
  {
    assert x[j] == s[i + j] && x[j + 1] == s[i + j + 1] && x[j + 2] == s[i + j + 2];
  }

  /** A find within a part is the find of the whole. */
  lemma FindWithin(s: string, x: string, c: char, i: nat, k: nat)
    requires Find(x, c, 0) == Some(k) && i + |x| <= |s| && s[i..i + |x|] == x
    ensures Find(s, c, i) == Some(i + k)
  {
    FindSpec(x, c, 0);
    forall j | i <= j < i + k ensures !Triple(s, j, c) {
      TripleWithin(s, x, c, i, j - i);
    }
    TripleWithin(s, x, c, i, k);
    FindIs(s, c, i, i + k);
  }

  /** The find of the whole is the find of the part that holds it. */
  lemma FindCut(s: string, c: char, i: nat, k: nat)
    requires Find(s, c, i) == Some(k)
    ensures Find(s[i..k + 3], c, 0) == Some(k - i)
  {
    FindSpec(s, c, i);
    var x := s[i..k + 3];
    forall j | 0 <= j < k - i ensures !Triple(x, j, c) {
      assert !Triple(s, i + j, c);
    }
    FindIs(x, c, 0, k - i);
  }

  predicate Braceless(s: string) { '{' !in s && '}' !in s }

  lemma BracelessCloses(inner: string)
    requires Braceless(inner)
    ensures Find(inner + "}}}", '}', 0) == Some(|inner|)
  {
    var x := inner + "}}}";
    forall j | 0 <= j < |inner| ensures !Triple(x, j, '}') { assert x[j] == inner[j] && inner[j] in inner; }
    FindIs(x, '}', 0, |inner|);
  }

  // ---- Parsing and rendering ----

  predicate Opens(text: string) { Find(text + "{{{", '{', 0) == Some(|text|) }

  predicate Closes(inner: string) { Find(inner + "}}}", '}', 0) == Some(|inner|) }

  /** Each token opens where its text first allows and closes as soon as it can. */
  predicate Shortest(d: Doc) {
    match d
    case End(text) => Find(text, '{', 0).None? || Find(text, '}', Find(text, '{', 0).value + 3).None?
    case Token(text, inner, rest) => Opens(text) && Closes(inner) && Shortest(rest)
  }

  /** The parts of a token's text, wherever they end. */
  lemma Assembled(text: string, inner: string, tail: string)
    ensures var s := text + (Braced(inner) + tail);
            && |s| == |text| + |inner| + |tail| + 6
            && s[0..|text| + 3] == text + "{{{" && s[..|text|] == text
            && s[|text| + 3..|text| + |inner| + 6] == inner + "}}}"
            && s[|text| + 3..|text| + |inner| + 3] == inner
            && s[|text| + |inner| + 6..] == tail
  {
  }

  lemma Reassembled(s: string, a: nat, b: nat)
    requires Triple(s, a, '{') && a + 3 <= b && Triple(s, b, '}')
    ensures s == s[..a] + (Braced(s[a + 3..b]) + s[b + 3..])
    ensures s[0..a + 3] == s[..a] + "{{{" && s[a + 3..b + 3] == s[a + 3..b] + "}}}"
  {
  }

  lemma ParseFirst(s: string, a: nat, b: nat)
    requires Find(s, '{', 0) == Some(a) && Find(s, '}', a + 3) == Some(b)
    ensures Parse(s) == Token(s[..a], s[a + 3..b], Parse(s[b + 3..]))
  {
  }

  lemma FirstToken(text: string, inner: string, tail: string)
    requires Opens(text) && Closes(inner)
    ensures Parse(text + (Braced(inner) + tail)) == Token(text, inner, Parse(tail))
  {
    var s := text + (Braced(inner) + tail);
    Assembled(text, inner, tail);
    FindWithin(s, text + "{{{", '{', 0, |text|);
    FindWithin(s, inner + "}}}", '}', |text| + 3, |inner|);
    ParseFirst(s, |text|, |text| + 3 + |inner|);
  }

  lemma FirstShortest(s: string, a: nat, b: nat)
    requires Find(s, '{', 0) == Some(a) && Find(s, '}', a + 3) == Some(b)
    ensures Opens(s[..a]) && Closes(s[a + 3..b]) && s == s[..a] + (Braced(s[a + 3..b]) + s[b + 3..])
  {
    FindCut(s, '{', 0, a);
    FindCut(s, '}', a + 3, b);
    FindSpec(s, '{', 0);
    FindSpec(s, '}', a + 3);
    Reassembled(s, a, b);
  }

  lemma TokenShortest(s: string, a: nat, b: nat)
    requires Find(s, '{', 0) == Some(a) && Find(s, '}', a + 3) == Some(b)
    requires var rest := Parse(s[b + 3..]); Shortest(rest) && Render(rest) == s[b + 3..]
    ensures var d := Token(s[..a], s[a + 3..b], Parse(s[b + 3..])); Shortest(d) && Render(d) == s
  {
    FirstShortest(s, a, b);
  }

  lemma EndShortest(s: string)
    requires Find(s, '{', 0).None? || Find(s, '}', Find(s, '{', 0).value + 3).None?
    ensures Parse(s) == End(s) && Shortest(Parse(s)) && Render(Parse(s)) == s
  {
  }

  /** What a document of the text must be: leftmost and shortest, and rendered back to it. */
  predicate Reads(d: Doc, s: string) { Shortest(d) && Render(d) == s }

  lemma TokenReads(s: string, a: nat, b: nat)
    requires Find(s, '{', 0) == Some(a) && Find(s, '}', a + 3) == Some(b) && Reads(Parse(s[b + 3..]), s[b + 3..])
    ensures Reads(Parse(s), s)
  {
    ParseFirst(s, a, b);
    TokenShortest(s, a, b);
  }

  lemma {:induction false} ParseReads(s: string)
    ensures Reads(Parse(s), s)
    decreases |s|
  {
    var a := Find(s, '{', 0);
    var b := if a.Some? then Find(s, '}', a.value + 3) else None;
    if b.Some? {
      ParseReads(s[b.value + 3..]);
      TokenReads(s, a.value, b.value);
    } else {
      EndShortest(s);
    }
  }

  lemma {:induction false} ParseRender(d: Doc)
    requires Shortest(d)
    ensures Parse(Render(d)) == d
  {
    if d.Token? {
      FirstToken(d.text, d.inner, Render(d.rest));
      ParseRender(d.rest);
    }
  }

  // ---- Rewriting ----

  ghost predicate MakesNoBraces(rule: Rule) { forall inner :: rule(inner).Some? ==> Braceless(rule(inner).value) }

  lemma {:induction false} RewrittenShortest(d: Doc, rule: Rule)
    requires Shortest(d) && MakesNoBraces(rule)
    ensures Shortest(Rewritten(d, rule))
  {
    if d.Token? {
      RewrittenShortest(d.rest, rule);
      if rule(d.inner).Some? { BracelessCloses(NewInner(d.inner, rule)); }
    }
  }

  /** The rewritten text's tokens are the text's, rewritten one by one, in the same text. */
  lemma RewriteParses(s: string, rule: Rule)
    requires MakesNoBraces(rule)
    ensures Parse(Render(Rewritten(Parse(s), rule))) == Rewritten(Parse(s), rule)
  {
    ParseReads(s);
    RewrittenShortest(Parse(s), rule);
    ParseRender(Rewritten(Parse(s), rule));
  }

  lemma {:induction false} RewrittenParts(d: Doc, rule: Rule)
    ensures Texts(Rewritten(d, rule)) == Texts(d)
    ensures |Inners(Rewritten(d, rule))| == |Inners(d)|
    ensures forall i | 0 <= i < |Inners(d)| :: Inners(Rewritten(d, rule))[i] == NewInner(Inners(d)[i], rule)
  {
    if d.Token? { RewrittenParts(d.rest, rule); }
  }

  predicate Settled(inner: string, rule: Rule) { NewInner(NewInner(inner, rule), rule) == NewInner(inner, rule) }

  ghost predicate AllSettled(d: Doc, rule: Rule) { forall x | x in Inners(d) :: Settled(x, rule) }

  lemma {:induction false} TwiceIsOnce(d: Doc, rule: Rule)
    ensures Rewritten(Rewritten(d, rule), rule) == Rewritten(d, rule) <==> AllSettled(d, rule)
  {
    if d.Token? {
      TwiceIsOnce(d.rest, rule);
      assert forall x :: x in Inners(d) <==> x == d.inner || x in Inners(d.rest);
      assert AllSettled(d, rule) <==> Settled(d.inner, rule) && AllSettled(d.rest, rule);
    }
  }

  /** Rewriting twice is rewriting once exactly when it is so for each token on its own. */
  lemma IdempotentIff(s: string, rule: Rule)
    requires MakesNoBraces(rule)
    ensures var once := Render(Rewritten(Parse(s), rule));
            Render(Rewritten(Parse(once), rule)) == once <==> AllSettled(Parse(s), rule)
  {
    var d := Rewritten(Parse(s), rule);
    RewriteParses(s, rule);
    RewriteParses(Render(d), rule);
    TwiceIsOnce(Parse(s), rule);
  }
}
