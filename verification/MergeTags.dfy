/**
 * Merge-tag rewriting (packages/cli/src/translate.ts, `translateMergeTags`):
 * each triple-brace token is renamed into the target's grammar, or left as it
 * is and reported.
 */
module MergeTags {
  import opened Common
  import opened Braces

  predicate NameChar(c: char) { 'A' <= c <= 'Z' || 'a' <= c <= 'z' || '0' <= c <= '9' || c == '_' }

  predicate Name(s: string) { s != "" && forall c | c in s :: NameChar(c) }

  /** The white space and line terminators `trim` removes. */
  predicate Space(c: char) {
    c in "\t\n\U{B}\U{C}\r \U{A0}\U{1680}\U{2028}\U{2029}\U{202F}\U{205F}\U{3000}\U{FEFF}"
        || '\U{2000}' <= c <= '\U{200A}'
  }

  function TrimStart(s: string): string { if s != "" && Space(s[0]) then TrimStart(s[1..]) else s }

  function TrimEnd(s: string): string { if s != "" && Space(s[|s| - 1]) then TrimEnd(s[..|s| - 1]) else s }

  function Trim(s: string): string { TrimEnd(TrimStart(s)) }

  /** The first bar at or after `i`. */
  function Pipe(s: string, i: nat): (at: nat)
    requires i <= |s|
    ensures i <= at <= |s|
    decreases |s| - i
  {
    if i < |s| && s[i] != '|' then Pipe(s, i + 1) else i
  }

  function RawName(inner: string): string { Trim(inner[..Pipe(inner, 0)]) }

  function Fallback(inner: string): Option<string> {
    if Pipe(inner, 0) == |inner| then None else Some(inner[Pipe(inner, 0) + 1..])
  }

  /** A raw name's entry in the alias table. */
  function Alias(raw: string): Option<string> {
    if raw == "contact.first_name" then Some("FIRST_NAME")
    else if raw == "contact.last_name" then Some("LAST_NAME")
    else if raw == "contact.email" then Some("EMAIL")
    else if raw == "unsubscribe_url" then Some("UNSUBSCRIBE_URL")
    else if raw == "UNSUBSCRIBE_URL" then Some("UNSUBSCRIBE_URL")
    else if raw == "RESEND_UNSUBSCRIBE_URL" then Some("RESEND_UNSUBSCRIBE_URL")
    else None
  }

  /** Names the table, an object literal, inherits: looking one up gives a value that is no name. */
  predicate Inherited(raw: string) {
    || raw == "constructor" || raw == "hasOwnProperty" || raw == "isPrototypeOf" || raw == "propertyIsEnumerable"
    || raw == "toLocaleString" || raw == "toString" || raw == "valueOf" || raw == "__proto__"
    || raw == "__defineGetter__" || raw == "__defineSetter__" || raw == "__lookupGetter__" || raw == "__lookupSetter__"
  }

  const CONTACT := "contact."

  predicate StartsWith(s: string, prefix: string) { |prefix| <= |s| && s[..|prefix|] == prefix }

  function Renamed(raw: string): Option<string> {
    if Alias(raw).Some? then Alias(raw)
    else if Inherited(raw) then None
    else if StartsWith(raw, CONTACT) then Some(raw[8..])
    else Some(raw)
  }

  function Joined(name: string, fallback: Option<string>): string {
    name + if fallback.None? then "" else "|" + fallback.value
  }

  predicate Safe(fallback: Option<string>) { fallback.Some? ==> Braceless(fallback.value) }

  /** The token's new inside, or nothing when it does not fit the grammar. */
  function Translated(inner: string): Option<string> {
    var name := Renamed(RawName(inner));
    if name.Some? && Name(name.value) && Safe(Fallback(inner)) then Some(Joined(name.value, Fallback(inner))) else None
  }

  function Html(html: string): string { Render(Rewritten(Parse(html), Translated)) }

  /** The tokens with these insides that stay as they are, each once, in order. */
  function Reports(known: seq<string>, inners: seq<string>): seq<string>
    decreases |inners|
  {
    if inners == [] then known
    else Reports(if Translated(inners[0]).None? then AddOnce(known, Braced(inners[0])) else known, inners[1..])
  }

  function Reported(html: string): seq<string> { Reports([], Inners(Parse(html))) }

  // ---- The loop over the matches ----

  method TranslateToken(inner: string) returns (out: Option<string>)
    ensures out == Translated(inner)
  {
    var pipe := Pipe(inner, 0);
    var name := Renamed(Trim(inner[..pipe]));
    var fallback := if pipe == |inner| then None else Some(inner[pipe + 1..]);
    if name.None? || !Name(name.value) || (fallback.Some? && !Braceless(fallback.value)) { return None; }
    return Some(Joined(name.value, fallback));
  }

  /** What the loop has written and reported so far, and what the rest adds to both. */
  ghost predicate Ahead(out: string, untranslated: seq<string>, rest: string, html: string) {
    out + Html(rest) == Html(html) && Reports(untranslated, Inners(Parse(rest))) == Reported(html)
  }

  lemma TextLeft(out: string, untranslated: seq<string>, rest: string, html: string)
    requires Ahead(out, untranslated, rest, html) && Parse(rest) == End(rest)
    ensures out + rest == Html(html) && untranslated == Reported(html)
  {
  }

  lemma NothingTaken(html: string)
    ensures Ahead("", [], html, html)
  {
  }

  lemma OneToken(out: string, text: string, inner: string, tail: Doc)
    ensures out + Render(Rewritten(Token(text, inner, tail), Translated)) ==
            out + text + Braced(NewInner(inner, Translated)) + Render(Rewritten(tail, Translated))
  {
  }

  lemma TokenTaken(out: string, untranslated: seq<string>, rest: string, html: string,
                   text: string, inner: string, tail: string, token: Option<string>)
    requires Ahead(out, untranslated, rest, html) && Parse(rest) == Token(text, inner, Parse(tail))
    requires token == Translated(inner)
    ensures Ahead(out + text + Braced(if token.Some? then token.value else inner),
                  if token.None? then AddOnce(untranslated, Braced(inner)) else untranslated, tail, html)
  {
    OneToken(out, text, inner, Parse(tail));
    var inners := Inners(Parse(rest));
    assert inners[0] == inner && inners[1..] == Inners(Parse(tail));
  }

  /** The first match in the text, with what stands before it and after it. */
  method Match(rest: string) returns (found: bool, text: string, inner: string, tail: string)
    ensures Parse(rest) == if found then Token(text, inner, Parse(tail)) else End(rest)
    ensures found ==> |tail| < |rest|
  {
    var open := Find(rest, '{', 0);
    if open.None? { return false, rest, "", ""; }
    var close := Find(rest, '}', open.value + 3);
    if close.None? { return false, rest, "", ""; }
    return true, rest[..open.value], rest[open.value + 3..close.value], rest[close.value + 3..];
  }

  method TranslateMergeTags(html: string) returns (out: string, untranslated: seq<string>)
    ensures out == Html(html) && untranslated == Reported(html)
  {
    var rest := html;
    out, untranslated := "", [];
    NothingTaken(html);
    while true
      invariant Ahead(out, untranslated, rest, html)
      decreases |rest|
    {
      var found, text, inner, tail := Match(rest);
      if !found {
        TextLeft(out, untranslated, rest, html);
        return out + rest, untranslated;
      }
      var token := TranslateToken(inner);
      TokenTaken(out, untranslated, rest, html, text, inner, tail, token);
      if token.None? { untranslated := AddOnce(untranslated, Braced(inner)); }
      out := out + text + Braced(if token.Some? then token.value else inner);
      rest := tail;
    }
  }

  // ---- What one token becomes ----

  lemma {:induction false} PipeSpec(s: string, i: nat)
    requires i <= |s|
    ensures var at := Pipe(s, i); (at < |s| ==> s[at] == '|') && '|' !in s[i..at]
    decreases |s| - i
  {
    if i < |s| && s[i] != '|' {
      PipeSpec(s, i + 1);
      assert s[i..Pipe(s, i)] == [s[i]] + s[i + 1..Pipe(s, i)];
    }
  }

  lemma {:induction false} PipeIs(s: string, i: nat, at: nat)
    requires i <= at <= |s| && (forall j | i <= j < at :: s[j] != '|') && (at < |s| ==> s[at] == '|')
    ensures Pipe(s, i) == at
    decreases at - i
  {
    if i < at { PipeIs(s, i + 1, at); }
  }

  /** A name, and what follows its bar, are read back from the token made of them. */
  lemma ReadBack(name: string, fallback: Option<string>)
    requires Name(name)
    ensures RawName(Joined(name, fallback)) == name && Fallback(Joined(name, fallback)) == fallback
  {
    var inner := Joined(name, fallback);
    forall j | 0 <= j < |name| ensures inner[j] != '|' && !Space(name[j]) {
      assert name[j] in name && NameChar(name[j]);
    }
    PipeIs(inner, 0, |name|);
    assert inner[..|name|] == name;
    if fallback.Some? { assert inner[|name| + 1..] == fallback.value; }
  }

  lemma ContactHasDot(raw: string)
    requires StartsWith(raw, CONTACT)
    ensures '.' in raw
  {
    assert raw[7] == raw[..8][7];
  }

  lemma NamesArePlain(name: string)
    requires Name(name)
    ensures '.' !in name && Braceless(name) && !StartsWith(name, CONTACT)
  {
    if StartsWith(name, CONTACT) { ContactHasDot(name); }
  }

  predicate DottedAlias(raw: string) {
    raw == "contact.first_name" || raw == "contact.last_name" || raw == "contact.email"
  }

  lemma DottedAliasHasDot(raw: string)
    requires DottedAlias(raw)
    ensures '.' in raw
  {
    assert raw[7] == '.';
  }

  /** A name once made is a name the next pass keeps, or one it knows better. */
  lemma NameAgain(name: string)
    requires Name(name)
    ensures Renamed(name) == if name == "unsubscribe_url" then Some("UNSUBSCRIBE_URL")
                             else if Inherited(name) then None else Some(name)
  {
    NamesArePlain(name);
    if DottedAlias(name) { DottedAliasHasDot(name); }
  }

  lemma TranslatedBraceless()
    ensures MakesNoBraces(Translated)
  {
    forall inner | Translated(inner).Some? ensures Braceless(Translated(inner).value) {
      NamesArePlain(Renamed(RawName(inner)).value);
    }
  }

  ghost predicate Blank(s: string) { forall c | c in s :: Space(c) }

  lemma {:induction false} TrimStartDrops(pre: string, s: string)
    requires Blank(pre) && (s != "" ==> !Space(s[0]))
    ensures TrimStart(pre + s) == s
  {
    if pre == "" {
      assert pre + s == s;
    } else {
      assert (pre + s)[1..] == pre[1..] + s && pre[0] in pre;
      TrimStartDrops(pre[1..], s);
    }
  }

  lemma TrimEndStep(s: string)
    requires s != "" && Space(s[|s| - 1])
    ensures TrimEnd(s) == TrimEnd(s[..|s| - 1])
  {
  }

  lemma ButLast(s: string, post: string)
    requires post != ""
    ensures (s + post)[|s + post| - 1] == post[|post| - 1]
    ensures (s + post)[..|s + post| - 1] == s + post[..|post| - 1]
  {
  }

  lemma {:induction false} TrimEndDrops(s: string, post: string)
    requires Blank(post) && (s != "" ==> !Space(s[|s| - 1]))
    ensures TrimEnd(s + post) == s
  {
    if post == "" {
      assert s + post == s;
    } else {
      TrimEndDrops(s, post[..|post| - 1]);
      ButLast(s, post);
      assert post[|post| - 1] in post;
      TrimEndStep(s + post);
    }
  }

  /** Trimming takes the white space at both ends and nothing else. */
  lemma TrimIs(pre: string, s: string, post: string)
    requires Blank(pre) && Blank(post) && s != "" && !Space(s[0]) && !Space(s[|s| - 1])
    ensures Trim(pre + s + post) == s
  {
    assert pre + s + post == pre + (s + post);
    TrimStartDrops(pre, s + post);
    TrimEndDrops(s, post);
  }

  /** The token's inside: a name, white space about it, and a fallback after a bar if there is one. */
  function Written(pre: string, raw: string, post: string, fallback: Option<string>): string {
    Joined(pre + raw + post, fallback)
  }

  lemma WrittenParts(pre: string, raw: string, post: string, fallback: Option<string>)
    requires Blank(pre) && Blank(post) && raw != "" && !Space(raw[0]) && !Space(raw[|raw| - 1]) && '|' !in raw
    ensures RawName(Written(pre, raw, post, fallback)) == raw
    ensures Fallback(Written(pre, raw, post, fallback)) == fallback
  {
    var head, inner := pre + raw + post, Written(pre, raw, post, fallback);
    forall j | 0 <= j < |head| ensures inner[j] != '|' {
      assert inner[j] == head[j] && head[j] in head;
      assert head[j] in pre || head[j] in raw || head[j] in post;
    }
    PipeIs(inner, 0, |head|);
    assert inner[..|head|] == head;
    TrimIs(pre, raw, post);
    if fallback.Some? { assert inner[|head| + 1..] == fallback.value; }
  }

  lemma NameEnds(name: string)
    requires Name(name)
    ensures !Space(name[0]) && !Space(name[|name| - 1]) && '|' !in name && '.' !in name
  {
    assert name[0] in name && name[|name| - 1] in name;
  }

  lemma ContactNotInherited(raw: string)
    requires StartsWith(raw, CONTACT)
    ensures !Inherited(raw)
  {
    assert raw[..8][7] == raw[7] == '.';
  }

  lemma AfterContact(raw: string, key: string)
    requires StartsWith(raw, CONTACT)
    ensures raw == CONTACT + key <==> raw[8..] == key
  {
    assert raw == CONTACT + raw[8..];
  }

  lemma ContactAlias(raw: string)
    requires StartsWith(raw, CONTACT)
    ensures Alias(raw) == if raw[8..] == "first_name" then Some("FIRST_NAME")
                          else if raw[8..] == "last_name" then Some("LAST_NAME")
                          else if raw[8..] == "email" then Some("EMAIL") else None
  {
    AfterContact(raw, "first_name");
    AfterContact(raw, "last_name");
    AfterContact(raw, "email");
    assert "contact.first_name" == CONTACT + "first_name" && "contact.last_name" == CONTACT + "last_name";
    assert "contact.email" == CONTACT + "email" && raw[..8][0] == raw[0] == 'c';
  }

  /** The target's own names for the built-in fields. */
  function FieldName(key: string): string {
    if key == "first_name" then "FIRST_NAME" else if key == "last_name" then "LAST_NAME"
    else if key == "email" then "EMAIL" else key
  }

  lemma ContactRenamed(key: string)
    ensures Renamed("contact." + key) == Some(FieldName(key))
  {
    var raw := "contact." + key;
    assert raw[..8] == CONTACT && raw[8..] == key;
    ContactAlias(raw);
    ContactNotInherited(raw);
  }

  lemma FieldNames(key: string)
    requires Name(key)
    ensures Name(FieldName(key))
  {
  }

  /**
   * A token of one of the contact's fields, however it is spaced, becomes the
   * target's name for it: the three built-in ones their own, any other its key.
   */
  lemma ContactTokens(pre: string, key: string, post: string, fallback: Option<string>)
    requires Blank(pre) && Blank(post) && Name(key) && Safe(fallback)
    ensures Translated(Written(pre, "contact." + key, post, fallback)) ==
            Some(Joined(if key == "first_name" then "FIRST_NAME" else if key == "last_name" then "LAST_NAME"
                        else if key == "email" then "EMAIL" else key, fallback))
  {
    NameEnds(key);
    WrittenParts(pre, "contact." + key, post, fallback);
    ContactRenamed(key);
    FieldNames(key);
  }

  /** A token with a name of the grammar keeps it, but for the unsubscribe link and the names the table inherits. */
  lemma PlainTokens(pre: string, name: string, post: string, fallback: Option<string>)
    requires Blank(pre) && Blank(post) && Name(name) && Safe(fallback)
    ensures Translated(Written(pre, name, post, fallback)) ==
            if name == "unsubscribe_url" then Some(Joined("UNSUBSCRIBE_URL", fallback))
            else if Inherited(name) then None else Some(Joined(name, fallback))
  {
    NameEnds(name);
    WrittenParts(pre, name, post, fallback);
    NameAgain(name);
    UnsubscribeFits();
  }

  /** The token grammar the target's send worker resolves. */
  predicate FitsTarget(inner: string) { Name(inner[..Pipe(inner, 0)]) && Safe(Fallback(inner)) }

  lemma TranslatedFits(inner: string)
    requires Translated(inner).Some?
    ensures FitsTarget(Translated(inner).value)
  {
    var name := Renamed(RawName(inner)).value;
    var out := Translated(inner).value;
    ReadBack(name, Fallback(inner));
    forall j | 0 <= j < |name| ensures out[j] != '|' { assert name[j] in name && NameChar(name[j]); }
    PipeIs(out, 0, |name|);
    assert out[..|name|] == name;
  }

  // ---- What the whole text becomes ----

  /** Text outside the tokens is unchanged, and the output's tokens are the input's, each renamed or left. */
  lemma OutsideUnchanged(html: string)
    ensures Texts(Parse(Html(html))) == Texts(Parse(html))
    ensures |Inners(Parse(Html(html)))| == |Inners(Parse(html))|
    ensures forall i | 0 <= i < |Inners(Parse(html))| ::
              Inners(Parse(Html(html)))[i] == NewInner(Inners(Parse(html))[i], Translated)
  {
    TranslatedBraceless();
    RewriteParses(html, Translated);
    RewrittenParts(Parse(html), Translated);
  }

  lemma {:induction false} ReportsAre(known: seq<string>, inners: seq<string>, inner: string)
    ensures forall x | x in known :: x in Reports(known, inners)
    ensures inner in inners && Translated(inner).None? ==> Braced(inner) in Reports(known, inners)
    decreases |inners|
  {
    if inners != [] {
      var more := if Translated(inners[0]).None? then AddOnce(known, Braced(inners[0])) else known;
      ReportsAre(more, inners[1..], inner);
    }
  }

  /** Tokens are reported in the order they first appear. */
  lemma {:induction false} ReportsGrow(known: seq<string>, inners: seq<string>, n: nat)
    requires n <= |inners|
    ensures known <= Reports(known, inners[..n]) <= Reports(known, inners)
    decreases |inners|
  {
    if inners != [] {
      var more := if Translated(inners[0]).None? then AddOnce(known, Braced(inners[0])) else known;
      ReportsGrow(more, inners[1..], if n > 0 then n - 1 else 0);
      if n > 0 { assert inners[..n][1..] == inners[1..][..n - 1]; }
    }
  }

  ghost predicate Distinct(xs: seq<string>) { forall i, j | 0 <= i < j < |xs| :: xs[i] != xs[j] }

  ghost predicate Stays(x: string, inners: seq<string>) {
    exists i | 0 <= i < |inners| :: Translated(inners[i]).None? && x == Braced(inners[i])
  }

  lemma {:induction false} ReportsOnly(known: seq<string>, inners: seq<string>)
    requires Distinct(known)
    ensures Distinct(Reports(known, inners))
    ensures forall x | x in Reports(known, inners) :: x in known || Stays(x, inners)
    decreases |inners|
  {
    if inners != [] {
      var more := if Translated(inners[0]).None? then AddOnce(known, Braced(inners[0])) else known;
      ReportsOnly(more, inners[1..]);
      forall x | x in Reports(known, inners) && x !in known ensures Stays(x, inners) {
        if Stays(x, inners[1..]) {
          var i :| 0 <= i < |inners| - 1 && Translated(inners[1..][i]).None? && x == Braced(inners[1..][i]);
          assert inners[i + 1] == inners[1..][i];
        }
      }
    }
  }

  ghost predicate FitsOrStays(was: string, is_: string, reported: seq<string>) {
    FitsTarget(is_) || (is_ == was && Braced(is_) in reported)
  }

  /** Every token of the output fits the target's grammar, or stood in the input and is reported; nothing else is. */
  lemma FitsOrReported(html: string)
    ensures |Inners(Parse(Html(html)))| == |Inners(Parse(html))|
    ensures forall i | 0 <= i < |Inners(Parse(html))| ::
              FitsOrStays(Inners(Parse(html))[i], Inners(Parse(Html(html)))[i], Reported(html))
    ensures Distinct(Reported(html)) && forall x | x in Reported(html) :: Stays(x, Inners(Parse(html)))
  {
    var inners, outs := Inners(Parse(html)), Inners(Parse(Html(html)));
    OutsideUnchanged(html);
    ReportsOnly([], inners);
    forall i | 0 <= i < |inners| ensures FitsOrStays(inners[i], outs[i], Reported(html)) {
      if Translated(inners[i]).Some? { TranslatedFits(inners[i]); } else { ReportsAre([], inners, inners[i]); }
    }
  }

  // ---- A second pass ----

  const CONTACT_UNSUBSCRIBE := "contact.unsubscribe_url"

  lemma UnsubscribeIsName()
    ensures Renamed(CONTACT_UNSUBSCRIBE) == Some("unsubscribe_url")
    ensures Name("unsubscribe_url")
  {
    assert CONTACT_UNSUBSCRIBE[..8] == CONTACT && CONTACT_UNSUBSCRIBE[8..] == "unsubscribe_url";
  }

  lemma RenamedTo(raw: string)
    ensures Renamed(raw) == Some("unsubscribe_url") <==> raw == CONTACT_UNSUBSCRIBE
  {
    UnsubscribeIsName();
    if Renamed(raw) == Some("unsubscribe_url") && StartsWith(raw, CONTACT) {
      assert raw == raw[..8] + raw[8..];
      assert CONTACT_UNSUBSCRIBE == CONTACT + "unsubscribe_url";
    }
  }

  lemma UnsubscribeFits()
    ensures Name("UNSUBSCRIBE_URL") && !Inherited("unsubscribe_url")
  {
  }

  /** What a token of the target's grammar is translated to. */
  lemma TranslatedJoined(name: string, fallback: Option<string>)
    requires Name(name) && Safe(fallback)
    ensures Translated(Joined(name, fallback)) ==
            if name == "unsubscribe_url" then Some(Joined("UNSUBSCRIBE_URL", fallback))
            else if Inherited(name) then None else Some(Joined(name, fallback))
  {
    ReadBack(name, fallback);
    NameAgain(name);
    UnsubscribeFits();
  }

  /** A translated token, translated again. */
  lemma TranslatedAgain(name: string, fallback: Option<string>)
    requires Name(name) && Safe(fallback)
    ensures NewInner(Joined(name, fallback), Translated) == Joined(name, fallback) <==> name != "unsubscribe_url"
  {
    TranslatedJoined(name, fallback);
    assert "UNSUBSCRIBE_URL"[0] != "unsubscribe_url"[0];
    assert Joined("UNSUBSCRIBE_URL", fallback)[0] == "UNSUBSCRIBE_URL"[0];
    assert Joined(name, fallback)[0] == name[0];
  }

  /** The one name a first pass makes that a second would change. */
  lemma SettledIff(inner: string)
    ensures Settled(inner, Translated) <==> !(RawName(inner) == CONTACT_UNSUBSCRIBE && Safe(Fallback(inner)))
  {
    RenamedTo(RawName(inner));
    UnsubscribeIsName();
    if Translated(inner).Some? { TranslatedAgain(Renamed(RawName(inner)).value, Fallback(inner)); }
  }

  /**
   * Translating twice is translating once exactly when no token names
   * contact.unsubscribe_url with a fallback that fits.
   */
  lemma TwiceIsOnceIff(html: string)
    ensures Html(Html(html)) == Html(html) <==>
            forall x | x in Inners(Parse(html)) :: !(RawName(x) == CONTACT_UNSUBSCRIBE && Safe(Fallback(x)))
  {
    TranslatedBraceless();
    IdempotentIff(html, Translated);
    forall x | x in Inners(Parse(html))
      ensures Settled(x, Translated) <==> !(RawName(x) == CONTACT_UNSUBSCRIBE && Safe(Fallback(x))) {
      SettledIff(x);
    }
  }

  lemma FitIsJoined(inner: string)
    ensures inner == Joined(inner[..Pipe(inner, 0)], Fallback(inner))
  {
    PipeSpec(inner, 0);
    if Pipe(inner, 0) < |inner| { assert inner == inner[..Pipe(inner, 0)] + ["|"[0]] + inner[Pipe(inner, 0) + 1..]; }
  }

  /** A token already in the target's grammar is left and reported exactly when the alias table inherits its name. */
  lemma InheritedIff(inner: string)
    requires FitsTarget(inner)
    ensures Translated(inner).None? <==> Inherited(inner[..Pipe(inner, 0)])
  {
    FitIsJoined(inner);
    TranslatedJoined(inner[..Pipe(inner, 0)], Fallback(inner));
    UnsubscribeFits();
  }
}
