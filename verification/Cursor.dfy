/**
 * The terminal cursor (packages/cli/src/tty-ui.ts): `cursorTracker` follows
 * the row a terminal reaches from the text sent to it, token by token, and
 * `rowsFor` counts the rows of finished lines in closed form. A char stands
 * for one code point; control sequences follow section 5.4 of ECMA-48.
 */
module Cursor {
  import opened Common

  datatype Tracker = Tracker(row: int, col: int, pending: bool)

  const HOME := Tracker(0, 0, false)

  const ESC := '\U{1B}'
  const BEL := '\U{07}'
  const DEL := '\U{7F}'

  // ---- Tokens ----

  predicate Param(c: char) { c == '?' || c == ';' || '0' <= c <= '9' }

  /** Where the run of parameter characters from `i` on ends. */
  function ParamEnd(s: string, i: nat): (e: nat)
    requires i <= |s|
    ensures i <= e <= |s| && (e < |s| ==> !Param(s[e]))
    decreases |s| - i
  {
    if i < |s| && Param(s[i]) then ParamEnd(s, i + 1) else i
  }

  /**
   * How much of a text the machine takes at once: a whole control sequence, an
   * escape with what follows it, or a char.
   */
  function Head(s: string): (n: nat)
    requires s != ""
    ensures 0 < n <= |s|
  {
    if s[0] != ESC || |s| == 1 then 1
    else if s[1] != '[' then 2
    else
      var e := ParamEnd(s, 2);
      if e < |s| && '@' <= s[e] <= '~' then e + 1 else 1
  }

  /** The leading decimal digits of `s` from `i` on, as a number added to `n`. */
  function Digits(s: string, i: nat, n: nat): nat
    requires i <= |s|
    decreases |s| - i
  {
    if i < |s| && '0' <= s[i] <= '9' then Digits(s, i + 1, 10 * n + (s[i] as nat - '0' as nat)) else n
  }

  /** A missing or zero count is 1. */
  function CountOf(token: string): nat
    requires |token| >= 2
  {
    Max(1, Digits(token, 2, 0))
  }

  // ---- The machine ----

  function Shown(t: Tracker, width: int): Tracker {
    var u := if t.pending then Tracker(t.row + 1, 0, false) else t;
    if u.col == width - 1 then u.(pending := true) else u.(col := u.col + 1)
  }

  function Sequenced(t: Tracker, token: string, width: int): Tracker
    requires |token| > 2
  {
    var n := CountOf(token);
    var op := token[|token| - 1];
    if op == 'A' then Tracker(t.row - n, t.col, false)
    else if op == 'B' then Tracker(t.row + n, t.col, false)
    else if op == 'C' then Tracker(t.row, Min(width - 1, t.col + n), false)
    else if op == 'D' then Tracker(t.row, Max(0, t.col - n), false)
    else if op == 'G' then Tracker(t.row, Min(width - 1, n - 1), false)
    else t
  }

  function Move(t: Tracker, token: string, width: int): Tracker
    requires token != ""
  {
    if token == "\r" then Tracker(t.row, 0, false)
    else if token == "\n" then Tracker(t.row + 1, 0, false)
    else if |token| > 2 && token[0] == ESC && token[1] == '[' then Sequenced(t, token, width)
    else if token[0] >= ' ' then Shown(t, width)
    else t
  }

  function Fed(t: Tracker, s: string, width: int): Tracker
    decreases |s|
  {
    if s == "" then t else Fed(Move(t, s[..Head(s)], width), s[Head(s)..], width)
  }

  class CursorTracker {
    var row: int
    var col: int
    var pending: bool

    ghost function View(): Tracker
      reads this
    {
      Tracker(row, col, pending)
    }

    constructor ()
      ensures View() == HOME && forall width | width > 0 :: OnScreen(View(), width)
    {
      row, col, pending := 0, 0, false;
    }

    method Reset()
      modifies this
      ensures View() == HOME && forall width | width > 0 :: OnScreen(View(), width)
    {
      row, col, pending := 0, 0, false;
    }

    method FeedSequence(token: string, width: int)
      requires |token| > 2
      modifies this
      ensures View() == Sequenced(old(View()), token, width)
    {
      var n := CountOf(token);
      var op := token[|token| - 1];
      if op == 'A' { row := row - n; }
      else if op == 'B' { row := row + n; }
      else if op == 'C' { col := Min(width - 1, col + n); }
      else if op == 'D' { col := Max(0, col - n); }
      else if op == 'G' { col := Min(width - 1, n - 1); }
      else { return; }
      pending := false;
    }

    method FeedToken(token: string, width: int)
      requires token != ""
      modifies this
      ensures View() == Move(old(View()), token, width)
      ensures old(OnScreen(View(), width)) ==> OnScreen(View(), width)
    {
      if token == "\r" || token == "\n" {
        if token == "\n" { row := row + 1; }
        col := 0;
        pending := false;
      } else if |token| > 2 && token[0] == ESC && token[1] == '[' {
        FeedSequence(token, width);
      } else if token[0] >= ' ' {
        if pending {
          row := row + 1;
          col := 0;
          pending := false;
        }
        if col == width - 1 { pending := true; } else { col := col + 1; }
      }
    }

    method Feed(text: string, width: int)
      modifies this
      ensures View() == Fed(old(View()), text, width)
      ensures old(OnScreen(View(), width)) ==> OnScreen(View(), width)
    {
      var rest := text;
      while rest != ""
        invariant Fed(View(), rest, width) == Fed(old(View()), text, width)
        invariant old(OnScreen(View(), width)) ==> OnScreen(View(), width)
        decreases |rest|
      {
        var n := Head(rest);
        FeedToken(rest[..n], width);
        rest := rest[n..];
      }
    }
  }

  // ---- Any text ----

  ghost predicate OnScreen(t: Tracker, width: int) { 0 <= t.col < width && (t.pending ==> t.col == width - 1) }

  /** The column stays on the screen whatever is sent, and only a full row waits to wrap. */
  lemma {:induction false} StaysOnScreen(t: Tracker, s: string, width: int)
    requires OnScreen(t, width)
    ensures OnScreen(Fed(t, s, width), width)
    decreases |s|
  {
    if s != "" { StaysOnScreen(Move(t, s[..Head(s)], width), s[Head(s)..], width); }
  }

  // ---- Chunks ----

  /** Position k of the text ends a token, or is its start. */
  predicate Boundary(s: string, k: nat)
    decreases |s|
  {
    k == 0 || (s != "" && Head(s) <= k && Boundary(s[Head(s)..], k - Head(s)))
  }

  lemma {:induction false} ParamEndPrefix(a: string, b: string, i: nat)
    requires i <= |a|
    ensures ParamEnd(a, i) == Min(|a|, ParamEnd(a + b, i))
    decreases |a| - i
  {
    if i < |a| {
      assert (a + b)[i] == a[i];
      if Param(a[i]) { ParamEndPrefix(a, b, i + 1); }
    }
  }

  /** A first token that ends within the first chunk is that chunk's first token. */
  lemma HeadPrefix(a: string, b: string)
    requires a != "" && Head(a + b) <= |a|
    ensures Head(a) == Head(a + b)
  {
    assert (a + b)[0] == a[0];
    if |a| > 1 {
      assert (a + b)[1] == a[1];
      ParamEndPrefix(a, b, 2);
      var e := ParamEnd(a + b, 2);
      assert e < |a| ==> (a + b)[e] == a[e];
    }
  }

  lemma {:induction false} Split(t: Tracker, a: string, b: string, width: int)
    requires Boundary(a + b, |a|)
    ensures Fed(t, a + b, width) == Fed(Fed(t, a, width), b, width)
    decreases |a|
  {
    if a == "" {
      assert a + b == b;
    } else {
      var n := Head(a + b);
      HeadPrefix(a, b);
      assert (a + b)[..n] == a[..n] && (a + b)[n..] == a[n..] + b;
      Split(Move(t, a[..n], width), a[n..], b, width);
    }
  }

  function Joined(chunks: seq<string>): string { if chunks == [] then "" else chunks[0] + Joined(chunks[1..]) }

  predicate AtBoundaries(chunks: seq<string>) {
    chunks == [] || (Boundary(Joined(chunks), |chunks[0]|) && AtBoundaries(chunks[1..]))
  }

  function FedChunks(t: Tracker, chunks: seq<string>, width: int): Tracker
    decreases |chunks|
  {
    if chunks == [] then t else FedChunks(Fed(t, chunks[0], width), chunks[1..], width)
  }

  /** However a text is cut at token boundaries, the tracker ends where the whole text takes it. */
  lemma {:induction false} ChunksAgree(t: Tracker, chunks: seq<string>, width: int)
    requires AtBoundaries(chunks)
    ensures FedChunks(t, chunks, width) == Fed(t, Joined(chunks), width)
    decreases |chunks|
  {
    if chunks != [] {
      Split(t, chunks[0], Joined(chunks[1..]), width);
      ChunksAgree(Fed(t, chunks[0], width), chunks[1..], width);
    }
  }

  // ---- Printable characters and style sequences ----

  /**
   * Printable characters, tabs, which only the row count counts, DELs, which
   * only the tracker counts, controls neither counts, and sequences that move
   * nothing.
   */
  datatype Piece = Plain(c: char) | Tab | Delete | Control(c: char) | Sequence(params: string, op: char)

  predicate Fits(p: Piece) {
    match p
    case Plain(c) => c >= ' ' && c != DEL
    case Tab => true
    case Delete => true
    case Control(c) => c < ' ' && c !in {'\r', '\n', '\t', ESC}
    case Sequence(params, op) =>
      (forall x | x in params :: Param(x)) && '@' <= op <= '~' && op !in {'A', 'B', 'C', 'D', 'G'}
  }

  /** A control sequence, from its escape to the character that ends it. */
  function SequenceText(params: string, op: char): (s: string)
    ensures |s| == |params| + 3
  {
    [ESC, '['] + params + [op]
  }

  function Text(p: Piece): string {
    match p
    case Plain(c) => [c]
    case Tab => ['\t']
    case Delete => [DEL]
    case Control(c) => [c]
    case Sequence(params, op) => SequenceText(params, op)
  }

  function LineText(line: seq<Piece>): string { if line == [] then "" else Text(line[0]) + LineText(line[1..]) }

  /** The cells of a line to the row count. */
  function Printed(line: seq<Piece>): nat {
    if line == [] then 0 else (if line[0].Plain? || line[0].Tab? then 1 else 0) + Printed(line[1..])
  }

  /** The cells of a line to the tracker. */
  function Tracked(line: seq<Piece>): nat {
    if line == [] then 0 else (if line[0].Plain? || line[0].Delete? then 1 else 0) + Tracked(line[1..])
  }

  ghost predicate FitLine(line: seq<Piece>) { forall p | p in line :: Fits(p) }

  lemma {:induction false} ParamEndAt(s: string, i: nat, e: nat)
    requires i <= e < |s| && (forall k | i <= k < e :: Param(s[k])) && !Param(s[e])
    ensures ParamEnd(s, i) == e
    decreases e - i
  {
    if i < e { ParamEndAt(s, i + 1, e); }
  }

  lemma HeadOfPiece(p: Piece, rest: string)
    requires Fits(p)
    ensures Head(Text(p) + rest) == |Text(p)|
  {
    var s := Text(p) + rest;
    if p.Sequence? {
      var e := |p.params| + 2;
      assert s[e] == p.op && s[1] == '[';
      forall k | 2 <= k < e ensures Param(s[k]) { assert s[k] == p.params[k - 2]; }
      ParamEndAt(s, 2, e);
    }
  }

  /** One piece moves the cursor as one more shown character, or not at all. */
  lemma FeedPiece(t: Tracker, p: Piece, rest: string, width: int)
    requires Fits(p)
    ensures Fed(t, Text(p) + rest, width) == Fed(if p.Plain? || p.Delete? then Shown(t, width) else t, rest, width)
  {
    var s := Text(p) + rest;
    HeadOfPiece(p, rest);
    assert s[..|Text(p)|] == Text(p) && s[|Text(p)|..] == rest;
    if p.Sequence? { assert Text(p)[|Text(p)| - 1] == p.op; }
  }

  // ---- The closed form ----

  /** Where n shown characters take a cursor that starts a row. */
  function After(row: int, n: nat, width: nat): Tracker
    requires width > 0
  {
    if n == 0 then Tracker(row, 0, false)
    else
      var filled := (n - 1) % width;
      Tracker(row + (n - 1) / width, Min(filled + 1, width - 1), filled == width - 1)
  }

  lemma OneMore(n: nat, width: nat)
    requires width > 0
    ensures n % width == width - 1 ==> (n + 1) / width == n / width + 1 && (n + 1) % width == 0
    ensures n % width < width - 1 ==> (n + 1) / width == n / width && (n + 1) % width == n % width + 1
  {
    var q, r := n / width, n % width;
    assert n == q * width + r;
    if r == width - 1 {
      assert n + 1 == (q + 1) * width;
      Divides(n + 1, width, q + 1, 0);
    } else {
      Divides(n + 1, width, q, r + 1);
    }
  }

  lemma AtLeastOnce(d: int, width: nat)
    requires d >= 1
    ensures d * width >= width
  {
    assert d * width == width + (d - 1) * width;
  }

  lemma Divides(n: nat, width: nat, q: nat, r: nat)
    requires r < width && n == q * width + r
    ensures n / width == q && n % width == r
  {
    var d := n / width - q;
    assert n == n / width * width + n % width;
    assert d * width == n / width * width - q * width;
    if d >= 1 { AtLeastOnce(d, width); }
    if d <= -1 {
      AtLeastOnce(-d, width);
    }
  }

  /** The pending wrap is what makes the closed form: each character takes it one further. */
  lemma ShownNext(row: int, n: nat, width: nat)
    requires width > 0
    ensures Shown(After(row, n, width), width) == After(row, n + 1, width)
  {
    if n == 0 {
      Divides(0, width, 0, 0);
    } else {
      OneMore(n - 1, width);
    }
  }

  function ShownTimes(t: Tracker, n: nat, width: int): Tracker
    decreases n
  {
    if n == 0 then t else ShownTimes(Shown(t, width), n - 1, width)
  }

  lemma {:induction false} ShownAfter(row: int, m: nat, n: nat, width: nat)
    requires width > 0
    ensures ShownTimes(After(row, m, width), n, width) == After(row, m + n, width)
    decreases n
  {
    if n > 0 {
      ShownNext(row, m, width);
      ShownAfter(row, m + 1, n - 1, width);
    }
  }

  lemma {:induction false} FeedLine(t: Tracker, line: seq<Piece>, rest: string, width: int)
    requires FitLine(line)
    ensures Fed(t, LineText(line) + rest, width) == Fed(ShownTimes(t, Tracked(line), width), rest, width)
    decreases |line|
  {
    if line == [] {
      assert LineText(line) + rest == rest;
    } else {
      var tail := LineText(line[1..]) + rest;
      assert LineText(line) + rest == Text(line[0]) + tail;
      FeedPiece(t, line[0], tail, width);
      FeedLine(if line[0].Plain? || line[0].Delete? then Shown(t, width) else t, line[1..], rest, width);
    }
  }

  // ---- The row count ----

  predicate CsiParam(c: char) { '0' <= c <= '?' }

  predicate CsiMiddle(c: char) { ' ' <= c <= '/' }

  function ParamsEnd(s: string, i: nat): (e: nat)
    requires i <= |s|
    ensures i <= e <= |s|
    decreases |s| - i
  {
    if i < |s| && CsiParam(s[i]) then ParamsEnd(s, i + 1) else i
  }

  function MiddlesEnd(s: string, i: nat): (e: nat)
    requires i <= |s|
    ensures i <= e <= |s|
    decreases |s| - i
  {
    if i < |s| && CsiMiddle(s[i]) then MiddlesEnd(s, i + 1) else i
  }

  /** Where an operating system command's text ends: before the bell or escape that should close it. */
  function OscEnd(s: string, i: nat): (e: nat)
    requires i <= |s|
    ensures i <= e <= |s|
    decreases |s| - i
  {
    if i < |s| && s[i] != BEL && s[i] != ESC then OscEnd(s, i + 1) else i
  }

  /** How many characters `stripControl` drops at the front: none when the first one stays. */
  function Dropped(s: string): (n: nat)
    requires s != ""
    ensures n <= |s|
  {
    var csi := if |s| > 1 && s[0] == ESC && s[1] == '[' then MiddlesEnd(s, ParamsEnd(s, 2)) else |s|;
    var osc := if |s| > 1 && s[0] == ESC && s[1] == ']' then OscEnd(s, 2) else |s|;
    if csi < |s| && '@' <= s[csi] <= '~' then csi + 1
    else if osc < |s| && s[osc] == BEL then osc + 1
    else if osc + 1 < |s| && s[osc] == ESC && s[osc + 1] == '\\' then osc + 2
    else if s[0] == DEL || (s[0] < ' ' && s[0] != '\t' && s[0] != '\n') then 1
    else 0
  }

  function StripControl(s: string): string
    decreases |s|
  {
    if s == "" then ""
    else if Dropped(s) > 0 then StripControl(s[Dropped(s)..])
    else [s[0]] + StripControl(s[1..])
  }

  function VisibleLength(s: string): nat { |StripControl(s)| }

  function RowsFor(lines: seq<string>, columns: nat): nat
    requires columns > 0
  {
    if lines == [] then 0
    else RowsFor(lines[..|lines| - 1], columns) + RowsOf(VisibleLength(lines[|lines| - 1]), columns)
  }

  /** As many rows as hold that many cells, and no fewer than one. */
  function RowsOf(length: nat, columns: nat): nat
    requires columns > 0
  {
    Max(1, (length + columns - 1) / columns)
  }

  lemma {:induction false} ParamsEndAt(s: string, i: nat, e: nat)
    requires i <= e < |s| && (forall k | i <= k < e :: CsiParam(s[k])) && !CsiParam(s[e])
    ensures ParamsEnd(s, i) == e
    decreases e - i
  {
    if i < e { ParamsEndAt(s, i + 1, e); }
  }

  lemma StripPiece(p: Piece, rest: string)
    requires Fits(p)
    ensures StripControl(Text(p) + rest) == if p.Plain? || p.Tab? then Text(p) + StripControl(rest)
            else StripControl(rest)
  {
    var s := Text(p) + rest;
    if p.Sequence? {
      var e := |p.params| + 2;
      assert s[e] == p.op && s[1] == '[';
      forall k | 2 <= k < e ensures CsiParam(s[k]) { assert s[k] == p.params[k - 2] && Param(p.params[k - 2]); }
      ParamsEndAt(s, 2, e);
    }
    assert s[|Text(p)|..] == rest;
  }

  lemma {:induction false} VisibleIsPrinted(line: seq<Piece>)
    requires FitLine(line)
    ensures VisibleLength(LineText(line)) == Printed(line)
  {
    if line != [] {
      StripPiece(line[0], LineText(line[1..]));
      VisibleIsPrinted(line[1..]);
    }
  }

  // ---- The tracker agrees with the row count ----

  /** Lines as they are written, each followed by a newline. */
  function Written(lines: seq<seq<Piece>>): string {
    if lines == [] then "" else Written(lines[..|lines| - 1]) + (LineText(lines[|lines| - 1]) + "\n")
  }

  function Texts(lines: seq<seq<Piece>>): seq<string> {
    seq(|lines|, i requires 0 <= i < |lines| => LineText(lines[i]))
  }

  lemma LineEnds(row: int, n: nat, width: nat)
    requires width > 0
    ensures Fed(After(row, n, width), "\n", width) == Tracker(row + RowsOf(n, width), 0, false)
  {
    var t := After(row, n, width);
    assert "\n"[..1] == "\n" && "\n"[1..] == "";
    assert Fed(t, "\n", width) == Fed(Move(t, "\n", width), "", width);
    if n == 0 {
      Divides(width - 1, width, 0, width - 1);
    } else {
      var q, r := (n - 1) / width, (n - 1) % width;
      Divides(n - 1 + width, width, q + 1, r);
    }
  }

  /** One line and its newline, from the start of a row. */
  lemma FeedWhole(row: int, line: seq<Piece>, width: nat)
    requires width > 0 && FitLine(line)
    ensures Fed(Tracker(row, 0, false), LineText(line) + "\n", width)
            == Tracker(row + RowsOf(Tracked(line), width), 0, false)
  {
    FeedLine(Tracker(row, 0, false), line, "\n", width);
    ShownAfter(row, 0, Tracked(line), width);
    LineEnds(row, Tracked(line), width);
  }

  lemma {:induction false} LineBoundary(line: seq<Piece>, rest: string)
    requires FitLine(line)
    ensures Boundary(LineText(line) + "\n" + rest, |LineText(line)| + 1)
    decreases |line|
  {
    var s := LineText(line) + "\n" + rest;
    if line == [] {
      assert Head(s) == 1;
    } else {
      var tail := LineText(line[1..]) + "\n" + rest;
      assert s == Text(line[0]) + tail;
      HeadOfPiece(line[0], tail);
      assert s[|Text(line[0])|..] == tail;
      LineBoundary(line[1..], rest);
    }
  }

  lemma BoundaryStep(s: string, k: nat)
    requires s != "" && k > 0 && Head(s) <= k
    ensures Boundary(s, k) == Boundary(s[Head(s)..], k - Head(s))
  {
  }

  lemma DropFront(a: string, b: string, n: nat)
    requires n <= |a|
    ensures (a + b)[n..] == a[n..] + b
  {
  }

  lemma {:induction false} BoundaryAdds(a: string, b: string, k: nat)
    requires Boundary(a + b, |a|) && Boundary(b, k) && k <= |b|
    ensures Boundary(a + b, |a| + k)
    decreases |a|
  {
    if a == "" {
      assert a + b == b;
    } else {
      var n := Head(a + b);
      BoundaryStep(a + b, |a|);
      DropFront(a, b, n);
      BoundaryAdds(a[n..], b, k);
      assert |a[n..]| + k == |a| + k - n;
      BoundaryStep(a + b, |a| + k);
    }
  }

  lemma LastBoundary(front: string, line: seq<Piece>, rest: string)
    requires FitLine(line) && Boundary(front + ((LineText(line) + "\n") + rest), |front|)
    ensures Boundary((front + (LineText(line) + "\n")) + rest, |front| + |LineText(line)| + 1)
  {
    var last := LineText(line) + "\n";
    assert (front + last) + rest == front + (last + rest);
    LineBoundary(line, rest);
    BoundaryAdds(front, last + rest, |last|);
  }

  lemma {:induction false} WrittenBoundary(lines: seq<seq<Piece>>, rest: string)
    requires forall l | l in lines :: FitLine(l)
    ensures Boundary(Written(lines) + rest, |Written(lines)|)
    decreases |lines|
  {
    if lines != [] {
      var front, line := lines[..|lines| - 1], lines[|lines| - 1];
      WrittenBoundary(front, (LineText(line) + "\n") + rest);
      LastBoundary(Written(front), line, rest);
    }
  }

  lemma LineCounted(t: Tracker, line: seq<Piece>, width: nat)
    requires width > 0 && FitLine(line) && t.col == 0 && !t.pending
    ensures Fed(t, LineText(line) + "\n", width) == t.(row := t.row + RowsOf(Tracked(line), width))
  {
    FeedWhole(t.row, line, width);
  }

  lemma FeedLast(t: Tracker, lines: seq<seq<Piece>>, width: int)
    requires lines != [] && forall l | l in lines :: FitLine(l)
    ensures var front := lines[..|lines| - 1];
            Fed(t, Written(lines), width) ==
            Fed(Fed(t, Written(front), width), LineText(lines[|lines| - 1]) + "\n", width)
  {
    var front, last := lines[..|lines| - 1], LineText(lines[|lines| - 1]) + "\n";
    WrittenBoundary(front, last);
    Split(t, Written(front), last, width);
  }

  lemma LastCounted(row: int, above: nat, lines: seq<seq<Piece>>, width: nat)
    requires width > 0 && lines != [] && forall l | l in lines :: FitLine(l)
    requires Fed(Tracker(row, 0, false), Written(lines[..|lines| - 1]), width) == Tracker(row + above, 0, false)
    ensures Fed(Tracker(row, 0, false), Written(lines), width)
            == Tracker(row + above + RowsOf(Tracked(lines[|lines| - 1]), width), 0, false)
  {
    FeedLast(Tracker(row, 0, false), lines, width);
    LineCounted(Tracker(row + above, 0, false), lines[|lines| - 1], width);
  }

  /** The rows of the lines by the tracker's cells. */
  function TrackedRows(lines: seq<seq<Piece>>, columns: nat): nat
    requires columns > 0
  {
    if lines == [] then 0
    else TrackedRows(lines[..|lines| - 1], columns) + RowsOf(Tracked(lines[|lines| - 1]), columns)
  }

  /** Sending each line and a newline from the start of a row moves the tracked row by the rows of its own cells. */
  lemma {:induction false} TrackerMoves(row: int, lines: seq<seq<Piece>>, width: nat)
    requires width > 0 && forall l | l in lines :: FitLine(l)
    ensures Fed(Tracker(row, 0, false), Written(lines), width) == Tracker(row + TrackedRows(lines, width), 0, false)
    decreases |lines|
  {
    if lines != [] {
      var front := lines[..|lines| - 1];
      TrackerMoves(row, front, width);
      LastCounted(row, TrackedRows(front, width), lines, width);
    }
  }

  predicate Level(line: seq<Piece>) { Tab !in line && Delete !in line }

  lemma {:induction false} LevelCells(line: seq<Piece>)
    requires Level(line)
    ensures Tracked(line) == Printed(line)
  {
    if line != [] { LevelCells(line[1..]); }
  }

  lemma {:induction false} SameRows(lines: seq<seq<Piece>>, width: nat)
    requires width > 0 && forall l | l in lines :: FitLine(l)
    requires forall l | l in lines :: RowsOf(Tracked(l), width) == RowsOf(Printed(l), width)
    ensures TrackedRows(lines, width) == RowsFor(Texts(lines), width)
    decreases |lines|
  {
    if lines != [] {
      var front := lines[..|lines| - 1];
      SameRows(front, width);
      VisibleIsPrinted(lines[|lines| - 1]);
      assert Texts(lines)[..|lines| - 1] == Texts(front);
    }
  }

  /**
   * For any width and any lines of printable characters and sequences that
   * move nothing, sending each line and a newline from the start of a row
   * moves the tracked row by exactly `rowsFor`.
   */
  lemma TrackerCountsRows(row: int, lines: seq<seq<Piece>>, width: nat)
    requires width > 0 && forall l | l in lines :: FitLine(l) && Level(l)
    ensures Fed(Tracker(row, 0, false), Written(lines), width) == Tracker(row + RowsFor(Texts(lines), width), 0, false)
  {
    TrackerMoves(row, lines, width);
    forall l | l in lines ensures RowsOf(Tracked(l), width) == RowsOf(Printed(l), width) { LevelCells(l); }
    SameRows(lines, width);
  }

  /** The same, in whatever chunks the text is written, cut at token boundaries. */
  lemma ChunksCountRows(row: int, lines: seq<seq<Piece>>, chunks: seq<string>, width: nat)
    requires width > 0 && (forall l | l in lines :: FitLine(l) && Level(l))
    requires AtBoundaries(chunks) && Joined(chunks) == Written(lines)
    ensures FedChunks(Tracker(row, 0, false), chunks, width) == Tracker(row + RowsFor(Texts(lines), width), 0, false)
  {
    ChunksAgree(Tracker(row, 0, false), chunks, width);
    TrackerCountsRows(row, lines, width);
  }

  // ---- Where they part ----

  /**
   * With tabs, which only the row count counts, and DELs, which only the
   * tracker counts, a line moves the tracked row by `rowsFor` exactly when
   * the two counts of its cells fill as many rows.
   */
  lemma LineAgreesIff(row: int, line: seq<Piece>, width: nat)
    requires width > 0 && FitLine(line)
    ensures Fed(Tracker(row, 0, false), LineText(line) + "\n", width).row == row + RowsFor([LineText(line)], width)
            <==> RowsOf(Tracked(line), width) == RowsOf(Printed(line), width)
  {
    FeedWhole(row, line, width);
    VisibleIsPrinted(line);
    assert [LineText(line)][..0] == [];
  }

  /** At a width of 1, they part on two cells as soon as one of them is a tab or a DEL. */
  lemma TabOrDelDiffers(row: int, p: Piece, q: Piece)
    requires Fits(p) && p.Plain? && (q.Tab? || q.Delete?)
    ensures Fed(Tracker(row, 0, false), LineText([p, q]) + "\n", 1).row != row + RowsFor([LineText([p, q])], 1)
  {
    assert [p, q][1..] == [q] && [q][1..] == [];
    assert Tracked([p, q]) == 1 + Tracked([q]) && Printed([p, q]) == 1 + Printed([q]);
    assert {Tracked([q]), Printed([q])} == {0, 1};
    assert RowsOf(1, 1) == 1 && RowsOf(2, 1) == 2;
    LineAgreesIff(row, [p, q], 1);
  }

  lemma {:induction false} ShownText(t: Tracker, s: string, width: int)
    requires forall c | c in s :: c >= ' '
    ensures Fed(t, s, width) == ShownTimes(t, |s|, width)
    decreases |s|
  {
    if s != "" {
      assert s[0] in s && forall c | c in s[1..] :: c in s;
      ShownText(Shown(t, width), s[1..], width);
    }
  }

  lemma {:induction false} ShownAdds(t: Tracker, m: nat, n: nat, width: int)
    ensures ShownTimes(ShownTimes(t, m, width), n, width) == ShownTimes(t, m + n, width)
    decreases m
  {
    if m > 0 { ShownAdds(Shown(t, width), m - 1, n, width); }
  }

  /** A sequence that has not come to its end is text, but for its escape. */
  lemma OpeningShown(t: Tracker, s: string, width: int)
    requires s != "" && s[0] == ESC && (|s| > 1 ==> s[1] == '[') && forall k | 2 <= k < |s| :: Param(s[k])
    ensures Fed(t, s, width) == ShownTimes(t, |s| - 1, width)
  {
    assert |s| > 1 ==> ParamEnd(s, 2) == |s|;
    assert Fed(t, s, width) == Fed(t, s[1..], width);
    forall c | c in s[1..] ensures c >= ' ' {
      var k :| 1 <= k < |s| && s[k] == c;
    }
    ShownText(t, s[1..], width);
  }

  lemma SequenceChars(params: string, op: char)
    requires (forall x | x in params :: Param(x)) && '@' <= op <= '~'
    ensures var s := SequenceText(params, op);
            && s[0] == ESC && s[1] == '[' && s[|s| - 1] == op
            && (forall k | 2 <= k < |s| - 1 :: Param(s[k])) && (forall k | 1 <= k < |s| :: s[k] >= ' ')
  {
    var s := SequenceText(params, op);
    forall k | 2 <= k < |s| - 1 ensures Param(s[k]) { assert s[k] == params[k - 2]; }
  }

  lemma SequenceIsToken(t: Tracker, params: string, op: char, width: int)
    requires (forall x | x in params :: Param(x)) && '@' <= op <= '~'
    ensures Fed(t, SequenceText(params, op), width) == Move(t, SequenceText(params, op), width)
  {
    var s := SequenceText(params, op);
    SequenceChars(params, op);
    ParamEndAt(s, 2, |s| - 1);
    assert s[..|s|] == s && s[|s|..] == "";
    assert Fed(t, s, width) == Fed(Move(t, s, width), "", width);
  }

  /** Cut anywhere inside a sequence, all of it but its escape is taken for text. */
  lemma CutInside(t: Tracker, params: string, op: char, c: nat, width: int)
    requires (forall x | x in params :: Param(x)) && '@' <= op <= '~' && 0 < c < |SequenceText(params, op)|
    ensures var s := SequenceText(params, op);
            && Fed(t, s, width) == Move(t, s, width)
            && Fed(Fed(t, s[..c], width), s[c..], width) == ShownTimes(t, |s| - 1, width)
  {
    var s := SequenceText(params, op);
    SequenceIsToken(t, params, op, width);
    SequenceChars(params, op);
    OpeningShown(t, s[..c], width);
    ShownText(Fed(t, s[..c], width), s[c..], width);
    ShownAdds(t, c - 1, |s| - c, width);
  }

  // ---- What a sequence does ----

  predicate Digit(c: char) { '0' <= c <= '9' }

  predicate AllDigits(s: string) { forall i | 0 <= i < |s| :: Digit(s[i]) }

  /** The number the decimal digits write. */
  function Decimal(digits: string): nat
    requires AllDigits(digits)
  {
    if digits == "" then 0
    else
      var n := |digits| - 1;
      10 * Decimal(digits[..n]) + (digits[n] as nat - '0' as nat)
  }

  lemma {:induction false} DigitsAre(s: string, i: nat, e: nat)
    requires 2 <= i <= e <= |s| && AllDigits(s[2..i]) && AllDigits(s[2..e]) && (e < |s| ==> !Digit(s[e]))
    ensures Digits(s, i, Decimal(s[2..i])) == Decimal(s[2..e])
    decreases e - i
  {
    if i < e {
      assert s[2..e][i - 2] == s[i] && s[2..i + 1] == s[2..e][..i - 1] && s[2..i + 1][..i - 2] == s[2..i];
      DigitsAre(s, i + 1, e);
    }
  }

  lemma CountRead(digits: string, op: char)
    requires AllDigits(digits) && '@' <= op <= '~'
    ensures CountOf(SequenceText(digits, op)) == Max(1, Decimal(digits))
  {
    var s := SequenceText(digits, op);
    assert s[2..2] == "" && s[2..|s| - 1] == digits;
    DigitsAre(s, 2, |s| - 1);
  }

  /**
   * A cursor movement goes the number of cells or rows it states, at least
   * one, and no further than the screen is wide; any other sequence moves
   * nothing.
   */
  lemma SequenceMoves(t: Tracker, digits: string, op: char, width: int)
    requires AllDigits(digits) && '@' <= op <= '~'
    ensures var n := if Decimal(digits) == 0 then 1 else Decimal(digits);
            Fed(t, SequenceText(digits, op), width) ==
            match op
            case 'A' => Tracker(t.row - n, t.col, false)
            case 'B' => Tracker(t.row + n, t.col, false)
            case 'C' => Tracker(t.row, if t.col + n > width - 1 then width - 1 else t.col + n, false)
            case 'D' => Tracker(t.row, if t.col < n then 0 else t.col - n, false)
            case 'G' => Tracker(t.row, if n > width then width - 1 else n - 1, false)
            case _ => t
  {
    SequenceIsToken(t, digits, op, width);
    SequenceChars(digits, op);
    CountRead(digits, op);
  }

  // ---- What the row count leaves out ----

  lemma {:induction false} OscEndAt(s: string, i: nat, e: nat)
    requires i <= e < |s| && (forall k | i <= k < e :: s[k] != BEL && s[k] != ESC) && (s[e] == BEL || s[e] == ESC)
    ensures OscEnd(s, i) == e
    decreases e - i
  {
    if i < e { OscEndAt(s, i + 1, e); }
  }

  /** A link or title, closed either way, takes no cell. */
  lemma CommandStripped(body: string, bell: bool, rest: string)
    requires BEL !in body && ESC !in body
    ensures StripControl([ESC, ']'] + body + (if bell then [BEL] else [ESC, '\\']) + rest) == StripControl(rest)
  {
    var s := [ESC, ']'] + body + (if bell then [BEL] else [ESC, '\\']) + rest;
    var e := |body| + 2;
    forall k | 2 <= k < e ensures s[k] != BEL && s[k] != ESC { assert s[k] == body[k - 2] && s[k] in body; }
    OscEndAt(s, 2, e);
    assert s[e + (if bell then 1 else 2)..] == rest;
  }

  lemma {:induction false} MiddlesEndAt(s: string, i: nat, e: nat)
    requires i <= e < |s| && (forall k | i <= k < e :: CsiMiddle(s[k])) && !CsiMiddle(s[e])
    ensures MiddlesEnd(s, i) == e
    decreases e - i
  {
    if i < e { MiddlesEndAt(s, i + 1, e); }
  }

  /** Nor does a control sequence with any parameters and intermediates. */
  lemma ControlStripped(params: string, middles: string, op: char, rest: string)
    requires (forall c | c in params :: CsiParam(c)) && (forall c | c in middles :: CsiMiddle(c)) && '@' <= op <= '~'
    ensures StripControl([ESC, '['] + params + middles + [op] + rest) == StripControl(rest)
  {
    var s := [ESC, '['] + params + middles + [op] + rest;
    var p := |params| + 2;
    var e := p + |middles|;
    assert s[e] == op && s[e + 1..] == rest;
    forall k | 2 <= k < p ensures CsiParam(s[k]) { assert s[k] == params[k - 2] && s[k] in params; }
    forall k | p <= k < e ensures CsiMiddle(s[k]) { assert s[k] == middles[k - p] && s[k] in middles; }
    ParamsEndAt(s, 2, p);
    MiddlesEndAt(s, p, e);
  }
}
