// `reissue_request` of fixtures/approval/__init__.py: the one fenced block of pins is rewritten, nothing else is.
module ApprovalReissue {
  import opened Letters
  import opened Prelude
  import opened ApprovalPins

  // ---------------------------------------------------------------------------------
  // Lines

  function Lines(s: string): (r: seq<string>)
    ensures r != []
  {
    if s == "" then [""]
    else
      var r := Lines(s[1..]);
      if s[0] == '\n' then [""] + r else [[s[0]] + r[0]] + r[1..]
  }

  function Join(lines: seq<string>): string
    requires lines != []
  {
    if |lines| == 1 then lines[0] else lines[0] + "\n" + Join(lines[1..])
  }

  /** Every line with its newline. */
  function Closed(lines: seq<string>): string {
    if lines == [] then "" else lines[0] + "\n" + Closed(lines[1..])
  }

  predicate OneLine(s: string) {
    forall i | 0 <= i < |s| :: s[i] != '\n'
  }

  ghost predicate OneLiners(lines: seq<string>) {
    forall l | l in lines :: OneLine(l)
  }

  lemma {:induction false} LinesOf(s: string)
    ensures Join(Lines(s)) == s && OneLiners(Lines(s))
  {
    if s != "" {
      LinesOf(s[1..]);
      var r := Lines(s[1..]);
      assert s == [s[0]] + s[1..];
      if s[0] == '\n' {
        assert ([""] + r)[1..] == r;
        assert "" + "\n" + s[1..] == s;
      } else {
        var t := [[s[0]] + r[0]] + r[1..];
        assert t[1..] == r[1..];
        assert r[0] in r;
        if |r| > 1 {
          assert Join(t) == [s[0]] + r[0] + "\n" + Join(r[1..]);
          assert Join(r) == r[0] + "\n" + Join(r[1..]);
          assert Join(t) == [s[0]] + Join(r);
        }
      }
    }
  }

  lemma {:induction false} FirstLine(l: string, rest: string)
    requires OneLine(l)
    ensures Lines(l + "\n" + rest) == [l] + Lines(rest)
    ensures Lines(l) == [l]
  {
    if l == "" {
      assert (l + "\n" + rest)[1..] == rest;
    } else {
      assert (l + "\n" + rest)[1..] == l[1..] + "\n" + rest;
      FirstLine(l[1..], rest);
      assert l == [l[0]] + l[1..];
    }
  }

  lemma {:induction false} LinesJoin(lines: seq<string>)
    requires lines != [] && OneLiners(lines)
    ensures Lines(Join(lines)) == lines
  {
    if |lines| == 1 {
      FirstLine(lines[0], "");
    } else {
      LinesJoin(lines[1..]);
      FirstLine(lines[0], Join(lines[1..]));
      assert lines == [lines[0]] + lines[1..];
    }
  }

  lemma {:induction false} ClosedConcat(a: seq<string>, b: seq<string>)
    ensures Closed(a + b) == Closed(a) + Closed(b)
  {
    if a == [] {
      assert a + b == b;
    } else {
      ClosedConcat(a[1..], b);
      assert (a + b)[1..] == a[1..] + b;
    }
  }

  lemma {:induction false} JoinConcat(a: seq<string>, b: seq<string>)
    requires b != []
    ensures Join(a + b) == Closed(a) + Join(b)
  {
    if a == [] {
      assert a + b == b;
    } else {
      JoinConcat(a[1..], b);
      assert (a + b)[1..] == a[1..] + b;
    }
  }

  // ---------------------------------------------------------------------------------
  // `_FENCED`

  const FENCE: string := "```"

  predicate Opens(line: string) {
    FENCE <= line
  }

  predicate Closes(line: string) {
    FENCE <= line && forall i | |FENCE| <= i < |line| :: line[i] == ' ' || line[i] == '\t'
  }

  /** A document is plain lines and fenced blocks; a fence that nothing closes is a plain line. */
  datatype Segment = Plain(line: string) | Block(open: string, body: seq<string>, close: string)

  function FirstClose(lines: seq<string>): (k: nat)
    ensures k <= |lines| && (k < |lines| ==> Closes(lines[k])) && forall i | 0 <= i < k :: !Closes(lines[i])
  {
    if lines == [] || Closes(lines[0]) then 0 else 1 + FirstClose(lines[1..])
  }

  function Parse(lines: seq<string>): seq<Segment>
    decreases |lines|
  {
    if lines == [] then []
    else if BlockStarts(lines) then [FirstBlock(lines)] + Parse(AfterBlock(lines))
    else [Plain(lines[0])] + Parse(lines[1..])
  }

  /** The first line opens a fence that some later line closes. */
  predicate BlockStarts(lines: seq<string>) {
    lines != [] && Opens(lines[0]) && FirstClose(lines[1..]) < |lines| - 1
  }

  function FirstBlock(lines: seq<string>): Segment
    requires BlockStarts(lines)
  {
    var k := FirstClose(lines[1..]);
    Block(lines[0], lines[1..1 + k], lines[1 + k])
  }

  function AfterBlock(lines: seq<string>): (r: seq<string>)
    requires BlockStarts(lines)
    ensures |r| < |lines|
  {
    lines[2 + FirstClose(lines[1..])..]
  }

  function Lines1(segment: Segment): seq<string> {
    match segment
    case Plain(line) => [line]
    case Block(open, body, close) => [open] + body + [close]
  }

  function Render(segments: seq<Segment>): seq<string> {
    if segments == [] then [] else Lines1(segments[0]) + Render(segments[1..])
  }

  ghost predicate NoClose(lines: seq<string>) {
    forall l | l in lines :: !Closes(l)
  }

  ghost predicate WellFormed1(segment: Segment, after: seq<string>) {
    match segment
    case Plain(line) => Opens(line) ==> NoClose(after)
    case Block(open, body, close) => Opens(open) && NoClose(body) && Closes(close)
  }

  ghost predicate WellFormed(segments: seq<Segment>) {
    segments == [] || (WellFormed1(segments[0], Render(segments[1..])) && WellFormed(segments[1..]))
  }

  lemma RenderCons(segment: Segment, segments: seq<Segment>)
    ensures Render([segment] + segments) == Lines1(segment) + Render(segments)
    ensures WellFormed([segment] + segments) <==> WellFormed1(segment, Render(segments)) && WellFormed(segments)
  {
    assert ([segment] + segments)[1..] == segments;
  }

  lemma BlockLines(lines: seq<string>)
    requires BlockStarts(lines)
    ensures lines == Lines1(FirstBlock(lines)) + AfterBlock(lines)
    ensures forall after :: WellFormed1(FirstBlock(lines), after)
  {
    var k := FirstClose(lines[1..]);
    assert lines[1..][k] == lines[1 + k];
    hide Closes, FirstClose;
    forall l | l in lines[1..1 + k] ensures !Closes(l) {
      var i :| 0 <= i < k && l == lines[1..1 + k][i];
      assert !Closes(lines[1..][i]);
    }
    assert lines == [lines[0]] + lines[1..1 + k] + [lines[1 + k]] + lines[2 + k..];
  }

  lemma {:induction false} ParseLines(lines: seq<string>)
    ensures Render(Parse(lines)) == lines && WellFormed(Parse(lines))
    decreases |lines|
  {
    if lines != [] {
      hide *;
      if BlockStarts(lines) {
        ParseLines(AfterBlock(lines));
        BlockParsed(lines);
      } else {
        ParseLines(lines[1..]);
        PlainParsed(lines);
      }
    } else {
      assert Render([]) == [] && WellFormed([]);
    }
  }

  lemma BlockParsed(lines: seq<string>)
    requires BlockStarts(lines)
    requires Render(Parse(AfterBlock(lines))) == AfterBlock(lines) && WellFormed(Parse(AfterBlock(lines)))
    ensures Render(Parse(lines)) == lines && WellFormed(Parse(lines))
  {
    ParseBlockStep(lines);
    hide *;
    BlockLines(lines);
    RenderCons(FirstBlock(lines), Parse(AfterBlock(lines)));
  }

  lemma ParseBlockStep(lines: seq<string>)
    requires lines != [] && BlockStarts(lines)
    ensures Parse(lines) == [FirstBlock(lines)] + Parse(AfterBlock(lines))
  {
    hide BlockStarts, FirstBlock, AfterBlock, Opens, FirstClose;
  }

  lemma ParsePlainStep(lines: seq<string>)
    requires lines != [] && !BlockStarts(lines)
    ensures Parse(lines) == [Plain(lines[0])] + Parse(lines[1..])
  {
    hide BlockStarts, FirstBlock, AfterBlock, Opens, FirstClose;
  }

  lemma PlainParsed(lines: seq<string>)
    requires lines != [] && !BlockStarts(lines)
    requires Render(Parse(lines[1..])) == lines[1..] && WellFormed(Parse(lines[1..]))
    ensures Render(Parse(lines)) == lines && WellFormed(Parse(lines))
  {
    ParsePlainStep(lines);
    if Opens(lines[0]) {
      NoneCloses(lines[1..]);
    }
    assert WellFormed1(Plain(lines[0]), lines[1..]);
    assert Lines1(Plain(lines[0])) + lines[1..] == lines;
    hide *;
    RenderCons(Plain(lines[0]), Parse(lines[1..]));
  }

  lemma NoneCloses(lines: seq<string>)
    requires FirstClose(lines) == |lines|
    ensures NoClose(lines)
  {
    hide Closes;
    forall l | l in lines ensures !Closes(l) {
      var i :| 0 <= i < |lines| && lines[i] == l;
    }
  }

  // ---------------------------------------------------------------------------------
  // `reissue_request`

  predicate PinBearing(segment: Segment) {
    segment.Block? && Pins(Lower(Closed(segment.body))) != []
  }

  function PinBlocks(segments: seq<Segment>): (r: seq<nat>)
    ensures forall i: nat :: i in r <==> i < |segments| && PinBearing(segments[i])
  {
    PinBlocksFrom(segments, 0)
  }

  function PinBlocksFrom(segments: seq<Segment>, n: nat): (r: seq<nat>)
    requires n <= |segments|
    ensures forall i: nat :: i in r <==> n <= i < |segments| && PinBearing(segments[i])
    decreases |segments| - n
  {
    if n == |segments| then []
    else if PinBearing(segments[n]) then [n] + PinBlocksFrom(segments, n + 1)
    else PinBlocksFrom(segments, n + 1)
  }

  function Spaces(n: nat): string {
    seq(n, _ => ' ')
  }

  function Longest(covered: seq<Pin>): (n: nat)
    ensures forall p | p in covered :: |p.path| <= n
  {
    if covered == [] then 0 else Max(|covered[0].path|, Longest(covered[1..]))
  }

  /** `f"{path.ljust(width)}{digest}"` */
  function Row(p: Pin, width: nat): string
    requires |p.path| <= width
  {
    p.path + Spaces(width - |p.path|) + p.digest
  }

  function RowsAt(covered: seq<Pin>, width: nat): (r: seq<string>)
    requires forall p | p in covered :: |p.path| <= width
    ensures |r| == |covered|
  {
    if covered == [] then [] else [Row(covered[0], width)] + RowsAt(covered[1..], width)
  }

  function Rows(covered: seq<Pin>): seq<string> {
    RowsAt(covered, Longest(covered) + 2)
  }

  function Head(segments: seq<Segment>, i: nat): string
    requires i < |segments| && segments[i].Block?
  {
    Closed(Render(segments[..i]) + [segments[i].open])
  }

  function Tail(segments: seq<Segment>, i: nat): string
    requires i < |segments| && segments[i].Block?
  {
    Join([segments[i].close] + Render(segments[i + 1..]))
  }

  /** The error carries the number of pin-bearing blocks found. */
  function Reissue(text: string, covered: seq<Pin>): Result<string, nat> {
    var segments := Parse(Lines(text));
    var hits := PinBlocks(segments);
    if |hits| != 1 then Err(|hits|)
    else
      assert hits[0] in hits;
      Ok(Head(segments, hits[0]) + Closed(Rows(covered)) + Tail(segments, hits[0]))
  }

  lemma {:induction false} RenderConcat(a: seq<Segment>, b: seq<Segment>)
    ensures Render(a + b) == Render(a) + Render(b)
  {
    if a == [] {
      assert a + b == b;
    } else {
      hide *;
      RenderConcat(a[1..], b);
      FirstOfConcat(a, b);
      RenderFirst(a + b);
      RenderFirst(a);
      ConcatAssoc(Lines1(a[0]), Render(a[1..]), Render(b));
    }
  }

  lemma FirstOfConcat<T>(a: seq<T>, b: seq<T>)
    requires a != []
    ensures (a + b)[0] == a[0] && (a + b)[1..] == a[1..] + b
  {
  }

  lemma RenderFirst(a: seq<Segment>)
    requires a != []
    ensures Render(a) == Lines1(a[0]) + Render(a[1..])
  {
  }

  lemma RenderAround(segments: seq<Segment>, i: nat)
    requires i < |segments| && segments[i].Block?
    ensures Render(segments)
         == (Render(segments[..i]) + [segments[i].open]) + segments[i].body +
           ([segments[i].close] + Render(segments[i + 1..]))
  {
    hide Render, WellFormed;
    var before, block, after := segments[..i], segments[i], segments[i + 1..];
    assert segments == before + ([block] + after);
    RenderConcat(before, [block] + after);
    RenderCons(block, after);
    assert Lines1(block) == [block.open] + block.body + [block.close];
    hide Lines1;
    Regroup(Render(before), [block.open], block.body, [block.close], Render(after));
  }

  lemma Regroup<T>(a: seq<T>, b: seq<T>, c: seq<T>, d: seq<T>, e: seq<T>)
    ensures a + ((b + c + d) + e) == (a + b) + c + (d + e)
  {
  }

  /** A document around one of its blocks. */
  lemma TextAround(segments: seq<Segment>, i: nat)
    requires i < |segments| && segments[i].Block?
    ensures Render(segments) != [] && Join(Render(segments)) == Head(segments, i) + Closed(segments[i].body) +
      Tail(segments, i)
  {
    var before, body := Render(segments[..i]) + [segments[i].open], segments[i].body;
    var after := [segments[i].close] + Render(segments[i + 1..]);
    RenderAround(segments, i);
    hide Render, Join, Closed;
    JoinConcat(before + body, after);
    ClosedConcat(before, body);
  }

  /** Before and after differ in the i-th segment's body and nowhere else. */
  ghost predicate OnlyBody(segments: seq<Segment>, i: nat, text: string, body: string, result: string) {
    && i < |segments| && segments[i].Block?
    && text == Head(segments, i) + Closed(segments[i].body) + Tail(segments, i)
    && result == Head(segments, i) + body + Tail(segments, i)
  }

  /** Everything outside the one block's body is kept, character for character. */
  lemma OutsideKept(text: string, covered: seq<Pin>)
    requires Reissue(text, covered).Ok?
    ensures var segments := Parse(Lines(text));
      && Join(Render(segments)) == text && |PinBlocks(segments)| == 1
      && OnlyBody(segments, PinBlocks(segments)[0], text, Closed(Rows(covered)), Reissue(text, covered).value)
  {
    var segments := Parse(Lines(text));
    var hits := PinBlocks(segments);
    assert hits[0] in hits;
    LinesOf(text);
    ParseLines(Lines(text));
    TextAround(segments, hits[0]);
    hide Head, Tail, Closed, Rows, Parse, Lines, PinBlocks;
  }

  // ---------------------------------------------------------------------------------
  // Reading the re-issued document back, line by line

  lemma FirstCloseIs(body: seq<string>, close: string, after: seq<string>)
    requires NoClose(body) && Closes(close)
    ensures FirstClose(body + [close] + after) == |body|
  {
    var s := body + [close] + after;
    hide Closes;
    assert s[|body|] == close;
    forall i | 0 <= i < |body| ensures !Closes(s[i]) {
      assert s[i] == body[i] && body[i] in body;
    }
  }

  lemma NoFirstClose(lines: seq<string>)
    requires NoClose(lines)
    ensures FirstClose(lines) == |lines|
  {
    hide Closes;
    forall i | 0 <= i < |lines| ensures !Closes(lines[i]) {
      assert lines[i] in lines;
    }
  }

  lemma ParseBlock(open: string, body: seq<string>, close: string, after: seq<string>)
    requires Opens(open) && NoClose(body) && Closes(close)
    ensures Parse([open] + body + [close] + after) == [Block(open, body, close)] + Parse(after)
  {
    var lines, k := [open] + body + [close] + after, |body|;
    FirstCloseIs(body, close, after);
    assert lines[1..] == body + [close] + after;
    assert lines[0] == open && lines[1..1 + k] == body && lines[1 + k] == close && lines[2 + k..] == after;
    hide Closes, Opens, FirstClose;
  }

  lemma ParsePlain(line: string, after: seq<string>)
    requires Opens(line) ==> NoClose(after)
    ensures Parse([line] + after) == [Plain(line)] + Parse(after)
  {
    assert ([line] + after)[1..] == after;
    if Opens(line) {
      NoFirstClose(after);
    }
    hide Closes, Opens, FirstClose;
  }

  lemma {:induction false} ParseRender(segments: seq<Segment>)
    requires WellFormed(segments)
    ensures Parse(Render(segments)) == segments
  {
    if segments != [] {
      var first, rest := segments[0], segments[1..];
      assert WellFormed1(first, Render(rest)) && WellFormed(rest);
      assert segments == [first] + rest;
      hide Parse, Render, WellFormed, Closes, Opens;
      ParseRender(rest);
      RenderFirst(segments);
      match first
      case Plain(line) => ParsePlain(line, Render(rest));
      case Block(open, body, close) => ParseBlock(open, body, close, Render(rest));
    } else {
      assert Render(segments) == [] && Parse([]) == [];
    }
  }

  lemma {:induction false} RendersClose(segments: seq<Segment>, i: nat)
    requires WellFormed(segments) && i < |segments| && segments[i].Block?
    ensures !NoClose(Render(segments))
  {
    assert i > 0 ==> WellFormed(segments[1..]);
    assert i == 0 ==> Closes(segments[0].close);
    hide Closes, Opens, Render, WellFormed;
    RenderFirst(segments);
    if i == 0 {
      assert segments[0].close in Lines1(segments[0]);
      assert segments[0].close in Render(segments);
    } else {
      RendersClose(segments[1..], i - 1);
      var l :| l in Render(segments[1..]) && Closes(l);
      assert l in Render(segments);
    }
  }

  /** A block's body may be replaced by any lines that do not close it. */
  lemma {:induction false} ReplaceBody(segments: seq<Segment>, i: nat, body: seq<string>)
    requires WellFormed(segments) && i < |segments| && segments[i].Block? && NoClose(body)
    ensures WellFormed(segments[i := segments[i].(body := body)])
  {
    var changed := segments[i := segments[i].(body := body)];
    assert WellFormed1(segments[0], Render(segments[1..])) && WellFormed(segments[1..]);
    hide Closes, Opens, Render;
    if i == 0 {
      assert changed[1..] == segments[1..];
    } else {
      assert changed[1..] == segments[1..][i - 1 := segments[i].(body := body)];
      ReplaceBody(segments[1..], i - 1, body);
      RendersClose(segments[1..], i - 1);
      assert changed[0] == segments[0];
    }
  }

  // ---------------------------------------------------------------------------------
  // Reading the pins of the re-issued document

  /** A path and whitespace that run to the very end of a text: all a digest put after them would complete. */
  predicate DanglesHere(s: string) {
    var n := Span(s, IsPathChar);
    n < |s| && IsPath(s[..n]) && Span(s[n..], IsSpace) == |s| - n
  }

  predicate Dangles(s: string) {
    s != "" && (DanglesHere(s) || Dangles(s[1..]))
  }

  predicate StartsWithDigest(s: string) {
    |s| >= 64 && IsDigest(s[..64])
  }

  lemma SpanOfConcat(a: string, b: string, f: char -> bool)
    requires Span(a, f) < |a| || b == "" || !f(b[0])
    ensures Span(a + b, f) == Span(a, f)
  {
    var n := Span(a, f);
    assert a + b == a[..n] + (a[n..] + b);
    assert n < |a| ==> !f((a[n..] + b)[0]);
    assert n == |a| ==> a[n..] + b == b;
    hide Span;
    SpanIs(a[..n], a[n..] + b, f);
  }

  lemma NewlineInWindow(a: string, b: string, k: nat)
    requires k < |a| <= k + 64 <= |a + b| && a[|a| - 1] == '\n'
    ensures !IsDigest((a + b)[k..k + 64])
  {
    assert !IsHexDigit('\n');
    assert (a + b)[k..k + 64][|a| - 1 - k] == '\n';
  }

  /** A digest that begins before a newline ends before it. */
  lemma DigestStaysIn(a: string, b: string, k: nat)
    requires a != "" && a[|a| - 1] == '\n' && k < |a| && |a + b| >= k + 64 && IsDigest((a + b)[k..k + 64])
    ensures |a| >= k + 64 && (a + b)[k..k + 64] == a[k..k + 64]
  {
    hide IsDigest;
    if |a| < k + 64 {
      NewlineInWindow(a, b, k);
    }
  }

  lemma NoStraddleAs(a: string, b: string, n: nat, w: nat)
    requires a != "" && a[|a| - 1] == '\n' && n + w <= |a| && MatchAs(a, n, w).None?
    requires !(n + w == |a| && w > 0 && IsPath(a[..n]) && StartsWithDigest(b))
    ensures MatchAs(a + b, n, w).None?
  {
    var s := a + b;
    assert s[..n] == a[..n];
    hide IsPath, IsDigest;
    if |s| >= n + w + 64 && IsDigest(s[n + w..n + w + 64]) {
      if n + w == |a| {
        assert s[n + w..n + w + 64] == b[..64];
      } else {
        DigestStaysIn(a, b, n + w);
      }
    }
  }

  /** No match begins before a newline and ends after it, unless only whitespace separates a path from a digest. */
  lemma NoStraddle(a: string, b: string)
    requires a != "" && a[|a| - 1] == '\n' && MatchAt(a).None?
    requires b != "" ==> !IsSpace(b[0])
    requires !(DanglesHere(a) && StartsWithDigest(b))
    ensures MatchAt(a + b).None?
  {
    var n := Span(a, IsPathChar);
    assert !IsPathChar('\n');
    assert n < |a|;
    SpanOfConcat(a, b, IsPathChar);
    assert (a + b)[n..] == a[n..] + b;
    SpanOfConcat(a[n..], b, IsSpace);
    hide Span, IsPath, IsPathChar, IsSpace, IsDigest, MatchAs;
    NoStraddleAs(a, b, n, Span(a[n..], IsSpace));
  }

  lemma {:induction false} SkipProse(a: string, b: string)
    requires a == "" || a[|a| - 1] == '\n'
    requires Pins(a) == [] && (b != "" ==> !IsSpace(b[0])) && !(Dangles(a) && StartsWithDigest(b))
    ensures Pins(a + b) == Pins(b)
  {
    if a == "" {
      assert a + b == b;
    } else {
      assert Dangles(a[1..]) || DanglesHere(a) ==> Dangles(a);
      hide *;
      NoPins(a);
      EndOfRest(a);
      SkipProse(a[1..], b);
      NoStraddle(a, b);
      SkipOne(a, b);
    }
  }

  lemma NoPins(a: string)
    requires a != "" && Pins(a) == []
    ensures MatchAt(a).None? && Pins(a[1..]) == []
  {
    hide MatchAt;
  }

  lemma SkipOne(a: string, b: string)
    requires a != "" && MatchAt(a + b).None?
    ensures Pins(a + b) == Pins(a[1..] + b)
  {
    hide MatchAt;
    assert (a + b)[1..] == a[1..] + b;
  }

  lemma EndOfRest(a: string)
    requires a != ""
    ensures a[1..] != "" ==> a[1..][|a[1..]| - 1] == a[|a| - 1]
  {
  }

  /** What the emitter is given: paths the pattern accepts once lower-cased, and digests. */
  ghost predicate Publishable(covered: seq<Pin>) {
    forall p | p in covered :: IsPath(Lower(p.path)) && IsDigest(p.digest)
  }

  function Lowered(covered: seq<Pin>): seq<Pin> {
    seq(|covered|, i requires 0 <= i < |covered| => Pin(Lower(covered[i].path), covered[i].digest))
  }

  lemma LowerDigest(d: string)
    requires IsDigest(d)
    ensures Lower(d) == d
  {
  }

  lemma RowPin(p: Pin, width: nat, rest: string)
    requires |p.path| < width && IsPath(Lower(p.path)) && IsDigest(p.digest)
    ensures Pins(Lower(Row(p, width) + "\n") + rest) == [Pin(Lower(p.path), p.digest)] + Pins(rest)
  {
    var gap := Spaces(width - |p.path|);
    LowerDigest(p.digest);
    var row := Lower(Row(p, width) + "\n");
    assert row == Lower(p.path) + gap + p.digest + "\n";
    var s := row + rest;
    assert s == Lower(p.path) + gap + p.digest + ("\n" + rest);
    assert Every(gap, IsSpace);
    hide IsPath, IsDigest, Lower, MatchAt;
    DerivedMatch(s, Lower(p.path), gap, p.digest, "\n" + rest);
    assert s[|Lower(p.path)| + |gap| + 64..] == "\n" + rest;
    NewlineNoPin(rest);
  }

  lemma NewlineNoPin(rest: string)
    ensures Pins("\n" + rest) == Pins(rest)
  {
    assert !IsPathChar('\n');
    assert Span("\n" + rest, IsPathChar) == 0;
    assert ("\n" + rest)[1..] == rest;
  }

  lemma {:induction false} RowsPins(covered: seq<Pin>, width: nat, rest: string)
    requires Publishable(covered) && forall p | p in covered :: |p.path| < width
    ensures Pins(Lower(Closed(RowsAt(covered, width))) + rest) == Lowered(covered) + Pins(rest)
  {
    if covered == [] {
      assert Lower("") + rest == rest;
    } else {
      var p, more := covered[0], covered[1..];
      assert Publishable(more) && p in covered;
      var row, below := Row(p, width) + "\n", Closed(RowsAt(more, width));
      RowsFirst(covered, width);
      hide *;
      RowsPins(more, width, rest);
      LowerConcat(row, below);
      ConcatAssoc(Lower(row), Lower(below), rest);
      RowPin(p, width, Lower(below) + rest);
      ConcatAssoc([Pin(Lower(p.path), p.digest)], Lowered(more), Pins(rest));
    }
  }

  lemma RowsFirst(covered: seq<Pin>, width: nat)
    requires covered != [] && forall p | p in covered :: |p.path| <= width
    ensures var p, more := covered[0], covered[1..];
      && Closed(RowsAt(covered, width)) == Row(p, width) + "\n" + Closed(RowsAt(more, width))
      && Lowered(covered) == [Pin(Lower(p.path), p.digest)] + Lowered(more)
  {
    LoweredFirst(covered);
    hide Row, Lower, Lowered;
    var rows := RowsAt(covered[1..], width);
    assert RowsAt(covered, width) == [Row(covered[0], width)] + rows;
    ClosedFirst(Row(covered[0], width), rows);
  }

  lemma ClosedFirst(line: string, lines: seq<string>)
    ensures Closed([line] + lines) == line + "\n" + Closed(lines)
  {
    assert ([line] + lines)[1..] == lines;
  }

  lemma LoweredFirst(covered: seq<Pin>)
    requires covered != []
    ensures Lowered(covered) == [Pin(Lower(covered[0].path), covered[0].digest)] + Lowered(covered[1..])
  {
    hide Lower;
  }

  /** A line of the document's own starts the text after the block with a fence, never with whitespace. */
  lemma TailFence(segments: seq<Segment>, i: nat)
    requires i < |segments| && segments[i].Block? && Closes(segments[i].close)
    ensures Tail(segments, i) != "" && Tail(segments, i)[0] == '`'
    ensures Lower(Tail(segments, i)) != "" && Lower(Tail(segments, i))[0] == '`'
  {
    assert FENCE[0] == '`' && segments[i].close[0] == '`';
    assert Tail(segments, i)[0] == segments[i].close[0];
  }

  lemma {:induction false} ClosedEnds(lines: seq<string>)
    requires lines != []
    ensures Closed(lines) != "" && Closed(lines)[|Closed(lines)| - 1] == '\n'
  {
    if |lines| > 1 {
      ClosedEnds(lines[1..]);
    }
  }

  ghost predicate Distinctly(covered: seq<Pin>) {
    forall i, j | 0 <= i < j < |covered| :: Lower(covered[i].path) != Lower(covered[j].path)
  }

  /** The published pins as a dictionary, paths lower-cased. */
  ghost function Published(covered: seq<Pin>): map<string, string>
    requires Distinctly(covered)
  {
    map i | 0 <= i < |covered| :: Lower(covered[i].path) := covered[i].digest
  }

  /** The document around the block, and the block itself, when re-issuing goes ahead. */
  ghost predicate Target(text: string, segments: seq<Segment>, i: nat) {
    segments == Parse(Lines(text)) && PinBlocks(segments) == [i] && i < |segments| && PinBearing(segments[i])
  }

  lemma TargetOf(text: string, covered: seq<Pin>) returns (segments: seq<Segment>, i: nat)
    requires Reissue(text, covered).Ok?
    ensures Target(text, segments, i) && WellFormed(segments) && Render(segments) == Lines(text)
    ensures Closes(segments[i].close)
    ensures Reissue(text, covered).value == Head(segments, i) + Closed(Rows(covered)) + Tail(segments, i)
  {
    segments := Parse(Lines(text));
    var hits := PinBlocks(segments);
    assert hits[0] in hits && hits == [hits[0]];
    i := hits[0];
    ParseLines(Lines(text));
    BlockCloses(segments, i);
  }

  lemma {:induction false} BlockCloses(segments: seq<Segment>, i: nat)
    requires WellFormed(segments) && i < |segments| && segments[i].Block?
    ensures Closes(segments[i].close)
  {
    if i > 0 {
      BlockCloses(segments[1..], i - 1);
    }
  }

  lemma FirstRow(covered: seq<Pin>, width: nat, rest: string)
    requires covered != [] && Publishable(covered) && forall p | p in covered :: |p.path| < width
    ensures var s := Lower(Closed(RowsAt(covered, width))) + rest;
      && |s| > |covered[0].path| && s[..|covered[0].path|] == Lower(covered[0].path) && s[|covered[0].path|] == ' '
  {
    var p := covered[0];
    var row := Row(p, width);
    var all := Closed(RowsAt(covered, width));
    assert all == row + "\n" + Closed(RowsAt(covered, width)[1..]);
    assert row[..|p.path|] == p.path && row[|p.path|] == ' ';
    assert all[..|p.path|] == p.path && all[|p.path|] == ' ';
    assert Lower(all)[..|p.path|] == Lower(p.path);
  }

  lemma StartsLikePath(s: string, path: string)
    requires |s| > |path| && s[..|path|] == path && s[|path|] == ' '
    ensures StartsWithDigest(s) <==> StartsWithDigest(path)
  {
    assert !IsHexDigit(' ');
    if |path| >= 64 {
      assert s[..64] == path[..64];
    } else if |s| >= 64 {
      assert s[..64][|path|] == ' ';
    }
  }

  /**
   * The one way what stands above the rows can spoil the first pin: the opening fence line ends in a bare
   * path, and the first path reads as a digest.
   */
  predicate Spoils(head: string, covered: seq<Pin>) {
    Dangles(Lower(head)) && covered != [] && StartsWithDigest(Lower(covered[0].path))
  }

  lemma HeadEnds(segments: seq<Segment>, i: nat)
    requires i < |segments| && segments[i].Block?
    ensures var h := Lower(Head(segments, i)); h != "" && h[|h| - 1] == '\n'
  {
    ClosedEnds(Render(segments[..i]) + [segments[i].open]);
  }

  lemma RowsThenTail(segments: seq<Segment>, i: nat, covered: seq<Pin>)
    requires i < |segments| && segments[i].Block? && Closes(segments[i].close) && Publishable(covered)
    ensures var b := Lower(Closed(Rows(covered))) + Lower(Tail(segments, i));
      && b != "" && !IsSpace(b[0]) && (StartsWithDigest(b)
        <==> covered != [] && StartsWithDigest(Lower(covered[0].path)))
  {
    TailFence(segments, i);
    var width, t := Longest(covered) + 2, Lower(Tail(segments, i));
    if covered == [] {
      assert Closed(Rows(covered)) == "" && Lower("") + t == t;
      assert !IsHexDigit('`');
      assert |t| >= 64 ==> t[..64][0] == '`';
    } else {
      FirstRow(covered, width, t);
      var b, path := Lower(Closed(Rows(covered))) + t, Lower(covered[0].path);
      StartsLikePath(b, path);
      assert IsPath(path) && b[0] == path[0];
    }
  }

  /**
   * What is published is what is read back: with no pins in the prose around the block, the pins of the
   * re-issued request are the covered documents, paths lower-cased, in order, and nothing else.
   */
  lemma RoundTrip(text: string, covered: seq<Pin>, segments: seq<Segment>, i: nat)
    requires Reissue(text, covered).Ok? && Target(text, segments, i) && Publishable(covered)
    requires Pins(Lower(Head(segments, i))) == [] && Pins(Lower(Tail(segments, i))) == []
    requires !Spoils(Head(segments, i), covered)
    ensures Pins(Lower(Reissue(text, covered).value)) == Lowered(covered)
  {
    var segments', i' := TargetOf(text, covered);
    var h, b, t := Head(segments, i), Closed(Rows(covered)), Tail(segments, i);
    LowerConcat(h + b, t);
    LowerConcat(h, b);
    HeadEnds(segments, i);
    RowsThenTail(segments, i, covered);
    hide *;
    ConcatAssoc(Lower(h), Lower(b), Lower(t));
    assert Pins(Lower(h) + (Lower(b) + Lower(t))) == Pins(Lower(b) + Lower(t)) by {
      SkipProse(Lower(h), Lower(b) + Lower(t));
    }
    assert Pins(Lower(b) + Lower(t)) == Lowered(covered) + [] by {
      RowsPins(covered, Longest(covered) + 2, Lower(t));
    }
  }

  lemma LoweredRead(covered: seq<Pin>)
    requires Distinctly(covered)
    ensures Reads(Lowered(covered), Ok(Published(covered)))
  {
    var pins, m := Lowered(covered), Published(covered);
    forall p | p in pins ensures p.path in m && m[p.path] == p.digest {
      var k :| 0 <= k < |pins| && pins[k] == p;
      assert Lower(covered[k].path) == p.path;
    }
    forall path | path in m ensures exists p :: p in pins && p.path == path {
      var k :| 0 <= k < |covered| && Lower(covered[k].path) == path;
      assert pins[k] in pins && pins[k].path == path;
    }
  }

  /** So whatever `request_pins` answers for the re-issued request, it is the covered dictionary. */
  lemma RoundTripRead(text: string, covered: seq<Pin>, segments: seq<Segment>, i: nat,
      r: Result<map<string, string>, set<string>>)
    requires Reissue(text, covered).Ok? && Target(text, segments, i) && Publishable(covered) && Distinctly(covered)
    requires Pins(Lower(Head(segments, i))) == [] && Pins(Lower(Tail(segments, i))) == []
    requires !Spoils(Head(segments, i), covered)
    requires Reads(Pins(Lower(Reissue(text, covered).value)), r)
    ensures r == Ok(Published(covered))
  {
    RoundTrip(text, covered, segments, i);
    LoweredRead(covered);
    ReadsOnce(Lowered(covered), r, Ok(Published(covered)));
  }

  // ---------------------------------------------------------------------------------
  // Re-issuing again

  lemma RowLine(p: Pin, width: nat)
    requires |p.path| <= width && IsPath(Lower(p.path)) && IsDigest(p.digest)
    ensures OneLine(Row(p, width)) && !Closes(Row(p, width))
  {
    var row, low := Row(p, width), Lower(p.path);
    assert !IsPathChar('\n') && !IsHexDigit('\n') && !IsWord('`');
    assert LowerChar('\n') == '\n' && LowerChar('`') == '`';
    forall k | 0 <= k < |row| ensures row[k] != '\n' {
      if k < |p.path| {
        assert row[k] == p.path[k] && IsPathChar(low[k]) && low[k] == LowerChar(p.path[k]);
      } else if k >= width {
        assert row[k] == p.digest[k - width];
      }
    }
    assert row[0] == p.path[0] && low[0] == LowerChar(p.path[0]) && IsWord(low[0]);
    assert FENCE[0] == '`';
  }

  lemma {:induction false} RowsLines(covered: seq<Pin>, width: nat)
    requires Publishable(covered) && forall p | p in covered :: |p.path| <= width
    ensures OneLiners(RowsAt(covered, width)) && NoClose(RowsAt(covered, width))
  {
    if covered != [] {
      RowLine(covered[0], width);
      assert Publishable(covered[1..]);
      RowsLines(covered[1..], width);
      hide Closes, OneLine, Row;
    }
  }

  lemma {:induction false} OnlyHit(segments: seq<Segment>, n: nat, i: nat)
    requires n <= |segments| && i < |segments|
    requires forall j: nat | n <= j < |segments| && PinBearing(segments[j]) :: j == i
    ensures PinBlocksFrom(segments, n) == if n <= i && PinBearing(segments[i]) then [i] else []
    decreases |segments| - n
  {
    hide PinBearing;
    if n < |segments| {
      OnlyHit(segments, n + 1, i);
    }
  }

  /** The re-issued document parses to the same segments with the one body replaced. */
  lemma ReissuedParse(text: string, covered: seq<Pin>, segments: seq<Segment>, i: nat)
    requires Target(text, segments, i) && WellFormed(segments) && Render(segments) == Lines(text)
      && Publishable(covered)
    ensures var changed := segments[i := segments[i].(body := Rows(covered))];
      && Parse(Lines(Head(segments, i) + Closed(Rows(covered)) + Tail(segments, i))) == changed
      && Head(changed, i) == Head(segments, i) && Tail(changed, i) == Tail(segments, i)
  {
    var rows := Rows(covered);
    var changed := segments[i := segments[i].(body := rows)];
    RowsLines(covered, Longest(covered) + 2);
    ReplaceBody(segments, i, rows);
    TextAround(changed, i);
    assert changed[..i] == segments[..i] && changed[i + 1..] == segments[i + 1..];
    RenderAround(segments, i);
    RenderAround(changed, i);
    LinesOf(text);
    hide Render, Lines, Join, Closed, Closes, Opens, Rows, WellFormed, Parse, PinBlocks, PinBearing, OneLine;
    assert OneLiners(Render(changed));
    LinesJoin(Render(changed));
    ParseRender(changed);
  }

  lemma RowsBear(open: string, covered: seq<Pin>, close: string)
    requires Publishable(covered)
    ensures PinBearing(Block(open, Rows(covered), close)) <==> covered != []
  {
    var rows := Lower(Closed(Rows(covered)));
    assert rows + "" == rows;
    RowsPins(covered, Longest(covered) + 2, "");
    assert Lowered(covered) + [] == Lowered(covered);
    hide Lower, Closed, MatchAt, Rows;
  }

  lemma ReissueIs(text: string, covered: seq<Pin>, segments: seq<Segment>, i: nat)
    requires Parse(Lines(text)) == segments && i < |segments|
    ensures PinBlocks(segments) == [i] ==>
      segments[i].Block? && Reissue(text, covered) == Ok(Head(segments, i) + Closed(Rows(covered)) + Tail(segments, i))
    ensures PinBlocks(segments) == [] ==> Reissue(text, covered) == Err(0)
  {
    assert PinBlocks(segments) == [i] ==> i in PinBlocks(segments);
    hide Parse, Lines, Head, Tail, Rows, Closed, PinBlocks;
  }

  /**
   * Re-issuing the same documents again changes nothing, unless there are none: then no pin block is left to
   * rewrite.
   */
  lemma ReissueTwice(text: string, covered: seq<Pin>)
    requires Reissue(text, covered).Ok? && Publishable(covered)
    ensures Reissue(Reissue(text, covered).value, covered) == if covered != [] then Reissue(text, covered) else Err(0)
  {
    var segments, i := TargetOf(text, covered);
    assert forall j: nat | j < |segments| && PinBearing(segments[j]) :: j in PinBlocks(segments);
    assert PinBlocks(segments) == [i] && PinBearing(segments[i]) && segments[i].Block?;
    hide Reissue, Parse, Lines, Head, Tail, Rows, Closed, PinBearing, Publishable, Target, Closes, WellFormed, Render;
    ReissuedParse(text, covered, segments, i);
    var block := segments[i].(body := Rows(covered));
    var changed := segments[i := block];
    RowsBear(block.open, covered, block.close);
    assert PinBearing(changed[i]) <==> covered != [];
    OnlyHit(changed, 0, i);
    ReissueIs(Head(segments, i) + Closed(Rows(covered)) + Tail(segments, i), covered, changed, i);
  }
}
