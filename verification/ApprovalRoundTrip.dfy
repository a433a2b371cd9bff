// When reading back a re-issued approval request gives what was published, exactly: the one way it can go
// wrong, what is read then, and when that does no harm.
module ApprovalRoundTrip {
  import opened Letters
  import opened Prelude
  import opened ApprovalPins
  import opened ApprovalReissue

  /** The bare path a dangling text ends in. */
  function DanglingPath(s: string): string
    requires Dangles(s)
  {
    if DanglesHere(s) then s[..Span(s, IsPathChar)] else DanglingPath(s[1..])
  }

  lemma DanglingHere(a: string, b: string)
    requires a != "" && DanglesHere(a) && StartsWithDigest(b)
    ensures Pins(a + b) == [Pin(a[..Span(a, IsPathChar)], b[..64])] + Pins(b[64..])
  {
    var n := Span(a, IsPathChar);
    assert Every(a[n..], IsSpace);
    hide Span, IsPath, IsDigest, IsSpace, IsPathChar, MatchAt;
    assert a + b == a[..n] + a[n..] + b[..64] + b[64..] by {
      assert a == a[..n] + a[n..] && b == b[..64] + b[64..];
    }
    DerivedMatch(a + b, a[..n], a[n..], b[..64], b[64..]);
    assert (a + b)[|a| + 64..] == b[64..];
  }

  /** A bare path with a digest right behind it is a pin nobody published, and reading goes on after the digest. */
  lemma {:induction false} DanglingPin(a: string, b: string)
    requires a != "" && a[|a| - 1] == '\n' && Pins(a) == [] && Dangles(a)
    requires StartsWithDigest(b) && !IsSpace(b[0])
    ensures Pins(a + b) == [Pin(DanglingPath(a), b[..64])] + Pins(b[64..])
  {
    if DanglesHere(a) {
      DanglingHere(a, b);
    } else {
      assert Dangles(a[1..]) && DanglingPath(a) == DanglingPath(a[1..]);
      hide *;
      NoPins(a);
      EndOfRest(a);
      assert a[1..] != "" by {
        DanglesSome(a[1..]);
      }
      NoStraddle(a, b);
      SkipOne(a, b);
      DanglingPin(a[1..], b);
    }
  }

  lemma DanglesSome(s: string)
    requires Dangles(s)
    ensures s != ""
  {
  }

  // ---------------------------------------------------------------------------------
  // The rest of a row whose first 64 characters are already read

  /** The longest suffix that reads as a path. */
  function FirstPath(s: string): Option<string> {
    if s == "" then None else if IsPath(s) then Some(s) else FirstPath(s[1..])
  }

  lemma {:induction false} FirstPathIs(s: string)
    ensures FirstPath(s).None? <==> forall j | 0 <= j < |s| :: !IsPath(s[j..])
    ensures FirstPath(s).Some? ==> IsPath(FirstPath(s).value) && |FirstPath(s).value| <= |s|
  {
    hide IsPath;
    if s != "" {
      FirstPathIs(s[1..]);
      assert s[0..] == s;
      forall j | 0 <= j < |s[1..]| ensures s[1..][j..] == s[j + 1..] {
      }
      if forall j | 0 <= j < |s[1..]| :: !IsPath(s[1..][j..]) {
        forall j | 0 < j < |s| ensures !IsPath(s[j..]) {
          assert s[1..][j - 1..] == s[j..];
        }
      }
    }
  }

  /** A run of path characters that is no path starts no pin. */
  lemma RunNoMatch(s: string, rest: string)
    requires Every(s, IsPathChar) && rest != "" && !IsPathChar(rest[0]) && !IsPath(s)
    ensures MatchAt(s + rest).None?
  {
    SpanIs(s, rest, IsPathChar);
    assert (s + rest)[..|s|] == s;
    hide IsPath, IsDigest, Span, IsPathChar, IsSpace;
  }

  lemma {:induction false} SkipSpaces(gap: string, rest: string)
    requires Every(gap, IsSpace)
    ensures Pins(gap + rest) == Pins(rest)
  {
    if gap == "" {
      assert gap + rest == rest;
    } else {
      assert IsSpace(gap[0]) && !IsPathChar(gap[0]);
      assert Span(gap + rest, IsPathChar) == 0;
      SkipOne(gap, rest);
      SkipSpaces(gap[1..], rest);
    }
  }

  lemma {:induction false} SkipDigest(digest: string, rest: string)
    requires Every(digest, IsHexDigit)
    ensures Pins(digest + "\n" + rest) == Pins(rest)
  {
    if digest == "" {
      NewlineNoPin(rest);
      assert digest + "\n" + rest == "\n" + rest;
    } else {
      HexNoPath(digest);
      hide IsPath, IsHexDigit;
      RunNoMatch(digest, "\n" + rest);
      assert digest + ("\n" + rest) == digest + "\n" + rest;
      SkipOne(digest, "\n" + rest);
      assert digest[1..] + ("\n" + rest) == digest[1..] + "\n" + rest;
      SkipDigest(digest[1..], rest);
    }
  }

  lemma HexNoPath(s: string)
    requires Every(s, IsHexDigit)
    ensures Every(s, IsPathChar) && !IsPath(s) && !IsPathChar('\n')
  {
    if |s| >= |SUFFIX| {
      assert SUFFIX[0] == '.' && !IsHexDigit('.');
      assert s[|s| - |SUFFIX|..][0] == s[|s| - |SUFFIX|];
    }
  }

  ghost function Stray(s: string, digest: string): seq<Pin> {
    if FirstPath(s).Some? then [Pin(FirstPath(s).value, digest)] else []
  }

  lemma {:induction false} RestOfRow(s: string, gap: string, digest: string, rest: string)
    requires Every(s, IsPathChar) && gap != "" && Every(gap, IsSpace) && IsDigest(digest)
    ensures Pins(s + (gap + digest + "\n" + rest)) == Stray(s, digest) + Pins(rest)
  {
    var tail := gap + digest + "\n" + rest;
    if s == "" {
      NoMoreRun(gap, digest, rest);
    } else if IsPath(s) {
      StrayFound(s, gap, digest, rest);
    } else {
      assert Stray(s, digest) == Stray(s[1..], digest) && Every(s[1..], IsPathChar) && !IsPathChar(tail[0]) by {
        assert IsSpace(gap[0]);
      }
      hide *;
      RunNoMatch(s, tail);
      SkipOne(s, tail);
      RestOfRow(s[1..], gap, digest, rest);
    }
  }

  lemma NoMoreRun(gap: string, digest: string, rest: string)
    requires Every(gap, IsSpace) && IsDigest(digest)
    ensures Pins("" + (gap + digest + "\n" + rest)) == Stray("", digest) + Pins(rest)
  {
    assert Every(digest, IsHexDigit);
    NothingStray(digest);
    hide *;
    assert "" + (gap + digest + "\n" + rest) == gap + (digest + "\n" + rest);
    SkipSpaces(gap, digest + "\n" + rest);
    SkipDigest(digest, rest);
    assert [] + Pins(rest) == Pins(rest);
  }

  lemma StrayFound(s: string, gap: string, digest: string, rest: string)
    requires IsPath(s) && gap != "" && Every(gap, IsSpace) && IsDigest(digest)
    ensures Pins(s + (gap + digest + "\n" + rest)) == Stray(s, digest) + Pins(rest)
  {
    var text := s + (gap + digest + "\n" + rest);
    assert Stray(s, digest) == [Pin(s, digest)];
    assert |digest| == 64;
    hide IsPath, IsDigest, IsSpace, MatchAt, Stray;
    assert text == s + gap + digest + ("\n" + rest);
    DerivedMatch(text, s, gap, digest, "\n" + rest);
    assert text[|s| + |gap| + 64..] == "\n" + rest;
    NewlineNoPin(rest);
  }

  lemma NothingStray(digest: string)
    ensures Stray("", digest) == []
  {
  }

  // ---------------------------------------------------------------------------------
  // What is read when the first pin is spoiled

  /** Everything the reader sees from the block's first row on. */
  ghost function Below(segments: seq<Segment>, i: nat, covered: seq<Pin>): string
    requires i < |segments| && segments[i].Block?
  {
    Lower(Closed(Rows(covered))) + Lower(Tail(segments, i))
  }

  lemma ReissuedText(text: string, covered: seq<Pin>, segments: seq<Segment>, i: nat)
    requires Reissue(text, covered).Ok? && Target(text, segments, i) && Publishable(covered)
    ensures segments[i].Block? && Closes(segments[i].close)
    ensures Lower(Reissue(text, covered).value) == Lower(Head(segments, i)) + Below(segments, i, covered)
    ensures Below(segments, i, covered) != "" && !IsSpace(Below(segments, i, covered)[0])
  {
    var segments', i' := TargetOf(text, covered);
    var h, b, t := Head(segments, i), Closed(Rows(covered)), Tail(segments, i);
    RowsThenTail(segments, i, covered);
    LowerConcat(h + b, t);
    LowerConcat(h, b);
    hide Lower, Reissue, Closed, Rows, Head, Tail, Target, Closes;
    ConcatAssoc(Lower(h), Lower(b), Lower(t));
  }

  /** After 64 characters of the first path: the rest of the path, its gap, its digest, and the other rows. */
  lemma BelowSplit(segments: seq<Segment>, i: nat, covered: seq<Pin>) returns (gap: string, more: string)
    requires i < |segments| && segments[i].Block? && Closes(segments[i].close) && Publishable(covered)
    requires covered != [] && |covered[0].path| >= 64
    ensures var path, b := Lower(covered[0].path), Below(segments, i, covered);
      |b| > 64 && b[..64] == path[..64] && b[64..] == path[64..] + (gap + covered[0].digest + "\n" + more)
    ensures gap != "" && Every(gap, IsSpace)
    ensures Pins(more) == Lowered(covered[1..]) + Pins(Lower(Tail(segments, i)))
  {
    var width, p, t := Longest(covered) + 2, covered[0], Lower(Tail(segments, i));
    assert Publishable(covered[1..]) && p in covered && IsDigest(p.digest);
    gap := Spaces(width - |p.path|);
    assert gap != "" && Every(gap, IsSpace);
    assert Below(segments, i, covered) == Lower(Closed(RowsAt(covered, width))) + t;
    hide *;
    var below := Closed(RowsAt(covered[1..], width));
    more := Lower(below) + t;
    RowsFirst(covered, width);
    RowsPins(covered[1..], width, t);
    RowLowered(p, width);
    LowerConcat(Row(p, width) + "\n", below);
    ConcatAssoc(Lower(Row(p, width) + "\n"), Lower(below), t);
    SplitAfter(Lower(p.path), gap, p.digest, more);
  }

  lemma RowLowered(p: Pin, width: nat)
    requires |p.path| < width && IsDigest(p.digest)
    ensures Lower(Row(p, width) + "\n") == Lower(p.path) + Spaces(width - |p.path|) + p.digest + "\n"
    ensures |Lower(p.path)| == |p.path|
  {
    LowerDigest(p.digest);
  }

  lemma SplitAfter(path: string, gap: string, digest: string, more: string)
    requires |path| >= 64
    ensures var b := path + gap + digest + "\n" + more;
      b[..64] == path[..64] && b[64..] == path[64..] + (gap + digest + "\n" + more)
  {
  }

  /**
   * The fence line's bare path is read as pinned at the first 64 characters of the first published path;
   * what is left of that path is read as the path of its digest, if it reads as a path at all; the other
   * documents are read as published.
   */
  lemma SpoiledPins(text: string, covered: seq<Pin>, segments: seq<Segment>, i: nat)
    requires Reissue(text, covered).Ok? && Target(text, segments, i) && Publishable(covered)
    requires Pins(Lower(Head(segments, i))) == [] && Pins(Lower(Tail(segments, i))) == []
    requires Spoils(Head(segments, i), covered)
    ensures var path := Lower(covered[0].path);
      Pins(Lower(Reissue(text, covered).value))
      == [Pin(DanglingPath(Lower(Head(segments, i))), path[..64])] +
        (Stray(path[64..], covered[0].digest) + Lowered(covered[1..]))
  {
    ReissuedText(text, covered, segments, i);
    HeadEnds(segments, i);
    var h, b, path := Lower(Head(segments, i)), Below(segments, i, covered), Lower(covered[0].path);
    assert |covered[0].path| == |path| >= 64 && IsDigest(path[..64]) && IsDigest(covered[0].digest);
    assert Every(path[64..], IsPathChar) by {
      assert IsPath(path);
    }
    assert Dangles(h);
    var gap, more := BelowSplit(segments, i, covered);
    assert StartsWithDigest(b);
    hide *;
    DanglingPin(h, b);
    RestOfRow(path[64..], gap, covered[0].digest, more);
    assert Lowered(covered[1..]) + [] == Lowered(covered[1..]);
  }

  // ---------------------------------------------------------------------------------
  // Exactly when the round trip succeeds

  /** The spoiled pin is the published one after all. */
  predicate SamePin(head: string, covered: seq<Pin>)
    requires Spoils(head, covered)
  {
    var path := Lower(covered[0].path);
    DanglingPath(Lower(head)) == path && covered[0].digest == path[..64]
  }

  /** Nothing of the first path past its first 64 characters reads as a path. */
  predicate NoStray(covered: seq<Pin>)
    requires covered != [] && StartsWithDigest(Lower(covered[0].path))
  {
    var path := Lower(covered[0].path);
    forall j | 64 <= j < |path| :: !IsPath(path[j..])
  }

  lemma NoStrayIs(path: string, digest: string)
    requires |path| >= 64
    ensures Stray(path[64..], digest) == [] <==> forall j | 64 <= j < |path| :: !IsPath(path[j..])
  {
    var s := path[64..];
    FirstPathIs(s);
    hide IsPath;
    forall j | 64 <= j < |path| ensures path[j..] == s[j - 64..] {
    }
    if forall j | 64 <= j < |path| :: !IsPath(path[j..]) {
      forall k | 0 <= k < |s| ensures !IsPath(s[k..]) {
        assert s[k..] == path[64 + k..];
      }
    }
  }

  lemma SameLists<T>(a: T, b: T, extra: seq<T>, rest: seq<T>)
    ensures [a] + (extra + rest) == [b] + rest <==> a == b && extra == []
  {
    if extra == [] {
      assert extra + rest == rest;
      assert ([a] + (extra + rest))[0] == a && ([b] + rest)[0] == b;
    } else {
      assert |[a] + (extra + rest)| > |[b] + rest|;
    }
  }

  /**
   * With no pins outside the block, what is read back is exactly what was published if and only if the
   * first pin is not spoiled, or is spoiled into itself with nothing left over.
   */
  lemma RoundTripIff(text: string, covered: seq<Pin>, segments: seq<Segment>, i: nat)
    requires Reissue(text, covered).Ok? && Target(text, segments, i) && Publishable(covered)
    requires Pins(Lower(Head(segments, i))) == [] && Pins(Lower(Tail(segments, i))) == []
    ensures var head := Head(segments, i);
      Pins(Lower(Reissue(text, covered).value)) == Lowered(covered)
      <==> (Spoils(head, covered) ==> SamePin(head, covered) && NoStray(covered))
  {
    var head := Head(segments, i);
    if Spoils(head, covered) {
      var path := Lower(covered[0].path);
      SpoiledPins(text, covered, segments, i);
      NoStrayIs(path, covered[0].digest);
      LoweredFirst(covered);
      SameLists(Pin(DanglingPath(Lower(head)), path[..64]), Pin(path, covered[0].digest),
        Stray(path[64..], covered[0].digest), Lowered(covered[1..]));
      hide Reissue, Pins, Lower, Target, Head, Tail, Stray, Dangles, DanglingPath, Lowered, Publishable;
    } else {
      RoundTrip(text, covered, segments, i);
    }
  }

  /** What is left of the first path is no path, or is published itself, at the same digest. */
  ghost predicate StrayPublished(covered: seq<Pin>)
    requires covered != [] && StartsWithDigest(Lower(covered[0].path))
  {
    forall p | p in Stray(Lower(covered[0].path)[64..], covered[0].digest) :: p in Lowered(covered)
  }

  lemma OthersElsewhere(covered: seq<Pin>)
    requires covered != [] && Distinctly(covered)
    ensures forall p | p in Lowered(covered[1..]) :: p.path != Lower(covered[0].path)
  {
    forall p | p in Lowered(covered[1..]) ensures p.path != Lower(covered[0].path) {
      var k :| 0 <= k < |Lowered(covered[1..])| && Lowered(covered[1..])[k] == p;
      assert p.path == Lower(covered[k + 1].path);
    }
  }

  lemma DictionarySame(covered: seq<Pin>, first: Pin, stray: seq<Pin>)
    requires covered != [] && Distinctly(covered)
    requires forall p | p in stray :: |p.path| < |covered[0].path|
    ensures Reads([first] + (stray + Lowered(covered[1..])), Ok(Published(covered)))
      <==> first == Lowered(covered)[0] && forall p | p in stray :: p in Lowered(covered)
  {
    var pins, own := [first] + (stray + Lowered(covered[1..])), Lowered(covered);
    LoweredFirst(covered);
    LoweredRead(covered);
    OthersElsewhere(covered);
    assert own[0] in own && |own[0].path| == |covered[0].path|;
    hide Lowered, Published, Distinctly;
    if Reads(pins, Ok(Published(covered))) {
      OnlyFirst(first, stray, Lowered(covered[1..]), own[0], Published(covered));
      forall q | q in stray ensures q in own {
        assert q in pins;
        MappedIsListed(covered, q);
      }
    }
    if first == own[0] && forall p | p in stray :: p in own {
      assert forall p | p in pins :: p in own;
      assert forall p | p in own :: p in pins;
    }
  }

  /** Of pins that read as a dictionary, the only one that can be of this document is it. */
  lemma OnlyFirst(first: Pin, stray: seq<Pin>, rest: seq<Pin>, own: Pin, m: map<string, string>)
    requires Reads([first] + (stray + rest), Ok(m)) && own.path in m && m[own.path] == own.digest
    requires (forall p | p in stray :: p.path != own.path) && (forall p | p in rest :: p.path != own.path)
    ensures first == own
  {
    var pins := [first] + (stray + rest);
    var p :| p in pins && p.path == own.path;
    assert p == first;
  }

  lemma MappedIsListed(covered: seq<Pin>, q: Pin)
    requires Distinctly(covered) && q.path in Published(covered) && Published(covered)[q.path] == q.digest
    ensures q in Lowered(covered)
  {
    var k :| 0 <= k < |covered| && Lower(covered[k].path) == q.path && covered[k].digest == Published(covered)[q.path];
    assert Lowered(covered)[k] == q;
  }

  /**
   * The same for the dictionary `request_pins` answers with: it is the covered one if and only if the first
   * pin is not spoiled, or is spoiled into itself and what is left of its path is harmless.
   */
  lemma RoundTripReadIff(text: string, covered: seq<Pin>, segments: seq<Segment>, i: nat,
      r: Result<map<string, string>, set<string>>)
    requires Reissue(text, covered).Ok? && Target(text, segments, i) && Publishable(covered) && Distinctly(covered)
    requires Pins(Lower(Head(segments, i))) == [] && Pins(Lower(Tail(segments, i))) == []
    requires Reads(Pins(Lower(Reissue(text, covered).value)), r)
    ensures var head := Head(segments, i);
      r == Ok(Published(covered)) <==> (Spoils(head, covered) ==> SamePin(head, covered) && StrayPublished(covered))
  {
    var head, pins := Head(segments, i), Pins(Lower(Reissue(text, covered).value));
    assert r == Ok(Published(covered)) <==> Reads(pins, Ok(Published(covered))) by {
      if Reads(pins, Ok(Published(covered))) {
        ReadsOnce(pins, r, Ok(Published(covered)));
      }
    }
    if Spoils(head, covered) {
      var path := Lower(covered[0].path);
      SpoiledPins(text, covered, segments, i);
      FirstPathIs(path[64..]);
      LoweredFirst(covered);
      DictionarySame(covered, Pin(DanglingPath(Lower(head)), path[..64]), Stray(path[64..], covered[0].digest));
      hide Reissue, Pins, Lower, Target, Head, Tail, Dangles, DanglingPath, Lowered, Publishable, Reads, Published;
    } else {
      RoundTrip(text, covered, segments, i);
      LoweredRead(covered);
    }
  }

  // ---------------------------------------------------------------------------------
  // A request that is not read back as published

  function Repeated(c: char, n: nat): string {
    seq(n, _ => c)
  }

  const DIGEST: string := Repeated('b', 64)

  /** A document whose path starts like a digest. */
  const HEX_NAMED: seq<Pin> := [Pin(Repeated('a', 64) + SUFFIX, DIGEST)]

  const OPENING: string := "```x.json"

  const ROWS: seq<string> := Rows([Pin("a.json", DIGEST)])

  /** One fenced block, opened by a line that ends in a bare path, holding one well-formed row. */
  const DANGLING: seq<Segment> := [Block(OPENING, ROWS, FENCE)]

  lemma {:induction false} TooShort(s: string)
    requires |s| < 64
    ensures Pins(s) == []
  {
    if s != "" {
      assert MatchAt(s).None?;
      hide MatchAt;
      TooShort(s[1..]);
    }
  }

  lemma NamedPublishable()
    ensures Publishable(HEX_NAMED) && Distinctly(HEX_NAMED) && StartsWithDigest(Lower(HEX_NAMED[0].path))
    ensures |Lower(HEX_NAMED[0].path)| > 64
  {
    var path := Repeated('a', 64) + SUFFIX;
    assert SUFFIX == ".json";
    assert Lower(path) == path;
    assert path[64..] == SUFFIX && path[..64] == Repeated('a', 64);
  }

  lemma RowPublishable()
    ensures Publishable([Pin("a.json", DIGEST)])
  {
    var path := "a.json";
    assert Lower(path) == path;
    assert SUFFIX == ".json" && path[1..] == SUFFIX;
  }

  lemma NoRunHere(s: string)
    requires s != "" && !IsPathChar(s[0])
    ensures Dangles(s) <==> Dangles(s[1..])
    ensures Dangles(s) ==> DanglingPath(s) == DanglingPath(s[1..])
  {
    assert Span(s, IsPathChar) == 0 && !DanglesHere(s);
    hide DanglesHere;
  }

  lemma EndDangles()
    ensures var end := "x.json" + "\n"; Dangles(end) && DanglingPath(end) == "x.json"
  {
    var end := "x.json" + "\n";
    SpanIs("x.json", "\n", IsPathChar);
    assert end[..6] == "x.json" && end[6..] == "\n";
    assert SUFFIX == ".json" && "x.json"[1..] == SUFFIX;
    assert IsPath("x.json") && Span("\n", IsSpace) == 1;
  }

  lemma OpeningLowered()
    ensures Lower(OPENING + "\n") == OPENING + "\n"
  {
    var h := OPENING + "\n";
    assert forall i | 0 <= i < |h| :: LowerChar(h[i]) == h[i];
  }

  lemma OpeningDangles()
    ensures var h := Lower(OPENING + "\n"); Dangles(h) && |h| == 10 && DanglingPath(h) == "x.json"
  {
    OpeningLowered();
    var h, end := OPENING + "\n", "x.json" + "\n";
    assert h[1..][1..][1..] == end;
    assert h[0] == '`' && h[1..][0] == '`' && h[1..][1..][0] == '`' && !IsPathChar('`');
    EndDangles();
    hide Dangles, DanglingPath, Lower, IsPathChar;
    NoRunHere(h);
    NoRunHere(h[1..]);
    NoRunHere(h[1..][1..]);
  }

  lemma DanglingLines()
    ensures Render(DANGLING) == [OPENING] + ROWS + [FENCE]
    ensures OneLiners(ROWS) && NoClose(ROWS) && PinBearing(Block(OPENING, ROWS, FENCE))
  {
    var row := [Pin("a.json", DIGEST)];
    RowPublishable();
    hide Publishable, RowsAt, Closes, PinBearing, Lower;
    RowsLines(row, Longest(row) + 2);
    RowsBear(OPENING, row, FENCE);
    assert DANGLING[1..] == [];
  }

  lemma DanglingWellFormed()
    ensures OneLiners(Render(DANGLING)) && WellFormed(DANGLING) && PinBearing(DANGLING[0]) && Render(DANGLING) != []
  {
    DanglingLines();
    hide Rows, PinBearing;
    assert Opens(OPENING) && Closes(FENCE);
    forall l | l in Render(DANGLING) ensures OneLine(l) {
      assert l in ROWS || l == OPENING || l == FENCE;
    }
    assert DANGLING[1..] == [];
  }

  lemma DanglingDocument() returns (text: string)
    ensures Target(text, DANGLING, 0)
    ensures Reissue(text, HEX_NAMED).Ok?
  {
    DanglingWellFormed();
    text := Join(Render(DANGLING));
    hide Render, Join, WellFormed, PinBearing, OneLiners, Parse, Lines, PinBlocks, PinBlocksFrom, Rows, Reissue, DIGEST;
    LinesJoin(Render(DANGLING));
    ParseRender(DANGLING);
    OnlyHit(DANGLING, 0, 0);
    assert PinBlocks(DANGLING) == PinBlocksFrom(DANGLING, 0) by {
      DanglingBlocks();
    }
    ReissueIs(text, HEX_NAMED, DANGLING, 0);
  }

  lemma DanglingBlocks()
    ensures PinBlocks(DANGLING) == PinBlocksFrom(DANGLING, 0)
  {
    hide PinBlocksFrom;
  }

  lemma DanglingAround()
    ensures Head(DANGLING, 0) == OPENING + "\n" && Tail(DANGLING, 0) == FENCE
  {
    hide Rows;
    assert Render(DANGLING[..0]) == [] && DANGLING[1..] == [];
    assert [] + [OPENING] == [OPENING] && [FENCE] + [] == [FENCE];
    assert OPENING + "\n" + "" == OPENING + "\n";
    assert Closed([OPENING]) == OPENING + "\n" + Closed([]);
  }

  lemma NoPinsAround()
    ensures Pins(Lower(Head(DANGLING, 0))) == [] && Pins(Lower(Tail(DANGLING, 0))) == []
    ensures var h := Lower(Head(DANGLING, 0)); Dangles(h) && |DanglingPath(h)| == 6
  {
    DanglingAround();
    OpeningDangles();
    assert |Lower(FENCE)| == 3;
    hide Head, Tail, Lower, Pins, Dangles, DanglingPath;
    TooShort(Lower(OPENING + "\n"));
    TooShort(Lower(FENCE));
  }

  /**
   * The failing case is no idle one: a request with a single well-formed pin block, given one document, is
   * re-issued as a request that pins a document nobody named.
   */
  lemma PublishedIsNotRead() returns (text: string)
    ensures Target(text, DANGLING, 0) && Reissue(text, HEX_NAMED).Ok? && Publishable(HEX_NAMED) && Distinctly(HEX_NAMED)
    ensures Pins(Lower(Head(DANGLING, 0))) == [] && Pins(Lower(Tail(DANGLING, 0))) == []
    ensures Pins(Lower(Reissue(text, HEX_NAMED).value)) != Lowered(HEX_NAMED)
    ensures !Reads(Pins(Lower(Reissue(text, HEX_NAMED).value)), Ok(Published(HEX_NAMED)))
  {
    text := DanglingDocument();
    NamedPublishable();
    NoPinsAround();
    hide Target, Reissue, Publishable, Distinctly, Pins, Lower, Head, Tail, Lowered, Dangles, DanglingPath, NoStray;
    hide Reads, Published, StrayPublished;
    RoundTripIff(text, HEX_NAMED, DANGLING, 0);
    if Reads(Pins(Lower(Reissue(text, HEX_NAMED).value)), Ok(Published(HEX_NAMED))) {
      RoundTripReadIff(text, HEX_NAMED, DANGLING, 0, Ok(Published(HEX_NAMED)));
    }
  }
}
