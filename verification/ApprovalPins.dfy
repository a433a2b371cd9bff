// fixtures/approval/__init__.py: reading the pins out of the approval request, and re-issuing its pin block.
module ApprovalPins {
  import opened Prelude
  import opened Decimals
  import opened Letters

  // ---------------------------------------------------------------------------------
  // Characters

  predicate IsWord(c: char) {
    IsDigit(c) || 'a' <= c <= 'z' || 'A' <= c <= 'Z' || c == '_'
  }

  predicate IsPathChar(c: char) {
    IsWord(c) || c == '.' || c == '/' || c == '-'
  }

  predicate IsHexDigit(c: char) {
    IsDigit(c) || 'a' <= c <= 'f'
  }

  ghost predicate Every(s: string, f: char -> bool) {
    forall i | 0 <= i < |s| :: f(s[i])
  }

  /** The length of the longest prefix made of `f`. */
  function Span(s: string, f: char -> bool): (n: nat)
    ensures n <= |s| && (forall i | 0 <= i < n :: f(s[i])) && (n < |s| ==> !f(s[n]))
  {
    if s == "" || !f(s[0]) then 0 else 1 + Span(s[1..], f)
  }

  lemma SpanIs(a: string, b: string, f: char -> bool)
    requires Every(a, f) && (b == "" || !f(b[0]))
    ensures Span(a + b, f) == |a|
  {
    var s, n := a + b, Span(a + b, f);
    assert forall i | 0 <= i < |a| :: s[i] == a[i];
    assert b != "" ==> s[|a|] == b[0];
  }

  // ---------------------------------------------------------------------------------
  // `_PIN`

  datatype Pin = Pin(path: string, digest: string)

  /** A pin found at the head of a text, and how many characters it took. */
  datatype Found = Found(pin: Pin, length: nat)

  const SUFFIX: string := ".json"

  predicate EndsWith(s: string, suffix: string) {
    |s| >= |suffix| && s[|s| - |suffix|..] == suffix
  }

  predicate IsPath(p: string) {
    |p| > |SUFFIX| && IsWord(p[0]) && (forall i | 0 <= i < |p| :: IsPathChar(p[i])) && EndsWith(p, SUFFIX)
  }

  predicate IsDigest(d: string) {
    |d| == 64 && forall i | 0 <= i < 64 :: IsHexDigit(d[i])
  }

  /** The match with a path of `n` characters and a gap of `w`, if the text has one there. */
  function MatchAs(s: string, n: nat, w: nat): (r: Option<Found>)
    requires n + w <= |s|
    ensures r.Some? ==> 0 < r.value.length <= |s|
  {
    if IsPath(s[..n]) && w > 0 && |s| >= n + w + 64 && IsDigest(s[n + w..n + w + 64])
    then Some(Found(Pin(s[..n], s[n + w..n + w + 64]), n + w + 64))
    else None
  }

  /** A match of the pattern that starts exactly here. */
  function MatchAt(s: string): (r: Option<Found>)
    ensures r.Some? ==> 0 < r.value.length <= |s|
  {
    var n := Span(s, IsPathChar);
    MatchAs(s, n, Span(s[n..], IsSpace))
  }

  /** `_PIN.finditer`: leftmost matches, none overlapping. */
  function Pins(s: string): seq<Pin>
    decreases |s|
  {
    if s == "" then []
    else
      match MatchAt(s)
      case Some(found) => [found.pin] + Pins(s[found.length..])
      case None => Pins(s[1..])
  }

  /** The pattern's grammar: a path, whitespace, a digest, and whatever follows. */
  ghost predicate Derives(s: string, path: string, gap: string, digest: string, rest: string) {
    && s == path + gap + digest + rest
    && IsPath(path) && gap != "" && Every(gap, IsSpace) && IsDigest(digest)
  }

  lemma DerivedMatch(s: string, path: string, gap: string, digest: string, rest: string)
    requires Derives(s, path, gap, digest, rest)
    ensures MatchAt(s) == Some(Found(Pin(path, digest), |path| + |gap| + 64))
  {
    DerivedSpans(s, path, gap, digest, rest);
    DerivedParts(s, path, gap, digest, rest);
    hide IsPath, IsDigest, Span, IsPathChar, IsSpace;
  }

  lemma DerivedSpans(s: string, path: string, gap: string, digest: string, rest: string)
    requires Derives(s, path, gap, digest, rest)
    ensures Span(s, IsPathChar) == |path| && Span(s[|path|..], IsSpace) == |gap|
  {
    assert s == path + (gap + digest + rest);
    assert IsSpace((gap + digest + rest)[0]);
    SpanIs(path, gap + digest + rest, IsPathChar);
    assert s[|path|..] == gap + (digest + rest);
    assert IsHexDigit((digest + rest)[0]);
    SpanIs(gap, digest + rest, IsSpace);
  }

  lemma DerivedParts(s: string, path: string, gap: string, digest: string, rest: string)
    requires s == path + gap + digest + rest && |digest| == 64
    ensures s[..|path|] == path && s[|path| + |gap|..|path| + |gap| + 64] == digest
  {
  }

  lemma MatchDerives(s: string)
    requires MatchAt(s).Some?
    ensures exists path, gap, digest, rest :: Derives(s, path, gap, digest, rest)
  {
    var n := Span(s, IsPathChar);
    var w := Span(s[n..], IsSpace);
    hide Span, IsPath, IsDigest, IsPathChar, IsSpace;
    GapIs(s, n, w);
    InFour(s, n, n + w, n + w + 64);
    assert Derives(s, s[..n], s[n..n + w], s[n + w..n + w + 64], s[n + w + 64..]);
  }

  lemma GapIs(s: string, n: nat, w: nat)
    requires n + w <= |s| && forall i | 0 <= i < w :: IsSpace(s[n..][i])
    ensures Every(s[n..n + w], IsSpace)
  {
    hide IsSpace;
    var gap := s[n..n + w];
    forall i | 0 <= i < w ensures IsSpace(gap[i]) {
      assert gap[i] == s[n..][i];
    }
  }

  lemma InFour(s: string, i: nat, j: nat, k: nat)
    requires i <= j <= k <= |s|
    ensures s == s[..i] + s[i..j] + s[j..k] + s[k..]
  {
  }

  /** The hand-written matcher finds a pin here exactly when the grammar derives one, and then it is that one. */
  lemma MatcherAdequate(s: string)
    ensures MatchAt(s).Some? <==> exists path, gap, digest, rest :: Derives(s, path, gap, digest, rest)
    ensures forall path, gap, digest, rest | Derives(s, path, gap, digest, rest) ::
      MatchAt(s) == Some(Found(Pin(path, digest), |path| + |gap| + 64))
  {
    if MatchAt(s).Some? {
      MatchDerives(s);
    }
    forall path, gap, digest, rest | Derives(s, path, gap, digest, rest)
      ensures MatchAt(s) == Some(Found(Pin(path, digest), |path| + |gap| + 64))
    {
      DerivedMatch(s, path, gap, digest, rest);
    }
  }

  // ---------------------------------------------------------------------------------
  // `request_pins`

  ghost predicate Conflicted(pins: seq<Pin>, path: string) {
    exists i, j :: 0 <= i < |pins| && 0 <= j < |pins| && pins[i].path == path == pins[j].path
      && pins[i].digest != pins[j].digest
  }

  /**
   * One digest for every pinned document; refused exactly when some document is pinned at two, naming exactly
   * those.
   */
  ghost predicate Reads(pins: seq<Pin>, r: Result<map<string, string>, set<string>>) {
    match r
    case Ok(m) =>
      && (forall p | p in pins :: p.path in m && m[p.path] == p.digest)
      && (forall path | path in m :: exists p :: p in pins && p.path == path)
    case Err(conflicts) => conflicts != {} && forall path :: path in conflicts <==> Conflicted(pins, path)
  }

  /**
   * The loop's dictionaries after some of the pins: the first digest of each path, and the paths that also had
   * another.
   */
  ghost predicate Gathered(pins: seq<Pin>, first: map<string, string>, conflicts: set<string>) {
    && (forall path | path in first :: exists i :: 0 <= i < |pins| && pins[i] == Pin(path, first[path]))
    && (forall p | p in pins :: p.path in first && (p.path in conflicts || first[p.path] == p.digest))
    && (forall path | path in conflicts :: Conflicted(pins, path))
  }

  method RequestPins(text: string) returns (r: Result<map<string, string>, set<string>>)
    ensures Reads(Pins(Lower(text)), r)
  {
    var found := Pins(Lower(text));
    var pins: map<string, string> := map[];
    var conflicts: set<string> := {};
    assert Gathered(found[..0], pins, conflicts);
    hide Pins, Lower, Gathered, Reads;
    for k := 0 to |found|
      invariant Gathered(found[..k], pins, conflicts)
    {
      var pin := found[k];
      assert found[..k + 1] == found[..k] + [pin];
      if pin.path !in pins {
        GatherNew(found[..k], pins, conflicts, pin);
        pins := pins[pin.path := pin.digest];
      } else {
        GatherAgain(found[..k], pins, conflicts, pin);
        if pins[pin.path] != pin.digest {
          conflicts := conflicts + {pin.path};
        }
      }
    }
    assert found[..|found|] == found;
    GatheredReads(found, pins, conflicts);
    return if conflicts != {} then Err(conflicts) else Ok(pins);
  }

  lemma StillConflicted(pins: seq<Pin>, pin: Pin, path: string)
    requires Conflicted(pins, path)
    ensures Conflicted(pins + [pin], path)
  {
    var i, j :| 0 <= i < |pins| && 0 <= j < |pins| && pins[i].path == path == pins[j].path
      && pins[i].digest != pins[j].digest;
    var all := pins + [pin];
    assert all[i] == pins[i] && all[j] == pins[j];
  }

  lemma GatherNew(pins: seq<Pin>, first: map<string, string>, conflicts: set<string>, pin: Pin)
    requires Gathered(pins, first, conflicts) && pin.path !in first
    ensures Gathered(pins + [pin], first[pin.path := pin.digest], conflicts)
  {
    var all := pins + [pin];
    assert all[|pins|] == pin;
    forall path | path in conflicts ensures Conflicted(all, path) {
      StillConflicted(pins, pin, path);
    }
    forall path | path in first ensures exists i :: 0 <= i < |all| && all[i] == Pin(path, first[path]) {
      var i :| 0 <= i < |pins| && pins[i] == Pin(path, first[path]);
      assert all[i] == pins[i];
    }
  }

  lemma GatherAgain(pins: seq<Pin>, first: map<string, string>, conflicts: set<string>, pin: Pin)
    requires Gathered(pins, first, conflicts) && pin.path in first
    ensures Gathered(pins + [pin], first, if first[pin.path] != pin.digest then conflicts + {pin.path} else conflicts)
  {
    var all := pins + [pin];
    assert all[|pins|] == pin;
    forall path | path in conflicts ensures Conflicted(all, path) {
      StillConflicted(pins, pin, path);
    }
    forall path | path in first ensures exists i :: 0 <= i < |all| && all[i] == Pin(path, first[path]) {
      var i :| 0 <= i < |pins| && pins[i] == Pin(path, first[path]);
      assert all[i] == pins[i];
    }
    if first[pin.path] != pin.digest {
      var i :| 0 <= i < |all| && all[i] == Pin(pin.path, first[pin.path]);
      assert all[|pins|].path == pin.path == all[i].path;
    }
  }

  lemma GatheredReads(pins: seq<Pin>, first: map<string, string>, conflicts: set<string>)
    requires Gathered(pins, first, conflicts)
    ensures Reads(pins, if conflicts != {} then Err(conflicts) else Ok(first))
  {
    forall path | Conflicted(pins, path) ensures path in conflicts {
      var i, j :| 0 <= i < |pins| && 0 <= j < |pins| && pins[i].path == path == pins[j].path
        && pins[i].digest != pins[j].digest;
      assert pins[i] in pins && pins[j] in pins;
    }
    forall path | path in first ensures exists p :: p in pins && p.path == path {
      var i :| 0 <= i < |pins| && pins[i] == Pin(path, first[path]);
      assert pins[i] in pins;
    }
  }

  lemma AgreedPins(pins: seq<Pin>, m: map<string, string>, path: string)
    requires Reads(pins, Ok(m))
    ensures !Conflicted(pins, path)
  {
    forall i, j | 0 <= i < |pins| && 0 <= j < |pins| && pins[i].path == path == pins[j].path
      ensures pins[i].digest == pins[j].digest
    {
      assert pins[i] in pins && pins[j] in pins;
    }
  }

  /** There is only one right answer. */
  lemma ReadsOnce(pins: seq<Pin>, r: Result<map<string, string>, set<string>>,
      q: Result<map<string, string>, set<string>>)
    requires Reads(pins, r) && Reads(pins, q)
    ensures r == q
  {
    if r.Ok? {
      forall path ensures !Conflicted(pins, path) {
        AgreedPins(pins, r.value, path);
      }
      forall path | path in r.value || path in q.value
        ensures path in r.value && path in q.value && r.value[path] == q.value[path]
      {
        var p :| p in pins && p.path == path;
      }
      assert r.value == q.value;
    } else if q.Ok? {
      forall path ensures !Conflicted(pins, path) {
        AgreedPins(pins, q.value, path);
      }
    } else {
      assert r.error == q.error;
    }
  }
}