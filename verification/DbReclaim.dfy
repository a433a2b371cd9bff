// scripts/db_reclaim.py: which worker databases may be dropped, and a sweep that judges and drops them
// while other sessions connect, disconnect, create and drop. Postgres itself is `Connection`.
module DbReclaim {
  import opened Prelude
  import opened Decimals
  import opened Letters
  import opened WorkerNames

  const MARKER: string := "_migrationcheck_"
  const SCRATCH_WORKER_BASE: nat := 800_000
  const SCRATCH_BAND_SIZE: nat := 100_000

  predicate InScratchBand(index: nat) {
    SCRATCH_WORKER_BASE <= index < SCRATCH_WORKER_BASE + SCRATCH_BAND_SIZE
  }

  // ---------------------------------------------------------------------------------
  // Names

  /** Python's `$`: the end, or just before one final newline. */
  function Anchored(s: string): string {
    if s != "" && s[|s| - 1] == '\n' then s[..|s| - 1] else s
  }

  function DigitRun(s: string): (n: nat)
    ensures n <= |s| && AllDigits(s[..n]) && (n < |s| ==> !IsDigit(s[n]))
  {
    if s == "" || !IsDigit(s[0]) then 0 else 1 + DigitRun(s[1..])
  }

  predicate IsHex(c: char) {
    IsDigit(c) || 'a' <= c <= 'f'
  }

  /** What follows the prefix, when the name has it. */
  function AfterPrefix(name: string): Option<string> {
    if PREFIX <= name then Some(Anchored(name[|PREFIX|..])) else None
  }

  /** `WORKER_DATABASE_RE`: the index in a worker database's name. */
  function WorkerIndex(name: string): Option<nat> {
    match AfterPrefix(name)
    case Some(rest) => if rest != "" && AllDigits(rest) then Some(Number(rest)) else None
    case None => None
  }

  /** `MIGRATIONCHECK_RE` */
  predicate IsMigrationCheck(name: string) {
    match AfterPrefix(name)
    case Some(rest) =>
      var n := DigitRun(rest);
      n > 0 && MARKER <= rest[n..] && |rest| == n + |MARKER| + 8 && forall i | |rest| - 8 <= i < |rest| ::
        IsHex(rest[i])
    case None => false
  }

  lemma DatabaseNameIndex(worker: nat)
    ensures WorkerIndex(DatabaseName(worker)) == Some(worker)
    ensures !IsMigrationCheck(DatabaseName(worker))
  {
    var rest := Decimal(worker);
    assert DatabaseName(worker)[|PREFIX|..] == rest;
    assert IsDigit(rest[|rest| - 1]);
    NumberOfDecimal(worker);
    assert DigitRun(rest) == |rest|;
  }

  // ---------------------------------------------------------------------------------
  // `--protect`

  predicate IsSeparator(c: char) {
    c == ',' || IsSpace(c)
  }

  function WordLength(s: string): (n: nat)
    ensures n <= |s| && (forall i | 0 <= i < n :: !IsSeparator(s[i])) && (n < |s| ==> IsSeparator(s[n]))
  {
    if s == "" || IsSeparator(s[0]) then 0 else 1 + WordLength(s[1..])
  }

  /** `raw.replace(",", " ").split()` */
  function Pieces(s: string): seq<string> {
    if s == "" then []
    else if IsSeparator(s[0]) then Pieces(s[1..])
    else [s[..WordLength(s)]] + Pieces(s[WordLength(s)..])
  }

  function PieceIndex(piece: string): Option<nat> {
    var token :=
      if PREFIX <= piece then piece[|PREFIX|..] else if piece != "" && piece[0] == 'w' then piece[1..] else piece;
    if token != "" && AllDigits(token) then Some(Number(token)) else None
  }

  function PiecesOf(values: seq<string>): seq<string> {
    if values == [] then [] else PiecesOf(values[..|values| - 1]) + Pieces(values[|values| - 1])
  }

  datatype Error = NotAnIndex(piece: string) | UnknownShape(name: string)

  /** Every piece names an index, and the protected set is exactly what they name; or some piece names nothing. */
  ghost predicate Protects(pieces: seq<string>, r: Result<set<nat>, Error>) {
    match r
    case Ok(indexes) =>
      && (forall p | p in pieces :: PieceIndex(p).Some? && PieceIndex(p).value in indexes)
      && (forall n | n in indexes :: exists p :: p in pieces && PieceIndex(p) == Some(n))
    case Err(e) => e.NotAnIndex? && e.piece in pieces && PieceIndex(e.piece).None?
  }

  method ParseProtect(values: seq<string>) returns (r: Result<set<nat>, Error>)
    ensures Protects(PiecesOf(values), r)
  {
    var protect: set<nat> := {};
    ghost var seen := PiecesOf(values[..0]);
    assert Protects(seen, Ok(protect));
    hide Protects, PieceIndex, Pieces;
    for i := 0 to |values|
      invariant seen == PiecesOf(values[..i]) && Protects(seen, Ok(protect))
    {
      var pieces := Pieces(values[i]);
      PiecesStep(values, i);
      r := ProtectPieces(pieces, seen, protect);
      if r.Err? {
        NotProtected(values, i, r.error.piece);
        return;
      }
      protect := r.value;
      seen := seen + pieces;
    }
    assert values[..|values|] == values;
    return Ok(protect);
  }

  /** The inner loop: the pieces of one value, on top of those seen before it. */
  method ProtectPieces(pieces: seq<string>, ghost seen: seq<string>, protect: set<nat>)
    returns (r: Result<set<nat>, Error>)
    requires Protects(seen, Ok(protect))
    ensures r.Ok? ==> Protects(seen + pieces, r)
    ensures r.Err? ==> r.error.NotAnIndex? && r.error.piece in pieces && PieceIndex(r.error.piece).None?
  {
    var all := protect;
    assert seen + pieces[..0] == seen;
    hide Protects, PieceIndex;
    for j := 0 to |pieces|
      invariant Protects(seen + pieces[..j], Ok(all))
    {
      var index := PieceIndex(pieces[j]);
      if index.None? {
        return Err(NotAnIndex(pieces[j]));
      }
      ProtectOne(seen + pieces[..j], all, pieces[j]);
      OneMore(seen, pieces, j);
      all := all + {index.value};
    }
    assert pieces[..|pieces|] == pieces;
    return Ok(all);
  }

  lemma OneMore<T>(a: seq<T>, b: seq<T>, j: nat)
    requires j < |b|
    ensures a + b[..j] + [b[j]] == a + b[..j + 1]
  {
  }

  lemma PiecesStep(values: seq<string>, i: nat)
    requires i < |values|
    ensures PiecesOf(values[..i + 1]) == PiecesOf(values[..i]) + Pieces(values[i])
  {
    assert values[..i + 1][..i] == values[..i];
  }

  lemma NotProtected(values: seq<string>, i: nat, piece: string)
    requires i < |values| && piece in Pieces(values[i]) && PieceIndex(piece).None?
    ensures Protects(PiecesOf(values), Err(NotAnIndex(piece)))
  {
    hide Pieces, PieceIndex, PiecesOf;
    PiecesStep(values, i);
    assert piece in PiecesOf(values[..i + 1]);
    MorePieces(PiecesOf(values[..i + 1]), values, i + 1);
  }

  lemma ProtectOne(pieces: seq<string>, protect: set<nat>, piece: string)
    requires Protects(pieces, Ok(protect)) && PieceIndex(piece).Some?
    ensures Protects(pieces + [piece], Ok(protect + {PieceIndex(piece).value}))
  {
    forall n | n in protect + {PieceIndex(piece).value}
      ensures exists p :: p in pieces + [piece] && PieceIndex(p) == Some(n)
    {
      if n in protect {
        var p :| p in pieces && PieceIndex(p) == Some(n);
        assert p in pieces + [piece];
      } else {
        assert piece in pieces + [piece];
      }
    }
  }

  lemma {:induction false} MorePieces(some: seq<string>, values: seq<string>, n: nat)
    requires n <= |values| && some == PiecesOf(values[..n])
    ensures forall p | p in some :: p in PiecesOf(values)
    decreases |values|
  {
    if n < |values| {
      var before := values[..|values| - 1];
      assert before[..n] == values[..n];
      MorePieces(some, before, n);
    } else {
      assert values[..n] == values;
    }
  }

  /** The three spellings a person has in front of them all name the same index. */
  lemma Spellings(n: nat)
    ensures PieceIndex(Decimal(n)) == Some(n)
    ensures PieceIndex("w" + Decimal(n)) == Some(n)
    ensures PieceIndex(DatabaseName(n)) == Some(n)
  {
    NumberOfDecimal(n);
    assert IsDigit(Decimal(n)[0]) && PREFIX[0] == 'p';
    assert ("w" + Decimal(n))[1..] == Decimal(n) && ("w" + Decimal(n))[0] == 'w';
    assert DatabaseName(n)[|PREFIX|..] == Decimal(n);
  }

  /** `token` in digits, bare, behind a `w`, or behind the database prefix. */
  ghost predicate SpelledBy(piece: string, token: string, n: nat) {
    && token != "" && AllDigits(token) && Number(token) == n
    && (piece == token || piece == "w" + token || piece == PREFIX + token)
  }

  /** A piece names an index exactly when it is one of the three spellings of it, leading zeros and all. */
  lemma NamesIff(piece: string, n: nat)
    ensures PieceIndex(piece) == Some(n) <==> exists token :: SpelledBy(piece, token, n)
  {
    if PieceIndex(piece) == Some(n) {
      var token :=
        if PREFIX <= piece then piece[|PREFIX|..] else if piece != "" && piece[0] == 'w' then piece[1..] else piece;
      assert PREFIX <= piece ==> piece == PREFIX + token;
      assert SpelledBy(piece, token, n);
    }
    if token :| SpelledBy(piece, token, n) {
      TokenRead(piece, token, n);
    }
  }

  lemma TokenRead(piece: string, token: string, n: nat)
    requires SpelledBy(piece, token, n)
    ensures PieceIndex(piece) == Some(n)
  {
    assert IsDigit(token[0]) && PREFIX[0] == 'p';
    if piece == PREFIX + token {
      assert piece[|PREFIX|..] == token;
    } else if piece == "w" + token {
      assert piece[0] == 'w' && piece[1..] == token;
    } else {
      assert piece[0] == token[0];
    }
  }

  function Joined(words: seq<string>): string {
    if words == [] then "" else words[0] + "," + Joined(words[1..])
  }

  lemma PiecesUnfold(s: string, n: nat)
    requires 0 < n < |s| && n == WordLength(s) && s[n] == ','
    ensures Pieces(s) == [s[..n]] + Pieces(s[n..][1..])
  {
    assert Pieces(s) == [s[..n]] + Pieces(s[n..]);
  }

  /** A comma-separated list is read back word for word. */
  lemma {:induction false} JoinedPieces(words: seq<string>)
    requires forall w | w in words :: w != "" && forall i | 0 <= i < |w| :: !IsSeparator(w[i])
    ensures Pieces(Joined(words)) == words
  {
    if words != [] {
      JoinedPieces(words[1..]);
      var w, rest := words[0], "," + Joined(words[1..]);
      assert Joined(words) == w + rest;
      hide Pieces, Joined;
      WordThen(w, rest);
      assert (w + rest)[..|w|] == w && (w + rest)[|w|..] == rest && rest[1..] == Joined(words[1..]);
      PiecesUnfold(w + rest, |w|);
    }
  }

  lemma WordThen(w: string, rest: string)
    requires (forall i | 0 <= i < |w| :: !IsSeparator(w[i])) && rest != "" && IsSeparator(rest[0])
    ensures WordLength(w + rest) == |w|
  {
    var s := w + rest;
    assert forall i | 0 <= i < |w| :: s[i] == w[i];
    assert s[|w|] == rest[0];
    hide IsSeparator;
    assert WordLength(s) == |w|;
  }
}
