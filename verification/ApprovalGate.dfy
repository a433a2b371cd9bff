// The gate of fixtures/approval/__init__.py: what is covered, how it is compared with what the request
// published, and the approval that is written only after the comparison. The hashes, the JSON reader and
// writer, the manifest's schema check and the approver's name check are parameters (`Library`).
module ApprovalGate {
  import opened Letters
  import opened Prelude
  import opened ApprovalPins
  import opened ApprovalReissue

  const MANIFEST_REL: string := "fixtures/manifest.json"
  const APPROVAL_RECORD_REL: string := "fixtures/approval/manifest-approval.md"
  const REQUEST_REL: string := "fixtures/approval/REQUEST-manifest-approval.md"

  datatype Ref = Ref(path: string, sha256: string, count: string)

  /** The manifest without its `approval` block; `rest` is everything the gate does not look at. */
  datatype Body = Body(golden: Option<Ref>, catalog: Option<Ref>, rest: string)

  datatype Approval = Approval(status: string, approver: string, approvedAt: string, artifact: string,
      contentHash: string, request: Option<string>)

  datatype Manifest = Manifest(body: Body, approval: Option<Approval>)

  type Files = map<string, string>

  datatype Library = Library(
    sha: string -> string,
    bodySha: Body -> string,
    load: string -> Option<Manifest>,
    dump: Manifest -> string,
    pitches: string -> Option<string>,
    valid: (Manifest, string) -> bool,
    approver: string -> Option<string>,
    render: (Manifest, string, string, string) -> string)

  /** A written manifest is read back as it was, and a body digest is 64 hex digits. */
  ghost predicate Sound(lib: Library) {
    && (forall m :: lib.load(lib.dump(m)) == Some(m))
    && (forall b :: IsDigest(lib.bodySha(b)))
  }

  datatype Refusal = Approver | Missing(path: string) | NotAManifest | NoGoldenSet | OtherRequest | Conflict
      | Drifted | NotGroundTruth

  // ---------------------------------------------------------------------------------
  // Dictionaries that remember their order

  function Put(d: seq<Pin>, path: string, digest: string): (r: seq<Pin>)
    ensures forall p | p in r :: p == Pin(path, digest) || p in d
    ensures r != []
  {
    if d == [] then [Pin(path, digest)]
    else if d[0].path == path then [Pin(path, digest)] + d[1..]
    else [d[0]] + Put(d[1..], path, digest)
  }

  function Get(d: seq<Pin>, path: string): Option<string> {
    if d == [] then None else if d[0].path == path then Some(d[0].digest) else Get(d[1..], path)
  }

  lemma {:induction false} PutGet(d: seq<Pin>, path: string, digest: string, other: string)
    ensures Get(Put(d, path, digest), other) == if other == path then Some(digest) else Get(d, other)
  {
    if d != [] {
      if d[0].path != path {
        PutGet(d[1..], path, digest, other);
      }
    }
  }

  lemma {:induction false} PutFirst(d: seq<Pin>, path: string, digest: string)
    requires d != []
    ensures Put(d, path, digest)[0].path == d[0].path
  {
  }

  // ---------------------------------------------------------------------------------
  // `covered_documents`

  function ReadManifest(lib: Library, files: Files): Result<Manifest, Refusal> {
    if MANIFEST_REL !in files then Err(Missing(MANIFEST_REL))
    else
      match lib.load(files[MANIFEST_REL])
      case None => Err(NotAManifest)
      case Some(m) => Ok(m)
  }

  function Covered(lib: Library, files: Files, body: Body): Result<seq<Pin>, Refusal> {
    if body.golden.None? then Err(NoGoldenSet)
    else if body.golden.value.path !in files then Err(Missing(body.golden.value.path))
    else
      var golden := body.golden.value.path;
      var covered := Put([Pin(MANIFEST_REL, lib.bodySha(body))], golden, lib.sha(files[golden]));
      if body.catalog.None? then Ok(covered)
      else
        var catalog := body.catalog.value.path;
        if catalog !in files then Err(Missing(catalog)) else Ok(Put(covered, catalog, lib.sha(files[catalog])))
  }

  // ---------------------------------------------------------------------------------
  // `digest_report`

  datatype Field = GoldenSha | GoldenCount | CatalogSha | ContentHash | RequestPin

  datatype Row = Row(subject: string, field: Field, pinned: string, actual: string)

  ghost function PinsRead(pins: seq<Pin>): (r: Result<map<string, string>, set<string>>)
    ensures Reads(pins, r)
  {
    var conflicts := set p | p in pins && Conflicted(pins, p.path) :: p.path;
    assert forall path | Conflicted(pins, path) :: path in conflicts by {
      forall path | Conflicted(pins, path) ensures path in conflicts {
        var i, j :| 0 <= i < |pins| && 0 <= j < |pins| && pins[i].path == path == pins[j].path
          && pins[i].digest != pins[j].digest;
        assert pins[i] in pins;
      }
    }
    if conflicts != {} then Err(conflicts)
    else
      assert forall p, q | p in pins && q in pins && p.path == q.path :: p.digest == q.digest by {
        forall p, q | p in pins && q in pins && p.path == q.path ensures p.digest == q.digest {
          assert !Conflicted(pins, p.path);
          var i :| 0 <= i < |pins| && pins[i] == p;
          var j :| 0 <= j < |pins| && pins[j] == q;
        }
      }
      Ok(map p | p in pins :: p.path := p.digest)
  }

  const NOT_PUBLISHED: string := "<not published>"

  function PublishedRow(p: Pin, pins: map<string, string>): Row {
    Row(p.path, RequestPin, if Lower(p.path) in pins then pins[Lower(p.path)] else NOT_PUBLISHED, p.digest)
  }

  function PublishedRows(covered: seq<Pin>, pins: map<string, string>): (r: seq<Row>)
    ensures |r| == |covered|
  {
    seq(|covered|, i requires 0 <= i < |covered| => PublishedRow(covered[i], pins))
  }

  function Stripped(s: string): string
    decreases |s|
  {
    if s == "" then ""
    else if IsSpace(s[0]) then Stripped(s[1..])
    else if IsSpace(s[|s| - 1]) then Stripped(s[..|s| - 1])
    else s
  }

  function RecordedHash(m: Manifest): string {
    if m.approval.Some? then Lower(Stripped(m.approval.value.contentHash)) else ""
  }

  function OwnRows(m: Manifest, golden: Ref, covered: seq<Pin>, count: string): seq<Row> {
    [Row(golden.path, GoldenSha, golden.sha256, Digest(covered, golden.path)),
      Row(golden.path, GoldenCount, golden.count, count)]
    + (if m.body.catalog.Some?
       then [Row(m.body.catalog.value.path, CatalogSha, m.body.catalog.value.sha256,
         Digest(covered, m.body.catalog.value.path))]
       else [])
    + [Row(MANIFEST_REL, ContentHash, RecordedHash(m), Digest(covered, MANIFEST_REL))]
  }

  function Digest(covered: seq<Pin>, path: string): string {
    if Get(covered, path).Some? then Get(covered, path).value else ""
  }

  ghost function Report(lib: Library, files: Files): Result<seq<Row>, Refusal> {
    match ReadManifest(lib, files)
    case Err(e) => Err(e)
    case Ok(m) =>
      match Covered(lib, files, m.body)
      case Err(e) => Err(e)
      case Ok(covered) =>
        var golden := m.body.golden.value;
        match lib.pitches(files[golden.path])
        case None => Err(NotAManifest)
        case Some(count) =>
          if m.approval.Some? && m.approval.value.request.Some? && m.approval.value.request.value != REQUEST_REL
          then Err(OtherRequest)
          else if REQUEST_REL !in files then Err(Missing(REQUEST_REL))
          else
            match PinsRead(Pins(Lower(files[REQUEST_REL])))
            case Err(_) => Err(Conflict)
            case Ok(pins) => Ok(OwnRows(m, golden, covered, count) + PublishedRows(covered, pins))
  }

  predicate Agrees(r: Row) {
    r.pinned == r.actual
  }

  ghost function Verify(lib: Library, files: Files): Result<seq<Row>, Refusal> {
    match Report(lib, files)
    case Err(e) => Err(e)
    case Ok(rows) => if forall r | r in rows :: Agrees(r) then Ok(rows) else Err(Drifted)
  }

  function Approved(m: Manifest, name: string, when: string, hash: string): Manifest {
    m.(approval := Some(Approval("approved", name, when, APPROVAL_RECORD_REL, hash, Some(REQUEST_REL))))
  }

  /** The files an approval writes: the record first, then the manifest. */
  function Written(lib: Library, files: Files, m: Manifest, name: string, when: string): Files {
    var hash := lib.bodySha(m.body);
    files[APPROVAL_RECORD_REL := lib.render(m, name, when, hash)]
         [MANIFEST_REL := lib.dump(Approved(m, name, when, hash))]
  }

  /** Everything `record_approval` asks before it writes. */
  ghost predicate MayApprove(lib: Library, files: Files, approver: string) {
    && lib.approver(approver).Some?
    && Verify(lib, files).Ok?
    && var m := ReadManifest(lib, files).value; lib.valid(m, files[m.body.golden.value.path])
  }

  /** Section 3 of the report: every covered document against what the request published for it. */
  method AppendPublished(own: seq<Row>, covered: seq<Pin>, pins: map<string, string>) returns (rows: seq<Row>)
    ensures rows == own + PublishedRows(covered, pins)
  {
    rows := own;
    ghost var all := PublishedRows(covered, pins);
    for i := 0 to |covered|
      invariant rows == own + all[..i]
    {
      rows := rows + [PublishedRow(covered[i], pins)];
      assert all[..i + 1] == all[..i] + [PublishedRow(covered[i], pins)];
    }
    assert all[..|covered|] == all;
  }

  class Tree {
    const lib: Library
    var files: Files

    constructor (lib: Library, files: Files)
      ensures this.lib == lib && this.files == files
    {
      this.lib, this.files := lib, files;
    }

    method DigestReport() returns (r: Result<seq<Row>, Refusal>)
      ensures r == Report(lib, files)
    {
      var read := ReadManifest(lib, files);
      if read.Err? {
        return Err(read.error);
      }
      var m := read.value;
      var docs := Covered(lib, files, m.body);
      if docs.Err? {
        return Err(docs.error);
      }
      var covered, golden := docs.value, m.body.golden.value;
      var count := lib.pitches(files[golden.path]);
      if count.None? {
        return Err(NotAManifest);
      }
      var rows := OwnRows(m, golden, covered, count.value);
      if m.approval.Some? && m.approval.value.request.Some? && m.approval.value.request.value != REQUEST_REL {
        return Err(OtherRequest);
      }
      if REQUEST_REL !in files {
        return Err(Missing(REQUEST_REL));
      }
      var pins := RequestPins(files[REQUEST_REL]);
      ReadsOnce(Pins(Lower(files[REQUEST_REL])), pins, PinsRead(Pins(Lower(files[REQUEST_REL]))));
      if pins.Err? {
        return Err(Conflict);
      }
      rows := AppendPublished(rows, covered, pins.value);
      return Ok(rows);
    }

    method VerifyPinnedDigests() returns (r: Result<seq<Row>, Refusal>)
      ensures r == Verify(lib, files)
    {
      r := DigestReport();
      hide Report;
      if r.Ok? {
        for i := 0 to |r.value|
          invariant forall j | 0 <= j < i :: Agrees(r.value[j])
        {
          if !Agrees(r.value[i]) {
            assert r.value[i] in r.value;
            return Err(Drifted);
          }
        }
      }
    }

    /** Verify, then write: on any refusal the tree is as it was; on success exactly the two files changed. */
    method RecordApproval(approver: string, when: string) returns (r: Result<string, Refusal>)
      modifies this
      ensures r.Ok? <==> MayApprove(lib, old(files), approver)
      ensures r.Err? ==> files == old(files)
      ensures r.Ok? ==>
        && r.value == lib.bodySha(ReadManifest(lib, old(files)).value.body)
        && files == Written(lib, old(files), ReadManifest(lib, old(files)).value, lib.approver(approver).value, when)
    {
      var name := lib.approver(approver);
      if name.None? {
        return Err(Approver);
      }
      var verified := VerifyPinnedDigests();
      if verified.Err? {
        return Err(verified.error);
      }
      var m := ReadManifest(lib, files).value;
      if !lib.valid(m, files[m.body.golden.value.path]) {
        return Err(NotGroundTruth);
      }
      var digest := lib.bodySha(m.body);
      files := files[APPROVAL_RECORD_REL := lib.render(m, name.value, when, digest)];
      files := files[MANIFEST_REL := lib.dump(Approved(m, name.value, when, digest))];
      return Ok(digest);
    }
  }

  // ---------------------------------------------------------------------------------
  // What a passed verification means

  /** Every covered document, as it is on disk, is what the request published and what the manifest records. */
  lemma VerifiedMeans(lib: Library, files: Files)
    requires Verify(lib, files).Ok?
    ensures ReadManifest(lib, files).Ok?
    ensures var m := ReadManifest(lib, files).value;
      && Covered(lib, files, m.body).Ok? && m.body.golden.Some? && REQUEST_REL in files
      && PinsRead(Pins(Lower(files[REQUEST_REL]))).Ok?
      && var covered, pins := Covered(lib, files, m.body).value, PinsRead(Pins(Lower(files[REQUEST_REL]))).value;
      && (forall p | p in covered :: Lower(p.path) in pins ==> pins[Lower(p.path)] == p.digest)
      && (forall p | p in covered && p.digest != NOT_PUBLISHED :: Lower(p.path) in pins)
      && m.body.golden.value.sha256 == Digest(covered, m.body.golden.value.path)
      && lib.pitches(files[m.body.golden.value.path]) == Some(m.body.golden.value.count)
      && (m.body.catalog.Some? ==> m.body.catalog.value.sha256 == Digest(covered, m.body.catalog.value.path))
      && RecordedHash(m) == Digest(covered, MANIFEST_REL)
  {
    var m := ReadManifest(lib, files).value;
    var covered, pins := Covered(lib, files, m.body).value, PinsRead(Pins(Lower(files[REQUEST_REL]))).value;
    var rows := Report(lib, files).value;
    var count := lib.pitches(files[m.body.golden.value.path]).value;
    var own := OwnRows(m, m.body.golden.value, covered, count);
    var published := PublishedRows(covered, pins);
    assert rows == own + published;
    hide Pins, Lower, Digest, Covered, ReadManifest, RecordedHash, Reads, Verify, Report;
    assert forall r | r in own :: Agrees(r);
    assert own[0] in own && own[1] in own && own[|own| - 1] in own && own[|own| - 2] in own;
    forall p | p in covered ensures Agrees(PublishedRow(p, pins)) {
      var i :| 0 <= i < |covered| && covered[i] == p;
      assert published[i] in published;
    }
  }

  /**
   * What a manifest covers: itself, its golden set and its catalogue if it has one, each by the digest of what is on
   * disk, and nothing else; the covered documents being there is all it takes.
   */
  lemma CoveredIs(lib: Library, files: Files, body: Body, path: string)
    ensures Covered(lib, files, body).Ok? <==>
      && body.golden.Some? && body.golden.value.path in files
      && (body.catalog.Some? ==> body.catalog.value.path in files)
    ensures Covered(lib, files, body).Ok? ==>
      Get(Covered(lib, files, body).value, path) ==
        if body.catalog.Some? && path == body.catalog.value.path then Some(lib.sha(files[path]))
        else if path == body.golden.value.path then Some(lib.sha(files[path]))
        else if path == MANIFEST_REL then Some(lib.bodySha(body))
        else None
  {
    if Covered(lib, files, body).Ok? {
      var golden := body.golden.value.path;
      var first := [Pin(MANIFEST_REL, lib.bodySha(body))];
      PutGet(first, golden, lib.sha(files[golden]), path);
      if body.catalog.Some? {
        var catalog := body.catalog.value.path;
        PutGet(Put(first, golden, lib.sha(files[golden])), catalog, lib.sha(files[catalog]), path);
      }
      assert Get(first, path) == if path == MANIFEST_REL then Some(lib.bodySha(body)) else None;
      hide Get, Put;
    }
  }

  /** `str.strip`: whitespace before, whitespace behind, and none at either end of what is left. */
  lemma {:induction false} StrippedIs(s: string) returns (before: string, behind: string)
    ensures s == before + Stripped(s) + behind
    ensures (forall c | c in before :: IsSpace(c)) && (forall c | c in behind :: IsSpace(c))
    ensures Stripped(s) == "" || (!IsSpace(Stripped(s)[0]) && !IsSpace(Stripped(s)[|Stripped(s)| - 1]))
    decreases |s|
  {
    if s == "" {
      before, behind := "", "";
    } else if IsSpace(s[0]) {
      before, behind := StrippedIs(s[1..]);
      assert s == [s[0]] + s[1..];
      before := [s[0]] + before;
    } else if IsSpace(s[|s| - 1]) {
      var n := |s| - 1;
      before, behind := StrippedIs(s[..n]);
      assert s == s[..n] + [s[n]];
      behind := behind + [s[n]];
    } else {
      before, behind := "", "";
    }
  }

  /** The manifest's record of its approval names no request, or the committed one. */
  predicate NamesOurRequest(m: Manifest) {
    m.approval.Some? && m.approval.value.request.Some? ==> m.approval.value.request.value == REQUEST_REL
  }

  /** The manifest's own records are what is on disk. */
  ghost predicate RecordsHold(lib: Library, files: Files, m: Manifest, covered: seq<Pin>)
    requires m.body.golden.Some? && m.body.golden.value.path in files
  {
    var golden := m.body.golden.value;
    && golden.sha256 == Digest(covered, golden.path) && lib.pitches(files[golden.path]) == Some(golden.count)
    && (m.body.catalog.Some? ==> m.body.catalog.value.sha256 == Digest(covered, m.body.catalog.value.path))
    && RecordedHash(m) == Digest(covered, MANIFEST_REL)
  }

  /** The committed request publishes each covered document's digest, but for one whose digest reads as unpublished. */
  ghost predicate RequestHolds(files: Files, covered: seq<Pin>) {
    && REQUEST_REL in files && PinsRead(Pins(Lower(files[REQUEST_REL]))).Ok?
    && var pins := PinsRead(Pins(Lower(files[REQUEST_REL]))).value;
       forall p | p in covered :: PublishedAs(p, pins)
  }

  predicate PublishedAs(p: Pin, pins: map<string, string>) {
    if Lower(p.path) in pins then pins[Lower(p.path)] == p.digest else p.digest == NOT_PUBLISHED
  }

  lemma RowsAgree(m: Manifest, golden: Ref, covered: seq<Pin>, pins: map<string, string>, count: string)
    ensures var own := OwnRows(m, golden, covered, count);
      (forall r | r in own + PublishedRows(covered, pins) :: Agrees(r))
      <==>
      && (forall r | r in own :: Agrees(r))
      && (forall p | p in covered :: PublishedAs(p, pins))
  {
    var own, published := OwnRows(m, golden, covered, count), PublishedRows(covered, pins);
    hide OwnRows, Lower;
    forall i | 0 <= i < |covered| ensures Agrees(published[i]) <==> PublishedAs(covered[i], pins) {
      assert published[i] == PublishedRow(covered[i], pins);
    }
    if forall r | r in own + published :: Agrees(r) {
      forall p | p in covered ensures PublishedAs(p, pins) {
        var i :| 0 <= i < |covered| && covered[i] == p;
        assert published[i] in own + published;
      }
      assert forall r | r in own :: r in own + published;
    }
    if (forall r | r in own :: Agrees(r)) && forall p | p in covered :: PublishedAs(p, pins) {
      forall r | r in own + published ensures Agrees(r) {
        if r !in own {
          var i :| 0 <= i < |published| && published[i] == r;
          assert covered[i] in covered;
        }
      }
    }
  }

  lemma OwnRowsAgree(lib: Library, files: Files, m: Manifest, covered: seq<Pin>)
    requires m.body.golden.Some? && m.body.golden.value.path in files
    requires lib.pitches(files[m.body.golden.value.path]).Some?
    ensures var golden := m.body.golden.value;
      (forall r | r in OwnRows(m, golden, covered, lib.pitches(files[golden.path]).value) :: Agrees(r))
      <==> RecordsHold(lib, files, m, covered)
  {
    var golden := m.body.golden.value;
    var own := OwnRows(m, golden, covered, lib.pitches(files[golden.path]).value);
    hide Digest, RecordedHash;
    assert own[0] in own && own[1] in own && own[|own| - 1] in own && own[|own| - 2] in own;
  }

  /** The report can be drawn up: nothing it reads is missing, and the manifest names no other request. */
  ghost predicate Readable(lib: Library, files: Files) {
    && ReadManifest(lib, files).Ok?
    && var m := ReadManifest(lib, files).value;
       && Covered(lib, files, m.body).Ok? && lib.pitches(files[m.body.golden.value.path]).Some? && NamesOurRequest(m)
  }

  /** A verification passes exactly when the report can be drawn up and the manifest and the request hold. */
  lemma VerifiedIff(lib: Library, files: Files)
    ensures Verify(lib, files).Ok? <==>
      && Readable(lib, files)
      && var m := ReadManifest(lib, files).value;
         var covered := Covered(lib, files, m.body).value;
         RecordsHold(lib, files, m, covered) && RequestHolds(files, covered)
  {
    if Readable(lib, files) {
      var m := ReadManifest(lib, files).value;
      var covered := Covered(lib, files, m.body).value;
      var count := lib.pitches(files[m.body.golden.value.path]).value;
      OwnRowsAgree(lib, files, m, covered);
      if REQUEST_REL in files && PinsRead(Pins(Lower(files[REQUEST_REL]))).Ok? {
        RowsAgree(m, m.body.golden.value, covered, PinsRead(Pins(Lower(files[REQUEST_REL]))).value, count);
      }
      hide Covered, ReadManifest, RecordsHold, OwnRows, PublishedRows, Pins, PinsRead, Lower, Agrees;
    } else {
      hide Covered, ReadManifest, OwnRows, PublishedRows, Pins, PinsRead, Lower, Agrees;
    }
  }

  /** A manifest that chooses its own request is refused for that, whatever else the tree holds. */
  lemma OtherRequestIff(lib: Library, files: Files)
    ensures Report(lib, files) == Err(OtherRequest) <==>
      && ReadManifest(lib, files).Ok?
      && var m := ReadManifest(lib, files).value;
         && Covered(lib, files, m.body).Ok? && lib.pitches(files[m.body.golden.value.path]).Some?
         && !NamesOurRequest(m)
  {
    CoveredErrors(lib, files);
    hide Covered, ReadManifest, OwnRows, PublishedRows, Pins, PinsRead, Lower;
  }

  lemma CoveredErrors(lib: Library, files: Files)
    ensures ReadManifest(lib, files) != Err(OtherRequest)
    ensures forall body :: Covered(lib, files, body) != Err(OtherRequest)
    ensures forall body :: Covered(lib, files, body).Ok? ==> body.golden.Some? && body.golden.value.path in files
  {
  }

  // ---------------------------------------------------------------------------------
  // After an approval

  ghost predicate BesideManifest(body: Body) {
    (body.golden.Some? ==> body.golden.value.path != MANIFEST_REL)
      && (body.catalog.Some? ==> body.catalog.value.path != MANIFEST_REL)
  }

  lemma CoveredDigests(lib: Library, files: Files, body: Body)
    requires Covered(lib, files, body).Ok? && MANIFEST_REL in files
    ensures var d := Covered(lib, files, body).value;
      && d[0].path == MANIFEST_REL
      && Digest(d, body.golden.value.path) == lib.sha(files[body.golden.value.path])
      && (body.catalog.Some? ==> Digest(d, body.catalog.value.path) == lib.sha(files[body.catalog.value.path]))
      && Digest(d, MANIFEST_REL) == if BesideManifest(body) then lib.bodySha(body) else lib.sha(files[MANIFEST_REL])
  {
    var golden := body.golden.value.path;
    var first := [Pin(MANIFEST_REL, lib.bodySha(body))];
    var second := Put(first, golden, lib.sha(files[golden]));
    PutFirst(first, golden, lib.sha(files[golden]));
    PutGet(first, golden, lib.sha(files[golden]), golden);
    PutGet(first, golden, lib.sha(files[golden]), MANIFEST_REL);
    assert Get(first, MANIFEST_REL) == Some(lib.bodySha(body));
    if body.catalog.Some? {
      var catalog := body.catalog.value.path;
      PutFirst(second, catalog, lib.sha(files[catalog]));
      PutGet(second, catalog, lib.sha(files[catalog]), catalog);
      PutGet(second, catalog, lib.sha(files[catalog]), golden);
      PutGet(second, catalog, lib.sha(files[catalog]), MANIFEST_REL);
    }
    hide Get, Put;
  }

  /** The covered documents hash, and count, as they did. */
  ghost predicate Unmoved(lib: Library, files: Files, later: Files, body: Body)
    requires Covered(lib, files, body).Ok? && Covered(lib, later, body).Ok?
  {
    var golden := body.golden.value.path;
    && lib.sha(later[golden]) == lib.sha(files[golden]) && lib.pitches(later[golden]) == lib.pitches(files[golden])
    && (body.catalog.Some? ==> lib.sha(later[body.catalog.value.path]) == lib.sha(files[body.catalog.value.path]))
  }

  /**
   * The manifest is pinned by the digest of its body, unless a covered document stands at its own path; then
   * by that file's hash, which must happen to be the same.
   */
  ghost predicate PinnedByBody(lib: Library, files: Files, body: Body)
    requires MANIFEST_REL in files
  {
    BesideManifest(body) || lib.sha(files[MANIFEST_REL]) == lib.bodySha(body)
  }

  lemma DigestPlain(d: string)
    requires IsDigest(d)
    ensures Lower(Stripped(d)) == d
  {
    assert !IsSpace(d[0]) && !IsSpace(d[|d| - 1]);
    assert Stripped(d) == d;
    assert forall i | 0 <= i < 64 :: LowerChar(d[i]) == d[i];
    assert Lower(d) == d;
  }

  lemma OtherFiles()
    ensures REQUEST_REL != MANIFEST_REL && REQUEST_REL != APPROVAL_RECORD_REL && APPROVAL_RECORD_REL != MANIFEST_REL
  {
    assert REQUEST_REL[9] == 'a' && MANIFEST_REL[9] == 'm' && REQUEST_REL[18] == 'R' && APPROVAL_RECORD_REL[18] == 'm';
  }

  /** What the tree holds right after an approval, seen by the verifier's own readers. */
  lemma AfterApproval(lib: Library, files: Files, approver: string, when: string)
    requires Sound(lib) && MayApprove(lib, files, approver)
    ensures var m := ReadManifest(lib, files).value;
      var later := Written(lib, files, m, lib.approver(approver).value, when);
      && ReadManifest(lib, later) == Ok(Approved(m, lib.approver(approver).value, when, lib.bodySha(m.body)))
      && REQUEST_REL in files && REQUEST_REL in later && later[REQUEST_REL] == files[REQUEST_REL]
      && Covered(lib, files, m.body).Ok? && Covered(lib, later, m.body).Ok?
  {
    OtherFiles();
    VerifiedMeans(lib, files);
    hide Pins, Lower, Get, Put, Stripped;
  }

  lemma UnmovedCovered(lib: Library, files: Files, later: Files, body: Body)
    requires Covered(lib, files, body).Ok? && Covered(lib, later, body).Ok? && Unmoved(lib, files, later, body)
    ensures Covered(lib, later, body) == Covered(lib, files, body)
  {
    hide Put;
  }

  lemma ReportParts(lib: Library, files: Files, m: Manifest, covered: seq<Pin>, count: string,
      pins: map<string, string>)
    requires ReadManifest(lib, files) == Ok(m) && Covered(lib, files, m.body) == Ok(covered)
    requires lib.pitches(files[m.body.golden.value.path]) == Some(count)
    requires m.approval.Some? && m.approval.value.request == Some(REQUEST_REL)
    requires REQUEST_REL in files && PinsRead(Pins(Lower(files[REQUEST_REL]))) == Ok(pins)
    ensures Report(lib, files) == Ok(OwnRows(m, m.body.golden.value, covered, count) + PublishedRows(covered, pins))
  {
    hide Pins, Lower, ReadManifest, Covered, PinsRead, OwnRows, PublishedRows;
  }

  lemma OldRows(lib: Library, files: Files)
    returns (m: Manifest, covered: seq<Pin>, count: string, pins: map<string, string>)
    requires Verify(lib, files).Ok?
    ensures ReadManifest(lib, files) == Ok(m) && Covered(lib, files, m.body) == Ok(covered) && m.body.golden.Some?
    ensures lib.pitches(files[m.body.golden.value.path]) == Some(count)
    ensures REQUEST_REL in files && PinsRead(Pins(Lower(files[REQUEST_REL]))) == Ok(pins)
    ensures forall r | r in OwnRows(m, m.body.golden.value, covered, count) :: Agrees(r)
    ensures forall r | r in PublishedRows(covered, pins) :: Agrees(r)
  {
    m := ReadManifest(lib, files).value;
    covered, count := Covered(lib, files, m.body).value, lib.pitches(files[m.body.golden.value.path]).value;
    pins := PinsRead(Pins(Lower(files[REQUEST_REL]))).value;
    var rows := Report(lib, files).value;
    var own, published := OwnRows(m, m.body.golden.value, covered, count), PublishedRows(covered, pins);
    assert rows == own + published;
    hide Pins, Lower, Covered, ReadManifest, PinsRead, OwnRows, PublishedRows, Report;
    assert forall r | r in own :: r in rows;
    assert forall r | r in published :: r in rows;
  }

  /** The approval changes one row of the report, and that row agrees. */
  lemma ApprovedRows(m: Manifest, name: string, when: string, hash: string, covered: seq<Pin>, count: string)
    requires m.body.golden.Some? && IsDigest(hash) && Digest(covered, MANIFEST_REL) == hash
    requires forall r | r in OwnRows(m, m.body.golden.value, covered, count) :: Agrees(r)
    ensures forall r | r in OwnRows(Approved(m, name, when, hash), m.body.golden.value, covered, count) :: Agrees(r)
  {
    DigestPlain(hash);
    var m' := Approved(m, name, when, hash);
    assert RecordedHash(m') == hash;
    var was, now := OwnRows(m, m.body.golden.value, covered, count), OwnRows(m', m.body.golden.value, covered, count);
    hide Digest, RecordedHash, IsDigest, Lower, Stripped, Get;
    forall r | r in now ensures Agrees(r) {
      assert r.field != ContentHash ==> r in was;
    }
  }

  lemma UnmovedVerifies(lib: Library, files: Files, approver: string, when: string)
    requires Sound(lib) && MayApprove(lib, files, approver)
    ensures var m := ReadManifest(lib, files).value;
      var later := Written(lib, files, m, lib.approver(approver).value, when);
      && Covered(lib, files, m.body).Ok? && Covered(lib, later, m.body).Ok?
      && (Unmoved(lib, files, later, m.body) && PinnedByBody(lib, later, m.body) ==> Verify(lib, later).Ok?)
  {
    var m, covered, count, pins := OldRows(lib, files);
    var name := lib.approver(approver).value;
    var later := Written(lib, files, m, name, when);
    AfterApproval(lib, files, approver, when);
    if Unmoved(lib, files, later, m.body) && PinnedByBody(lib, later, m.body) {
      UnmovedCovered(lib, files, later, m.body);
      CoveredDigests(lib, later, m.body);
      var hash := lib.bodySha(m.body);
      ApprovedRows(m, name, when, hash, covered, count);
      var m' := Approved(m, name, when, hash);
      ReportParts(lib, later, m', covered, count, pins);
      hide Pins, Lower, Covered, ReadManifest, PinsRead, OwnRows, PublishedRows, Report, Written, Digest, Get, Put,
        Agrees;
    }
  }

  lemma VerifiesUnmoved(lib: Library, files: Files, approver: string, when: string)
    requires Sound(lib) && MayApprove(lib, files, approver)
    ensures var m := ReadManifest(lib, files).value;
      var later := Written(lib, files, m, lib.approver(approver).value, when);
      && Covered(lib, files, m.body).Ok? && Covered(lib, later, m.body).Ok?
      && (Verify(lib, later).Ok? ==> Unmoved(lib, files, later, m.body) && PinnedByBody(lib, later, m.body))
  {
    var m := ReadManifest(lib, files).value;
    DigestPlain(lib.bodySha(m.body));
    var later := Written(lib, files, m, lib.approver(approver).value, when);
    AfterApproval(lib, files, approver, when);
    VerifiedMeans(lib, files);
    CoveredDigests(lib, files, m.body);
    CoveredDigests(lib, later, m.body);
    if Verify(lib, later).Ok? {
      VerifiedMeans(lib, later);
    }
    hide Pins, Lower, Covered, ReadManifest, PinsRead, Verify, Written, Digest, RecordedHash, MayApprove, Sound, Reads;
  }

  /**
   * Were this path overwritten with this text, no covered document would hash, or as the golden set count,
   * differently.
   */
  ghost predicate Survives(lib: Library, files: Files, body: Body, path: string, text: string) {
    path in files ==>
      && (body.golden.Some? && body.golden.value.path == path ==>
            lib.sha(text) == lib.sha(files[path]) && lib.pitches(text) == lib.pitches(files[path]))
      && (body.catalog.Some? && body.catalog.value.path == path ==> lib.sha(text) == lib.sha(files[path]))
  }

  /** What an approval writes to the manifest's path. */
  function ManifestText(lib: Library, m: Manifest, name: string, when: string): string {
    lib.dump(Approved(m, name, when, lib.bodySha(m.body)))
  }

  function RecordText(lib: Library, m: Manifest, name: string, when: string): string {
    lib.render(m, name, when, lib.bodySha(m.body))
  }

  lemma WrittenFiles(lib: Library, files: Files, m: Manifest, name: string, when: string, path: string)
    requires path in files
    ensures var later := Written(lib, files, m, name, when);
      path in later && later[path] ==
        if path == MANIFEST_REL then ManifestText(lib, m, name, when)
        else if path == APPROVAL_RECORD_REL then RecordText(lib, m, name, when)
        else files[path]
    ensures MANIFEST_REL in Written(lib, files, m, name, when)
    ensures Written(lib, files, m, name, when)[MANIFEST_REL] == ManifestText(lib, m, name, when)
  {
  }

  lemma UnmovedIs(lib: Library, files: Files, m: Manifest, name: string, when: string)
    requires Covered(lib, files, m.body).Ok? && Covered(lib, Written(lib, files, m, name, when), m.body).Ok?
    ensures Unmoved(lib, files, Written(lib, files, m, name, when), m.body)
      <==>
        && Survives(lib, files, m.body, APPROVAL_RECORD_REL, RecordText(lib, m, name, when))
        && Survives(lib, files, m.body, MANIFEST_REL, ManifestText(lib, m, name, when))
  {
    OtherFiles();
    CoveredExist(lib, files, m.body);
    WrittenFiles(lib, files, m, name, when, m.body.golden.value.path);
    if m.body.catalog.Some? {
      WrittenFiles(lib, files, m, name, when, m.body.catalog.value.path);
    }
    hide Covered, Written, ManifestText, RecordText, MANIFEST_REL, APPROVAL_RECORD_REL;
  }

  lemma PinnedIs(lib: Library, files: Files, m: Manifest, name: string, when: string)
    ensures MANIFEST_REL in Written(lib, files, m, name, when)
    ensures PinnedByBody(lib, Written(lib, files, m, name, when), m.body)
      <==> (BesideManifest(m.body) || lib.sha(ManifestText(lib, m, name, when)) == lib.bodySha(m.body))
  {
  }

  /**
   * An approval leaves a tree that still verifies unless the record or the manifest it writes is itself a covered
   * document and does not happen to hash (or, for the golden set, count) as what stood there; and unless, where a
   * covered document is the manifest's own file, that file does not happen to hash to the digest of its body, which
   * is what the manifest is pinned by.
   */
  lemma ApprovalStableIff(lib: Library, files: Files, approver: string, when: string)
    requires Sound(lib) && MayApprove(lib, files, approver)
    ensures var m, name := ReadManifest(lib, files).value, lib.approver(approver).value;
      Verify(lib, Written(lib, files, m, name, when)).Ok? <==>
        && Survives(lib, files, m.body, APPROVAL_RECORD_REL, RecordText(lib, m, name, when))
        && Survives(lib, files, m.body, MANIFEST_REL, ManifestText(lib, m, name, when))
        && (BesideManifest(m.body) || lib.sha(ManifestText(lib, m, name, when)) == lib.bodySha(m.body))
  {
    var m, name := ReadManifest(lib, files).value, lib.approver(approver).value;
    UnmovedVerifies(lib, files, approver, when);
    VerifiesUnmoved(lib, files, approver, when);
    hide *;
    UnmovedIs(lib, files, m, name, when);
    PinnedIs(lib, files, m, name, when);
  }

  /** In particular it is stable whenever no covered document is the approval record or the manifest itself. */
  lemma ApprovalStable(lib: Library, files: Files, approver: string, when: string)
    requires Sound(lib) && MayApprove(lib, files, approver)
    requires var body := ReadManifest(lib, files).value.body;
      && BesideManifest(body)
      && body.golden.value.path != APPROVAL_RECORD_REL
      && (body.catalog.Some? ==> body.catalog.value.path != APPROVAL_RECORD_REL)
    ensures Verify(lib, Written(lib, files, ReadManifest(lib, files).value, lib.approver(approver).value, when)).Ok?
  {
    OtherFiles();
    ApprovalStableIff(lib, files, approver, when);
    hide Verify, MayApprove, Sound, Written, ReadManifest, ManifestText, RecordText;
  }

  lemma CoveredExist(lib: Library, files: Files, body: Body)
    requires Covered(lib, files, body).Ok?
    ensures body.golden.Some? && body.golden.value.path in files
    ensures body.catalog.Some? ==> body.catalog.value.path in files
  {
    hide Put;
  }

  lemma PublishedAgree(covered: seq<Pin>)
    requires Distinctly(covered)
    ensures forall r | r in PublishedRows(covered, Published(covered)) :: Agrees(r)
  {
    var pins := Published(covered);
    forall k | 0 <= k < |covered| ensures Agrees(PublishedRow(covered[k], pins)) {
      assert Lower(covered[k].path) in pins;
    }
    hide Published, Lower, PublishedRow;
  }

  /** A request re-issued for the covered documents passes the whole of the report's comparison with the request. */
  lemma EmittedAgrees(text: string, covered: seq<Pin>, segments: seq<Segment>, i: nat)
    requires Reissue(text, covered).Ok? && Target(text, segments, i) && Publishable(covered) && Distinctly(covered)
    requires Pins(Lower(Head(segments, i))) == [] && Pins(Lower(Tail(segments, i))) == []
    requires !Spoils(Head(segments, i), covered)
    ensures var pins := PinsRead(Pins(Lower(Reissue(text, covered).value)));
      pins.Ok? && forall r | r in PublishedRows(covered, pins.value) :: Agrees(r)
  {
    hide *;
    RoundTripRead(text, covered, segments, i, PinsRead(Pins(Lower(Reissue(text, covered).value))));
    PublishedAgree(covered);
  }
}
