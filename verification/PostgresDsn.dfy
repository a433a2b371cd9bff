// proxyshop_support/postgres.py: rewriting the password and the database of a connection URI
// (percent-encoding: sections 2.1 and 2.3 of RFC 3986; userinfo: section 3.2.1).
module PostgresDsn {
  import opened Prelude
  import opened Decimals
  import opened Letters
  import opened WorkerNames

  // ---------------------------------------------------------------------------------
  // Finding delimiters

  /** The length of the longest prefix without any of the stops. */
  function Until(s: string, stops: set<char>): (n: nat)
    ensures n <= |s| && (forall i | 0 <= i < n :: s[i] !in stops) && (n < |s| ==> s[n] in stops)
  {
    if s == "" || s[0] in stops then 0 else 1 + Until(s[1..], stops)
  }

  ghost predicate Free(s: string, stops: set<char>) {
    forall c | c in s :: c !in stops
  }

  lemma UntilIs(a: string, b: string, stops: set<char>)
    requires Free(a, stops) && (b == "" || b[0] in stops)
    ensures Until(a + b, stops) == |a|
  {
    var s := a + b;
    assert forall i | 0 <= i < |a| :: s[i] == a[i];
    assert b != "" ==> s[|a|] == b[0];
  }

  lemma UntilFree(s: string, stops: set<char>)
    ensures Free(s[..Until(s, stops)], stops)
  {
    var n := Until(s, stops);
    hide Until;
    forall c | c in s[..n] ensures c !in stops {
      var i :| 0 <= i < n && s[..n][i] == c;
      assert s[i] == c;
    }
  }

  /** `s.rpartition("@")`: what precedes and follows the last `@`. */
  function AfterLastAt(s: string): (n: nat)
    ensures n <= |s| && Free(s[n..], {'@'}) && (n > 0 ==> s[n - 1] == '@')
  {
    if s == "" then 0
    else if s[|s| - 1] == '@' then |s|
    else
      var n := AfterLastAt(s[..|s| - 1]);
      assert s[n..] == s[..|s| - 1][n..] + [s[|s| - 1]];
      n
  }

  lemma {:induction false} AfterLastAtIs(a: string, b: string)
    requires Free(b, {'@'})
    ensures AfterLastAt(a + "@" + b) == |a| + 1
  {
    var s := a + "@" + b;
    if b == "" {
      assert s[|s| - 1] == '@';
    } else {
      var c := b[..|b| - 1];
      assert b[|b| - 1] in b && s[|s| - 1] == b[|b| - 1];
      assert s[..|s| - 1] == a + "@" + c;
      AfterLastAtIs(a, c);
    }
  }

  // ---------------------------------------------------------------------------------
  // `urlsplit` and `urlunsplit`

  datatype Parts = Parts(scheme: string, netloc: string, path: string, query: string, fragment: string)

  predicate IsLetter(c: char) {
    'a' <= c <= 'z' || 'A' <= c <= 'Z'
  }

  predicate IsSchemeChar(c: char) {
    IsLetter(c) || IsDigit(c) || c == '+' || c == '-' || c == '.'
  }

  predicate IsScheme(s: string) {
    s != "" && IsLetter(s[0]) && forall i | 0 <= i < |s| :: IsSchemeChar(s[i])
  }

  const COLON: set<char> := {':'}
  const NETLOC_ENDS: set<char> := {'/', '?', '#'}
  const PATH_ENDS: set<char> := {'?', '#'}
  const QUERY_ENDS: set<char> := {'#'}

  function SplitScheme(dsn: string): (string, string) {
    var n := Until(dsn, COLON);
    if n < |dsn| && IsScheme(dsn[..n]) then (Lower(dsn[..n]), dsn[n + 1..]) else ("", dsn)
  }

  function SplitNetloc(rest: string): (string, string) {
    if "//" <= rest then
      var n := Until(rest[2..], NETLOC_ENDS);
      (rest[2..][..n], rest[2..][n..])
    else ("", rest)
  }

  /** `?query` and `#fragment`, each if there. */
  function SplitTail(tail: string): (string, string) {
    if tail != "" && tail[0] == '?' then
      var m := Until(tail[1..], QUERY_ENDS);
      (tail[1..][..m], if m < |tail[1..]| then tail[1..][m + 1..] else "")
    else ("", if tail != "" then tail[1..] else "")
  }

  function SplitPath(scheme: string, netloc: string, rest: string): Parts {
    var n := Until(rest, PATH_ENDS);
    var (query, fragment) := SplitTail(rest[n..]);
    Parts(scheme, netloc, rest[..n], query, fragment)
  }

  function Split(dsn: string): Parts {
    var (scheme, rest) := SplitScheme(dsn);
    var (netloc, path) := SplitNetloc(rest);
    SplitPath(scheme, netloc, path)
  }

  function UnsplitPath(p: Parts): string {
    p.path + Tail(p.query, p.fragment)
  }

  function Tail(query: string, fragment: string): string {
    (if query != "" then "?" + query else "") + (if fragment != "" then "#" + fragment else "")
  }

  /** With a network location: its slashes, and a slash before a path that lacks one. */
  function Unsplit(p: Parts): string {
    var slash := if p.netloc != "" && p.path != "" && p.path[0] != '/' then "/" else "";
    var lead := if p.netloc != "" || "//" <= p.path then "//" + p.netloc else "";
    (if p.scheme != "" then p.scheme + ":" else "") + lead + slash + UnsplitPath(p)
  }

  /** Parts as `urlsplit` can return them, with a network location. */
  ghost predicate Regular(p: Parts) {
    && (p.scheme == "" || (IsScheme(p.scheme) && Lower(p.scheme) == p.scheme))
    && Free(p.netloc, NETLOC_ENDS) && p.netloc != ""
    && Free(p.path, PATH_ENDS)
    && Free(p.query, QUERY_ENDS)
  }

  /** The path an unsplit URI is read back with. */
  function Rooted(path: string): string {
    if path == "" || path[0] == '/' then path else "/" + path
  }

  lemma SplitJoinedTail(query: string, fragment: string)
    requires Free(query, QUERY_ENDS)
    ensures SplitTail(Tail(query, fragment)) == (query, fragment)
    ensures Tail(query, fragment) != "" ==> Tail(query, fragment)[0] in PATH_ENDS
  {
    var f := if fragment != "" then "#" + fragment else "";
    if query != "" {
      var tail := "?" + query + f;
      assert Tail(query, fragment) == tail && tail[1..] == query + f;
      UntilIs(query, f, QUERY_ENDS);
      assert (query + f)[..|query|] == query;
      hide Until, Free;
      assert fragment != "" ==> (query + f)[|query| + 1..] == fragment;
    } else {
      assert Tail(query, fragment) == f;
      assert fragment != "" ==> f[0] == '#' && f[1..] == fragment;
    }
  }

  lemma SplitUnsplitPath(p: Parts)
    requires Free(p.path, PATH_ENDS) && Free(p.query, QUERY_ENDS)
    ensures SplitPath(p.scheme, p.netloc, UnsplitPath(p)) == p
  {
    var tail := Tail(p.query, p.fragment);
    SplitJoinedTail(p.query, p.fragment);
    hide Tail, SplitTail, Free;
    UntilIs(p.path, tail, PATH_ENDS);
    assert (p.path + tail)[|p.path|..] == tail && (p.path + tail)[..|p.path|] == p.path;
    hide Until;
  }

  lemma SplitUnsplitNetloc(netloc: string, rest: string)
    requires Free(netloc, NETLOC_ENDS) && (rest == "" || rest[0] in NETLOC_ENDS)
    ensures SplitNetloc("//" + netloc + rest) == (netloc, rest)
  {
    var s := "//" + netloc + rest;
    assert s[2..] == netloc + rest;
    UntilIs(netloc, rest, NETLOC_ENDS);
    hide Until, Free;
  }

  lemma SplitUnsplitScheme(scheme: string, rest: string)
    requires scheme == "" || (IsScheme(scheme) && Lower(scheme) == scheme)
    requires scheme == "" ==> "//" <= rest
    ensures SplitScheme((if scheme != "" then scheme + ":" else "") + rest) == (scheme, rest)
  {
    if scheme == "" {
      assert "" + rest == rest && rest[0] == '/';
      assert !IsSchemeChar('/');
      var n := Until(rest, COLON);
      assert n > 0 ==> rest[..n][0] == '/';
    } else {
      assert Free(scheme, COLON) by {
        assert !IsSchemeChar(':');
      }
      assert scheme + ":" + rest == scheme + (":" + rest);
      UntilIs(scheme, ":" + rest, COLON);
      assert (scheme + ":" + rest)[..|scheme|] == scheme;
    }
    hide Until, Free, IsScheme;
  }

  lemma UnsplitShape(p: Parts)
    requires p.netloc != ""
    ensures Unsplit(p) ==
      (if p.scheme != "" then p.scheme + ":" else "") + ("//" + p.netloc + UnsplitPath(p.(path := Rooted(p.path))))
  {
    hide Tail;
  }

  lemma RootedStart(p: Parts)
    requires Free(p.path, PATH_ENDS)
    ensures var r := p.(path := Rooted(p.path));
      Free(r.path, PATH_ENDS) && (UnsplitPath(r) != "" ==> UnsplitPath(r)[0] in NETLOC_ENDS)
  {
    var r := p.(path := Rooted(p.path));
    assert '/' !in PATH_ENDS;
    assert r.path == p.path || r.path == "/" + p.path;
    var tail := Tail(p.query, p.fragment);
    assert tail != "" ==> tail[0] in PATH_ENDS;
    hide Tail, Free;
    assert r.path == "" ==> UnsplitPath(r) == tail;
  }

  /** Splitting undoes unsplitting, save that a path without a slash gains one. */
  lemma SplitUnsplit(p: Parts)
    requires Regular(p)
    ensures Split(Unsplit(p)) == p.(path := Rooted(p.path))
  {
    var r := p.(path := Rooted(p.path));
    RootedStart(p);
    UnsplitShape(p);
    hide Until, Free, IsScheme, UnsplitPath, Lower, Rooted, Unsplit, SplitPath, SplitScheme, SplitNetloc;
    SplitUnsplitScheme(p.scheme, "//" + p.netloc + UnsplitPath(r));
    SplitUnsplitNetloc(p.netloc, UnsplitPath(r));
    SplitUnsplitPath(r);
  }

  lemma LowerScheme(s: string)
    requires IsScheme(s)
    ensures IsScheme(Lower(s)) && Lower(Lower(s)) == Lower(s)
  {
    var t := Lower(s);
    forall i | 0 <= i < |t| ensures IsSchemeChar(t[i]) && LowerChar(t[i]) == t[i] {
      assert IsSchemeChar(s[i]) && t[i] == LowerChar(s[i]);
    }
    assert IsLetter(t[0]);
  }

  lemma SchemeRegular(dsn: string)
    ensures var scheme := SplitScheme(dsn).0; scheme == "" || (IsScheme(scheme) && Lower(scheme) == scheme)
  {
    var n := Until(dsn, COLON);
    if n < |dsn| && IsScheme(dsn[..n]) {
      LowerScheme(dsn[..n]);
    }
    hide IsScheme, Lower, Until;
  }

  lemma NetlocRegular(rest: string)
    ensures var (netloc, path) := SplitNetloc(rest);
      Free(netloc, NETLOC_ENDS) && (netloc != "" && path != "" ==> path[0] in NETLOC_ENDS)
  {
    if "//" <= rest {
      UntilFree(rest[2..], NETLOC_ENDS);
    }
  }

  lemma PathRegular(scheme: string, netloc: string, rest: string)
    ensures var p := SplitPath(scheme, netloc, rest);
      && Free(p.path, PATH_ENDS) && Free(p.query, QUERY_ENDS)
      && (rest != "" && rest[0] in NETLOC_ENDS && p.path != "" ==> p.path[0] == '/')
      && (p.path != "" ==> rest != "")
  {
    UntilFree(rest, PATH_ENDS);
    var tail := rest[Until(rest, PATH_ENDS)..];
    hide Free;
    if tail != "" {
      UntilFree(tail[1..], QUERY_ENDS);
    }
    assert Free("", QUERY_ENDS);
  }

  /** What `urlsplit` returns is regular, but for a network location that may be missing. */
  lemma SplitRegular(dsn: string)
    ensures var p := Split(dsn);
      && (p.scheme == "" || (IsScheme(p.scheme) && Lower(p.scheme) == p.scheme))
      && Free(p.netloc, NETLOC_ENDS) && Free(p.path, PATH_ENDS) && Free(p.query, QUERY_ENDS)
      && (p.netloc != "" && p.path != "" ==> p.path[0] == '/')
  {
    var (scheme, rest) := SplitScheme(dsn);
    var (netloc, path) := SplitNetloc(rest);
    var p := SplitPath(scheme, netloc, path);
    assert Split(dsn) == p && p.scheme == scheme && p.netloc == netloc;
    hide *;
    SchemeRegular(dsn);
    NetlocRegular(rest);
    PathRegular(scheme, netloc, path);
  }

  // ---------------------------------------------------------------------------------
  // Percent-encoding of the UTF-8 bytes of a password

  type Byte = b: int | 0 <= b < 256

  predicate IsUnreserved(c: char) {
    IsLetter(c) || IsDigit(c) || c == '_' || c == '.' || c == '-' || c == '~'
  }

  function HexChar(d: int): (c: char)
    requires 0 <= d < 16
    ensures IsUnreserved(c)
  {
    if d < 10 then '0' + d as char else 'A' + (d - 10) as char
  }

  function HexValue(c: char): int {
    if '0' <= c <= '9' then c as int - '0' as int
    else if 'A' <= c <= 'F' then c as int - 'A' as int + 10
    else if 'a' <= c <= 'f' then c as int - 'a' as int + 10
    else -1
  }

  function QuoteByte(b: Byte): (s: string)
    ensures forall c | c in s :: IsUnreserved(c) || c == '%'
    ensures s != ""
  {
    if b < 128 && IsUnreserved(b as char) then [b as char] else ['%', HexChar(b / 16), HexChar(b % 16)]
  }

  /** `quote(password, safe="")` */
  function Quote(bytes: seq<Byte>): (s: string)
    ensures forall c | c in s :: IsUnreserved(c) || c == '%'
  {
    if bytes == [] then "" else QuoteByte(bytes[0]) + Quote(bytes[1..])
  }

  /** Percent-decoding: a `%` and two hex digits are one byte; every other ASCII character is its own byte. */
  function Unquote(s: string): seq<Byte>
    decreases |s|
  {
    if s == "" then []
    else if s[0] == '%' && |s| >= 3 && HexValue(s[1]) >= 0 && HexValue(s[2]) >= 0 then
      [16 * HexValue(s[1]) + HexValue(s[2])] + Unquote(s[3..])
    else (if s[0] as int < 256 then [s[0] as int] else []) + Unquote(s[1..])
  }

  lemma HexBack(d: int)
    requires 0 <= d < 16
    ensures HexValue(HexChar(d)) == d
  {
  }

  lemma UnquoteFirst(b: Byte, rest: string)
    ensures Unquote(QuoteByte(b) + rest) == [b] + Unquote(rest)
  {
    var s := QuoteByte(b) + rest;
    if b < 128 && IsUnreserved(b as char) {
      assert s == [b as char] + rest;
      assert s[1..] == rest;
    } else {
      HexBack(b / 16);
      HexBack(b % 16);
      assert s[1] == HexChar(b / 16) && s[2] == HexChar(b % 16) && s[3..] == rest;
    }
  }

  /** The encoding undoes itself, byte for byte. */
  lemma {:induction false} UnquoteQuote(bytes: seq<Byte>)
    ensures Unquote(Quote(bytes)) == bytes
  {
    if bytes != [] {
      UnquoteQuote(bytes[1..]);
      UnquoteFirst(bytes[0], Quote(bytes[1..]));
    }
  }

  lemma QuoteFree(bytes: seq<Byte>)
    ensures Free(Quote(bytes), NETLOC_ENDS) && Free(Quote(bytes), {'@'}) && Free(Quote(bytes), COLON)
  {
    assert !IsUnreserved('/') && !IsUnreserved('?') && !IsUnreserved('#') && !IsUnreserved('@') && !IsUnreserved(':');
  }

  // ---------------------------------------------------------------------------------
  // Userinfo

  /** `user:password@hostport`, as `urlsplit` reads a network location. */
  datatype Login = Login(user: string, password: Option<string>, hostport: string)

  function LoginOf(netloc: string): Login {
    var n := AfterLastAt(netloc);
    var userinfo := if n == 0 then "" else netloc[..n - 1];
    var k := Until(userinfo, COLON);
    Login(userinfo[..k], if k < |userinfo| then Some(userinfo[k + 1..]) else None, netloc[n..])
  }

  function NewNetloc(netloc: string, password: seq<Byte>): (r: string)
    ensures r != ""
  {
    var login := LoginOf(netloc);
    login.user + ":" + Quote(password) + "@" + login.hostport
  }

  function WithPassword(dsn: string, password: seq<Byte>): string {
    var parts := Split(dsn);
    Unsplit(parts.(netloc := NewNetloc(parts.netloc, password)))
  }

  function WithDatabase(dsn: string, database: string): string {
    Unsplit(Split(dsn).(path := "/" + database))
  }

  lemma LoginJoined(user: string, password: string, hostport: string)
    requires Free(user, COLON) && Free(hostport, {'@'})
    ensures LoginOf(user + ":" + password + "@" + hostport) == Login(user, Some(password), hostport)
  {
    var info := user + ":" + password;
    var netloc := info + "@" + hostport;
    AfterLastAtIs(info, hostport);
    assert netloc[..|info|] == info && netloc[|info| + 1..] == hostport;
    UserJoined(user, password);
    hide Until, AfterLastAt, Free;
  }

  lemma UserJoined(user: string, password: string)
    requires Free(user, COLON)
    ensures var info := user + ":" + password;
      Until(info, COLON) == |user| < |info| && info[..|user|] == user && info[|user| + 1..] == password
  {
    UntilIs(user, ":" + password, COLON);
    assert user + ":" + password == user + (":" + password);
    hide Until, Free;
  }

  lemma NewLogin(netloc: string, password: seq<Byte>)
    ensures LoginOf(NewNetloc(netloc, password)) == LoginOf(netloc).(password := Some(Quote(password)))
  {
    var login := LoginOf(netloc);
    var n := AfterLastAt(netloc);
    var userinfo := if n == 0 then "" else netloc[..n - 1];
    UntilFree(userinfo, COLON);
    assert Free(login.user, COLON) && Free(login.hostport, {'@'});
    assert NewNetloc(netloc, password) == login.user + ":" + Quote(password) + "@" + login.hostport;
    hide *;
    LoginJoined(login.user, Quote(password), login.hostport);
  }

  lemma NewNetlocFree(netloc: string, password: seq<Byte>)
    requires Free(netloc, NETLOC_ENDS)
    ensures Free(NewNetloc(netloc, password), NETLOC_ENDS)
  {
    QuoteFree(password);
    var login := LoginOf(netloc);
    var n := AfterLastAt(netloc);
    assert forall c | c in login.hostport :: c in netloc;
    assert forall c | c in login.user :: c in netloc;
    assert ':' !in NETLOC_ENDS && '@' !in NETLOC_ENDS;
    hide LoginOf, Quote, AfterLastAt;
  }

  lemma PasswordSplit(dsn: string, password: seq<Byte>)
    ensures var p := Split(dsn);
      Split(WithPassword(dsn, password)) == p.(netloc := NewNetloc(p.netloc, password), path := Rooted(p.path))
  {
    var p := Split(dsn);
    SplitRegular(dsn);
    NewNetlocFree(p.netloc, password);
    hide Split, NewNetloc, Unsplit, Free, IsScheme, Lower, Rooted;
    SplitUnsplit(p.(netloc := NewNetloc(p.netloc, password)));
  }

  /**
   * Rewriting the password of any DSN leaves its scheme, user, host and port, query and fragment as they
   * were, and puts in a password that decodes to exactly the one given. The path is kept just when it is
   * empty or starts with a slash, as it is for every DSN that names a network location.
   */
  lemma PasswordLaw(dsn: string, password: seq<Byte>)
    ensures var p, q := Split(dsn), Split(WithPassword(dsn, password));
      && q.scheme == p.scheme && q.query == p.query && q.fragment == p.fragment
      && LoginOf(q.netloc).user == LoginOf(p.netloc).user && LoginOf(q.netloc).hostport == LoginOf(p.netloc).hostport
      && LoginOf(q.netloc).password.Some? && Unquote(LoginOf(q.netloc).password.value) == password
      && (q.path == p.path <==> p.path == "" || p.path[0] == '/')
      && (p.netloc != "" ==> q.path == p.path)
  {
    PasswordSplit(dsn, password);
    SplitRegular(dsn);
    NewLogin(Split(dsn).netloc, password);
    UnquoteQuote(password);
    hide Split, WithPassword, LoginOf, Free, IsScheme, Lower, NewNetloc, Quote, Unquote;
  }

  /** Only the last rewrite of the password shows. */
  lemma PasswordOverwrites(dsn: string, first: seq<Byte>, second: seq<Byte>)
    ensures WithPassword(WithPassword(dsn, first), second) == WithPassword(dsn, second)
  {
    var p := Split(dsn);
    PasswordSplit(dsn, first);
    NewLogin(p.netloc, first);
    assert NewNetloc(NewNetloc(p.netloc, first), second) == NewNetloc(p.netloc, second);
    var netloc := NewNetloc(p.netloc, second);
    hide Split, LoginOf, NewNetloc, Unsplit, UnsplitPath;
    UnsplitShape(p.(netloc := netloc));
    UnsplitShape(p.(netloc := netloc, path := Rooted(p.path)));
  }

  /** Rewriting the database of a DSN that names a network location changes the path and nothing else. */
  lemma DatabaseLaw(dsn: string, database: string)
    requires Split(dsn).netloc != "" && Free(database, PATH_ENDS)
    ensures Split(WithDatabase(dsn, database)) == Split(dsn).(path := "/" + database)
  {
    var p := Split(dsn).(path := "/" + database);
    SplitRegular(dsn);
    assert Free(p.path, PATH_ENDS) by {
      assert '/' !in PATH_ENDS;
    }
    hide Split, Unsplit, Free, IsScheme, Lower;
    SplitUnsplit(p);
  }

  // ---------------------------------------------------------------------------------
  // Roles

  datatype Role = Admin | Exchange | TrustRw | BuyerVault | App


  /** `overrides`: the role's `$PROXYSHOP_PG_DSN_*`; `seeded`: `$PROXYSHOP_ROLE_PASSWORD`. Empty is unset. */
  datatype Environment = Environment(overrides: string, seeded: seq<Byte>, host: string, port: string)

  function UserOf(role: Role): string {
    match role
    case Admin => "proxyshop"
    case Exchange => "exchange"
    case TrustRw => "trust_rw"
    case BuyerVault => "buyer_vault"
    case App => "app"
  }

  function Ascii(s: string): seq<Byte>
    requires forall i | 0 <= i < |s| :: s[i] as int < 128
  {
    seq(|s|, i requires 0 <= i < |s| => s[i] as int)
  }

  function Fallback(role: Role): (r: seq<Byte>)
    ensures r != []
  {
    if role == Admin then Ascii("proxyshop_dev_pw") else Ascii("x")
  }

  function DefaultDsn(role: Role, env: Environment): string {
    "postgresql://" + UserOf(role) + "@" + env.host + ":" + env.port + "/" + PREFIX + "0"
  }

  /** Whether `urlsplit` sees a non-empty password. */
  predicate Carries(dsn: string) {
    var password := LoginOf(Split(dsn).netloc).password;
    password.Some? && password.value != ""
  }

  /** `None`: keep the DSN's own. */
  function RolePassword(role: Role, env: Environment, dsn: string): Option<seq<Byte>> {
    if role != Admin && env.seeded != [] then Some(env.seeded)
    else if Carries(dsn) then None
    else Some(Fallback(role))
  }

  function WithRolePassword(role: Role, env: Environment, dsn: string): string {
    match RolePassword(role, env, dsn)
    case None => dsn
    case Some(password) => WithPassword(dsn, password)
  }

  function RoleDsn(role: Role, worker: int, env: Environment, database: string): string {
    var base := if env.overrides != "" then env.overrides else DefaultDsn(role, env);
    WithDatabase(WithRolePassword(role, env, base), if database != "" then database else DatabaseName(worker))
  }

  lemma QuoteSome(bytes: seq<Byte>)
    requires bytes != []
    ensures Quote(bytes) != ""
  {
  }

  lemma CarriedNetloc(dsn: string)
    requires Carries(dsn)
    ensures Split(dsn).netloc != ""
  {
    assert LoginOf("").password == None;
  }

  /**
   * After filling in, a DSN always carries a password: the seeded one for a seeded role that has one, else
   * its own untouched, else the fallback; and it names a network location, so the database can be put in.
   */
  lemma RolePasswordLaw(role: Role, env: Environment, dsn: string)
    ensures var out := WithRolePassword(role, env, dsn);
      && Carries(out) && Split(out).netloc != ""
      && (role != Admin && env.seeded != [] ==> Unquote(LoginOf(Split(out).netloc).password.value) == env.seeded)
      && ((role == Admin || env.seeded == []) && Carries(dsn) ==> out == dsn)
      && ((role == Admin || env.seeded == []) && !Carries(dsn) ==>
        Unquote(LoginOf(Split(out).netloc).password.value) == Fallback(role))
  {
    match RolePassword(role, env, dsn)
    case None => CarriedNetloc(dsn);
    case Some(password) =>
      PasswordLaw(dsn, password);
      PasswordSplit(dsn, password);
      NewLogin(Split(dsn).netloc, password);
      QuoteSome(password);
      hide Split, WithPassword, LoginOf, Quote, Unquote, NewNetloc;
  }

  lemma NameFree(worker: int)
    ensures Free(DatabaseName(worker), PATH_ENDS)
  {
    var t := IntText(worker);
    assert !IsDigit('?') && !IsDigit('#');
    assert forall c | c in PREFIX :: c !in PATH_ENDS;
    hide IntText;
  }

  /** Every role's DSN for a worker names that worker's own database, whatever database a shared override named. */
  lemma RoleDsnDatabase(role: Role, worker: int, env: Environment)
    ensures Split(RoleDsn(role, worker, env, "")).path == "/" + DatabaseName(worker)
  {
    var base := if env.overrides != "" then env.overrides else DefaultDsn(role, env);
    RolePasswordLaw(role, env, base);
    NameFree(worker);
    hide Split, WithRolePassword, DatabaseName, Carries, Free, LoginOf, DefaultDsn;
    DatabaseLaw(WithRolePassword(role, env, base), DatabaseName(worker));
  }

  /** What a role's DSN starts from keeps its scheme, user, host and port, query and fragment. */
  lemma RoleDsnLogin(role: Role, worker: int, env: Environment)
    ensures var base := if env.overrides != "" then env.overrides else DefaultDsn(role, env);
      var p, q := Split(base), Split(RoleDsn(role, worker, env, ""));
      && q.scheme == p.scheme && q.query == p.query && q.fragment == p.fragment
      && LoginOf(q.netloc).user == LoginOf(p.netloc).user && LoginOf(q.netloc).hostport == LoginOf(p.netloc).hostport
  {
    var base := if env.overrides != "" then env.overrides else DefaultDsn(role, env);
    RolePasswordLaw(role, env, base);
    NameFree(worker);
    match RolePassword(role, env, base) {
      case None =>
      case Some(password) => PasswordLaw(base, password);
    }
    hide Split, WithPassword, RolePassword, DatabaseName, Carries, Free, LoginOf, DefaultDsn;
    DatabaseLaw(WithRolePassword(role, env, base), DatabaseName(worker));
  }

  lemma UserLogin(user: string, hostport: string)
    requires Free(user, COLON) && Free(hostport, {'@'})
    ensures LoginOf(user + "@" + hostport) == Login(user, None, hostport)
  {
    AfterLastAtIs(user, hostport);
    assert (user + "@" + hostport)[..|user|] == user;
    assert (user + "@" + hostport)[|user| + 1..] == hostport;
    UntilIs(user, "", COLON);
    assert user + "" == user;
    hide Until, AfterLastAt, Free;
  }

  lemma DefaultUnsplit(netloc: string, path: string)
    requires netloc != "" && path != "" && path[0] == '/'
    ensures Unsplit(Parts("postgresql", netloc, path, "", "")) == "postgresql://" + netloc + path
  {
    var p := Parts("postgresql", netloc, path, "", "");
    UnsplitShape(p);
    assert UnsplitPath(p) == path;
    assert "postgresql" + ":" + ("//" + netloc + path) == "postgresql://" + netloc + path;
  }

  lemma DefaultSplit(netloc: string, path: string)
    requires Free(netloc, NETLOC_ENDS) && netloc != "" && Free(path, PATH_ENDS) && path != "" && path[0] == '/'
    ensures Split("postgresql://" + netloc + path) == Parts("postgresql", netloc, path, "", "")
  {
    var p := Parts("postgresql", netloc, path, "", "");
    assert IsScheme(p.scheme) && Lower(p.scheme) == p.scheme && Regular(p);
    hide Split, Unsplit, Regular, Free;
    DefaultUnsplit(netloc, path);
    SplitUnsplit(p);
  }

  lemma UserFree(role: Role)
    ensures Free(UserOf(role), COLON) && Free(UserOf(role), NETLOC_ENDS)
  {
  }

  lemma DefaultFree(user: string, hostport: string)
    requires Free(user, NETLOC_ENDS) && Free(hostport, {'@'} + NETLOC_ENDS)
    ensures Free(user + "@" + hostport, NETLOC_ENDS) && Free(hostport, {'@'}) && Free("/" + PREFIX + "0", PATH_ENDS)
  {
  }

  /**
   * The default: the role's own user at $PGHOST and $PG_PORT. (A host or port with a delimiter of the URI in it is
   * read back as something else.)
   */
  lemma DefaultLogin(role: Role, worker: int, env: Environment)
    requires env.overrides == "" && Free(env.host + ":" + env.port, {'@'} + NETLOC_ENDS)
    ensures var q := Split(RoleDsn(role, worker, env, ""));
      && q.scheme == "postgresql" && q.query == "" && q.fragment == ""
      && LoginOf(q.netloc).hostport == env.host + ":" + env.port
      && LoginOf(q.netloc).user == match role {
           case Admin => "proxyshop"
           case Exchange => "exchange"
           case TrustRw => "trust_rw"
           case BuyerVault => "buyer_vault"
           case App => "app"
         }
  {
    var user, hostport := UserOf(role), env.host + ":" + env.port;
    var netloc, path := user + "@" + hostport, "/" + PREFIX + "0";
    UserFree(role);
    DefaultFree(user, env.host + ":" + env.port);
    assert DefaultDsn(role, env) == "postgresql://" + netloc + path;
    hide RoleDsn, DefaultDsn, Split, LoginOf, Free;
    DefaultSplit(netloc, path);
    UserLogin(user, hostport);
    RoleDsnLogin(role, worker, env);
  }

  /** Two workers never share a database, whatever their roles and whatever their environments say. */
  lemma WorkersApart(v: int, w: int, role: Role, other: Role, env: Environment, elsewhere: Environment)
    requires Split(RoleDsn(role, v, env, "")).path == Split(RoleDsn(other, w, elsewhere, "")).path
    ensures v == w
  {
    RoleDsnDatabase(role, v, env);
    RoleDsnDatabase(other, w, elsewhere);
    hide *;
    Slashed(DatabaseName(v), DatabaseName(w));
    NamesApart(v, w);
  }

  lemma Slashed(a: string, b: string)
    requires "/" + a == "/" + b
    ensures a == b
  {
    assert ("/" + a)[1..] == a && ("/" + b)[1..] == b;
  }

  lemma NamesApart(v: int, w: int)
    requires DatabaseName(v) == DatabaseName(w)
    ensures v == w
  {
    assert DatabaseName(v)[|PREFIX|..] == IntText(v) && DatabaseName(w)[|PREFIX|..] == IntText(w);
    hide IntText;
    IntTextInjective(v, w);
  }

  /** A libpq keyword string is no URI: its settings end up in the path, behind an empty host. */
  lemma KeywordDsnBreaks(password: seq<Byte>, rest: string)
    requires Free(rest, {':', '?', '#'})
    ensures var p, q := Split("host=db " + rest), Split(WithPassword("host=db " + rest, password));
      p.netloc == "" && p.path == "host=db " + rest && q.path == "/" + p.path && LoginOf(q.netloc).hostport == ""
  {
    var dsn := "host=db " + rest;
    assert Free(dsn, COLON) && Free(dsn, PATH_ENDS) by {
      assert forall c | c in dsn :: c in "host=db " || c in rest;
    }
    assert dsn + "" == dsn;
    UntilIs(dsn, "", COLON);
    UntilIs(dsn, "", PATH_ENDS);
    assert dsn[0] == 'h';
    assert SplitScheme(dsn) == ("", dsn) && SplitNetloc(dsn) == ("", dsn);
    assert dsn[..|dsn|] == dsn;
    PasswordSplit(dsn, password);
    NewLogin("", password);
    hide WithPassword, NewNetloc, Until, Free;
  }
}