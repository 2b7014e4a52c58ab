/** Disposable worker databases: database_dsn and the class WorkerDatabases of
    scripts/ops/cloud-build-fallback/postgres_workers.py:102-213. A script, which may be any, says of each command sent
    to the server whether it fails, and if so before or after it took effect. */
module WorkerDatabases {
  import opened Faults

  type Database = string
  type Worker = string

  datatype Option<+T> = None | Some(value: T)

  // Connection strings

  /** What the driver read from a validated connection string; the host is a loopback address. */
  datatype Parameters = Parameters(host: string, port: string, user: string, password: string, options: string)

  predicate Unreserved(c: char) {
    'a' <= c <= 'z' || 'A' <= c <= 'Z' || '0' <= c <= '9' || c == '_' || c == '.' || c == '-' || c == '~'
  }

  function Hex(n: nat): string
    requires n < 16
  {
    [if n < 10 then ('0' as int + n) as char else ('A' as int + n - 10) as char]
  }

  /** quote(text, safe=""), for single-byte characters; others become several such groups. */
  function Quote(text: string): string {
    if text == "" then ""
    else
      (if Unreserved(text[0]) then [text[0]]
       else "%" + Hex(text[0] as int / 16 % 16) + Hex(text[0] as int % 16)) + Quote(text[1..])
  }

  predicate Separator(c: char) { c == '/' || c == '?' || c == '#' }

  /** No character that would end a part of a URL. */
  ghost predicate Plain(text: string) { forall c | c in text :: !Separator(c) }

  ghost predicate PlainSource(p: Parameters) { Plain(p.host) && Plain(p.port) }

  ghost predicate Name(text: string) { forall c | c in text :: Unreserved(c) }

  function Netloc(p: Parameters): string {
    var host := if ':' in p.host then "[" + p.host + "]" else p.host;
    var password := if p.password == "" then "" else ":" + Quote(p.password);
    var credentials := Quote(p.user) + password;
    (if credentials == "" then "" else credentials + "@") + host + ":" + p.port
  }

  const SCHEME := "postgresql://"

  /** database_dsn. */
  function DatabaseDsn(p: Parameters, database: Database, plainUrl: bool): string {
    SCHEME + Netloc(p) + "/" + Quote(database) + (if plainUrl then "" else "?" + p.options)
  }

  function UpTo(text: string): nat
    ensures UpTo(text) <= |text|
  {
    if text == "" || Separator(text[0]) then 0 else 1 + UpTo(text[1..])
  }

  /** urlsplit(url).path, for the URLs of this scheme. */
  function UrlPath(url: string): string {
    if |url| < |SCHEME| then ""
    else
      var rest := url[|SCHEME|..];
      var path := rest[UpTo(rest)..];
      if path == "" || path[0] != '/' then "" else "/" + path[1..][..UpTo(path[1..])]
  }

  /** urlsplit(url).netloc. */
  ghost function UrlNetloc(url: string): string {
    if |url| < |SCHEME| then "" else url[|SCHEME|..][..UpTo(url[|SCHEME|..])]
  }

  /** urlsplit(url).path.removeprefix("/"), for a path of one segment. */
  function DatabaseOf(url: string): Database { if UrlPath(url) == "" then "" else UrlPath(url)[1..] }

  lemma {:induction false} QuoteIsPlain(text: string)
    ensures Plain(Quote(text))
  {
    if text != "" { QuoteIsPlain(text[1..]); }
  }

  lemma {:induction false} QuoteKeeps(text: string)
    requires forall c | c in text :: Unreserved(c)
    ensures Quote(text) == text
  {
    if text != "" {
      assert text[0] in text && text == [text[0]] + text[1..];
      forall c | c in text[1..] ensures Unreserved(c) { assert c in text; }
      QuoteKeeps(text[1..]);
    }
  }

  lemma {:induction false} UpToPlain(text: string, rest: string)
    requires Plain(text) && (rest == "" || Separator(rest[0]))
    ensures UpTo(text + rest) == |text|
  {
    if text != "" {
      assert text[0] in text && (text + rest)[1..] == text[1..] + rest;
      forall c | c in text[1..] ensures !Separator(c) { assert c in text; }
      UpToPlain(text[1..], rest);
    } else {
      assert text + rest == rest;
    }
  }

  lemma NetlocIsPlain(p: Parameters)
    requires Plain(p.host) && Plain(p.port)
    ensures Plain(Netloc(p))
  {
    QuoteIsPlain(p.user);
    QuoteIsPlain(p.password);
  }

  /** The database is read back from its connection string, whatever the credentials and options hold. */
  lemma DsnRoundTrip(p: Parameters, database: Database, plainUrl: bool)
    requires PlainSource(p) && Name(database)
    ensures DatabaseOf(DatabaseDsn(p, database, plainUrl)) == database
    ensures UrlNetloc(DatabaseDsn(p, database, plainUrl)) == Netloc(p)
  {
    hide Netloc, Quote;
    NetlocIsPlain(p);
    QuoteKeeps(database);
    QuoteIsPlain(database);
    var tail := if plainUrl then "" else "?" + p.options;
    var url := DatabaseDsn(p, database, plainUrl);
    var after := "/" + database + tail;
    assert url == SCHEME + Netloc(p) + "/" + database + tail;
    assert url[|SCHEME|..] == Netloc(p) + after;
    UpToPlain(Netloc(p), after);
    assert (Netloc(p) + after)[|Netloc(p)|..] == after && (Netloc(p) + after)[..|Netloc(p)|] == Netloc(p);
    assert after[1..] == database + tail;
    UpToPlain(database, tail);
    assert (database + tail)[..|database|] == database;
    assert ("/" + database)[1..] == database;
  }

  // The other parts of a connection string

  /** The first place of a character, or the length. */
  ghost function First(text: string, c: char): nat
    ensures First(text, c) <= |text|
  {
    if text == "" || text[0] == c then 0 else 1 + First(text[1..], c)
  }

  /** text.partition(c): what comes before the first such character, and what comes after it. */
  ghost function Before(text: string, c: char): string { text[..First(text, c)] }

  ghost function After(text: string, c: char): string {
    if First(text, c) == |text| then "" else text[First(text, c) + 1..]
  }

  /** text.rpartition("@"). */
  ghost function HostInfo(netloc: string): string
    decreases |netloc|
  {
    if '@' in netloc then HostInfo(After(netloc, '@')) else netloc
  }

  ghost function UserInfo(netloc: string): string {
    if '@' in netloc && |HostInfo(netloc)| + 1 <= |netloc| then netloc[..|netloc| - |HostInfo(netloc)| - 1] else ""
  }

  ghost function HexValue(c: char): nat {
    if '0' <= c <= '9' then c as int - '0' as int else if 'A' <= c <= 'F' then c as int - 'A' as int + 10 else 0
  }

  /** unquote(text), for single-byte characters. */
  ghost function Unquote(text: string): string {
    if text == "" then ""
    else if text[0] == '%' && |text| >= 3
    then [(HexValue(text[1]) % 16 * 16 + HexValue(text[2]) % 16) as char] + Unquote(text[3..])
    else [text[0]] + Unquote(text[1..])
  }

  /** The user, the password, the host and the port of a network location, as the drivers read them. */
  ghost function UserOf(netloc: string): string { Unquote(Before(UserInfo(netloc), ':')) }

  ghost function PasswordOf(netloc: string): string { Unquote(After(UserInfo(netloc), ':')) }

  ghost function HostOf(netloc: string): string {
    var info := HostInfo(netloc);
    if '[' in info then Before(After(info, '['), ']') else Before(info, ':')
  }

  ghost function PortOf(netloc: string): string {
    var info := HostInfo(netloc);
    if '[' in info then After(After(After(info, '['), ']'), ':') else After(info, ':')
  }

  ghost predicate SingleByte(text: string) { forall c | c in text :: c as int < 256 }

  /** No character that has a meaning in a network location, but for the colons of an address. */
  ghost predicate HostLike(text: string) { forall c | c in text :: c !in {'@', '[', ']'} }

  lemma {:induction false} FirstIs(text: string, c: char, rest: string)
    requires c !in text
    ensures First(text + [c] + rest, c) == |text| && First(text, c) == |text|
    ensures Before(text + [c] + rest, c) == text && After(text + [c] + rest, c) == rest
    ensures Before(text, c) == text && After(text, c) == ""
  {
    var whole := text + [c] + rest;
    if text != "" {
      FirstIs(text[1..], c, rest);
      assert whole[1..] == text[1..] + [c] + rest;
    }
    assert whole[..|text|] == text && whole[|text| + 1..] == rest;
  }

  lemma {:induction false} QuotedChars(text: string, c: char)
    requires c in Quote(text)
    ensures Unreserved(c) || c == '%'
  {
    if text != "" && c in Quote(text[1..]) { QuotedChars(text[1..], c); }
  }

  lemma NotQuoted(text: string)
    ensures '@' !in Quote(text) && ':' !in Quote(text)
  {
    if '@' in Quote(text) { QuotedChars(text, '@'); }
    if ':' in Quote(text) { QuotedChars(text, ':'); }
  }

  lemma HexBack(n: nat)
    requires n < 16
    ensures |Hex(n)| == 1 && HexValue(Hex(n)[0]) == n
  {
  }

  lemma ByteBack(c: char)
    requires c as int < 256
    ensures (c as int / 16 % 16) % 16 * 16 + (c as int % 16) % 16 == c as int
  {
  }

  lemma EscapeBack(c: char, rest: string)
    requires c as int < 256
    ensures Unquote("%" + Hex(c as int / 16 % 16) + Hex(c as int % 16) + rest) == [c] + Unquote(rest)
  {
    HexBack(c as int / 16 % 16);
    HexBack(c as int % 16);
    ByteBack(c);
    hide Hex, HexValue;
    var high, low := Hex(c as int / 16 % 16), Hex(c as int % 16);
    var q := "%" + high + low + rest;
    assert q[0] == '%' && q[1] == high[0] && q[2] == low[0] && q[3..] == rest;
  }

  lemma PlainBack(c: char, rest: string)
    requires Unreserved(c)
    ensures Unquote([c] + rest) == [c] + Unquote(rest)
  {
    assert ([c] + rest)[1..] == rest;
  }

  lemma {:induction false} UnquoteQuote(text: string)
    requires SingleByte(text)
    ensures Unquote(Quote(text)) == text
  {
    hide Unquote, Hex, Unreserved;
    if text == "" {
      UnquoteNothing();
    } else {
      assert text[0] in text && forall c | c in text[1..] :: c in text;
      UnquoteQuote(text[1..]);
      assert text == [text[0]] + text[1..];
      if Unreserved(text[0]) { PlainBack(text[0], Quote(text[1..])); } else { EscapeBack(text[0], Quote(text[1..])); }
    }
  }

  /** The host and the port of what a connection string has after its credentials. */
  lemma HostBack(host: string, port: string)
    requires HostLike(host) && ':' !in port && HostLike(port)
    ensures var info := (if ':' in host then "[" + host + "]" else host) + ":" + port;
            '@' !in info && HostOf(info) == host && PortOf(info) == port
  {
    hide First, Before, After, HostInfo, HostOf, PortOf;
    var info := (if ':' in host then "[" + host + "]" else host) + ":" + port;
    forall c | c in info ensures c != '@' { assert c in host || c in port || c in "[]:"; }
    if ':' in host { BracketedBack(host, port, info); } else { BareBack(host, port, info); }
  }

  lemma BracketedBack(host: string, port: string, info: string)
    requires HostLike(host) && info == "[" + host + "]" + ":" + port && '@' !in info
    ensures HostOf(info) == host && PortOf(info) == port
  {
    hide First, Before, After;
    var inner := host + "]" + (":" + port);
    assert info == "" + ['['] + inner && info[0] == '[';
    FirstIs("", '[', inner);
    assert inner == host + [']'] + (":" + port);
    FirstIs(host, ']', ":" + port);
    assert ":" + port == "" + [':'] + port;
    FirstIs("", ':', port);
  }

  lemma BareBack(host: string, port: string, info: string)
    requires HostLike(host) && HostLike(port) && ':' !in host && info == host + ":" + port && '@' !in info
    ensures HostOf(info) == host && PortOf(info) == port
  {
    hide First, Before, After;
    assert info == host + [':'] + port;
    forall c | c in info ensures c != '[' { assert c in host || c in port || c == ':'; }
    FirstIs(host, ':', port);
  }

  lemma SplitAt(credentials: string, info: string)
    requires '@' !in credentials && '@' !in info
    ensures HostInfo(credentials + "@" + info) == info && UserInfo(credentials + "@" + info) == credentials
    ensures HostInfo(info) == info && UserInfo(info) == ""
  {
    var netloc := credentials + "@" + info;
    assert netloc == credentials + ['@'] + info;
    FirstIs(credentials, '@', info);
    assert netloc[|credentials|] == '@';
    assert netloc[..|credentials|] == credentials;
  }

  /** Whoever the connection string is for reads the same user, password, host and port back from it. */
  lemma CredentialsRoundTrip(p: Parameters)
    requires SingleByte(p.user) && SingleByte(p.password)
    requires HostLike(p.host) && HostLike(p.port) && ':' !in p.port
    ensures UserOf(Netloc(p)) == p.user && PasswordOf(Netloc(p)) == p.password
    ensures HostOf(Netloc(p)) == p.host && PortOf(Netloc(p)) == p.port
  {
    hide Unquote, Quote, First, HostInfo, UserInfo, Before, After, HostOf, PortOf, Netloc, UserOf, PasswordOf;
    var credentials, info := NetlocParts(p);
    HostBack(p.host, p.port);
    NotQuoted(p.user);
    NotQuoted(p.password);
    CredentialsBack(p, credentials);
    SplitAt(credentials, info);
    UserBack(p, credentials, Netloc(p));
    SameHost(Netloc(p), info);
  }

  lemma NetlocParts(p: Parameters) returns (credentials: string, info: string)
    ensures credentials == Quote(p.user) + if p.password == "" then "" else ":" + Quote(p.password)
    ensures info == (if ':' in p.host then "[" + p.host + "]" else p.host) + ":" + p.port
    ensures Netloc(p) == if credentials == "" then info else credentials + "@" + info
  {
    hide Quote;
    credentials := Quote(p.user) + if p.password == "" then "" else ":" + Quote(p.password);
    info := (if ':' in p.host then "[" + p.host + "]" else p.host) + ":" + p.port;
    assert credentials != "" ==> Netloc(p) == credentials + "@" + info;
    assert credentials == "" ==> Netloc(p) == info;
  }

  lemma UserBack(p: Parameters, credentials: string, netloc: string)
    requires SingleByte(p.user) && SingleByte(p.password) && UserInfo(netloc) == credentials
    requires Before(credentials, ':') == Quote(p.user)
    requires After(credentials, ':') == if p.password == "" then "" else Quote(p.password)
    ensures UserOf(netloc) == p.user && PasswordOf(netloc) == p.password
  {
    hide Quote, Unquote, First, UserInfo, Before, After;
    UnquoteQuote(p.user);
    UnquoteQuote(p.password);
    UnquoteNothing();
  }

  lemma UnquoteNothing()
    ensures Unquote("") == ""
  {
  }

  lemma CredentialsBack(p: Parameters, credentials: string)
    requires '@' !in Quote(p.user) && ':' !in Quote(p.user) && '@' !in Quote(p.password)
    requires credentials == Quote(p.user) + if p.password == "" then "" else ":" + Quote(p.password)
    ensures '@' !in credentials && Before(credentials, ':') == Quote(p.user)
    ensures After(credentials, ':') == if p.password == "" then "" else Quote(p.password)
  {
    hide Quote, First, Before, After;
    FirstIs(Quote(p.user), ':', Quote(p.password));
    assert p.password != "" ==> credentials == Quote(p.user) + [':'] + Quote(p.password);
    assert p.password == "" ==> credentials == Quote(p.user);
  }

  lemma SameHost(netloc: string, info: string)
    requires HostInfo(netloc) == HostInfo(info)
    ensures HostOf(netloc) == HostOf(info) && PortOf(netloc) == PortOf(info)
  {
    hide HostInfo;
  }

  // The databases

  datatype Sources = Sources(wm: Parameters, fnd: Parameters, smarti: Parameters)

  /** The connection strings a worker gets. */
  datatype Assigned = Assigned(wm: string, fnd: string, smarti: string)

  ghost function Databases(a: Assigned): set<Database> { {DatabaseOf(a.fnd), DatabaseOf(a.smarti)} }

  // The server

  datatype Kind = Creating | Dropping

  datatype Call = Call(kind: Kind, database: Database, fault: Fault)
  {
    /** A CREATE that is reported as failed although the database is there. */
    ghost predicate Leaks() { kind.Creating? && fault.FailsAfter? }

    /** A DROP that is reported as failed although the database is gone. */
    ghost predicate Vanishes() { kind.Dropping? && fault.FailsAfter? }
  }

  ghost function Issued(calls: seq<Call>): set<Database> { set c | c in calls && c.kind.Creating? :: c.database }

  ghost function Leaked(calls: seq<Call>): set<Database> { set c | c in calls && c.Leaks() :: c.database }

  ghost function Vanished(calls: seq<Call>): set<Database> { set c | c in calls && c.Vanishes() :: c.database }

  /** Every command fell out as scripted, unless it could not be carried out at all. */
  ghost predicate Follows(calls: seq<Call>, script: seq<Fault>) {
    forall i | 0 <= i < |calls| :: calls[i].fault == Scripted(script, i) || calls[i].fault.FailsBefore?
  }

  /** Since there were `n` calls, a DROP of this database was sent and reported as failed. */
  ghost predicate Refused(calls: seq<Call>, n: nat, database: Database) {
    exists i | n <= i < |calls| ::
      calls[i].kind.Dropping? && calls[i].database == database && !calls[i].fault.Succeeds?
  }

  lemma RefusedOn(a: seq<Call>, b: seq<Call>, n: nat, m: nat, database: Database)
    requires Refused(a, n, database) && a <= b && m <= n
    ensures Refused(b, m, database)
  {
    var i :| n <= i < |a| && a[i].kind.Dropping? && a[i].database == database && !a[i].fault.Succeeds?;
    assert b[i] == a[i];
  }

  lemma OneMoreCall(calls: seq<Call>, c: Call)
    ensures Issued(calls + [c]) == Issued(calls) + if c.kind.Creating? then {c.database} else {}
    ensures Leaked(calls + [c]) == Leaked(calls) + if c.Leaks() then {c.database} else {}
    ensures Vanished(calls + [c]) == Vanished(calls) + if c.Vanishes() then {c.database} else {}
  {
    var more := calls + [c];
    assert more[|calls|] == c && forall i | 0 <= i < |calls| :: more[i] == calls[i];
    assert forall d :: d in more <==> d in calls || d == c;
  }

  lemma FollowsOn(calls: seq<Call>, script: seq<Fault>, c: Call)
    requires Follows(calls, script) && (c.fault == Scripted(script, |calls|) || c.fault.FailsBefore?)
    ensures Follows(calls + [c], script)
  {
  }

  lemma NoneLeaked(calls: seq<Call>)
    ensures Leaked(calls) == {} <==> forall c | c in calls :: !c.Leaks()
    ensures Vanished(calls) == {} <==> forall c | c in calls :: !c.Vanishes()
  {
    forall c | c in calls && c.Leaks() ensures c.database in Leaked(calls) { }
    forall c | c in calls && c.Vanishes() ensures c.database in Vanished(calls) { }
  }

  function Fnd(suffix: string): Database { "fallback_" + suffix }

  function Smarti(suffix: string): Database { "smarti_" + suffix }

  lemma FamiliesDiffer(suffix: string)
    ensures Fnd(suffix) != Smarti(suffix)
  {
    assert Fnd(suffix)[0] == 'f' && Smarti(suffix)[0] == 's';
  }

  lemma GivenNames(sources: Sources, suffix: string)
    requires PlainSource(sources.fnd) && PlainSource(sources.smarti) && Name(suffix)
    ensures Databases(Assigned(DatabaseDsn(sources.wm, "wm_test", false), DatabaseDsn(sources.fnd, Fnd(suffix), false),
                               DatabaseDsn(sources.smarti, Smarti(suffix), true))) == {Fnd(suffix), Smarti(suffix)}
  {
    hide DatabaseOf, DatabaseDsn, Name, PlainSource;
    NameParts("fallback_", suffix);
    NameParts("smarti_", suffix);
    DsnRoundTrip(sources.fnd, Fnd(suffix), false);
    DsnRoundTrip(sources.smarti, Smarti(suffix), true);
  }

  class Pool {
    const sources: Sources
    const script: seq<Fault>
    var created: map<Database, Parameters>
    var workers: map<Worker, Assigned>
    /** The databases on the server, and the commands it was sent. */
    var existing: set<Database>
    var calls: seq<Call>

    /** The list of databases is wrong exactly about those whose CREATE or DROP failed after it had taken effect. */
    ghost predicate Exact()
      reads this
    {
      && existing - created.Keys == Leaked(calls) && created.Keys - existing == Vanished(calls)
      && existing + created.Keys <= Issued(calls)
    }

    /** And every cached assignment names databases that are still listed. */
    ghost predicate Valid()
      reads this
    {
      && PlainSource(sources.fnd) && PlainSource(sources.smarti) && Exact() && Follows(calls, script)
      && (forall w | w in workers :: Databases(workers[w]) <= created.Keys)
    }

    constructor (sources: Sources, script: seq<Fault>)
      requires PlainSource(sources.fnd) && PlainSource(sources.smarti)
      ensures Valid() && this.sources == sources && this.script == script
      ensures created == map[] && workers == map[] && existing == {} && calls == []
    {
      this.sources, this.script, created, workers, existing, calls := sources, script, map[], map[], {}, [];
    }

    /** How the next command falls out: one that is not possible fails. */
    function Outcome(possible: bool): Fault
      reads this
    {
      if possible then Scripted(script, |calls|) else FailsBefore
    }

    /** CREATE DATABASE, which fails for a database that exists. */
    method Create(database: Database) returns (ok: bool)
      modifies this`existing, this`calls
      ensures ok == old(Outcome(database !in existing)).Succeeds?
      ensures calls == old(calls) + [Call(Creating, database, old(Outcome(database !in existing)))]
      ensures existing == if old(Outcome(database !in existing)).FailsBefore? then old(existing)
                          else old(existing) + {database}
    {
      var fault := Outcome(database !in existing);
      calls := calls + [Call(Creating, database, fault)];
      if fault != FailsBefore { existing := existing + {database}; }
      ok := fault == Succeeds;
    }

    /** DROP DATABASE ... WITH (FORCE), which fails for a database that does not exist. */
    method Drop(database: Database) returns (ok: bool)
      modifies this`existing, this`calls
      ensures ok == old(Outcome(database in existing)).Succeeds?
      ensures calls == old(calls) + [Call(Dropping, database, old(Outcome(database in existing)))]
      ensures existing == if old(Outcome(database in existing)).FailsBefore? then old(existing)
                          else old(existing) - {database}
    {
      var fault := Outcome(database in existing);
      calls := calls + [Call(Dropping, database, fault)];
      if fault != FailsBefore { existing := existing - {database}; }
      ok := fault == Succeeds;
    }

    /** One pass of the first loop of close. */
    method DropOne(database: Database) returns (ok: bool)
      requires Exact() && Follows(calls, script)
      modifies this`created, this`existing, this`calls
      ensures Exact() && Follows(calls, script)
      ensures Leaked(calls) == Leaked(old(calls)) && Issued(calls) == Issued(old(calls))
      ensures Vanished(old(calls)) <= Vanished(calls) && old(calls) <= calls
      ensures !ok && database in old(created) ==> Refused(calls, |old(calls)|, database)
      ensures created == if ok then old(created) - {database} else old(created)
      ensures ok ==> database in old(created) && database in old(existing)
    {
      hide Issued, Leaked, Vanished, Follows;
      ok := database in created;
      if ok {
        FollowsOn(calls, script, Call(Dropping, database, Outcome(database in existing)));
        OneMoreCall(calls, Call(Dropping, database, Outcome(database in existing)));
        ok := Drop(database);
        assert calls[|old(calls)|].database == database;
        if ok { created := created - {database}; }
      }
    }

    /** The first loop of close: each database that could be dropped leaves `created`. */
    method DropAll(databases: seq<Database>) returns (failures: seq<Database>)
      requires Exact() && Follows(calls, script)
      modifies this`created, this`existing, this`calls
      ensures Exact() && Follows(calls, script)
      ensures Leaked(calls) == Leaked(old(calls)) && Issued(calls) == Issued(old(calls))
      ensures Vanished(old(calls)) <= Vanished(calls) && old(calls) <= calls
      ensures forall d | d in databases && d in created :: Refused(calls, |old(calls)|, d)
      ensures created.Keys <= old(created).Keys && forall d | d in created :: created[d] == old(created)[d]
      ensures forall d :: d in old(created) && d !in databases ==> d in created
      ensures failures == [] ==> forall d | d in databases :: d !in created
      ensures forall d | d in old(created) && d in databases && d in created :: d in failures
    {
      hide Exact, Follows, Issued, Leaked, Vanished, Refused;
      failures := [];
      for i := 0 to |databases|
        invariant Exact() && Follows(calls, script)
        invariant Leaked(calls) == Leaked(old(calls)) && Issued(calls) == Issued(old(calls))
        invariant Vanished(old(calls)) <= Vanished(calls) && old(calls) <= calls
        invariant forall d | d in databases[..i] && d in created :: Refused(calls, |old(calls)|, d)
        invariant created.Keys <= old(created).Keys && forall d | d in created :: created[d] == old(created)[d]
        invariant forall d :: d in old(created) && d !in databases[..i] ==> d in created
        invariant forall d | d in databases[..i] && d in created :: d in failures
      {
        var database := databases[i];
        assert databases[..i + 1] == databases[..i] + [database];
        ghost var before := calls;
        var ok := DropOne(database);
        if !ok { failures := failures + [database]; }
        forall d | d in databases[..i + 1] && d in created ensures Refused(calls, |old(calls)|, d) {
          if d == database {
            RefusedOn(calls, calls, |before|, |old(calls)|, d);
          } else {
            RefusedOn(before, calls, |old(calls)|, |old(calls)|, d);
          }
        }
      }
      assert databases[..|databases|] == databases;
    }

    /** The second loop of close: assignments whose databases are gone are forgotten. */
    method Prune()
      modifies this`workers
      ensures workers == map w | w in old(workers) && Databases(old(workers)[w]) <= created.Keys :: old(workers)[w]
    {
      var todo := workers.Keys;
      ghost var before := workers;
      while todo != {}
        invariant todo <= before.Keys && workers.Keys <= before.Keys
        invariant forall w | w in workers :: workers[w] == before[w]
        invariant forall w | w in before :: w in workers <==> w in todo || Databases(before[w]) <= created.Keys
        decreases todo
      {
        var w :| w in todo;
        if DatabaseOf(workers[w].fnd) !in created || DatabaseOf(workers[w].smarti) !in created {
          workers := workers - {w};
        }
        todo := todo - {w};
      }
    }

    /** Some order of the keys of `created`. */
    method Keys() returns (keys: seq<Database>)
      ensures forall d :: d in keys <==> d in created
    {
      keys := [];
      var todo := created.Keys;
      while todo != {}
        invariant todo <= created.Keys && forall d :: d in keys <==> d in created && d !in todo
        decreases todo
      {
        var d :| d in todo;
        keys, todo := keys + [d], todo - {d};
      }
    }

    /** close: without an error nothing is left but what failed CREATEs leaked, which cannot happen any more once a DROP
        failed after its effect; after an error every database that could not be dropped is still listed. */
    method Close(databases: Option<seq<Database>>) returns (ok: bool)
      requires Valid()
      modifies this`created, this`workers, this`existing, this`calls
      ensures Valid() && created.Keys <= old(created).Keys
      ensures Leaked(calls) == Leaked(old(calls)) && Issued(calls) == Issued(old(calls)) && old(calls) <= calls
      ensures forall d | d in created && (databases.None? || d in databases.value) :: Refused(calls, |old(calls)|, d)
      ensures forall w | w in workers :: w in old(workers) && workers[w] == old(workers)[w]
      ensures databases.None? && ok ==> created == map[] && workers == map[] && existing == Leaked(calls)
      ensures databases.None? && Vanished(old(calls)) != {} ==> !ok
      ensures databases.Some? ==> forall d :: d in old(created) && d !in databases.value ==> d in created
      ensures databases.Some? && ok ==>
                forall d | d in databases.value :: d !in created && (d in existing ==> d in Leaked(calls))
    {
      hide Follows, Issued, Leaked, Vanished, Refused, DatabaseOf;
      var list;
      if databases.None? { list := Keys(); } else { list := databases.value; }
      var failures := DropAll(list);
      Prune();
      ok := failures == [];
      if databases.None? && ok {
        assert created == map[];
        assert forall w | w in workers :: DatabaseOf(workers[w].fnd) in Databases(workers[w]);
      }
    }

    /** One CREATE of allocate, with its exception handler: a database on the list, or everything dropped but what the
        server refused to drop. */
    method CreateOne(database: Database, p: Parameters) returns (ok: bool)
      requires Valid() && database !in Issued(calls)
      modifies this
      ensures Valid() && Issued(calls) == Issued(old(calls)) + {database}
      ensures ok == old(Outcome(true)).Succeeds?
      ensures ok ==> created == old(created)[database := p] && workers == old(workers)
                     && existing == old(existing) + {database} && Leaked(calls) == Leaked(old(calls))
      ensures !ok ==> created.Keys <= old(created).Keys && forall w | w in workers :: w in old(workers)
      ensures !ok ==> forall d | d in created :: Refused(calls, |old(calls)|, d)
      ensures old(calls) <= calls
      ensures !ok ==> Leaked(calls) == Leaked(old(calls)) + if old(Outcome(true)).FailsAfter? then {database} else {}
    {
      hide Issued, Leaked, Vanished, Databases, Follows, Refused;
      FollowsOn(calls, script, Call(Creating, database, Outcome(true)));
      OneMoreCall(calls, Call(Creating, database, Outcome(true)));
      ok := Create(database);
      if ok {
        created := created[database := p];
      } else {
        ghost var before := calls;
        var closed := Close(None);
        forall d | d in created ensures Refused(calls, |old(calls)|, d) {
          RefusedOn(calls, calls, |before|, |old(calls)|, d);
        }
      }
    }

    /** The suffix is drawn afresh. */
    ghost predicate FreshNames(suffix: string)
      reads this
    {
      Fnd(suffix) !in Issued(calls) && Smarti(suffix) !in Issued(calls)
    }

    /** Both databases of a worker, or none of the workers' databases. */
    method CreatePair(suffix: string) returns (ok: bool)
      requires Valid() && FreshNames(suffix)
      modifies this
      ensures Valid() && Leaked(old(calls)) <= Leaked(calls)
      ensures Issued(calls) <= Issued(old(calls)) + {Fnd(suffix), Smarti(suffix)}
      ensures ok ==> workers == old(workers) && Leaked(calls) == Leaked(old(calls))
      ensures ok ==> created.Keys == old(created).Keys + {Fnd(suffix), Smarti(suffix)}
      ensures ok ==> existing == old(existing) + {Fnd(suffix), Smarti(suffix)}
      ensures !ok ==> created.Keys <= old(created).Keys + {Fnd(suffix)}
      ensures !ok ==> forall w | w in workers :: w in old(workers)
      ensures !ok ==> forall d | d in created :: Refused(calls, |old(calls)|, d)
      ensures old(Outcome(true)).FailsAfter? ==> !ok && Leaked(calls) == Leaked(old(calls)) + {Fnd(suffix)}
    {
      hide Fnd, Smarti, Databases, PlainSource, Issued, Leaked, Vanished, Follows, Exact, Refused;
      FamiliesDiffer(suffix);
      ok := CreateOne(Fnd(suffix), sources.fnd);
      if !ok { return; }
      ghost var before := calls;
      ok := CreateOne(Smarti(suffix), sources.smarti);
      if !ok {
        forall d | d in created ensures Refused(calls, |old(calls)|, d) {
          RefusedOn(calls, calls, |before|, |old(calls)|, d);
        }
      }
    }

    /** The connection strings of a worker whose databases are there. */
    method Remember(worker: Worker, suffix: string) returns (given: Assigned)
      requires Valid() && Name(suffix) && Fnd(suffix) in created && Smarti(suffix) in created
      modifies this`workers
      ensures Valid() && workers == old(workers)[worker := given] && Databases(given) == {Fnd(suffix), Smarti(suffix)}
    {
      hide Fnd, Smarti, DatabaseOf, DatabaseDsn, Name, PlainSource, Databases, Issued, Leaked, Vanished, Follows;
      given := Assigned(DatabaseDsn(sources.wm, "wm_test", false), DatabaseDsn(sources.fnd, Fnd(suffix), false),
                        DatabaseDsn(sources.smarti, Smarti(suffix), true));
      GivenNames(sources, suffix);
      workers := workers[worker := given];
    }

    /** allocate: a worker keeps its databases; a new one gets two fresh databases it can reach; and a failure drops
        everything. The first CREATE leaks its database if it fails after its effect. */
    method Allocate(worker: Worker, suffix: string) returns (ok: bool, given: Assigned)
      requires Valid() && Name(suffix) && FreshNames(suffix)
      modifies this
      ensures Valid() && Issued(calls) <= Issued(old(calls)) + {Fnd(suffix), Smarti(suffix)}
      ensures worker in old(workers) ==>
                && ok && given == old(workers)[worker] && workers == old(workers)
                && created == old(created) && calls == old(calls)
      ensures ok && worker !in old(workers) ==>
                && workers == old(workers)[worker := given] && Databases(given) == {Fnd(suffix), Smarti(suffix)}
                && created.Keys == old(created).Keys + Databases(given)
                && existing == old(existing) + Databases(given) && Leaked(calls) == Leaked(old(calls))
      ensures !ok ==> worker !in workers && created.Keys <= old(created).Keys + {Fnd(suffix)}
      ensures !ok ==> forall d | d in created :: Refused(calls, |old(calls)|, d)
      ensures worker !in old(workers) && old(Outcome(true)).FailsAfter? ==>
                !ok && Leaked(calls) == Leaked(old(calls)) + {Fnd(suffix)}
    {
      hide Fnd, Smarti, Databases, PlainSource, Issued, Leaked, Vanished, Follows, Exact, Refused;
      if worker in workers { return true, workers[worker]; }
      given := Assigned("", "", "");
      ok := CreatePair(suffix);
      if ok { given := Remember(worker, suffix); }
    }
  }

  lemma NameParts(prefix: string, suffix: string)
    requires Name(suffix) && prefix in {"fallback_", "smarti_"}
    ensures Name(prefix + suffix)
  {
  }

  // Whole runs

  datatype Action = Allocating(worker: Worker, suffix: string) | Closing(databases: Option<seq<Database>>)

  /** The suffixes are names, each drawn afresh. */
  ghost predicate FreshSuffixes(actions: seq<Action>) {
    && (forall i | 0 <= i < |actions| && actions[i].Allocating? :: Name(actions[i].suffix))
    && (forall i, j | 0 <= i < j < |actions| && actions[i].Allocating? && actions[j].Allocating? ::
          actions[i].suffix != actions[j].suffix)
  }

  lemma NamesApart(a: string, b: string)
    requires a != b
    ensures {Fnd(a), Smarti(a)} !! {Fnd(b), Smarti(b)}
  {
    assert Fnd(a)[|"fallback_"|..] == a && Fnd(b)[|"fallback_"|..] == b;
    assert Smarti(a)[|"smarti_"|..] == a && Smarti(b)[|"smarti_"|..] == b;
    assert Fnd(a)[0] == Fnd(b)[0] == 'f' && Smarti(a)[0] == Smarti(b)[0] == 's';
  }

  /** Any allocations and closings, with any script of faults. What is on the server is listed exactly when no CREATE
      failed after its effect, and what is listed is there exactly when no DROP did. */
  method Run(sources: Sources, script: seq<Fault>, actions: seq<Action>)
    returns (server: set<Database>, listed: set<Database>, calls: seq<Call>)
    requires PlainSource(sources.fnd) && PlainSource(sources.smarti) && FreshSuffixes(actions)
    ensures Follows(calls, script)
    ensures server <= listed <==> forall c | c in calls :: !c.Leaks()
    ensures listed <= server <==> forall c | c in calls :: !c.Vanishes()
  {
    hide Fnd, Smarti, Databases, PlainSource, Issued, Leaked, Vanished, Follows, Name;
    var pool := new Pool(sources, script);
    assert Issued([]) == {} by { NothingIssued(); }
    for i := 0 to |actions|
      invariant fresh(pool) && pool.Valid() && pool.script == script
      invariant forall k | i <= k < |actions| && actions[k].Allocating? :: pool.FreshNames(actions[k].suffix)
    {
      match actions[i]
      case Allocating(worker, suffix) =>
        forall k | i < k < |actions| && actions[k].Allocating?
          ensures {Fnd(suffix), Smarti(suffix)} !! {Fnd(actions[k].suffix), Smarti(actions[k].suffix)}
        {
          NamesApart(suffix, actions[k].suffix);
        }
        var ok, given := pool.Allocate(worker, suffix);
      case Closing(databases) =>
        var ok := pool.Close(databases);
    }
    server, listed, calls := pool.existing, pool.created.Keys, pool.calls;
    NoneLeaked(calls);
    NothingBetween(server, listed);
    NothingBetween(listed, server);
  }

  lemma NothingBetween(a: set<Database>, b: set<Database>)
    ensures a <= b <==> a - b == {}
  {
    forall d | d in a && d !in b ensures d in a - b { }
  }

  lemma NothingIssued()
    ensures Issued([]) == {}
  {
  }

  /** The shortest run that loses a database: the first CREATE fails after its effect, and the list is empty. */
  method LeakingRun(sources: Sources, worker: Worker, suffix: string)
    returns (server: set<Database>, listed: set<Database>)
    requires PlainSource(sources.fnd) && PlainSource(sources.smarti) && Name(suffix)
    ensures server == {Fnd(suffix)} && listed == {}
  {
    hide Fnd, Smarti, Databases, PlainSource, Follows, Name;
    var pool := new Pool(sources, [FailsAfter]);
    var ok, given := pool.Allocate(worker, suffix);
    server, listed := pool.existing, pool.created.Keys;
  }
}
