/** The configuration, its document and its store (src/config/mod.rs). */
module Config {
  import opened Wrappers
  import opened Text

  // ---------------------------------------------------------------------------
  // Data

  datatype AuthorizationPolicyConfig = AuthorizationPolicyConfig(
    allowLocalForwarding: Option<bool>, allowRemoteForwarding: Option<bool>,
    allowSftp: Option<bool>, allowScp: Option<bool>)
  {
    predicate HasExplicitEntries() {
      allowLocalForwarding.Some? || allowRemoteForwarding.Some? || allowSftp.Some? || allowScp.Some?
    }

    function Resolve(): EffectiveAuthorizationPolicy {
      EffectiveAuthorizationPolicy(OrElse(allowLocalForwarding, false), OrElse(allowRemoteForwarding, false),
                                   OrElse(allowSftp, true), OrElse(allowScp, true))
    }
  }

  const NO_POLICY: AuthorizationPolicyConfig := AuthorizationPolicyConfig(None, None, None, None)

  datatype EffectiveAuthorizationPolicy = EffectiveAuthorizationPolicy(
    allowLocalForwarding: bool, allowRemoteForwarding: bool, allowSftp: bool, allowScp: bool)

  datatype UserRecord = UserRecord(
    name: string, password: string, totpSecret: Option<string>, mustChangePassword: bool,
    allowedServers: seq<string>, authorization: AuthorizationPolicyConfig)

  datatype SettingsConfig = SettingsConfig(
    whitelistPath: Option<string>, perUserPerServer: Option<bool>, dropToMenu: Option<bool>,
    hideProxyIp: Option<bool>, enforcePasswordPolicy: Option<bool>, minPasswordPolicy: Option<nat>)

  type Policies = map<string, map<string, AuthorizationPolicyConfig>>

  /** `kex` and `fail2ban` stand for the sections that other modules interpret. */
  datatype Sections = Sections(settings: SettingsConfig, policies: Policies, kex: string, fail2ban: Option<string>)

  datatype ConfigFile = ConfigFile(users: seq<UserRecord>, sections: Sections)

  type Servers = map<string, string>

  function OrElse<T>(x: Option<T>, y: T): T {
    if x.Some? then x.value else y
  }

  /** Foreign checks: Argon2 hash syntax, TOTP secrets, IP literals, and two config sections. */
  datatype Checks = Checks(
    parsesHash: string -> bool, validSecret: string -> bool, parsesIp: string -> bool,
    kexOk: string -> bool, fail2banOk: (string, Option<string>) -> bool)

  // ---------------------------------------------------------------------------
  // Lookup and policy

  /** `iter().find(|user| user.name == name)`. */
  function FindUser(users: seq<UserRecord>, name: string): (r: Option<nat>)
    ensures r.Some? ==> r.value < |users| && users[r.value].name == name
    ensures r.Some? ==> forall i :: 0 <= i < r.value ==> users[i].name != name
    ensures r.None? ==> forall i :: 0 <= i < |users| ==> users[i].name != name
  {
    if users == [] then None
    else if users[0].name == name then Some(0)
    else match FindUser(users[1..], name) case None => None case Some(i) => Some(i + 1)
  }

  function KnownServers(names: seq<string>, servers: Servers): (r: seq<(string, string)>)
    ensures forall e <- r :: e.0 in names && e.0 in servers && servers[e.0] == e.1
  {
    if names == [] then []
    else (if names[0] in servers then [(names[0], servers[names[0]])] else []) + KnownServers(names[1..], servers)
  }

  /** The user's allowed servers that exist, with their hosts; `None` is a denied authorization. */
  function AllowedServerEntries(users: seq<UserRecord>, servers: Servers, name: string)
    : Option<seq<(string, string)>>
  {
    match FindUser(users, name)
    case None => None
    case Some(i) =>
      var entries := KnownServers(users[i].allowedServers, servers);
      if entries == [] then None else Some(entries)
  }

  function ResolveEffectiveAuthorizationPolicy(config: ConfigFile, name: string, target: string,
                                               perUserPerServer: bool): Option<EffectiveAuthorizationPolicy>
  {
    match FindUser(config.users, name)
    case None => None
    case Some(i) =>
      var policies := config.sections.policies;
      Some((if !perUserPerServer then config.users[i].authorization
            else if target in policies && name in policies[target] then policies[target][name]
            else NO_POLICY).Resolve())
  }

  // ---------------------------------------------------------------------------
  // Validation

  predicate IsHashFormat(password: string) {
    StartsWith(password, "$argon2id$")
  }

  predicate IsRejectedBootstrapPlaceholder(password: string) {
    password in ["TemporaryPassword123!", "AnotherTempPass123!",
                 "REPLACE_WITH_UNIQUE_TEMPORARY_PASSWORD", "CHANGE_ME_BEFORE_STARTING"]
  }

  predicate PasswordFieldOk(user: UserRecord, checks: Checks) {
    if IsHashFormat(user.password) then checks.parsesHash(user.password)
    else
      && Trim(user.password) != "" && !IsRejectedBootstrapPlaceholder(user.password)
      && Utf8Length(user.password) <= 256 && user.mustChangePassword
  }

  predicate IsValidComponent(name: string) {
    name != "" && Utf8Length(name) <= 64
    && forall c <- name :: IsAsciiAlphanumeric(c) || c == '.' || c == '_' || c == '-'
  }

  predicate IsHostLabel(part: string) {
    && part != "" && Utf8Length(part) <= 63 && part[0] != '-' && Last(part) != '-'
    && forall c <- part :: IsAsciiAlphanumeric(c) || c == '-'
  }

  predicate IsValidHostOrIp(value: string, checks: Checks) {
    checks.parsesIp(value)
    || (value != "" && Utf8Length(value) <= 253 && forall part <- SplitAll(value, '.') :: IsHostLabel(part))
  }

  predicate UniqueNames(users: seq<UserRecord>) {
    forall i, j :: 0 <= i < j < |users| ==> users[i].name != users[j].name
  }

  predicate UserOk(user: UserRecord, servers: Servers, checks: Checks) {
    && IsValidComponent(user.name) && PasswordFieldOk(user, checks)
    && (user.totpSecret.Some? ==> checks.validSecret(user.totpSecret.value))
    && user.allowedServers != [] && forall name <- user.allowedServers :: name in servers
  }

  predicate ServerOk(name: string, servers: Servers, checks: Checks)
    requires name in servers
  {
    IsValidComponent(name) && IsValidHostOrIp(servers[name], checks)
  }

  /** A policy for `server` and `name` concerns an existing user who may use that server. */
  predicate PolicyTargetOk(server: string, name: string, users: seq<UserRecord>) {
    IsValidComponent(name)
    && match FindUser(users, name) case None => false case Some(i) => server in users[i].allowedServers
  }

  predicate AuthorizationOk(config: ConfigFile, servers: Servers) {
    var policies := config.sections.policies;
    if OrElse(config.sections.settings.perUserPerServer, true) then
      && (forall i :: 0 <= i < |config.users| ==> !config.users[i].authorization.HasExplicitEntries())
      && forall server <- policies ::
           && server in servers && IsValidComponent(server)
           && forall name <- policies[server] :: PolicyTargetOk(server, name, config.users)
    else policies == map[]
  }

  predicate SectionsOk(sections: Sections, checks: Checks) {
    && (sections.fail2ban.Some? ==> checks.fail2banOk(sections.fail2ban.value, sections.settings.whitelistPath))
    && checks.kexOk(sections.kex)
    && (sections.settings.minPasswordPolicy.Some? ==> sections.settings.minPasswordPolicy.value <= 256)
  }

  /** What `validate_semantics` accepts. */
  predicate ValidConfig(config: ConfigFile, servers: Servers, checks: Checks) {
    && SectionsOk(config.sections, checks)
    && config.users != [] && servers != map[]
    && (forall name <- servers :: ServerOk(name, servers, checks))
    && UniqueNames(config.users)
    && (forall i :: 0 <= i < |config.users| ==> UserOk(config.users[i], servers, checks))
    && AuthorizationOk(config, servers)
  }

  datatype ConfigError =
    | BadSection | NoUsers | NoServers | BadServer | BadUserName | DuplicateUser | BadUser | BadPolicy
    | ParseFailed | InsecureFile | UserNotFound | NotTables | HashFailed | WriteFailed

  /** The loop of `validate_semantics` over the servers. */
  method ValidateServers(servers: Servers, checks: Checks) returns (ok: bool)
    ensures ok <==> forall name <- servers :: ServerOk(name, servers, checks)
  {
    var todo := servers.Keys;
    while todo != {}
      invariant todo <= servers.Keys
      invariant forall name <- servers :: name !in todo ==> ServerOk(name, servers, checks)
      decreases todo
    {
      var name :| name in todo;
      if !ServerOk(name, servers, checks) {
        return false;
      }
      todo := todo - {name};
    }
    return true;
  }

  lemma UniqueSnoc(users: seq<UserRecord>, i: nat)
    requires i < |users| && UniqueNames(users[..i]) && forall k :: 0 <= k < i ==> users[k].name != users[i].name
    ensures UniqueNames(users[..i + 1])
  {
  }

  /** The loop over the users. */
  method ValidateUsers(users: seq<UserRecord>, servers: Servers, checks: Checks) returns (r: Result<(), ConfigError>)
    ensures r.Ok? <==> UniqueNames(users) && forall i :: 0 <= i < |users| ==> UserOk(users[i], servers, checks)
  {
    var seenUsernames := {};
    for i := 0 to |users|
      invariant seenUsernames == set k | 0 <= k < i :: users[k].name
      invariant forall k :: 0 <= k < i ==> UserOk(users[k], servers, checks)
      invariant UniqueNames(users[..i])
    {
      var user := users[i];
      if !IsValidComponent(user.name) {
        return Err(BadUserName);
      }
      if user.name in seenUsernames {
        return Err(DuplicateUser);
      }
      UniqueSnoc(users, i);
      seenUsernames := seenUsernames + {user.name};
      if !UserOk(user, servers, checks) {
        return Err(BadUser);
      }
    }
    assert users[..|users|] == users;
    return Ok(());
  }

  method ValidateSemantics(config: ConfigFile, servers: Servers, checks: Checks)
    returns (r: Result<(), ConfigError>)
    ensures r.Ok? <==> ValidConfig(config, servers, checks)
  {
    if !SectionsOk(config.sections, checks) {
      return Err(BadSection);
    }
    if config.users == [] {
      return Err(NoUsers);
    }
    if servers == map[] {
      return Err(NoServers);
    }
    var serversOk := ValidateServers(servers, checks);
    if !serversOk {
      return Err(BadServer);
    }
    r := ValidateUsers(config.users, servers, checks);
    if r.Ok? && !AuthorizationOk(config, servers) {
      return Err(BadPolicy);
    }
  }

  // ---------------------------------------------------------------------------
  // The document

  datatype Item = Str(s: string) | Bool(b: bool) | Strs(ss: seq<string>) | Foreign

  /** The keys of a user's table. */
  datatype Key =
    | NameKey | PasswordKey | TotpSecretKey | MustChangePasswordKey | AllowedServersKey
    | AllowLocalForwardingKey | AllowRemoteForwardingKey | AllowSftpKey | AllowScpKey
    | OtherKey(text: string)

  type Table = map<Key, Item>

  /** `Tables` is `[[users]]`; an inline array parses alike but cannot be edited in place. */
  datatype UsersForm = Tables(tables: seq<Table>) | Inline(tables: seq<Table>)

  datatype Document = Document(users: UsersForm, sections: Sections)

  function GetStr(t: Table, key: Key): Option<string> {
    if key in t && t[key].Str? then Some(t[key].s) else None
  }

  /** Decoding of an optional field: absent, present, or of the wrong type. */
  function GetOptStr(t: Table, key: Key): Option<Option<string>> {
    if key !in t then Some(None) else if t[key].Str? then Some(Some(t[key].s)) else None
  }

  function GetOptBool(t: Table, key: Key): Option<Option<bool>> {
    if key !in t then Some(None) else if t[key].Bool? then Some(Some(t[key].b)) else None
  }

  function GetStrs(t: Table, key: Key): Option<seq<string>> {
    if key !in t then Some([]) else if t[key].Strs? then Some(t[key].ss) else None
  }

  function ParseAuthorization(t: Table): Option<AuthorizationPolicyConfig> {
    var a, b, c, d := GetOptBool(t, AllowLocalForwardingKey), GetOptBool(t, AllowRemoteForwardingKey),
                      GetOptBool(t, AllowSftpKey), GetOptBool(t, AllowScpKey);
    if a.None? || b.None? || c.None? || d.None? then None
    else Some(AuthorizationPolicyConfig(a.value, b.value, c.value, d.value))
  }

  function ParseUser(t: Table): Option<UserRecord> {
    var name, password, secret := GetStr(t, NameKey), GetStr(t, PasswordKey), GetOptStr(t, TotpSecretKey);
    var mustChange, allowed := GetOptBool(t, MustChangePasswordKey), GetStrs(t, AllowedServersKey);
    var authorization := ParseAuthorization(t);
    if name.None? || password.None? || secret.None? || mustChange.None? || allowed.None? || authorization.None?
    then None
    else Some(UserRecord(name.value, password.value, secret.value, OrElse(mustChange.value, false),
                         allowed.value, authorization.value))
  }

  function ParseUsers(tables: seq<Table>): (r: Option<seq<UserRecord>>)
    ensures r.Some? ==> |r.value| == |tables|
    ensures r.Some? ==> forall i :: 0 <= i < |tables| ==> ParseUser(tables[i]) == Some(r.value[i])
    ensures r.None? ==> exists i :: 0 <= i < |tables| && ParseUser(tables[i]).None?
  {
    if tables == [] then Some([])
    else
      var head, tail := ParseUser(tables[0]), ParseUsers(tables[1..]);
      if head.None? || tail.None? then None else Some([head.value] + tail.value)
  }

  function ParseConfig(document: Document): Option<ConfigFile> {
    match ParseUsers(document.users.tables)
    case None => None
    case Some(users) => Some(ConfigFile(users, document.sections))
  }

  /** The new credential values; absent ones are left alone. */
  datatype Update = Update(hash: Option<string>, secret: Option<string>, mustChange: Option<bool>)

  function SetItem(t: Table, key: Key, item: Option<Item>): Table {
    if item.Some? then t[key := item.value] else t
  }

  function UpdatedTable(t: Table, u: Update): Table {
    var t1 := SetItem(t, PasswordKey, if u.hash.Some? then Some(Str(u.hash.value)) else None);
    var t2 := SetItem(t1, TotpSecretKey, if u.secret.Some? then Some(Str(u.secret.value)) else None);
    SetItem(t2, MustChangePasswordKey, if u.mustChange.Some? then Some(Bool(u.mustChange.value)) else None)
  }

  function FindTable(tables: seq<Table>, name: string): (r: Option<nat>)
    ensures r.Some? ==> r.value < |tables| && GetStr(tables[r.value], NameKey) == Some(name)
    ensures r.Some? ==> forall i :: 0 <= i < r.value ==> GetStr(tables[i], NameKey) != Some(name)
    ensures r.None? ==> forall i :: 0 <= i < |tables| ==> GetStr(tables[i], NameKey) != Some(name)
  {
    if tables == [] then None
    else if GetStr(tables[0], NameKey) == Some(name) then Some(0)
    else match FindTable(tables[1..], name) case None => None case Some(i) => Some(i + 1)
  }

  function UpdateUserRecordInDocument(document: Document, name: string, u: Update): Result<Document, ConfigError> {
    if !document.users.Tables? then Err(NotTables)
    else match FindTable(document.users.tables, name)
      case None => Err(UserNotFound)
      case Some(i) =>
        var tables := document.users.tables;
        Ok(document.(users := Tables(tables[i := UpdatedTable(tables[i], u)])))
  }

  function UpdatedUser(user: UserRecord, u: Update): UserRecord {
    user.(password := OrElse(u.hash, user.password),
          totpSecret := if u.secret.Some? then u.secret else user.totpSecret,
          mustChangePassword := OrElse(u.mustChange, user.mustChangePassword))
  }

  function UpdatedUsers(users: seq<UserRecord>, name: string, u: Update): seq<UserRecord> {
    match FindUser(users, name)
    case None => users
    case Some(i) => users[i := UpdatedUser(users[i], u)]
  }

  predicate IsCredential(key: Key) {
    key == PasswordKey || key == TotpSecretKey || key == MustChangePasswordKey
  }

  /** Agreement on every key but the credentials, the unread ones included. */
  predicate SameButCredentials(t: Table, t': Table) {
    forall key <- t.Keys + t'.Keys :: !IsCredential(key) ==> key in t && key in t' && t[key] == t'[key]
  }

  /** `after` differs from `before` at most in the credentials of users among `names`. */
  predicate OnlyCredentialsOf(before: Document, after: Document, names: set<string>) {
    var from, to := before.users.tables, after.users.tables;
    && after.sections == before.sections && after.users.Tables? == before.users.Tables? && |to| == |from|
    && forall i :: 0 <= i < |from| ==>
         && SameButCredentials(from[i], to[i])
         && (to[i] == from[i] || (GetStr(from[i], NameKey).Some? && GetStr(from[i], NameKey).value in names))
  }

  /** Editing a document changes the credentials of the named user and nothing else. */
  lemma UpdateScope(document: Document, name: string, u: Update)
    requires UpdateUserRecordInDocument(document, name, u).Ok?
    ensures OnlyCredentialsOf(document, UpdateUserRecordInDocument(document, name, u).value, {name})
  {
    var i := FindTable(document.users.tables, name).value;
    assert SameButCredentials(document.users.tables[i], UpdatedTable(document.users.tables[i], u));
  }

  lemma ScopesCompose(a: Document, b: Document, c: Document, names: set<string>)
    requires OnlyCredentialsOf(a, b, names) && OnlyCredentialsOf(b, c, names)
    ensures OnlyCredentialsOf(a, c, names)
  {
    var x, y, z := a.users.tables, b.users.tables, c.users.tables;
    forall i | 0 <= i < |x|
      ensures SameButCredentials(x[i], z[i])
      ensures z[i] == x[i] || (GetStr(x[i], NameKey).Some? && GetStr(x[i], NameKey).value in names)
    {
      assert SameButCredentials(x[i], y[i]) && SameButCredentials(y[i], z[i]);
      assert GetStr(x[i], NameKey) == GetStr(y[i], NameKey);
    }
  }

  lemma OtherItemsStay(t: Table, u: Update, key: Key)
    requires !IsCredential(key)
    ensures key in UpdatedTable(t, u) <==> key in t
    ensures key in t ==> UpdatedTable(t, u)[key] == t[key]
  {
  }

  lemma AuthorizationStays(t: Table, u: Update)
    ensures ParseAuthorization(UpdatedTable(t, u)) == ParseAuthorization(t)
  {
    OtherItemsStay(t, u, AllowLocalForwardingKey);
    OtherItemsStay(t, u, AllowRemoteForwardingKey);
    OtherItemsStay(t, u, AllowSftpKey);
    OtherItemsStay(t, u, AllowScpKey);
  }

  lemma CredentialsSet(t: Table, u: Update)
    requires GetStr(t, PasswordKey).Some? && GetOptStr(t, TotpSecretKey).Some?
    requires GetOptBool(t, MustChangePasswordKey).Some?
    ensures var t' := UpdatedTable(t, u);
            && GetStr(t', PasswordKey) == Some(OrElse(u.hash, GetStr(t, PasswordKey).value))
            && GetOptStr(t', TotpSecretKey)
               == Some(if u.secret.Some? then u.secret else GetOptStr(t, TotpSecretKey).value)
            && GetOptBool(t', MustChangePasswordKey)
               == Some(if u.mustChange.Some? then u.mustChange else GetOptBool(t, MustChangePasswordKey).value)
  {
  }

  lemma UpdatedTableParses(t: Table, u: Update)
    requires ParseUser(t).Some?
    ensures ParseUser(UpdatedTable(t, u)) == Some(UpdatedUser(ParseUser(t).value, u))
  {
    AuthorizationStays(t, u);
    OtherItemsStay(t, u, NameKey);
    OtherItemsStay(t, u, AllowedServersKey);
    CredentialsSet(t, u);
    var t' := UpdatedTable(t, u);
    assert GetStr(t', NameKey) == GetStr(t, NameKey);
    assert GetStrs(t', AllowedServersKey) == GetStrs(t, AllowedServersKey);
  }

  lemma ParsedUsersUnique(tables: seq<Table>, users: seq<UserRecord>)
    requires |users| == |tables| && forall i :: 0 <= i < |tables| ==> ParseUser(tables[i]) == Some(users[i])
    ensures ParseUsers(tables) == Some(users)
  {
    assert ParseUsers(tables).Some? ==> ParseUsers(tables).value == users;
  }

  /** Editing the document and parsing it is updating the parsed user. */
  lemma DocumentUpdateParses(document: Document, name: string, u: Update)
    requires document.users.Tables? && ParseConfig(document).Some?
    ensures var users := ParseConfig(document).value.users;
            var updated := UpdateUserRecordInDocument(document, name, u);
            && (updated.Ok? <==> FindUser(users, name).Some?)
            && (updated.Ok? ==>
                  && updated.value.users.Tables?
                  && ParseConfig(updated.value)
                     == Some(ConfigFile(UpdatedUsers(users, name, u), document.sections)))
  {
    var tables, users := document.users.tables, ParseConfig(document).value.users;
    forall i | 0 <= i < |tables| ensures GetStr(tables[i], NameKey) == Some(users[i].name) {
      assert ParseUser(tables[i]) == Some(users[i]);
    }
    var at, found := FindTable(tables, name), FindUser(users, name);
    assert at == found;
    if at.Some? {
      var i := at.value;
      UpdatedTableParses(tables[i], u);
      ParsedUsersUnique(tables[i := UpdatedTable(tables[i], u)], users[i := UpdatedUser(users[i], u)]);
    }
  }

  // ---------------------------------------------------------------------------
  // Validity under updates

  lemma FindAfterUpdate(users: seq<UserRecord>, name: string, u: Update, other: string)
    ensures FindUser(UpdatedUsers(users, name, u), other) == FindUser(users, other)
  {
    var found, after := FindUser(users, other), FindUser(UpdatedUsers(users, name, u), other);
    assert forall i :: 0 <= i < |users| ==> UpdatedUsers(users, name, u)[i].name == users[i].name;
  }

  predicate WellFormedUpdate(u: Update, checks: Checks) {
    && (u.hash.Some? ==> IsHashFormat(u.hash.value) && checks.parsesHash(u.hash.value))
    && (u.secret.Some? ==> checks.validSecret(u.secret.value))
  }

  /** The update clears the change flag of a user whose stored password stays a bootstrap text. */
  predicate ClearsBootstrap(user: UserRecord, u: Update) {
    u.hash.None? && u.mustChange == Some(false) && !IsHashFormat(user.password)
  }

  /** With well-formed credentials, an update keeps the configuration valid except in one case:
      it clears the change flag of a user whose stored password is still a bootstrap text. */
  lemma UpdateKeepsValidExactly(config: ConfigFile, servers: Servers, checks: Checks, name: string, u: Update)
    requires ValidConfig(config, servers, checks) && FindUser(config.users, name).Some?
    requires WellFormedUpdate(u, checks)
    ensures ValidConfig(config.(users := UpdatedUsers(config.users, name, u)), servers, checks)
       <==> !ClearsBootstrap(config.users[FindUser(config.users, name).value], u)
  {
    var at := FindUser(config.users, name).value;
    var user := config.users[at];
    var after := config.(users := UpdatedUsers(config.users, name, u));
    forall server, other | server in config.sections.policies && other in config.sections.policies[server]
      ensures PolicyTargetOk(server, other, after.users) == PolicyTargetOk(server, other, config.users)
    {
      FindAfterUpdate(config.users, name, u, other);
    }
    assert UserOk(user, servers, checks);
    assert forall i :: 0 <= i < |after.users| && i != at ==> after.users[i] == config.users[i];
    assert after.users[at] == UpdatedUser(user, u);
    assert UserOk(after.users[at], servers, checks) <==> PasswordFieldOk(after.users[at], checks);
    assert AuthorizationOk(after, servers);
  }
}
