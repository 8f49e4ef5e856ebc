/** The configuration store (src/config/mod.rs): memory and the document on disk. */
module ConfigStore {
  import opened Wrappers
  import opened Config

  datatype EffectivePaths = EffectivePaths(
    whitelistPath: Option<string>, perUserPerServer: bool, dropToMenu: bool, hideProxyIp: bool)

  /** The command line wins over the file in four settings. */
  function Overridden(config: ConfigFile, paths: EffectivePaths): ConfigFile {
    config.(sections := config.sections.(settings := config.sections.settings.(
      whitelistPath := paths.whitelistPath, perUserPerServer := Some(paths.perUserPerServer),
      dropToMenu := Some(paths.dropToMenu), hideProxyIp := Some(paths.hideProxyIp))))
  }

  /** A bootstrap password is replaced by its hash and must be changed. */
  function MigratedUser(user: UserRecord, hash: Option<string>): (r: UserRecord)
    ensures IsHashFormat(user.password) ==> r == user
    ensures !IsHashFormat(user.password) ==>
      r == user.(password := OrElse(hash, user.password), mustChangePassword := true)
  {
    if IsHashFormat(user.password) then user else UpdatedUser(user, Update(hash, None, Some(true)))
  }

  /** The users when the first `n` have been migrated. */
  function Migrated(users: seq<UserRecord>, hashes: nat -> Option<string>, n: nat): (r: seq<UserRecord>)
    requires n <= |users|
    ensures |r| == |users|
    ensures forall i :: 0 <= i < n ==> r[i] == MigratedUser(users[i], hashes(i))
    ensures forall i :: n <= i < |users| ==> r[i] == users[i]
  {
    if n == 0 then users
    else
      var before := Migrated(users, hashes, n - 1);
      before[n - 1 := MigratedUser(users[n - 1], hashes(n - 1))]
  }

  ghost predicate DocumentHolds(document: Document, users: seq<UserRecord>, sections: Sections) {
    && document.users.Tables? && document.sections == sections
    && ParseConfig(document) == Some(ConfigFile(users, sections))
  }

  function BootstrapNames(users: seq<UserRecord>): set<string> {
    set i | 0 <= i < |users| && !IsHashFormat(users[i].password) :: users[i].name
  }

  /** The hashes of bootstrap passwords have the form that validation asks for. */
  ghost predicate WellFormedHashes(users: seq<UserRecord>, hashes: nat -> Option<string>, checks: Checks) {
    forall i: nat :: i < |users| && !IsHashFormat(users[i].password) ==>
      hashes(i).Some? && IsHashFormat(hashes(i).value) && checks.parsesHash(hashes(i).value)
  }

  /** Number of bootstrap passwords among the first `n` users. */
  function Bootstraps(users: seq<UserRecord>, n: nat): nat
    requires n <= |users|
  {
    if n == 0 then 0 else Bootstraps(users, n - 1) + (if IsHashFormat(users[n - 1].password) then 0 else 1)
  }

  class ConfigStore {
    const paths: EffectivePaths
    const checks: Checks
    var config: ConfigFile
    var servers: Servers
    /** The files on disk; `None` is text that does not parse. */
    var file: Option<Document>
    var serversFile: Option<Servers>

    /** Memory is what the document says, and the document can be edited. */
    ghost predicate Agrees()
      reads this
    {
      && file.Some? && file.value.users.Tables? && ParseConfig(file.value).Some?
      && config == Overridden(ParseConfig(file.value).value, paths)
    }

    ghost predicate Valid()
      reads this
    {
      Agrees() && ValidConfig(config, servers, checks)
    }

    constructor (paths: EffectivePaths, checks: Checks, config: ConfigFile, servers: Servers,
                 file: Option<Document>, serversFile: Option<Servers>)
      ensures this.paths == paths && this.checks == checks
      ensures this.config == config && this.servers == servers
      ensures this.file == file && this.serversFile == serversFile
    {
      this.paths, this.checks, this.config, this.servers := paths, checks, config, servers;
      this.file, this.serversFile := file, serversFile;
    }

    /** `secure` is the verdict of the ownership, mode and symlink checks. */
    method Reload(secure: bool) returns (r: Result<(), ConfigError>)
      modifies this`config, this`servers
      ensures r.Ok? <==>
        && file.Some? && ParseConfig(file.value).Some? && serversFile.Some? && secure
        && ValidConfig(Overridden(ParseConfig(file.value).value, paths), serversFile.value, checks)
      ensures r.Ok? ==> config == Overridden(ParseConfig(file.value).value, paths) && servers == serversFile.value
      ensures r.Ok? && file.value.users.Tables? ==> Valid()
      ensures r.Err? ==> config == old(config) && servers == old(servers)
    {
      if file.None? || ParseConfig(file.value).None? || serversFile.None? {
        return Err(ParseFailed);
      }
      var loaded := Overridden(ParseConfig(file.value).value, paths);
      if !secure {
        return Err(InsecureFile);
      }
      r := ValidateSemantics(loaded, serversFile.value, checks);
      if r.Ok? {
        config := loaded;
        servers := serversFile.value;
      }
    }

    /** The file has a table that an update of `name` can edit. */
    predicate CanEdit(name: string)
      reads this
    {
      file.Some? && file.value.users.Tables? && FindTable(file.value.users.tables, name).Some?
    }

    /** Memory changes first; the file changes exactly when the result is `Ok`, and then in the
        credentials of this user only. */
    method UpdateUserCredentials(name: string, u: Update, writeOk: bool) returns (r: Result<(), ConfigError>)
      modifies this`config, this`file
      ensures config == old(config).(users := UpdatedUsers(old(config).users, name, u))
      ensures r.Ok? <==> FindUser(old(config).users, name).Some? && old(CanEdit(name)) && writeOk
      ensures old(Agrees()) && FindUser(old(config).users, name).Some? ==> old(CanEdit(name))
      ensures r.Ok? ==> old(file).Some? && file.Some? && OnlyCredentialsOf(old(file).value, file.value, {name})
      ensures r.Ok? && old(Agrees()) ==> Agrees()
      ensures r.Ok? && old(Valid()) && WellFormedUpdate(u, checks) ==>
        (Valid() <==> !ClearsBootstrap(old(config).users[FindUser(old(config).users, name).value], u))
      ensures r.Err? ==> file == old(file)
    {
      var found := FindUser(config.users, name);
      if Agrees() {
        DocumentUpdateParses(file.value, name, u);
      }
      if found.None? {
        return Err(UserNotFound);
      }
      ghost var before := config;
      config := config.(users := UpdatedUsers(config.users, name, u));
      if file.None? {
        return Err(ParseFailed);
      }
      var updated := UpdateUserRecordInDocument(file.value, name, u);
      if updated.Err? {
        return Err(updated.error);
      }
      if !writeOk {
        return Err(WriteFailed);
      }
      UpdateScope(file.value, name, u);
      if ValidConfig(before, servers, checks) && WellFormedUpdate(u, checks) {
        UpdateKeepsValidExactly(before, servers, checks, name, u);
      }
      file := Some(updated.value);
      return Ok(());
    }

    /** One turn of the migration loop, for the user at `i`; returns the document and whether
        it changed. */
    method MigrateUser(i: nat, hash: Option<string>, document: Document,
                       ghost users: seq<UserRecord>, ghost hashes: nat -> Option<string>)
      returns (r: Result<(Document, bool), ConfigError>)
      requires i < |config.users| == |users| && hash == hashes(i)
      requires config.users == Migrated(users, hashes, i)
      modifies this`config
      ensures r.Ok? ==> config == old(config).(users := Migrated(users, hashes, i + 1))
      ensures r.Ok? ==> (r.value.1 <==> !IsHashFormat(users[i].password))
      ensures r.Ok? ==> OnlyCredentialsOf(document, r.value.0, BootstrapNames(users))
      ensures UniqueNames(users) && r.Ok? && DocumentHolds(document, old(config.users), document.sections) ==>
        DocumentHolds(r.value.0, config.users, document.sections)
    {
      var user := config.users[i];
      assert user == users[i];
      if IsHashFormat(user.password) {
        MigrateHashed(users, hashes, i);
        return Ok((document, false));
      }
      if hash.None? {
        return Err(HashFailed);
      }
      var updated := UpdateUserRecordInDocument(document, user.name, Update(hash, None, Some(true)));
      if updated.Err? {
        return Err(updated.error);
      }
      UpdateScope(document, user.name, Update(hash, None, Some(true)));
      assert user.name in BootstrapNames(users);
      if UniqueNames(users) && DocumentHolds(document, config.users, document.sections) {
        MigrateDocument(document, document.sections, users, hashes, i);
      }
      user := user.(password := hash.value);
      user := user.(mustChangePassword := true);
      config := config.(users := config.users[i := user]);
      return Ok((updated.value, true));
    }

    /** The loop of the migration: all users in memory and document, and how many changed. */
    method MigrateUsers(hashes: nat -> Option<string>, start: Document)
      returns (r: Result<(Document, nat), ConfigError>)
      modifies this`config
      ensures r.Ok? ==> r.value.1 == Bootstraps(old(config).users, |old(config).users|)
      ensures r.Ok? ==> config == old(config).(users := Migrated(old(config).users, hashes, |old(config).users|))
      ensures r.Ok? ==> OnlyCredentialsOf(start, r.value.0, BootstrapNames(old(config).users))
      ensures r.Ok? && UniqueNames(old(config).users) && DocumentHolds(start, old(config).users, start.sections) ==>
        DocumentHolds(r.value.0, config.users, start.sections)
    {
      var document, changed := start, 0;
      ghost var users := config.users;
      ghost var agreed := UniqueNames(users) && DocumentHolds(start, users, start.sections);
      for i := 0 to |config.users|
        invariant |config.users| == |users|
        invariant config == old(config).(users := Migrated(users, hashes, i))
        invariant changed == Bootstraps(users, i)
        invariant OnlyCredentialsOf(start, document, BootstrapNames(users))
        invariant agreed ==> DocumentHolds(document, config.users, start.sections)
      {
        var migrated := MigrateUser(i, hashes(i), document, users, hashes);
        if migrated.Err? {
          return Err(migrated.error);
        }
        ScopesCompose(start, document, migrated.value.0, BootstrapNames(users));
        document := migrated.value.0;
        changed := if migrated.value.1 then changed + 1 else changed;
      }
      return Ok((document, changed));
    }

    /** `hashes(i)` is the result of hashing the password of user `i`. */
    method MigrateBootstrapPasswords(hashes: nat -> Option<string>, writeOk: bool)
      returns (r: Result<nat, ConfigError>)
      modifies this`config, this`file
      ensures r.Ok? ==> r.value == Bootstraps(old(config).users, |old(config).users|)
      ensures r.Ok? ==> config == old(config).(users := Migrated(old(config).users, hashes, |old(config).users|))
      ensures r.Ok? ==> old(file).Some? && file.Some?
      ensures r.Ok? ==> OnlyCredentialsOf(old(file).value, file.value, BootstrapNames(old(config).users))
      ensures r.Ok? && old(Agrees()) && UniqueNames(old(config).users) ==> Agrees()
      ensures r.Ok? && old(Valid()) && WellFormedHashes(old(config).users, hashes, checks) ==> Valid()
      ensures r.Err? ==> file == old(file)
    {
      if file.None? {
        return Err(ParseFailed);
      }
      ghost var before := config;
      ghost var users := before.users;
      var migrated := MigrateUsers(hashes, file.value);
      if migrated.Err? {
        return Err(migrated.error);
      }
      var (document, changed) := migrated.value;
      if changed == 0 {
        NothingToMigrate(users, hashes);
        assert config == before;
      } else {
        if !writeOk {
          return Err(WriteFailed);
        }
        file := Some(document);
      }
      if ValidConfig(before, servers, checks) && WellFormedHashes(users, hashes, checks) {
        MigrationKeepsValid(before, servers, checks, hashes);
      }
      return Ok(changed);
    }
  }

  /** Updating by name the user at `i` is migrating one more user. */
  lemma MigrateNext(users: seq<UserRecord>, hashes: nat -> Option<string>, i: nat)
    requires i < |users| && UniqueNames(users) && !IsHashFormat(users[i].password)
    ensures FindUser(Migrated(users, hashes, i), users[i].name) == Some(i)
    ensures UpdatedUsers(Migrated(users, hashes, i), users[i].name, Update(hashes(i), None, Some(true)))
         == Migrated(users, hashes, i + 1)
  {
    var partial := Migrated(users, hashes, i);
    assert forall k :: 0 <= k < |users| ==> partial[k].name == users[k].name;
    assert FindUser(partial, users[i].name) == Some(i) by {
      var found := FindUser(partial, users[i].name);
      assert found.Some?;
      assert partial[found.value].name == users[found.value].name;
    }
  }

  lemma MigrateDocument(document: Document, sections: Sections, users: seq<UserRecord>,
                        hashes: nat -> Option<string>, i: nat)
    requires i < |users| && UniqueNames(users) && !IsHashFormat(users[i].password)
    requires DocumentHolds(document, Migrated(users, hashes, i), sections)
    ensures var updated := UpdateUserRecordInDocument(document, users[i].name, Update(hashes(i), None, Some(true)));
            updated.Ok? && DocumentHolds(updated.value, Migrated(users, hashes, i + 1), sections)
  {
    var partial := Migrated(users, hashes, i);
    assert partial[i].name == users[i].name;
    MigrateNext(users, hashes, i);
    DocumentUpdateParses(document, users[i].name, Update(hashes(i), None, Some(true)));
  }

  lemma MigrateHashed(users: seq<UserRecord>, hashes: nat -> Option<string>, i: nat)
    requires i < |users| && IsHashFormat(users[i].password)
    ensures Migrated(users, hashes, i + 1) == Migrated(users, hashes, i)
  {
  }

  /** Migration changes only password and change flag of users with bootstrap passwords. */
  lemma MigrationScope(users: seq<UserRecord>, hashes: nat -> Option<string>, i: nat)
    requires i < |users|
    ensures var after := Migrated(users, hashes, |users|)[i];
            && after == users[i].(password := after.password, mustChangePassword := after.mustChangePassword)
            && (if IsHashFormat(users[i].password) then after == users[i] else after.mustChangePassword)
  {
    assert Migrated(users, hashes, |users|)[i] == MigratedUser(users[i], hashes(i));
  }

  /** A second migration finds nothing to do. */
  lemma {:induction false} MigrationIsComplete(users: seq<UserRecord>, hashes: nat -> Option<string>, n: nat)
    requires n <= |users|
    requires forall i: nat :: i < |users| && !IsHashFormat(users[i].password) ==>
      hashes(i).Some? && IsHashFormat(hashes(i).value)
    ensures Bootstraps(Migrated(users, hashes, |users|), n) == 0
  {
    if n == 0 {
    } else {
      MigrationIsComplete(users, hashes, n - 1);
    }
  }

  lemma {:induction false} NoBootstrapAt(users: seq<UserRecord>, n: nat, i: nat)
    requires i < n <= |users| && Bootstraps(users, n) == 0
    ensures IsHashFormat(users[i].password)
  {
    if i < n - 1 {
      NoBootstrapAt(users, n - 1, i);
    }
  }

  lemma NothingToMigrate(users: seq<UserRecord>, hashes: nat -> Option<string>)
    requires Bootstraps(users, |users|) == 0
    ensures Migrated(users, hashes, |users|) == users
  {
    forall i | 0 <= i < |users| ensures IsHashFormat(users[i].password) {
      NoBootstrapAt(users, |users|, i);
    }
  }

  lemma MigratedUserOk(user: UserRecord, hash: Option<string>, servers: Servers, checks: Checks)
    requires UserOk(user, servers, checks)
    requires !IsHashFormat(user.password) ==> hash.Some? && IsHashFormat(hash.value) && checks.parsesHash(hash.value)
    ensures UserOk(MigratedUser(user, hash), servers, checks)
  {
  }

  lemma SameNamesSameFind(a: seq<UserRecord>, b: seq<UserRecord>, name: string)
    requires |a| == |b| && forall i :: 0 <= i < |a| ==> a[i].name == b[i].name
    ensures FindUser(a, name) == FindUser(b, name)
  {
    var x, y := FindUser(a, name), FindUser(b, name);
  }

  /** Policies speak of names, allowed servers and the users' own policies only. */
  lemma AuthorizationCarries(config: ConfigFile, users: seq<UserRecord>, servers: Servers)
    requires AuthorizationOk(config, servers) && |users| == |config.users|
    requires forall i :: 0 <= i < |users| ==>
      && users[i].name == config.users[i].name
      && users[i].allowedServers == config.users[i].allowedServers
      && users[i].authorization == config.users[i].authorization
    ensures AuthorizationOk(config.(users := users), servers)
  {
    var policies := config.sections.policies;
    if OrElse(config.sections.settings.perUserPerServer, true) {
      forall server, name | server in policies && name in policies[server]
        ensures PolicyTargetOk(server, name, users)
      {
        assert PolicyTargetOk(server, name, config.users);
        SameNamesSameFind(config.users, users, name);
      }
    }
  }

  /** A migration with well-formed hashes keeps the configuration valid. */
  lemma MigrationKeepsValid(config: ConfigFile, servers: Servers, checks: Checks, hashes: nat -> Option<string>)
    requires ValidConfig(config, servers, checks) && WellFormedHashes(config.users, hashes, checks)
    ensures ValidConfig(config.(users := Migrated(config.users, hashes, |config.users|)), servers, checks)
  {
    var after := Migrated(config.users, hashes, |config.users|);
    AuthorizationCarries(config, after, servers);
    forall i | 0 <= i < |after| ensures UserOk(after[i], servers, checks) {
      MigratedUserOk(config.users[i], hashes(i), servers, checks);
    }
  }
}
