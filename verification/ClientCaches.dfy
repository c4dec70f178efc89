/**
 The caches of TLS clients and Postgres pools, keyed by credential id
 (backend/crates/infra/src/http.rs, postgres_pool.rs, postgres.rs), and the runs in which store
 operations, calls in flight and evictions interleave.

 A call reads its credential first and asks for a client later; in between, the credential may be
 updated, deleted or registered again, and idle entries may be evicted.
 */
module ClientCaches {
  import opened Wrappers
  import opened Text
  import opened CredentialModel
  import opened CredentialRepo
  import opened CredentialRuns

  /** What a call read of a live credential, its secret opened. */
  datatype Login = Login(id: Id, target: Target, secret: Secret, tlsCa: Option<string>, allowPrivate: bool)

  datatype Client = Client(ca: Option<string>, guarded: bool)

  datatype TlsKey = TlsKey(id: Id, allowPrivate: bool)

  /** An IP address. */
  type Address = nat

  /** The connection options a pool was created with: where the url's host resolved to at that time. */
  datatype Pool = Pool(
    url: string,
    database: Option<string>,
    address: Address,
    port: nat,
    username: string,
    password: string)
  {
    /** All but the address. */
    function Target(): (string, Option<string>, nat, string, string) {
      (url, database, port, username, password)
    }
  }

  datatype PoolKey = PoolKey(id: Id, database: string)

  /** PEM and connection-url parsing, and the table of blocked addresses, left arbitrary. */
  datatype Parsers = Parsers(
    pemOk: string -> bool,
    urlOk: string -> bool,
    urlDatabase: string -> Option<string>,
    urlPort: string -> nat,
    blocked: Address -> bool)

  // ---------- TLS clients ----------

  function BuildClient(parsers: Parsers, ca: Option<string>, allowPrivate: bool): Result<Client, Error> {
    if ca.Some? && !parsers.pemOk(ca.value) then Err(Validation) else Ok(Client(ca, !allowPrivate))
  }

  function HttpClientFor(parsers: Parsers, cached: map<TlsKey, Client>, login: Login)
    : (map<TlsKey, Client>, Result<Client, Error>)
  {
    var key := TlsKey(login.id, login.allowPrivate);
    if login.tlsCa == None then (cached, Ok(Client(None, !login.allowPrivate)))
    else if key in cached then (cached, Ok(cached[key]))
    else
      match BuildClient(parsers, login.tlsCa, login.allowPrivate)
      case Err(e) => (cached, Err(e))
      case Ok(client) => (cached[key := client], Ok(client))
  }

  class TargetHttpClients {
    const parsers: Parsers
    const privateAllowed: Client
    const guardedNoCa: Client
    var cachedTls: map<TlsKey, Client>

    predicate Valid()
      reads this
    {
      privateAllowed == Client(None, false) && guardedNoCa == Client(None, true)
    }

    constructor (parsers: Parsers)
      ensures Valid() && this.parsers == parsers && cachedTls == map[]
    {
      this.parsers := parsers;
      privateAllowed := Client(None, false);
      guardedNoCa := Client(None, true);
      cachedTls := map[];
    }

    method CachedTlsClient(id: Id, ca: string, allowPrivate: bool) returns (r: Result<Client, Error>)
      requires Valid()
      modifies this
      ensures forall login: Login | login.id == id && login.tlsCa == Some(ca) && login.allowPrivate == allowPrivate ::
                (cachedTls, r) == HttpClientFor(parsers, old(cachedTls), login)
      ensures Valid()
    {
      var key := TlsKey(id, allowPrivate);
      if key in cachedTls {
        return Ok(cachedTls[key]);
      }
      r := BuildClient(parsers, Some(ca), allowPrivate);
      if r.Ok? {
        cachedTls := cachedTls[key := r.value];
      }
    }

    method ClientFor(login: Login) returns (r: Result<Client, Error>)
      requires Valid()
      modifies this
      ensures (cachedTls, r) == HttpClientFor(parsers, old(cachedTls), login)
      ensures Valid()
    {
      match login.tlsCa
      case None =>
        r := Ok(if login.allowPrivate then privateAllowed else guardedNoCa);
      case Some(ca) =>
        r := CachedTlsClient(login.id, ca, login.allowPrivate);
    }
  }

  // ---------- pools ----------

  const MAX_DATABASE_NAME_LEN: nat := 63

  /** `normalize_database_name`: a blank name is no name. */
  function NormalizeDatabase(requested: Option<string>): Result<Option<string>, Error> {
    if requested == None || Trim(requested.value) == "" then Ok(None)
    else
      var name := Trim(requested.value);
      if |name| > MAX_DATABASE_NAME_LEN
         || exists c <- name :: !(IsAlpha(c) || IsDigit(c) || c == '_' || c == '-') then Err(Validation)
      else Ok(Some(name))
  }

  /** `select_postgres_addr`: the first address the host resolved to, none of them blocked. */
  function SelectAddress(parsers: Parsers, resolved: seq<Address>, allowPrivate: bool): Result<Address, Error> {
    if resolved == [] then Err(Validation)
    else if !allowPrivate && exists ip <- resolved :: parsers.blocked(ip) then Err(Validation)
    else Ok(resolved[0])
  }

  /** The key's database and the options: `prepare_postgres_target` and `connect_options`. */
  function ConnectOptions(parsers: Parsers, login: Login, database: Option<string>, resolved: seq<Address>)
    : Result<(string, Pool), Error>
  {
    match (login.target, login.secret)
    case (SqlTarget(url), SqlSecret(username, password)) =>
      if !parsers.urlOk(url) then Err(Validation)
      else
        (match SelectAddress(parsers, resolved, login.allowPrivate)
         case Err(e) => Err(e)
         case Ok(address) =>
           var chosen := if database.Some? then database else parsers.urlDatabase(url);
           Ok((chosen.UnwrapOr(""), Pool(url, chosen, address, parsers.urlPort(url), username, password))))
    case _ => Err(Validation)
  }

  function PgPoolFor(cached: map<PoolKey, Pool>, id: Id, database: string, options: Pool): (map<PoolKey, Pool>, Pool) {
    var key := PoolKey(id, database);
    if key in cached then (cached, cached[key]) else (cached[key := options], options)
  }

  /** A sql call up to its pool: the requested name normalized, the host resolved, the options built,
      the pool looked up. */
  function SqlPoolFor(parsers: Parsers, cached: map<PoolKey, Pool>, login: Login, requested: Option<string>,
                      resolved: seq<Address>)
    : (map<PoolKey, Pool>, Result<Pool, Error>)
  {
    match SqlOptions(parsers, login, requested, resolved)
    case Err(e) => (cached, Err(e))
    case Ok((name, options)) =>
      var (cached', pool) := PgPoolFor(cached, login.id, name, options);
      (cached', Ok(pool))
  }

  /** What the call asks of the cache. */
  function SqlOptions(parsers: Parsers, login: Login, requested: Option<string>, resolved: seq<Address>)
    : Result<(string, Pool), Error>
  {
    match NormalizeDatabase(requested)
    case Err(e) => Err(e)
    case Ok(database) => ConnectOptions(parsers, login, database, resolved)
  }

  class TargetPgPools {
    var cached: map<PoolKey, Pool>

    constructor ()
      ensures cached == map[]
    {
      cached := map[];
    }

    method PoolFor(id: Id, database: string, options: Pool) returns (pool: Pool)
      modifies this
      ensures (cached, pool) == PgPoolFor(old(cached), id, database, options)
    {
      var key := PoolKey(id, database);
      if key in cached {
        return cached[key];
      }
      pool := options;
      cached := cached[key := pool];
    }
  }

  // ---------- runs ----------

  datatype Step =
    | Store(op: Op)
    | Fetch(owner: Owner, alias: string, category: Category)
    | HttpCall(login: Login)
    | SqlCall(login: Login, database: Option<string>, resolved: seq<Address>)
    | Finish(login: Login)
    | EvictTls(tlsKey: TlsKey)
    | EvictPool(poolKey: PoolKey)

  datatype Sys = Sys(db: Db, calls: set<Login>, tls: map<TlsKey, Client>, pools: map<PoolKey, Pool>)

  /** The category check of a call; a sql call also wants a postgres credential. */
  predicate Serves(row: Row, category: Category) {
    row.category == category && (category == Sql ==> row.provider == "postgres")
  }

  /** `find_credential_secret_by_alias`, that check, and opening the secret. */
  function FetchLogin(db: Db, owner: Owner, alias: string, category: Category): Option<Login> {
    match FindLive(db.rows, owner, alias)
    case None => None
    case Some(id) =>
      FirstMatches(db.rows, row => IsLive(row, owner, alias));
      var row := db.rows[id];
      if !Serves(row, category) || row.secret == None then None
      else
        match Open(row.alias, row.secret.value)
        case Err(_) => None
        case Ok(secret) => Some(Login(id, row.target, secret, row.tlsCa, row.allowPrivateNetwork))
  }

  /** One step; a call step of no call in flight does nothing. */
  function Apply(rules: Rules, parsers: Parsers, sys: Sys, step: Step): Sys {
    match step
    case Store(op) => sys.(db := Exec(rules, sys.db, op))
    case Fetch(owner, alias, category) =>
      var login := FetchLogin(sys.db, owner, alias, category);
      if login.Some? then sys.(calls := sys.calls + {login.value}) else sys
    case HttpCall(login) =>
      if login in sys.calls then sys.(tls := HttpClientFor(parsers, sys.tls, login).0) else sys
    case SqlCall(login, database, resolved) =>
      if login in sys.calls then sys.(pools := SqlPoolFor(parsers, sys.pools, login, database, resolved).0) else sys
    case Finish(login) => sys.(calls := sys.calls - {login})
    case EvictTls(key) => sys.(tls := sys.tls - {key})
    case EvictPool(key) => sys.(pools := sys.pools - {key})
  }

  function RunSystem(rules: Rules, parsers: Parsers, steps: seq<Step>): Sys {
    if steps == [] then Sys(EMPTY_DB, {}, map[], map[])
    else Apply(rules, parsers, RunSystem(rules, parsers, steps[..|steps| - 1]), steps[|steps| - 1])
  }

  // ---------- coherence ----------

  /** What the row says, as long as it lives; target and TLS material also after that. */
  ghost predicate LoginOk(row: Row, login: Login) {
    && row.target == login.target && row.tlsCa == login.tlsCa && row.allowPrivateNetwork == login.allowPrivate
    && (!row.deleted ==> row.secret == Some(Seal(row.alias, login.secret)))
  }

  ghost predicate ClientOk(parsers: Parsers, row: Row, key: TlsKey, client: Client) {
    && row.tlsCa.Some? && key.allowPrivate == row.allowPrivateNetwork
    && BuildClient(parsers, row.tlsCa, key.allowPrivate) == Ok(client)
  }

  /** The pool is one the key stands for, given the credential's url and login: whatever its address. */
  ghost predicate PoolMatches(parsers: Parsers, target: Target, secret: Secret, database: string, pool: Pool) {
    && target.SqlTarget? && secret.SqlSecret?
    && pool.Target() == (target.databaseUrl,
                         if database == "" then parsers.urlDatabase(target.databaseUrl) else Some(database),
                         parsers.urlPort(target.databaseUrl), secret.username, secret.password)
  }

  /** No pool goes to an address its credential's network mode forbids, alive or deleted. */
  ghost predicate PoolOk(parsers: Parsers, row: Row, database: string, pool: Pool) {
    && (row.allowPrivateNetwork || !parsers.blocked(pool.address))
    && (!row.deleted ==>
          row.secret.Some? && PoolMatches(parsers, row.target, row.secret.value.secret, database, pool))
  }

  ghost predicate LoginsCoherent(rows: seq<Row>, calls: set<Login>) {
    && (forall login <- calls :: login.id < |rows| && LoginOk(rows[login.id], login))
    && (forall a <- calls, b <- calls :: a.id == b.id ==> a == b)
  }

  ghost predicate TlsCoherent(parsers: Parsers, rows: seq<Row>, tls: map<TlsKey, Client>) {
    forall key <- tls :: key.id < |rows| && ClientOk(parsers, rows[key.id], key, tls[key])
  }

  /** A pool also agrees with every call still in flight for its credential, deleted or not. */
  ghost predicate PoolsCoherent(parsers: Parsers, rows: seq<Row>, calls: set<Login>, pools: map<PoolKey, Pool>) {
    && (forall key <- pools :: key.id < |rows| && PoolOk(parsers, rows[key.id], key.database, pools[key]))
    && (forall key <- pools, login <- calls :: key.id == login.id ==>
          PoolMatches(parsers, login.target, login.secret, key.database, pools[key]))
  }

  ghost predicate Coherent(parsers: Parsers, sys: Sys) {
    && Inv(sys.db)
    && LoginsCoherent(sys.db.rows, sys.calls)
    && TlsCoherent(parsers, sys.db.rows, sys.tls)
    && PoolsCoherent(parsers, sys.db.rows, sys.calls, sys.pools)
  }

  ghost predicate Named(requested: Option<string>) {
    requested.Some? && Trim(requested.value) != ""
  }

  /** At most 63 letters, digits, underscores and dashes. */
  ghost predicate NameOk(name: string) {
    |name| <= MAX_DATABASE_NAME_LEN
    && forall i | 0 <= i < |name| ::
         'a' <= name[i] <= 'z' || 'A' <= name[i] <= 'Z' || '0' <= name[i] <= '9' || name[i] in {'_', '-'}
  }

  /** A call gets its options exactly when it names no database or a good one, its credential is a
      sql one with a good url, and the host resolved, to addresses none of which is blocked unless
      private ones are allowed. */
  lemma OptionsIff(parsers: Parsers, login: Login, requested: Option<string>, resolved: seq<Address>)
    ensures SqlOptions(parsers, login, requested, resolved).Ok? <==>
              && (Named(requested) ==> NameOk(Trim(requested.value)))
              && login.target.SqlTarget? && login.secret.SqlSecret? && parsers.urlOk(login.target.databaseUrl)
              && resolved != []
              && (login.allowPrivate || forall i | 0 <= i < |resolved| :: !parsers.blocked(resolved[i]))
    ensures SqlOptions(parsers, login, requested, resolved).Err? ==>
              SqlOptions(parsers, login, requested, resolved).error == Validation
  {
    NamesNormalize(requested);
    hide NormalizeDatabase, NameOk, Trim;
  }

  lemma NamesNormalize(requested: Option<string>)
    ensures var r := NormalizeDatabase(requested);
            && (r.Ok? <==> Named(requested) ==> NameOk(Trim(requested.value)))
            && (r.Err? ==> r.error == Validation)
            && (r.Ok? ==> r.value == if Named(requested) then Some(Trim(requested.value)) else None)
  {
    hide Trim;
    if Named(requested) {
      GoodName(Trim(requested.value));
    }
  }

  lemma GoodName(name: string)
    ensures NameOk(name)
            <==> |name| <= MAX_DATABASE_NAME_LEN
                 && !exists c <- name :: !(IsAlpha(c) || IsDigit(c) || c == '_' || c == '-')
  {
    forall i | 0 <= i < |name|
      ensures name[i] in name
    {
    }
    if NameOk(name) {
      forall c <- name ensures IsAlpha(c) || IsDigit(c) || c == '_' || c == '-' {
        var i :| 0 <= i < |name| && name[i] == c;
      }
    }
  }

  /** The key and the options of one call name the same pool, at an admitted address: the database
      asked for, or else the url's. */
  lemma OptionsMatchTheirKey(parsers: Parsers, login: Login, requested: Option<string>, resolved: seq<Address>)
    requires SqlOptions(parsers, login, requested, resolved).Ok?
    ensures var (name, options) := SqlOptions(parsers, login, requested, resolved).value;
            && PoolMatches(parsers, login.target, login.secret, name, options)
            && name == (if Named(requested) then Trim(requested.value)
                        else parsers.urlDatabase(login.target.databaseUrl).UnwrapOr(""))
            && resolved != [] && options.address == resolved[0]
            && (login.allowPrivate || !parsers.blocked(options.address))
  {
    NamesNormalize(requested);
    hide NormalizeDatabase, Trim, NameOk;
  }

  lemma ExtendsKeepsCoherent(parsers: Parsers, rows: seq<Row>, rows': seq<Row>, calls: set<Login>,
                             tls: map<TlsKey, Client>, pools: map<PoolKey, Pool>)
    requires Extends(rows, rows')
    requires LoginsCoherent(rows, calls) && TlsCoherent(parsers, rows, tls)
    requires PoolsCoherent(parsers, rows, calls, pools)
    ensures LoginsCoherent(rows', calls) && TlsCoherent(parsers, rows', tls)
    ensures PoolsCoherent(parsers, rows', calls, pools)
  {
    hide BuildClient, PoolMatches;
    assert forall i | 0 <= i < |rows| :: SameIdentity(rows[i], rows'[i]);
  }

  /** No store operation makes a cached client, or a pool of a live id, stale. */
  lemma StoreKeepsCoherent(rules: Rules, parsers: Parsers, sys: Sys, op: Op)
    requires Coherent(parsers, sys)
    ensures Coherent(parsers, sys.(db := Exec(rules, sys.db, op)))
  {
    assert StoreOk(sys.db);
    hide Exec, Inv, StoreOk, Extends, LoginsCoherent, TlsCoherent, PoolsCoherent;
    ExecKeepsInv(rules, sys.db, op);
    ExecExtends(rules, sys.db, op);
    ExtendsKeepsCoherent(parsers, sys.db.rows, Exec(rules, sys.db, op).rows, sys.calls, sys.tls, sys.pools);
  }

  /** The login a fetch opens is what the live row says, so it agrees with whatever is cached. */
  lemma FetchedLogin(db: Db, owner: Owner, alias: string, category: Category)
    requires Inv(db) && FetchLogin(db, owner, alias, category).Some?
    ensures var login := FetchLogin(db, owner, alias, category).value;
            login.id < |db.rows| && IsLive(db.rows[login.id], owner, alias) && LoginOk(db.rows[login.id], login)
  {
    FindLiveIff(db.rows, owner, alias);
    assert db.rows[FindLive(db.rows, owner, alias).value] in db.rows;
  }

  /** A call is given a login exactly when the owner has a live credential of that alias and category,
      for a sql call a postgres one. */
  lemma FetchIff(db: Db, owner: Owner, alias: string, category: Category)
    requires Inv(db)
    ensures FetchLogin(db, owner, alias, category).Some?
            <==> exists i: nat :: i < |db.rows| && IsLive(db.rows[i], owner, alias)
                   && db.rows[i].category == category && (category == Http || db.rows[i].provider == "postgres")
    ensures FetchLogin(db, owner, alias, category).Some? ==>
              var login := FetchLogin(db, owner, alias, category).value;
              && login.id < |db.rows| && IsLive(db.rows[login.id], owner, alias)
              && db.rows[login.id].category == category && LoginOk(db.rows[login.id], login)
  {
    FindLiveIff(db.rows, owner, alias);
    var found := FindLive(db.rows, owner, alias);
    assert OneLive(db.rows);
    if found.Some? {
      assert db.rows[found.value] in db.rows && SealedOk(db.rows[found.value]);
      forall i: nat | i < |db.rows| && IsLive(db.rows[i], owner, alias) ensures i == found.value {
      }
    }
    hide FindLive;
  }

  lemma FetchKeepsCoherent(parsers: Parsers, sys: Sys, owner: Owner, alias: string, category: Category)
    requires Coherent(parsers, sys) && FetchLogin(sys.db, owner, alias, category).Some?
    ensures var login := FetchLogin(sys.db, owner, alias, category).value;
            Coherent(parsers, sys.(calls := sys.calls + {login}))
  {
    FetchedLogin(sys.db, owner, alias, category);
    hide FetchLogin, Inv;
    var login := FetchLogin(sys.db, owner, alias, category).value;
    forall other <- sys.calls ensures other.id == login.id ==> other == login {
      if other.id == login.id {
        assert LoginOk(sys.db.rows[login.id], other);
      }
    }
  }

  lemma SqlCallKeepsCoherent(parsers: Parsers, sys: Sys, login: Login, requested: Option<string>,
                             resolved: seq<Address>)
    requires Coherent(parsers, sys) && login in sys.calls
    ensures Coherent(parsers, sys.(pools := SqlPoolFor(parsers, sys.pools, login, requested, resolved).0))
  {
    hide Inv, SqlOptions;
    if SqlOptions(parsers, login, requested, resolved).Ok? {
      OptionsMatchTheirKey(parsers, login, requested, resolved);
      hide PoolMatches;
    }
  }

  lemma StepKeepsCoherent(rules: Rules, parsers: Parsers, sys: Sys, step: Step)
    requires Coherent(parsers, sys)
    ensures Coherent(parsers, Apply(rules, parsers, sys, step))
  {
    hide Inv, Exec, FetchLogin, SqlPoolFor;
    match step
    case Store(op) => StoreKeepsCoherent(rules, parsers, sys, op);
    case Fetch(owner, alias, category) =>
      if FetchLogin(sys.db, owner, alias, category).Some? {
        FetchKeepsCoherent(parsers, sys, owner, alias, category);
      }
    case HttpCall(login) =>
    case SqlCall(login, database, resolved) =>
      if login in sys.calls {
        SqlCallKeepsCoherent(parsers, sys, login, database, resolved);
      }
    case Finish(_) =>
    case EvictTls(_) =>
    case EvictPool(_) =>
  }

  lemma {:induction false} RunKeepsCoherent(rules: Rules, parsers: Parsers, steps: seq<Step>)
    ensures Coherent(parsers, RunSystem(rules, parsers, steps))
  {
    if steps == [] {
      RunKeepsInv(rules, []);
    } else {
      RunKeepsCoherent(rules, parsers, steps[..|steps| - 1]);
      StepKeepsCoherent(rules, parsers, RunSystem(rules, parsers, steps[..|steps| - 1]), steps[|steps| - 1]);
    }
  }

  // ---------- what every run guarantees ----------

  /** In every run, a call in flight is given exactly the TLS client or error that an empty cache
      would have given it, however long ago it read its credential. */
  lemma ClientsAreTransparent(rules: Rules, parsers: Parsers, steps: seq<Step>, login: Login)
    ensures var sys := RunSystem(rules, parsers, steps);
            login in sys.calls ==>
              HttpClientFor(parsers, sys.tls, login).1
              == HttpClientFor(parsers, map[], login).1
              == if login.tlsCa.Some? && !parsers.pemOk(login.tlsCa.value) then Err(Validation)
                 else Ok(Client(login.tlsCa, !login.allowPrivate))
  {
    RunKeepsCoherent(rules, parsers, steps);
    hide Inv, RunSystem;
  }

  /** In every run, a sql call in flight fails exactly as it would with an empty cache, and otherwise
      is given a pool of the same url, database, port and login. It is the same pool in every respect
      exactly when nothing is cached for it or what is was created at the address this call resolved. */
  lemma PoolsDifferOnlyInAddress(rules: Rules, parsers: Parsers, steps: seq<Step>, login: Login,
                                            requested: Option<string>, resolved: seq<Address>)
    ensures var sys := RunSystem(rules, parsers, steps);
            login in sys.calls ==>
              var given := SqlPoolFor(parsers, sys.pools, login, requested, resolved).1;
              var built := SqlPoolFor(parsers, map[], login, requested, resolved).1;
              match SqlOptions(parsers, login, requested, resolved)
              case Err(e) => given == built == Err(e)
              case Ok((database, _)) =>
                && given.Ok? && built.Ok? && resolved != []
                && given.value.Target() == built.value.Target()
                && (login.allowPrivate || !parsers.blocked(given.value.address))
                && (given == built <==> PoolKey(login.id, database) in sys.pools ==>
                                          sys.pools[PoolKey(login.id, database)].address == resolved[0])
  {
    RunKeepsCoherent(rules, parsers, steps);
    hide Inv, RunSystem, SqlOptions;
    if login in RunSystem(rules, parsers, steps).calls && SqlOptions(parsers, login, requested, resolved).Ok? {
      OptionsMatchTheirKey(parsers, login, requested, resolved);
    }
  }

  /** A pool keeps the address of the call that created it: as long as it is not evicted, a call that
      resolves another address is given the old one. */
  lemma AddressOfTheFirstCallStays(parsers: Parsers, pools: map<PoolKey, Pool>, login: Login,
                                   requested: Option<string>, first: seq<Address>, later: seq<Address>)
    requires SqlOptions(parsers, login, requested, first).Ok? && SqlOptions(parsers, login, requested, later).Ok?
    ensures var (pools', pool) := SqlPoolFor(parsers, pools, login, requested, first);
            && SqlPoolFor(parsers, pools', login, requested, later) == (pools', pool)
            && (first[0] != later[0] && pools == map[] ==>
                  pool != SqlPoolFor(parsers, map[], login, requested, later).1)
  {
    OptionsMatchTheirKey(parsers, login, requested, first);
    OptionsMatchTheirKey(parsers, login, requested, later);
    SameKey(parsers, login, requested, first, later);
    hide SqlOptions;
  }

  lemma SameKey(parsers: Parsers, login: Login, requested: Option<string>, first: seq<Address>, later: seq<Address>)
    requires SqlOptions(parsers, login, requested, first).Ok? && SqlOptions(parsers, login, requested, later).Ok?
    ensures SqlOptions(parsers, login, requested, first).value.0 == SqlOptions(parsers, login, requested, later).value.0
  {
    hide NormalizeDatabase;
  }

  /** In every run, whatever is cached under a live id was built from what its row says now, and no
      pool goes to an address its credential may not reach. */
  lemma CachedMaterialIsCurrent(rules: Rules, parsers: Parsers, steps: seq<Step>)
    ensures var sys := RunSystem(rules, parsers, steps);
            && (forall key <- sys.tls :: key.id < |sys.db.rows|
                  && var row := sys.db.rows[key.id];
                  && row.tlsCa.Some? && parsers.pemOk(row.tlsCa.value)
                  && sys.tls[key] == Client(row.tlsCa, !row.allowPrivateNetwork))
            && (forall key <- sys.pools :: key.id < |sys.db.rows|
                  && var row := sys.db.rows[key.id];
                  && (row.allowPrivateNetwork || !parsers.blocked(sys.pools[key].address))
                  && (!row.deleted ==>
                        && row.target.SqlTarget? && row.secret.Some?
                        && row.secret.value.secret.SqlSecret?
                        && var (url, login) := (row.target.databaseUrl, row.secret.value.secret);
                        sys.pools[key].Target()
                        == (url, if key.database == "" then parsers.urlDatabase(url) else Some(key.database),
                            parsers.urlPort(url), login.username, login.password)))
  {
    RunKeepsCoherent(rules, parsers, steps);
    hide Inv, RunSystem;
  }

  lemma StepExtends(rules: Rules, parsers: Parsers, sys: Sys, step: Step)
    requires Inv(sys.db)
    ensures Extends(sys.db.rows, Apply(rules, parsers, sys, step).db.rows)
  {
    hide StoreOk, Exec, FetchLogin, SqlPoolFor, HttpClientFor;
    if step.Store? {
      ExecExtends(rules, sys.db, step.op);
    }
  }

  ghost predicate DeletedIn(sys: Sys, id: Id) {
    id < |sys.db.rows| && sys.db.rows[id].deleted
  }

  lemma {:induction false} DeletedStaysDeleted(rules: Rules, parsers: Parsers, steps: seq<Step>, n: nat, id: Id)
    requires n <= |steps|
    ensures DeletedIn(RunSystem(rules, parsers, steps[..n]), id) ==> DeletedIn(RunSystem(rules, parsers, steps), id)
  {
    if n == |steps| {
      assert steps[..n] == steps;
    } else {
      var init := steps[..|steps| - 1];
      assert init[..n] == steps[..n];
      DeletedStaysDeleted(rules, parsers, init, n, id);
      RunKeepsCoherent(rules, parsers, init);
      hide Inv, Apply;
      StepExtends(rules, parsers, RunSystem(rules, parsers, init), steps[|steps| - 1]);
    }
  }

  /** After a delete, registering the same alias again gives calls another id: nothing cached
      under the deleted one can reach them. */
  lemma ReRegisteredAliasGetsNewEntries(rules: Rules, parsers: Parsers, steps: seq<Step>, n: nat, id: Id,
                                        owner: Owner, alias: string, category: Category)
    requires n <= |steps|
    ensures var login := FetchLogin(RunSystem(rules, parsers, steps).db, owner, alias, category);
            DeletedIn(RunSystem(rules, parsers, steps[..n]), id) && login.Some? ==> login.value.id != id
  {
    DeletedStaysDeleted(rules, parsers, steps, n, id);
    RunKeepsCoherent(rules, parsers, steps);
    var db := RunSystem(rules, parsers, steps).db;
    hide Inv, RunSystem, FetchLogin;
    if FetchLogin(db, owner, alias, category).Some? {
      FetchedLogin(db, owner, alias, category);
    }
  }
}
