/** The life of a user's master password: the salt file, the encrypted database, the wrapped KEK and what it wraps. */
module Passwords {
  import opened Wrappers
  import opened Crypto

  datatype Wrapped = Wrapped(cipher: Octets, nonce: Term)

  /** One database file. Nothing fixes its key until something has been written to it. */
  datatype Vault = Vault(key: Option<Term>, kek: Option<Wrapped>, secrets: map<string, Wrapped>)

  /** An open database: whose it is, and the key it was opened with. */
  datatype Connection = Connection(user: string, key: Term)

  /** Files and singletons of one installation. */
  datatype Client = Client(
    salts: map<string, Term>, vaults: map<string, Vault>, open: Option<Connection>, kek: Option<Term>)

  datatype Error = NoSalt | WrongPassword | NoKek | KekNotLoaded | NotOpen | NoSecret

  function MasterKey(password: string, salt: Term): Term {
    Pwhash(password, salt)
  }

  function Wrap(key: Term, nonce: Term, plain: Octets): Wrapped {
    Wrapped(Seal(key, nonce, plain), nonce)
  }

  function Unwrap(key: Term, w: Wrapped): Option<Octets> {
    Crypto.Open(key, w.nonce, w.cipher)
  }

  /** A file that does not exist opens as an empty database. */
  function FileIn(vaults: map<string, Vault>, user: string): Vault {
    if user in vaults then vaults[user] else Vault(None, None, map[])
  }

  function VaultOf(c: Client, user: string): Vault {
    FileIn(c.vaults, user)
  }

  // ---- The database ----

  predicate Accepts(v: Vault, key: Term) {
    v.key.None? || v.key == Some(key)
  }

  /** Opening does nothing when a database is open already, whoever's it is. */
  function Initialize(c: Client, user: string, key: Term): (Client, bool) {
    if c.open.Some? then (c, true)
    else if Accepts(VaultOf(c, user), key) then (c.(open := Some(Connection(user, key))), true)
    else (c, false)
  }

  /** A write to the open database; the first one fixes its key. */
  function Written(vaults: map<string, Vault>, conn: Connection, kek: Option<Wrapped>, secrets: map<string, Wrapped>)
    : map<string, Vault>
  {
    var v := FileIn(vaults, conn.user);
    vaults[conn.user := Vault(if v.key.Some? then v.key else Some(conn.key), kek, secrets)]
  }

  function Rekeyed(vaults: map<string, Vault>, user: string, key: Term): map<string, Vault> {
    vaults[user := FileIn(vaults, user).(key := Some(key))]
  }

  lemma WriteAfterRekey(
      vaults: map<string, Vault>, conn: Connection, kek: Option<Wrapped>, secrets: map<string, Wrapped>)
    ensures Written(Rekeyed(vaults, conn.user, conn.key), conn, kek, secrets)
         == vaults[conn.user := Vault(Some(conn.key), kek, secrets)]
    ensures FileIn(Rekeyed(vaults, conn.user, conn.key), conn.user).secrets == FileIn(vaults, conn.user).secrets
  {
  }

  function Write(c: Client, kek: Option<Wrapped>, secrets: map<string, Wrapped>): Client
    requires c.open.Some?
  {
    c.(vaults := Written(c.vaults, c.open.value, kek, secrets))
  }

  // ---- Operations ----

  function SetUp(c: Client, user: string, password: string, salt: Term, kek: Term, nonce: Term)
    : (Client, Result<(), Error>)
  {
    var master := MasterKey(password, salt);
    var (d, opens) := Initialize(c.(salts := c.salts[user := salt]), user, master);
    if !opens then (d, Failure(WrongPassword))
    else
      var v := VaultOf(d, d.open.value.user);
      (Write(d, Some(Wrap(master, nonce, Bytes(kek, KEY_LENGTH))), v.secrets).(kek := Some(kek)), Success(()))
  }

  /** The part of login_user that unlocks the local secrets. */
  function Login(c: Client, user: string, password: string): (Client, Result<(), Error>) {
    if user !in c.salts then (c, Failure(NoSalt))
    else
      var master := MasterKey(password, c.salts[user]);
      var (d, opens) := Initialize(c, user, master);
      if !opens then (d, Failure(WrongPassword))
      else
        var row := VaultOf(d, d.open.value.user).kek;
        if row.None? then (d, Failure(NoKek))
        else
          match Unwrap(master, row.value)
          case None => (d, Failure(WrongPassword))
          case Some(kek) => (d.(kek := Some(Word(kek))), Success(()))
  }

  function Logout(c: Client): Client {
    c.(open := None, kek := None)
  }

  function Rotate(c: Client, user: string, current: string, next: string, salt: Term, nonce: Term)
    : (Client, Result<(), Error>)
  {
    if c.kek.None? then (c, Failure(KekNotLoaded))
    else if user !in c.salts then (c, Failure(NoSalt))
    else if c.open.None? then (c, Failure(NotOpen))
    else
      var owner, oldKey, newKey := c.open.value.user, MasterKey(current, c.salts[user]), MasterKey(next, salt);
      var v := VaultOf(c, owner);
      if !Accepts(v, oldKey) then (c, Failure(WrongPassword))
      else
        var w := Wrap(newKey, nonce, Bytes(c.kek.value, KEY_LENGTH));
        (c.(salts := c.salts[user := salt],
            vaults := c.vaults[owner := Vault(Some(newKey), Some(w), v.secrets)],
            open := Some(Connection(owner, newKey))),
         Success(()))
  }

  /** Saving a secret under a label, as for the keypairs and keys. */
  function Store(c: Client, name: string, secret: Octets, nonce: Term): (Client, Result<(), Error>) {
    if c.kek.None? then (c, Failure(KekNotLoaded))
    else if c.open.None? then (c, Failure(NotOpen))
    else
      var v := VaultOf(c, c.open.value.user);
      (Write(c, v.kek, v.secrets[name := Wrap(c.kek.value, nonce, secret)]), Success(()))
  }

  function Load(c: Client, name: string): Result<Octets, Error> {
    if c.open.None? then Failure(NotOpen)
    else
      var v := VaultOf(c, c.open.value.user);
      if name !in v.secrets then Failure(NoSecret)
      else if c.kek.None? then Failure(KekNotLoaded)
      else
        match Unwrap(c.kek.value, v.secrets[name])
        case None => Failure(NoSecret)
        case Some(secret) => Success(secret)
  }

  // ---- What the files and singletons should say ----

  /** A user's current password, the KEK made at set-up, and what has been stored since. */
  datatype Account = Account(password: string, kek: Term, contents: map<string, Octets>)

  ghost predicate Locked(salt: Term, v: Vault, a: Account) {
    var master := MasterKey(a.password, salt);
    && v.key == Some(master)
    && v.kek.Some? && Unwrap(master, v.kek.value) == Some(Bytes(a.kek, KEY_LENGTH))
    && (forall k :: Unwrap(k, v.kek.value).Some? ==> k == master)
    && v.secrets.Keys == a.contents.Keys
    && (forall l | l in a.contents :: Unwrap(a.kek, v.secrets[l]) == Some(a.contents[l]))
    && (forall l, k | l in a.contents && Unwrap(k, v.secrets[l]).Some? :: k == a.kek)
  }

  ghost predicate FilesMatch(salts: map<string, Term>, vaults: map<string, Vault>, book: map<string, Account>) {
    && salts.Keys == book.Keys && vaults.Keys == book.Keys
    && forall u | u in book :: Locked(salts[u], vaults[u], book[u])
  }

  ghost predicate SingletonsMatch(c: Client, book: map<string, Account>) {
    match c.open
    case None => c.kek == None
    case Some(conn) =>
      && conn.user in book && VaultOf(c, conn.user).key == Some(conn.key) && c.kek == Some(book[conn.user].kek)
  }

  ghost predicate SaltsDiffer(salts: map<string, Term>) {
    forall u, v | u in salts && v in salts && salts[u] == salts[v] :: u == v
  }

  ghost predicate NewSalt(salts: map<string, Term>, salt: Term) {
    forall u | u in salts :: salts[u] != salt
  }

  ghost predicate InStep(c: Client, book: map<string, Account>) {
    FilesMatch(c.salts, c.vaults, book) && SingletonsMatch(c, book) && SaltsDiffer(c.salts)
  }

  lemma NothingYet()
    ensures InStep(Client(map[], map[], None, None), map[])
  {
  }

  datatype Deed =
    | SetsUp(user: string, password: string, salt: Term, kek: Term, nonce: Term)
    | LogsIn(user: string, password: string)
    | LogsOut
    | Rotates(user: string, current: string, next: string, salt: Term, nonce: Term)
    | Stores(name: string, secret: Octets, nonce: Term)

  function Do(c: Client, a: Deed): (Client, Result<(), Error>) {
    match a
    case SetsUp(user, password, salt, kek, nonce) => SetUp(c, user, password, salt, kek, nonce)
    case LogsIn(user, password) => Login(c, user, password)
    case LogsOut => (Logout(c), Success(()))
    case Rotates(user, current, next, salt, nonce) => Rotate(c, user, current, next, salt, nonce)
    case Stores(name, secret, nonce) => Store(c, name, secret, nonce)
  }

  /** What a deed is meant to do to the accounts. */
  function Meant(c: Client, book: map<string, Account>, a: Deed): map<string, Account> {
    if Do(c, a).1.Failure? then book
    else
      match a
      case SetsUp(user, password, _, kek, _) => book[user := Account(password, kek, map[])]
      case Rotates(user, _, next, _, _) => if user in book then book[user := book[user].(password := next)] else book
      case Stores(name, secret, _) =>
        if c.open.Some? && c.open.value.user in book then
          var a := book[c.open.value.user];
          book[c.open.value.user := a.(contents := a.contents[name := secret])]
        else book
      case _ => book
  }

  // ---- Wrapping ----

  lemma NewlyLocked(salt: Term, password: string, kek: Term, nonce: Term, secrets: map<string, Wrapped>, a: Account)
    requires a.password == password && a.kek == kek && secrets.Keys == a.contents.Keys
    requires forall l | l in a.contents :: Unwrap(kek, secrets[l]) == Some(a.contents[l])
    requires forall l, k | l in a.contents && Unwrap(k, secrets[l]).Some? :: k == kek
    ensures var master := MasterKey(password, salt);
      Locked(salt, Vault(Some(master), Some(Wrap(master, nonce, Bytes(kek, KEY_LENGTH))), secrets), a)
  {
    var master := MasterKey(password, salt);
    var w := Wrap(master, nonce, Bytes(kek, KEY_LENGTH));
    forall k ensures Unwrap(k, w).Some? <==> k == master {
      OpenSeal(master, nonce, Bytes(kek, KEY_LENGTH), k, nonce);
    }
    OpenSeal(master, nonce, Bytes(kek, KEY_LENGTH), master, nonce);
  }

  lemma FilesMatchMore(
      salts: map<string, Term>, vaults: map<string, Vault>, book: map<string, Account>, user: string,
      salt: Term, v: Vault,
      a: Account)
    requires FilesMatch(salts, vaults, book) && Locked(salt, v, a)
    ensures FilesMatch(salts[user := salt], vaults[user := v], book[user := a])
  {
    hide Locked;
  }

  // ---- Each operation ----

  /** Setting up leaves everything in step exactly when the user has no database yet and none is open; otherwise it
      overwrites the salt of a key that stays. */
  lemma SetUpKeepsExactly(
      c: Client, book: map<string, Account>, user: string, password: string, salt: Term, kek: Term, nonce: Term)
    requires InStep(c, book) && NewSalt(c.salts, salt)
    ensures var a := SetsUp(user, password, salt, kek, nonce);
      InStep(Do(c, a).0, Meant(c, book, a)) <==> user !in book && c.open.None?
  {
    hide FilesMatch, Locked;
    if user in book {
      OneFileEach(c, book);
      assert c.salts[user] != salt;
      SetUpKnownUser(c, book, user, password, salt, kek, nonce);
    } else if c.open.None? {
      SetUpNewUser(c, book, user, password, salt, kek, nonce);
    } else {
      SetUpWhileOpen(c, book, user, password, salt, kek, nonce);
    }
  }

  /** The new user gets a salt but no database, and the KEK goes to the one that is open. */
  lemma SetUpWhileOpen(
      c: Client, book: map<string, Account>, user: string, password: string, salt: Term, kek: Term, nonce: Term)
    requires InStep(c, book) && user !in book && c.open.Some?
    ensures SetUp(c, user, password, salt, kek, nonce).1 == Success(())
    ensures var d := SetUp(c, user, password, salt, kek, nonce).0;
      && user in d.salts && user !in d.vaults
      && !InStep(d, Meant(c, book, SetsUp(user, password, salt, kek, nonce)))
  {
    hide Locked;
  }

  lemma SetUpNewUser(
      c: Client, book: map<string, Account>, user: string, password: string, salt: Term, kek: Term, nonce: Term)
    requires InStep(c, book) && user !in book && c.open.None? && NewSalt(c.salts, salt)
    ensures var (d, r) := SetUp(c, user, password, salt, kek, nonce);
      r.Success? && InStep(d, book[user := Account(password, kek, map[])])
  {
    hide FilesMatch, Locked;
    var a := Account(password, kek, map[]);
    NewlyLocked(salt, password, kek, nonce, map[], a);
    assert user !in c.vaults by {
      assert c.vaults.Keys == book.Keys by { OneFileEach(c, book); }
    }
    var master := MasterKey(password, salt);
    FilesMatchMore(
      c.salts, c.vaults, book, user, salt,
      Vault(Some(master), Some(Wrap(master, nonce, Bytes(kek, KEY_LENGTH))), map[]), a);
  }

  lemma OneFileEach(c: Client, book: map<string, Account>)
    requires InStep(c, book)
    ensures c.salts.Keys == book.Keys && c.vaults.Keys == book.Keys
  {
  }

  lemma FilesOf(salts: map<string, Term>, vaults: map<string, Vault>, book: map<string, Account>, user: string)
    requires FilesMatch(salts, vaults, book) && user in book
    ensures user in salts && user in vaults && Locked(salts[user], vaults[user], book[user])
    ensures vaults[user].key == Some(MasterKey(book[user].password, salts[user]))
  {
  }

  /** Set-up never changes the key of a database that has one. */
  lemma SetUpKeepsKeys(c: Client, user: string, password: string, salt: Term, kek: Term, nonce: Term, u: string)
    requires u in c.vaults && c.vaults[u].key.Some?
    ensures var d := SetUp(c, user, password, salt, kek, nonce).0;
      u in d.vaults && d.vaults[u].key == c.vaults[u].key && d.salts == c.salts[user := salt]
  {
  }

  /** The database keeps the key of the old salt, so that no password opens it any more. */
  lemma SetUpKnownUser(
      c: Client, book: map<string, Account>, user: string, password: string, salt: Term, kek: Term, nonce: Term)
    requires InStep(c, book) && user in book && (user in c.salts ==> c.salts[user] != salt)
    ensures SetUp(c, user, password, salt, kek, nonce).1
         == if c.open.None? then Failure(WrongPassword) else Success(())
    ensures var d := SetUp(c, user, password, salt, kek, nonce).0;
      && user in d.salts && user in d.vaults
      && (forall p :: !Accepts(d.vaults[user], MasterKey(p, d.salts[user])))
      && !InStep(d, Meant(c, book, SetsUp(user, password, salt, kek, nonce)))
  {
    hide FilesMatch, Locked;
    FilesOf(c.salts, c.vaults, book, user);
    SetUpKeepsKeys(c, user, password, salt, kek, nonce, user);
    var d, more :=
      SetUp(c, user, password, salt, kek, nonce).0, Meant(c, book, SetsUp(user, password, salt, kek, nonce));
    if FilesMatch(d.salts, d.vaults, more) {
      FilesOf(d.salts, d.vaults, more, user);
    }
  }

  /** While nothing is open, a login succeeds exactly with the user's current password, and then holds the KEK made at
      set-up; any other login changes nothing. */
  lemma LoginExactly(c: Client, book: map<string, Account>, user: string, password: string)
    requires InStep(c, book) && c.open.None?
    ensures var (d, r) := Login(c, user, password);
      && InStep(d, book)
      && r == (if user !in book then Failure(NoSalt)
               else if password == book[user].password then Success(()) else Failure(WrongPassword))
      && (if r.Success? then d == c.(open := d.open, kek := Some(book[user].kek))
              && d.open.Some? && d.open.value.user == user
          else d == c)
  {
    if user in book {
      assert Locked(c.salts[user], c.vaults[user], book[user]);
      WordOfBytes(book[user].kek, KEY_LENGTH);
    }
  }

  /** While a database is open, no login changes anything, whoever tries to log in. */
  lemma LoginWhileOpen(c: Client, book: map<string, Account>, user: string, password: string)
    requires InStep(c, book) && c.open.Some?
    ensures Login(c, user, password).0 == c
    ensures Login(c, user, password).1
         == if user !in book then Failure(NoSalt)
            else if user == c.open.value.user && password == book[user].password then Success(())
            else Failure(WrongPassword)
  {
    var owner := c.open.value.user;
    assert Locked(c.salts[owner], c.vaults[owner], book[owner]);
    WordOfBytes(book[owner].kek, KEY_LENGTH);
  }

  /** A rotation succeeds exactly for the user who is logged in, with the current password; it then changes the password
      and nothing else. With a wrong one, or for anyone else, it changes nothing at all. */
  lemma RotateExactly(
      c: Client, book: map<string, Account>, user: string, current: string, next: string, salt: Term, nonce: Term)
    requires InStep(c, book)
    ensures var (d, r) := Rotate(c, user, current, next, salt, nonce);
      && r == (if c.open.None? then Failure(KekNotLoaded)
               else if user !in book then Failure(NoSalt)
               else if c.open.value.user == user && current == book[user].password then Success(())
               else Failure(WrongPassword))
      && (r.Failure? ==> d == c)
      && (r.Success? ==> d.kek == c.kek)
      && (r.Success? && NewSalt(c.salts, salt) ==> InStep(d, book[user := book[user].(password := next)]))
  {
    hide FilesMatch, Locked, SaltsDiffer, NewSalt;
    OneFileEach(c, book);
    if c.open.Some? {
      var owner := c.open.value.user;
      FilesOf(c.salts, c.vaults, book, owner);
      if owner == user {
        RotatedFiles(c.salts, c.vaults, book, user, next, salt, nonce);
        if NewSalt(c.salts, salt) {
          SaltsDifferMore(c.salts, user, salt);
        }
      } else if user in c.salts {
        OtherSalt(c.salts, owner, user);
      }
    }
  }

  lemma SaltsDifferMore(salts: map<string, Term>, user: string, salt: Term)
    requires SaltsDiffer(salts) && NewSalt(salts, salt)
    ensures SaltsDiffer(salts[user := salt])
  {
  }

  lemma OtherSalt(salts: map<string, Term>, u: string, v: string)
    requires SaltsDiffer(salts) && u in salts && v in salts && u != v
    ensures salts[u] != salts[v]
  {
  }

  lemma RotatedFiles(
      salts: map<string, Term>, vaults: map<string, Vault>, book: map<string, Account>, user: string, next: string,
      salt: Term, nonce: Term)
    requires FilesMatch(salts, vaults, book) && user in book
    ensures var master := MasterKey(next, salt);
      var v := Vault(Some(master), Some(Wrap(master, nonce, Bytes(book[user].kek, KEY_LENGTH))), vaults[user].secrets);
      FilesMatch(salts[user := salt], vaults[user := v], book[user := book[user].(password := next)])
  {
    var a, master := book[user].(password := next), MasterKey(next, salt);
    assert Locked(salts[user], vaults[user], book[user]);
    NewlyLocked(salt, next, a.kek, nonce, vaults[user].secrets, a);
    FilesMatchMore(
      salts, vaults, book, user, salt,
      Vault(Some(master), Some(Wrap(master, nonce, Bytes(a.kek, KEY_LENGTH))), vaults[user].secrets), a);
  }

  lemma StoreKeeps(c: Client, book: map<string, Account>, name: string, secret: Octets, nonce: Term)
    requires InStep(c, book)
    ensures InStep(Store(c, name, secret, nonce).0, Meant(c, book, Stores(name, secret, nonce)))
    ensures Store(c, name, secret, nonce).1 == if c.open.None? then Failure(KekNotLoaded) else Success(())
  {
    hide FilesMatch, Locked;
    if c.open.Some? {
      var owner := c.open.value.user;
      FilesOf(c.salts, c.vaults, book, owner);
      var v, a := c.vaults[owner], book[owner];
      var w, more := v.secrets[name := Wrap(a.kek, nonce, secret)], a.(contents := a.contents[name := secret]);
      LockedMore(c.salts[owner], v, a, name, secret, nonce);
      FilesMatchMore(c.salts, c.vaults, book, owner, c.salts[owner], Vault(v.key, v.kek, w), more);
      assert c.salts[owner := c.salts[owner]] == c.salts;
    }
  }

  lemma LockedMore(salt: Term, v: Vault, a: Account, name: string, secret: Octets, nonce: Term)
    requires Locked(salt, v, a)
    ensures Locked(salt, Vault(v.key, v.kek, v.secrets[name := Wrap(a.kek, nonce, secret)]),
                   a.(contents := a.contents[name := secret]))
  {
    forall k ensures Unwrap(k, Wrap(a.kek, nonce, secret)) == if k == a.kek then Some(secret) else None {
      OpenSeal(a.kek, nonce, secret, k, nonce);
    }
  }

  // ---- Whole lives ----

  /** Set-up is for new users while nobody is logged in; salts are drawn new. */
  ghost predicate Allowed(c: Client, book: map<string, Account>, a: Deed) {
    match a
    case SetsUp(user, _, salt, _, _) => user !in book && c.open.None? && NewSalt(c.salts, salt)
    case Rotates(_, _, _, salt, _) => NewSalt(c.salts, salt)
    case _ => true
  }

  lemma DoKeepsInStep(c: Client, book: map<string, Account>, a: Deed)
    requires InStep(c, book) && Allowed(c, book, a)
    ensures InStep(Do(c, a).0, Meant(c, book, a))
    ensures forall u | u in book :: u in Meant(c, book, a) && Meant(c, book, a)[u].kek == book[u].kek
  {
    hide InStep;
    match a {
      case SetsUp(user, password, salt, kek, nonce) => SetUpKeepsExactly(c, book, user, password, salt, kek, nonce);
      case LogsIn(user, password) => LoginKeeps(c, book, user, password);
      case LogsOut => LogoutKeeps(c, book);
      case Rotates(user, current, next, salt, nonce) => RotateKeeps(c, book, user, current, next, salt, nonce);
      case Stores(name, secret, nonce) => StoreKeeps(c, book, name, secret, nonce);
    }
  }

  lemma LoginKeeps(c: Client, book: map<string, Account>, user: string, password: string)
    requires InStep(c, book)
    ensures InStep(Login(c, user, password).0, book)
  {
    hide InStep, Login;
    if c.open.None? {
      LoginExactly(c, book, user, password);
    } else {
      LoginWhileOpen(c, book, user, password);
    }
  }

  lemma LogoutKeeps(c: Client, book: map<string, Account>)
    requires InStep(c, book)
    ensures InStep(Logout(c), book)
  {
    hide FilesMatch;
  }

  lemma RotateKeeps(
      c: Client, book: map<string, Account>, user: string, current: string, next: string, salt: Term, nonce: Term)
    requires InStep(c, book) && NewSalt(c.salts, salt)
    ensures InStep(
      Rotate(c, user, current, next, salt, nonce).0, Meant(c, book, Rotates(user, current, next, salt, nonce)))
  {
    hide FilesMatch;
    RotateExactly(c, book, user, current, next, salt, nonce);
  }

  function DoAll(c: Client, deeds: seq<Deed>): Client {
    if deeds == [] then c else Do(DoAll(c, deeds[..|deeds| - 1]), deeds[|deeds| - 1]).0
  }

  ghost function BookAfter(c: Client, book: map<string, Account>, deeds: seq<Deed>): map<string, Account> {
    if deeds == [] then book
    else
      var init := deeds[..|deeds| - 1];
      Meant(DoAll(c, init), BookAfter(c, book, init), deeds[|deeds| - 1])
  }

  ghost predicate AllAllowed(c: Client, book: map<string, Account>, deeds: seq<Deed>) {
    forall i | 0 <= i < |deeds| :: Allowed(DoAll(c, deeds[..i]), BookAfter(c, book, deeds[..i]), deeds[i])
  }

  lemma {:induction false} LifeInStep(c: Client, book: map<string, Account>, deeds: seq<Deed>)
    requires InStep(c, book) && AllAllowed(c, book, deeds)
    ensures InStep(DoAll(c, deeds), BookAfter(c, book, deeds))
  {
    hide InStep, Allowed, Do, Meant;
    if deeds != [] {
      AllowedBefore(c, book, deeds);
      LifeInStep(c, book, deeds[..|deeds| - 1]);
      LastDeed(c, book, deeds);
    }
  }

  lemma AllowedBefore(c: Client, book: map<string, Account>, deeds: seq<Deed>)
    requires deeds != [] && AllAllowed(c, book, deeds)
    ensures AllAllowed(c, book, deeds[..|deeds| - 1])
  {
    hide Allowed, Do, Meant;
    var init := deeds[..|deeds| - 1];
    assert forall i | 0 <= i < |init| :: init[..i] == deeds[..i];
  }

  lemma LastDeed(c: Client, book: map<string, Account>, deeds: seq<Deed>)
    requires deeds != [] && AllAllowed(c, book, deeds)
    requires var init := deeds[..|deeds| - 1]; InStep(DoAll(c, init), BookAfter(c, book, init))
    ensures InStep(DoAll(c, deeds), BookAfter(c, book, deeds))
    ensures var before := BookAfter(c, book, deeds[..|deeds| - 1]);
      forall u | u in before :: u in BookAfter(c, book, deeds) && BookAfter(c, book, deeds)[u].kek == before[u].kek
  {
    hide InStep, Allowed, Do, Meant;
    var init := deeds[..|deeds| - 1];
    DoKeepsInStep(DoAll(c, init), BookAfter(c, book, init), deeds[|deeds| - 1]);
  }

  /** Whoever has an account at some point of a life keeps it, with the KEK it has then, to the end. */
  lemma {:induction false} KekStays(c: Client, book: map<string, Account>, deeds: seq<Deed>, i: nat, user: string)
    requires InStep(c, book) && AllAllowed(c, book, deeds)
    requires i <= |deeds| && user in BookAfter(c, book, deeds[..i])
    ensures user in BookAfter(c, book, deeds)
    ensures BookAfter(c, book, deeds)[user].kek == BookAfter(c, book, deeds[..i])[user].kek
    decreases |deeds|
  {
    hide InStep, Allowed, Do, Meant;
    if i == |deeds| {
      assert deeds[..i] == deeds;
    } else {
      var init := deeds[..|deeds| - 1];
      assert init[..i] == deeds[..i];
      AllowedBefore(c, book, deeds);
      KekStays(c, book, init, i, user);
      LifeInStep(c, book, init);
      LastDeed(c, book, deeds);
    }
  }

  lemma LoadsStored(c: Client, book: map<string, Account>, name: string)
    requires InStep(c, book) && c.open.Some?
    ensures var contents := book[c.open.value.user].contents;
      Load(c, name) == if name in contents then Success(contents[name]) else Failure(NoSecret)
  {
    FilesOf(c.salts, c.vaults, book, c.open.value.user);
  }

  /** After any allowed life, from a fresh installation on, every user who has an account gets in with the current
      password and with no other, and then has the KEK of the account and every secret stored since set-up. */
  lemma CurrentPasswordUnlocks(
      c: Client, book: map<string, Account>, deeds: seq<Deed>, user: string, password: string, name: string)
    requires InStep(c, book) && AllAllowed(c, book, deeds)
    ensures var more := BookAfter(c, book, deeds);
      var (d, r) := Login(Logout(DoAll(c, deeds)), user, password);
      && (r.Success? <==> user in more && password == more[user].password)
      && (r.Success? ==>
            && d.kek == Some(more[user].kek)
            && var stored := more[user].contents;
               Load(d, name) == if name in stored then Success(stored[name]) else Failure(NoSecret))
  {
    hide InStep, AllAllowed, DoAll, Load, BookAfter;
    LifeInStep(c, book, deeds);
    var e, more := DoAll(c, deeds), BookAfter(c, book, deeds);
    LogoutKeeps(e, more);
    LoggedOut(e);
    LoginExactly(Logout(e), more, user, password);
    var (d, r) := Login(Logout(e), user, password);
    if r.Success? {
      LoadsStored(d, more, name);
    }
  }

  lemma LoggedOut(c: Client)
    ensures Logout(c).open.None?
  {
  }
}
