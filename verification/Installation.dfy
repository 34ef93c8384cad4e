/** The files and singletons of one installation as objects that set-up, login, logout and rotation update in place. */
module Installation {
  import opened Wrappers
  import opened Crypto
  import P = Passwords

  /** The one database connection, over the files on disk. */
  class EncryptedStore {
    var files: map<string, P.Vault>
    var connection: Option<P.Connection>

    constructor ()
      ensures files == map[] && connection == None
    {
      files, connection := map[], None;
    }

    function File(user: string): P.Vault
      reads this
    {
      P.FileIn(files, user)
    }

    method Initialize(user: string, key: Term) returns (ok: bool)
      modifies this`connection
      ensures ok <==> old(connection).Some? || P.Accepts(File(user), key)
      ensures connection == if old(connection).None? && ok then Some(P.Connection(user, key)) else old(connection)
    {
      if connection.Some? {
        return true;
      }
      if !P.Accepts(File(user), key) {
        return false;
      }
      connection := Some(P.Connection(user, key));
      return true;
    }

    method CloseDatabase()
      modifies this`connection
      ensures connection == None
    {
      connection := None;
    }

    /** Opens the file of the current connection a second time. */
    method VerifyMasterKey(key: Term) returns (ok: bool)
      ensures ok <==> connection.Some? && P.Accepts(File(connection.value.user), key)
    {
      if connection.None? {
        return false;
      }
      return P.Accepts(File(connection.value.user), key);
    }

    method RotateMasterKey(oldKey: Term, newKey: Term) returns (error: Option<P.Error>)
      modifies this`files, this`connection
      ensures error == (if old(connection).None? then Some(P.NotOpen)
                        else if P.Accepts(old(File(connection.value.user)), oldKey) then None
                        else Some(P.WrongPassword))
      ensures error.Some? ==> files == old(files) && connection == old(connection)
      ensures error.None? ==>
        var user := old(connection).value.user;
        && files == P.Rekeyed(old(files), user, newKey)
        && connection == Some(P.Connection(user, newKey))
    {
      if connection.None? {
        return Some(P.NotOpen);
      }
      var verified := VerifyMasterKey(oldKey);
      if !verified {
        return Some(P.WrongPassword);
      }
      var user := connection.value.user;
      files := P.Rekeyed(files, user, newKey);
      connection := Some(P.Connection(user, newKey));
      return None;
    }

    /** INSERT OR REPLACE into the tables of the open database. */
    method Save(kek: Option<P.Wrapped>, secrets: map<string, P.Wrapped>)
      requires connection.Some?
      modifies this`files
      ensures files == P.Written(old(files), connection.value, kek, secrets)
    {
      files := P.Written(files, connection.value, kek, secrets);
    }
  }

  class Installation {
    var salts: map<string, Term>
    var kek: Option<Term>
    const store: EncryptedStore

    constructor (store: EncryptedStore)
      ensures this.store == store && salts == map[] && kek == None
    {
      salts, kek := map[], None;
      this.store := store;
    }

    ghost function View(): P.Client
      reads this, store
    {
      P.Client(salts, store.files, store.connection, kek)
    }

    method SetUpClientForUser(user: string, password: string, salt: Term, drawn: Term, nonce: Term)
        returns (result: Result<(), P.Error>)
      modifies this, store
      ensures var (c, r) := P.SetUp(old(View()), user, password, salt, drawn, nonce); View() == c && result == r
    {
      hide P.Written, P.Rekeyed, P.FileIn;
      var master := P.MasterKey(password, salt);
      salts := salts[user := salt];
      var ok := store.Initialize(user, master);
      if !ok {
        return Failure(P.WrongPassword);
      }
      var wrapped := P.Wrap(master, nonce, Bytes(drawn, KEY_LENGTH));
      kek := Some(drawn);
      store.Save(Some(wrapped), store.File(store.connection.value.user).secrets);
      return Success(());
    }

    method LoginUser(user: string, password: string) returns (result: Result<(), P.Error>)
      modifies this`kek, store`connection
      ensures var (c, r) := P.Login(old(View()), user, password); View() == c && result == r
    {
      if user !in salts {
        return Failure(P.NoSalt);
      }
      var master := P.MasterKey(password, salts[user]);
      var ok := store.Initialize(user, master);
      if !ok {
        return Failure(P.WrongPassword);
      }
      var row := store.File(store.connection.value.user).kek;
      if row.None? {
        return Failure(P.NoKek);
      }
      var unwrapped := P.Unwrap(master, row.value);
      if unwrapped.None? {
        return Failure(P.WrongPassword);
      }
      kek := Some(Word(unwrapped.value));
      return Success(());
    }

    method Logout()
      modifies this`kek, store`connection
      ensures View() == P.Logout(old(View()))
    {
      store.CloseDatabase();
      kek := None;
    }

    method RotateMasterPassword(user: string, current: string, next: string, salt: Term, nonce: Term)
        returns (result: Result<(), P.Error>)
      modifies this`salts, store
      ensures var (c, r) := P.Rotate(old(View()), user, current, next, salt, nonce); View() == c && result == r
    {
      hide P.Written, P.Rekeyed, P.FileIn;
      if kek.None? {
        return Failure(P.KekNotLoaded);
      }
      if user !in salts {
        return Failure(P.NoSalt);
      }
      var newKey := P.MasterKey(next, salt);
      var error := store.RotateMasterKey(P.MasterKey(current, salts[user]), newKey);
      if error.Some? {
        return Failure(error.value);
      }
      salts := salts[user := salt];
      var wrapped := P.Wrap(newKey, nonce, Bytes(kek.value, KEY_LENGTH));
      P.WriteAfterRekey(
        old(store.files), store.connection.value, Some(wrapped), store.File(store.connection.value.user).secrets);
      store.Save(Some(wrapped), store.File(store.connection.value.user).secrets);
      return Success(());
    }

    method StoreSecret(name: string, secret: Octets, nonce: Term) returns (result: Result<(), P.Error>)
      modifies store`files
      ensures var (c, r) := P.Store(old(View()), name, secret, nonce); View() == c && result == r
    {
      hide P.Written, P.Rekeyed, P.FileIn;
      if kek.None? {
        return Failure(P.KekNotLoaded);
      }
      var wrapped := P.Wrap(kek.value, nonce, secret);
      if store.connection.None? {
        return Failure(P.NotOpen);
      }
      var v := store.File(store.connection.value.user);
      store.Save(v.kek, v.secrets[name := wrapped]);
      return Success(());
    }

    method LoadSecret(name: string) returns (secret: Result<Octets, P.Error>)
      ensures secret == P.Load(View(), name)
    {
      if store.connection.None? {
        return Failure(P.NotOpen);
      }
      var v := store.File(store.connection.value.user);
      if name !in v.secrets {
        return Failure(P.NoSecret);
      }
      if kek.None? {
        return Failure(P.KekNotLoaded);
      }
      var plain := P.Unwrap(kek.value, v.secrets[name]);
      if plain.None? {
        return Failure(P.NoSecret);
      }
      return Success(plain.value);
    }
  }
}
