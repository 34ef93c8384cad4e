/** What was stored for an account under its KEK is there after every later login. */
module Accounts {
  import opened Wrappers
  import opened Crypto
  import opened Passwords
  import Database
  import R = Reloading
  import Sessions
  import Sharing

  /** After a life that went on from when the account existed, logging in gives the KEK it had then. */
  lemma LoginGivesKek(
      c: Client, book: map<string, Account>, deeds: seq<Deed>, i: nat, user: string, password: string)
    requires InStep(c, book) && AllAllowed(c, book, deeds)
    requires i <= |deeds| && user in BookAfter(c, book, deeds[..i])
    ensures var (d, r) := Login(Logout(DoAll(c, deeds)), user, password);
      && user in BookAfter(c, book, deeds) && (r.Success? <==> password == BookAfter(c, book, deeds)[user].password)
      && (r.Success? ==> d.kek == Some(BookAfter(c, book, deeds[..i])[user].kek))
  {
    hide InStep, AllAllowed, DoAll, BookAfter, Login;
    KekStays(c, book, deeds, i, user);
    CurrentPasswordUnlocks(c, book, deeds, user, password, "");
  }

  /** Whatever set-ups, logins, logouts, rotations and stores come in between: whoever logs in with the current password
      loads sessions that are, as far as anything reads them, the ones that were in step with the rows. */
  lemma LoginFindsSessions(
      c: Client, book: map<string, Account>, deeds: seq<Deed>, i: nat, user: string, password: string,
      sessions: R.Installed, loaded: Sessions.Sessions)
    requires InStep(c, book) && AllAllowed(c, book, deeds)
    requires i <= |deeds| && user in BookAfter(c, book, deeds[..i])
    requires R.InStep(sessions, BookAfter(c, book, deeds[..i])[user].kek)
    ensures var (d, r) := Login(Logout(DoAll(c, deeds)), user, password);
      r.Success? ==>
        && d.kek.Some?
        && (R.LoadedFromRows(loaded, sessions.tables, d.kek.value) ==> R.Alike(sessions.memory, loaded))
  {
    hide InStep, AllAllowed, DoAll, BookAfter, Login, R.LoadedFromRows, R.Alike;
    LoginGivesKek(c, book, deeds, i, user, password);
    var kek := BookAfter(c, book, deeds[..i])[user].kek;
    if R.LoadedFromRows(loaded, sessions.tables, kek) {
      R.ReloadAlikeExactly(sessions, kek, loaded);
    }
  }

  /** And reads every message that was kept. */
  lemma LoginFindsMessages(
      c: Client, book: map<string, Account>, deeds: seq<Deed>, i: nat, user: string, password: string,
      t: Database.Tables, t': Database.Tables, kept: map<string, Database.Entry>)
    requires InStep(c, book) && AllAllowed(c, book, deeds)
    requires i <= |deeds| && user in BookAfter(c, book, deeds[..i])
    requires Sharing.Kept(t, t', BookAfter(c, book, deeds[..i])[user].kek, kept)
    ensures var (d, r) := Login(Logout(DoAll(c, deeds)), user, password);
      r.Success? ==>
        d.kek.Some? && forall uuid | uuid in kept :: Database.EntryWritten(t', d.kek.value, uuid, kept[uuid])
  {
    hide InStep, AllAllowed, DoAll, BookAfter, Login, Database.StoredMessage;
    LoginGivesKek(c, book, deeds, i, user, password);
  }
}
