/** The database copy of the sessions keeps up with memory, so that a restart rebuilds them. */
module Coherence {
  import opened Crypto
  import opened Ratchet
  import opened Codec
  import KeyBundle
  import opened Sessions
  import Database

  type Rows = Database.Rows

  /** Every session in memory is the one saved under its device, and nothing else is saved. */
  ghost predicate Coherent(m: Sessions, saved: Rows) {
    && (forall u, d | u in m && d in m[u] :: d in saved && saved[d] == (u, Observe(m[u][d])))
    && (forall d | d in saved :: saved[d].0 in m && d in m[saved[d].0])
  }

  /** Rows for all the given ratchets of one user. */
  ghost function RowsOf(user: string, r: Ratchets): Rows {
    map d | d in r :: (user, Observe(r[d]))
  }

  lemma SendKeepsCoherent(m: Sessions, saved: Rows, user: string)
    requires Coherent(m, saved)
    ensures Coherent(SendAll(m, user), saved + RowsOf(user, Of(SendAll(m, user), user)))
  {
    hide Observe, AfterSend;
    var m' := SendAll(m, user);
    var saved' := saved + RowsOf(user, m'[user]);
    forall u, d | u in m' && d in m'[u] ensures d in saved' && saved'[d] == (u, Observe(m'[u][d])) {
      if u != user {
        assert saved[d].0 == u;
        assert d !in m'[user];
      }
    }
  }

  lemma UpdateKeepsCoherent(m: Sessions, saved: Rows, user: string, d: DeviceId, t: State)
    requires Coherent(m, saved) && user in m && d in m[user]
    ensures Coherent(Put(m, user, d, t), saved[d := (user, Observe(t))])
  {
    var m', saved' := Put(m, user, d, t), saved[d := (user, Observe(t))];
    assert saved[d] == (user, Observe(m[user][d]));
    forall u, e | u in m' && e in m'[u] ensures e in saved' && saved'[e] == (u, Observe(m'[u][e])) {
      assert e in m[u] && saved[e] == (u, Observe(m[u][e]));
    }
  }

  /** Adding ratchets of one user, with their rows, keeps memory and rows in step exactly when no added device is one of
      another user's: a row is keyed by device alone. */
  lemma AddedCoherence(m: Sessions, saved: Rows, user: string, r: Ratchets)
    requires Coherent(m, saved)
    requires forall d | d in Of(m, user) :: d in r && r[d] == Of(m, user)[d]
    ensures Coherent(m[user := r], saved + RowsOf(user, Added(Of(m, user), r)))
       <==> forall d, u | d in r && d !in Of(m, user) && u in m && u != user :: d !in m[u]
  {
    hide Observe;
    var m' := m[user := r];
    var saved' := saved + RowsOf(user, Added(Of(m, user), r));
    if forall d, u | d in r && d !in Of(m, user) && u in m && u != user :: d !in m[u] {
      forall u, d | u in m' && d in m'[u] ensures d in saved' && saved'[d] == (u, Observe(m'[u][d])) {
        assert u != user || d in Of(m, user) ==> d in m[u] && saved[d] == (u, Observe(m[u][d]));
      }
      forall d | d in saved' ensures saved'[d].0 in m' && d in m'[saved'[d].0] {
        assert d in saved ==> saved[d].0 in m && d in m[saved[d].0];
      }
    } else {
      var d, u :| d in r && d !in Of(m, user) && u in m && u != user && d in m[u];
      assert d in m'[u] && saved'[d].0 == user;
    }
  }

  /** The ratchets that were not there before. */
  function Added(before: Ratchets, after: Ratchets): Ratchets {
    map d | d in after && d !in before :: after[d]
  }

  // ---- Operations ----

  datatype Operation =
    | Creates(user: string, offers: seq<Offer>, store: KeyBundle.KeyStore, post: bool)
    | Sends(user: string, me: DeviceId)
    | Receives(user: string, header: Header, drawn: nat)

  /** The sessions in memory, and the rows written through for them. */
  datatype Copies = Copies(memory: Sessions, rows: Rows)

  /** What an operation leaves in memory. */
  function Does(m: Sessions, op: Operation): Sessions {
    match op
    case Creates(user, offers, store, post) => m[user := CreateAll(Of(m, user), offers, store, post).ratchets]
    case Sends(user, _) => SendAll(m, user)
    case Receives(user, h, drawn) => ReceiveFrom(m, user, h, drawn).0
  }

  /** Whose ratchets an operation saves, and which. */
  function SavedBy(m: Sessions, op: Operation): Ratchets {
    match op
    case Creates(user, _, _, _) => Added(Of(m, user), Of(Does(m, op), user))
    case Sends(user, _) => Of(Does(m, op), user)
    case Receives(user, h, drawn) =>
      var (n, reply) := ReceiveFrom(m, user, h, drawn);
      if reply.Reply? && reply.outcome.Received? then map[h.deviceId := n[user][h.deviceId]] else map[]
  }

  ghost function After(c: Copies, op: Operation): Copies {
    Copies(Does(c.memory, op), c.rows + RowsOf(op.user, SavedBy(c.memory, op)))
  }

  /** Asked before the operation: no offer that creation gets to is for a new device that another user has, and no
      header has its key adopted only for the receive to throw. */
  ghost predicate Safe(m: Sessions, op: Operation) {
    match op
    case Creates(user, offers, store, _) => NoDeviceTaken(m, user, offers, store)
    case Sends(_, _) => true
    case Receives(user, h, _) => Has(m, user, h.deviceId) ==> !AdoptedThenThrown(m[user][h.deviceId], h)
  }

  ghost predicate NoDeviceTaken(m: Sessions, user: string, offers: seq<Offer>, store: KeyBundle.KeyStore) {
    forall i, u | 0 <= i < |offers| && Reached(Of(m, user), offers, store, i) && u in m && u != user ::
      var d := offers[i].bundle.theirDevicePublic; d in Of(m, user) || d !in m[u]
  }

  lemma CreationCoherence(
      m: Sessions, saved: Rows, user: string, offers: seq<Offer>, store: KeyBundle.KeyStore, post: bool)
    requires Coherent(m, saved)
    ensures var r := CreateAll(Of(m, user), offers, store, post).ratchets;
      Coherent(m[user := r], saved + RowsOf(user, Added(Of(m, user), r))) <==> NoDeviceTaken(m, user, offers, store)
  {
    hide Reached, Coherent, RowsOf;
    var known, r := Of(m, user), CreateAll(Of(m, user), offers, store, post).ratchets;
    CreationIsMonotone(known, offers, store, post);
    AddedCoherence(m, saved, user, r);
    forall d ensures d in r <==> WillHave(known, offers, store, d) {
      CreatedExactly(known, offers, store, post, d);
    }
  }

  lemma UnsavedChange(m: Sessions, saved: Rows, user: string, d: DeviceId, t: State)
    requires Coherent(m, saved) && Has(m, user, d) && t.remoteDhPublic != m[user][d].remoteDhPublic
    ensures !Coherent(Put(m, user, d, t), saved)
  {
    assert saved[d] == (user, Observe(m[user][d]));
    assert Put(m, user, d, t)[user][d] == t;
  }

  /** A receive that gives a key is saved, and one that throws is not; memory and database then agree unless the throw
      came after the header's key was adopted. */
  lemma ReceiveCoherence(m: Sessions, saved: Rows, user: string, h: Header, drawn: nat)
    requires Coherent(m, saved)
    ensures var c := After(Copies(m, saved), Receives(user, h, drawn));
      Coherent(c.memory, c.rows) <==> (Has(m, user, h.deviceId) ==> !AdoptedThenThrown(m[user][h.deviceId], h))
  {
    hide AdvanceReceive, Coherent, AdoptedThenThrown, AlreadyTaken, Observe;
    var c := After(Copies(m, saved), Receives(user, h, drawn));
    if Has(m, user, h.deviceId) {
      var s := m[user][h.deviceId];
      var (t, outcome) := AdvanceReceive(s, h, drawn);
      ThrowsExactly(s, h, drawn);
      AdoptedMeans(s, h);
      if outcome.Received? {
        UpdateKeepsCoherent(m, saved, user, h.deviceId, t);
        assert c.rows == saved[h.deviceId := (user, Observe(t))];
      } else {
        assert c.rows == saved;
        if AdoptedThenThrown(s, h) {
          UnsavedChange(m, saved, user, h.deviceId, t);
        } else {
          PutSame(m, user, h.deviceId);
        }
      }
    } else {
      assert c.rows == saved;
    }
  }

  lemma AdoptedMeans(s: State, h: Header)
    ensures AdoptedThenThrown(s, h) ==> h.dhPublic != s.remoteDhPublic
    ensures AlreadyTaken(s, h) ==> h.dhPublic == s.remoteDhPublic
  {
  }

  lemma OneOperationCoherence(c: Copies, op: Operation)
    requires Coherent(c.memory, c.rows)
    ensures Coherent(After(c, op).memory, After(c, op).rows) <==> Safe(c.memory, op)
  {
    hide Coherent, CreateAll, RowsOf, AllSent, AdoptedThenThrown, NoDeviceTaken;
    match op
    case Creates(user, offers, store, post) => CreationCoherence(c.memory, c.rows, user, offers, store, post);
    case Sends(user, _) => SendKeepsCoherent(c.memory, c.rows, user);
    case Receives(user, h, drawn) => ReceiveCoherence(c.memory, c.rows, user, h, drawn);
  }

  /** The header with which memory and database part: an unseen key, index -1. */
  lemma UnsavedEpoch(m: Sessions, saved: Rows, user: string, d: DeviceId, key: Term, drawn: nat)
    requires Coherent(m, saved) && Has(m, user, d)
    requires key != m[user][d].remoteDhPublic && -1 !in m[user][d].skippedKeys
    ensures var op := Receives(user, Header(key, 0, -1, d, ""), drawn);
      var c := After(Copies(m, saved), op);
      && ReceiveFrom(m, user, op.header, drawn).1 == Reply(KeyNotFound)
      && c.rows == saved && c.memory[user][d].remoteDhPublic == key != saved[d].1.remoteDhPublic
      && !Coherent(c.memory, c.rows)
  {
    hide AdvanceReceive, Coherent;
    var h := Header(key, 0, -1, d, "");
    ThrowsExactly(m[user][d], h, drawn);
    ReceiveCoherence(m, saved, user, h, drawn);
    assert saved + RowsOf(user, map[]) == saved;
    SavedAs(m, saved, user, d);
  }

  lemma SavedAs(m: Sessions, saved: Rows, user: string, d: DeviceId)
    requires Coherent(m, saved) && Has(m, user, d)
    ensures d in saved && saved[d] == (user, Observe(m[user][d]))
  {
  }

  /** The creation with which they part: one device, offered for a second user. */
  lemma DeviceOfTwoUsers(
      m: Sessions, saved: Rows, first: string, second: string, offer: Offer, store: KeyBundle.KeyStore)
    requires Coherent(m, saved) && first != second && KeyBundle.CreateRatchet(offer.bundle, store, offer.unset).Success?
    requires var d := offer.bundle.theirDevicePublic; Has(m, first, d) && !Has(m, second, d)
    ensures var d := offer.bundle.theirDevicePublic;
      var c := After(Copies(m, saved), Creates(second, [offer], store, true));
      && Has(c.memory, first, d) && Has(c.memory, second, d) && c.rows[d].0 == second
      && !Coherent(c.memory, c.rows)
  {
    hide KeyBundle.CreateRatchet;
    var d, known := offer.bundle.theirDevicePublic, Of(m, second);
    assert [offer][0] == offer && [offer][..0] == [];
    assert Reached(known, [offer], store, 0);
    CreationCoherence(m, saved, second, [offer], store, true);
    CreatedExactly(known, [offer], store, true, d);
    assert WillHave(known, [offer], store, d);
  }

  // ---- Whole runs ----

  ghost function AfterAll(c: Copies, ops: seq<Operation>): Copies {
    if ops == [] then c else After(AfterAll(c, ops[..|ops| - 1]), ops[|ops| - 1])
  }

  ghost predicate AllSafe(c: Copies, ops: seq<Operation>) {
    forall i | 0 <= i < |ops| :: Safe(AfterAll(c, ops[..i]).memory, ops[i])
  }

  ghost predicate CoherentAfter(c: Copies, ops: seq<Operation>) {
    Coherent(AfterAll(c, ops).memory, AfterAll(c, ops).rows)
  }

  ghost predicate AlwaysCoherent(c: Copies, ops: seq<Operation>) {
    forall i | 0 <= i <= |ops| :: CoherentAfter(c, ops[..i])
  }

  lemma AlwaysStep(c: Copies, ops: seq<Operation>)
    requires ops != []
    ensures AlwaysCoherent(c, ops) <==> AlwaysCoherent(c, ops[..|ops| - 1]) && CoherentAfter(c, ops)
    ensures AllSafe(c, ops)
       <==> AllSafe(c, ops[..|ops| - 1]) && Safe(AfterAll(c, ops[..|ops| - 1]).memory, ops[|ops| - 1])
  {
    hide CoherentAfter, Safe, AfterAll;
    var init := ops[..|ops| - 1];
    assert forall i | 0 <= i <= |init| :: init[..i] == ops[..i];
    assert ops[..|ops|] == ops;
  }

  /** Memory and database agree at every point of a run exactly when each of its operations is safe. */
  lemma {:induction false} CoherentThroughout(c: Copies, ops: seq<Operation>)
    requires Coherent(c.memory, c.rows)
    ensures AllSafe(c, ops) <==> AlwaysCoherent(c, ops)
  {
    hide Coherent, Safe, After;
    if ops == [] {
      assert ops[..0] == ops;
    } else {
      var init := ops[..|ops| - 1];
      CoherentThroughout(c, init);
      AlwaysStep(c, ops);
      if AlwaysCoherent(c, init) {
        assert init[..|init|] == init;
        assert CoherentAfter(c, init[..|init|]);
        OneOperationCoherence(AfterAll(c, init), ops[|ops| - 1]);
      }
    }
  }

  // ---- Reloading ----

  /** load_ratchets_from_db, row after row. */
  ghost function LoadInto(m: Sessions, rows: seq<(string, DeviceId, Octets)>): Sessions
    requires forall i | 0 <= i < |rows| :: Complete(rows[i].2)
  {
    if rows == [] then m
    else
      var (user, d, bytes) := rows[|rows| - 1];
      var before := LoadInto(m, rows[..|rows| - 1]);
      Put(before, user, d, Decode(bytes))
  }

  /** What a restart can rebuild: users without any session leave no row. */
  ghost function Rebuilt(m: Sessions): Sessions {
    map u | u in m && m[u] != map[] :: map d | d in m[u] :: Observe(m[u][d])
  }

  ghost predicate Listed(rows: seq<(string, DeviceId, Octets)>, user: string, d: DeviceId) {
    exists i | 0 <= i < |rows| :: rows[i].0 == user && rows[i].1 == d
  }

  /** Each row carries what is saved for its device. */
  ghost predicate CarriesSaved(rows: seq<(string, DeviceId, Octets)>, saved: Rows) {
    forall i | 0 <= i < |rows| ::
      Complete(rows[i].2) && rows[i].1 in saved && saved[rows[i].1] == (rows[i].0, Decode(rows[i].2))
  }

  lemma ListedStep(rows: seq<(string, DeviceId, Octets)>, user: string, d: DeviceId)
    requires rows != []
    ensures var last := rows[|rows| - 1];
      Listed(rows, user, d) <==> Listed(rows[..|rows| - 1], user, d) || (last.0 == user && last.1 == d)
  {
    var init := rows[..|rows| - 1];
    if Listed(rows, user, d) && !(rows[|rows| - 1].0 == user && rows[|rows| - 1].1 == d) {
      var i :| 0 <= i < |rows| && rows[i].0 == user && rows[i].1 == d;
      assert init[i] == rows[i];
    }
    if Listed(init, user, d) {
      var i :| 0 <= i < |init| && init[i].0 == user && init[i].1 == d;
      assert rows[i] == init[i];
    }
  }

  /** What memory is after loading some rows over m: sessions with a row are what it carries, the others stay. */
  ghost predicate LoadedFrom(m: Sessions, l: Sessions, rows: seq<(string, DeviceId, Octets)>, saved: Rows) {
    && (forall u | u in l :: u in m || l[u] != map[])
    && (forall u, d :: Has(l, u, d) <==> Has(m, u, d) || Listed(rows, u, d))
    && (forall u, d | Has(l, u, d) ::
          if Listed(rows, u, d) then d in saved && saved[d] == (u, l[u][d]) else Has(m, u, d) && l[u][d] == m[u][d])
  }

  lemma LoadedStep(m: Sessions, l: Sessions, rows: seq<(string, DeviceId, Octets)>, saved: Rows, s: State)
    requires rows != [] && LoadedFrom(m, l, rows[..|rows| - 1], saved)
    requires var last := rows[|rows| - 1]; last.1 in saved && saved[last.1] == (last.0, s)
    ensures var last := rows[|rows| - 1]; LoadedFrom(m, Put(l, last.0, last.1, s), rows, saved)
  {
    hide Listed;
    var last := rows[|rows| - 1];
    var l' := Put(l, last.0, last.1, s);
    assert last.1 in l'[last.0];
    forall u, d
      ensures Has(l', u, d) <==> Has(m, u, d) || Listed(rows, u, d)
      ensures Has(l', u, d) ==>
        if Listed(rows, u, d) then d in saved && saved[d] == (u, l'[u][d]) else Has(m, u, d) && l'[u][d] == m[u][d]
    {
      ListedStep(rows, u, d);
      PutAt(l, last.0, last.1, s, u, d);
    }
  }

  lemma {:induction false} LoadedSessions(m: Sessions, rows: seq<(string, DeviceId, Octets)>, saved: Rows)
    requires CarriesSaved(rows, saved)
    ensures LoadedFrom(m, LoadInto(m, rows), rows, saved)
  {
    if rows != [] {
      var init, last := rows[..|rows| - 1], rows[|rows| - 1];
      LoadedSessions(m, init, saved);
      LoadedStep(m, LoadInto(m, init), rows, saved, Decode(last.2));
    }
  }

  lemma ListedExactly(
      m: Sessions, t: Database.Tables, kek: Term, rows: seq<(string, DeviceId, Octets)>, u: string, d: DeviceId)
    requires Database.Readable(t, kek) && Coherent(m, Database.Saved(t, kek))
    requires Database.IsListing(rows, t, kek) && CarriesSaved(rows, Database.Saved(t, kek))
    ensures Listed(rows, u, d) <==> Has(m, u, d)
  {
    var saved := Database.Saved(t, kek);
    if Has(m, u, d) {
      assert d in saved && saved[d].0 == u;
      assert d in Database.Opened(t, kek);
      var i :| 0 <= i < |rows| && rows[i].1 == d;
      assert saved[rows[i].1].0 == rows[i].0;
    }
  }

  /** Loading into an empty manager, in any order of the rows, rebuilds the nested map: every user with a session,
      every device, and every field of each ratchet the protocol reads. */
  lemma ReloadRebuilds(m: Sessions, t: Database.Tables, kek: Term, rows: seq<(string, DeviceId, Octets)>)
    requires Database.Readable(t, kek) && Coherent(m, Database.Saved(t, kek))
    requires Database.IsListing(rows, t, kek)
    ensures CarriesSaved(rows, Database.Saved(t, kek))
    ensures LoadInto(map[], rows) == Rebuilt(m)
  {
    ListingCarriesSaved(t, kek, rows);
    forall u, d ensures Listed(rows, u, d) <==> Has(m, u, d) {
      ListedExactly(m, t, kek, rows, u, d);
    }
    LoadedMatches(m, rows, Database.Saved(t, kek));
  }

  lemma LoadedMatches(m: Sessions, rows: seq<(string, DeviceId, Octets)>, saved: Rows)
    requires CarriesSaved(rows, saved) && Coherent(m, saved)
    requires forall u, d :: Listed(rows, u, d) <==> Has(m, u, d)
    ensures LoadInto(map[], rows) == Rebuilt(m)
  {
    hide Decode, Complete, Observe;
    LoadedSessions(map[], rows, saved);
    var l, r := LoadInto(map[], rows), Rebuilt(m);
    forall u, d
      ensures Has(l, u, d) <==> Has(r, u, d)
      ensures Has(l, u, d) ==> l[u][d] == r[u][d]
    {
      assert Has(r, u, d) <==> Has(m, u, d);
    }
    SameSessions(l, r);
  }

  /** Nested maps without empty users are equal when they agree entry by entry. */
  lemma SameSessions(l: Sessions, r: Sessions)
    requires forall u | u in l :: l[u] != map[]
    requires forall u | u in r :: r[u] != map[]
    requires forall u, d :: Has(l, u, d) <==> Has(r, u, d)
    requires forall u, d | Has(l, u, d) && Has(r, u, d) :: l[u][d] == r[u][d]
    ensures l == r
  {
    forall u | u in l ensures u in r && l[u] == r[u] {
      SameUser(l, r, u);
    }
    forall u | u in r ensures u in l {
      SameUser(r, l, u);
    }
  }

  lemma SameUser(l: Sessions, r: Sessions, u: string)
    requires u in l && l[u] != map[]
    requires forall d :: Has(l, u, d) <==> Has(r, u, d)
    requires forall d | Has(l, u, d) && Has(r, u, d) :: l[u][d] == r[u][d]
    ensures u in r && l[u] == r[u]
  {
    var d :| d in l[u];
    assert Has(l, u, d);
    forall e ensures e in l[u] <==> e in r[u] {
      assert Has(l, u, e) <==> Has(r, u, e);
    }
  }

  lemma ListingCarriesSaved(t: Database.Tables, kek: Term, rows: seq<(string, DeviceId, Octets)>)
    requires Database.Readable(t, kek) && Database.IsListing(rows, t, kek)
    ensures CarriesSaved(rows, Database.Saved(t, kek))
  {
    forall i | 0 <= i < |rows|
      ensures rows[i].1 in Database.Opened(t, kek) && Database.Opened(t, kek)[rows[i].1] == (rows[i].0, rows[i].2)
    {
    }
  }
}
